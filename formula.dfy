/**
 * The log-likelihood formula and its free-variable order. The motion model's per-branch term
 * (`form_log_like`) is kept as an uninterpreted term; the formula is the running sum the
 * builder accumulates over the tree traversal.
 */
module Formula {
  import opened Wrappers
  import opened Symbols
  import opened Arrays
  import opened Packing

  /** A motion model: Brownian motion, or another model with its own parameter symbols. */
  datatype MotionModel = Brownian | CustomModel(parameters: seq<Symbol>)

  /** `model.get_parameters()`: the Brownian model's only parameter is its rate. */
  function GetParameters(m: MotionModel): (ps: seq<Symbol>)
    ensures m.Brownian? ==> |ps| == 1
  {
    match m
    case Brownian => [BrownianRate]
    case CustomModel(ps) => ps
  }

  /** The logarithm handed to the motion model (symengine's `log` for the ML path). */
  datatype LogFunc = LogFunc(name: string)

  /** `model.form_log_like(time, from_states, to_states, log_f)` for one branch, uninterpreted. */
  datatype Term = FormLogLike(model: MotionModel, time: real, fromStates: NdArray<Entry>,
                              toStates: NdArray<Entry>, logF: LogFunc)

  /** A sum of terms, built by `loglike_form = 0` and repeated `loglike_form += term`. */
  datatype Expr = Zero | Plus(sum: Expr, term: Term)

  /** The sum of the terms, added left to right. */
  function SumOf(ts: seq<Term>): Expr
    decreases |ts|
  {
    if ts == [] then Zero else Plus(SumOf(ts[..|ts| - 1]), ts[|ts| - 1])
  }

  /** The terms of a sum, in the order they were added. */
  function TermsOf(e: Expr): seq<Term> {
    match e
    case Zero => []
    case Plus(s, t) => TermsOf(s) + [t]
  }

  lemma {:induction false} TermsOfSumOf(ts: seq<Term>)
    ensures TermsOf(SumOf(ts)) == ts
    decreases |ts|
  {
    if ts != [] {
      TermsOfSumOf(ts[..|ts| - 1]);
    }
  }

  lemma {:induction false} SumOfTermsOf(e: Expr)
    ensures SumOf(TermsOf(e)) == e
  {
    match e
    case Zero =>
    case Plus(s, t) =>
      SumOfTermsOf(s);
      assert (TermsOf(s) + [t])[..|TermsOf(s)|] == TermsOf(s);
  }

  // ---- the tree as the formula builder sees it --------------------------------------------

  predicate AllSome<T>(s: seq<Option<T>>) {
    forall i :: 0 <= i < |s| ==> s[i].Some?
  }

  /** Parent links (`node.up`, `None` at the root) stay inside the tree. */
  predicate ParentsInRange(up: seq<Option<nat>>) {
    forall v :: 0 <= v < |up| && up[v].Some? ==> up[v].value < |up|
  }

  predicate InRange(order: seq<nat>, n: nat) {
    forall i :: 0 <= i < |order| ==> order[i] < n
  }

  predicate Distinct<T(==)>(s: seq<T>) {
    forall i, j :: 0 <= i < j < |s| ==> s[i] != s[j]
  }

  /** The traversal visits every node of `[0, n)` exactly once. */
  predicate IsPermutation(order: seq<nat>, n: nat) {
    |order| == n && InRange(order, n) && Distinct(order) && forall v :: 0 <= v < n ==> v in order
  }

  /** The non-root nodes of `order`, in traversal order: the nodes that contribute a term. */
  function BranchNodes(up: seq<Option<nat>>, order: seq<nat>): (r: seq<nat>)
    requires InRange(order, |up|)
    ensures forall i :: 0 <= i < |r| ==> r[i] < |up| && up[r[i]].Some?
    decreases |order|
  {
    if order == [] then []
    else
      var init := BranchNodes(up, order[..|order| - 1]);
      var v := order[|order| - 1];
      if up[v].Some? then init + [v] else init
  }

  /** A node is a branch node exactly when the traversal visits it and it is not the root. */
  lemma {:induction false} BranchNodesMembers(up: seq<Option<nat>>, order: seq<nat>, v: nat)
    requires InRange(order, |up|)
    ensures v in BranchNodes(up, order) <==> v in order && v < |up| && up[v].Some?
    decreases |order|
  {
    if order != [] {
      var init := order[..|order| - 1];
      BranchNodesMembers(up, init, v);
      assert order == init + [order[|order| - 1]];
    }
  }

  /** A traversal without repeats yields each branch node once. */
  lemma {:induction false} BranchNodesDistinct(up: seq<Option<nat>>, order: seq<nat>)
    requires InRange(order, |up|) && Distinct(order)
    ensures Distinct(BranchNodes(up, order))
    decreases |order|
  {
    if order != [] {
      var init := order[..|order| - 1];
      var v := order[|order| - 1];
      BranchNodesDistinct(up, init);
      if up[v].Some? {
        BranchNodesMembers(up, init, v);
        assert v !in init;
      }
    }
  }

  /** The formula holds one term for every non-root node and none for the root. */
  lemma BranchNodesOfTraversal(up: seq<Option<nat>>, traversal: seq<nat>)
    requires IsPermutation(traversal, |up|)
    ensures Distinct(BranchNodes(up, traversal))
    ensures forall v :: 0 <= v < |up| ==> (v in BranchNodes(up, traversal) <==> up[v].Some?)
  {
    BranchNodesDistinct(up, traversal);
    forall v | 0 <= v < |up| ensures v in BranchNodes(up, traversal) <==> up[v].Some? {
      BranchNodesMembers(up, traversal, v);
    }
  }

  /** What the builder needs of the tree: parents in range and every node's vectors bound. */
  predicate Formulable(up: seq<Option<nat>>, dist: seq<real>, vectors: seq<Option<NdArray<Entry>>>) {
    |dist| == |up| && |vectors| == |up| && ParentsInRange(up) && AllSome(vectors)
  }

  /** The term for the branch from `v`'s parent to `v`. */
  function BranchTerm(model: MotionModel, logF: LogFunc, up: seq<Option<nat>>, dist: seq<real>,
                      vectors: seq<Option<NdArray<Entry>>>, v: nat): (t: Term)
    requires Formulable(up, dist, vectors)
    requires v < |up| && up[v].Some?
    ensures t.model == model && t.time == dist[v] && t.logF == logF
    ensures t.fromStates == vectors[up[v].value].value && t.toStates == vectors[v].value
  {
    FormLogLike(model, dist[v], vectors[up[v].value].value, vectors[v].value, logF)
  }

  /** The terms of the formula, one per branch node, in traversal order. */
  function BranchTerms(model: MotionModel, logF: LogFunc, up: seq<Option<nat>>, dist: seq<real>,
                       vectors: seq<Option<NdArray<Entry>>>, order: seq<nat>): seq<Term>
    requires Formulable(up, dist, vectors) && InRange(order, |up|)
  {
    var bn := BranchNodes(up, order);
    seq(|bn|, i requires 0 <= i < |bn| => BranchTerm(model, logF, up, dist, vectors, bn[i]))
  }

  /** Visiting one more node adds its term if, and only if, it is not the root. */
  lemma BranchTermsSnoc(model: MotionModel, logF: LogFunc, up: seq<Option<nat>>, dist: seq<real>,
                        vectors: seq<Option<NdArray<Entry>>>, order: seq<nat>, v: nat)
    requires Formulable(up, dist, vectors) && InRange(order, |up|) && v < |up|
    ensures InRange(order + [v], |up|)
    ensures BranchTerms(model, logF, up, dist, vectors, order + [v]) ==
            if up[v].Some? then BranchTerms(model, logF, up, dist, vectors, order) + [BranchTerm(model, logF, up, dist, vectors, v)]
            else BranchTerms(model, logF, up, dist, vectors, order)
  {
    assert (order + [v])[..|order|] == order;
  }

  // ---- the free-variable order -------------------------------------------------------------

  /** The flattened symbols of every ancestral node `[ntips, nnodes)`, in node-index order. */
  function SymbolBlocks(ntips: nat, nnodes: nat, shape: seq<nat>): (bs: seq<seq<Symbol>>)
    requires ntips <= nnodes
    ensures |bs| == nnodes - ntips && Uniform(bs, Prod(shape))
  {
    var bs := seq(nnodes - ntips, j requires 0 <= j < nnodes - ntips => SymbolArray(ntips + j, shape).flat);
    assert forall j :: 0 <= j < |bs| ==> |bs[j]| == Prod(shape) by {
      forall j | 0 <= j < |bs| ensures |bs[j]| == Prod(shape) {
        var a := SymbolArray(ntips + j, shape);
        assert bs[j] == a.flat;
      }
    }
    bs
  }

  /**
   * The model parameters, then every ancestral node's symbols, in node-index order: one entry
   * per parameter and one per scalar of every ancestral vector.
   */
  function VariableOrder(params: seq<Symbol>, ntips: nat, nnodes: nat, shape: seq<nat>): (vs: seq<Symbol>)
    requires ntips <= nnodes
    ensures |vs| == |params| + BlocksLength(nnodes - ntips, Prod(shape))
    ensures vs[..|params|] == params
  {
    ConcatLength(SymbolBlocks(ntips, nnodes, shape), Prod(shape));
    Pack(params, SymbolBlocks(ntips, nnodes, shape))
  }

  /** Symbol `c` of ancestral node `ntips + j` sits after the parameters and the `j` blocks before it. */
  lemma VariableOrderAt(params: seq<Symbol>, ntips: nat, nnodes: nat, shape: seq<nat>, j: nat, c: nat)
    requires ntips + j < nnodes && c < Prod(shape)
    ensures |params| + BlocksLength(j, Prod(shape)) + c < |VariableOrder(params, ntips, nnodes, shape)|
    ensures VariableOrder(params, ntips, nnodes, shape)[|params| + BlocksLength(j, Prod(shape)) + c] == NodeSymbol(ntips + j, c)
  {
    var n := Prod(shape);
    var bs := SymbolBlocks(ntips, nnodes, shape);
    var vs := VariableOrder(params, ntips, nnodes, shape);
    ConcatAt(bs, n, j, c);
    var q := BlocksLength(j, n);
    assert vs == params + Concat(bs);
    assert vs[|params| + q + c] == Concat(bs)[q + c];
    assert bs[j] == SymbolArray(ntips + j, shape).flat;
  }

  /** No model parameter is named like an ancestral symbol. */
  ghost predicate NoNodeSymbols(params: seq<Symbol>) {
    forall i, k: nat, c: nat :: 0 <= i < |params| ==> params[i] != NodeSymbol(k, c)
  }

  /** Given distinct parameters, no variable appears twice in the variable list. */
  lemma VariablesDistinct(params: seq<Symbol>, ntips: nat, nnodes: nat, shape: seq<nat>)
    requires ntips <= nnodes && Distinct(params) && NoNodeSymbols(params)
    ensures Distinct(VariableOrder(params, ntips, nnodes, shape))
  {
    var vs := VariableOrder(params, ntips, nnodes, shape);
    var p, n, m := |params|, Prod(shape), nnodes - ntips;
    forall i, i' | 0 <= i < i' < |vs| ensures vs[i] != vs[i'] {
      if i' < p {
        assert vs[i] == params[i] && vs[i'] == params[i'];
      } else {
        var j', c' := IndexSplit(i', p, n, m);
        VariableOrderAt(params, ntips, nnodes, shape, j', c');
        if i < p {
          assert vs[i] == params[i];
        } else {
          var j, c := IndexSplit(i, p, n, m);
          VariableOrderAt(params, ntips, nnodes, shape, j, c);
          NodeSymbolInjective(ntips + j, c, ntips + j', c');
        }
      }
    }
  }

  /** Under the default Brownian model the variable list never repeats a symbol. */
  lemma BrownianVariablesDistinct(ntips: nat, nnodes: nat, shape: seq<nat>)
    requires ntips <= nnodes
    ensures Distinct(VariableOrder(GetParameters(Brownian), ntips, nnodes, shape))
  {
    VariablesDistinct(GetParameters(Brownian), ntips, nnodes, shape);
  }

  /**
   * Unpacking reads each symbol's value from the position the variable list gave it: if the
   * variable at position `i` is component `c` of node `k`, then `k` is ancestral and component
   * `c` of the vector unpacked for `k` is `x[i]`.
   */
  lemma UnpackFollowsVariableOrder(params: seq<Symbol>, ntips: nat, nnodes: nat, shape: seq<nat>,
                                   x: seq<real>, i: nat, k: nat, c: nat)
    requires ntips <= nnodes && NoNodeSymbols(params)
    requires |x| == |params| + BlocksLength(nnodes - ntips, Prod(shape))
    requires i < |x| && VariableOrder(params, ntips, nnodes, shape)[i] == NodeSymbol(k, c)
    ensures ntips <= k < nnodes && c < Prod(shape)
    ensures Unpack(x, |params|, Prod(shape), nnodes - ntips).1[k - ntips][c] == x[i]
  {
    var vs := VariableOrder(params, ntips, nnodes, shape);
    var p, n, m := |params|, Prod(shape), nnodes - ntips;
    assert i >= p;
    var j, c' := IndexSplit(i, p, n, m);
    VariableOrderAt(params, ntips, nnodes, shape, j, c');
    NodeSymbolInjective(k, c, ntips + j, c');
    assert k - ntips == j && c == c';
    UnpackedBlock(x, p, n, m, j);
    var q := BlocksLength(j, n);
    var b := Unpack(x, p, n, m).1[j];
    assert b == x[p + q .. p + q + n];
    assert b[c] == x[p + q + c];
  }
}
