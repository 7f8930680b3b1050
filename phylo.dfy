/**
 * The `PhyloShape` object: it binds shape samples to the tips of a tree, puts free symbols on
 * the ancestral nodes, assembles the log-likelihood, runs the optimiser and writes the
 * reconstructed vectors and vertices back onto the ancestral nodes.
 */
module Phylo {
  import opened Wrappers
  import opened Symbols
  import opened Arrays
  import opened Packing
  import opened Formula
  import opened Search

  type Coord = (real, real, real)

  /** A sample's vertex coordinates (per-vertex colours are not used by the core). */
  datatype Vertices = Vertices(coords: seq<Coord>)

  /** A node's vector representation: the translator's output at tips, symbols or numbers at ancestral nodes. */
  type Vectors = NdArray<Entry>

  /** The fitted vertex/vector translator; the core uses only its two mappings. */
  datatype Translator = Translator(toVectors: Vertices -> Vectors, toVertices: Vectors -> Vertices)

  /** The errors the core raises. */
  datatype PhyloError =
    | MissingTip(name: string)   // a tip name has no shape sample
    | TransformPairing           // only one of the two vector transforms was given
    | OptimizationFailed         // all 200 optimisation attempts failed

  /** symengine's `log`, which the maximum-likelihood path hands to the motion model. */
  const SymengineLog: LogFunc := LogFunc("symengine.log")

  /**
   * The tree as the core uses it: nodes `[0, ntips)` are tips and `[ntips, nnodes)` ancestral
   * nodes; each node has a name, a parent (none at the root) and a branch length, and the
   * traversal visits every node once. The per-node attributes the core assigns are fields.
   */
  class Tree {
    const ntips: nat
    const nnodes: nat
    const names: seq<string>
    const up: seq<Option<nat>>
    const dist: seq<real>
    const traversal: seq<nat>
    var vertices: seq<Option<Vertices>>
    var vectors: seq<Option<Vectors>>
    var vectorsSymbols: seq<Option<NdArray<Symbol>>>

    ghost predicate Structured() {
      && 1 <= ntips <= nnodes
      && |names| == nnodes && |up| == nnodes && |dist| == nnodes
      && ParentsInRange(up)
      && IsPermutation(traversal, nnodes)
    }

    ghost predicate Valid()
      reads this
    {
      Structured() && |vertices| == nnodes && |vectors| == nnodes && |vectorsSymbols| == nnodes
    }

    /** A tree whose nodes carry no vertices or vectors yet. */
    constructor (ntips: nat, nnodes: nat, names: seq<string>, up: seq<Option<nat>>, dist: seq<real>,
                 traversal: seq<nat>)
      requires 1 <= ntips <= nnodes && |names| == nnodes && |up| == nnodes && |dist| == nnodes
      requires ParentsInRange(up) && IsPermutation(traversal, nnodes)
      ensures Valid()
      ensures this.ntips == ntips && this.nnodes == nnodes && this.names == names
      ensures this.up == up && this.dist == dist && this.traversal == traversal
      ensures vertices == seq(nnodes, _ => None) && vectors == seq(nnodes, _ => None)
      ensures vectorsSymbols == seq(nnodes, _ => None)
    {
      this.ntips, this.nnodes, this.names := ntips, nnodes, names;
      this.up, this.dist, this.traversal := up, dist, traversal;
      vertices := seq(nnodes, _ => None);
      vectors := seq(nnodes, _ => None);
      vectorsSymbols := seq(nnodes, _ => None);
    }
  }

  /**
   * `__map_shape_to_tip`: gives every tip the vertices of the sample named like it, in index
   * order, and stops at the first tip whose name has no sample, returning that tip's index.
   */
  method MapShapeToTip(tree: Tree, shapes: map<string, Vertices>) returns (missing: Option<nat>)
    requires tree.Valid()
    modifies tree`vertices
    ensures tree.Valid()
    ensures missing.Some? ==> missing.value < tree.ntips && tree.names[missing.value] !in shapes
    ensures var stop := if missing.Some? then missing.value else tree.ntips;
      && (forall i :: 0 <= i < stop ==> tree.names[i] in shapes && tree.vertices[i] == Some(shapes[tree.names[i]]))
      && (forall i :: stop <= i < tree.nnodes ==> tree.vertices[i] == old(tree.vertices[i]))
  {
    var nodeId := 0;
    while nodeId < tree.ntips
      invariant 0 <= nodeId <= tree.ntips && tree.Valid()
      invariant forall i :: 0 <= i < nodeId ==> tree.names[i] in shapes && tree.vertices[i] == Some(shapes[tree.names[i]])
      invariant forall i :: nodeId <= i < tree.nnodes ==> tree.vertices[i] == old(tree.vertices[i])
    {
      var name := tree.names[nodeId];
      if name !in shapes {
        return Some(nodeId);
      }
      tree.vertices := tree.vertices[nodeId := Some(shapes[name])];
      nodeId := nodeId + 1;
    }
    return None;
  }

  /**
   * Tip `i` is the first tip, in index order, whose name `name` has no sample: every earlier tip
   * is bound to its sample and no later node has been touched.
   */
  twostate predicate FirstMissingTip(tree: Tree, shapes: map<string, Vertices>, i: nat, name: string)
    reads tree
    requires tree.Valid() && old(tree.Valid())
  {
    && i < tree.ntips && tree.names[i] == name && name !in shapes
    && (forall i' :: 0 <= i' < i ==> tree.names[i'] in shapes && tree.vertices[i'] == Some(shapes[tree.names[i']]))
    && (forall i' :: i <= i' < tree.nnodes ==> tree.vertices[i'] == old(tree.vertices[i']))
  }

  class PhyloShape {
    const tree: Tree
    const shapes: map<string, Vertices>
    const model: MotionModel
    const vectTransform: Option<seq<Vectors> -> seq<Vectors>>
    const vectInverseTransform: Option<Vectors -> Vectors>
    var variables: seq<Symbol>
    var vvTranslator: Option<Translator>
    var loglikeForm: Expr
    var negloglikeFunc: Option<Objective>
    var result: Option<OptResult>

    /** Every tip name has a sample. */
    ghost predicate TipsNamed() {
      tree.Structured() && forall i :: 0 <= i < tree.ntips ==> tree.names[i] in shapes
    }

    /** Every tip carries the vertices of its sample. */
    ghost predicate TipsBound()
      reads tree
    {
      tree.Valid() && TipsNamed() &&
      forall i :: 0 <= i < tree.ntips ==> tree.names[i] in shapes && tree.vertices[i] == Some(shapes[tree.names[i]])
    }

    ghost predicate Valid()
      reads tree
    {
      TipsBound() && (vectTransform.None? <==> vectInverseTransform.None?)
    }

    /** The translator's vectors for every tip's sample, in tip order. */
    ghost function EncodedTips(translator: Translator): (vs: seq<Vectors>)
      requires TipsNamed()
      ensures |vs| == tree.ntips
    {
      seq(tree.ntips, i requires 0 <= i < tree.ntips => translator.toVectors(shapes[tree.names[i]]))
    }

    /** The transform, if any, gives back one vector per tip. */
    ghost predicate TransformFits(translator: Translator)
      requires TipsNamed()
    {
      vectTransform.Some? ==> |vectTransform.value(EncodedTips(translator))| == tree.ntips
    }

    /** The vectors `build_tip_vectors` puts on the tips: encoded, then transformed if asked. */
    ghost function TipVectorsFor(translator: Translator): (vs: seq<Vectors>)
      requires TipsNamed() && TransformFits(translator)
      ensures |vs| == tree.ntips
    {
      if vectTransform.None? then EncodedTips(translator) else vectTransform.value(EncodedTips(translator))
    }

    /** The shape of tip 0's vectors as `build_tip_vectors` makes them. */
    ghost function TipShapeFor(translator: Translator): seq<nat>
      requires TipsNamed() && TransformFits(translator)
    {
      TipVectorsFor(translator)[0].shape
    }

    /** All tips' vectors, as `build_tip_vectors` makes them, share tip 0's shape. */
    ghost predicate TipShapesAgree(translator: Translator)
      requires TipsNamed() && TransformFits(translator)
    {
      forall i :: 0 <= i < tree.ntips ==> TipVectorsFor(translator)[i].shape == TipShapeFor(translator)
    }

    /** Every node's vectors when the formula is assembled: the tips' built vectors, symbols elsewhere. */
    ghost function FormulaVectors(translator: Translator): (vs: seq<Option<Vectors>>)
      requires TipsNamed() && TransformFits(translator)
      ensures |vs| == tree.nnodes
    {
      seq(tree.nnodes, v requires 0 <= v < tree.nnodes =>
        Some(if v < tree.ntips then TipVectorsFor(translator)[v] else AsEntries(SymbolArray(v, TipShapeFor(translator)))))
    }

    /** The shape of tip 0's vectors, which every node's vector array takes. */
    ghost function TipShape(): seq<nat>
      reads tree
      requires tree.Valid() && tree.vectors[0].Some?
    {
      tree.vectors[0].value.shape
    }

    /** `n_vals`: the number of scalars in a vector of the shared shape. */
    ghost function NVals(): nat
      reads tree
      requires tree.Valid() && tree.vectors[0].Some?
    {
      Prod(TipShape())
    }

    /** Every tip has vectors, all of tip 0's shape (as `np.average` over the tips needs). */
    ghost predicate TipVectorsAgree()
      reads tree
    {
      tree.Valid() && tree.vectors[0].Some? &&
      forall i :: 0 <= i < tree.ntips ==> tree.vectors[i].Some? && tree.vectors[i].value.shape == TipShape()
    }

    /** Every ancestral node has its symbol array. */
    ghost predicate AncestorsSymbolic()
      reads tree
    {
      tree.Valid() && forall k :: tree.ntips <= k < tree.nnodes ==> tree.vectorsSymbols[k].Some?
    }

    /** The flattened symbol arrays of the ancestral nodes, in node-index order. */
    ghost function AncestorSymbolBlocks(): (bs: seq<seq<Symbol>>)
      reads tree
      requires AncestorsSymbolic()
      ensures |bs| == tree.nnodes - tree.ntips
    {
      var symbols := tree.vectorsSymbols;
      seq(tree.nnodes - tree.ntips, j requires 0 <= j < tree.nnodes - tree.ntips =>
        symbols[tree.ntips + j].value.flat)
    }

    /** The vertices an ancestral node gets from its vectors, through the inverse transform if any. */
    function Decode(translator: Translator, v: Vectors): Vertices {
      if vectInverseTransform.None? then translator.toVertices(v)
      else translator.toVertices(vectInverseTransform.value(v))
    }

    /** What `__init__` sets once the tips are bound and the transforms are checked. */
    constructor Init(tree: Tree, shapes: map<string, Vertices>, model: Option<MotionModel>,
                     vectTransform: Option<seq<Vectors> -> seq<Vectors>>,
                     vectInverseTransform: Option<Vectors -> Vectors>)
      requires tree.Valid()
      requires forall i :: 0 <= i < tree.ntips ==> tree.names[i] in shapes && tree.vertices[i] == Some(shapes[tree.names[i]])
      requires vectTransform.None? <==> vectInverseTransform.None?
      ensures Valid()
      ensures this.tree == tree && this.shapes == shapes
      ensures this.model == if model.Some? then model.value else Brownian
      ensures this.vectTransform == vectTransform && this.vectInverseTransform == vectInverseTransform
      ensures variables == [] && vvTranslator == None && loglikeForm == Zero
      ensures negloglikeFunc == None && result == None
    {
      this.tree := tree;
      this.shapes := shapes;
      this.model := if model.Some? then model.value else Brownian;
      this.vectTransform := vectTransform;
      this.vectInverseTransform := vectInverseTransform;
      variables := [];
      vvTranslator := None;
      loglikeForm := Zero;
      negloglikeFunc := None;
      result := None;
    }

    /**
     * `PhyloShape(...)`: binds the samples to the tips, then insists that the two transforms
     * come together. The tips are bound before the transforms are checked, so a pairing error
     * leaves the tips bound.
     */
    static method New(tree: Tree, shapes: map<string, Vertices>, model: Option<MotionModel>,
                      vectTransform: Option<seq<Vectors> -> seq<Vectors>>,
                      vectInverseTransform: Option<Vectors -> Vectors>)
      returns (r: Result<PhyloShape, PhyloError>)
      requires tree.Valid()
      modifies tree`vertices
      ensures tree.Valid()
      ensures r.Ok? <==> (forall i :: 0 <= i < tree.ntips ==> tree.names[i] in shapes) &&
                         (vectTransform.None? <==> vectInverseTransform.None?)
      ensures r.Err? && r.error.MissingTip? ==> exists i :: FirstMissingTip(tree, shapes, i, r.error.name)
      ensures r.Err? && !r.error.MissingTip? ==> r.error == TransformPairing
      ensures r.Err? && r.error == TransformPairing ==>
        forall i :: 0 <= i < tree.ntips ==> tree.names[i] in shapes && tree.vertices[i] == Some(shapes[tree.names[i]])
      ensures forall k :: tree.ntips <= k < tree.nnodes ==> tree.vertices[k] == old(tree.vertices[k])
      ensures r.Ok? ==> fresh(r.value) && r.value.Valid() && r.value.tree == tree && r.value.shapes == shapes
      ensures r.Ok? ==> r.value.model == (if model.Some? then model.value else Brownian)
      ensures r.Ok? ==> r.value.vectTransform == vectTransform && r.value.vectInverseTransform == vectInverseTransform
      ensures r.Ok? ==> r.value.variables == [] && r.value.vvTranslator == None && r.value.loglikeForm == Zero
      ensures r.Ok? ==> r.value.negloglikeFunc == None && r.value.result == None
    {
      var missing := MapShapeToTip(tree, shapes);
      if missing.Some? {
        assert FirstMissingTip(tree, shapes, missing.value, tree.names[missing.value]);
        return Err(MissingTip(tree.names[missing.value]));
      }
      if vectTransform.None? != vectInverseTransform.None? {
        return Err(TransformPairing);
      }
      var ps := new PhyloShape.Init(tree, shapes, model, vectTransform, vectInverseTransform);
      return Ok(ps);
    }

    /**
     * `build_tip_vectors`: every tip gets the translator's vectors of its own sample or, when
     * a forward transform is given, its entry of the transformed list of all tips' vectors.
     */
    method BuildTipVectors()
      requires Valid() && vvTranslator.Some? && TransformFits(vvTranslator.value)
      modifies tree`vectors
      ensures Valid()
      ensures forall i :: 0 <= i < tree.ntips ==> tree.vectors[i] == Some(TipVectorsFor(vvTranslator.value)[i])
      ensures forall k :: tree.ntips <= k < tree.nnodes ==> tree.vectors[k] == old(tree.vectors[k])
    {
      var translator := vvTranslator.value;
      if vectTransform.None? {
        var nodeId := 0;
        while nodeId < tree.ntips
          invariant 0 <= nodeId <= tree.ntips && Valid()
          invariant forall i :: 0 <= i < nodeId ==> tree.vectors[i] == Some(EncodedTips(translator)[i])
          invariant forall k :: nodeId <= k < tree.nnodes ==> tree.vectors[k] == old(tree.vectors[k])
        {
          tree.vectors := tree.vectors[nodeId := Some(translator.toVectors(tree.vertices[nodeId].value))];
          nodeId := nodeId + 1;
        }
      } else {
        var vectorsList := [];
        var nodeId := 0;
        while nodeId < tree.ntips
          invariant 0 <= nodeId <= tree.ntips
          invariant vectorsList == EncodedTips(translator)[..nodeId]
        {
          vectorsList := vectorsList + [translator.toVectors(tree.vertices[nodeId].value)];
          nodeId := nodeId + 1;
        }
        assert vectorsList == EncodedTips(translator);
        var transformed := vectTransform.value(vectorsList);
        nodeId := 0;
        while nodeId < |transformed|
          invariant 0 <= nodeId <= |transformed| == tree.ntips && Valid()
          invariant forall i :: 0 <= i < nodeId ==> tree.vectors[i] == Some(transformed[i])
          invariant forall k :: nodeId <= k < tree.nnodes ==> tree.vectors[k] == old(tree.vectors[k])
        {
          tree.vectors := tree.vectors[nodeId := Some(transformed[nodeId])];
          nodeId := nodeId + 1;
        }
      }
    }

    /**
     * `sym_ancestral_vectors`: every ancestral node `k` gets `n_vals` fresh symbols named
     * "k_c", arranged in tip 0's vector shape, as both its vectors and its symbol array.
     */
    method SymAncestralVectors()
      requires Valid() && tree.vectors[0].Some?
      modifies tree`vectors, tree`vectorsSymbols
      ensures Valid() && tree.vectors[0] == old(tree.vectors[0])
      ensures forall k :: 0 <= k < tree.ntips ==>
        tree.vectors[k] == old(tree.vectors[k]) && tree.vectorsSymbols[k] == old(tree.vectorsSymbols[k])
      ensures forall k :: tree.ntips <= k < tree.nnodes ==>
        tree.vectorsSymbols[k] == Some(SymbolArray(k, TipShape())) &&
        tree.vectors[k] == Some(AsEntries(SymbolArray(k, TipShape())))
    {
      var vectorsShape := tree.vectors[0].value.shape;
      var nodeId := tree.ntips;
      while nodeId < tree.nnodes
        invariant tree.ntips <= nodeId <= tree.nnodes && Valid()
        invariant forall k :: 0 <= k < tree.ntips ==>
          tree.vectors[k] == old(tree.vectors[k]) && tree.vectorsSymbols[k] == old(tree.vectorsSymbols[k])
        invariant forall k :: nodeId <= k < tree.nnodes ==>
          tree.vectors[k] == old(tree.vectors[k]) && tree.vectorsSymbols[k] == old(tree.vectorsSymbols[k])
        invariant forall k :: tree.ntips <= k < nodeId ==>
          tree.vectorsSymbols[k] == Some(SymbolArray(k, vectorsShape)) &&
          tree.vectors[k] == Some(AsEntries(SymbolArray(k, vectorsShape)))
      {
        var symbols := SymbolArray(nodeId, vectorsShape);
        tree.vectorsSymbols := tree.vectorsSymbols[nodeId := Some(symbols)];
        tree.vectors := tree.vectors[nodeId := Some(AsEntries(symbols))];
        nodeId := nodeId + 1;
      }
    }

    /**
     * `__update_variables`: the variable list, rebuilt from empty, is the model's parameters
     * followed by each ancestral node's flattened symbols in node-index order.
     */
    method UpdateVariables()
      requires AncestorsSymbolic()
      modifies this`variables
      ensures variables == Pack(GetParameters(model), AncestorSymbolBlocks())
    {
      ghost var blocks := AncestorSymbolBlocks();
      variables := [];
      variables := variables + GetParameters(model);
      var ancestralNodeId := tree.ntips;
      while ancestralNodeId < tree.nnodes
        invariant tree.ntips <= ancestralNodeId <= tree.nnodes
        invariant variables == GetParameters(model) + Concat(blocks[..ancestralNodeId - tree.ntips])
      {
        ghost var j := ancestralNodeId - tree.ntips;
        assert blocks[..j + 1][..j] == blocks[..j];
        assert blocks[..j + 1][j] == blocks[j] == tree.vectorsSymbols[ancestralNodeId].value.flat;
        variables := variables + tree.vectorsSymbols[ancestralNodeId].value.flat;
        ancestralNodeId := ancestralNodeId + 1;
      }
      assert blocks[..tree.nnodes - tree.ntips] == blocks;
    }

    /**
     * `formularize_log_like`: the formula, reset to 0, becomes the sum of one motion-model term
     * per non-root node, in traversal order; then the variable list is rebuilt.
     */
    method FormularizeLogLike(logF: LogFunc)
      requires Valid() && AllSome(tree.vectors) && AncestorsSymbolic()
      modifies this`loglikeForm, this`variables
      ensures loglikeForm == SumOf(BranchTerms(model, logF, tree.up, tree.dist, tree.vectors, tree.traversal))
      ensures variables == Pack(GetParameters(model), AncestorSymbolBlocks())
    {
      var up, dist, vectors, traversal := tree.up, tree.dist, tree.vectors, tree.traversal;
      assert Formulable(up, dist, vectors) && InRange(traversal, |up|);
      loglikeForm := Zero;
      var i := 0;
      while i < |traversal|
        invariant 0 <= i <= |traversal| && InRange(traversal[..i], |up|)
        invariant loglikeForm == SumOf(BranchTerms(model, logF, up, dist, vectors, traversal[..i]))
      {
        var node := traversal[i];
        assert traversal[..i + 1] == traversal[..i] + [node];
        BranchTermsSnoc(model, logF, up, dist, vectors, traversal[..i], node);
        if up[node].Some? {
          var newTerm := FormLogLike(model, dist[node], vectors[up[node].value].value, vectors[node].value, logF);
          loglikeForm := Plus(loglikeForm, newTerm);
        }
        i := i + 1;
      }
      assert traversal[..i] == traversal;
      UpdateVariables();
    }

    /** `functionalize_log_like`: the objective is the negated formula over the variable list. */
    method FunctionalizeLogLike()
      modifies this`negloglikeFunc
      ensures negloglikeFunc == Some(NegLogLike(loglikeForm, variables))
    {
      negloglikeFunc := Some(NegLogLike(loglikeForm, variables));
    }

    /**
     * `__summarize_ml_result`: the first `|params|` entries of the stored result are the model
     * parameters (returned here; the source only logs them); ancestral node `k` gets the
     * `(k - ntips)`-th block of `n_vals` entries after them, in tip 0's shape.
     */
    method SummarizeMlResult() returns (modelParams: seq<real>)
      requires Valid() && result.Some? && tree.vectors[0].Some?
      requires |GetParameters(model)| + BlocksLength(tree.nnodes - tree.ntips, NVals()) <= |result.value.x|
      modifies tree`vectors
      ensures Valid() && tree.vectors[0] == old(tree.vectors[0])
      ensures modelParams == result.value.x[..|GetParameters(model)|]
      ensures forall k :: 0 <= k < tree.ntips ==> tree.vectors[k] == old(tree.vectors[k])
      ensures forall k :: tree.ntips <= k < tree.nnodes ==>
        tree.vectors[k] == Some(NumArray(Unpack(result.value.x, |GetParameters(model)|, NVals(),
                                                tree.nnodes - tree.ntips).1[k - tree.ntips], TipShape()))
    {
      var x := result.value.x;
      var modelParamsSigns := GetParameters(model);
      ghost var p := |modelParamsSigns|;
      var goP := |modelParamsSigns|;
      modelParams := x[..goP];
      var vectorsShape := tree.vectors[0].value.shape;
      var nVals := Prod(vectorsShape);
      var ntips, nnodes, vectors := tree.ntips, tree.nnodes, tree.vectors;
      assert vectorsShape == TipShape() && nVals == NVals();
      ghost var blocks := Unpack(x, p, nVals, nnodes - ntips).1;
      ghost var m := nnodes - ntips;
      var ancNodeId := ntips;
      while ancNodeId < nnodes
        invariant ntips <= ancNodeId <= nnodes && |vectors| == nnodes
        invariant goP == p + BlocksLength(ancNodeId - ntips, nVals)
        invariant forall k :: 0 <= k < ntips ==> vectors[k] == old(tree.vectors[k])
        invariant forall k :: ancNodeId <= k < nnodes ==> vectors[k] == old(tree.vectors[k])
        invariant forall k :: ntips <= k < ancNodeId ==> vectors[k] == Some(NumArray(blocks[k - ntips], vectorsShape))
      {
        UnpackedBlock(x, p, nVals, m, ancNodeId - ntips);
        var toP := goP + nVals;
        vectors := vectors[ancNodeId := Some(NumArray(x[goP..toP], vectorsShape))];
        goP := toP;
        ancNodeId := ancNodeId + 1;
      }
      tree.vectors := vectors;
      assert TipShape() == vectorsShape;
    }

    /** The search `minimize_negloglike` runs with this solver and random source. */
    ghost function DriverFor(basinhopping: (Objective, seq<real>) -> OptResult, draw: (nat, nat) -> real): Driver
      reads this, tree
      requires tree.Valid() && tree.vectors[0].Some? && negloglikeFunc.Some?
    {
      Driver(negloglikeFunc.value, |variables|, NVals(), basinhopping, draw)
    }

    /**
     * `minimize_negloglike`: up to 200 attempts, stopping at the first success, whose result
     * is stored and unpacked onto the ancestral nodes; if every attempt fails the error is
     * raised and neither the stored result nor any node's vectors change. The concurrency hint
     * `numProc` is ignored, as in the source.
     */
    method MinimizeNegloglike(basinhopping: (Objective, seq<real>) -> OptResult, draw: (nat, nat) -> real,
                              numProc: nat)
      returns (outcome: Outcome<PhyloError>)
      requires Valid() && negloglikeFunc.Some? && TipVectorsAgree()
      requires |variables| == |GetParameters(model)| + BlocksLength(tree.nnodes - tree.ntips, NVals())
      requires forall g :: |basinhopping(negloglikeFunc.value, g).x| == |g|
      modifies this`result, tree`vectors
      ensures Valid() && TipVectorsAgree() && tree.vectors[0] == old(tree.vectors[0])
      ensures forall k :: 0 <= k < tree.ntips ==> tree.vectors[k] == old(tree.vectors[k])
      ensures outcome.Pass? <==> exists a :: 0 <= a < MaxRuns && DriverFor(basinhopping, draw).Attempt(a).success
      ensures outcome.Pass? ==> result.Some? && exists a ::
        DriverFor(basinhopping, draw).FirstSuccessAt(a) && result.value == DriverFor(basinhopping, draw).Attempt(a)
      ensures outcome.Pass? ==> |result.value.x| == |variables| && forall k :: tree.ntips <= k < tree.nnodes ==>
        tree.vectors[k] == Some(NumArray(Unpack(result.value.x, |GetParameters(model)|, NVals(),
                                                tree.nnodes - tree.ntips).1[k - tree.ntips], TipShape()))
      ensures outcome.Fail? ==> outcome.error == OptimizationFailed && result == old(result) && tree.vectors == old(tree.vectors)
    {
      // `vector_mean`, the mean of the tips' vectors, flattens to one entry per scalar of tip 0's shape
      var lenVt := Prod(tree.vectors[0].value.shape);
      var d := Driver(negloglikeFunc.value, |variables|, lenVt, basinhopping, draw);
      var successRuns := SearchForSolution(d);
      if successRuns != [] {
        result := Some(successRuns[0]);
        var modelParams := SummarizeMlResult();
        outcome := Pass;
      } else {
        outcome := Fail(OptimizationFailed);
      }
      assert d == DriverFor(basinhopping, draw);
    }

    /**
     * `build_ancestral_vertices`: every ancestral node's vertices are the translator's vertices
     * for its vectors, passed first through the inverse transform when there is one.
     */
    method BuildAncestralVertices()
      requires Valid() && vvTranslator.Some?
      requires forall k :: tree.ntips <= k < tree.nnodes ==> tree.vectors[k].Some?
      modifies tree`vertices
      ensures Valid()
      ensures forall k :: tree.ntips <= k < tree.nnodes ==>
        tree.vertices[k] == Some(Decode(vvTranslator.value, tree.vectors[k].value))
    {
      var translator := vvTranslator.value;
      if vectInverseTransform.None? {
        var ancNodeId := tree.ntips;
        while ancNodeId < tree.nnodes
          invariant tree.ntips <= ancNodeId <= tree.nnodes && Valid()
          invariant forall k :: tree.ntips <= k < ancNodeId ==> tree.vertices[k] == Some(Decode(translator, tree.vectors[k].value))
        {
          tree.vertices := tree.vertices[ancNodeId := Some(translator.toVertices(tree.vectors[ancNodeId].value))];
          ancNodeId := ancNodeId + 1;
        }
      } else {
        var ancNodeId := tree.ntips;
        while ancNodeId < tree.nnodes
          invariant tree.ntips <= ancNodeId <= tree.nnodes && Valid()
          invariant forall k :: tree.ntips <= k < ancNodeId ==> tree.vertices[k] == Some(Decode(translator, tree.vectors[k].value))
        {
          var realVectors := vectInverseTransform.value(tree.vectors[ancNodeId].value);
          tree.vertices := tree.vertices[ancNodeId := Some(translator.toVertices(realVectors))];
          ancNodeId := ancNodeId + 1;
        }
      }
    }

    /** After tip encoding and symbol allocation, the nodes hold exactly `FormulaVectors`. */
    lemma FormulaVectorsInPlace(translator: Translator)
      requires Valid() && TransformFits(translator)
      requires forall i :: 0 <= i < tree.ntips ==> tree.vectors[i] == Some(TipVectorsFor(translator)[i])
      requires forall k :: tree.ntips <= k < tree.nnodes ==> tree.vectors[k] == Some(AsEntries(SymbolArray(k, TipShapeFor(translator))))
      ensures tree.vectors == FormulaVectors(translator) && AllSome(tree.vectors)
      ensures tree.vectors[0].Some? && TipShape() == TipShapeFor(translator)
    {
    }

    /** Symbol arrays laid out by `sym_ancestral_vectors` make the variable list `VariableOrder`. */
    lemma SymbolsInVariableOrder(shape: seq<nat>)
      requires tree.Valid()
      requires forall k :: tree.ntips <= k < tree.nnodes ==> tree.vectorsSymbols[k] == Some(SymbolArray(k, shape))
      ensures AncestorsSymbolic()
      ensures Pack(GetParameters(model), AncestorSymbolBlocks()) == VariableOrder(GetParameters(model), tree.ntips, tree.nnodes, shape)
    {
      assert AncestorSymbolBlocks() == SymbolBlocks(tree.ntips, tree.nnodes, shape);
    }

    /**
     * The set-up half of `reconstruct_ancestral_shapes_using_ml`, given the fitted translator:
     * tip vectors, ancestral symbols, the formula with symengine's `log` and the objective.
     */
    method SetUpLikelihood(translator: Translator)
      requires Valid() && TransformFits(translator) && TipShapesAgree(translator)
      modifies this`vvTranslator, this`loglikeForm, this`variables, this`negloglikeFunc
      modifies tree`vectors, tree`vectorsSymbols
      ensures Valid() && vvTranslator == Some(translator)
      ensures forall i :: 0 <= i < tree.ntips ==> tree.vectors[i] == Some(TipVectorsFor(translator)[i])
      ensures forall i :: 0 <= i < tree.ntips ==> tree.vectorsSymbols[i] == old(tree.vectorsSymbols[i])
      ensures forall k :: tree.ntips <= k < tree.nnodes ==>
        tree.vectorsSymbols[k] == Some(SymbolArray(k, TipShapeFor(translator))) &&
        tree.vectors[k] == Some(AsEntries(SymbolArray(k, TipShapeFor(translator))))
      ensures loglikeForm == SumOf(BranchTerms(model, SymengineLog, tree.up, tree.dist, FormulaVectors(translator), tree.traversal))
      ensures variables == VariableOrder(GetParameters(model), tree.ntips, tree.nnodes, TipShapeFor(translator))
      ensures negloglikeFunc == Some(NegLogLike(loglikeForm, variables))
      ensures TipVectorsAgree() && TipShape() == TipShapeFor(translator)
    {
      vvTranslator := Some(translator);
      BuildTipVectors();
      SymAncestralVectors();
      FormulaVectorsInPlace(translator);
      SymbolsInVariableOrder(TipShapeFor(translator));
      FormularizeLogLike(SymengineLog);
      FunctionalizeLogLike();
    }

    /**
     * `reconstruct_ancestral_shapes_using_ml`, given the fitted translator: the set-up, the
     * search and, only when the search succeeds, the ancestral vertices. When it fails the
     * error is returned, no vertices change and the ancestral nodes keep their symbols.
     */
    method ReconstructAncestralShapesUsingMl(translator: Translator, basinhopping: (Objective, seq<real>) -> OptResult,
                                             draw: (nat, nat) -> real, numProc: nat)
      returns (outcome: Outcome<PhyloError>)
      requires Valid() && TransformFits(translator) && TipShapesAgree(translator)
      requires forall o, g :: |basinhopping(o, g).x| == |g|
      modifies this`vvTranslator, this`loglikeForm, this`variables, this`negloglikeFunc, this`result
      modifies tree`vectors, tree`vectorsSymbols, tree`vertices
      ensures Valid() && vvTranslator == Some(translator)
      ensures forall i :: 0 <= i < tree.ntips ==> tree.vectors[i] == Some(TipVectorsFor(translator)[i])
      ensures forall i :: 0 <= i < tree.ntips ==> tree.vectorsSymbols[i] == old(tree.vectorsSymbols[i])
      ensures forall k :: tree.ntips <= k < tree.nnodes ==> tree.vectorsSymbols[k] == Some(SymbolArray(k, TipShapeFor(translator)))
      ensures loglikeForm == SumOf(BranchTerms(model, SymengineLog, tree.up, tree.dist, FormulaVectors(translator), tree.traversal))
      ensures variables == VariableOrder(GetParameters(model), tree.ntips, tree.nnodes, TipShapeFor(translator))
      ensures negloglikeFunc == Some(NegLogLike(loglikeForm, variables))
      ensures TipVectorsAgree() && TipShape() == TipShapeFor(translator)
      ensures outcome.Pass? <==> exists a :: 0 <= a < MaxRuns && DriverFor(basinhopping, draw).Attempt(a).success
      ensures outcome.Pass? ==> result.Some? && exists a ::
        DriverFor(basinhopping, draw).FirstSuccessAt(a) && result.value == DriverFor(basinhopping, draw).Attempt(a)
      ensures outcome.Pass? ==> |result.value.x| == |variables| && forall k :: tree.ntips <= k < tree.nnodes ==>
        && tree.vectors[k] == Some(NumArray(Unpack(result.value.x, |GetParameters(model)|, NVals(),
                                                   tree.nnodes - tree.ntips).1[k - tree.ntips], TipShape()))
        && tree.vertices[k] == Some(Decode(translator, tree.vectors[k].value))
      ensures outcome.Fail? ==> outcome.error == OptimizationFailed && result == old(result)
      ensures outcome.Fail? ==> tree.vertices == old(tree.vertices) && forall k :: tree.ntips <= k < tree.nnodes ==>
        tree.vectors[k] == Some(AsEntries(SymbolArray(k, TipShapeFor(translator))))
    {
      SetUpLikelihood(translator);
      outcome := MinimizeNegloglike(basinhopping, draw, 1);
      ghost var d := DriverFor(basinhopping, draw);
      if outcome.Pass? {
        BuildAncestralVertices();
      }
      assert d == DriverFor(basinhopping, draw);
    }
  }
}
