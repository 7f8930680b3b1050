/**
 * The optimisation driver of `minimize_negloglike`: up to 200 basin-hopping attempts, each from
 * a fresh random initial guess, stopping at the first attempt that reports success.
 */
module Search {
  import opened Symbols
  import opened Arrays
  import opened Packing
  import opened Formula

  /** `lambdify(args=variables, exprs=[-loglike_form])`: the negated formula over the variables. */
  datatype Objective = NegLogLike(form: Expr, args: seq<Symbol>)

  /** What one basin-hopping run reports. */
  datatype OptResult = OptResult(success: bool, fun: real, x: seq<real>)

  /** The retry budget of the loop `while count_run < 200`. */
  const MaxRuns: nat := 200

  /**
   * Where `initials[-len_vt:]` starts in a vector of length `len`. Python's `-0` is `0`,
   * so a zero `len_vt` selects the whole vector, as does one longer than the vector.
   */
  function TailStart(len: nat, lenVt: nat): (s: nat)
    ensures s <= len
    ensures 0 < lenVt <= len ==> s == len - lenVt
    ensures lenVt == 0 || lenVt >= len ==> s == 0
  {
    if lenVt == 0 || lenVt >= len then 0 else len - lenVt
  }

  /** `1 - (u - 0.5) * 0.01`: a draw moved to within half a percent of 1. */
  function Perturb(u: real): real {
    1.0 - (u - 0.5) * 0.01
  }

  /** The draws with the trailing `len_vt` entries perturbed around 1. */
  function InitialGuess(u: seq<real>, lenVt: nat): (g: seq<real>)
    ensures |g| == |u|
    ensures forall i :: 0 <= i < TailStart(|u|, lenVt) ==> g[i] == u[i]
    ensures forall i :: TailStart(|u|, lenVt) <= i < |u| ==> g[i] == Perturb(u[i])
  {
    var s := TailStart(|u|, lenVt);
    u[..s] + seq(|u| - s, i requires 0 <= i < |u| - s => Perturb(u[s + i]))
  }

  /** Draws of `np.random.random`, each in `[0, 1)`. */
  predicate UnitDraws(u: seq<real>) {
    forall i :: 0 <= i < |u| ==> 0.0 <= u[i] < 1.0
  }

  /** Perturbed entries lie in `(0.995, 1.005]`; the rest stay in `[0, 1)`. */
  lemma InitialGuessBounds(u: seq<real>, lenVt: nat)
    requires UnitDraws(u)
    ensures forall i :: 0 <= i < |u| ==>
      if i < TailStart(|u|, lenVt) then 0.0 <= InitialGuess(u, lenVt)[i] < 1.0
      else 0.995 < InitialGuess(u, lenVt)[i] <= 1.005
  {
    var g := InitialGuess(u, lenVt);
    forall i | TailStart(|u|, lenVt) <= i < |u| ensures 0.995 < g[i] <= 1.005 {
      assert g[i] == 1.0 - (u[i] - 0.5) * 0.01;
    }
  }

  /**
   * With the tips' vector length as `len_vt`, only the symbols of the last ancestral node
   * `nnodes - 1` are perturbed; every other variable keeps its draw.
   */
  lemma GuessPerturbsLastNodeOnly(params: seq<Symbol>, ntips: nat, nnodes: nat, shape: seq<nat>,
                                  u: seq<real>, i: nat)
    requires ntips < nnodes && Prod(shape) > 0
    requires |u| == |VariableOrder(params, ntips, nnodes, shape)| && i < |u|
    ensures var vs := VariableOrder(params, ntips, nnodes, shape);
      if i < TailStart(|u|, Prod(shape)) then InitialGuess(u, Prod(shape))[i] == u[i]
      else vs[i] == NodeSymbol(nnodes - 1, i - (|u| - Prod(shape))) && InitialGuess(u, Prod(shape))[i] == Perturb(u[i])
  {
    var n := Prod(shape);
    var m := nnodes - ntips;
    assert |u| == |params| + BlocksLength(m - 1, n) + n;
    if i >= TailStart(|u|, n) {
      var c := i - (|u| - n);
      VariableOrderAt(params, ntips, nnodes, shape, m - 1, c);
    }
  }

  /**
   * One search: the objective, the number of variables and `len_vt`, the solver and the random
   * source. Basin-hopping is called with a fixed seed, so for a given objective it is a function
   * of the initial guess; `draw(a, i)` is the i-th value `np.random.random` yields in attempt `a`.
   */
  datatype Driver = Driver(objective: Objective, nvars: nat, lenVt: nat,
                           basinhopping: (Objective, seq<real>) -> OptResult,
                           draw: (nat, nat) -> real)
  {
    function Draws(a: nat): (u: seq<real>)
      ensures |u| == nvars
    {
      seq(nvars, i requires 0 <= i < nvars => draw(a, i))
    }

    function Guess(a: nat): seq<real> {
      InitialGuess(Draws(a), lenVt)
    }

    function Attempt(a: nat): OptResult {
      basinhopping(objective, Guess(a))
    }

    /** Attempt `a` is within budget, succeeds, and every earlier attempt failed. */
    ghost predicate FirstSuccessAt(a: nat) {
      a < MaxRuns && Attempt(a).success && forall b :: 0 <= b < a ==> !Attempt(b).success
    }
  }

  /**
   * The retry loop. It returns the list of successful runs it kept: empty exactly when all 200
   * attempts failed, and otherwise the first successful attempt alone.
   */
  method SearchForSolution(d: Driver) returns (successRuns: seq<OptResult>)
    ensures |successRuns| <= 1
    ensures successRuns == [] <==> forall a :: 0 <= a < MaxRuns ==> !d.Attempt(a).success
    ensures successRuns != [] ==> exists a :: d.FirstSuccessAt(a) && successRuns[0] == d.Attempt(a)
  {
    var countRun := 0;
    successRuns := [];
    while countRun < MaxRuns
      invariant countRun <= MaxRuns
      invariant successRuns == []
      invariant forall b :: 0 <= b < countRun ==> !d.Attempt(b).success
    {
      var initials := InitialGuess(d.Draws(countRun), d.lenVt);
      var result := d.basinhopping(d.objective, initials);
      if result.success {
        successRuns := successRuns + [result];
        assert d.FirstSuccessAt(countRun);
        break;
      }
      countRun := countRun + 1;
    }
  }
}
