/**
 * Layout of the optimiser's flat free-variable vector: the model parameters first, then one
 * fixed-size block per ancestral node, in node-index order. The same layout is used to build
 * the list of symbols (`__update_variables`) and to read values back (`__summarize_ml_result`).
 */
module Packing {

  lemma MulSucc(j: nat, n: nat)
    ensures (j + 1) * n == j * n + n
  {
  }

  /**
   * The number of entries in `m` blocks of `n` entries, counted block by block; it is
   * `m * n` (`BlocksLengthIsProduct`).
   */
  function BlocksLength(m: nat, n: nat): nat {
    if m == 0 then 0 else BlocksLength(m - 1, n) + n
  }

  lemma {:induction false} BlocksLengthIsProduct(m: nat, n: nat)
    ensures BlocksLength(m, n) == m * n
  {
    if m > 0 {
      BlocksLengthIsProduct(m - 1, n);
      MulSucc(m - 1, n);
    }
  }

  lemma {:induction false} BlocksLengthMonotone(i: nat, j: nat, n: nat)
    requires i <= j
    ensures BlocksLength(i, n) <= BlocksLength(j, n)
    decreases j - i
  {
    if i < j {
      BlocksLengthMonotone(i, j - 1, n);
    }
  }

  /** Every block has exactly `n` entries. */
  ghost predicate Uniform<T>(blocks: seq<seq<T>>, n: nat) {
    forall j :: 0 <= j < |blocks| ==> |blocks[j]| == n
  }

  /** The blocks one after the other (`list.extend` block by block). */
  function Concat<T>(blocks: seq<seq<T>>): seq<T>
    decreases |blocks|
  {
    if blocks == [] then [] else Concat(blocks[..|blocks| - 1]) + blocks[|blocks| - 1]
  }

  lemma {:induction false} ConcatLength<T>(blocks: seq<seq<T>>, n: nat)
    requires Uniform(blocks, n)
    ensures |Concat(blocks)| == BlocksLength(|blocks|, n)
    decreases |blocks|
  {
    if blocks != [] {
      var m := |blocks| - 1;
      assert Uniform(blocks[..m], n);
      ConcatLength(blocks[..m], n);
    }
  }

  /** Component `c` of block `j` follows the `j` blocks before it in the concatenation. */
  lemma {:induction false} ConcatAt<T>(blocks: seq<seq<T>>, n: nat, j: nat, c: nat)
    requires Uniform(blocks, n)
    requires j < |blocks| && c < n
    ensures BlocksLength(j, n) + c < |Concat(blocks)|
    ensures Concat(blocks)[BlocksLength(j, n) + c] == blocks[j][c]
    decreases |blocks|
  {
    var m := |blocks| - 1;
    var init := blocks[..m];
    assert Uniform(init, n);
    ConcatLength(init, n);
    assert Concat(blocks) == Concat(init) + blocks[m];
    if j < m {
      ConcatAt(init, n, j, c);
    }
  }

  /** The free-variable vector: parameters, then the blocks. */
  function Pack<T>(params: seq<T>, blocks: seq<seq<T>>): seq<T> {
    params + Concat(blocks)
  }

  /** Block `j` of `x`: the `n` entries after the `p` parameters and the first `j` blocks. */
  function Block<T>(x: seq<T>, p: nat, n: nat, j: nat): (b: seq<T>)
    requires p + BlocksLength(j + 1, n) <= |x|
    ensures |b| == n
  {
    x[p + BlocksLength(j, n) .. p + BlocksLength(j, n) + n]
  }

  /** Splits `x` into its `p` parameters and `m` blocks of `n` entries. */
  function Unpack<T>(x: seq<T>, p: nat, n: nat, m: nat): (r: (seq<T>, seq<seq<T>>))
    requires p + BlocksLength(m, n) <= |x|
    ensures |r.0| == p && |r.1| == m && Uniform(r.1, n)
  {
    (x[..p], seq(m, j requires 0 <= j < m => (BlocksLengthMonotone(j + 1, m, n); Block(x, p, n, j))))
  }

  /** Block `j` of an unpacked vector is the `n` entries after the first `j` blocks. */
  lemma UnpackedBlock<T>(x: seq<T>, p: nat, n: nat, m: nat, j: nat)
    requires p + BlocksLength(m, n) <= |x| && j < m
    ensures p + BlocksLength(j, n) + n <= |x|
    ensures Unpack(x, p, n, m).1[j] == x[p + BlocksLength(j, n) .. p + BlocksLength(j, n) + n]
  {
    BlocksLengthMonotone(j + 1, m, n);
  }

  /** Block `j` of a packed vector is the `j`-th block that was packed. */
  lemma BlockOfPack<T>(params: seq<T>, blocks: seq<seq<T>>, n: nat, j: nat)
    requires Uniform(blocks, n) && j < |blocks|
    ensures |params| + BlocksLength(j + 1, n) <= |Pack(params, blocks)|
    ensures Block(Pack(params, blocks), |params|, n, j) == blocks[j]
  {
    var x := Pack(params, blocks);
    var p := |params|;
    ConcatLength(blocks, n);
    BlocksLengthMonotone(j + 1, |blocks|, n);
    var k := BlocksLength(j, n);
    var b := Block(x, p, n, j);
    forall c | 0 <= c < n ensures b[c] == blocks[j][c] {
      ConcatAt(blocks, n, j, c);
      assert b[c] == x[p + k + c] == Concat(blocks)[k + c];
    }
  }

  /** Unpacking a packed vector gives back the parameters and the blocks. */
  lemma UnpackPack<T>(params: seq<T>, blocks: seq<seq<T>>, n: nat)
    requires Uniform(blocks, n)
    ensures |Pack(params, blocks)| == |params| + BlocksLength(|blocks|, n)
    ensures Unpack(Pack(params, blocks), |params|, n, |blocks|) == (params, blocks)
  {
    var x := Pack(params, blocks);
    ConcatLength(blocks, n);
    var r := Unpack(x, |params|, n, |blocks|);
    assert r.0 == params;
    forall j | 0 <= j < |blocks| ensures r.1[j] == blocks[j] {
      BlockOfPack(params, blocks, n, j);
    }
    assert r.1 == blocks;
  }

  /** Splits an index past the parameters into its block and component. */
  lemma {:induction false} IndexSplit(i: nat, p: nat, n: nat, m: nat) returns (j: nat, c: nat)
    requires p <= i < p + BlocksLength(m, n)
    ensures j < m && c < n && i == p + BlocksLength(j, n) + c
    decreases m
  {
    if i < p + BlocksLength(m - 1, n) {
      j, c := IndexSplit(i, p, n, m - 1);
    } else {
      j, c := m - 1, i - p - BlocksLength(m - 1, n);
    }
  }

  /** Packing the pieces of an unpacked vector of the full length gives back the vector. */
  lemma PackUnpack<T>(x: seq<T>, p: nat, n: nat, m: nat)
    requires |x| == p + BlocksLength(m, n)
    ensures Pack(Unpack(x, p, n, m).0, Unpack(x, p, n, m).1) == x
  {
    var r := Unpack(x, p, n, m);
    ConcatLength(r.1, n);
    var y := Pack(r.0, r.1);
    assert |y| == |x|;
    forall i | 0 <= i < |x| ensures y[i] == x[i] {
      if i >= p {
        var j, c := IndexSplit(i, p, n, m);
        ConcatAt(r.1, n, j, c);
        UnpackedBlock(x, p, n, m, j);
        var k := BlocksLength(j, n);
        assert y[i] == Concat(r.1)[k + c];
      }
    }
  }
}
