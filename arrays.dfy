/**
 * numpy arrays as the core uses them: a shape and the entries in row-major (flattened) order.
 * Entries of node vectors are numbers for tips and, before optimisation, free symbols for
 * ancestral nodes.
 */
module Arrays {
  import opened Symbols

  /** np.prod of a shape: the number of entries an array of that shape holds. */
  function Prod(shape: seq<nat>): nat {
    if shape == [] then 1 else shape[0] * Prod(shape[1..])
  }

  datatype NdArray<T> = NdArray(shape: seq<nat>, flat: seq<T>)

  datatype Entry = Num(value: real) | Sym(symbol: Symbol)

  /** The symbol array that `sym_ancestral_vectors` gives ancestral node `nodeId`. */
  function SymbolArray(nodeId: nat, shape: seq<nat>): (a: NdArray<Symbol>)
    ensures a.shape == shape && |a.flat| == Prod(shape)
    ensures forall c :: 0 <= c < Prod(shape) ==> a.flat[c] == NodeSymbol(nodeId, c)
  {
    NdArray(shape, seq(Prod(shape), c requires 0 <= c < Prod(shape) => NodeSymbol(nodeId, c)))
  }

  /** The same array seen as node-vector entries (`vectors` and `vectors_symbols` are one object). */
  function AsEntries(a: NdArray<Symbol>): (e: NdArray<Entry>)
    ensures e.shape == a.shape && |e.flat| == |a.flat|
    ensures forall c :: 0 <= c < |a.flat| ==> e.flat[c] == Sym(a.flat[c])
  {
    NdArray(a.shape, seq(|a.flat|, c requires 0 <= c < |a.flat| => Sym(a.flat[c])))
  }

  /** `np.array(values).reshape(shape)`, which numpy refuses unless the sizes agree. */
  function NumArray(values: seq<real>, shape: seq<nat>): (a: NdArray<Entry>)
    requires |values| == Prod(shape)
    ensures a.shape == shape && |a.flat| == |values|
    ensures forall c :: 0 <= c < |values| ==> a.flat[c] == Num(values[c])
  {
    NdArray(shape, seq(|values|, c requires 0 <= c < |values| => Num(values[c])))
  }
}
