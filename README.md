# PhyloShape ancestral-shape reconstruction: a Dafny model

This project models the bookkeeping core of the `PhyloShape` class of PhyloShape. That class
reconstructs ancestral 3-D shapes on a phylogeny by maximum likelihood. It does so in these steps:

1. It binds each tip of the tree to the shape sample of the same name.
2. It encodes every tip's vertices as vectors.
3. It gives every ancestral node one fresh symbol per vector scalar.
4. It sums one motion-model log-likelihood term per branch.
5. It fixes the order of the free variables.
6. It retries a basin-hopping optimiser up to 200 times from perturbed random starting points.
7. It unpacks the winning flat vector onto the ancestral nodes.
8. It turns those vectors back into vertices.

The tree is a class. Its structure is fixed: tip indices `[0, ntips)`, ancestral indices
`[ntips, nnodes)`, names, parent links, branch lengths and a traversal that visits each node
once. The attributes the core assigns are `seq` fields: `vertices`, `vectors` and
`vectorsSymbols`. `PhyloShape` is a class whose methods update these fields and its own
fields: `variables`, `vvTranslator`, `loglikeForm`, `negloglikeFunc` and `result`.

Each method is proved against specification functions. The lemmas beside those functions state
the following:

- Symbol names are injective.
- Pack and unpack invert each other in both directions.
- Each variable's position matches the ancestral block it is read from.
- The variables are distinct.
- The formula has exactly one term per non-root node.
- The initial guess has the stated bounds.
- The retry loop has the first-success/exhaustion behaviour.

Foreign computations are parameters or uninterpreted terms of the model. The vertex/vector
translator, the vector transforms, `basinhopping` and `np.random.random` are parameters. The
motion model's per-branch term is the uninterpreted constructor `Formula.FormLogLike`.

Files:

- `wrappers.dfy`: `Option`, `Result` and `Outcome`.
- `symbols.dfy`: decimal rendering and the `"k_c"` symbol names.
- `packing.dfy`: the generic flat pack/unpack of parameters and equal-length blocks.
- `arrays.dfy`: shaped arrays, symbol arrays and reshaping.
- `formula.dfy`: the formula, branch selection and the variable order.
- `search.dfy`: the initial guess and the retry loop.
- `phylo.dfy`: the tree, the `PhyloShape` object and its methods.

Two behaviours of the code are easy to miss:

- **When the pairing check runs.** The constructor first binds the samples to the tips
  (`phyloshape/phylo/src/phylo.py:63`) and only then checks that a forward transform comes
  with its inverse (`phyloshape/phylo/src/phylo.py:67-68`). So a pairing error leaves the tips
  already bound, and `Phylo.PhyloShape.New` states this.
- **Which entries are perturbed.** Only the last `len_vt` entries of the initial guess are
  perturbed (`phyloshape/phylo/src/phylo.py:216`); with `len_vt` the size of one vector, that
  is the last ancestral node's block alone. When `len_vt` is 0, Python's `initials[-0:]` selects
  the whole vector. When `len_vt` is longer than the vector, the slice is clipped to the start.
  `Search.TailStart` models both cases.

## Model

| member | source | states |
|---|---|---|
| Symbols.ParseDecimalOfDecimal | phyloshape/phylo/src/phylo.py:142 | reading back the `%s` rendering of a natural number gives that number |
| Symbols.DecimalInjective | phyloshape/phylo/src/phylo.py:142 | two naturals render to the same digits exactly when they are equal |
| Symbols.SymbolNameInjective | phyloshape/phylo/src/phylo.py:142 | `"%s_%s" % (node_id, go_v)` names coincide if and only if both node and component coincide |
| Symbols.NodeSymbolInjective | phyloshape/phylo/src/phylo.py:142 | two ancestral symbols are equal if and only if they belong to the same node and component |
| Arrays.SymbolArray | phyloshape/phylo/src/phylo.py:137-142 | node `k`'s array has tip 0's shape and `n_vals` entries, and entry `c` is the symbol named `k_c` |
| Arrays.AsEntries | phyloshape/phylo/src/phylo.py:140-142 | the node's vectors are the same symbols as its symbol array, in the same shape and order |
| Arrays.NumArray | phyloshape/phylo/src/phylo.py:201 | reshaping a slice keeps its values in order under the given shape |
| Packing.BlocksLengthIsProduct | phyloshape/phylo/src/phylo.py:176-177 | `m` blocks of `n` entries, counted block by block, are `m * n` entries |
| Packing.ConcatLength | phyloshape/phylo/src/phylo.py:176-177 | flattening `m` blocks of `n` entries gives `BlocksLength(m, n)`, that is `m * n`, entries |
| Packing.ConcatAt | phyloshape/phylo/src/phylo.py:176-177 | entry `c` of block `j` sits at position `BlocksLength(j, n) + c`, that is `j * n + c`, of the flattened list |
| Packing.Block | phyloshape/phylo/src/phylo.py:200-201 | the slice `x[go_p:to_p]` for a block has exactly `n_vals` entries |
| Packing.Unpack | phyloshape/phylo/src/phylo.py:191-202 | splitting `x` gives `p` parameters and `m` blocks, each of length `n` |
| Packing.UnpackedBlock | phyloshape/phylo/src/phylo.py:199-201 | block `j` of an unpacked vector is the slice of `n` entries starting after the parameters and the first `j` blocks, and that slice lies inside the vector |
| Packing.IndexSplit | phyloshape/phylo/src/phylo.py:189-202 | every position past the parameters is component `c < n` of some block `j < m` |
| Packing.BlockOfPack | phyloshape/phylo/src/phylo.py:199-202 | block `j` read back from a packed list is the `j`-th block that was packed |
| Packing.UnpackPack | phyloshape/phylo/src/phylo.py:189-202 | unpacking a packed list gives back the parameters and every block |
| Packing.PackUnpack | phyloshape/phylo/src/phylo.py:189-202 | packing what was unpacked from a list of the right length gives the list back |
| Formula.GetParameters | phyloshape/phylo/src/phylo.py:175 | the default Brownian model contributes exactly one parameter, its rate |
| Formula.TermsOfSumOf | phyloshape/phylo/src/phylo.py:155-160 | the accumulated formula keeps every added term, in the order added |
| Formula.SumOfTermsOf | phyloshape/phylo/src/phylo.py:155-160 | every formula is the running sum of its own terms |
| Formula.BranchNodes | phyloshape/phylo/src/phylo.py:156-157 | the selected nodes are non-root nodes inside the tree |
| Formula.BranchNodesMembers | phyloshape/phylo/src/phylo.py:156-157 | a node contributes a term if and only if the traversal visits it and it is not the root |
| Formula.BranchNodesDistinct | phyloshape/phylo/src/phylo.py:156-157 | a traversal without repeats gives each branch at most one term |
| Formula.BranchNodesOfTraversal | phyloshape/phylo/src/phylo.py:155-161 | over a full traversal, every non-root node contributes exactly one term and the root none |
| Formula.BranchTerm | phyloshape/phylo/src/phylo.py:158-159 | a node's term takes its branch length, its parent's vectors, its own vectors and the given log |
| Formula.BranchTermsSnoc | phyloshape/phylo/src/phylo.py:156-160 | visiting one more node appends its term exactly when it is not the root |
| Formula.SymbolBlocks | phyloshape/phylo/src/phylo.py:176-177 | one flattened block of `n_vals` symbols per ancestral node, in node-index order |
| Formula.VariableOrder | phyloshape/phylo/src/phylo.py:173-177 | the variable list has `\|params\| + BlocksLength(nnodes - ntips, n_vals)`, that is `\|params\| + (nnodes - ntips) * n_vals`, entries and begins with the parameters |
| Formula.VariableOrderAt | phyloshape/phylo/src/phylo.py:173-177 | component `c` of ancestral node `ntips + j` is variable number `\|params\| + BlocksLength(j, n_vals) + c`, that is `\|params\| + j * n_vals + c` |
| Formula.VariablesDistinct | phyloshape/phylo/src/phylo.py:173-177 | with distinct parameters named unlike node symbols, no variable appears twice |
| Formula.BrownianVariablesDistinct | phyloshape/phylo/src/phylo.py:65 | under the default model, no variable appears twice |
| Formula.UnpackFollowsVariableOrder | phyloshape/phylo/src/phylo.py:173-202 | if variable `i` is component `c` of node `k`, then `k` is ancestral and component `c` of `k`'s unpacked vector is `x[i]` |
| Search.TailStart | phyloshape/phylo/src/phylo.py:216 | the slice `[-len_vt:]` covers the last `len_vt` entries, or all of them when `len_vt` is 0 or at least the length |
| Search.InitialGuess | phyloshape/phylo/src/phylo.py:215-216 | one entry per variable; entries before the tail keep their draw and tail entries become `1 - (u - 0.5) * 0.01` |
| Search.InitialGuessBounds | phyloshape/phylo/src/phylo.py:215-216 | with draws in `[0, 1)`, perturbed entries lie in `(0.995, 1.005]` and the others in `[0, 1)` |
| Search.GuessPerturbsLastNodeOnly | phyloshape/phylo/src/phylo.py:213-216 | with `len_vt = n_vals`, exactly the symbols of the last ancestral node are perturbed |
| Search.Driver.Draws | phyloshape/phylo/src/phylo.py:215 | each attempt draws one random value per variable |
| Search.SearchForSolution | phyloshape/phylo/src/phylo.py:208-246 | at most one run is kept; none is kept if and only if all 200 attempts fail; otherwise the kept run is the first successful attempt |
| Phylo.Tree.constructor | phyloshape/phylo/src/phylo.py:60 | the tree handed in, with its structure and no per-node attributes yet |
| Phylo.MapShapeToTip | phyloshape/phylo/src/phylo.py:80-85 | tips are bound to their samples in index order up to the first tip without a sample, which is reported; later nodes are untouched |
| Phylo.PhyloShape.EncodedTips | phyloshape/phylo/src/phylo.py:121-127 | one translated vector array per tip, in tip order |
| Phylo.PhyloShape.TipVectorsFor | phyloshape/phylo/src/phylo.py:120-130 | a tip's vectors are its translated vectors, or the transform's entry for that tip |
| Phylo.PhyloShape.FormulaVectors | phyloshape/phylo/src/phylo.py:279-281 | the node vectors the formula is built on: the translator's (possibly transformed) output at tips and symbols at ancestral nodes |
| Phylo.PhyloShape.AncestorSymbolBlocks | phyloshape/phylo/src/phylo.py:176-177 | one flattened symbol array per ancestral node, in node-index order |
| Phylo.PhyloShape.Init | phyloshape/phylo/src/phylo.py:60-78 | the model defaults to Brownian, the transforms are stored, and the variables, translator, formula, objective and result start empty |
| Phylo.PhyloShape.New | phyloshape/phylo/src/phylo.py:43-85 | construction succeeds if and only if every tip name has a sample and the transforms come as a pair; otherwise it names the first tip, in index order, without a sample, with every earlier tip bound and every later node untouched, or it reports the pairing error with all tips already bound |
| Phylo.PhyloShape.BuildTipVectors | phyloshape/phylo/src/phylo.py:114-132 | tip `i` gets the translation of its own sample, or entry `i` of the transformed list; ancestral nodes are untouched |
| Phylo.PhyloShape.SymAncestralVectors | phyloshape/phylo/src/phylo.py:134-146 | every ancestral node gets the symbol array `k_c` in tip 0's shape, as both its vectors and its symbols; tips are untouched |
| Phylo.PhyloShape.UpdateVariables | phyloshape/phylo/src/phylo.py:173-177 | independently of its previous value, the variable list becomes the parameters followed by every ancestral node's flattened symbols in node-index order |
| Phylo.PhyloShape.FormularizeLogLike | phyloshape/phylo/src/phylo.py:148-165 | the formula is the sum, in traversal order, of one term per non-root node; then the variables are rebuilt |
| Phylo.PhyloShape.FunctionalizeLogLike | phyloshape/phylo/src/phylo.py:167-170 | the objective is the negated formula over the current variable list |
| Phylo.PhyloShape.SummarizeMlResult | phyloshape/phylo/src/phylo.py:189-202 | the leading `\|params\|` entries are the model parameters; ancestral node `k` gets block `k - ntips` of `x` in tip 0's shape; tips are untouched |
| Phylo.PhyloShape.MinimizeNegloglike | phyloshape/phylo/src/phylo.py:204-255 | succeeds if and only if one of the 200 attempts succeeds, storing the first success and unpacking it; on exhaustion it reports the error and changes neither the result nor any vectors |
| Phylo.PhyloShape.BuildAncestralVertices | phyloshape/phylo/src/phylo.py:257-266 | every ancestral node's vertices are the translator's vertices for its vectors, passed through the inverse transform when there is one; tips keep theirs |
| Phylo.PhyloShape.FormulaVectorsInPlace | phyloshape/phylo/src/phylo.py:279-281 | after tip encoding and symbol allocation, every node has vectors, namely `FormulaVectors` |
| Phylo.PhyloShape.SymbolsInVariableOrder | phyloshape/phylo/src/phylo.py:280-281 | the allocated symbol arrays make the variable list exactly `VariableOrder` |
| Phylo.PhyloShape.SetUpLikelihood | phyloshape/phylo/src/phylo.py:279-282 | the tips carry their encoded vectors, the ancestral nodes their symbols, the formula sums one term per branch with symengine's `log`, the variables are `VariableOrder` and the objective is built over them |
| Phylo.PhyloShape.ReconstructAncestralShapesUsingMl | phyloshape/phylo/src/phylo.py:268-284 | the whole pipeline. On success the ancestral vertices decode the unpacked first successful result; on failure no vertices change and the ancestral nodes keep their symbols |

## Left out

- Symbolic algebra (`Symbol`, `expand`, `log`, `lambdify`) is not modelled. Symbols are the `Symbol` datatype, the formula is a sum of uninterpreted `FormLogLike` terms, and the compiled objective is `NegLogLike(formula, variables)`.
- The motion models live in `phyloshape/phylo/src/models.py`, which is not part of this model. `form_log_like` stays uninterpreted. The Brownian rate symbol, whose name is defined there, is the separate constructor `BrownianRate`. `isinstance(model, MotionModel)` holds by typing.
- `build_vv_translator`, `VertexVectorMapper` and `VertexVectorMapperOld` are not part of this model. The fitted translator is a parameter of `ReconstructAncestralShapesUsingMl`, so the `mode`, `num_vs` and `num_vt_iter` arguments are left out.
- Floating-point optimisation is left out. `basinhopping` with L-BFGS-B and a fixed seed is a function parameter from objective and starting point to a success flag, a value and a vector. The model assumes it returns a vector as long as its starting point.
- `np.random.random` is a parameter `draw(attempt, index)`. `np.average` over the tips is used only for its length, which is the element count of the shared tip shape.
- `Phylo.PhyloShape.BuildTipVectors` requires the forward transform to return one vector per tip. The source writes back however many vectors the transform returns.
- `Phylo.PhyloShape.MinimizeNegloglike` requires every tip's vectors to share tip 0's shape, because the source's `np.average` needs that. `num_proc` is ignored, as in the source.
- The tree needs at least one tip, because the source reads tip 0's vectors. The traversal is any order that visits each node once, and `toytree` itself is not modelled.
- Logging is left out.
- The empty `Tree` class and `reconstruct_ancestral_shapes_using_gpa` are left out, because they are stubs.
- The `faces` field is stored but never used by the core, so it is left out.
- `phyloshape/shape/src/face.py` is not part of this model. It is a thin container over numpy indexing.
- `phyloshape/shape/src/vertex.py` is not modelled. `Vertices` is an abstract record of coordinates, and the translator's `to_vertices` includes the `Vertices(...)` wrapping. The length assertion at `phyloshape/shape/src/vertex.py:21` rejects non-empty coordinates given without colours. So the colour-less construction at `phyloshape/phylo/src/phylo.py:261` and `:266` would be rejected there. The model does not capture that rejection.
- `Phylo.PhyloShape.SummarizeMlResult` returns the model parameters instead of logging them.
- `Phylo.PhyloShape.SymAncestralVectors`: a 0-d tip vector shape `()` is not rejected. An example is a forward transform that returns a 1-D array, so that each tip's vectors are a numpy scalar. The source's `n_vals = np.prod(())` is then the float `1.0`, and `range(n_vals)` at `phyloshape/phylo/src/phylo.py:142` raises `TypeError`. The model's `Prod([])` is `1`, so each ancestral node gets the single symbol `k_0`.
- `Phylo.PhyloShape.SummarizeMlResult`: the same 0-d shape is not rejected. In the source the float `n_vals` makes the slice bounds at `phyloshape/phylo/src/phylo.py:200-201` raise `TypeError`. The model reads one entry per node.
- `Search.InitialGuessBounds`: the bounds are proved over the reals, not IEEE doubles. In doubles, `1 - (u - 0.5) * 0.01` for the largest draw `u = 1 - 2^-53` rounds to exactly `0.995`, so the strict lower bound holds only in the model's arithmetic. `Search.Perturb` and `Search.InitialGuess` are likewise exact.
- `Phylo.PhyloShape.BuildTipVectors` requires a fitted translator (`vvTranslator.Some?`). Run before the translator is built, the source fails with `AttributeError` on `None.to_vectors` at `phyloshape/phylo/src/phylo.py:123`. That call order is excluded rather than modelled.
- `Phylo.PhyloShape.SymAncestralVectors` requires tip 0 to have vectors. Run before `build_tip_vectors`, the source fails reading `.shape` of `None` at `phyloshape/phylo/src/phylo.py:136`. That call order is excluded rather than modelled.
- `Phylo.PhyloShape.MinimizeNegloglike` requires a built objective (`negloglikeFunc.Some?`). Run before `functionalize_log_like`, the source passes `None` to `basinhopping` at `phyloshape/phylo/src/phylo.py:229` and fails. That call order is excluded rather than modelled.
- `Phylo.PhyloShape.SummarizeMlResult` requires a stored result (`result.Some?`). Without one, the source fails indexing `None.x` at `phyloshape/phylo/src/phylo.py:193`. That call order is excluded rather than modelled.
- `Phylo.PhyloShape.BuildAncestralVertices` requires every ancestral node to have vectors. Run before `sym_ancestral_vectors`, the source hands `None` to the translator at `phyloshape/phylo/src/phylo.py:261` instead of vectors. That call order is excluded rather than modelled.
- `Phylo.PhyloShape.FormularizeLogLike` requires every node to have vectors and every ancestral node its symbol array. Run before `build_tip_vectors` or `sym_ancestral_vectors`, the source fails reading `node.vectors` at `phyloshape/phylo/src/phylo.py:159` or `vectors_symbols` at `:177`. That call order is excluded rather than modelled.
- `Phylo.PhyloShape.MinimizeNegloglike` requires the variable list to match the current tip shape, that is `|params|` plus `n_vals` entries per ancestral node. The source never checks this. If the tip vectors are rebuilt with another shape after `formularize_log_like`, the cursor slices at `phyloshape/phylo/src/phylo.py:200-201` either fail to reshape or read the wrong entries. A failed reshape comes after the result was stored at `:252` and after earlier nodes were already written. The model covers neither that partial update nor the misread.
