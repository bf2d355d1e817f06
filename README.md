# Agentic math discovery: a Dafny model of the core

The system explores algebraic structures. A structure is a **signature**:
- sorts;
- typed operations;
- axioms, each an equation between expression trees.

The explorer works in four steps:
1. It starts from a registry of well-known seeds (magma, group, ring, lattice, Lie algebra, category, ...).
2. It derives candidates with eight structural **moves**: abstract, dualize, complete, quotient, internalize, transfer, deform and self-distributivity.
3. It searches each candidate for finite models, size by size, with Mace4 or Z3, and records a **model spectrum**.
4. It **scores** each candidate on eleven dimensions.

A **backtest** re-checks the saved discoveries against the solvers and re-scores them.

This project models that pipeline in Dafny, one module per source component:

- `Ast`, `Parser` (`ast.dfy`, `parser.dfy`): expression trees: size, variables, substitution, the printer, and a parser for the printed form.
- `Signatures` (`signatures.dfy`): sorts, operations, axioms, operation lookup, the shape fingerprint, the dictionary round trip, the equation builders.
- `KnownStructures` (`known.dfy`): the fourteen seed signatures and the registry.
- `Moves` (`moves.dfy`): the move engine: each move as a loop that collects candidates, `apply_move` and `apply_all_moves`.
- `Spectrum`, `Mace4`, `Router`, `Z3Model`, `Z3Encode` (`spectrum.dfy`, `mace4.dfy`, `router.dfy`, `z3model.dfy`, `z3encode.dfy`): model spectra and the per-size search loops, the Mace4 wrapper and fallback, the router's classification and dispatch, the Z3 search loop, and the finite-domain encoding of axioms.
- `Cayley` (`cayley.dfy`): queries on finite operation tables: Latin square, commutativity, identity, associativity, symmetry score, automorphisms, isomorphism.
- `Fol`, `Prover9` (`fol.dfy`, `prover9.dfy`): the LADR text for Mace4 and Prover9, the reading of Prover9's verdict, proof extraction, conjecture generation.
- `Scoring` (`scoring.dfy`): the scoring engine's dimensions and weighted total.
- `Backtest` (`backtest.dfy`): `run_backtest`: selection, parsing, the PASS/WARN/FAIL decision, the re-scoring fingerprints and the exit code.
- `Wrappers`, `Text`, `Sorting`, `Grids` (`wrappers.dfy`, `text.dfy`, `sorting.dfy`, `grids.dfy`): helpers: `Option`/`Result`, string operations, a stable insertion sort, list splitting.

## Modelling conventions

- **Values and loops.**
  - Signatures, expressions, tables and spectra are immutable values. Every move copies its parent before extending it, so "copy, then append" is a value update.
  - Each Python loop is a Dafny `method` with its `while` loop. The method is proved equal to a recursive specification function, and the properties are lemmas about that function.
- **Dictionaries.** A Python dictionary that the code fills in order becomes an association list in insertion order (`Spectrum.Put`/`Get`), because Python dictionaries keep insertion order.
- **Outside world as parameters.** Anything outside the program is a function parameter:
  - the subprocess call (`run`) and the reading of Mace4's output (`parse`);
  - Z3's `check`/`model` answers;
  - the spectrum computation used by the backtest;
  - `math.exp`.
- **Fingerprint.** The fingerprint is the canonical triple it hashes: sort count, sorted arities and sorted kind names. The SHA-256 step is taken to be injective.
- **Exceptions.** A Python exception becomes a `Failure` carrying its text, and it propagates through every caller that does not catch it. A missing dictionary key gives the quoted key, as `str(KeyError)` does (`Signatures.MissingKey`).
- **Numbers.** Floating-point numbers are exact `real`s. `int(x)` is truncation toward zero (`Router.Truncate`).

## Model

| member | source | states |
|---|---|---|
| Ast.Size | src/core/ast_nodes.py:71-72 | every expression has at least one node; an argument is smaller than its application (`ArgSmallerThanApp`) |
| Ast.ArgSmallerThanApp | src/core/ast_nodes.py:71-72 | each argument of an application has strictly fewer nodes than the application |
| Ast.VariablesOfApp | src/core/ast_nodes.py:74-78 | a name is a variable of an application exactly when it is a variable of one of its arguments |
| Ast.SubstituteList | src/core/ast_nodes.py:80-81 | substitution keeps the number of arguments of an application |
| Ast.SubstituteUnmentioned | src/core/ast_nodes.py:34-35 | a mapping that mentions none of the expression's variables leaves it unchanged (the empty mapping is the identity) |
| Ast.SubstituteVariables | src/core/ast_nodes.py:34-35 | after substitution the variables are the unmapped originals plus the variables of the images of the mapped ones |
| Ast.RenamingKeepsSize | src/core/ast_nodes.py:80-81 | mapping variables to variables keeps the node count |
| Ast.ReprForgetsConstness | src/core/ast_nodes.py:37-57 | a variable and a constant of the same name print alike, so reading text back needs the constant names |
| Ast.EquationSize | src/core/ast_nodes.py:102-103 | an equation has at least two nodes |
| Parser.TakeIdent | tests/test_backtest.py:18-35 | splits off the longest run of identifier characters: the two parts rebuild the input and the rest starts with a non-identifier character |
| Parser.ParseExpr | tests/test_backtest.py:18-71 | a successful parse always consumes text (the rest is shorter than the input) |
| Parser.ParseInfix | tests/test_backtest.py:28-65 | `(a op b)` parses after its opening parenthesis, consuming text |
| Parser.ParseNamed | tests/test_backtest.py:33-35 | a name alone or applied as `op(...)` parses, consuming text |
| Parser.ParseArgs | tests/test_backtest.py:68-71 | an argument list up to its closing parenthesis parses, consuming text |
| Parser.ParseRepr | src/core/ast_nodes.py:83-89 | parsing the printed form of a well-formed expression gives it back and leaves the following text untouched |
| Parser.ParseEquationRepr | src/core/signature.py:185-190 | `parse_equation(repr(eq), constants)` gives back `eq` for every well-formed equation |
| Parser.ConstantReadBackAsVariable | src/core/signature.py:181-187 | without the constant names, `(x mul e) = x` reads `e` back as a variable |
| Signatures.KindFromName | src/core/signature.py:18-38 | `AxiomKind(value)`: a kind is found only under its own stored name (`None` where Python raises `ValueError`) |
| Signatures.KindNameRoundTrip | src/core/signature.py:18-38 | every one of the eighteen kinds is read back from its stored name |
| Signatures.KindNameInjective | src/core/signature.py:18-38 | distinct kinds have distinct stored names |
| Signatures.SortNames | src/core/signature.py:103-104 | `sort_names()` lists the sort names in declaration order |
| Signatures.OpNameList | src/core/signature.py:106-107 | `op_names()` lists the operation names in declaration order |
| Signatures.GetOp | src/core/signature.py:109-113 | `None` exactly when no operation has the name; otherwise the first operation carrying it |
| Signatures.OpsByArity | src/core/signature.py:115-116 | exactly the operations of the given arity, none added |
| Signatures.OpsByArityAppend | src/core/signature.py:115-116 | the arity filter keeps declaration order (it distributes over concatenation) |
| Signatures.Arities | src/core/signature.py:63-64 | the arity of each operation is the length of its domain |
| Signatures.KindNames | src/core/signature.py:126 | the stored kind name of each axiom, in order |
| Signatures.FingerprintShape | src/core/signature.py:118-133 | two signatures share a fingerprint exactly when they have the same number of sorts and the same multisets of arities and axiom kinds |
| Signatures.ExtraAxiomChangesFingerprint | src/core/signature.py:126 | adding one axiom of any kind always changes the fingerprint |
| Signatures.RenamingKeepsFingerprint | src/core/signature.py:118-133 | renaming the signature, its sorts and its operations keeps the fingerprint |
| Signatures.ReorderingKeepsFingerprint | src/core/signature.py:125-126 | permuting operations and axioms keeps the fingerprint |
| Signatures.ToDict | src/core/signature.py:135-160 | every field is stored: names, descriptions, domains, kind names, printed equations, the chain and the fingerprint |
| Signatures.ReadAll | src/core/signature.py:168-178 | a list comprehension over entries succeeds exactly when every entry reads, keeping one value per entry in order; otherwise it fails with the error of the first entry that does not read |
| Signatures.SortsFromDicts | src/core/signature.py:168 | the sorts read back exactly when every stored entry has a name; then one sort per entry with its name and its description (empty when absent); otherwise the `KeyError` text `'name'` |
| Signatures.OpsFromDicts | src/core/signature.py:170-178 | the operations read back exactly when every entry has a name, a domain and a codomain; then one operation per entry with those fields and its description; otherwise the `KeyError` text of one of those three keys |
| Signatures.AxiomsFromDicts | src/core/signature.py:184-190 | when the axioms read back, there is one per stored entry |
| Signatures.AxiomsRead | src/core/signature.py:184-186 | axioms that read back had a kind and an equation in every entry |
| Signatures.FromDict | src/core/signature.py:163-199 | the method agrees with `SignatureFromDict`: sorts, then operations, then the axiom loop, the first missing key or bad axiom raising; absent optional keys take their defaults |
| Signatures.FromDictKeys | src/core/signature.py:163-199 | a dictionary that reads back has every required key (sort names; operation names, domains and codomains; axiom kinds and equations); a sort without a name raises `KeyError('name')`; the empty dictionary gives the empty signature |
| Signatures.PrefixFailure | src/core/signature.py:185-187 | the first unreadable axiom entry (unknown kind or unparsable equation) makes the whole reconstruction fail with its error |
| Signatures.AxiomsRoundTrip | src/core/signature.py:148-156 | axioms written out by `to_dict` read back unchanged |
| Signatures.DictRoundTrip | src/core/signature.py:163-199 | `from_dict(to_dict(s))` rebuilds `s` exactly, except that the metadata is dropped |
| Signatures.DictRoundTripKeepsShape | src/core/signature.py:163-199 | the round trip keeps the fingerprint, the sort names, the operations, the axiom kinds and the printed equations |
| Signatures.BuilderVariables | src/core/signature.py:209-287 | the variables of each builder's equation (`{x,y,z}` for associativity, `{x}` for identity, ...) |
| Signatures.CommSwapsArguments | src/core/signature.py:216-220 | commutativity relates an application to the one with its two distinct arguments swapped |
| Signatures.SelfDistribIsDistribOverItself | src/core/signature.py:252-265 | left self-distributivity is left distributivity of an operation over itself |
| Signatures.IdentityText | src/core/signature.py:223-227 | the identity builder prints as `(x mul e) = x` |
| Signatures.InverseText | src/core/signature.py:230-234 | the inverse builder prints as `(x mul inv(x)) = e` |
| KnownStructures.AbelianGroup | src/library/known_structures.py:72-79 | the group seed renamed, with commutativity of `mul` appended to its axioms and a new description; it satisfies the seed invariant |
| KnownStructures.Field | src/library/known_structures.py:104-116 | the ring seed renamed, with `one` and `recip` appended to its operations and their axioms to its axioms; it satisfies the seed invariant |
| KnownStructures.Loop | src/library/known_structures.py:202-211 | the quasigroup seed renamed, with the unit `e` and the two-sided identity axiom appended; it satisfies the seed invariant |
| KnownStructures.InnerProductSpace | src/library/known_structures.py:263-283 | the vector-space seed renamed, with `inner` and its symmetry and positivity axioms; it satisfies the seed invariant |
| KnownStructures.Lookup | src/library/known_structures.py:343-345 | `KNOWN_STRUCTURES.get(name)`: `None` exactly when no entry has that key, otherwise an entry under that key |
| KnownStructures.Make | src/library/known_structures.py:320-335 | the seed a registry entry builds carries the entry's key as its name and satisfies the seed invariant |
| KnownStructures.LoadByName | src/library/known_structures.py:343-345 | `None` exactly for an unregistered name; otherwise a seed carrying that name, satisfying the seed invariant |
| KnownStructures.LoadAllKnown | src/library/known_structures.py:338-340 | one seed per registry entry, in registry order, each named by its key and satisfying the seed invariant |
| KnownStructures.GroupShape | src/library/known_structures.py:54-69 | the group seed has three operations and three axioms |
| KnownStructures.MagmaAndSemigroup | src/library/known_structures.py:15-35 | the magma has one binary operation and no axioms; the semigroup is the magma plus associativity of `mul` |
| KnownStructures.MagmaFacts | src/library/known_structures.py:15-23 | the magma seed has a sort, declares the operations its axioms use and reads back from its dictionary form |
| KnownStructures.SemigroupFacts | src/library/known_structures.py:26-35 | the same seed invariant for the semigroup |
| KnownStructures.MonoidFacts | src/library/known_structures.py:38-51 | the same seed invariant for the monoid |
| KnownStructures.GroupFacts | src/library/known_structures.py:54-69 | the same seed invariant for the group |
| KnownStructures.AbelianFacts | src/library/known_structures.py:72-79 | the same seed invariant for the abelian group |
| KnownStructures.RingFacts | src/library/known_structures.py:82-101 | the same seed invariant for the ring |
| KnownStructures.FieldFacts | src/library/known_structures.py:104-116 | the same seed invariant for the field |
| KnownStructures.LatticeFacts | src/library/known_structures.py:119-152 | the same seed invariant for the lattice |
| KnownStructures.QuasigroupFacts | src/library/known_structures.py:155-199 | the same seed invariant for the quasigroup |
| KnownStructures.LoopFacts | src/library/known_structures.py:202-211 | the same seed invariant for the loop |
| KnownStructures.LieAlgebraFacts | src/library/known_structures.py:214-239 | the same seed invariant for the Lie algebra |
| KnownStructures.VectorSpaceFacts | src/library/known_structures.py:242-260 | the same seed invariant for the vector space |
| KnownStructures.InnerProductFacts | src/library/known_structures.py:263-283 | the same seed invariant for the inner product space |
| KnownStructures.CategoryFacts | src/library/known_structures.py:286-319 | the same seed invariant for the category |
| KnownStructures.NewMagma | src/library/known_structures.py:15-23 | `magma()` returns exactly the `Magma()` seed value, named "Magma", which is its registry key; it has a sort, its axioms apply only its declared operations, its constants are exactly its zero-arity operations, and it reads back from its dictionary form |
| KnownStructures.NewSemigroup | src/library/known_structures.py:26-35 | `semigroup()` returns exactly the `Semigroup()` seed value, named "Semigroup", which is its registry key; it has a sort, its axioms apply only its declared operations, its constants are exactly its zero-arity operations, and it reads back from its dictionary form |
| KnownStructures.NewMonoid | src/library/known_structures.py:38-51 | `monoid()` returns exactly the `Monoid()` seed value, named "Monoid", which is its registry key; it has a sort, its axioms apply only its declared operations, its constants are exactly its zero-arity operations, and it reads back from its dictionary form |
| KnownStructures.NewGroup | src/library/known_structures.py:54-69 | `group()` returns exactly the `Group()` seed value, named "Group", which is its registry key; it has a sort, its axioms apply only its declared operations, its constants are exactly its zero-arity operations, and it reads back from its dictionary form |
| KnownStructures.NewAbelianGroup | src/library/known_structures.py:72-79 | `abelian_group()` returns the group seed renamed, with commutativity of `mul` appended and a new description, named "AbelianGroup", which is its registry key; it has a sort, its axioms apply only its declared operations, its constants are exactly its zero-arity operations, and it reads back from its dictionary form |
| KnownStructures.NewRing | src/library/known_structures.py:82-101 | `ring()` returns exactly the `Ring()` seed value, named "Ring", which is its registry key; it has a sort, its axioms apply only its declared operations, its constants are exactly its zero-arity operations, and it reads back from its dictionary form |
| KnownStructures.NewField | src/library/known_structures.py:104-116 | `field()` returns the ring seed renamed, with `one`, `recip` and their axioms appended and a new description, named "Field", which is its registry key; it has a sort, its axioms apply only its declared operations, its constants are exactly its zero-arity operations, and it reads back from its dictionary form |
| KnownStructures.NewLattice | src/library/known_structures.py:119-152 | `lattice()` returns exactly the `Lattice()` seed value, named "Lattice", which is its registry key; it has a sort, its axioms apply only its declared operations, its constants are exactly its zero-arity operations, and it reads back from its dictionary form |
| KnownStructures.NewQuasigroup | src/library/known_structures.py:155-199 | `quasigroup()` returns exactly the `Quasigroup()` seed value, named "Quasigroup", which is its registry key; it has a sort, its axioms apply only its declared operations, its constants are exactly its zero-arity operations, and it reads back from its dictionary form |
| KnownStructures.NewLoop | src/library/known_structures.py:202-211 | `loop()` returns the quasigroup seed renamed, with the unit `e` and the two-sided identity axiom appended and a new description, named "Loop", which is its registry key; it has a sort, its axioms apply only its declared operations, its constants are exactly its zero-arity operations, and it reads back from its dictionary form |
| KnownStructures.NewLieAlgebra | src/library/known_structures.py:214-239 | `lie_algebra()` returns exactly the `LieAlgebra()` seed value, named "LieAlgebra", which is its registry key; it has a sort, its axioms apply only its declared operations, its constants are exactly its zero-arity operations, and it reads back from its dictionary form |
| KnownStructures.NewVectorSpace | src/library/known_structures.py:242-260 | `vector_space()` returns exactly the `VectorSpace()` seed value, named "VectorSpace", which is its registry key; it has a sort, its axioms apply only its declared operations, its constants are exactly its zero-arity operations, and it reads back from its dictionary form |
| KnownStructures.NewInnerProductSpace | src/library/known_structures.py:263-283 | `inner_product_space()` returns the vector-space seed renamed, with `inner` and its axioms and a new description, named "InnerProductSpace", which is its registry key; it has a sort, its axioms apply only its declared operations, its constants are exactly its zero-arity operations, and it reads back from its dictionary form |
| KnownStructures.NewCategory | src/library/known_structures.py:286-317 | `category_sig()` returns exactly the `Category()` seed value, named "Category", which is its registry key; it has a sort, its axioms apply only its declared operations, its constants are exactly its zero-arity operations, and it reads back from its dictionary form |
| Moves.Lacking | src/moves/engine.py:146-152 | exactly the operations that no axiom of the given kind names, none added |
| Moves.Dualize | src/moves/engine.py:134-171 | the loop yields one candidate per binary operation lacking commutativity, in order (`DualizeExact`) |
| Moves.DualizeExact | src/moves/engine.py:142-169 | the candidates correspond one to one, in order, to the binary operations without a commutativity axiom |
| Moves.DualizeCandidateShape | src/moves/engine.py:143-168 | a dualization copies the parent, appends one commutativity axiom for the operation and one chain step, and names the parent |
| Moves.SelfDistrib | src/moves/engine.py:523-551 | the loop yields one candidate per binary operation lacking self-distributivity, in order |
| Moves.SelfDistribExact | src/moves/engine.py:530-550 | the candidates correspond one to one, in order, to the binary operations without a self-distributivity axiom |
| Moves.SelfDistribCandidateShape | src/moves/engine.py:536-549 | each candidate is the parent plus one left self-distributivity axiom for the operation |
| Moves.Quotient | src/moves/engine.py:283-307 | the nested loops yield the candidates `QuotientAll` describes |
| Moves.QuotientOp | src/moves/engine.py:294-305 | the inner loop over the two quotient rules for one operation |
| Moves.QuotientStepRules | src/moves/engine.py:288-291 | commutativity is tried before idempotence |
| Moves.QuotientCount | src/moves/engine.py:293-305 | one candidate per binary operation lacking commutativity plus one per operation lacking idempotence, so at most two per operation |
| Moves.QuotientMembers | src/moves/engine.py:293-305 | a candidate is produced exactly for each operation and rule whose axiom is missing |
| Moves.QuotientCandidateShape | src/moves/engine.py:297-304 | each candidate is the parent plus the rule's axiom for the operation, which it then has |
| Moves.Internalize | src/moves/engine.py:310-361 | the loop yields one candidate per binary operation, in order |
| Moves.InternalizeExact | src/moves/engine.py:319-359 | the candidates correspond one to one to the binary operations |
| Moves.InternalizeCandidateShape | src/moves/engine.py:320-352 | the candidate adds the sort `Hom_op`, the operations `eval_op` and `curry_op` with their sorts, and the curry-eval axiom, keeping everything else |
| Moves.CountSortsNamed | src/moves/engine.py:464 | no sort carries the name exactly when the count is zero |
| Moves.RemoveAt | src/moves/engine.py:470 | the list without position `i`, the others in order |
| Moves.DeformableIndices | src/moves/engine.py:456-458 | the positions of the axioms that are neither custom nor positivity |
| Moves.Deform | src/moves/engine.py:448-519 | the loop yields one candidate per deformable axiom, in order |
| Moves.DeformExact | src/moves/engine.py:456-517 | the candidates correspond one to one to the deformable axioms |
| Moves.DeformCandidateShape | src/moves/engine.py:460-510 | the axiom is removed and its weakened custom form appended at the end; the other axioms keep their order |
| Moves.DeformOneParam | src/moves/engine.py:463-465 | a deformed signature has exactly one `Param` sort when its parent had at most one |
| Moves.FirstOther | src/moves/engine.py:217-220 | the first name that differs from the operation, or none when every name is the operation |
| Moves.IdentityConstantFound | src/moves/engine.py:214-220 | an identity constant is found exactly when some identity axiom on the operation names another operation, and it is one of those names |
| Moves.FindIdentityConstant | src/moves/engine.py:214-220 | the search loop computes `IdentityConstant` (the last matching axiom wins) |
| Moves.FirstOtherName | src/moves/engine.py:217-220 | the inner loop stops at the first other name |
| Moves.Complete | src/moves/engine.py:174-280 | the move yields the per-operation identity and inverse candidates, then the second-operation and norm candidates |
| Moves.CompleteTail | src/moves/engine.py:237-278 | the second operation exactly when there is one binary operation; the norm when the signature qualifies and has no `norm` |
| Moves.CompleteOp | src/moves/engine.py:180-235 | for one operation: an identity candidate unless one exists, then an inverse candidate when an identity exists, no inverse does and a constant is found |
| Moves.CompleteMembers | src/moves/engine.py:174-280 | a candidate is produced exactly in one of the four cases of the source |
| Moves.CompleteCount | src/moves/engine.py:174-280 | the number of candidates is the sum of the four cases |
| Moves.InverseReadyOps | src/moves/engine.py:204-221 | exactly the operations that qualify for an inverse candidate |
| Moves.CompletionShapes | src/moves/engine.py:189-255 | the identity, inverse and second-operation candidates each add one operation (`e_op`, `inv_op`, `op2`) and one axiom of the right kind to a copy of the parent |
| Moves.NormShape | src/moves/engine.py:258-272 | the norm candidate adds `norm` from the first sort to the second (or the first) and one positivity axiom |
| Moves.SecondCarrier | src/moves/engine.py:372-377 | the second carrier's name never clashes with the first |
| Moves.CopiedOps | src/moves/engine.py:389-401 | one copied operation per original, in order |
| Moves.CopiedAxioms | src/moves/engine.py:404-411 | one copied axiom per original, in order |
| Moves.Transfer | src/moves/engine.py:364-445 | the move yields exactly one candidate |
| Moves.CopyOps | src/moves/engine.py:389-401 | the copy loop computes `CopiedOps` |
| Moves.CopyAxioms | src/moves/engine.py:404-411 | the copy loop computes `CopiedAxioms` |
| Moves.TransferShape | src/moves/engine.py:372-436 | two distinct carriers; the `a_` then `b_` copies of the operations followed by `transfer`; every axiom of both parents with its equation and kind, plus functoriality exactly when both parents have a binary operation |
| Moves.TransferKeepsFirstCarrier | src/moves/engine.py:389-394 | the first parent's operations keep their domains and codomains |
| Moves.SharedKinds | src/moves/engine.py:102-104 | exactly the kinds both parents have |
| Moves.AxiomForKind | src/moves/engine.py:567-576 | an equation exists exactly for associativity, commutativity, idempotence and self-distributivity |
| Moves.TemplateAxioms | src/moves/engine.py:117-120 | one axiom on `op` per shared kind that has a standard equation, carrying that equation |
| Moves.Abstract | src/moves/engine.py:96-131 | the move computes `AbstractAll` |
| Moves.AbstractShape | src/moves/engine.py:102-131 | nothing when no shared kind has a standard equation; otherwise one candidate on the carrier `S` with the single operation `op` |
| Moves.RunOne | src/moves/engine.py:69-78 | dispatching a single-signature move runs that move |
| Moves.RunPair | src/moves/engine.py:69-78 | dispatching a pairwise move runs that move |
| Moves.RunSingles | src/moves/engine.py:81-85 | `_single` concatenates the move's results over the signatures in order |
| Moves.Single | src/moves/engine.py:81-85 | the same for one move kind |
| Moves.Pairwise | src/moves/engine.py:87-93 | `_pairwise` concatenates the move's results over the pairs `i < j` in row order |
| Moves.RunPairsAll | src/moves/engine.py:87-93 | the same for a plan of pairwise moves |
| Moves.PairsFrom | src/moves/engine.py:89-92 | the inner loop over `j` for one `i` |
| Moves.ApplyMove | src/moves/engine.py:67-79 | `apply_move(kind)` gives `MoveAll(kind)` |
| Moves.ApplyAllMoves | src/moves/engine.py:46-65 | `apply_all_moves` gives the six single moves per signature, then the two pairwise moves per pair |
| Moves.AllMovesSplit | src/moves/engine.py:46-65 | the candidates of `apply_all_moves` are exactly those of the eight individual moves, and their number is the sum of theirs |
| Spectrum.Get | src/solvers/mace4.py:47 | a size has no entry exactly when it is not a key of the dictionary |
| Spectrum.GetAt | src/solvers/mace4.py:47 | with distinct keys, every entry is found under its own key |
| Spectrum.Put | src/solvers/mace4.py:148-149 | after `d[k] = v` the key maps to `v`; a new key is appended at the end, as Python dictionaries keep insertion order |
| Spectrum.PutOther | src/solvers/mace4.py:148-149 | assigning one key leaves every other key's value alone |
| Spectrum.PositiveSizes | src/solvers/mace4.py:51-52 | exactly the sizes whose count is positive, without repeats when the keys are distinct |
| Spectrum.SizesWithModels | src/solvers/mace4.py:51-52 | `sizes_with_models()` is sorted, holds exactly the sizes with a positive count, and is strictly ascending when the keys are distinct |
| Spectrum.TotalZero | src/solvers/mace4.py:54-55 | the total is zero exactly when every count is zero |
| Spectrum.EmptyIffNoSizes | src/solvers/mace4.py:57-58 | `is_empty()` holds exactly when no size has models |
| Spectrum.Counts | src/solvers/mace4.py:145-148 | one count entry per size of the range |
| Spectrum.CountsAt | src/solvers/mace4.py:145-149 | the `k`-th entries are size `lo + k` with the number, and the list, of models the search at that size found |
| Spectrum.CountsKeys | src/solvers/mace4.py:145-149 | the keys are exactly the sizes of the range, each once |
| Spectrum.CountsGet | src/solvers/mace4.py:145-148 | looking up a size gives its model count inside the range and nothing outside it |
| Spectrum.CountsSizesWithModels | src/solvers/mace4.py:51-52 | the sizes with models are exactly the sizes of the range whose search found one, ascending |
| Spectrum.RecordExtends | src/solvers/mace4.py:146-149 | recording the next size appends one entry to each dictionary |
| Spectrum.ComputeSpectrum | src/solvers/mace4.py:135-151 | the loop over `min_size..max_size` records every size's count and models, in order, and records no timeout |
| Spectrum.TimedOutsExact | src/solvers/router.py:127-128 | the timed-out list holds exactly the sizes of the range whose search timed out, ascending |
| Spectrum.TimedOutsNone | src/solvers/router.py:127-128 | when no search timed out, nothing is listed |
| Spectrum.CountsNone | src/solvers/mace4.py:57-58 | a range where no search finds a model gives an empty spectrum |
| Spectrum.ComputeSpectrumTracked | src/solvers/z3_solver.py:154-168 | the same loop also lists exactly the timed-out sizes, ascending |
| Mace4.DefaultSolver | src/solvers/mace4.py:72-75 | the default solver runs `mace4` with a 30 second timeout |
| Mace4.AvailableIff | src/solvers/mace4.py:76-85 | the probe succeeds exactly when `mace4 --version` ran and exited with 0 or 1 |
| Mace4.CommandReadsBack | src/solvers/mace4.py:101-103 | the command passes the size as both bounds, and `-m count` exactly when the count exceeds one |
| Mace4.FindOutcomes | src/solvers/mace4.py:87-133 | a timeout gives no models, exit code -1 and the timeout flag; a finished run gives the models parsed from its output and its exit code |
| Mace4.ComputeSpectrum | src/solvers/mace4.py:135-151 | when every size of the range starts, the spectrum holds the number of models Mace4 found at each size and no timeout; otherwise the `OSError` of the first size whose run cannot be started propagates |
| Mace4.SpectrumStarts | src/solvers/mace4.py:87-151 | the spectrum loop returns exactly when Mace4 can be started at every size of the range |
| Mace4.SpectrumLosesTimeouts | src/solvers/mace4.py:145-149 | as written, a size whose run timed out is recorded with count 0 and is not listed as timed out |
| Mace4.ComputeSpectrumTracked | src/solvers/router.py:121-130 | the loop that also lists the sizes whose run timed out; the `OSError` of the first size that cannot be started propagates |
| Mace4.TrackedSpectrumTimeouts | src/solvers/router.py:127-128 | with the flag kept, the timed-out sizes are exactly those whose Mace4 run timed out, ascending |
| Mace4.AllTimeoutsLost | src/solvers/mace4.py:145-149 | when every run times out, sizes 2 to 8 get count 0 and no timeout is listed, although all seven timed out |
| Mace4.FallbackFinder | src/solvers/mace4.py:233 | the fallback's Z3 finder gets the timeout in milliseconds |
| Mace4.FallbackErrors | src/solvers/mace4.py:231-242 | without the Z3 module: no models, exit code -1 and "Neither Mace4 nor Z3 available"; with it but Z3 unusable: the "z3-solver not installed" result; otherwise exactly the Z3 finder's own result or exception |
| Mace4.FallbackSpectrum | src/solvers/mace4.py:244-256 | when every size's search returns, the fallback's spectrum counts the models of each size and lists no timeout; otherwise the first size's exception propagates |
| Mace4.FallbackLosesTimeouts | src/solvers/mace4.py:252-255 | as written, a size whose Z3 search timed out keeps the models found so far and is not listed as timed out |
| Mace4.FallbackSpectrumTracked | src/solvers/z3_solver.py:162-167 | the fallback loop keeping the timeout flag of each size, with the same exception behaviour |
| Mace4.FallbackTrackedTimeouts | src/solvers/z3_solver.py:166-167 | with the flag kept, the timed-out sizes are exactly those whose Z3 search timed out |
| Router.HasHeavyAxioms | src/solvers/router.py:32-34 | true exactly when some axiom's kind is heavy |
| Router.CountHeavyAxioms | src/solvers/router.py:37-39 | zero exactly when no axiom is heavy, the number of axioms exactly when all are |
| Router.HeavyIffCounted | src/solvers/router.py:32-39 | the signature has heavy axioms exactly when their count is at least one |
| Router.Truncate | src/solvers/router.py:66 | `int(x)` truncates toward zero |
| Router.NewRouter | src/solvers/router.py:50-67 | the router probes Mace4 once, keeps the normal Z3 timeout and truncates the heavy one to `int(ms * multiplier)` |
| Router.WholeMultiplier | src/solvers/router.py:50-67 | a whole multiplier multiplies the timeout exactly; the default heavy timeout is 60000 ms, twice the normal one |
| Router.AvailableIff | src/solvers/router.py:69-71 | the router is available exactly when Mace4 or Z3 is |
| Router.Classify | src/solvers/router.py:73-85 | `mace4_heavy` exactly for heavy axioms with Mace4 available, `z3_heavy` for heavy axioms without it, `z3_normal` otherwise |
| Router.ClassifyIgnoresRest | src/solvers/router.py:73-85 | the route depends only on the axiom kinds |
| Router.FindRoutes | src/solvers/router.py:87-111 | the search goes to the solver the route names; on the Mace4 route it raises exactly when Mace4 cannot be started; a Z3 route from size 1 never raises; a returned result is for the requested size |
| Router.ComputeSpectrum | src/solvers/router.py:113-130 | when every size's search returns, the spectrum records each size's count and models and lists exactly the timed-out sizes; otherwise the exception of the first size that raises propagates |
| Router.SpectrumReturns | src/solvers/router.py:87-130 | on the Mace4 route the loop returns exactly when Mace4 starts at every size; on a Z3 route it returns for every range starting at 1, and for every range without the Z3 module |
| Router.SpectrumExact | src/solvers/router.py:121-130 | each size of the range maps to the number of models its routed search found, nothing outside the range is recorded, timed-out sizes ascend |
| Router.Mace4TimeoutsKept | src/solvers/router.py:96-101 | on the Mace4 route the listed timeouts are exactly the sizes whose Mace4 run timed out |
| Z3Model.DefaultFinder | src/solvers/z3_solver.py:30-31 | the default Z3 finder has a 30000 ms timeout |
| Z3Model.StoppedStays | src/solvers/z3_solver.py:94-100 | once the search loop has broken out, further rounds change nothing |
| Z3Model.RoundsShape | src/solvers/z3_solver.py:92-100 | at most one model per round; a loop that ran every round found one each time; a timeout stops the loop |
| Z3Model.RoundsGrow | src/solvers/z3_solver.py:93-100 | later rounds never lose a model |
| Z3Model.RoundsFirst | src/solvers/z3_solver.py:93-100 | some model is found exactly when at least one round runs and the first check, with nothing blocked, is satisfiable |
| Z3Model.RoundsHistory | src/solvers/z3_solver.py:94-126 | the `j`-th model is the solver's model after a satisfiable check that had the first `j` models blocked |
| Z3Model.RoundsEnd | src/solvers/z3_solver.py:95-100 | the loop stops only on a check that is not satisfiable, and records a timeout exactly when that check was unknown |
| Z3Model.RoundsDistinct | src/solvers/z3_solver.py:128-144 | when the solver honours the blocking clauses, no model is found twice |
| Z3Model.RoundsRepeat | src/solvers/z3_solver.py:128-144 | when there are no cells to block, the loop finds nothing or returns the solver's first model in every round |
| Z3Model.Search | src/solvers/z3_solver.py:92-100 | the loop over `range(max_models)` returns the models and the timeout flag of that many rounds |
| Z3Model.FindModels | src/solvers/z3_solver.py:36-152 | `find_models` is the unavailable-module error, the exception of the encoding, or the encoded search at that size, including the `ValueError` a negative size raises when a binary table is filled in |
| Z3Model.UnavailableResult | src/solvers/z3_solver.py:48-55 | without the Z3 module: no models, exit code -1, an error, no timeout |
| Z3Model.FindRaises | src/solvers/z3_solver.py:57-152 | `find_models` raises exactly when Z3 is present and either the encoding raises or the size is negative, a binary operation exists and the first check is satisfiable; from size 1 it never raises |
| Z3Model.AvailableResult | src/solvers/z3_solver.py:92-152 | when the search returns: the encoding succeeded; at most `max_models` models; exit code 0 exactly when some model was found, 1 otherwise; no error; the requested size; a timeout means the last check was unknown; a search that ended early without a timeout had an unsatisfiable check |
| Z3Model.ConstantOnEmptyDomain | src/solvers/z3_solver.py:70-74 | at size 0 or below, a declared constant's range constraint cannot hold, so a solver that answers soundly finds no model and the result has exit code 1 |
| Z3Model.NoConstantsOnEmptyDomain | src/solvers/z3_solver.py:57-144 | at size 0 or below without constants nothing is encoded and nothing is blocked: every model found is the same one, and a satisfiable check fills every round without a timeout |
| Z3Model.ComputeSpectrum | src/solvers/z3_solver.py:154-168 | when every size's search returns, the spectrum records every size's count and models and lists exactly the timed-out sizes; otherwise the exception of the first size that raises propagates |
| Z3Model.SpectrumReturns | src/solvers/z3_solver.py:154-168 | the loop returns for every range starting at 1, and for every range when the Z3 module is absent |
| Z3Model.SpectrumCounts | src/solvers/z3_solver.py:162-165 | every size of the range maps to the number of models its search found, no other size is recorded |
| Z3Model.TimedOutAt | src/solvers/z3_solver.py:93-98 | a returned result is flagged as timed out exactly when its search hit an unknown check |
| Z3Model.SpectrumTimeouts | src/solvers/z3_solver.py:166-167 | the timed-out sizes are exactly the sizes whose search timed out, ascending |
| Z3Model.UnavailableSpectrum | src/solvers/z3_solver.py:48-55 | without the Z3 module the spectrum is empty and lists no timeout |
| Z3Encode.ChainEval | src/solvers/z3_solver.py:261-264 | the If-Then-Else chain from position `i` evaluates to the table entry the index selects, the last entry standing for every index past the end |
| Z3Encode.BuildChain | src/solvers/z3_solver.py:261-264 | the backwards loop builds the chain that starts at the first entry |
| Z3Encode.Lookup1DSelects | src/solvers/z3_solver.py:255-264 | a one-dimensional lookup evaluates to the entry its index selects, a concrete index reading the table directly |
| Z3Encode.BuildLookup1D | src/solvers/z3_solver.py:255-264 | `_z3_lookup_1d` returns the lookup term |
| Z3Encode.RowLookups | src/solvers/z3_solver.py:281-284 | the loop builds one column lookup per row |
| Z3Encode.Lookup2DSelects | src/solvers/z3_solver.py:266-289 | a two-dimensional lookup evaluates to the cell its row and column select |
| Z3Encode.BuildLookup2D | src/solvers/z3_solver.py:266-289 | `_z3_lookup_2d` returns the lookup term, with a concrete row going straight to that row |
| Z3Encode.EvalExpr | src/solvers/z3_solver.py:203-253 | an evaluated expression is an index the tables can be read with |
| Z3Encode.EvalArgs | src/solvers/z3_solver.py:223-228 | the arguments evaluate one by one, all or nothing |
| Z3Encode.Apply | src/solvers/z3_solver.py:230-251 | an application with zero, one or two arguments reads the constant, unary or binary table, giving a solver term |
| Z3Encode.WideApplicationIsNone | src/solvers/z3_solver.py:243-253 | an application with three or more arguments evaluates to nothing |
| Z3Encode.Interp | src/solvers/z3_solver.py:203-253 | under an assignment of the table cells, an expression's value lies in the domain |
| Z3Encode.InterpArgs | src/solvers/z3_solver.py:223-228 | every argument's value lies in the domain |
| Z3Encode.EvalExprSound | src/solvers/z3_solver.py:203-253 | the encoded term exists exactly when the expression has a value, and it evaluates to that value under every in-range assignment |
| Z3Encode.EvalArgsSound | src/solvers/z3_solver.py:223-228 | the same for an argument list, argument by argument |
| Z3Encode.ApplySound | src/solvers/z3_solver.py:230-251 | an encoded application evaluates to the table cell its argument values select |
| Z3Encode.VarOccurrences | src/core/ast_nodes.py:31-32 | the variable occurrences of an expression are its variables |
| Z3Encode.VarOccurrencesList | src/core/ast_nodes.py:74-78 | the same for a list of arguments |
| Z3Encode.Dedup | src/solvers/z3_solver.py:185 | the names without repeats, same members |
| Z3Encode.VarNamesSpec | src/solvers/z3_solver.py:185 | `sorted(eq.variables())` holds each variable of the equation once, in string order |
| Z3Encode.DistinctCard | src/solvers/z3_solver.py:185 | a repeat-free list has as many entries as the set it enumerates |
| Z3Encode.Extend | src/solvers/z3_solver.py:196 | prefixing each tuple with each domain value multiplies the count by the domain size |
| Z3Encode.Assignments | src/solvers/z3_solver.py:196 | `product(range(n), repeat=k)` has `n^k` tuples |
| Z3Encode.PrefixMember | src/solvers/z3_solver.py:196 | a tuple is the value `x` prefixed to a member of the base exactly when it starts with `x` and its tail is in the base |
| Z3Encode.ExtendMember | src/solvers/z3_solver.py:196 | a tuple is in the extension exactly when its head is in range and its tail is in the base |
| Z3Encode.AssignmentOkCons | src/solvers/z3_solver.py:196 | a tuple of length `k` over the domain is a head in range followed by one of length `k-1` |
| Z3Encode.AssignmentsExact | src/solvers/z3_solver.py:196 | the product contains exactly the tuples of length `k` with every entry in range |
| Z3Encode.Zip | src/solvers/z3_solver.py:197 | `dict(zip(names, values))` has exactly the names as keys, each bound to one of the values |
| Z3Encode.ZipInRange | src/solvers/z3_solver.py:197 | an environment built from an in-range tuple binds every name to a domain element |
| Z3Encode.AllHoldAppend | src/solvers/z3_solver.py:192-201 | adding two batches of constraints asserts both |
| Z3Encode.Instance | src/solvers/z3_solver.py:198-201 | one assignment adds at most one equality |
| Z3Encode.Instances | src/solvers/z3_solver.py:196-201 | the loop adds at most one equality per assignment |
| Z3Encode.EncodingBound | src/solvers/z3_solver.py:184-201 | an axiom adds at most `n^v` constraints for `v` variables |
| Z3Encode.EncodeGround | src/solvers/z3_solver.py:187-193 | a ground equation adds its one equality, if both sides evaluate |
| Z3Encode.EncodeInstances | src/solvers/z3_solver.py:196-201 | the loop over assignments adds their equalities in order |
| Z3Encode.EncodeAxiom | src/solvers/z3_solver.py:170-201 | `_encode_axiom` adds the axiom's encoding |
| Z3Encode.InstanceExact | src/solvers/z3_solver.py:197-201 | an instance's constraint holds exactly when the equation holds at that assignment, where a side that does not evaluate leaves nothing to check |
| Z3Encode.AllInstancesHoldSnoc | src/solvers/z3_solver.py:196-201 | the instances of a longer list hold exactly when the shorter list's do and the last one does |
| Z3Encode.InstancesExact | src/solvers/z3_solver.py:196-201 | the added constraints hold exactly when every instance of the equation holds |
| Z3Encode.EncodingExact | src/solvers/z3_solver.py:170-201 | an axiom's constraints hold under an in-range assignment exactly when the axiom holds in the finite model it describes |
| Z3Encode.UnaryTable | src/solvers/z3_solver.py:76 | one fresh cell `f_i` per domain element |
| Z3Encode.GridRow | src/solvers/z3_solver.py:81 | one fresh cell `f_i_j` per column |
| Z3Encode.BinaryTable | src/solvers/z3_solver.py:81 | one row of cells per domain element |
| Z3Encode.RowBounds | src/solvers/z3_solver.py:77-78 | one range constraint per cell |
| Z3Encode.GridBoundsMember | src/solvers/z3_solver.py:82-84 | every cell of a binary table is constrained to the domain |
| Z3Encode.TablesFor | src/solvers/z3_solver.py:70-85 | on a non-empty domain the tables are well shaped |
| Z3Encode.TablesForKeys | src/solvers/z3_solver.py:70-85 | an operation name has a constant, unary or binary table exactly when some operation of arity 0, 1 or 2 has that name |
| Z3Encode.AddOpRange | src/solvers/z3_solver.py:70-85 | an operation's range constraints put its new cells in the domain |
| Z3Encode.UnaryRange | src/solvers/z3_solver.py:75-79 | the same for a unary table |
| Z3Encode.BinaryRange | src/solvers/z3_solver.py:80-85 | the same for a binary table |
| Z3Encode.BoundsGiveRange | src/solvers/z3_solver.py:70-85 | the range constraints put every table cell in the domain |
| Z3Encode.BuildTables | src/solvers/z3_solver.py:70-85 | the loop over operations builds the tables and their range constraints |
| Z3Encode.AxiomsHoldEach | src/solvers/z3_solver.py:88-89 | the axioms hold together only if each one does |
| Z3Encode.AxiomsEncodingExact | src/solvers/z3_solver.py:88-89 | the axioms' constraints hold exactly when every axiom holds |
| Z3Encode.SignatureEncodingExact | src/solvers/z3_solver.py:57-89 | from size 1, all constraints of a signature hold exactly when the cells lie in the domain and every axiom holds: a solution is a finite model; at size 0 or below, a signature without constants encodes to nothing, and an encoding that does not raise is satisfiable exactly when no constant is declared |
| Z3Encode.EncodeAxioms | src/solvers/z3_solver.py:88-89 | the loop adds the axioms' encodings in order |
| Z3Encode.EncodeSignature | src/solvers/z3_solver.py:57-89 | the encoding step of `find_models` builds the tables and the constraints at any size, or raises the error of the first axiom that fails on an empty domain |
| Z3Encode.EvalEmpty | src/solvers/z3_solver.py:203-253 | on an empty domain, an expression that yields a term yields a constant's cell |
| Z3Encode.ApplyEmpty | src/solvers/z3_solver.py:230-251 | the same for one application |
| Z3Encode.EvalEmptyNoConstants | src/solvers/z3_solver.py:203-253 | without constants, evaluation on an empty domain yields nothing and never raises |
| Z3Encode.EmptyEncodingNoConstants | src/solvers/z3_solver.py:170-201 | without constants, an axiom adds nothing on an empty domain |
| Z3Encode.EmptyAxiomsNoConstants | src/solvers/z3_solver.py:88-89 | without constants, the axiom loop adds nothing on an empty domain |
| Z3Encode.EmptyBoundsNoConstants | src/solvers/z3_solver.py:70-85 | at size 0 or below, operations of arity 1 and 2 add no range constraints |
| Z3Encode.ConstantBound | src/solvers/z3_solver.py:71-73 | every constant adds its range constraint |
| Z3Encode.ConstantBoundFails | src/solvers/z3_solver.py:73 | on an empty domain a constant's range constraint cannot hold |
| Z3Encode.EncodeEmptyAxioms | src/solvers/z3_solver.py:88-89 | the axiom loop on an empty domain adds the axioms' constraints in order, or stops at the first axiom that raises |
| Z3Encode.PrefixRaises | src/solvers/z3_solver.py:88-89 | once an axiom raises, the axioms after it change nothing |
| Cayley.Column | src/models/cayley.py:32 | `table[:, j]` is the `j`-th entry of every row |
| Cayley.ValuesCount | src/models/cayley.py:30 | `len(set(row))` is at most the row's length, and equal to it exactly when the row has no repeats |
| Cayley.NoRepeatsAt | src/models/cayley.py:29-33 | row `i` (column `i`) has `n` distinct values exactly when no two of its cells are equal |
| Cayley.LatinIffNoRepeats | src/models/cayley.py:23-34 | a Latin square is one whose every row and every column is free of repeats |
| Cayley.IsLatinSquare | src/models/cayley.py:23-34 | true exactly when the operation has a table and that table is a Latin square; a missing table gives false |
| Cayley.Transpose | src/models/cayley.py:40 | `table.T` swaps rows and columns |
| Cayley.IsCommutative | src/models/cayley.py:36-40 | true exactly when the table exists and equals its transpose |
| Cayley.HasIdentity | src/models/cayley.py:42-56 | the smallest identity element when there is one, `None` when there is none or the table is missing |
| Cayley.IdentityUnique | src/models/cayley.py:48-55 | a table has at most one identity, so the smallest is the only one |
| Cayley.IsAssociative | src/models/cayley.py:58-68 | true exactly when the table exists and `(a*b)*c == a*(b*c)` for all elements |
| Cayley.Uniques | src/models/cayley.py:113-115 | row and column `i` contribute at most `2n` distinct values, exactly `2n` when both are repeat-free |
| Cayley.FractionBounds | src/models/cayley.py:115-116 | a share of a positive whole lies in `[0, 1]` and is 1 only for the whole |
| Cayley.ScoreSumBounds | src/models/cayley.py:111-115 | the running score after `k` rows lies between 0 and `k`, and is `k` exactly when each of those rows and columns is repeat-free |
| Cayley.ScoreMeaning | src/models/cayley.py:105-116 | the symmetry score lies in `[0, 1]` and is 1.0 exactly for a Latin square |
| Cayley.SymmetryScore | src/models/cayley.py:105-116 | 0.0 for a missing table; `ZeroDivisionError` for a table of size 0; otherwise the average of the row and column scores, in `[0, 1]`, equal to 1.0 exactly for a Latin square |
| Cayley.Remove | src/models/cayley.py:127 | taking one element out of a list shortens it by one |
| Cayley.Range | src/models/cayley.py:127 | `range(n)` is `0, ..., n-1` |
| Cayley.PermsRearrange | src/models/cayley.py:127 | every arrangement `permutations` yields holds the same elements |
| Cayley.PermsFromRearrange | src/models/cayley.py:127 | the same for the arrangements that start with element `i` or later |
| Cayley.PrefixRearranges | src/models/cayley.py:127 | putting an element in front of rearrangements of the rest rearranges the whole |
| Cayley.RemoveMultiset | src/models/cayley.py:127 | removing element `i` leaves everything else |
| Cayley.PermsHoldIdentity | src/models/cayley.py:127 | the identity arrangement is among the permutations |
| Cayley.AllPermsArePermutations | src/models/cayley.py:127 | `permutations(range(n))` yields only permutations of `0..n-1`, the identity among them |
| Cayley.CheckRelabelling | src/models/cayley.py:128-135 | the inner loops report whether `perm[t1[a][b]] == t2[perm[a]][perm[b]]` for all `a`, `b` |
| Cayley.CountMaps | src/models/cayley.py:127-137 | the count is at most the number of permutations tried |
| Cayley.CountMapsPositive | src/models/cayley.py:127-137 | the count is positive exactly when some permutation tried is a relabelling |
| Cayley.AutomorphismCountEstimate | src/models/cayley.py:118-138 | 0 for a missing table or a size above 8; otherwise the number of permutations that map the table to itself |
| Cayley.CountRelabellings | src/models/cayley.py:126-137 | the loop over permutations counts those that are relabellings |
| Cayley.AutomorphismsAtLeastOne | src/models/cayley.py:118-138 | a table always has at least one automorphism, the identity, and at most `n!` |
| Cayley.ModelsAreIsomorphic | src/models/cayley.py:160-186 | true exactly when the sizes agree, are at most 10, and some permutation maps the first table onto the second |
| Cayley.FindRelabelling | src/models/cayley.py:175-186 | the loop finds a relabelling exactly when one exists among the permutations |
| Cayley.IsomorphicToItself | src/models/cayley.py:160-186 | every model is isomorphic to itself |
| Cayley.PermsSingleton | src/models/cayley.py:127 | one element has one arrangement |
| Cayley.AllPermsOfTwo | src/models/cayley.py:127 | `permutations(range(2))` yields `(0, 1)` then `(1, 0)` |
| Cayley.FromDict | src/models/cayley.py:147-153 | raises `KeyError` exactly when `size` or `tables` is missing, naming `size` first; otherwise the model has the dictionary's size and tables, and its constants, or none when the entry is absent |
| Cayley.DictReadBack | src/models/cayley.py:140-153 | a dictionary that reads back is the `to_dict` form of the model it gives, apart from an absent `constants` entry |
| Cayley.DictRoundTrip | src/models/cayley.py:140-153 | `from_dict(to_dict(m))` raises nothing and gives back `m` |
| Fol.ExprPrints | src/solvers/fol_translator.py:81-97 | every expression of the AST has a Mace4 term; the `None` branch is never taken |
| Fol.ArgsPrint | src/solvers/fol_translator.py:90-95 | every argument prints, one term per argument, in order |
| Fol.Term | src/solvers/fol_translator.py:81-97 | the term `_expr_to_mace4` returns |
| Fol.TermAvoids | src/solvers/fol_translator.py:81-97 | a character other than a parenthesis or comma appears in the term only if it appears in some name |
| Fol.Formula | src/solvers/fol_translator.py:73-79 | the formula `_equation_to_mace4` returns |
| Fol.FormulaSplits | src/solvers/fol_translator.py:79 | when no name contains `=`, splitting `lhs = rhs` at `=` gives back the two sides |
| Fol.AppendAxiomBlocks | src/solvers/fol_translator.py:34-40 | the loop appends a comment, the formula and a blank line per axiom |
| Fol.ToMace4 | src/solvers/fol_translator.py:18-43 | `to_mace4` joins the Mace4 lines with newlines |
| Fol.AxiomBlocksAt | src/solvers/fol_translator.py:34-40 | three lines per axiom: `  % ` and the description (or kind), the formula with a full stop, a blank line |
| Fol.Mace4Layout | src/solvers/fol_translator.py:18-43 | the Mace4 input has `8 + 3k` lines for `k` axioms: the `assign(domain_size, n).` line, the assumptions header, the axiom blocks and `end_of_list.` last |
| Fol.Mace4SizeIndependent | src/solvers/fol_translator.py:24-32 | inputs for two sizes differ only in the two lines that mention the size |
| Fol.OneLineEachConcat | src/solvers/fol_translator.py:43 | two lists of single lines joined stay single lines |
| Fol.KindNameOneLine | src/core/signature.py:18-38 | no kind name contains a newline |
| Fol.KindNameOneLineFirst | src/core/signature.py:21-29 | the same for the first nine kinds |
| Fol.KindNameOneLineSecond | src/core/signature.py:30-38 | the same for the other nine kinds |
| Fol.HeaderOneLine | src/solvers/fol_translator.py:24-32 | the header lines contain no newline when the name has none |
| Fol.BlockOneLine | src/solvers/fol_translator.py:37-40 | an axiom block is three single lines when its description and names have no newline |
| Fol.BlocksOneLine | src/solvers/fol_translator.py:34-40 | the same for all axioms |
| Fol.Mace4LinesRecovered | src/solvers/fol_translator.py:43 | when no name or description has a newline, splitting the Mace4 text at newlines gives back its lines |
| Fol.AppendAssumptions | src/solvers/fol_translator.py:54-57 | the loop appends one formula line per axiom |
| Fol.ToProver9 | src/solvers/fol_translator.py:45-71 | `to_prover9` joins the Prover9 lines with newlines |
| Fol.AssumptionLinesAt | src/solvers/fol_translator.py:54-57 | one indented formula with a full stop per axiom, in order |
| Fol.GoalsAt | src/solvers/fol_translator.py:59-70 | the tail closes the assumptions, opens `formulas(goals).` with the conjecture and closes it |
| Fol.Prover9Layout | src/solvers/fol_translator.py:45-71 | the Prover9 input has `k + 12` lines: the assumptions header, one line per axiom, then the goal section |
| Prover9.DefaultSolver | src/solvers/prover9.py:40-42 | the default prover runs `prover9` with a 30 second timeout |
| Prover9.AvailableIff | src/solvers/prover9.py:45-53 | the probe raises exactly on an `OSError` other than a missing binary, since it catches only `FileNotFoundError` and `TimeoutExpired`; otherwise it answers yes exactly when `prover9 --version` ran and exited with 0 or 1 |
| Prover9.ProveStatus | src/solvers/prover9.py:55-99 | proved exactly on exit 0 with "THEOREM PROVED"; otherwise disproved exactly when "SEARCH FAILED" appears; timeout for other output or a subprocess timeout; error, with "Prover9 not found at" the path, exactly when the binary is missing; any other `OSError` propagates and is the only way `prove` raises; only a proof carries proof text |
| Prover9.ExtractProof | src/solvers/prover9.py:101-113 | the loop with its `in_proof` flag returns the proof section |
| Prover9.ThroughCloseAll | src/solvers/prover9.py:109-112 | with no closing line every line is kept |
| Prover9.ThroughCloseAt | src/solvers/prover9.py:109-112 | the section stops at, and includes, the first closing line |
| Prover9.ProofSectionNone | src/solvers/prover9.py:105-110 | without a line containing "PROOF" nothing is kept |
| Prover9.ProofSectionAt | src/solvers/prover9.py:106-112 | the section starts at the first line containing "PROOF" |
| Prover9.ExtractProofEmpty | src/solvers/prover9.py:101-113 | the extracted proof is empty exactly when no line contains "PROOF" |
| Prover9.GenerateConjectures | src/solvers/prover9.py:122-166 | the loop over operations returns the proposed conjectures |
| Prover9.AppendOpConjectures | src/solvers/prover9.py:130-164 | one operation contributes its conjectures after those of earlier operations |
| Prover9.OpConjecturesMembers | src/solvers/prover9.py:130-164 | an operation proposes exactly the commutativity, idempotence and associativity laws no axiom of that kind already states for it, and only when binary |
| Prover9.ConjecturesMembers | src/solvers/prover9.py:122-166 | a conjecture is generated exactly when some operation proposes it |
| Prover9.ConjecturesBound | src/solvers/prover9.py:129-164 | at most three conjectures per binary operation |
| Prover9.ConjectureVariables | src/solvers/prover9.py:127 | the conjectures use only the variables `x`, `y`, `z` |
| Prover9.BareBinaryOp | src/solvers/prover9.py:133-164 | a binary operation with none of the three axioms adds the commutativity, idempotence and associativity laws, in that order |
| Scoring.ToDict | src/scoring/engine.py:44-58 | `to_dict` has twelve entries, each the named field's value, with `total` last |
| Scoring.WeightedInRange | src/scoring/engine.py:114-117 | a non-negative weight times a value in `[0, 1]` lies between 0 and the weight |
| Scoring.WeightedTotalBounded | src/scoring/engine.py:113-117 | with non-negative weights on fields in `[0, 1]`, the weighted total exists and lies between 0 and the sum of the weights |
| Scoring.WeightSumStep | src/scoring/engine.py:62-74 | the weight sum from position `k` is weight `k` plus the rest |
| Scoring.DefaultWeightTail | src/scoring/engine.py:68-74 | the last six default weights add up to 0.45 |
| Scoring.DefaultWeightHead | src/scoring/engine.py:62-67 | the first five add 0.55 to that |
| Scoring.DefaultWeightSum | src/scoring/engine.py:62-74 | the default weights are non-negative and add up to 1.0 |
| Scoring.DefaultWeightKeys | src/scoring/engine.py:62-74 | every default weight names a field of the breakdown, so `getattr` never fails |
| Scoring.WeightedTotalDefined | src/scoring/engine.py:113-117 | the total exists when every weight names a field |
| Scoring.DefaultTotalInUnit | src/scoring/engine.py:113-117 | with the default weights and every dimension in `[0, 1]`, the total lies in `[0, 1]` |
| Scoring.NewEngine | src/scoring/engine.py:80-81 | `weights or DEFAULT_WEIGHTS`: a non-empty weight table is kept, an absent or empty one replaced by the defaults |
| Scoring.CrossSortOps | src/scoring/engine.py:139-143 | the number of cross-sort operations is at most the number of operations |
| Scoring.TouchedSortsMember | src/scoring/engine.py:131-136 | a sort is touched exactly when some operation mentions it in its domain or codomain |
| Scoring.AddOpSorts | src/scoring/engine.py:134-136 | one operation adds its domain sorts and codomain |
| Scoring.CollectTouchedSorts | src/scoring/engine.py:131-136 | the loop collects the touched sorts |
| Scoring.CountCrossSortOps | src/scoring/engine.py:139-143 | the loop counts the operations that mention more than one sort |
| Scoring.Connectivity | src/scoring/engine.py:121-148 | `_connectivity`: 0.5 for at most one sort, else the mean of sort coverage and cross-sort ratio |
| Scoring.ConnectivityBounds | src/scoring/engine.py:121-148 | connectivity is non-negative, and at most 1 when operations mention only declared sorts |
| Scoring.ConnectivityCanExceedOne | src/scoring/engine.py:145-148 | an operation that mentions undeclared sorts pushes connectivity above 1 |
| Scoring.RichnessBounds | src/scoring/engine.py:150-160 | richness lies in `(0, 1]` and peaks when there are as many axioms as operations |
| Scoring.Tension | src/scoring/engine.py:162-174 | tension lies in `[0, 1]` |
| Scoring.NewKindRaisesTension | src/scoring/engine.py:168-174 | adding an axiom of a new kind raises tension while fewer than six kinds are present |
| Scoring.TensionSaturates | src/scoring/engine.py:171-174 | tension is 1.0 exactly when at least six kinds are present |
| Scoring.EconomyBounds | src/scoring/engine.py:176-187 | economy lies in `[0.1, 1]`, is 1.0 for 3 to 5 components, drops 0.04 per component from 5 to 12, and is 0.76 at 11 |
| Scoring.Fertility | src/scoring/engine.py:189-201 | fertility lies in `[0, 1]` and is 1.0 exactly with at least three sorts and three binary operations |
| Scoring.MinOf | src/scoring/engine.py:209 | `min` of a non-empty list is in it and below every element |
| Scoring.MaxOf | src/scoring/engine.py:209 | `max` of a non-empty list is in it and above every element |
| Scoring.DiversityOfBounds | src/scoring/engine.py:211-218 | with no more sizes with models than the size range, diversity lies in `[0, 1]` |
| Scoring.AscendingSpan | src/scoring/engine.py:208-209 | strictly ascending sizes within `[lo, hi]` number at most `hi - lo + 1` |
| Scoring.DivInUnit | src/scoring/engine.py:212 | a share of a positive whole lies in `[0, 1]` |
| Scoring.CoverageBound | src/scoring/engine.py:205-212 | with models present there are keys, and the sizes with models fit in the key range |
| Scoring.ModelDiversityBounds | src/scoring/engine.py:203-218 | model diversity lies in `[0, 1]` |
| Scoring.Gaps | src/scoring/engine.py:247 | the differences of consecutive sizes, one fewer than the sizes |
| Scoring.Ratios | src/scoring/engine.py:257 | the ratios of consecutive positive sizes, one fewer than the sizes |
| Scoring.CountsAt | src/scoring/engine.py:263 | one count per size |
| Scoring.SpectrumPatternValues | src/scoring/engine.py:220-270 | the pattern score is one of 0, 0.3, 0.5, 0.7, 0.8, 0.9, and 0 with fewer than two sizes with models |
| Scoring.ProgressionScores | src/scoring/engine.py:247-253 | an arithmetic progression of sizes scores at least 0.3, and at least 0.7 when its gap exceeds 1 |
| Scoring.SizesInOrder | src/solvers/mace4.py:51-52 | already ascending sizes with models come out unchanged |
| Scoring.ConsecutiveScore | src/scoring/engine.py:245-268 | sizes 2 to 5 with one model each score 0.5: the consecutive progression gives 0.3 and the monotone counts 0.5 |
| Scoring.ConsecutiveRatios | src/scoring/engine.py:256-260 | the ratios of 2, 3, 4, 5 spread too far to score |
| Scoring.GappedScore | src/scoring/engine.py:245-251 | sizes 2, 4, 6, 8 score 0.7 |
| Scoring.ConsecutiveBelowGapped | src/scoring/engine.py:245-253 | a spectrum at 2, 3, 4, 5 scores 0.5 and one at 2, 4, 6, 8 scores 0.7: gaps above one score higher |
| Scoring.OneModelEach | src/scoring/engine.py:229-263 | a spectrum with one model at four ascending sizes has those sizes and counts |
| Scoring.PositiveFour | src/solvers/mace4.py:51-52 | four entries with positive counts all have models |
| Scoring.CountsFour | src/scoring/engine.py:263 | looking up four distinct sizes reads their counts |
| Scoring.PositiveCounts | src/scoring/engine.py:295 | the positive counts are at most all counts |
| Scoring.SolverDifficultyBounds | src/scoring/engine.py:272-302 | difficulty lies in `[0, 1]`; 0 when every size timed out; 1.0 exactly for a non-empty spectrum with no timeouts that is not flat; strictly between 0 and 1 with some but not all sizes timed out |
| Scoring.AddKindsIn | src/scoring/engine.py:319-322 | one step adds the move kinds its text contains |
| Scoring.DistanceFromKnown | src/scoring/engine.py:304-326 | the loop over the chain computes the distance from its length and move kinds |
| Scoring.MoveKindsWithin | src/scoring/engine.py:317-322 | only the seven move kinds are collected |
| Scoring.DistanceBounds | src/scoring/engine.py:304-326 | distance is 0 for an empty chain and in `(0, 1]` otherwise |
| Scoring.StepKindsInChain | src/scoring/engine.py:318-322 | each step's kinds are among the chain's kinds |
| Scoring.RepeatedStepKeepsDiversity | src/scoring/engine.py:317-324 | repeating a step adds no move kind |
| Scoring.HasModels | src/scoring/engine.py:101 | 1.0 exactly when some size has models, 0.0 exactly when none does |
| Scoring.TimeoutsLeaveHasModelsZero | src/scoring/engine.py:101 | a spectrum with only a timed-out size has no models, whether or not the timeout is listed |
| Scoring.Dimensions | src/scoring/engine.py:90-111 | the dimensions leave the total at its default 0 |
| Scoring.Score | src/scoring/engine.py:83-119 | `score` fills the dimensions and the weighted total |
| Scoring.ModelAndNoveltyFlags | src/scoring/engine.py:100-109 | `has_models` is 1.0 exactly when a spectrum is given with models, else 0; `is_novel` is 1.0 exactly when fingerprints are given and this one is not among them |
| Scoring.DimensionsBounded | src/scoring/engine.py:90-111 | every dimension lies in `[0, 1]` for well-formed spectra and declared sorts |
| Scoring.DefaultScoreSucceeds | src/scoring/engine.py:113-117 | with the default weights the score is always computed |
| Scoring.DefaultScoreBounded | src/scoring/engine.py:83-119 | with the default weights the total lies in `[0, 1]` |
| Backtest.WithId | backtest.py:51-52 | the ID filter keeps exactly the discoveries with that ID |
| Backtest.AtLeast | backtest.py:58-59 | the score filter keeps exactly the discoveries scoring at least the minimum |
| Backtest.ParseAll | backtest.py:85-102 | phase 1 splits the selection into parsed signatures and parse-error results, in order |
| Backtest.ParsePartition | backtest.py:86-102 | every discovery is either parsed or reported, and each report is a FAIL |
| Backtest.ParseFailuresExist | backtest.py:86-102 | there is a report exactly when some signature fails to parse |
| Backtest.Decide | backtest.py:143-159 | FAIL exactly when no models were found and nothing timed out; WARN exactly when the original had models, none were found and some size timed out; PASS otherwise, and only a PASS has no reason |
| Backtest.ScoringFingerprints | backtest.py:132-137 | the loop over the selection builds the re-scoring fingerprint set |
| Backtest.ScoringFingerprintsMember | backtest.py:132-137 | a fingerprint is used exactly when it is known, or belongs to a sibling and differs from the discovery's own |
| Backtest.OwnFingerprintOnlyIfKnown | backtest.py:129-137 | the discovery's own fingerprint is in the set exactly when it is a known one |
| Backtest.AssessOf | backtest.py:121-161 | a discovery queues a score update exactly when it passes |
| Backtest.ItemsOf | backtest.py:121-163 | phase 3 gives one result per parsed discovery |
| Backtest.Assess | backtest.py:121-163 | one iteration of phase 3: the status chain and the queued update |
| Backtest.AssessStep | backtest.py:121-163 | each iteration appends its result and, on a PASS, its update |
| Backtest.AssessAll | backtest.py:104-179 | phases 2 and 3 give the results and updates of every parsed discovery, in order |
| Backtest.CountStatusPositive | backtest.py:184-186 | a status is counted at least once exactly when some result has it |
| Backtest.UpdatesArePasses | backtest.py:156-161 | there is one update per PASS |
| Backtest.CountFails | backtest.py:186 | the loop counts the FAIL results |
| Backtest.RunBacktest | backtest.py:28-233 | `run_backtest` returns the report of the whole run |
| Backtest.BacktestOutcome | backtest.py:46-233 | the exit code is 1 exactly when the ID matches nothing or some result is a FAIL, otherwise 0, and every PASS has one update |
| Backtest.CountStatusAppend | backtest.py:184-186 | counts over two result lists add up |
| Backtest.CountStatusNone | backtest.py:184-186 | a status no result has is counted zero times |
| Backtest.ParseFailureFailsRun | backtest.py:92-102 | a selected discovery whose signature does not parse makes the run exit with 1 |
| Backtest.WarningsDoNotFail | backtest.py:228-233 | a run with warnings but no FAIL exits with 0 |

## Where the code and its description differ

The model follows the code in each of these cases.

- **Backtest fingerprints.** The comment at backtest.py:129-131 says the discovery's own fingerprint is excluded from the re-scoring set. The loop at lines 132-137 excludes it only from the siblings' fingerprints. It stays in the set when it is also a known fingerprint (`Backtest.OwnFingerprintOnlyIfKnown`).
- **`has_models` with timeouts.** tests/test_solvers.py:403-414 expects 0.5 for a zero-model spectrum with timeouts. src/scoring/engine.py:101 gives 0 (`Scoring.TimeoutsLeaveHasModelsZero`).
- **`axiom_synergy`.** tests/test_scoring.py:244-291 score an `axiom_synergy` dimension. `ScoreBreakdown` has no such field, so the model has none.
- **Economy at 11 components.** tests/test_scoring.py:228-241 expect 0.52. src/scoring/engine.py:186 gives 0.76 (`Scoring.EconomyBounds`).
- **Fallback timeouts.** tests/test_solvers.py:226-242 expect `Mace4Fallback.compute_spectrum` to pass on timeouts. The loop at src/solvers/mace4.py:252-255 does not (`Mace4.FallbackLosesTimeouts`; see Findings).

## Left out

- **Outside processes and I/O.** The Mace4 and Prover9 subprocesses, the temporary input file and its removal are not modelled. So are the library on disk, the JSON files and the rich console tables. The subprocess is the parameter `run`, which reports an exit code with output, a timeout, or a program that did not start, telling a missing binary from other `OSError`s.
- **Z3 itself.** Satisfiability and model extraction are the parameter `b` (`check`, `model`). Z3's term evaluation is modelled (`Z3Encode.Eval`), not its solving.
- Z3Model.RoundsDistinct: holds only for a `check` that honours the blocking clauses (`BlocksFound`), because Z3's own behaviour is outside the model.
- **Mace4 output parsing.** The regular-expression parser of Mace4's output (src/solvers/mace4.py:153-212) is the parameter `parse`.
- Mace4.FindOutcomes: a Mace4 binary that cannot be started raises an `OSError` (`FileNotFoundError` for a missing binary) out of `find_models`. The model reports it as the failure `OSError`, without the exception's message.
- Z3Model.ConstantOnEmptyDomain: assumes a `check` that never answers sat for unsatisfiable constraints (`SoundCheck`), because Z3's own behaviour is outside the model.
- **Dictionary value types.** The stored dictionaries are typed: a key is present or absent, but a value of the wrong type (a number where a name belongs) cannot be written, so the `TypeError`s it would cause are not modelled.
- **Floating point and transcendental functions.** Arithmetic is exact `real`, so float rounding is not modelled.
  - `math.exp` is the parameter `exp`, assumed to lie in `(0, 1]` on non-positive arguments (`ExpBounded`). It enters richness and the model-diversity count score.
  - Row entropy, column entropy and `max_entropy` (src/models/cayley.py:70-103) use `log2` and are not modelled.
- **Fingerprint hash.** The SHA-256 of the JSON triple (src/core/signature.py:132-133) is replaced by the triple itself, so equal hashes are taken to mean equal shapes.
- **Parser.** `parse_equation` and `parse_expr` are imported at src/core/signature.py:15 and are not part of this model. `Parser` is rebuilt from the grammar that tests/test_backtest.py:18-98 exercises: `(a op b)`, `op(a)`, `op(a, b, c)`, and bare names resolved against the constants. Its error messages are its own.
- **Heavy kinds.** `HEAVY_AXIOM_KINDS` and `Z3ModelFinder._is_heavy_signature` are defined outside the modelled files. The heavy-kind set is the parameter `heavy` of `Router`, and the Z3 symmetry breaking of the heavy route is not modelled.
- **Process pool.** `parallel_compute_spectra` is the parameter `spectrumOf` of `Backtest`. It maps the parsed signatures in order. The `workers` and `max_size` arguments stay inside it.
- **Backtest side effects.** The dry-run switch, the 0.0001 drift threshold for rewriting scores (backtest.py:194), the rewriting of discovery files, archiving of failures and the summary printout are not modelled. The model returns the results, the queued updates and the exit code.
- **Seeds and other files.** The `quandle` factory is not in the registry of src/library/known_structures.py and is not part of this model. Neither are the agent loop, CLI, display helpers and library manager.
- **Unused generator.** `FOLTranslator.to_z3_python` (src/solvers/fol_translator.py:99-153) only emits comments for the axioms and is not modelled.
- **Timing.** `ProofResult.time_seconds` is always left at its default by `prove` and is not modelled.
- KnownStructures.Make: states that the seed it builds carries the entry's key as its name and satisfies the seed invariant, not which value it is. It calls the factory method of the entry it is given, and each factory method (`NewMagma` to `NewCategory`) states its seed's exact value. Carrying all fourteen values through the one dispatch gives a proof obligation too large for the verifier.
- KnownStructures.LoadByName: for the same reason, states the returned seed's name and the seed invariant, not its value.
- KnownStructures.LoadAllKnown: for the same reason, states each returned seed's name and the seed invariant, not its value.
- Moves.Abstract: the shared kinds come from a Python set, whose iteration order depends on string hashing. The model takes them in `AxiomKind` declaration order, so the order of the abstract signature's axioms may differ.
- Moves.Transfer, Moves.Complete, Moves.Deform: the source indexes `sorts[0]` and raises `IndexError` when there is no sort.
  - `transfer` does so always, `complete` when there is a binary operation, and `deform` on an associativity or commutativity axiom.
  - These members require a sort there (`TransferSafe`, `CompleteSafe`, `DeformSafe`), and the exception is not modelled.
  - The same requirement carries over to `apply_move` and `apply_all_moves`.
- Cayley.ModelsAreIsomorphic: requires the operation in both models, since `tables[op_name]` raises `KeyError` otherwise. It also requires the first table's entries to lie in the domain. The concrete relabelled Z/2 pair is not stated. Isomorphism is proved for equal tables (`Cayley.IsomorphicToItself`).
- Cayley.IsAssociative, Cayley.AutomorphismCountEstimate: require every table entry to lie in the domain (`Closed`). Otherwise numpy indexing would go out of range or wrap around negative indices.

## Findings

| source | as written | input that shows it | evidently intended | confidence | as-written member | corrected member |
|---|---|---|---|---|---|---|
| src/solvers/mace4.py:145-149 | `Mace4Solver.compute_spectrum` ignores `result.timed_out`, so timed-out sizes are never added to `timed_out_sizes`. The Z3 loop (src/solvers/z3_solver.py:166-167) and the router loop (src/solvers/router.py:127-128) both record them. | Every Mace4 run times out for sizes 2 to 8: each size gets count 0 and `timed_out_sizes` stays empty. The agent's spectrum tool uses the Mace4 solver directly when it is installed (src/agent/tools.py:142-146, 243), so it reports these sizes as having no models rather than as timed out. The backtest is not affected: it goes through the router, which records timeouts. | append each size whose result timed out, as the router does | medium, not executed | Mace4.AllTimeoutsLost | Mace4.TrackedSpectrumTimeouts |
| src/solvers/mace4.py:252-255 | `Mace4Fallback.compute_spectrum` ignores the Z3 finder's `timed_out` flag in the same way. tests/test_solvers.py:226-242 expect the flag to be passed on. | A size where Z3's check answers unknown before any model is found: count 0, not listed as timed out. | append each size whose Z3 search timed out | medium, not executed | Mace4.FallbackLosesTimeouts | Mace4.FallbackTrackedTimeouts |
