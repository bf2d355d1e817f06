/** The seed signatures the explorer starts from, and their registry. */
module KnownStructures {
  import opened Wrappers
  import opened Ast
  import opened Signatures
  import Parser

  /** The names of the declared operations. */
  function OpNameSet(ops: seq<Operation>): set<string> {
    set i | 0 <= i < |ops| :: ops[i].name
  }

  function EqOpNames(eq: Equation): set<string> {
    OpNames(eq.lhs) + OpNames(eq.rhs)
  }

  /** An axiom that reads back under the constants `cs` and applies only
      operations in `names`. */
  predicate AxiomOk(ax: Axiom, cs: set<string>, names: set<string>) {
    Parser.EquationWellFormed(ax.equation, cs) && EqOpNames(ax.equation) <= names
  }

  predicate AllAxiomsOk(axs: seq<Axiom>, cs: set<string>, names: set<string>) {
    forall i :: 0 <= i < |axs| ==> AxiomOk(axs[i], cs, names)
  }

  /** Every operation name applied in an axiom equation is declared. */
  predicate DeclaresItsOperations(sig: Signature) {
    forall i :: 0 <= i < |sig.axioms| ==> EqOpNames(sig.axioms[i].equation) <= OpNameSet(sig.operations)
  }

  /** What every seed satisfies: it has a sort, it declares the operations its
      axioms use, and every constant in its axioms is a zero-arity operation while
      no variable is (so reading its dictionary form back gives it again). */
  predicate SeedFacts(sig: Signature) {
    |sig.sorts| >= 1 && DeclaresItsOperations(sig) && Readable(sig)
  }

  const X := Var("x")
  const Y := Var("y")
  const Z := Var("z")

  // ---- The seeds ----

  function Magma(): Signature {
    Signature("Magma", [Sort("S", "carrier set")],
      [Operation("mul", ["S", "S"], "S", "binary operation")], [],
      "A set with a single binary operation and no axioms.", [], map[])
  }

  function SemigroupOps(): seq<Operation> {
    [Operation("mul", ["S", "S"], "S", "associative binary operation")]
  }

  function Semigroup(): Signature {
    Signature("Semigroup", [Sort("S", "carrier set")], SemigroupOps(),
      [Axiom(Associativity, MakeAssocEquation("mul"), ["mul"], "")],
      "A set with an associative binary operation.", [], map[])
  }

  function MonoidOps(): seq<Operation> {
    [Operation("mul", ["S", "S"], "S", "associative binary operation"),
     Operation("e", [], "S", "identity element")]
  }

  function MonoidAxioms(): seq<Axiom> {
    [Axiom(Associativity, MakeAssocEquation("mul"), ["mul"], ""),
     Axiom(Identity, MakeIdentityEquation("mul", "e"), ["mul", "e"], "")]
  }

  function Monoid(): Signature {
    Signature("Monoid", [Sort("S", "carrier set")], MonoidOps(), MonoidAxioms(),
      "A semigroup with an identity element.", [], map[])
  }

  function GroupOps(): seq<Operation> {
    [Operation("mul", ["G", "G"], "G", "group multiplication"),
     Operation("e", [], "G", "identity element"),
     Operation("inv", ["G"], "G", "group inverse")]
  }

  function GroupAxioms(): seq<Axiom> {
    [Axiom(Associativity, MakeAssocEquation("mul"), ["mul"], ""),
     Axiom(Identity, MakeIdentityEquation("mul", "e"), ["mul", "e"], ""),
     Axiom(Inverse, MakeInverseEquation("mul", "inv", "e"), ["mul", "inv", "e"], "")]
  }

  function Group(): Signature {
    Signature("Group", [Sort("G", "group elements")], GroupOps(), GroupAxioms(),
      "A set with associative operation, identity, and inverses.", [], map[])
  }

  function CommOfMul(): Axiom {
    Axiom(Commutativity, MakeCommEquation("mul"), ["mul"], "")
  }

  /** `abelian_group()`: a fresh group, renamed, with commutativity of `mul` appended. */
  method AbelianGroup() returns (sig: Signature)
    ensures sig.name == "AbelianGroup"
    ensures sig == Group().(name := "AbelianGroup", axioms := GroupAxioms() + [CommOfMul()],
                            description := "A group where the operation is commutative.")
    ensures SeedFacts(sig)
  {
    sig := Group();
    sig := sig.(name := "AbelianGroup");
    sig := sig.(axioms := sig.axioms + [CommOfMul()]);
    sig := sig.(description := "A group where the operation is commutative.");
    AbelianFacts(sig);
  }

  function RingOps(): seq<Operation> {
    [Operation("add", ["R", "R"], "R", "addition"),
     Operation("mul", ["R", "R"], "R", "multiplication"),
     Operation("zero", [], "R", "additive identity"),
     Operation("neg", ["R"], "R", "additive inverse")]
  }

  function RingMulAxioms(): seq<Axiom> {
    [Axiom(Associativity, MakeAssocEquation("mul"), ["mul"], ""),
     Axiom(Distributivity, MakeDistribEquation("mul", "add"), ["mul", "add"], "")]
  }

  /** The additive abelian group laws followed by associativity of `mul` and
      its distributivity over `add`. */
  function RingAxioms(): seq<Axiom> {
    AdditiveAxioms() + RingMulAxioms()
  }

  function Ring(): Signature {
    Signature("Ring", [Sort("R", "ring elements")], RingOps(), RingAxioms(),
      "Abelian group under addition with associative, distributive multiplication.", [], map[])
  }

  function FieldExtraOps(): seq<Operation> {
    [Operation("one", [], "R", "multiplicative identity"),
     Operation("recip", ["R"], "R", "multiplicative inverse (nonzero)")]
  }

  function FieldExtraAxioms(): seq<Axiom> {
    [CommOfMul(), Axiom(Identity, MakeIdentityEquation("mul", "one"), ["mul", "one"], "")]
  }

  /** `field()`: a fresh ring, renamed, with `one`, `recip` and two axioms on `mul` appended. */
  method Field() returns (sig: Signature)
    ensures sig.name == "Field"
    ensures sig == Ring().(name := "Field", operations := RingOps() + FieldExtraOps(),
                           axioms := RingAxioms() + FieldExtraAxioms(),
                           description := "A commutative ring where every nonzero element has a multiplicative inverse.")
    ensures SeedFacts(sig)
  {
    sig := Ring();
    sig := sig.(name := "Field");
    sig := sig.(operations := sig.operations + [FieldExtraOps()[0]]);
    sig := sig.(operations := sig.operations + [FieldExtraOps()[1]]);
    sig := sig.(axioms := sig.axioms + [FieldExtraAxioms()[0]]);
    sig := sig.(axioms := sig.axioms + [FieldExtraAxioms()[1]]);
    sig := sig.(description := "A commutative ring where every nonzero element has a multiplicative inverse.");
    assert sig.operations == RingOps() + FieldExtraOps();
    assert sig.axioms == RingAxioms() + FieldExtraAxioms();
    FieldFacts(sig);
  }

  function LatticeOps(): seq<Operation> {
    [Operation("meet", ["L", "L"], "L", "greatest lower bound"),
     Operation("join", ["L", "L"], "L", "least upper bound")]
  }

  function LatticeAxioms(): seq<Axiom> {
    [Axiom(Associativity, MakeAssocEquation("meet"), ["meet"], ""),
     Axiom(Associativity, MakeAssocEquation("join"), ["join"], ""),
     Axiom(Commutativity, MakeCommEquation("meet"), ["meet"], ""),
     Axiom(Commutativity, MakeCommEquation("join"), ["join"], ""),
     Axiom(Idempotence, MakeIdempotentEquation("meet"), ["meet"], ""),
     Axiom(Idempotence, MakeIdempotentEquation("join"), ["join"], ""),
     Axiom(Absorption, Equation(App("meet", [X, App("join", [X, Y])]), X), ["meet", "join"], "meet absorbs join"),
     Axiom(Absorption, Equation(App("join", [X, App("meet", [X, Y])]), X), ["meet", "join"], "join absorbs meet")]
  }

  function Lattice(): Signature {
    Signature("Lattice", [Sort("L", "lattice elements")], LatticeOps(), LatticeAxioms(),
      "A set with meet and join satisfying absorption laws.", [], map[])
  }

  function QuasigroupOps(): seq<Operation> {
    [Operation("mul", ["Q", "Q"], "Q", "binary operation"),
     Operation("ldiv", ["Q", "Q"], "Q", "left division: a\\b"),
     Operation("rdiv", ["Q", "Q"], "Q", "right division: a/b")]
  }

  function QuasigroupAxioms(): seq<Axiom> {
    [Axiom(Custom, Equation(App("mul", [X, App("ldiv", [X, Y])]), Y), ["mul", "ldiv"], "left cancellation"),
     Axiom(Custom, Equation(App("mul", [App("rdiv", [X, Y]), Y]), X), ["mul", "rdiv"], "right cancellation"),
     Axiom(Custom, Equation(App("ldiv", [X, App("mul", [X, Y])]), Y), ["mul", "ldiv"], "left division cancellation"),
     Axiom(Custom, Equation(App("rdiv", [App("mul", [X, Y]), Y]), X), ["mul", "rdiv"], "right division cancellation")]
  }

  function Quasigroup(): Signature {
    Signature("Quasigroup", [Sort("Q", "quasigroup elements")], QuasigroupOps(), QuasigroupAxioms(),
      "A Latin square: binary operation with unique solutions to a*x=b and y*a=b.", [], map[])
  }

  function LoopUnit(): Operation {
    Operation("e", [], "Q", "identity element")
  }

  function LoopIdentity(): Axiom {
    Axiom(Identity, MakeIdentityEquation("mul", "e"), ["mul", "e"], "")
  }

  /** `loop()`: a fresh quasigroup, renamed, with `e` and its identity law appended. */
  method Loop() returns (sig: Signature)
    ensures sig.name == "Loop"
    ensures sig == Quasigroup().(name := "Loop", operations := QuasigroupOps() + [LoopUnit()],
                                 axioms := QuasigroupAxioms() + [LoopIdentity()],
                                 description := "A quasigroup with a two-sided identity element.")
    ensures SeedFacts(sig)
  {
    sig := Quasigroup();
    sig := sig.(name := "Loop");
    sig := sig.(operations := sig.operations + [LoopUnit()]);
    sig := sig.(axioms := sig.axioms + [LoopIdentity()]);
    sig := sig.(description := "A quasigroup with a two-sided identity element.");
    LoopFacts(sig);
  }

  function LieOps(): seq<Operation> {
    [Operation("add", ["L", "L"], "L", "vector addition"),
     Operation("scale", ["K", "L"], "L", "scalar multiplication"),
     Operation("bracket", ["L", "L"], "L", "Lie bracket"),
     Operation("neg", ["L"], "L", "additive inverse"),
     Operation("zero", [], "L", "zero vector")]
  }

  /** The four laws of an abelian group written additively with `add`, `neg`, `zero`. */
  function AdditiveAxioms(): seq<Axiom> {
    [Axiom(Associativity, MakeAssocEquation("add"), ["add"], ""),
     Axiom(Commutativity, MakeCommEquation("add"), ["add"], ""),
     Axiom(Identity, MakeIdentityEquation("add", "zero"), ["add", "zero"], ""),
     Axiom(Inverse, MakeInverseEquation("add", "neg", "zero"), ["add", "neg"], "")]
  }

  function BracketAxioms(): seq<Axiom> {
    [Axiom(Anticommutativity, MakeAnticommEquation("bracket"), ["bracket", "neg"], "antisymmetry of bracket"),
     Axiom(Jacobi, MakeJacobiEquation("bracket"), ["bracket", "add", "neg"], "Jacobi identity"),
     Axiom(Bilinearity, MakeDistribEquation("bracket", "add"), ["bracket", "add"], "bracket is bilinear (left)")]
  }

  function LieAlgebra(): Signature {
    Signature("LieAlgebra", [Sort("L", "Lie algebra elements"), Sort("K", "scalar field")],
      LieOps(), AdditiveAxioms() + BracketAxioms(),
      "A vector space with an antisymmetric bracket satisfying the Jacobi identity.", [], map[])
  }

  function VectorOps(): seq<Operation> {
    [Operation("add", ["V", "V"], "V", "vector addition"),
     Operation("scale", ["K", "V"], "V", "scalar multiplication"),
     Operation("neg", ["V"], "V", "additive inverse"),
     Operation("zero", [], "V", "zero vector")]
  }

  function VectorSpace(): Signature {
    Signature("VectorSpace", [Sort("V", "vectors"), Sort("K", "scalars")], VectorOps(), AdditiveAxioms(),
      "A module over a field with vector addition and scalar multiplication.", [], map[])
  }

  function InnerOp(): Operation {
    Operation("inner", ["V", "V"], "K", "inner product \U{27E8}\U{00B7},\U{00B7}\U{27E9}")
  }

  function InnerAxioms(): seq<Axiom> {
    [Axiom(Commutativity, Equation(App("inner", [X, Y]), App("inner", [Y, X])), ["inner"], "symmetry of inner product"),
     Axiom(Positivity, Equation(App("inner", [X, X]), App("inner", [X, X])), ["inner"],
           "\U{27E8}x,x\U{27E9} \U{2265} 0 (positivity, encoded symbolically)")]
  }

  /** `inner_product_space()`: a fresh vector space, renamed, with `inner` and
      its symmetry and positivity laws appended. */
  method InnerProductSpace() returns (sig: Signature)
    ensures sig.name == "InnerProductSpace"
    ensures sig == VectorSpace().(name := "InnerProductSpace", operations := VectorOps() + [InnerOp()],
                                  axioms := AdditiveAxioms() + InnerAxioms(),
                                  description := "A vector space with a symmetric, positive-definite inner product.")
    ensures SeedFacts(sig)
  {
    sig := VectorSpace();
    sig := sig.(name := "InnerProductSpace");
    sig := sig.(operations := sig.operations + [InnerOp()]);
    sig := sig.(axioms := sig.axioms + [InnerAxioms()[0]]);
    sig := sig.(axioms := sig.axioms + [InnerAxioms()[1]]);
    sig := sig.(description := "A vector space with a symmetric, positive-definite inner product.");
    assert sig.axioms == AdditiveAxioms() + InnerAxioms();
    InnerProductFacts(sig);
  }

  function CategoryOps(): seq<Operation> {
    [Operation("comp", ["Mor", "Mor"], "Mor", "morphism composition"),
     Operation("id", ["Ob"], "Mor", "identity morphism"),
     Operation("dom", ["Mor"], "Ob", "domain of a morphism"),
     Operation("cod", ["Mor"], "Ob", "codomain of a morphism")]
  }

  function CategoryAxioms(): seq<Axiom> {
    var f := Var("f");
    [Axiom(Associativity, MakeAssocEquation("comp"), ["comp"], ""),
     Axiom(Identity, Equation(App("comp", [f, App("id", [App("dom", [f])])]), f), ["comp", "id", "dom"], "right identity"),
     Axiom(Identity, Equation(App("comp", [App("id", [App("cod", [f])]), f]), f), ["comp", "id", "cod"], "left identity")]
  }

  function Category(): Signature {
    Signature("Category", [Sort("Ob", "objects"), Sort("Mor", "morphisms")], CategoryOps(), CategoryAxioms(),
      "Objects and morphisms with associative composition and identities.", [], map[])
  }

  // ---- The registry ----

  /** The factories the registry maps its keys to. */
  datatype Factory =
    | MagmaFactory | SemigroupFactory | MonoidFactory | GroupFactory | AbelianGroupFactory
    | RingFactory | FieldFactory | LatticeFactory | QuasigroupFactory | LoopFactory
    | LieAlgebraFactory | VectorSpaceFactory | InnerProductSpaceFactory | CategoryFactory

  /** The registry key of a factory. */
  function FactoryName(f: Factory): string {
    match f
    case MagmaFactory => "Magma"
    case SemigroupFactory => "Semigroup"
    case MonoidFactory => "Monoid"
    case GroupFactory => "Group"
    case AbelianGroupFactory => "AbelianGroup"
    case RingFactory => "Ring"
    case FieldFactory => "Field"
    case LatticeFactory => "Lattice"
    case QuasigroupFactory => "Quasigroup"
    case LoopFactory => "Loop"
    case LieAlgebraFactory => "LieAlgebra"
    case VectorSpaceFactory => "VectorSpace"
    case InnerProductSpaceFactory => "InnerProductSpace"
    case CategoryFactory => "Category"
  }

  /** The registry's entries, in insertion order. */
  const Registry: seq<Factory> := [
    MagmaFactory, SemigroupFactory, MonoidFactory, GroupFactory, AbelianGroupFactory,
    RingFactory, FieldFactory, LatticeFactory, QuasigroupFactory, LoopFactory,
    LieAlgebraFactory, VectorSpaceFactory, InnerProductSpaceFactory, CategoryFactory]

  /** `name` is a key of the registry. */
  predicate Registered(name: string) {
    exists i :: 0 <= i < |Registry| && FactoryName(Registry[i]) == name
  }

  /** The dictionary lookup of a key among registry entries. */
  function Lookup(entries: seq<Factory>, name: string): (r: Option<Factory>)
    ensures r.None? <==> forall i :: 0 <= i < |entries| ==> FactoryName(entries[i]) != name
    ensures r.Some? ==> r.value in entries && FactoryName(r.value) == name
  {
    if entries == [] then None
    else if FactoryName(entries[0]) == name then Some(entries[0])
    else Lookup(entries[1..], name)
  }

  /** Calls the factory a registry entry holds: the seed it builds carries the
      entry's key as its name and satisfies SeedFacts. */
  method Make(f: Factory) returns (sig: Signature)
    ensures sig.name == FactoryName(f) && SeedFacts(sig)
  {
    match f
    case MagmaFactory => sig := NewMagma();
    case SemigroupFactory => sig := NewSemigroup();
    case MonoidFactory => sig := NewMonoid();
    case GroupFactory => sig := NewGroup();
    case AbelianGroupFactory => sig := NewAbelianGroup();
    case RingFactory => sig := NewRing();
    case FieldFactory => sig := NewField();
    case LatticeFactory => sig := NewLattice();
    case QuasigroupFactory => sig := NewQuasigroup();
    case LoopFactory => sig := NewLoop();
    case LieAlgebraFactory => sig := NewLieAlgebra();
    case VectorSpaceFactory => sig := NewVectorSpace();
    case InnerProductSpaceFactory => sig := NewInnerProductSpace();
    case CategoryFactory => sig := NewCategory();
  }

  // One method per registry entry, each calling that entry's factory; keeping
  // each call in its own method keeps the seeds' contents out of Make's proof.

  method NewMagma() returns (sig: Signature)
    ensures sig == Magma()
    ensures sig.name == "Magma" == FactoryName(MagmaFactory) && SeedFacts(sig)
  {
    sig := Magma();
    MagmaFacts();
  }

  method NewSemigroup() returns (sig: Signature)
    ensures sig == Semigroup()
    ensures sig.name == "Semigroup" == FactoryName(SemigroupFactory) && SeedFacts(sig)
  {
    sig := Semigroup();
    SemigroupFacts();
  }

  method NewMonoid() returns (sig: Signature)
    ensures sig == Monoid()
    ensures sig.name == "Monoid" == FactoryName(MonoidFactory) && SeedFacts(sig)
  {
    sig := Monoid();
    MonoidFacts();
  }

  method NewGroup() returns (sig: Signature)
    ensures sig == Group()
    ensures sig.name == "Group" == FactoryName(GroupFactory) && SeedFacts(sig)
  {
    sig := Group();
    GroupFacts();
  }

  method NewAbelianGroup() returns (sig: Signature)
    ensures sig == Group().(name := "AbelianGroup", axioms := GroupAxioms() + [CommOfMul()],
                            description := "A group where the operation is commutative.")
    ensures sig.name == "AbelianGroup" == FactoryName(AbelianGroupFactory) && SeedFacts(sig)
  {
    sig := AbelianGroup();
  }

  method NewRing() returns (sig: Signature)
    ensures sig == Ring()
    ensures sig.name == "Ring" == FactoryName(RingFactory) && SeedFacts(sig)
  {
    sig := Ring();
    RingFacts();
  }

  method NewField() returns (sig: Signature)
    ensures sig == Ring().(name := "Field", operations := RingOps() + FieldExtraOps(),
                           axioms := RingAxioms() + FieldExtraAxioms(),
                           description := "A commutative ring where every nonzero element has a multiplicative inverse.")
    ensures sig.name == "Field" == FactoryName(FieldFactory) && SeedFacts(sig)
  {
    sig := Field();
  }

  method NewLattice() returns (sig: Signature)
    ensures sig == Lattice()
    ensures sig.name == "Lattice" == FactoryName(LatticeFactory) && SeedFacts(sig)
  {
    sig := Lattice();
    LatticeFacts();
  }

  method NewQuasigroup() returns (sig: Signature)
    ensures sig == Quasigroup()
    ensures sig.name == "Quasigroup" == FactoryName(QuasigroupFactory) && SeedFacts(sig)
  {
    sig := Quasigroup();
    QuasigroupFacts();
  }

  method NewLoop() returns (sig: Signature)
    ensures sig == Quasigroup().(name := "Loop", operations := QuasigroupOps() + [LoopUnit()],
                                 axioms := QuasigroupAxioms() + [LoopIdentity()],
                                 description := "A quasigroup with a two-sided identity element.")
    ensures sig.name == "Loop" == FactoryName(LoopFactory) && SeedFacts(sig)
  {
    sig := Loop();
  }

  method NewLieAlgebra() returns (sig: Signature)
    ensures sig == LieAlgebra()
    ensures sig.name == "LieAlgebra" == FactoryName(LieAlgebraFactory) && SeedFacts(sig)
  {
    sig := LieAlgebra();
    LieAlgebraFacts();
  }

  method NewVectorSpace() returns (sig: Signature)
    ensures sig == VectorSpace()
    ensures sig.name == "VectorSpace" == FactoryName(VectorSpaceFactory) && SeedFacts(sig)
  {
    sig := VectorSpace();
    VectorSpaceFacts();
  }

  method NewInnerProductSpace() returns (sig: Signature)
    ensures sig == VectorSpace().(name := "InnerProductSpace", operations := VectorOps() + [InnerOp()],
                                  axioms := AdditiveAxioms() + InnerAxioms(),
                                  description := "A vector space with a symmetric, positive-definite inner product.")
    ensures sig.name == "InnerProductSpace" == FactoryName(InnerProductSpaceFactory) && SeedFacts(sig)
  {
    sig := InnerProductSpace();
  }

  method NewCategory() returns (sig: Signature)
    ensures sig == Category()
    ensures sig.name == "Category" == FactoryName(CategoryFactory) && SeedFacts(sig)
  {
    sig := Category();
    CategoryFacts();
  }

  /** `load_by_name(name)`: a fresh copy of the registered seed, or `None` for
      an unregistered name. */
  method LoadByName(name: string) returns (r: Option<Signature>)
    ensures r.None? <==> !Registered(name)
    ensures r.Some? ==> r.value.name == name && SeedFacts(r.value)
  {
    var f := Lookup(Registry, name);
    if f.None? {
      return None;
    }
    var sig := Make(f.value);
    var i :| 0 <= i < |Registry| && Registry[i] == f.value;
    return Some(sig);
  }

  /** `load_all_known()`: one fresh seed per registry entry, in registry order. */
  method LoadAllKnown() returns (sigs: seq<Signature>)
    ensures |sigs| == |Registry|
    ensures forall i :: 0 <= i < |sigs| ==> sigs[i].name == FactoryName(Registry[i]) && SeedFacts(sigs[i])
  {
    sigs := [];
    var i := 0;
    while i < |Registry|
      invariant 0 <= i <= |Registry| && |sigs| == i
      invariant forall j :: 0 <= j < i ==> sigs[j].name == FactoryName(Registry[j]) && SeedFacts(sigs[j])
    {
      var sig := Make(Registry[i]);
      sigs := sigs + [sig];
      i := i + 1;
    }
  }

  // ---- Shape facts of the seeds ----

  /** `group` has exactly three operations and three axioms. */
  lemma GroupShape()
    ensures |Group().operations| == 3 && |Group().axioms| == 3
  {
  }

  /** `magma` has one binary operation and no axioms; `semigroup` has the same
      sorts and arities and exactly one more axiom, an associativity law. */
  lemma MagmaAndSemigroup()
    ensures |BinaryOps(Magma())| == 1 && |Magma().operations| == 1 && Magma().axioms == []
    ensures Semigroup().sorts == Magma().sorts
    ensures Arities(Semigroup().operations) == Arities(Magma().operations)
    ensures Semigroup().axioms == Magma().axioms + [Axiom(Associativity, MakeAssocEquation("mul"), ["mul"], "")]
  {
    assert Magma().operations[0] in BinaryOps(Magma());
  }

  // ---- Equation facts for the builders ----

  predicate StandardVariablesFree(consts: set<string>) {
    "x" !in consts && "y" !in consts && "z" !in consts && "a" !in consts && "b" !in consts && "c" !in consts
  }

  lemma App1(op: string, a: Expr, cs: set<string>)
    requires Parser.IsIdent(op) && Parser.WellFormed(a, cs)
    ensures Parser.WellFormed(App(op, [a]), cs)
    ensures OpNames(App(op, [a])) == {op} + OpNames(a)
  {
    assert [a][1..] == [];
    assert OpNamesList([a]) == OpNames(a) + OpNamesList([]);
  }

  lemma App2(op: string, a: Expr, b: Expr, cs: set<string>)
    requires Parser.IsIdent(op) && Parser.WellFormed(a, cs) && Parser.WellFormed(b, cs)
    ensures Parser.WellFormed(App(op, [a, b]), cs)
    ensures OpNames(App(op, [a, b])) == {op} + OpNames(a) + OpNames(b)
  {
    assert [a, b][1..] == [b];
    assert [b][1..] == [];
    assert OpNamesList([b]) == OpNames(b) + OpNamesList([]);
    assert OpNamesList([a, b]) == OpNames(a) + OpNamesList([b]);
  }

  lemma VarOk(n: string, cs: set<string>)
    requires n in {"x", "y", "z", "a", "b", "c", "f"} && n !in cs
    ensures Parser.WellFormed(Var(n), cs) && OpNames(Var(n)) == {}
  {
    assert |n| == 1 && Parser.IdentChar(n[0]);
  }

  lemma AssocFacts(op: string, cs: set<string>)
    requires Parser.IsIdent(op) && StandardVariablesFree(cs)
    ensures Parser.EquationWellFormed(MakeAssocEquation(op), cs) && EqOpNames(MakeAssocEquation(op)) == {op}
  {
    VarOk("x", cs); VarOk("y", cs); VarOk("z", cs);
    App2(op, X, Y, cs); App2(op, Y, Z, cs);
    App2(op, App(op, [X, Y]), Z, cs); App2(op, X, App(op, [Y, Z]), cs);
  }

  lemma CommFacts(op: string, cs: set<string>)
    requires Parser.IsIdent(op) && StandardVariablesFree(cs)
    ensures Parser.EquationWellFormed(MakeCommEquation(op), cs) && EqOpNames(MakeCommEquation(op)) == {op}
  {
    VarOk("x", cs); VarOk("y", cs);
    App2(op, X, Y, cs); App2(op, Y, X, cs);
  }

  lemma IdentityFacts(op: string, id: string, cs: set<string>)
    requires Parser.IsIdent(op) && Parser.IsIdent(id) && id in cs && StandardVariablesFree(cs)
    ensures Parser.EquationWellFormed(MakeIdentityEquation(op, id), cs) && EqOpNames(MakeIdentityEquation(op, id)) == {op}
  {
    VarOk("x", cs);
    App2(op, X, Const(id), cs);
  }

  lemma InverseFacts(op: string, inv: string, id: string, cs: set<string>)
    requires Parser.IsIdent(op) && Parser.IsIdent(inv) && Parser.IsIdent(id) && id in cs
    requires StandardVariablesFree(cs)
    ensures Parser.EquationWellFormed(MakeInverseEquation(op, inv, id), cs) && EqOpNames(MakeInverseEquation(op, inv, id)) == {op, inv}
  {
    VarOk("x", cs);
    App1(inv, X, cs); App2(op, X, App(inv, [X]), cs);
  }

  lemma IdempotentFacts(op: string, cs: set<string>)
    requires Parser.IsIdent(op) && StandardVariablesFree(cs)
    ensures Parser.EquationWellFormed(MakeIdempotentEquation(op), cs) && EqOpNames(MakeIdempotentEquation(op)) == {op}
  {
    VarOk("x", cs);
    App2(op, X, X, cs);
  }

  lemma AbsorbFacts(f: string, g: string, cs: set<string>)
    requires Parser.IsIdent(f) && Parser.IsIdent(g) && StandardVariablesFree(cs)
    ensures var eq := Equation(App(f, [X, App(g, [X, Y])]), X);
      Parser.EquationWellFormed(eq, cs) && EqOpNames(eq) == {f, g}
  {
    VarOk("x", cs); VarOk("y", cs);
    App2(g, X, Y, cs); App2(f, X, App(g, [X, Y]), cs);
  }

  lemma DistribFacts(mul: string, add: string, cs: set<string>)
    requires Parser.IsIdent(mul) && Parser.IsIdent(add) && StandardVariablesFree(cs)
    ensures Parser.EquationWellFormed(MakeDistribEquation(mul, add), cs) && EqOpNames(MakeDistribEquation(mul, add)) == {mul, add}
  {
    var a, b, c := Var("a"), Var("b"), Var("c");
    VarOk("a", cs); VarOk("b", cs); VarOk("c", cs);
    App2(add, b, c, cs); App2(mul, a, b, cs); App2(mul, a, c, cs);
    App2(mul, a, App(add, [b, c]), cs);
    App2(add, App(mul, [a, b]), App(mul, [a, c]), cs);
  }

  lemma AnticommFacts(op: string, cs: set<string>)
    requires Parser.IsIdent(op) && StandardVariablesFree(cs)
    ensures Parser.EquationWellFormed(MakeAnticommEquation(op), cs) && EqOpNames(MakeAnticommEquation(op)) == {op, "neg"}
  {
    VarOk("x", cs); VarOk("y", cs);
    App2(op, X, Y, cs); App2(op, Y, X, cs);
    assert Parser.IsIdent("neg");
    App1("neg", App(op, [Y, X]), cs);
  }

  lemma JacobiFacts(br: string, cs: set<string>)
    requires Parser.IsIdent(br) && StandardVariablesFree(cs)
    ensures Parser.EquationWellFormed(MakeJacobiEquation(br), cs) && EqOpNames(MakeJacobiEquation(br)) == {br, "add", "neg"}
  {
    VarOk("x", cs); VarOk("y", cs); VarOk("z", cs);
    App2(br, Y, Z, cs); App2(br, Z, X, cs); App2(br, X, Y, cs);
    App2(br, X, App(br, [Y, Z]), cs); App2(br, Y, App(br, [Z, X]), cs); App2(br, Z, App(br, [X, Y]), cs);
    assert Parser.IsIdent("neg") && Parser.IsIdent("add");
    App2("add", App(br, [X, App(br, [Y, Z])]), App(br, [Y, App(br, [Z, X])]), cs);
    App1("neg", App(br, [Z, App(br, [X, Y])]), cs);
  }

  // ---- Assembling SeedFacts ----

  lemma OpsAppend(a: seq<Operation>, b: seq<Operation>)
    ensures ConstantNames(a + b) == ConstantNames(a) + ConstantNames(b)
    ensures OpNameSet(a + b) == OpNameSet(a) + OpNameSet(b)
  {
    var c := a + b;
    forall n | n in ConstantNames(a) + ConstantNames(b) ensures n in ConstantNames(c) {
      if n in ConstantNames(a) {
        var i :| 0 <= i < |a| && a[i].Arity() == 0 && a[i].name == n;
        assert c[i] == a[i];
      } else {
        var i :| 0 <= i < |b| && b[i].Arity() == 0 && b[i].name == n;
        assert c[|a| + i] == b[i];
      }
    }
    forall n | n in OpNameSet(a) + OpNameSet(b) ensures n in OpNameSet(c) {
      if n in OpNameSet(a) {
        var i :| 0 <= i < |a| && a[i].name == n;
        assert c[i] == a[i];
      } else {
        var i :| 0 <= i < |b| && b[i].name == n;
        assert c[|a| + i] == b[i];
      }
    }
    forall n | n in ConstantNames(c) ensures n in ConstantNames(a) + ConstantNames(b) {
      var i :| 0 <= i < |c| && c[i].Arity() == 0 && c[i].name == n;
      if i < |a| { assert a[i] == c[i]; } else { assert b[i - |a|] == c[i]; }
    }
    forall n | n in OpNameSet(c) ensures n in OpNameSet(a) + OpNameSet(b) {
      var i :| 0 <= i < |c| && c[i].name == n;
      if i < |a| { assert a[i] == c[i]; } else { assert b[i - |a|] == c[i]; }
    }
  }

  lemma AxiomsAppend(a: seq<Axiom>, b: seq<Axiom>, cs: set<string>, names: set<string>)
    requires AllAxiomsOk(a, cs, names) && AllAxiomsOk(b, cs, names)
    ensures AllAxiomsOk(a + b, cs, names)
  {
    forall i | 0 <= i < |a + b| ensures AxiomOk((a + b)[i], cs, names) {
      if i < |a| { assert (a + b)[i] == a[i]; } else { assert (a + b)[i] == b[i - |a|]; }
    }
  }

  /** SeedFacts from its parts. */
  lemma FactsFrom(sig: Signature, cs: set<string>, names: set<string>)
    requires |sig.sorts| >= 1
    requires ConstantNames(sig.operations) == cs && OpNameSet(sig.operations) == names
    requires AllAxiomsOk(sig.axioms, cs, names)
    ensures SeedFacts(sig)
  {
  }

  // ---- Operation names and constants of each seed ----

  lemma SemigroupOpNames()
    ensures ConstantNames(SemigroupOps()) == {} && OpNameSet(SemigroupOps()) == {"mul"}
  {
    var ops := SemigroupOps();
    assert forall i :: 0 <= i < |ops| ==> ops[i].Arity() != 0;
    assert ops[0].name == "mul";
  }

  lemma MonoidOpNames()
    ensures ConstantNames(MonoidOps()) == {"e"} && OpNameSet(MonoidOps()) == {"mul", "e"}
  {
    var ops := MonoidOps();
    assert ops[1].Arity() == 0;
    assert forall i :: 0 <= i < |ops| && ops[i].Arity() == 0 ==> i == 1;
    assert ops[0].name == "mul" && ops[1].name == "e";
  }

  lemma GroupOpNames()
    ensures ConstantNames(GroupOps()) == {"e"} && OpNameSet(GroupOps()) == {"mul", "e", "inv"}
  {
    var ops := GroupOps();
    assert ops[1].Arity() == 0;
    assert forall i :: 0 <= i < |ops| && ops[i].Arity() == 0 ==> i == 1;
    assert ops[0].name == "mul" && ops[1].name == "e" && ops[2].name == "inv";
  }

  lemma RingOpNames()
    ensures ConstantNames(RingOps()) == {"zero"} && OpNameSet(RingOps()) == {"add", "mul", "zero", "neg"}
  {
    var ops := RingOps();
    assert ops[2].Arity() == 0;
    assert forall i :: 0 <= i < |ops| && ops[i].Arity() == 0 ==> i == 2;
    assert ops[0].name == "add" && ops[1].name == "mul" && ops[2].name == "zero" && ops[3].name == "neg";
  }

  lemma FieldExtraOpNames()
    ensures ConstantNames(FieldExtraOps()) == {"one"} && OpNameSet(FieldExtraOps()) == {"one", "recip"}
  {
    var ops := FieldExtraOps();
    assert ops[0].Arity() == 0;
    assert forall i :: 0 <= i < |ops| && ops[i].Arity() == 0 ==> i == 0;
    assert ops[0].name == "one" && ops[1].name == "recip";
  }

  lemma LatticeOpNames()
    ensures ConstantNames(LatticeOps()) == {} && OpNameSet(LatticeOps()) == {"meet", "join"}
  {
    var ops := LatticeOps();
    assert forall i :: 0 <= i < |ops| ==> ops[i].Arity() != 0;
    assert ops[0].name == "meet" && ops[1].name == "join";
  }

  lemma QuasigroupOpNames()
    ensures ConstantNames(QuasigroupOps()) == {} && OpNameSet(QuasigroupOps()) == {"mul", "ldiv", "rdiv"}
  {
    var ops := QuasigroupOps();
    assert forall i :: 0 <= i < |ops| ==> ops[i].Arity() != 0;
    assert ops[0].name == "mul" && ops[1].name == "ldiv" && ops[2].name == "rdiv";
  }

  lemma SingleOpNames(op: Operation)
    ensures ConstantNames([op]) == (if op.Arity() == 0 then {op.name} else {})
    ensures OpNameSet([op]) == {op.name}
  {
    assert [op][0] == op;
  }

  lemma LieOpNames()
    ensures ConstantNames(LieOps()) == {"zero"}
    ensures OpNameSet(LieOps()) == {"add", "scale", "bracket", "neg", "zero"}
  {
    var ops := LieOps();
    assert ops[4].Arity() == 0;
    assert forall i :: 0 <= i < |ops| && ops[i].Arity() == 0 ==> i == 4;
    assert ops[0].name == "add" && ops[1].name == "scale" && ops[2].name == "bracket";
    assert ops[3].name == "neg" && ops[4].name == "zero";
  }

  lemma VectorOpNames()
    ensures ConstantNames(VectorOps()) == {"zero"} && OpNameSet(VectorOps()) == {"add", "scale", "neg", "zero"}
  {
    var ops := VectorOps();
    assert ops[3].Arity() == 0;
    assert forall i :: 0 <= i < |ops| && ops[i].Arity() == 0 ==> i == 3;
    assert ops[0].name == "add" && ops[1].name == "scale" && ops[2].name == "neg" && ops[3].name == "zero";
  }

  lemma CategoryOpNames()
    ensures ConstantNames(CategoryOps()) == {} && OpNameSet(CategoryOps()) == {"comp", "id", "dom", "cod"}
  {
    var ops := CategoryOps();
    assert forall i :: 0 <= i < |ops| ==> ops[i].Arity() != 0;
    assert ops[0].name == "comp" && ops[1].name == "id" && ops[2].name == "dom" && ops[3].name == "cod";
  }

  // ---- Axiom lists read back and use declared operations ----

  lemma MonoidAxiomsOk(cs: set<string>, names: set<string>)
    requires StandardVariablesFree(cs) && "e" in cs && "mul" in names
    ensures AllAxiomsOk(MonoidAxioms(), cs, names)
  {
    var axs := MonoidAxioms();
    assert Parser.IsIdent("mul") && Parser.IsIdent("e");
    forall i | 0 <= i < |axs| ensures AxiomOk(axs[i], cs, names) {
      if i == 0 { AssocFacts("mul", cs); }
      else { IdentityFacts("mul", "e", cs); }
    }
  }

  lemma GroupAxiomsOk(cs: set<string>, names: set<string>)
    requires StandardVariablesFree(cs) && "e" in cs && {"mul", "inv"} <= names
    ensures AllAxiomsOk(GroupAxioms(), cs, names)
  {
    var axs := GroupAxioms();
    assert Parser.IsIdent("mul") && Parser.IsIdent("e") && Parser.IsIdent("inv");
    forall i | 0 <= i < |axs| ensures AxiomOk(axs[i], cs, names) {
      if i == 0 { AssocFacts("mul", cs); }
      else if i == 1 { IdentityFacts("mul", "e", cs); }
      else { InverseFacts("mul", "inv", "e", cs); }
    }
  }

  lemma CommOfMulOk(cs: set<string>, names: set<string>)
    requires StandardVariablesFree(cs) && "mul" in names
    ensures AllAxiomsOk([CommOfMul()], cs, names)
  {
    assert Parser.IsIdent("mul");
    CommFacts("mul", cs);
  }

  lemma AdditiveAxiomsOk(cs: set<string>, names: set<string>)
    requires StandardVariablesFree(cs) && "zero" in cs && {"add", "neg"} <= names
    ensures AllAxiomsOk(AdditiveAxioms(), cs, names)
  {
    var axs := AdditiveAxioms();
    assert Parser.IsIdent("add") && Parser.IsIdent("zero") && Parser.IsIdent("neg");
    forall i | 0 <= i < |axs| ensures AxiomOk(axs[i], cs, names) {
      if i == 0 { AssocFacts("add", cs); }
      else if i == 1 { CommFacts("add", cs); }
      else if i == 2 { IdentityFacts("add", "zero", cs); }
      else { InverseFacts("add", "neg", "zero", cs); }
    }
  }

  lemma RingAxiomsOk(cs: set<string>, names: set<string>)
    requires StandardVariablesFree(cs) && "zero" in cs && {"add", "mul", "neg"} <= names
    ensures AllAxiomsOk(RingAxioms(), cs, names)
  {
    var axs := RingMulAxioms();
    assert Parser.IsIdent("add") && Parser.IsIdent("mul");
    forall i | 0 <= i < |axs| ensures AxiomOk(axs[i], cs, names) {
      if i == 0 { AssocFacts("mul", cs); }
      else { DistribFacts("mul", "add", cs); }
    }
    AdditiveAxiomsOk(cs, names);
    AxiomsAppend(AdditiveAxioms(), axs, cs, names);
  }

  lemma FieldExtraAxiomsOk(cs: set<string>, names: set<string>)
    requires StandardVariablesFree(cs) && "one" in cs && "mul" in names
    ensures AllAxiomsOk(FieldExtraAxioms(), cs, names)
  {
    var axs := FieldExtraAxioms();
    assert Parser.IsIdent("mul") && Parser.IsIdent("one");
    forall i | 0 <= i < |axs| ensures AxiomOk(axs[i], cs, names) {
      if i == 0 { CommFacts("mul", cs); }
      else { IdentityFacts("mul", "one", cs); }
    }
  }

  lemma LatticeAxiomsOk(cs: set<string>, names: set<string>)
    requires StandardVariablesFree(cs) && {"meet", "join"} <= names
    ensures AllAxiomsOk(LatticeAxioms(), cs, names)
  {
    LatticeMeetJoinAxiomsOk(cs, names, 0);
    LatticeMeetJoinAxiomsOk(cs, names, 4);
  }

  /** Lattice axioms `lo` to `lo + 3`: associativity and commutativity of meet
      and join, or their idempotence and the two absorption laws. */
  lemma LatticeMeetJoinAxiomsOk(cs: set<string>, names: set<string>, lo: nat)
    requires StandardVariablesFree(cs) && {"meet", "join"} <= names
    requires lo == 0 || lo == 4
    ensures forall i :: lo <= i < lo + 4 ==> AxiomOk(LatticeAxioms()[i], cs, names)
  {
    var axs := LatticeAxioms();
    assert Parser.IsIdent("meet") && Parser.IsIdent("join");
    forall i | lo <= i < lo + 4 ensures AxiomOk(axs[i], cs, names) {
      if i == 0 { AssocFacts("meet", cs); }
      else if i == 1 { AssocFacts("join", cs); }
      else if i == 2 { CommFacts("meet", cs); }
      else if i == 3 { CommFacts("join", cs); }
      else if i == 4 { IdempotentFacts("meet", cs); }
      else if i == 5 { IdempotentFacts("join", cs); }
      else if i == 6 { AbsorbFacts("meet", "join", cs); }
      else { AbsorbFacts("join", "meet", cs); }
    }
  }

  lemma QuasigroupAxiomsOk(cs: set<string>, names: set<string>)
    requires StandardVariablesFree(cs) && {"mul", "ldiv", "rdiv"} <= names
    ensures AllAxiomsOk(QuasigroupAxioms(), cs, names)
  {
    var axs := QuasigroupAxioms();
    assert Parser.IsIdent("mul") && Parser.IsIdent("ldiv") && Parser.IsIdent("rdiv");
    VarOk("x", cs); VarOk("y", cs);
    App2("ldiv", X, Y, cs); App2("rdiv", X, Y, cs); App2("mul", X, Y, cs);
    forall i | 0 <= i < |axs| ensures AxiomOk(axs[i], cs, names) {
      if i == 0 { App2("mul", X, App("ldiv", [X, Y]), cs); }
      else if i == 1 { App2("mul", App("rdiv", [X, Y]), Y, cs); }
      else if i == 2 { App2("ldiv", X, App("mul", [X, Y]), cs); }
      else { App2("rdiv", App("mul", [X, Y]), Y, cs); }
    }
  }

  lemma LoopIdentityOk(cs: set<string>, names: set<string>)
    requires StandardVariablesFree(cs) && "e" in cs && "mul" in names
    ensures AllAxiomsOk([LoopIdentity()], cs, names)
  {
    assert Parser.IsIdent("mul") && Parser.IsIdent("e");
    IdentityFacts("mul", "e", cs);
  }

  lemma BracketAxiomsOk(cs: set<string>, names: set<string>)
    requires StandardVariablesFree(cs) && {"bracket", "add", "neg"} <= names
    ensures AllAxiomsOk(BracketAxioms(), cs, names)
  {
    var axs := BracketAxioms();
    assert Parser.IsIdent("bracket") && Parser.IsIdent("add");
    forall i | 0 <= i < |axs| ensures AxiomOk(axs[i], cs, names) {
      if i == 0 { AnticommFacts("bracket", cs); }
      else if i == 1 { JacobiFacts("bracket", cs); }
      else { DistribFacts("bracket", "add", cs); }
    }
  }

  lemma InnerAxiomsOk(cs: set<string>, names: set<string>)
    requires StandardVariablesFree(cs) && "inner" in names
    ensures AllAxiomsOk(InnerAxioms(), cs, names)
  {
    var axs := InnerAxioms();
    assert Parser.IsIdent("inner");
    VarOk("x", cs); VarOk("y", cs);
    forall i | 0 <= i < |axs| ensures AxiomOk(axs[i], cs, names) {
      if i == 0 { App2("inner", X, Y, cs); App2("inner", Y, X, cs); }
      else { App2("inner", X, X, cs); }
    }
  }

  lemma CategoryAxiomsOk(cs: set<string>, names: set<string>)
    requires StandardVariablesFree(cs) && "f" !in cs && {"comp", "id", "dom", "cod"} <= names
    ensures AllAxiomsOk(CategoryAxioms(), cs, names)
  {
    var axs := CategoryAxioms();
    var f := Var("f");
    assert Parser.IsIdent("comp") && Parser.IsIdent("id") && Parser.IsIdent("dom") && Parser.IsIdent("cod");
    VarOk("f", cs);
    forall i | 0 <= i < |axs| ensures AxiomOk(axs[i], cs, names) {
      if i == 0 { AssocFacts("comp", cs); }
      else if i == 1 { App1("dom", f, cs); App1("id", App("dom", [f]), cs); App2("comp", f, App("id", [App("dom", [f])]), cs); }
      else { App1("cod", f, cs); App1("id", App("cod", [f]), cs); App2("comp", App("id", [App("cod", [f])]), f, cs); }
    }
  }

  // ---- The seeds satisfy SeedFacts ----

  lemma MagmaFacts()
    ensures SeedFacts(Magma())
  {
  }

  lemma SemigroupFacts()
    ensures SeedFacts(Semigroup())
  {
    SemigroupOpNames();
    assert Parser.IsIdent("mul");
    AssocFacts("mul", {});
    FactsFrom(Semigroup(), {}, {"mul"});
  }

  lemma MonoidFacts()
    ensures SeedFacts(Monoid())
  {
    MonoidOpNames();
    MonoidAxiomsOk({"e"}, {"mul", "e"});
    FactsFrom(Monoid(), {"e"}, {"mul", "e"});
  }

  lemma GroupFacts()
    ensures SeedFacts(Group())
  {
    GroupOpNames();
    GroupAxiomsOk({"e"}, {"mul", "e", "inv"});
    FactsFrom(Group(), {"e"}, {"mul", "e", "inv"});
  }

  lemma AbelianFacts(sig: Signature)
    requires sig.sorts == Group().sorts && sig.operations == GroupOps()
    requires sig.axioms == GroupAxioms() + [CommOfMul()]
    ensures SeedFacts(sig)
  {
    var cs, names := {"e"}, {"mul", "e", "inv"};
    GroupOpNames();
    GroupAxiomsOk(cs, names);
    CommOfMulOk(cs, names);
    AxiomsAppend(GroupAxioms(), [CommOfMul()], cs, names);
    FactsFrom(sig, cs, names);
  }

  lemma RingFacts()
    ensures SeedFacts(Ring())
  {
    RingOpNames();
    RingAxiomsOk({"zero"}, {"add", "mul", "zero", "neg"});
    FactsFrom(Ring(), {"zero"}, {"add", "mul", "zero", "neg"});
  }

  lemma FieldFacts(sig: Signature)
    requires sig.sorts == Ring().sorts && sig.operations == RingOps() + FieldExtraOps()
    requires sig.axioms == RingAxioms() + FieldExtraAxioms()
    ensures SeedFacts(sig)
  {
    var cs, names := {"zero", "one"}, {"add", "mul", "zero", "neg", "one", "recip"};
    RingOpNames(); FieldExtraOpNames(); OpsAppend(RingOps(), FieldExtraOps());
    RingAxiomsOk(cs, names);
    FieldExtraAxiomsOk(cs, names);
    AxiomsAppend(RingAxioms(), FieldExtraAxioms(), cs, names);
    FactsFrom(sig, cs, names);
  }

  lemma LatticeFacts()
    ensures SeedFacts(Lattice())
  {
    LatticeOpNames();
    LatticeAxiomsOk({}, {"meet", "join"});
    FactsFrom(Lattice(), {}, {"meet", "join"});
  }

  lemma QuasigroupFacts()
    ensures SeedFacts(Quasigroup())
  {
    QuasigroupOpNames();
    QuasigroupAxiomsOk({}, {"mul", "ldiv", "rdiv"});
    FactsFrom(Quasigroup(), {}, {"mul", "ldiv", "rdiv"});
  }

  lemma LoopFacts(sig: Signature)
    requires sig.sorts == Quasigroup().sorts && sig.operations == QuasigroupOps() + [LoopUnit()]
    requires sig.axioms == QuasigroupAxioms() + [LoopIdentity()]
    ensures SeedFacts(sig)
  {
    var cs, names := {"e"}, {"mul", "ldiv", "rdiv", "e"};
    QuasigroupOpNames(); SingleOpNames(LoopUnit()); OpsAppend(QuasigroupOps(), [LoopUnit()]);
    QuasigroupAxiomsOk(cs, names);
    LoopIdentityOk(cs, names);
    AxiomsAppend(QuasigroupAxioms(), [LoopIdentity()], cs, names);
    FactsFrom(sig, cs, names);
  }

  lemma LieAlgebraFacts()
    ensures SeedFacts(LieAlgebra())
  {
    var cs, names := {"zero"}, {"add", "scale", "bracket", "neg", "zero"};
    LieOpNames();
    AdditiveAxiomsOk(cs, names);
    BracketAxiomsOk(cs, names);
    AxiomsAppend(AdditiveAxioms(), BracketAxioms(), cs, names);
    FactsFrom(LieAlgebra(), cs, names);
  }

  lemma VectorSpaceFacts()
    ensures SeedFacts(VectorSpace())
  {
    VectorOpNames();
    AdditiveAxiomsOk({"zero"}, {"add", "scale", "neg", "zero"});
    FactsFrom(VectorSpace(), {"zero"}, {"add", "scale", "neg", "zero"});
  }

  lemma InnerProductFacts(sig: Signature)
    requires sig.sorts == VectorSpace().sorts && sig.operations == VectorOps() + [InnerOp()]
    requires sig.axioms == AdditiveAxioms() + InnerAxioms()
    ensures SeedFacts(sig)
  {
    var cs, names := {"zero"}, {"add", "scale", "neg", "zero", "inner"};
    VectorOpNames(); SingleOpNames(InnerOp()); OpsAppend(VectorOps(), [InnerOp()]);
    AdditiveAxiomsOk(cs, names);
    InnerAxiomsOk(cs, names);
    AxiomsAppend(AdditiveAxioms(), InnerAxioms(), cs, names);
    FactsFrom(sig, cs, names);
  }

  lemma CategoryFacts()
    ensures SeedFacts(Category())
  {
    CategoryOpNames();
    CategoryAxiomsOk({}, {"comp", "id", "dom", "cod"});
    FactsFrom(Category(), {}, {"comp", "id", "dom", "cod"});
  }
}
