/** How deep the evaluator can get: a depth for every term and definition, and the fuel that is enough for it. */
module ConstFuel {
  import opened Options
  import opened ConstTerms
  import opened ConstFolding
  import opened ConstPromise
  import opened ConstSound
  import opened ConstExposed
  import M = ModuleState

  // ---------- depths ----------

  /**
   * For some definitions and terms, the literals and modules their verdict may be, and for the terms a depth; no
   * definition starts deeper than the top.
   */
  datatype Order = Order(items: iset<Item>, may: Item -> iset<Verdict>, depth: Item -> nat, top: nat)

  ghost predicate FlowsInto(into: iset<Verdict>, v: Verdict) { v.Prim? || v.Safe? || v.State? || v in into }

  /** The item belongs to the order, and its verdicts are among these. */
  ghost predicate Listed(o: Order, item: Item, into: iset<Verdict>) { item in o.items && o.may(item) <= into }

  /** A key taken out of the owner leads to something listed and less deep. */
  ghost predicate LookLow(ops: Ops, o: Order, owner: Verdict, key: string, into: iset<Verdict>, depth: nat) {
    match owner
    case OfLiteral(file, t) => IsLiteral(t) ==> FoundLow(o, file, Find(ops, t, key), into, depth)
    case OfModule(file) => Listed(o, Def(M.Exported(file, key)), into)
    case _ => true
  }

  ghost predicate FoundLow(o: Order, file: string, found: Found, into: iset<Verdict>, depth: nat) {
    match found
    case Value(v) =>
      if IsLiteral(v) then OfLiteral(file, v) in into
      else Listed(o, At(file, v), into) && o.depth(At(file, v)) < depth
    case Binding(name) => Listed(o, Def(M.Named(file, name)), into)
    case _ => true
  }

  ghost predicate Below(o: Order, file: string, t: Term, depth: nat) {
    At(file, t) in o.items && o.depth(At(file, t)) < depth
  }

  /** What the evaluation of the term needs is listed and less deep. */
  ghost predicate TermLow(ops: Ops, o: Order, file: string, t: Term) {
    var depth, may := o.depth(At(file, t)), o.may(At(file, t));
    match t
    case Lit(_) => true
    case Opaque(_) => true
    case Other(_) => true
    case Object(_, _) => true
    case Array(_, _) => true
    case Immutable(inner) =>
      depth > 0 && if IsLiteral(inner) then OfLiteral(file, inner) in may else Below(o, file, inner, depth)
    case Ref(name, _) => depth > 0 && Listed(o, Def(M.Named(file, name)), may)
    case Member(owner, key) =>
      && Below(o, file, owner, depth)
      && forall v :: v in o.may(At(file, owner)) ==> LookLow(ops, o, v, key, may, depth)
    case Index(owner, at) =>
      && Below(o, file, owner, depth) && Below(o, file, at, depth)
      && forall v, key :: v in o.may(At(file, owner)) && (at.Lit? ==> key == ops.text(at.p)) ==>
           LookLow(ops, o, v, key, may, depth)
    case Template(_, spans) => depth > 0 && forall i :: 0 <= i < |spans| ==> Below(o, file, spans[i].t, depth)
    case Cond(c, yes, no) => Below(o, file, c, depth) && Below(o, file, yes, depth) && Below(o, file, no, depth)
    case Unary(_, operand) => Below(o, file, operand, depth)
    case Binary(_, l, r) => Below(o, file, l, depth) && Below(o, file, r, depth)
  }

  ghost predicate CrossLow(ops: Ops, o: Order, owner: Verdict, access: Access, into: iset<Verdict>) {
    match access
    case Static(key) => CrossKeyLow(ops, o, owner, key, into)
    case Dynamic(_) => forall key :: CrossKeyLow(ops, o, owner, key, into)
  }

  ghost predicate CrossKeyLow(ops: Ops, o: Order, owner: Verdict, key: string, into: iset<Verdict>) {
    LookLow(ops, o, owner, key, into, o.top + 1)
  }

  /** The verdicts that are possible after each access, with the defaults filled in. */
  ghost predicate PathLow(ops: Ops, o: Order, file: string, init: Term, bound: Bound, ways: seq<iset<Verdict>>) {
    && |ways| == |bound.access| + 1 && Listed(o, At(file, init), ways[0]) && Below(o, file, init, o.top + 1)
    && (forall j :: 0 <= j < |bound.access| ==> StepLow(ops, o, file, bound, ways, j))
  }

  ghost predicate StepLow(ops: Ops, o: Order, file: string, bound: Bound, ways: seq<iset<Verdict>>, j: nat)
    requires j < |bound.access| && |ways| == |bound.access| + 1
  {
    && (bound.access[j].Dynamic? ==> Below(o, file, bound.access[j].at, o.top + 1))
    && (forall v :: FlowsInto(ways[j], v) ==> CrossLow(ops, o, v, bound.access[j], ways[j + 1]))
    && DefaultsLow(o, file, DefaultsAt(bound.defaults, j + 1), ways[j + 1])
  }

  ghost predicate DefaultsLow(o: Order, file: string, fallbacks: seq<Term>, into: iset<Verdict>) {
    forall i :: 0 <= i < |fallbacks| ==>
      Listed(o, At(file, fallbacks[i]), into) && Below(o, file, fallbacks[i], o.top + 1)
  }

  ghost predicate KeyLow(p: Program, ops: Ops, o: Order, k: Key) {
    var may := o.may(Def(k));
    match k
    case Named(file, name) =>
      (file, name) in p.locals ==>
        (match p.locals[(file, name)]
         case Const(_, init, bound) =>
           exists ways :: PathLow(ops, o, file, init, bound, ways) && ways[|bound.access|] <= may
         case Import(source, exported) => source.Some? ==> Listed(o, Def(M.Exported(source.value, exported)), may)
         case Star(source) => source.Some? ==> OfModule(source.value) in may
         case _ => true)
    case Exported(file, name) =>
      if (file, name) in p.exports then
        (match p.exports[(file, name)]
         case FromFile(source, exported) =>
           source.Some? ==> Listed(o, Def(M.Onward(file, source.value, exported)), may)
         case Standard(t) => Listed(o, At(file, t), may) && Below(o, file, t, o.top + 1))
      else
        file in p.stars ==> forall target :: target in p.stars[file] && Tried(p, target, name) ==>
          Listed(o, Def(M.Exported(target, name)), may)
  }

  ghost predicate Low(p: Program, ops: Ops, o: Order, item: Item) {
    match item
    case Def(k) => KeyLow(p, ops, o, k)
    case At(file, t) => TermLow(ops, o, file, t)
    case In(_, _) => true
  }

  ghost predicate Ordered(p: Program, ops: Ops, o: Order) { forall item :: item in o.items ==> Low(p, ops, o, item) }

  // ---------- verdicts flow as the order says ----------

  ghost predicate KeyFlow(p: Program, ops: Ops, k: Key, v: Verdict) {
    forall o :: Ordered(p, ops, o) && Def(k) in o.items ==> FlowsInto(o.may(Def(k)), v)
  }

  ghost predicate TermFlow(p: Program, ops: Ops, file: string, t: Term, v: Verdict) {
    forall o :: Ordered(p, ops, o) && At(file, t) in o.items ==> FlowsInto(o.may(At(file, t)), v)
  }

  ghost predicate MemberFlow(p: Program, ops: Ops, owner: Verdict, key: string, v: Verdict) {
    forall o, into, depth :: Ordered(p, ops, o) && LookLow(ops, o, owner, key, into, depth) ==> FlowsInto(into, v)
  }

  ghost predicate FoundFlow(p: Program, ops: Ops, file: string, found: Found, v: Verdict) {
    forall o, into, depth :: Ordered(p, ops, o) && FoundLow(o, file, found, into, depth) ==> FlowsInto(into, v)
  }

  ghost predicate CrossFlow(p: Program, ops: Ops, file: string, owner: Verdict, access: Access, v: Verdict) {
    forall o, into :: Ordered(p, ops, o) && CrossLow(ops, o, owner, access, into) ==> FlowsInto(into, v)
  }

  ghost predicate PathFlow(p: Program, ops: Ops, file: string, init: Term, bound: Bound, k: nat, v: Verdict) {
    forall o, ways :: Ordered(p, ops, o) && PathLow(ops, o, file, init, bound, ways) && k < |ways| ==>
      FlowsInto(ways[k], v)
  }

  lemma LowTerm(p: Program, ops: Ops, o: Order, file: string, t: Term)
    requires Ordered(p, ops, o) && At(file, t) in o.items
    ensures TermLow(ops, o, file, t)
  {
    hide TermLow;
    assert Low(p, ops, o, At(file, t));
  }

  lemma LowKey(p: Program, ops: Ops, o: Order, k: Key)
    requires Ordered(p, ops, o) && Def(k) in o.items
    ensures KeyLow(p, ops, o, k)
  {
    hide KeyLow;
    assert Low(p, ops, o, Def(k));
  }

  lemma PlainFlows(p: Program, ops: Ops, file: string, t: Term, k: Key, v: Verdict)
    requires v.Prim? || v.Safe? || v.State?
    ensures TermFlow(p, ops, file, t, v) && KeyFlow(p, ops, k, v)
  {
  }

  lemma LiteralFlow(p: Program, ops: Ops, file: string, t: Term)
    requires IsLiteral(t)
    ensures TermFlow(p, ops, file, Immutable(t), OfLiteral(file, t))
  {
    hide Ordered;
    forall o | Ordered(p, ops, o) && At(file, Immutable(t)) in o.items
      ensures FlowsInto(o.may(At(file, Immutable(t))), OfLiteral(file, t))
    {
      LowTerm(p, ops, o, file, Immutable(t));
    }
  }

  lemma RefFlow(p: Program, ops: Ops, file: string, t: Term, v: Verdict)
    requires t.Ref? && KeyFlow(p, ops, M.Named(file, t.name), v)
    ensures TermFlow(p, ops, file, t, v)
  {
    hide Ordered;
    forall o | Ordered(p, ops, o) && At(file, t) in o.items ensures FlowsInto(o.may(At(file, t)), v) {
      LowTerm(p, ops, o, file, t);
    }
  }

  lemma MemberTermFlow(p: Program, ops: Ops, file: string, t: Term, owner: Verdict, v: Verdict)
    requires t.Member? && TermFlow(p, ops, file, t.owner, owner) && MemberFlow(p, ops, owner, t.key, v)
    ensures TermFlow(p, ops, file, t, v)
  {
    hide Ordered, FoundLow;
    forall o | Ordered(p, ops, o) && At(file, t) in o.items ensures FlowsInto(o.may(At(file, t)), v) {
      LowTerm(p, ops, o, file, t);
      LooksLow(ops, o, owner, t.key, o.may(At(file, t.owner)), o.may(At(file, t)), o.depth(At(file, t)));
    }
  }

  /** What flows into the possible owners is looked up as low as they are. */
  lemma LooksLow(ops: Ops, o: Order, owner: Verdict, key: string, owners: iset<Verdict>, into: iset<Verdict>,
                 depth: nat)
    requires FlowsInto(owners, owner)
    requires forall v :: v in owners ==> LookLow(ops, o, v, key, into, depth)
    ensures LookLow(ops, o, owner, key, into, depth)
  {
  }

  lemma IndexFlow(p: Program, ops: Ops, file: string, t: Term, key: string, owner: Verdict, v: Verdict)
    requires t.Index? && (t.at.Lit? ==> key == ops.text(t.at.p))
    requires TermFlow(p, ops, file, t.owner, owner) && MemberFlow(p, ops, owner, key, v)
    ensures TermFlow(p, ops, file, t, v)
  {
    hide Ordered, FoundLow;
    forall o | Ordered(p, ops, o) && At(file, t) in o.items ensures FlowsInto(o.may(At(file, t)), v) {
      LowTerm(p, ops, o, file, t);
      LooksLow(ops, o, owner, key, o.may(At(file, t.owner)), o.may(At(file, t)), o.depth(At(file, t)));
    }
  }

  lemma PlainMember(p: Program, ops: Ops, owner: Verdict, key: string, v: Verdict)
    requires v.Prim? || v.Safe? || v.State?
    ensures MemberFlow(p, ops, owner, key, v)
  {
  }

  lemma ModuleFlow(p: Program, ops: Ops, file: string, key: string, v: Verdict)
    requires KeyFlow(p, ops, M.Exported(file, key), v)
    ensures MemberFlow(p, ops, OfModule(file), key, v)
  {
    hide Ordered;
  }

  lemma LiteralMemberFlow(p: Program, ops: Ops, file: string, t: Term, key: string, v: Verdict)
    requires IsLiteral(t) && FoundFlow(p, ops, file, Find(ops, t, key), v)
    ensures MemberFlow(p, ops, OfLiteral(file, t), key, v)
  {
    hide Ordered, FoundLow, Find;
  }

  lemma FoundTermFlow(p: Program, ops: Ops, file: string, t: Term, v: Verdict)
    requires TermFlow(p, ops, file, t, v) && (IsLiteral(t) ==> v == State)
    ensures FoundFlow(p, ops, file, Found.Value(t),
                      if v != State then v else if IsLiteral(t) then OfLiteral(file, t) else Safe)
  {
    hide Ordered;
  }

  lemma FoundBindingFlow(p: Program, ops: Ops, file: string, name: string, v: Verdict)
    requires KeyFlow(p, ops, M.Named(file, name), v)
    ensures FoundFlow(p, ops, file, Binding(name), v)
  {
    hide Ordered;
  }

  lemma PlainFound(p: Program, ops: Ops, file: string, found: Found, v: Verdict)
    requires v.Prim? || v.Safe? || v.State?
    ensures FoundFlow(p, ops, file, found, v)
  {
  }

  lemma CrossFlows(p: Program, ops: Ops, file: string, owner: Verdict, access: Access, key: string, v: Verdict)
    requires access.Static? ==> key == access.key
    requires MemberFlow(p, ops, owner, key, v)
    ensures CrossFlow(p, ops, file, owner, access, v)
  {
    hide Ordered, LookLow, FlowsInto;
    forall o, into | Ordered(p, ops, o) && CrossLow(ops, o, owner, access, into) ensures FlowsInto(into, v) {
      assert CrossKeyLow(ops, o, owner, key, into);
    }
  }

  lemma PlainCross(p: Program, ops: Ops, file: string, owner: Verdict, access: Access, v: Verdict)
    requires v.Prim? || v.Safe? || v.State?
    ensures CrossFlow(p, ops, file, owner, access, v)
  {
  }

  lemma PathFlowStarts(p: Program, ops: Ops, file: string, init: Term, bound: Bound, v: Verdict)
    requires TermFlow(p, ops, file, init, v)
    ensures PathFlow(p, ops, file, init, bound, 0, v)
  {
    hide Ordered, StepLow;
  }

  lemma PathFlowSteps(p: Program, ops: Ops, file: string, init: Term, bound: Bound, k: nat, owner: Verdict, v: Verdict)
    requires k < |bound.access| && PathFlow(p, ops, file, init, bound, k, owner)
    requires CrossFlow(p, ops, file, owner, bound.access[k], v)
    ensures PathFlow(p, ops, file, init, bound, k + 1, v)
  {
    hide Ordered, CrossLow, FlowsInto;
    forall o, ways | Ordered(p, ops, o) && PathLow(ops, o, file, init, bound, ways) && k + 1 < |ways|
      ensures FlowsInto(ways[k + 1], v)
    {
      assert StepLow(ops, o, file, bound, ways, k);
    }
  }

  lemma PathFlowFills(p: Program, ops: Ops, file: string, init: Term, bound: Bound, k: nat, i: nat, v: Verdict,
                      alternative: Verdict)
    requires k < |bound.access| && i < |DefaultsAt(bound.defaults, k + 1)|
    requires PathFlow(p, ops, file, init, bound, k + 1, v)
    requires TermFlow(p, ops, file, DefaultsAt(bound.defaults, k + 1)[i], alternative)
    ensures PathFlow(p, ops, file, init, bound, k + 1, FilledVerdict(v, alternative))
  {
    hide Ordered, CrossLow;
    forall o, ways | Ordered(p, ops, o) && PathLow(ops, o, file, init, bound, ways) && k + 1 < |ways|
      ensures FlowsInto(ways[k + 1], FilledVerdict(v, alternative))
    {
      assert StepLow(ops, o, file, bound, ways, k);
      assert Listed(o, At(file, DefaultsAt(bound.defaults, k + 1)[i]), ways[k + 1]);
    }
  }

  lemma PlainPath(p: Program, ops: Ops, file: string, init: Term, bound: Bound, k: nat, v: Verdict)
    requires v.Prim? || v.Safe? || v.State?
    ensures PathFlow(p, ops, file, init, bound, k, v)
  {
  }

  lemma PathFlowEnds(p: Program, ops: Ops, file: string, name: string, v: Verdict)
    requires (file, name) in p.locals && p.locals[(file, name)].Const?
    requires var local := p.locals[(file, name)];
      PathFlow(p, ops, file, local.init, local.bound, |local.bound.access|, v)
    ensures KeyFlow(p, ops, M.Named(file, name), v)
  {
    hide Ordered, StepLow;
    var k := M.Named(file, name);
    forall o | Ordered(p, ops, o) && Def(k) in o.items ensures FlowsInto(o.may(Def(k)), v) {
      LowKey(p, ops, o, k);
    }
  }

  lemma ForwardFlow(p: Program, ops: Ops, file: string, name: string, v: Verdict)
    requires (file, name) in p.locals && p.locals[(file, name)].Import? && p.locals[(file, name)].source.Some?
    requires KeyFlow(p, ops, M.Exported(p.locals[(file, name)].source.value, p.locals[(file, name)].exported), v)
    ensures KeyFlow(p, ops, M.Named(file, name), v)
  {
    hide Ordered;
    var k := M.Named(file, name);
    forall o | Ordered(p, ops, o) && Def(k) in o.items ensures FlowsInto(o.may(Def(k)), v) {
      LowKey(p, ops, o, k);
    }
  }

  lemma StarFlow(p: Program, ops: Ops, file: string, name: string)
    requires (file, name) in p.locals && p.locals[(file, name)].Star? && p.locals[(file, name)].source.Some?
    ensures KeyFlow(p, ops, M.Named(file, name), OfModule(p.locals[(file, name)].source.value))
  {
    hide Ordered;
    var k := M.Named(file, name);
    forall o | Ordered(p, ops, o) && Def(k) in o.items
      ensures FlowsInto(o.may(Def(k)), OfModule(p.locals[(file, name)].source.value))
    {
      LowKey(p, ops, o, k);
    }
  }

  lemma OnwardFlow(p: Program, ops: Ops, file: string, name: string, v: Verdict)
    requires (file, name) in p.exports && p.exports[(file, name)].FromFile? && p.exports[(file, name)].source.Some?
    requires KeyFlow(p, ops, M.Onward(file, p.exports[(file, name)].source.value, p.exports[(file, name)].exported), v)
    ensures KeyFlow(p, ops, M.Exported(file, name), v)
  {
    hide Ordered, M.Onward;
    var k := M.Exported(file, name);
    forall o | Ordered(p, ops, o) && Def(k) in o.items ensures FlowsInto(o.may(Def(k)), v) {
      LowKey(p, ops, o, k);
    }
  }

  lemma StandardFlow(p: Program, ops: Ops, file: string, name: string, v: Verdict)
    requires (file, name) in p.exports && p.exports[(file, name)].Standard?
    requires TermFlow(p, ops, file, p.exports[(file, name)].t, v)
    ensures KeyFlow(p, ops, M.Exported(file, name), v)
  {
    hide Ordered;
    var k := M.Exported(file, name);
    forall o | Ordered(p, ops, o) && Def(k) in o.items ensures FlowsInto(o.may(Def(k)), v) {
      LowKey(p, ops, o, k);
    }
  }

  lemma StarredFlow(p: Program, ops: Ops, file: string, name: string, target: string, v: Verdict)
    requires (file, name) !in p.exports && file in p.stars && target in p.stars[file] && Tried(p, target, name)
    requires KeyFlow(p, ops, M.Exported(target, name), v)
    ensures KeyFlow(p, ops, M.Exported(file, name), v)
  {
    hide Ordered, Tried;
    var k := M.Exported(file, name);
    forall o | Ordered(p, ops, o) && Def(k) in o.items ensures FlowsInto(o.may(Def(k)), v) {
      LowKey(p, ops, o, k);
    }
  }

  // ---------- fuel ----------

  function Keys(p: Program): set<Key> {
    (set at | at in p.locals :: M.Named(at.0, at.1)) + (set at | at in p.exports :: M.Exported(at.0, at.1))
  }

  /** Fuel for n definitions that start no deeper than the top, with star re-exports on the way to each. */
  function Level(stars: nat, top: nat, n: nat): nat {
    if n == 0 then 0 else Level(stars, top, n - 1) + stars + 2 * top + 4
  }

  ghost function Left(p: Program, visiting: set<Key>): nat { |Keys(p) - visiting| }

  /** The fuel for the definitions still open. */
  ghost function Definitions(p: Program, visiting: set<Key>, top: nat): nat {
    Level(|p.stars|, top, Left(p, visiting))
  }

  /** The files whose star re-exports have not been tried for the name. */
  ghost function Untried(p: Program, visiting: set<Key>, name: string): set<string> {
    set file | file in p.stars.Keys && M.Exported(file, name) !in visiting
  }

  ghost function Hops(p: Program, visiting: set<Key>, k: Key): nat {
    if k.Exported? then |Untried(p, visiting, k.name)| else 0
  }

  /** The fuel is enough for the key. */
  ghost predicate KeyFuel(p: Program, ops: Ops, visiting: set<Key>, k: Key, fuel: nat) {
    exists o :: Ordered(p, ops, o) && KeyFits(p, visiting, o, k, fuel)
  }

  ghost predicate KeyFits(p: Program, visiting: set<Key>, o: Order, k: Key, fuel: nat) {
    Def(k) in o.items && fuel >= Definitions(p, visiting, o.top) + Hops(p, visiting, k) + 1
  }

  /** The fuel is enough for the definition of a key that is being visited. */
  ghost predicate DefinitionFuel(p: Program, ops: Ops, visiting: set<Key>, k: Key, fuel: nat) {
    exists o :: Ordered(p, ops, o) && DefinitionFits(p, visiting, o, k, fuel)
  }

  ghost predicate DefinitionFits(p: Program, visiting: set<Key>, o: Order, k: Key, fuel: nat) {
    && Def(k) in o.items
    && if k in Keys(p) then fuel >= Definitions(p, visiting, o.top) + |p.stars| + 2 * o.top + 3
       else k.Exported? && k.file in p.stars ==> fuel >= Definitions(p, visiting, o.top) + Hops(p, visiting, k) + 1
  }

  ghost predicate TermFuel(p: Program, ops: Ops, visiting: set<Key>, file: string, t: Term, fuel: nat) {
    exists o :: Ordered(p, ops, o) && TermFits(p, visiting, o, file, t, fuel)
  }

  ghost predicate TermFits(p: Program, visiting: set<Key>, o: Order, file: string, t: Term, fuel: nat) {
    At(file, t) in o.items && fuel >= Definitions(p, visiting, o.top) + |p.stars| + 2 * o.depth(At(file, t)) + 1
  }

  /** The fuel is enough for taking the key out of the owner. */
  ghost predicate MemberFuel(p: Program, ops: Ops, visiting: set<Key>, owner: Verdict, key: string, fuel: nat) {
    exists o, into, depth :: Ordered(p, ops, o) && MemberFits(p, ops, visiting, o, owner, key, into, depth, fuel)
  }

  ghost predicate MemberFits(p: Program, ops: Ops, visiting: set<Key>, o: Order, owner: Verdict, key: string,
                             into: iset<Verdict>, depth: nat, fuel: nat) {
    LookLow(ops, o, owner, key, into, depth) && depth > 0
    && fuel >= Definitions(p, visiting, o.top) + |p.stars| + 2 * depth
  }

  ghost predicate FoundFuel(p: Program, ops: Ops, visiting: set<Key>, file: string, found: Found, fuel: nat) {
    match found
    case Value(v) => IsLiteral(v) || TermFuel(p, ops, visiting, file, v, fuel)
    case Binding(name) => KeyFuel(p, ops, visiting, M.Named(file, name), fuel)
    case _ => true
  }

  ghost predicate CrossFuel(p: Program, ops: Ops, visiting: set<Key>, file: string, owner: Verdict, access: Access,
                            fuel: nat) {
    match access
    case Static(key) => MemberFuel(p, ops, visiting, owner, key, fuel)
    case Dynamic(at) =>
      TermFuel(p, ops, visiting, file, at, fuel) && forall key :: MemberFuel(p, ops, visiting, owner, key, fuel)
  }

  ghost predicate PathFuel(p: Program, ops: Ops, visiting: set<Key>, file: string, init: Term, bound: Bound,
                           fuel: nat) {
    exists o, ways :: Ordered(p, ops, o) && PathFits(p, ops, visiting, o, file, init, bound, ways, fuel)
  }

  ghost predicate PathFits(p: Program, ops: Ops, visiting: set<Key>, o: Order, file: string, init: Term, bound: Bound,
                           ways: seq<iset<Verdict>>, fuel: nat) {
    PathLow(ops, o, file, init, bound, ways) && fuel >= Definitions(p, visiting, o.top) + |p.stars| + 2 * o.top + 3
  }

  /** The fuel is enough for each operand. */
  ghost predicate OperandFuel(p: Program, ops: Ops, visiting: set<Key>, file: string, t: Term, fuel: nat) {
    match t
    case Cond(c, yes, no) =>
      && TermFuel(p, ops, visiting, file, c, fuel) && TermFuel(p, ops, visiting, file, yes, fuel)
      && TermFuel(p, ops, visiting, file, no, fuel)
    case Unary(_, operand) => TermFuel(p, ops, visiting, file, operand, fuel)
    case Binary(_, l, r) => TermFuel(p, ops, visiting, file, l, fuel) && TermFuel(p, ops, visiting, file, r, fuel)
    case _ => true
  }

  /** One key more is being visited. */
  lemma LeftAfter(p: Program, visiting: set<Key>, k: Key)
    requires k !in visiting
    ensures Left(p, visiting) == Left(p, visiting + {k}) + if k in Keys(p) then 1 else 0
  {
    hide Keys;
    if k in Keys(p) {
      assert Keys(p) - visiting == (Keys(p) - (visiting + {k})) + {k};
    } else {
      assert Keys(p) - visiting == Keys(p) - (visiting + {k});
    }
  }

  lemma HopsAfter(p: Program, visiting: set<Key>, k: Key)
    requires k.Exported? && k.file in p.stars && k !in visiting
    ensures Hops(p, visiting, k) == Hops(p, visiting + {k}, k) + 1
  {
    assert Untried(p, visiting, k.name) == Untried(p, visiting + {k}, k.name) + {k.file};
    assert k.file !in Untried(p, visiting + {k}, k.name);
  }

  lemma HopsFew(p: Program, visiting: set<Key>, k: Key)
    ensures Hops(p, visiting, k) <= |p.stars|
  {
    if k.Exported? {
      assert Untried(p, visiting, k.name) <= p.stars.Keys;
      Subset(Untried(p, visiting, k.name), p.stars.Keys);
    }
  }

  lemma Subset(small: set<string>, large: set<string>)
    requires small <= large
    ensures |small| <= |large|
  {
    assert large == small + (large - small);
  }

  /** Visiting one more key leaves the fuel for its definition. */
  lemma KeyToDefinition(p: Program, ops: Ops, visiting: set<Key>, k: Key, fuel: nat)
    requires KeyFuel(p, ops, visiting, k, fuel)
    ensures fuel > 0 && (k !in visiting ==> DefinitionFuel(p, ops, visiting + {k}, k, fuel - 1))
  {
    hide Keys, Ordered, Hops, Left;
    var o :| Ordered(p, ops, o) && KeyFits(p, visiting, o, k, fuel);
    if k !in visiting {
      LeftAfter(p, visiting, k);
      if k.Exported? && k.file in p.stars {
        HopsAfter(p, visiting, k);
      }
      assert DefinitionFits(p, visiting + {k}, o, k, fuel - 1);
    }
  }

  lemma AnyKeyFits(p: Program, ops: Ops, visiting: set<Key>, o: Order, k: Key, fuel: nat)
    requires Ordered(p, ops, o) && Def(k) in o.items
    requires fuel >= Definitions(p, visiting, o.top) + |p.stars| + 1
    ensures KeyFuel(p, ops, visiting, k, fuel)
  {
    HopsFew(p, visiting, k);
    assert KeyFits(p, visiting, o, k, fuel);
  }

  lemma DefinitionToLocal(p: Program, ops: Ops, visiting: set<Key>, file: string, name: string, fuel: nat)
    requires DefinitionFuel(p, ops, visiting, M.Named(file, name), fuel) && (file, name) in p.locals
    ensures match p.locals[(file, name)]
      case Const(_, init, bound) => PathFuel(p, ops, visiting, file, init, bound, fuel)
      case Import(source, exported) =>
        source.Some? ==> KeyFuel(p, ops, visiting, M.Exported(source.value, exported), fuel)
      case _ => true
  {
    hide Ordered, Definitions, PathLow, Hops;
    var k := M.Named(file, name);
    var o :| Ordered(p, ops, o) && DefinitionFits(p, visiting, o, k, fuel);
    LowKey(p, ops, o, k);
    assert k in Keys(p);
    match p.locals[(file, name)] {
      case Const(_, init, bound) =>
        var ways :| PathLow(ops, o, file, init, bound, ways);
        assert PathFits(p, ops, visiting, o, file, init, bound, ways, fuel);
      case Import(source, exported) =>
        if source.Some? {
          AnyKeyFits(p, ops, visiting, o, M.Exported(source.value, exported), fuel);
        }
      case _ =>
    }
  }

  lemma DefinitionToExport(p: Program, ops: Ops, visiting: set<Key>, file: string, name: string, fuel: nat)
    requires DefinitionFuel(p, ops, visiting, M.Exported(file, name), fuel)
    ensures if (file, name) in p.exports then
        (match p.exports[(file, name)]
         case FromFile(source, exported) =>
           source.Some? ==> KeyFuel(p, ops, visiting, M.Onward(file, source.value, exported), fuel)
         case Standard(t) => TermFuel(p, ops, visiting, file, t, fuel))
      else
        file in p.stars ==> forall target :: target in p.stars[file] && Tried(p, target, name) ==>
          KeyFuel(p, ops, visiting, M.Exported(target, name), fuel)
  {
    hide Ordered, Definitions, Tried, M.Onward;
    var k := M.Exported(file, name);
    var o :| Ordered(p, ops, o) && DefinitionFits(p, visiting, o, k, fuel);
    LowKey(p, ops, o, k);
    if (file, name) in p.exports {
      assert k in Keys(p);
      match p.exports[(file, name)] {
        case FromFile(source, exported) =>
          if source.Some? {
            AnyKeyFits(p, ops, visiting, o, M.Onward(file, source.value, exported), fuel);
          }
        case Standard(t) => assert TermFits(p, visiting, o, file, t, fuel);
      }
    } else if file in p.stars {
      forall target | target in p.stars[file] && Tried(p, target, name)
        ensures KeyFuel(p, ops, visiting, M.Exported(target, name), fuel)
      {
        assert k !in Keys(p);
        assert Hops(p, visiting, M.Exported(target, name)) == Hops(p, visiting, k);
        assert KeyFits(p, visiting, o, M.Exported(target, name), fuel);
      }
    }
  }

  lemma BelowFuel(p: Program, ops: Ops, visiting: set<Key>, o: Order, file: string, t: Term, depth: nat, fuel: nat)
    requires Ordered(p, ops, o) && Below(o, file, t, depth)
    requires fuel + 1 >= Definitions(p, visiting, o.top) + |p.stars| + 2 * depth
    ensures TermFuel(p, ops, visiting, file, t, fuel)
  {
    hide Ordered, Definitions;
    assert TermFits(p, visiting, o, file, t, fuel);
  }

  /** One level of a term leaves the fuel for its parts. */
  lemma TermToParts(p: Program, ops: Ops, visiting: set<Key>, file: string, t: Term, fuel: nat)
    requires TermFuel(p, ops, visiting, file, t, fuel)
    ensures fuel > 0
    ensures t.Ref? ==> KeyFuel(p, ops, visiting, M.Named(file, t.name), fuel - 1)
    ensures t.Immutable? ==> IsLiteral(t.t) || TermFuel(p, ops, visiting, file, t.t, fuel - 1)
    ensures t.Template? ==> forall i :: 0 <= i < |t.spans| ==> TermFuel(p, ops, visiting, file, t.spans[i].t, fuel - 1)
    ensures t.Cond? || t.Unary? || t.Binary? ==> OperandFuel(p, ops, visiting, file, t, fuel - 1)
    ensures t.Member? || t.Index? ==> TermFuel(p, ops, visiting, file, t.owner, fuel - 1)
    ensures t.Index? ==> TermFuel(p, ops, visiting, file, t.at, fuel - 1)
  {
    hide Ordered, Definitions, TermFuel, KeyFuel, LookLow, Below;
    var o := FuelFits(p, ops, visiting, file, t, fuel);
    var depth := o.depth(At(file, t));
    LowTerm(p, ops, o, file, t);
    match t {
      case Ref(name, _) => AnyKeyFits(p, ops, visiting, o, M.Named(file, name), fuel - 1);
      case Immutable(inner) =>
        if !IsLiteral(inner) {
          BelowFuel(p, ops, visiting, o, file, inner, depth, fuel - 1);
        }
      case Template(_, spans) =>
        forall i | 0 <= i < |spans| ensures TermFuel(p, ops, visiting, file, spans[i].t, fuel - 1) {
          BelowFuel(p, ops, visiting, o, file, spans[i].t, depth, fuel - 1);
        }
      case Cond(c, yes, no) =>
        BelowFuel(p, ops, visiting, o, file, c, depth, fuel - 1);
        BelowFuel(p, ops, visiting, o, file, yes, depth, fuel - 1);
        BelowFuel(p, ops, visiting, o, file, no, depth, fuel - 1);
      case Unary(_, operand) => BelowFuel(p, ops, visiting, o, file, operand, depth, fuel - 1);
      case Binary(_, l, r) =>
        BelowFuel(p, ops, visiting, o, file, l, depth, fuel - 1);
        BelowFuel(p, ops, visiting, o, file, r, depth, fuel - 1);
      case Member(owner, _) => BelowFuel(p, ops, visiting, o, file, owner, depth, fuel - 1);
      case Index(owner, at) =>
        BelowFuel(p, ops, visiting, o, file, owner, depth, fuel - 1);
        BelowFuel(p, ops, visiting, o, file, at, depth, fuel - 1);
      case _ =>
    }
  }

  lemma FuelFits(p: Program, ops: Ops, visiting: set<Key>, file: string, t: Term, fuel: nat) returns (o: Order)
    requires TermFuel(p, ops, visiting, file, t, fuel)
    ensures Ordered(p, ops, o) && At(file, t) in o.items
    ensures fuel >= Definitions(p, visiting, o.top) + |p.stars| + 2 * o.depth(At(file, t)) + 1
  {
    o :| Ordered(p, ops, o) && TermFits(p, visiting, o, file, t, fuel);
  }

  /** And for taking the key out of the verdict of its owner. */
  lemma TermToMember(p: Program, ops: Ops, visiting: set<Key>, file: string, t: Term, key: string, owner: Verdict,
                     fuel: nat)
    requires TermFuel(p, ops, visiting, file, t, fuel) && (t.Member? || t.Index?)
    requires TermFlow(p, ops, file, t.owner, owner)
    requires if t.Member? then key == t.key else t.at.Lit? ==> key == ops.text(t.at.p)
    ensures fuel > 0 && MemberFuel(p, ops, visiting, owner, key, fuel - 1)
  {
    hide Ordered, Definitions, TermFuel, LookLow, FlowsInto;
    var o := FuelFits(p, ops, visiting, file, t, fuel);
    var depth, into := o.depth(At(file, t)), o.may(At(file, t));
    LowTerm(p, ops, o, file, t);
    LooksLow(ops, o, owner, key, o.may(At(file, t.owner)), into, depth);
    assert MemberFits(p, ops, visiting, o, owner, key, into, depth, fuel - 1);
  }

  lemma MemberToFound(p: Program, ops: Ops, visiting: set<Key>, owner: Verdict, key: string, fuel: nat)
    requires MemberFuel(p, ops, visiting, owner, key, fuel)
    ensures fuel > 0
    ensures owner.OfModule? ==> KeyFuel(p, ops, visiting, M.Exported(owner.file, key), fuel - 1)
    ensures owner.OfLiteral? && IsLiteral(owner.t) ==>
      FoundFuel(p, ops, visiting, owner.file, Find(ops, owner.t, key), fuel - 1)
  {
    hide Ordered, Definitions, Find, KeyFuel;
    var o, into, depth :| Ordered(p, ops, o) && MemberFits(p, ops, visiting, o, owner, key, into, depth, fuel);
    if owner.OfModule? {
      AnyKeyFits(p, ops, visiting, o, M.Exported(owner.file, key), fuel - 1);
    } else if owner.OfLiteral? && IsLiteral(owner.t) {
      match Find(ops, owner.t, key) {
        case Value(v) =>
          if !IsLiteral(v) {
            BelowFuel(p, ops, visiting, o, owner.file, v, depth, fuel - 1);
          }
        case Binding(name) => AnyKeyFits(p, ops, visiting, o, M.Named(owner.file, name), fuel - 1);
        case _ =>
      }
    }
  }

  lemma PathToInit(p: Program, ops: Ops, visiting: set<Key>, file: string, init: Term, bound: Bound, fuel: nat)
    requires PathFuel(p, ops, visiting, file, init, bound, fuel)
    ensures TermFuel(p, ops, visiting, file, init, fuel)
  {
    hide Ordered, Definitions, StepLow;
    var o, ways :| Ordered(p, ops, o) && PathFits(p, ops, visiting, o, file, init, bound, ways, fuel);
    BelowFuel(p, ops, visiting, o, file, init, o.top + 1, fuel);
  }

  lemma PathToStep(p: Program, ops: Ops, visiting: set<Key>, file: string, init: Term, bound: Bound, k: nat,
                   owner: Verdict, fuel: nat)
    requires PathFuel(p, ops, visiting, file, init, bound, fuel) && k < |bound.access|
    requires PathFlow(p, ops, file, init, bound, k, owner)
    ensures CrossFuel(p, ops, visiting, file, owner, bound.access[k], fuel)
    ensures var fallbacks := DefaultsAt(bound.defaults, k + 1);
      forall i :: 0 <= i < |fallbacks| ==> TermFuel(p, ops, visiting, file, fallbacks[i], fuel)
  {
    hide Ordered, Definitions, TermFuel, LookLow, FlowsInto, Below, DefaultsAt;
    var o, ways :| Ordered(p, ops, o) && PathFits(p, ops, visiting, o, file, init, bound, ways, fuel);
    assert StepLow(ops, o, file, bound, ways, k);
    var into := ways[k + 1];
    assert CrossLow(ops, o, owner, bound.access[k], into);
    forall key | CrossKeyLow(ops, o, owner, key, into) ensures MemberFuel(p, ops, visiting, owner, key, fuel) {
      assert MemberFits(p, ops, visiting, o, owner, key, into, o.top + 1, fuel);
    }
    if bound.access[k].Dynamic? {
      BelowFuel(p, ops, visiting, o, file, bound.access[k].at, o.top + 1, fuel);
    }
    var fallbacks := DefaultsAt(bound.defaults, k + 1);
    forall i | 0 <= i < |fallbacks| ensures TermFuel(p, ops, visiting, file, fallbacks[i], fuel) {
      BelowFuel(p, ops, visiting, o, file, fallbacks[i], o.top + 1, fuel);
    }
  }

  /** In an ordered program the fuel for all definitions is enough for any key, in a fresh evaluator. */
  lemma OrderedFuel(p: Program, ops: Ops, o: Order, k: Key)
    requires Ordered(p, ops, o) && Def(k) in o.items
    ensures forall fuel: nat :: fuel >= Level(|p.stars|, o.top, |Keys(p)|) + |p.stars| + 1 ==>
      KeyFuel(p, ops, {}, k, fuel)
  {
    hide Keys, Ordered;
    assert Keys(p) - {} == Keys(p);
    forall fuel: nat | fuel >= Level(|p.stars|, o.top, |Keys(p)|) + |p.stars| + 1 ensures KeyFuel(p, ops, {}, k, fuel) {
      AnyKeyFits(p, ops, {}, o, k, fuel);
    }
  }
}
