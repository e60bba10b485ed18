/** The runs the evaluator's answers are right for: what they must keep, and of which definitions and terms. */
module ConstPromise {
  import opened Options
  import opened Naturals
  import opened ConstTerms
  import opened ConstFolding
  import M = ModuleState

  /** A definition, a term that is evaluated, or a literal that is looked into. */
  datatype Item = Def(k: Key) | At(file: string, t: Term) | In(file: string, t: Term)

  // ---------- what a run keeps ----------

  /** The key is settled in the literal, and what it finds there belongs to the items. */
  ghost predicate LookedUp(run: Run, s: iset<Item>, file: string, t: Term, key: string)
    requires IsLiteral(t)
  {
    && Settles(run.ops, t, key)
    && match Find(run.ops, t, key)
       case Value(v) => (if IsLiteral(v) then In(file, v) else At(file, v)) in s
       case Binding(name) => Def(M.Named(file, name)) in s
       case _ => true
  }

  /**
   * Taking the key out of the datum: of a literal among the items it must be settled there, of a module it is a
   * definition among the items. Of anything else nothing is asked.
   */
  ghost predicate Settled(run: Run, s: iset<Item>, d: Datum, key: string) {
    match d
    case Obj(_, _, made) => MadeSettled(run, s, made, key)
    case Arr(_, made) => MadeSettled(run, s, made, key)
    case Namespace(file) => Provides(run.p, file, key) ==> Def(M.Exported(file, key)) in s
    case _ => true
  }

  ghost predicate MadeSettled(run: Run, s: iset<Item>, made: Option<Made>, key: string) {
    made.Some? && IsLiteral(made.value.t) && In(made.value.file, made.value.t) in s ==>
      LookedUp(run, s, made.value.file, made.value.t, key)
  }

  /** A rest of a module has no name of its own; "*" must not be an export either. */
  ghost predicate NoStarExport(run: Run, d: Datum) { d.Namespace? ==> !Provides(run.p, d.file, "*") }

  /** What evaluating the term in this run looks at belongs to the items. */
  ghost predicate TermKept(run: Run, s: iset<Item>, file: string, t: Term) {
    match t
    case Immutable(inner) => (if IsLiteral(inner) then In(file, inner) else At(file, inner)) in s
    case Ref(name, _) => Def(M.Named(file, name)) in s
    case Member(owner, key) =>
      var d := Eval(run, file, owner);
      At(file, owner) in s && (d.Some? ==> Settled(run, s, d.value, key))
    case Index(owner, at) =>
      var d, k := Eval(run, file, owner), Eval(run, file, at);
      && At(file, owner) in s && At(file, at) in s
      && (d.Some? && k.Some? && k.value.P? ==> Settled(run, s, d.value, run.ops.text(k.value.p)))
    case Template(_, spans) => forall i :: 0 <= i < |spans| ==> At(file, spans[i].t) in s
    case Cond(c, yes, no) =>
      var d := Eval(run, file, c);
      At(file, c) in s && (d.Some? ==> At(file, if Truthy(run.ops, d.value) then yes else no) in s)
    case Unary(_, operand) => At(file, operand) in s
    case Binary(op, l, r) =>
      var d := Eval(run, file, l);
      At(file, l) in s && (d.Some? && !Stops(run.ops, op, d.value) ==> At(file, r) in s)
    case _ => true
  }

  ghost predicate PickKept(run: Run, s: iset<Item>, file: string, pattern: Pattern, i: nat, d: Datum)
    requires !pattern.Bind? && i < |pattern.elements| && pattern.elements[i].Element?
  {
    var key := pattern.elements[i].key;
    if key.Rest? then NoStarExport(run, d)
    else if pattern.ArrayPattern? then Settled(run, s, d, Decimal(i))
    else match key
      case Fixed(text) => Settled(run, s, d, text)
      case Evaluated(at) =>
        var k := Eval(run, file, at);
        At(file, at) in s && (k.Some? && k.value.P? ==> Settled(run, s, d, run.ops.text(k.value.p)))
      case _ => NoStarExport(run, d)
  }

  /** What destructuring looks at on the way to this name belongs to the items. */
  ghost predicate PathKept(run: Run, s: iset<Item>, file: string, now: Term, pattern: Pattern, access: seq<Access>,
                           defaults: seq<Default>, d: Datum, bound: Bound)
    decreases pattern
  {
    pattern.Bind? ||
    forall i ::
      0 <= i < |pattern.elements| && pattern.elements[i].Element? && Leads(pattern, i, access, defaults, bound) ==>
      ElementKept(run, s, file, now, pattern, i, access, defaults, d, bound)
  }

  ghost predicate ElementKept(run: Run, s: iset<Item>, file: string, now: Term, pattern: Pattern, i: nat,
                              access: seq<Access>, defaults: seq<Default>, d: Datum, bound: Bound)
    requires !pattern.Bind? && i < |pattern.elements| && pattern.elements[i].Element?
    decreases pattern, 0
  {
    var e, taken := pattern.elements[i], Taken(run, file, now, pattern, i, d);
    && PickKept(run, s, file, pattern, i, d)
    && (Pick(run, file, now, pattern, i, d) == Some(UNDEFINED) && e.fallback.Some? ==> At(file, e.fallback.value) in s)
    && (taken.Some? ==> PathKept(run, s, file, now, e.sub, access + [AccessOf(pattern, i)],
                                 defaults + DefaultOf(e, |access| + 1), taken.value, bound))
  }

  /** The name is bound inside this element. */
  predicate Leads(pattern: Pattern, i: nat, access: seq<Access>, defaults: seq<Default>, bound: Bound)
    requires !pattern.Bind? && i < |pattern.elements| && pattern.elements[i].Element?
  {
    bound in NamesOf(pattern.elements[i].sub, access + [AccessOf(pattern, i)],
                     defaults + DefaultOf(pattern.elements[i], |access| + 1))
  }

  /** The definition was carried out, and what it looks at belongs to the items. */
  ghost predicate KeyKept(run: Run, s: iset<Item>, k: Key) {
    match k
    case Named(file, name) => LocalKept(run, s, file, name)
    case Exported(file, name) =>
      if (file, name) in run.p.exports then ExportKept(run, s, file, name) else StarsKept(run, s, file, name)
  }

  ghost predicate LocalKept(run: Run, s: iset<Item>, file: string, name: string) {
    var k := M.Named(file, name);
    if (file, name) !in run.p.locals then
      M.Global(name).Primitive? ==> Holds(run, k, P(M.Global(name).p))
    else match run.p.locals[(file, name)]
      case Const(pattern, init, bound) =>
        var d := Eval(run, file, init);
        && At(file, init) in s && d.Some? && Binds(run, file, init, pattern, d.value)
        && bound in NamesOf(pattern, [], []) && bound.name == name
        && PathKept(run, s, file, init, pattern, [], [], d.value, bound)
      case Import(source, exported) =>
        source.Some? ==>
          var next := M.Exported(source.value, exported); Def(next) in s && Same(run, k, next)
      case Star(source) => source.Some? ==> Holds(run, k, Namespace(source.value))
      case _ => true
  }

  ghost predicate ExportKept(run: Run, s: iset<Item>, file: string, name: string)
    requires (file, name) in run.p.exports
  {
    var k := M.Exported(file, name);
    match run.p.exports[(file, name)]
    case FromFile(source, exported) =>
      source.Some? ==>
        var next := M.Onward(file, source.value, exported); Def(next) in s && Same(run, k, next)
    case Standard(t) => At(file, t) in s && Eval(run, file, t).Some? && Holds(run, k, Eval(run, file, t).value)
  }

  /** Every module re-exported with a star that provides the name gives it the same value. */
  ghost predicate StarsKept(run: Run, s: iset<Item>, file: string, name: string) {
    file in run.p.stars ==> forall target :: target in run.p.stars[file] && Provides(run.p, target, name) ==>
      Def(M.Exported(target, name)) in s && Same(run, M.Exported(file, name), M.Exported(target, name))
  }

  ghost predicate Kept(run: Run, s: iset<Item>, item: Item) {
    match item
    case Def(k) => KeyKept(run, s, k)
    case At(file, t) => TermKept(run, s, file, t)
    case In(_, t) => IsLiteral(t)
  }

  /** The items are all the run looks at to evaluate any of them, and in this run each of them is kept. */
  ghost predicate Real(run: Run, s: iset<Item>) { forall item :: item in s ==> Kept(run, s, item) }

  /** The run writes to no inner literal among the items. */
  ghost predicate Unwritten(run: Run, s: iset<Item>) {
    forall file, t, key :: In(file, t) in s && IsLiteral(t) ==> InnerUnwritten(run, s, file, Find(run.ops, t, key))
  }

  ghost predicate InnerUnwritten(run: Run, s: iset<Item>, file: string, found: Found) {
    found.Value? && IsLiteral(found.t) && In(file, found.t) in s ==> !run.host.written(found.t.id)
  }

  /** A run the promise is made for, with what the answer depends on. */
  ghost predicate Of(run: Run, s: iset<Item>, p: Program, ops: Ops) {
    run.p == p && run.ops == ops && Real(run, s) && Unwritten(run, s)
  }

  // ---------- programs frozen all the way ----------

  /** Every literal inside an immutable literal of the term is immutable itself. */
  predicate Through(t: Term)
    decreases t, 1
  {
    match t
    case Immutable(inner) => if IsLiteral(inner) then ThroughParts(inner) else Through(inner)
    case Member(owner, _) => Through(owner)
    case Index(owner, at) => Through(owner) && Through(at)
    case Template(_, spans) => forall i :: 0 <= i < |spans| ==> Through(spans[i].t)
    case Cond(c, yes, no) => Through(c) && Through(yes) && Through(no)
    case Unary(_, operand) => Through(operand)
    case Binary(_, l, r) => Through(l) && Through(r)
    case _ => true
  }

  predicate ThroughParts(t: Term)
    requires IsLiteral(t)
    decreases t, 0
  {
    if t.Object? then
      forall i :: 0 <= i < |t.props| && t.props[i].Named? ==>
        !IsLiteral(t.props[i].value) && Through(t.props[i].value)
    else
      forall i :: 0 <= i < |t.elems| && t.elems[i].Item? ==>
        !IsLiteral(t.elems[i].value) && Through(t.elems[i].value)
  }

  predicate ThroughPattern(pattern: Pattern)
    decreases pattern
  {
    pattern.Bind? ||
    forall i :: 0 <= i < |pattern.elements| && pattern.elements[i].Element? ==>
      && ThroughPattern(pattern.elements[i].sub)
      && (pattern.elements[i].fallback.Some? ==> Through(pattern.elements[i].fallback.value))
      && (pattern.elements[i].key.Evaluated? ==> Through(pattern.elements[i].key.at))
  }

  predicate ThroughProgram(p: Program) {
    && (forall at :: at in p.locals && p.locals[at].Const? ==>
      Through(p.locals[at].init) && ThroughPattern(p.locals[at].pattern))
    && (forall at :: at in p.exports && p.exports[at].Standard? ==> Through(p.exports[at].t))
  }

  predicate Frozen(item: Item) {
    match item
    case Def(_) => true
    case At(_, t) => Through(t)
    case In(_, t) => IsLiteral(t) && ThroughParts(t)
  }

  ghost function FrozenPart(s: iset<Item>): iset<Item> { iset item | item in s && Frozen(item) }

  lemma FoundIsFrozen(ops: Ops, t: Term, key: string)
    requires IsLiteral(t) && ThroughParts(t)
    ensures var found := Find(ops, t, key); found.Value? ==> !IsLiteral(found.t) && Through(found.t)
  {
    hide ToIndex;
  }

  lemma SettledFrozen(run: Run, s: iset<Item>, d: Datum, key: string)
    requires Settled(run, s, d, key)
    ensures Settled(run, FrozenPart(s), d, key)
  {
    hide Find, Settles, Through, ThroughParts;
    if d.Obj? || d.Arr? {
      if d.made.Some? && In(d.made.value.file, d.made.value.t) in FrozenPart(s) {
        FoundIsFrozen(run.ops, d.made.value.t, key);
      }
    }
  }

  lemma TermFrozen(run: Run, s: iset<Item>, file: string, t: Term)
    requires TermKept(run, s, file, t) && Through(t)
    ensures TermKept(run, FrozenPart(s), file, t)
  {
    hide Settled, Eval, ThroughParts;
    forall d, key | Settled(run, s, d, key) ensures Settled(run, FrozenPart(s), d, key) {
      SettledFrozen(run, s, d, key);
    }
  }

  lemma {:induction false} PathFrozen(run: Run, s: iset<Item>, file: string, now: Term, pattern: Pattern,
                                      access: seq<Access>, defaults: seq<Default>, d: Datum, bound: Bound)
    requires PathKept(run, s, file, now, pattern, access, defaults, d, bound) && ThroughPattern(pattern)
    ensures PathKept(run, FrozenPart(s), file, now, pattern, access, defaults, d, bound)
    decreases pattern
  {
    hide Settled, Eval, Leads, Taken, AccessOf, DefaultOf, FrozenPart, ElementKept;
    if !pattern.Bind? {
      forall i | 0 <= i < |pattern.elements| && pattern.elements[i].Element?
        && Leads(pattern, i, access, defaults, bound)
        ensures ElementKept(run, FrozenPart(s), file, now, pattern, i, access, defaults, d, bound)
      {
        ElementFrozen(run, s, file, now, pattern, i, access, defaults, d, bound);
      }
    }
  }

  lemma {:induction false} ElementFrozen(run: Run, s: iset<Item>, file: string, now: Term, pattern: Pattern, i: nat,
                                         access: seq<Access>, defaults: seq<Default>, d: Datum, bound: Bound)
    requires !pattern.Bind? && i < |pattern.elements| && pattern.elements[i].Element?
    requires ElementKept(run, s, file, now, pattern, i, access, defaults, d, bound) && ThroughPattern(pattern)
    ensures ElementKept(run, FrozenPart(s), file, now, pattern, i, access, defaults, d, bound)
    decreases pattern, 0
  {
    hide Settled, Eval, Taken, AccessOf, DefaultOf, PathKept, Through;
    var e, taken := pattern.elements[i], Taken(run, file, now, pattern, i, d);
    forall key | Settled(run, s, d, key) ensures Settled(run, FrozenPart(s), d, key) {
      SettledFrozen(run, s, d, key);
    }
    if taken.Some? {
      PathFrozen(run, s, file, now, e.sub, access + [AccessOf(pattern, i)], defaults + DefaultOf(e, |access| + 1),
                 taken.value, bound);
    }
  }

  lemma KeyFrozen(run: Run, s: iset<Item>, k: Key)
    requires KeyKept(run, s, k) && ThroughProgram(run.p)
    ensures KeyKept(run, FrozenPart(s), k)
  {
    hide Eval, Through, ThroughPattern, PathKept, Binds, NamesOf, M.Global, Holds, Same, Provides;
    if k.Named? && (k.file, k.name) in run.p.locals && run.p.locals[(k.file, k.name)].Const? {
      var local := run.p.locals[(k.file, k.name)];
      PathFrozen(run, s, k.file, local.init, local.pattern, [], [], Eval(run, k.file, local.init).value, local.bound);
    }
  }

  /** In a program whose frozen literals are frozen all the way, nothing depends on what the run writes. */
  lemma WritesDoNotMatter(run: Run, s: iset<Item>)
    requires Real(run, s) && ThroughProgram(run.p)
    ensures Of(run, FrozenPart(s), run.p, run.ops)
    ensures forall k :: Def(k) in s ==> Def(k) in FrozenPart(s)
  {
    hide KeyKept, TermKept, Through, ThroughParts, ThroughProgram, Find;
    forall item | item in FrozenPart(s) ensures Kept(run, FrozenPart(s), item) {
      assert Kept(run, s, item);
      match item {
        case Def(k) => KeyFrozen(run, s, k);
        case At(file, t) => TermFrozen(run, s, file, t);
        case In(_, _) =>
      }
    }
    forall file, t, key | In(file, t) in FrozenPart(s) && IsLiteral(t)
      ensures InnerUnwritten(run, FrozenPart(s), file, Find(run.ops, t, key))
    {
      FoundIsFrozen(run.ops, t, key);
    }
  }
}
