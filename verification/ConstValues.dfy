/**
 * The evaluator itself: a primitive it answers is the value the name has in every run of the promise, it answers
 * with enough fuel, and it never does where looking into literals goes round.
 */
module ConstValues {
  import opened Options
  import opened ConstTerms
  import opened ConstFolding
  import opened ConstPromise
  import opened ConstSound
  import opened ConstFuel
  import opened ConstLoops
  import opened ConstExposed
  import opened ConstWorth
  import opened ConstComplete
  import M = ModuleState

  /**
   * The answer where it does not depend on other names: a literal's own text, its length, and undefined for
   * nothing.
   */
  predicate Answers(file: string, found: Found, r: Option<Verdict>) {
    match found
    case Value(t) =>
      && (t.Lit? ==> r == Some(Verdict.Prim(t.p)))
      && (IsLiteral(t) ==> r == Some(OfLiteral(file, t)))
      && (IsFrozenLiteral(t) && r.Some? ==> r.value == OfLiteral(file, t.t))
    case Length(n) => r == Some(Verdict.Prim(M.Num(n)))
    case Absent => r == Some(Verdict.Prim(M.Undefined))
    case _ => true
  }

  /** What was found in the literal leads to no end. */
  ghost predicate EndlessFound(p: Program, ops: Ops, visiting: set<Key>, file: string, found: Found) {
    found.Value? && Endless(p, ops, visiting, file, found.t)
  }

  /** The answer, if there is one, is this literal, if it is known. */
  predicate IsSource(file: string, source: Option<Term>, r: Option<Verdict>) {
    source.Some? && r.Some? ==> r.value == OfLiteral(file, source.value)
  }

  function LiteralKey(p: Program, k: Key): Option<Term> {
    if k.Named? then LiteralConst(p, k.file, k.name) else None
  }

  /** The definition has to be evaluated, and its initializer leads to no end. */
  ghost predicate EndlessKey(p: Program, ops: Ops, visiting: set<Key>, k: Key) {
    && k.Named? && (k.file, k.name) in p.locals && p.locals[(k.file, k.name)].Const?
    && Endless(p, ops, visiting, k.file, p.locals[(k.file, k.name)].init)
  }

  lemma EndlessMember(p: Program, ops: Ops, visiting: set<Key>, file: string, t: Term)
    requires t.Member? && Endless(p, ops, visiting, file, t)
    ensures Endless(p, ops, visiting, file, t.owner) || EndlessOwner(p, ops, visiting, file, t.owner, t.key)
  {
    hide Source, Find, GoesRound;
    EndlessGoesOn(p, ops, visiting, file, t);
  }

  ghost predicate EndlessOwner(p: Program, ops: Ops, visiting: set<Key>, file: string, owner: Term, key: string) {
    var source := Source(p, ops, visiting, file, owner);
    source.Some? && IsLiteral(source.value) && EndlessFound(p, ops, visiting, file, Find(ops, source.value, key))
  }

  lemma EndlessIndex(p: Program, ops: Ops, visiting: set<Key>, file: string, t: Term)
    requires t.Index? && Endless(p, ops, visiting, file, t)
    ensures Endless(p, ops, visiting, file, t.at) || (t.at.Lit? &&
      (Endless(p, ops, visiting, file, t.owner) || EndlessOwner(p, ops, visiting, file, t.owner, ops.text(t.at.p))))
  {
    hide Source, Find, GoesRound;
    EndlessGoesOn(p, ops, visiting, file, t);
  }

  ghost predicate EndlessOperand(p: Program, ops: Ops, visiting: set<Key>, file: string, t: Term) {
    match t
    case Cond(c, yes, no) =>
      || Endless(p, ops, visiting, file, c) || Endless(p, ops, visiting, file, yes)
      || Endless(p, ops, visiting, file, no)
    case Unary(_, operand) => Endless(p, ops, visiting, file, operand)
    case Binary(_, l, r) => Endless(p, ops, visiting, file, l) || Endless(p, ops, visiting, file, r)
    case Template(_, spans) => spans != [] && Endless(p, ops, visiting, file, spans[0].t)
    case Immutable(inner) => !IsLiteral(inner) && Endless(p, ops, visiting, file, inner)
    case _ => false
  }

  lemma EndlessParts(p: Program, ops: Ops, visiting: set<Key>, file: string, t: Term)
    requires Endless(p, ops, visiting, file, t)
    ensures t.Member? || t.Index? || EndlessOperand(p, ops, visiting, file, t)
  {
    hide Source, Find, GoesRound;
    EndlessGoesOn(p, ops, visiting, file, t);
  }

  /** None is the answer when the evaluation is nested deeper than the fuel allows. */
  class Evaluator {
    const p: Program
    const ops: Ops
    var cache: map<Key, Verdict>
    var visiting: set<Key>

    ghost predicate Valid()
      reads this
    {
      forall k :: k in cache ==> Cached(k, cache[k])
    }

    ghost predicate Cached(k: Key, v: Verdict) {
      && SoundKey(p, ops, k, v) && KeyFlow(p, ops, k, v)
      && (LiteralKey(p, k).Some? ==> v == OfLiteral(k.file, LiteralKey(p, k).value))
    }

    constructor (p: Program, ops: Ops)
      ensures Valid() && this.p == p && this.ops == ops && cache == map[] && visiting == {}
    {
      this.p, this.ops := p, ops;
      cache, visiting := map[], {};
    }

    method Guarded(k: Key, fuel: nat) returns (r: Option<Verdict>)
      requires Valid()
      modifies this
      ensures Valid() && (r.Some? ==> SoundKey(p, ops, k, r.value) && KeyFlow(p, ops, k, r.value))
      ensures r.Some? ==> visiting == old(visiting)
      ensures KeyFuel(p, ops, old(visiting), k, fuel) ==> r.Some?
      ensures k !in old(visiting) ==> IsSource(k.file, LiteralKey(p, k), r)
      ensures k !in old(cache) && k !in old(visiting) && EndlessKey(p, ops, old(visiting) + {k}, k) ==> r.None?
      ensures Asked(p, ops, old(cache), old(visiting), cache, Def(k), fuel, r)
      decreases fuel, 2
    {
      hide SoundKey, KeyFlow, KeyFuel, DefinitionFuel, Endless, Asked, Solved;
      if KeyFuel(p, ops, visiting, k, fuel) {
        KeyToDefinition(p, ops, visiting, k, fuel);
      }
      if k in cache {
        CachedAsked(p, ops, cache, visiting, k, fuel);
        return Some(cache[k]);
      }
      if k in visiting {
        RefusedKey(p, ops, k, State);
        PlainFlows(p, ops, "", Lit(M.Null), k, State);
        VisitedAsked(p, ops, cache, visiting, k, fuel, State);
        return Some(State);
      }
      if fuel == 0 {
        NoFuel(p, ops, cache, visiting, Def(k));
        SolvedIsAsked(p, ops, cache, visiting, cache, Def(k), 0, None);
        return None;
      }
      visiting := visiting + {k};
      match k {
        case Named(file, name) => r := NamedValue(file, name, fuel - 1);
        case Exported(file, name) => r := ExportedValue(file, name, fuel - 1);
      }
      VisitAsked(p, ops, old(cache), old(visiting), cache, k, fuel, r);
      if r.Some? {
        visiting := visiting - {k};
        cache := cache[k := r.value];
      }
    }

    method ExportedValue(file: string, name: string, fuel: nat) returns (r: Option<Verdict>)
      requires Valid()
      modifies this
      ensures Valid()
      ensures r.Some? ==>
        SoundKey(p, ops, M.Exported(file, name), r.value) && KeyFlow(p, ops, M.Exported(file, name), r.value)
      ensures r.Some? ==> visiting == old(visiting)
      ensures DefinitionFuel(p, ops, old(visiting), M.Exported(file, name), fuel) ==> r.Some?
      ensures Solved(p, ops, old(cache), old(visiting), cache, Def(M.Exported(file, name)), fuel + 1, r)
      decreases fuel, 4
    {
      hide SoundKey, SoundTerm, KeyFlow, TermFlow, KeyFuel, DefinitionFuel, TermFuel,
        Asked, Solved, Steady, PartOf, Known, Scarce, Due;
      var k := M.Exported(file, name);
      if DefinitionFuel(p, ops, visiting, k, fuel) {
        DefinitionToExport(p, ops, visiting, file, name, fuel);
      }
      SteadyAtFirst(p, ops, cache, visiting, Def(k));
      if (file, name) !in p.exports {
        r := StarredValue(file, name, fuel);
        return;
      }
      match p.exports[(file, name)] {
        case FromFile(source, exported) =>
          if source.None? {
            if ExposedKey(p, k) {
              ExposedExport(p, file, name);
            }
            RefusedKey(p, ops, k, Safe);
            PlainFlows(p, ops, "", Lit(M.Null), k, Safe);
            ExternalDue(p, ops, cache, visiting, file, name);
            DueIsSolved(p, ops, cache, visiting, cache, Def(k), fuel + 1, Safe);
            return Some(Safe);
          }
          NextPart(p, ops, cache, visiting, k);
          r := Guarded(M.Onward(file, source.value, exported), fuel);
          NextSolved(p, ops, old(cache), old(visiting), cache, k, fuel, r);
          if r.Some? {
            OnwardKey(p, ops, file, name, r.value);
            OnwardFlow(p, ops, file, name, r.value);
          }
        case Standard(t) =>
          StandardPart(p, ops, cache, visiting, file, name);
          r := Expression(file, t, fuel);
          StandardSolved(p, ops, old(cache), old(visiting), cache, file, name, fuel, r);
          if r.Some? {
            StandardKey(p, ops, file, name, r.value);
            StandardFlow(p, ops, file, name, r.value);
          }
      }
    }

    /** The first answer of a module re-exported with a star that is no refusal. */
    method StarredValue(file: string, name: string, fuel: nat) returns (r: Option<Verdict>)
      requires Valid() && (file, name) !in p.exports
      modifies this
      ensures Valid()
      ensures r.Some? ==>
        SoundKey(p, ops, M.Exported(file, name), r.value) && KeyFlow(p, ops, M.Exported(file, name), r.value)
      ensures r.Some? ==> visiting == old(visiting)
      ensures (file in p.stars ==> forall target :: target in p.stars[file] && Tried(p, target, name) ==>
                KeyFuel(p, ops, old(visiting), M.Exported(target, name), fuel)) ==> r.Some?
      ensures Solved(p, ops, old(cache), old(visiting), cache, Def(M.Exported(file, name)), fuel + 1, r)
      decreases fuel, 3
    {
      hide SoundKey, KeyFlow, KeyFuel, Asked, Solved, Steady, PartOf, Known, Scarce, Due, StarsRefused;
      var k := M.Exported(file, name);
      RefusedKey(p, ops, k, State);
      PlainFlows(p, ops, "", Lit(M.Null), k, State);
      SteadyAtFirst(p, ops, cache, visiting, Def(k));
      if file !in p.stars {
        StarsDue(p, ops, cache, visiting, file, name);
        DueIsSolved(p, ops, cache, visiting, cache, Def(k), fuel + 1, State);
        return Some(State);
      }
      var targets := p.stars[file];
      NoStarsYet(p, ops, cache, visiting, k, targets);
      for i := 0 to |targets|
        invariant Valid() && visiting == old(visiting)
        invariant Steady(p, ops, old(cache), visiting, cache, Def(k))
        invariant StarsRefused(p, ops, old(cache), visiting, k, targets, i)
      {
        if Tried(p, targets[i], name) {
          var next := M.Exported(targets[i], name);
          ghost var before := cache;
          StarPart(p, ops, old(cache), visiting, file, name, targets[i]);
          r := Guarded(next, fuel);
          PartAsked(p, ops, old(cache), old(visiting), before, cache, Def(k), Def(next), fuel, r);
          if r.None? {
            NotEnough(p, ops, old(cache), old(visiting), cache, Def(k), fuel + 1, fuel + 2);
            return;
          }
          if r.value != State {
            StarFoundDue(p, ops, old(cache), visiting, file, name, i, r.value);
            DueIsSolved(p, ops, old(cache), visiting, cache, Def(k), fuel + 1, r.value);
            StarredKey(p, ops, file, name, targets[i], r.value);
            StarredFlow(p, ops, file, name, targets[i], r.value);
            return;
          }
        }
        StarSkipped(p, ops, old(cache), visiting, k, targets, i);
      }
      StarsDue(p, ops, old(cache), visiting, file, name);
      DueIsSolved(p, ops, old(cache), visiting, cache, Def(k), fuel + 1, State);
      return Some(State);
    }

    method NamedValue(file: string, name: string, fuel: nat) returns (r: Option<Verdict>)
      requires Valid()
      modifies this
      ensures Valid()
      ensures r.Some? ==>
        SoundKey(p, ops, M.Named(file, name), r.value) && KeyFlow(p, ops, M.Named(file, name), r.value)
      ensures r.Some? ==> visiting == old(visiting)
      ensures DefinitionFuel(p, ops, old(visiting), M.Named(file, name), fuel) ==> r.Some?
      ensures IsSource(file, LiteralConst(p, file, name), r)
      ensures EndlessKey(p, ops, old(visiting), M.Named(file, name)) ==> r.None?
      ensures Solved(p, ops, old(cache), old(visiting), cache, Def(M.Named(file, name)), fuel + 1, r)
      decreases fuel, 3
    {
      hide ExposedKey, SoundKey, SoundPath, KeyFlow, PathFlow, KeyFuel, DefinitionFuel, PathFuel, Endless,
        Asked, Solved, Steady, PartOf, Known, Scarce, Due;
      var k := M.Named(file, name);
      SteadyAtFirst(p, ops, cache, visiting, Def(k));
      if (file, name) !in p.locals {
        GlobalKey(p, ops, file, name);
        PlainFlows(p, ops, "", Lit(M.Null), k, GlobalVerdict(name));
        GlobalDue(p, ops, cache, visiting, file, name);
        DueIsSolved(p, ops, cache, visiting, cache, Def(k), fuel + 1, GlobalVerdict(name));
        return Some(GlobalVerdict(name));
      }
      if DefinitionFuel(p, ops, visiting, k, fuel) {
        DefinitionToLocal(p, ops, visiting, file, name, fuel);
      }
      if ExposedKey(p, k) {
        ExposedLocal(p, file, name);
      } else {
        RefusedKey(p, ops, k, Safe);
      }
      RefusedKey(p, ops, k, State);
      PlainFlows(p, ops, "", Lit(M.Null), k, Safe);
      PlainFlows(p, ops, "", Lit(M.Null), k, State);
      if IsPlainLocal(p.locals[(file, name)]) {
        LocalDue(p, ops, cache, visiting, file, name);
        DueIsSolved(p, ops, cache, visiting, cache, Def(k), fuel + 1, PlainLocal(p.locals[(file, name)]));
      }
      match p.locals[(file, name)] {
        case Const(_, init, bound) =>
          r := ConstValue(file, init, bound, fuel, name);
          if r.Some? {
            PathEnds(p, ops, file, name, r.value);
            PathFlowEnds(p, ops, file, name, r.value);
          }
        case Import(source, exported) =>
          if source.None? {
            return Some(Safe);
          }
          NextPart(p, ops, cache, visiting, k);
          r := Guarded(M.Exported(source.value, exported), fuel);
          NextSolved(p, ops, old(cache), old(visiting), cache, k, fuel, r);
          if r.Some? {
            ForwardKey(p, ops, file, name, r.value);
            ForwardFlow(p, ops, file, name, r.value);
          }
        case Star(source) =>
          if source.None? {
            return Some(Safe);
          }
          StarKey(p, ops, file, name);
          StarFlow(p, ops, file, name);
          return Some(OfModule(source.value));
        case Declared => return Some(Safe);
        case Mutable => return Some(State);
      }
    }

    /** The initializer, then one access after the other, each with the defaults of its depth. */
    method ConstValue(file: string, init: Term, bound: Bound, fuel: nat, ghost name: string)
      returns (r: Option<Verdict>)
      requires Valid()
      modifies this
      ensures Valid() && (r.Some? ==> SoundPath(p, ops, file, init, bound, |bound.access|, r.value))
      ensures r.Some? ==> PathFlow(p, ops, file, init, bound, |bound.access|, r.value)
      ensures r.Some? ==> visiting == old(visiting)
      ensures PathFuel(p, ops, old(visiting), file, init, bound, fuel) ==> r.Some?
      ensures bound.access == [] && IsFrozenLiteral(init) ==> IsSource(file, Some(init.t), r)
      ensures Endless(p, ops, old(visiting), file, init) ==> r.None?
      ensures IsBound(p, Def(M.Named(file, name)), file, init, bound) ==>
        Solved(p, ops, old(cache), old(visiting), cache, Def(M.Named(file, name)), fuel + 1, r)
      decreases fuel, 1
    {
      hide SoundKey, SoundTerm, SoundPath, SoundCross, SoundFill, TermFlow, CrossFlow, PathFlow, TermFuel, CrossFuel,
        PathFuel, FilledVerdict, Endless, Asked, Solved, Steady, PartOf, Known, Scarce, Due, PathKnown, CrossReady,
        CrossedAs, FillReady, FilledAs, RefusedDepth, IsBound;
      ghost var item := Def(M.Named(file, name));
      if PathFuel(p, ops, visiting, file, init, bound, fuel) {
        PathToInit(p, ops, visiting, file, init, bound, fuel);
      }
      r := Expression(file, init, fuel);
      if IsBound(p, item, file, init, bound) {
        InitSolved(p, ops, old(cache), old(visiting), cache, item, file, init, bound, fuel, r);
      }
      if r.None? {
        return;
      }
      var value := r.value;
      PathStarts(p, ops, file, init, bound, value);
      PathFlowStarts(p, ops, file, init, bound, value);
      for k := 0 to |bound.access|
        invariant Valid() && visiting == old(visiting) && SoundPath(p, ops, file, init, bound, k, value)
        invariant PathFlow(p, ops, file, init, bound, k, value) && (bound.access == [] ==> r == Some(value))
        invariant IsBound(p, item, file, init, bound) ==>
          Steady(p, ops, old(cache), visiting, cache, item) &&
          PathKnown(p, ops, old(cache), visiting, item, file, init, bound, k, value)
      {
        if PathFuel(p, ops, visiting, file, init, bound, fuel) {
          PathToStep(p, ops, visiting, file, init, bound, k, value, fuel);
        }
        if IsBound(p, item, file, init, bound) {
          StepReady(p, ops, old(cache), visiting, item, file, init, bound, k, value);
          StepFill(p, ops, old(cache), visiting, item, file, init, bound, k);
        }
        var first := Cross(file, value, bound.access[k], fuel, item, old(cache));
        if first.None? {
          if IsBound(p, item, file, init, bound) {
            CrossStopped(p, ops, old(cache), old(visiting), cache, item, file, value, bound.access[k], fuel);
          }
          return None;
        }
        var filled := Fill(file, init, bound, k, value, first.value, fuel, item, old(cache));
        if filled.None? {
          if IsBound(p, item, file, init, bound) {
            NotEnough(p, ops, old(cache), old(visiting), cache, item, fuel + 1, fuel + 2);
          }
          return None;
        }
        if filled.value.1 {
          if IsBound(p, item, file, init, bound) {
            PathRefusedDue(p, ops, old(cache), visiting, item, file, init, bound, k);
            DueIsSolved(p, ops, old(cache), visiting, cache, item, fuel + 1, State);
          }
          RefusedPath(p, ops, file, init, bound);
          PlainPath(p, ops, file, init, bound, |bound.access|, State);
          return Some(State);
        }
        PathStep(p, ops, file, init, bound, k, value, first.value, filled.value.0);
        if IsBound(p, item, file, init, bound) {
          PathNext(p, ops, old(cache), visiting, item, file, init, bound, k, value, first.value, fuel, filled.value.0);
        }
        value := filled.value.0;
      }
      if IsBound(p, item, file, init, bound) {
        PathDue(p, ops, old(cache), visiting, item, file, init, bound, value);
        DueIsSolved(p, ops, old(cache), visiting, cache, item, fuel + 1, value);
      }
      return Some(value);
    }

    /** The defaults of the access at k, one after the other; a refused default refuses the name. */
    method Fill(file: string, init: Term, bound: Bound, k: nat, owner: Verdict, first: Verdict, fuel: nat,
                ghost item: Item, ghost c: Cache)
      returns (r: Option<(Verdict, bool)>)
      requires Valid() && k < |bound.access|
      requires PathFlow(p, ops, file, init, bound, k, owner) && CrossFlow(p, ops, file, owner, bound.access[k], first)
      modifies this
      ensures Valid() && (r.Some? ==> visiting == old(visiting))
      ensures r.Some? && !r.value.1 ==>
        var fallbacks := DefaultsAt(bound.defaults, k + 1);
        && SoundFill(p, ops, file, fallbacks, first, |fallbacks|, r.value.0)
        && PathFlow(p, ops, file, init, bound, k + 1, r.value.0)
      ensures var fallbacks := DefaultsAt(bound.defaults, k + 1);
        (forall i :: 0 <= i < |fallbacks| ==> TermFuel(p, ops, old(visiting), file, fallbacks[i], fuel)) ==> r.Some?
      ensures var fallbacks := DefaultsAt(bound.defaults, k + 1);
        (Steady(p, ops, c, old(visiting), old(cache), item) &&
         FillReady(p, ops, c, old(visiting), item, file, fallbacks)) ==>
        (Steady(p, ops, c, old(visiting), cache, item) &&
         (r.None? ==> Scarce(p, ops, c, old(visiting), item, fuel + 2)) &&
         (r.Some? && r.value.1 ==> RefusedDepth(p, ops, c, old(visiting), item, file, bound, k)) &&
         (r.Some? && !r.value.1 ==>
            FilledAs(p, ops, c, old(visiting), item, file, fallbacks, first, |fallbacks|, r.value.0)))
      decreases fuel, 0, 3
    {
      hide SoundTerm, SoundFill, TermFlow, CrossFlow, PathFlow, TermFuel, DefaultsAt, Asked, Solved, Steady, PartOf,
        Known, Scarce, FilledAs, RefusedDepth;
      var fallbacks, filled := DefaultsAt(bound.defaults, k + 1), first;
      ghost var ready := Steady(p, ops, c, visiting, cache, item)
        && FillReady(p, ops, c, visiting, item, file, fallbacks);
      FillStarts(p, ops, file, fallbacks, filled);
      NothingFilled(p, ops, c, visiting, item, file, fallbacks, filled);
      PathFlowSteps(p, ops, file, init, bound, k, owner, filled);
      for i := 0 to |fallbacks|
        invariant Valid() && visiting == old(visiting)
        invariant SoundFill(p, ops, file, fallbacks, first, i, filled)
        invariant PathFlow(p, ops, file, init, bound, k + 1, filled)
        invariant ready ==> Steady(p, ops, c, visiting, cache, item)
        invariant ready ==> FilledAs(p, ops, c, visiting, item, file, fallbacks, first, i, filled)
      {
        ghost var before := cache;
        var alternative := Expression(file, fallbacks[i], fuel);
        if ready {
          SolvedIsAsked(p, ops, before, old(visiting), cache, At(file, fallbacks[i]), fuel, alternative);
          PartAsked(p, ops, c, old(visiting), before, cache, item, At(file, fallbacks[i]), fuel, alternative);
        }
        if alternative.None? {
          assert !TermFuel(p, ops, old(visiting), file, DefaultsAt(bound.defaults, k + 1)[i], fuel);
          return None;
        }
        if alternative.value == State {
          if ready {
            OneRefused(p, ops, c, visiting, item, file, bound, k, i);
          }
          return Some((State, true));
        }
        if ready {
          OneFilled(p, ops, c, visiting, item, file, fallbacks, first, i, filled, alternative.value);
        }
        FillNext(p, ops, file, fallbacks, first, i, filled, alternative.value);
        PathFlowFills(p, ops, file, init, bound, k, i, filled, alternative.value);
        if filled == Verdict.Prim(M.Undefined) {
          filled := alternative.value;
        }
      }
      return Some((filled, false));
    }

    method Cross(file: string, owner: Verdict, access: Access, fuel: nat, ghost item: Item, ghost c: Cache)
      returns (r: Option<Verdict>)
      requires Valid()
      modifies this
      ensures Valid() && (r.Some? ==> SoundCross(p, ops, file, owner, access, r.value))
      ensures r.Some? ==> CrossFlow(p, ops, file, owner, access, r.value)
      ensures r.Some? ==> visiting == old(visiting)
      ensures CrossFuel(p, ops, old(visiting), file, owner, access, fuel) ==> r.Some?
      ensures (Steady(p, ops, c, old(visiting), old(cache), item) &&
               CrossReady(p, ops, c, old(visiting), item, file, owner, access)) ==>
        (Steady(p, ops, c, old(visiting), cache, item) &&
         CrossedAs(p, ops, c, old(visiting), item, file, owner, access, fuel, r))
      decreases fuel, 0, 2
    {
      hide SoundKey, SoundTerm, SoundMember, SoundCross, TermFlow, MemberFlow, CrossFlow, TermFuel, MemberFuel,
        Asked, Solved, Steady, PartOf, Known, Scarce, LookReady, LookedAs, CrossReady, CrossedAs;
      ghost var ready := Steady(p, ops, c, visiting, cache, item)
        && CrossReady(p, ops, c, visiting, item, file, owner, access);
      match access {
        case Static(key) =>
          if ready {
            CrossLook(p, ops, c, visiting, item, file, owner, access, key);
          }
          r := Member(owner, key, fuel, item, c);
          if ready {
            CrossDone(p, ops, c, old(visiting), item, file, owner, access, key, fuel, r);
          }
          if r.Some? {
            StaticCross(p, ops, file, owner, key, r.value);
            CrossFlows(p, ops, file, owner, access, key, r.value);
          }
        case Dynamic(at) =>
          if ready {
            CrossPart(p, ops, c, visiting, item, file, owner, access);
          }
          var key := Expression(file, at, fuel);
          if ready {
            SolvedIsAsked(p, ops, old(cache), old(visiting), cache, At(file, at), fuel, key);
            PartAsked(p, ops, c, old(visiting), old(cache), cache, item, At(file, at), fuel, key);
          }
          if key.None? {
            if ready {
              CrossShort(p, ops, c, old(visiting), item, file, owner, access, fuel);
            }
            return None;
          }
          if !key.value.Prim? {
            if ready {
              CrossRefused(p, ops, c, visiting, item, file, owner, access, key.value, fuel);
            }
            RefusedCross(p, ops, file, owner, access);
            PlainCross(p, ops, file, owner, access, State);
            return Some(State);
          }
          if ready {
            assert KeyKnown(p, ops, c, visiting, item, file, at, ops.text(key.value.p));
            CrossLook(p, ops, c, visiting, item, file, owner, access, ops.text(key.value.p));
          }
          r := Member(owner, ops.text(key.value.p), fuel, item, c);
          if ready {
            CrossDone(p, ops, c, old(visiting), item, file, owner, access, ops.text(key.value.p), fuel, r);
          }
          if r.Some? {
            DynamicCross(p, ops, file, owner, at, key.value.p, r.value);
            CrossFlows(p, ops, file, owner, access, ops.text(key.value.p), r.value);
          }
      }
    }

    method Member(owner: Verdict, key: string, fuel: nat, ghost item: Item := In("", Lit(M.Null)),
                  ghost c: Cache := map[]) returns (r: Option<Verdict>)
      requires Valid()
      modifies this
      ensures Valid() && (r.Some? ==> SoundMember(p, ops, owner, key, r.value))
      ensures r.Some? ==> MemberFlow(p, ops, owner, key, r.value)
      ensures owner.OfLiteral? && IsLiteral(owner.t) && fuel > 0 ==> Answers(owner.file, Find(ops, owner.t, key), r)
      ensures owner.OfLiteral? && fuel == 0 ==> r.None?
      ensures r.Some? ==> visiting == old(visiting)
      ensures MemberFuel(p, ops, old(visiting), owner, key, fuel) ==> r.Some?
      ensures owner.OfLiteral? && IsLiteral(owner.t) ==>
        EndlessFound(p, ops, old(visiting), owner.file, Find(ops, owner.t, key)) ==> r.None?
      ensures (Steady(p, ops, c, old(visiting), old(cache), item) &&
               LookReady(p, ops, c, old(visiting), item, owner, key)) ==>
        (Steady(p, ops, c, old(visiting), cache, item) &&
         LookedAs(p, ops, c, old(visiting), item, owner, key, fuel, r))
      decreases fuel, 0, 0
    {
      hide SoundKey, SoundMember, SoundFound, KeyFlow, MemberFlow, FoundFlow, KeyFuel, MemberFuel, FoundFuel, Find,
        Answers, EndlessFound, Asked, Solved, Steady, PartOf, Known, Scarce, LookReady, LookedAs, FoundReady, FoundAs;
      ghost var ready := Steady(p, ops, c, visiting, cache, item) && LookReady(p, ops, c, visiting, item, owner, key);
      LookedPlain(p, ops, c, visiting, item, owner, key, fuel);
      if ready && fuel == 0 {
        LookedNoFuel(p, ops, c, visiting, item, owner, key);
      }
      if MemberFuel(p, ops, visiting, owner, key, fuel) {
        MemberToFound(p, ops, visiting, owner, key, fuel);
      }
      match owner {
        case State =>
          RefusedMember(p, ops, owner, key, State);
          PlainMember(p, ops, owner, key, State);
          return Some(State);
        case Safe =>
          RefusedMember(p, ops, owner, key, Safe);
          PlainMember(p, ops, owner, key, Safe);
          return Some(Safe);
        case Prim(q) =>
          MemberOfPrimitive(p, ops, q, key);
          var v := if key == "length" && q.Text? then Verdict.Prim(M.Num(|q.s|)) else Safe;
          PlainMember(p, ops, owner, key, v);
          return Some(v);
        case OfModule(file) =>
          if fuel == 0 {
            return None;
          }
          if ready {
            ModuleReady(p, ops, c, visiting, item, file, key);
          }
          r := Guarded(M.Exported(file, key), fuel - 1);
          if ready {
            PartAsked(p, ops, c, old(visiting), old(cache), cache, item, Def(M.Exported(file, key)), fuel - 1, r);
            ModuleLooked(p, ops, c, old(visiting), item, file, key, fuel, r);
          }
          if r.Some? {
            MemberOfModule(p, ops, file, key, r.value);
            ModuleFlow(p, ops, file, key, r.value);
          }
        case OfLiteral(file, t) =>
          if fuel == 0 {
            return None;
          }
          if !IsLiteral(t) {
            RefusedMember(p, ops, owner, key, Safe);
            PlainMember(p, ops, owner, key, Safe);
            return Some(Safe);
          }
          if ready {
            LiteralReady(p, ops, c, visiting, item, file, t, key);
          }
          r := FoundValue(file, Find(ops, t, key), fuel - 1, item, c);
          if ready {
            LiteralLooked(p, ops, c, old(visiting), item, file, t, key, fuel, r);
          }
          if r.Some? {
            MemberOfLiteral(p, ops, file, t, key, r.value);
            LiteralMemberFlow(p, ops, file, t, key, r.value);
          }
      }
    }

    method FoundValue(file: string, found: Found, fuel: nat, ghost item: Item, ghost c: Cache)
      returns (r: Option<Verdict>)
      requires Valid()
      modifies this
      ensures Valid() && (r.Some? ==> SoundFound(p, ops, file, found, r.value))
      ensures r.Some? ==> FoundFlow(p, ops, file, found, r.value)
      ensures Answers(file, found, r)
      ensures r.Some? ==> visiting == old(visiting)
      ensures FoundFuel(p, ops, old(visiting), file, found, fuel) ==> r.Some?
      ensures EndlessFound(p, ops, old(visiting), file, found) ==> r.None?
      ensures (Steady(p, ops, c, old(visiting), old(cache), item) &&
               FoundReady(p, ops, c, old(visiting), item, file, found)) ==>
        (Steady(p, ops, c, old(visiting), cache, item) &&
         FoundAs(p, ops, c, old(visiting), item, file, found, fuel, r))
      decreases fuel, 3
    {
      hide Of, SoundKey, SoundTerm, KeyFlow, TermFlow, FoundFlow, KeyFuel, TermFuel, Endless, Asked, Solved,
        Steady, PartOf, Known, Scarce, FoundReady, FoundAs;
      ghost var ready := Steady(p, ops, c, visiting, cache, item)
        && FoundReady(p, ops, c, visiting, item, file, found);
      FoundPlain(p, ops, c, visiting, item, file, found, fuel);
      if ready && FoundItem(file, found).Some? {
        FoundPart(p, ops, c, visiting, item, file, found);
      }
      match found {
        case Value(t) =>
          r := Expression(file, t, fuel);
          if ready && !IsLiteral(t) {
            SolvedIsAsked(p, ops, old(cache), old(visiting), cache, At(file, t), fuel, r);
            PartAsked(p, ops, c, old(visiting), old(cache), cache, item, At(file, t), fuel, r);
            FoundAnswer(p, ops, c, old(visiting), item, file, found, fuel, r);
          }
          if r.Some? {
            FoundTerm(p, ops, file, t, r.value);
            FoundTermFlow(p, ops, file, t, r.value);
            if r.value == State {
              r := Some(if IsLiteral(t) then OfLiteral(file, t) else Safe);
            }
          }
        case Binding(name) =>
          r := Guarded(M.Named(file, name), fuel);
          if ready {
            PartAsked(p, ops, c, old(visiting), old(cache), cache, item, Def(M.Named(file, name)), fuel, r);
            FoundAnswer(p, ops, c, old(visiting), item, file, found, fuel, r);
          }
          if r.Some? {
            FoundBinding(p, ops, file, name, r.value);
            FoundBindingFlow(p, ops, file, name, r.value);
            if r.value == State {
              PlainFound(p, ops, file, found, Safe);
              r := Some(Safe);
            }
          }
        case Length(n) =>
          PlainFound(p, ops, file, found, Verdict.Prim(M.Num(n)));
          return Some(Verdict.Prim(M.Num(n)));
        case Absent =>
          PlainFound(p, ops, file, found, Verdict.Prim(M.Undefined));
          return Some(Verdict.Prim(M.Undefined));
        case Unknown =>
          PlainFound(p, ops, file, found, Safe);
          return Some(Safe);
      }
    }

    method Expression(file: string, t: Term, fuel: nat) returns (r: Option<Verdict>)
      requires Valid()
      modifies this
      ensures Valid() && (r.Some? ==> SoundTerm(p, ops, file, t, r.value) && TermFlow(p, ops, file, t, r.value))
      ensures t.Lit? ==> r == Some(Verdict.Prim(t.p))
      ensures IsLiteral(t) ==> r == Some(State) && cache == old(cache)
      ensures IsFrozenLiteral(t) && fuel > 0 ==> r == Some(OfLiteral(file, t.t))
      ensures r.Some? ==> visiting == old(visiting)
      ensures TermFuel(p, ops, old(visiting), file, t, fuel) ==> r.Some?
      ensures IsSource(file, Source(p, ops, old(visiting), file, t), r)
      ensures Endless(p, ops, old(visiting), file, t) ==> r.None?
      ensures Solved(p, ops, old(cache), old(visiting), cache, At(file, t), fuel, r)
      decreases fuel, 0, 1
    {
      hide SoundKey, SoundTerm, SoundMember, SoundSpans, KeyFlow, TermFlow, MemberFlow, KeyFuel, TermFuel, OperandFuel,
        Endless, Find, FromSource, Asked, Solved, Steady, PartOf, Known, Scarce, Due;
      if IsPlain(t) {
        PlainDue(p, ops, cache, visiting, file, t, fuel);
      }
      if Endless(p, ops, visiting, file, t) {
        EndlessParts(p, ops, visiting, file, t);
      }
      match t {
        case Lit(q) =>
          LitTerm(p, ops, file, q);
          PlainFlows(p, ops, file, t, M.Named("", ""), Verdict.Prim(q));
          return Some(Verdict.Prim(q));
        case Opaque(_) =>
          RefusedTerm(p, ops, file, t, Safe);
          PlainFlows(p, ops, file, t, M.Named("", ""), Safe);
          return Some(Safe);
        case _ =>
      }
      if t.Other? || IsLiteral(t) {
        RefusedTerm(p, ops, file, t, State);
        PlainFlows(p, ops, file, t, M.Named("", ""), State);
        return Some(State);
      }
      if TermFuel(p, ops, visiting, file, t, fuel) {
        TermToParts(p, ops, visiting, file, t, fuel);
      }
      if fuel == 0 {
        NoFuel(p, ops, cache, visiting, At(file, t));
        return None;
      }
      if t.Immutable? {
        r := ImmutableValue(file, t.t, fuel - 1);
      } else if t.Ref? {
        SteadyAtFirst(p, ops, cache, visiting, At(file, t));
        NeededName(p, ops, cache, visiting, file, t);
        r := Guarded(M.Named(file, t.name), fuel - 1);
        NameSolved(p, ops, old(cache), old(visiting), cache, file, t, fuel, r);
        if r.Some? {
          RefTerm(p, ops, file, t, r.value);
          RefFlow(p, ops, file, t, r.value);
        }
      } else if t.Member? {
        r := MemberValue(file, t, fuel - 1);
      } else if t.Index? {
        r := IndexValue(file, t, fuel - 1);
      } else if t.Template? {
        r := TemplateText(file, t, fuel - 1);
      } else {
        r := Operation(file, t, fuel - 1);
      }
    }

    /** A frozen or const-asserted object or array stands for itself; of anything else only a primitive counts. */
    method ImmutableValue(file: string, t: Term, fuel: nat) returns (r: Option<Verdict>)
      requires Valid()
      modifies this
      ensures Valid()
      ensures r.Some? ==>
        SoundTerm(p, ops, file, Immutable(t), r.value) && TermFlow(p, ops, file, Immutable(t), r.value)
      ensures IsLiteral(t) ==> r == Some(OfLiteral(file, t))
      ensures r.Some? ==> visiting == old(visiting)
      ensures IsLiteral(t) || TermFuel(p, ops, old(visiting), file, t, fuel) ==> r.Some?
      ensures EndlessOperand(p, ops, old(visiting), file, Immutable(t)) ==> r.None?
      ensures Solved(p, ops, old(cache), old(visiting), cache, At(file, Immutable(t)), fuel + 1, r)
      decreases fuel, 3
    {
      hide SoundKey, SoundTerm, TermFlow, TermFuel, Endless, Asked, Solved, Steady, PartOf, Known, Scarce, Due;
      SteadyAtFirst(p, ops, cache, visiting, At(file, Immutable(t)));
      if IsLiteral(t) {
        LiteralTerm(p, ops, file, t);
        LiteralFlow(p, ops, file, t);
        PlainDue(p, ops, cache, visiting, file, Immutable(t), fuel + 1);
        return Some(OfLiteral(file, t));
      }
      NeededPart(p, ops, old(cache), visiting, file, Immutable(t), t);
      r := Expression(file, t, fuel);
      PartDone(p, ops, old(cache), old(visiting), old(cache), cache, file, Immutable(t), t, fuel, r);
      if r.Some? {
        ImmutableTerm(p, ops, file, t, r.value);
        PlainFlows(p, ops, file, Immutable(t), M.Named("", ""), OnlyPrimitive(r.value));
        ImmutableDue(p, ops, old(cache), visiting, file, t, r.value);
        r := Some(OnlyPrimitive(r.value));
        DueIsSolved(p, ops, old(cache), visiting, cache, At(file, Immutable(t)), fuel + 1, r.value);
      }
    }

    method MemberValue(file: string, t: Term, fuel: nat) returns (r: Option<Verdict>)
      requires Valid() && t.Member?
      modifies this
      ensures Valid() && (r.Some? ==> SoundTerm(p, ops, file, t, r.value) && TermFlow(p, ops, file, t, r.value))
      ensures r.Some? ==> visiting == old(visiting)
      ensures TermFuel(p, ops, old(visiting), file, t, fuel + 1) ==> r.Some?
      ensures IsSource(file, Source(p, ops, old(visiting), file, t), r)
      ensures Endless(p, ops, old(visiting), file, t) ==> r.None?
      ensures Solved(p, ops, old(cache), old(visiting), cache, At(file, t), fuel + 1, r)
      decreases fuel, 3
    {
      hide SoundTerm, SoundMember, TermFlow, MemberFlow, TermFuel, MemberFuel, Endless, Find, Asked, Solved,
        Steady, PartOf, Known, Scarce, Due, LookReady, LookedAs;
      SteadyAtFirst(p, ops, cache, visiting, At(file, t));
      if TermFuel(p, ops, visiting, file, t, fuel + 1) {
        TermToParts(p, ops, visiting, file, t, fuel + 1);
      }
      if Endless(p, ops, visiting, file, t) {
        EndlessMember(p, ops, visiting, file, t);
      }
      SourceIsLiteral(p, ops, visiting, file, t.owner);
      NeededPart(p, ops, old(cache), visiting, file, t, t.owner);
      var owner := Expression(file, t.owner, fuel);
      PartDone(p, ops, old(cache), old(visiting), old(cache), cache, file, t, t.owner, fuel, owner);
      if owner.None? {
        return None;
      }
      if TermFuel(p, ops, visiting, file, t, fuel + 1) {
        TermToMember(p, ops, visiting, file, t, t.key, owner.value, fuel + 1);
      }
      MemberReady(p, ops, old(cache), visiting, file, t, owner.value);
      r := Member(owner.value, t.key, fuel, At(file, t), old(cache));
      if r.None? {
        LookStopped(p, ops, old(cache), old(visiting), cache, At(file, t), owner.value, t.key, fuel);
      }
      if r.Some? {
        MemberDue(p, ops, old(cache), visiting, file, t, owner.value, fuel, r.value);
        DueIsSolved(p, ops, old(cache), visiting, cache, At(file, t), fuel + 1, r.value);
        MemberTerm(p, ops, file, t, owner.value, r.value);
        MemberTermFlow(p, ops, file, t, owner.value, r.value);
      }
    }

    method IndexValue(file: string, t: Term, fuel: nat) returns (r: Option<Verdict>)
      requires Valid() && t.Index?
      modifies this
      ensures Valid() && (r.Some? ==> SoundTerm(p, ops, file, t, r.value) && TermFlow(p, ops, file, t, r.value))
      ensures r.Some? ==> visiting == old(visiting)
      ensures TermFuel(p, ops, old(visiting), file, t, fuel + 1) ==> r.Some?
      ensures IsSource(file, Source(p, ops, old(visiting), file, t), r)
      ensures Endless(p, ops, old(visiting), file, t) ==> r.None?
      ensures Solved(p, ops, old(cache), old(visiting), cache, At(file, t), fuel + 1, r)
      decreases fuel, 3
    {
      hide SoundTerm, SoundMember, TermFlow, MemberFlow, TermFuel, MemberFuel, Endless, Find, Asked, Solved,
        Steady, PartOf, Known, Scarce, Due, LookReady, LookedAs;
      SteadyAtFirst(p, ops, cache, visiting, At(file, t));
      if TermFuel(p, ops, visiting, file, t, fuel + 1) {
        TermToParts(p, ops, visiting, file, t, fuel + 1);
      }
      if Endless(p, ops, visiting, file, t) {
        EndlessIndex(p, ops, visiting, file, t);
      }
      SourceIsLiteral(p, ops, visiting, file, t.owner);
      NeededPart(p, ops, old(cache), visiting, file, t, t.at);
      var key := Expression(file, t.at, fuel);
      PartDone(p, ops, old(cache), old(visiting), old(cache), cache, file, t, t.at, fuel, key);
      if key.None? {
        return None;
      }
      if !key.value.Prim? {
        RefusedTerm(p, ops, file, t, State);
        PlainFlows(p, ops, file, t, M.Named("", ""), State);
        IndexRefused(p, ops, old(cache), visiting, file, t, key.value);
        DueIsSolved(p, ops, old(cache), visiting, cache, At(file, t), fuel + 1, State);
        return Some(State);
      }
      IndexOwner(p, ops, old(cache), visiting, file, t, key.value.p);
      ghost var between := cache;
      var owner := Expression(file, t.owner, fuel);
      PartDone(p, ops, old(cache), old(visiting), between, cache, file, t, t.owner, fuel, owner);
      if owner.None? {
        return None;
      }
      var text := ops.text(key.value.p);
      if TermFuel(p, ops, visiting, file, t, fuel + 1) {
        TermToMember(p, ops, visiting, file, t, text, owner.value, fuel + 1);
      }
      IndexReady(p, ops, old(cache), visiting, file, t, key.value.p, owner.value);
      r := Member(owner.value, text, fuel, At(file, t), old(cache));
      if r.None? {
        LookStopped(p, ops, old(cache), old(visiting), cache, At(file, t), owner.value, text, fuel);
      }
      if r.Some? {
        IndexDue(p, ops, old(cache), visiting, file, t, key.value.p, owner.value, fuel, r.value);
        DueIsSolved(p, ops, old(cache), visiting, cache, At(file, t), fuel + 1, r.value);
        IndexTerm(p, ops, file, t, key.value.p, owner.value, r.value);
        IndexFlow(p, ops, file, t, text, owner.value, r.value);
      }
    }

    /** Stops at the first span that is no primitive. */
    method TemplateText(file: string, t: Term, fuel: nat) returns (r: Option<Verdict>)
      requires t.Template? && Valid()
      modifies this
      ensures Valid() && (r.Some? ==> SoundTerm(p, ops, file, t, r.value) && TermFlow(p, ops, file, t, r.value))
      ensures r.Some? ==> visiting == old(visiting)
      ensures (forall i :: 0 <= i < |t.spans| ==> TermFuel(p, ops, old(visiting), file, t.spans[i].t, fuel)) ==> r.Some?
      ensures EndlessOperand(p, ops, old(visiting), file, t) ==> r.None?
      ensures Solved(p, ops, old(cache), old(visiting), cache, At(file, t), fuel + 1, r)
      decreases fuel, 3
    {
      hide SoundKey, SoundTerm, SoundSpans, TermFlow, TermFuel, Endless, Asked, Solved, Steady, PartOf, Known, Scarce,
        Due, SpansKnown;
      var text := t.head;
      NoSpan(p, ops, file, t);
      NoSpanKnown(p, ops, cache, visiting, file, t);
      SteadyAtFirst(p, ops, cache, visiting, At(file, t));
      for i := 0 to |t.spans|
        invariant Valid() && visiting == old(visiting) && SoundSpans(p, ops, file, t, i, text)
        invariant i > 0 ==> !EndlessOperand(p, ops, old(visiting), file, t)
        invariant Steady(p, ops, old(cache), visiting, cache, At(file, t))
        invariant SpansKnown(p, ops, old(cache), visiting, file, t, i, text)
      {
        NeededPart(p, ops, old(cache), visiting, file, t, t.spans[i].t);
        ghost var before := cache;
        var v := Expression(file, t.spans[i].t, fuel);
        PartDone(p, ops, old(cache), old(visiting), before, cache, file, t, t.spans[i].t, fuel, v);
        if v.None? {
          return None;
        }
        if !v.value.Prim? {
          RefusedTerm(p, ops, file, t, State);
          PlainFlows(p, ops, file, t, M.Named("", ""), State);
          SpanRefused(p, ops, old(cache), visiting, file, t, i, v.value);
          DueIsSolved(p, ops, old(cache), visiting, cache, At(file, t), fuel + 1, State);
          return Some(State);
        }
        NextSpan(p, ops, file, t, i, text, v.value.p);
        NextSpanKnown(p, ops, old(cache), visiting, file, t, i, text, v.value.p);
        text := text + ops.text(v.value.p) + t.spans[i].text;
      }
      TemplateTerm(p, ops, file, t, text);
      TemplateDue(p, ops, old(cache), visiting, file, t, text);
      DueIsSolved(p, ops, old(cache), visiting, cache, At(file, t), fuel + 1, Verdict.Prim(M.Text(text)));
      PlainFlows(p, ops, file, t, M.Named("", ""), Verdict.Prim(M.Text(text)));
      return Some(Verdict.Prim(M.Text(text)));
    }

    method Operation(file: string, t: Term, fuel: nat) returns (r: Option<Verdict>)
      requires t.Cond? || t.Unary? || t.Binary?
      requires Valid()
      modifies this
      ensures Valid() && (r.Some? ==> SoundTerm(p, ops, file, t, r.value) && TermFlow(p, ops, file, t, r.value))
      ensures r.Some? ==> visiting == old(visiting)
      ensures OperandFuel(p, ops, old(visiting), file, t, fuel) ==> r.Some?
      ensures EndlessOperand(p, ops, old(visiting), file, t) ==> r.None?
      ensures Solved(p, ops, old(cache), old(visiting), cache, At(file, t), fuel + 1, r)
      decreases fuel, 3
    {
      hide SoundKey, SoundTerm, TermFlow, TermFuel, Endless, Asked, Solved, Steady, PartOf, Known, Scarce, Due;
      SteadyAtFirst(p, ops, cache, visiting, At(file, t));
      ghost var before := cache;
      match t {
        case Cond(c, y, n) =>
          NeededPart(p, ops, old(cache), visiting, file, t, c);
          var condition := Expression(file, c, fuel);
          PartDone(p, ops, old(cache), old(visiting), before, cache, file, t, c, fuel, condition);
          before := cache;
          if condition.None? {
            return None;
          }
          NeededPart(p, ops, old(cache), visiting, file, t, y);
          var yes := Expression(file, y, fuel);
          PartDone(p, ops, old(cache), old(visiting), before, cache, file, t, y, fuel, yes);
          before := cache;
          if yes.None? {
            return None;
          }
          NeededPart(p, ops, old(cache), visiting, file, t, n);
          var no := Expression(file, n, fuel);
          PartDone(p, ops, old(cache), old(visiting), before, cache, file, t, n, fuel, no);
          if no.None? {
            return None;
          }
          CondDue(p, ops, old(cache), visiting, file, t, condition.value, yes.value, no.value);
          CondTerm(p, ops, file, t, condition.value, yes.value, no.value);
          r := Some(Picked(ops, condition.value, yes.value, no.value));
        case Unary(op, operand) =>
          NeededPart(p, ops, old(cache), visiting, file, t, operand);
          var v := Expression(file, operand, fuel);
          PartDone(p, ops, old(cache), old(visiting), before, cache, file, t, operand, fuel, v);
          if v.None? {
            return None;
          }
          UnaryDue(p, ops, old(cache), visiting, file, t, v.value);
          UnaryTerm(p, ops, file, t, v.value);
          r := Some(Applied(ops, op, v.value));
        case Binary(op, left, right) =>
          NeededPart(p, ops, old(cache), visiting, file, t, left);
          var l := Expression(file, left, fuel);
          PartDone(p, ops, old(cache), old(visiting), before, cache, file, t, left, fuel, l);
          before := cache;
          if l.None? {
            return None;
          }
          NeededPart(p, ops, old(cache), visiting, file, t, right);
          var r2 := Expression(file, right, fuel);
          PartDone(p, ops, old(cache), old(visiting), before, cache, file, t, right, fuel, r2);
          if r2.None? {
            return None;
          }
          BinaryDue(p, ops, old(cache), visiting, file, t, l.value, r2.value);
          BinaryTerm(p, ops, file, t, l.value, r2.value);
          r := Some(Applied2(ops, op, l.value, r2.value));
      }
      PlainFlows(p, ops, file, t, M.Named("", ""), r.value);
      DueIsSolved(p, ops, old(cache), visiting, cache, At(file, t), fuel + 1, r.value);
    }

    /**
     * A primitive answer, after any queries before it, is the value the name holds whenever it is read, in every run
     * that keeps what the answer depends on; where everything frozen is frozen all the way, whatever the run writes.
     * In an ordered program there is an answer, with enough fuel; where looking into literals goes round there is
     * none, with any. A name that is mutable, unknown or made of something like that is refused. Where definitions do
     * not go round, the answer is the verdict that follows from them, whatever has been asked before; so a name that
     * is computed from primitives is answered with the primitive it holds.
     */
    method Answer(file: string, name: string, fuel: nat) returns (r: Option<Verdict>)
      requires Valid()
      modifies this
      ensures Valid() && (r.Some? ==> visiting == old(visiting))
      ensures KeyFuel(p, ops, old(visiting), M.Named(file, name), fuel) ==> r.Some?
      ensures var k := M.Named(file, name);
        k !in old(cache) && k !in old(visiting) && EndlessKey(p, ops, old(visiting) + {k}, k) ==> r.None?
      ensures r.Some? && r.value.Prim? ==> forall run, s :: Of(run, s, p, ops) && Def(M.Named(file, name)) in s ==>
        Holds(run, M.Named(file, name), P(r.value.p))
      ensures r.Some? && r.value.Prim? && ThroughProgram(p) ==>
        forall run: Run, s :: run.p == p && run.ops == ops && Real(run, s) && Def(M.Named(file, name)) in s ==>
        Holds(run, M.Named(file, name), P(r.value.p))
      ensures r.Some? && ExposedKey(p, M.Named(file, name)) ==> r.value == State
      ensures forall w :: Fits(p, ops, w) && Agree(w, old(cache)) && Free(w, old(visiting)) ==>
        Agree(w, cache) &&
        (Def(M.Named(file, name)) in w.items ==> Replies(w, Def(M.Named(file, name)), fuel, r))
      ensures forall part ::
        (Folds(p, ops, part, M.Named(file, name)) &&
         Agree(WorthOf(part), old(cache)) && Free(WorthOf(part), old(visiting))) ==>
        (r.Some? ==> r.value.Prim? && Holds(part.run, M.Named(file, name), P(r.value.p))) &&
        (fuel > 2 * part.rank(Def(M.Named(file, name))) ==> r.Some?)
    {
      hide Of, Real, KeyFuel, KeyFlow, EndlessKey, FrozenPart, Asked, Folds, WorthOf;
      r := Guarded(M.Named(file, name), fuel);
      AskedWhenFree(p, ops, old(cache), old(visiting), cache, M.Named(file, name), fuel, r);
      forall part | Folds(p, ops, part, M.Named(file, name)) &&
        Agree(WorthOf(part), old(cache)) && Free(WorthOf(part), old(visiting))
        ensures r.Some? ==> r.value.Prim? && Holds(part.run, M.Named(file, name), P(r.value.p))
        ensures fuel > 2 * part.rank(Def(M.Named(file, name))) ==> r.Some?
      {
        FoldsAsComputed(p, ops, part, M.Named(file, name));
      }
      if r.Some? && r.value.Prim? && ThroughProgram(p) {
        forall run: Run, s | run.p == p && run.ops == ops && Real(run, s) && Def(M.Named(file, name)) in s
          ensures Holds(run, M.Named(file, name), P(r.value.p))
        {
          WritesDoNotMatter(run, s);
          assert Of(run, FrozenPart(s), p, ops);
        }
      }
    }

    /**
     * Queries in any order and with any repetition get the verdicts that follow from the definitions, where these do
     * not go round; the first query for which the fuel does not suffice ends the run.
     */
    method AnswerAll(queries: seq<(string, string)>, fuel: nat) returns (answers: seq<Verdict>)
      requires Valid() && cache == map[] && visiting == {}
      modifies this
      ensures |answers| <= |queries|
      ensures Answered(p, ops, queries, answers) && FoldedAnswers(p, ops, queries, answers)
      ensures |answers| < |queries| ==> forall w :: Fits(p, ops, w) && Def(KeyOf(queries[|answers|])) in w.items ==>
        fuel <= 2 * w.rank(Def(KeyOf(queries[|answers|])))
    {
      hide Fits, KeyFuel, EndlessKey, Of, Real, Folds, Holds, WorthOf, Agree, ExposedKey, Answered, FoldedAnswers;
      NothingCached(p, ops);
      NoneAnswered(p, ops, queries);
      answers := [];
      for i := 0 to |queries|
        invariant Valid() && visiting == {} && |answers| == i
        invariant forall w :: Fits(p, ops, w) ==> Agree(w, cache)
        invariant Answered(p, ops, queries, answers)
      {
        var r := Answer(queries[i].0, queries[i].1, fuel);
        if r.None? {
          AnsweredFolds(p, ops, queries, answers);
          return;
        }
        OneAnswered(p, ops, queries, answers, r.value);
        answers := answers + [r.value];
      }
      AnsweredFolds(p, ops, queries, answers);
    }
  }
}
