/** Verdicts, and why each step of the evaluator passes on what holds of the values in every run of the promise. */
module ConstSound {
  import opened Options
  import opened Sequences
  import opened Naturals
  import opened ConstTerms
  import opened ConstFolding
  import opened ConstPromise
  import opened ConstExposed
  import M = ModuleState

  /**
   * What the evaluator knows of a value: all of it, nothing bad, its literal, its module, or that it must be
   * refused.
   */
  datatype Verdict = Prim(p: ConstTerms.Prim) | Safe | OfLiteral(file: string, t: Term) | OfModule(file: string) | State

  // ---------- what a verdict says ----------

  ghost predicate Contains(run: Run, s: iset<Item>, v: Verdict, d: Datum) {
    match v
    case Prim(p) => d == P(p)
    case OfLiteral(file, t) => In(file, t) in s && IsLiteral(t) && Build(run, file, t) == Some(d)
    case OfModule(file) => d == Namespace(file)
    case _ => true
  }

  /**
   * The verdict holds of the key whenever it is read; only what a module provides has one, and what is exposed is
   * refused.
   */
  ghost predicate SoundKey(p: Program, ops: Ops, k: Key, v: Verdict) {
    && (k.Exported? && v != State ==> Provides(p, k.file, k.name))
    && (ExposedKey(p, k) ==> v == State)
    && forall run, s, now :: Of(run, s, p, ops) && Def(k) in s ==> Contains(run, s, v, run.store(now, k))
  }

  ghost predicate SoundTerm(p: Program, ops: Ops, file: string, t: Term, v: Verdict) {
    && (ExposedTerm(p, file, t) ==> v == State)
    && forall run, s :: Of(run, s, p, ops) && At(file, t) in s && Eval(run, file, t).Some? ==>
      Contains(run, s, v, Eval(run, file, t).value)
  }

  /** raw is what taking the key out of d can give, by property access or by destructuring; a rest can give anything. */
  ghost predicate Reaches(run: Run, s: iset<Item>, now: Term, d: Datum, key: string, raw: Datum) {
    || (key == "*" && NoStarExport(run, d))
    || (Settled(run, s, d, key) && Gives(run, now, d, key, raw))
  }

  ghost predicate Gives(run: Run, now: Term, d: Datum, key: string, raw: Datum) {
    Get(run, now, d, key) == Some(raw) || exists i: nat :: key == Decimal(i) && Nth(run, now, d, i) == Some(raw)
  }

  ghost predicate SoundMember(p: Program, ops: Ops, owner: Verdict, key: string, v: Verdict) {
    && (owner == State ==> v == State)
    && forall run, s, now, d, raw ::
      Of(run, s, p, ops) && Contains(run, s, owner, d) && Reaches(run, s, now, d, key, raw) ==>
      Contains(run, s, v, raw)
  }

  lemma OfParts(run: Run, s: iset<Item>, p: Program, ops: Ops)
    requires Of(run, s, p, ops)
    ensures run.p == p && run.ops == ops
  {
  }

  lemma OfTerm(run: Run, s: iset<Item>, p: Program, ops: Ops, file: string, t: Term)
    requires Of(run, s, p, ops) && At(file, t) in s
    ensures run.p == p && run.ops == ops && TermKept(run, s, file, t)
  {
    hide TermKept;
    assert Kept(run, s, At(file, t));
  }

  lemma OfKey(run: Run, s: iset<Item>, p: Program, ops: Ops, k: Key)
    requires Of(run, s, p, ops) && Def(k) in s
    ensures run.p == p && run.ops == ops && KeyKept(run, s, k)
  {
    hide KeyKept;
    assert Kept(run, s, Def(k));
  }

  // ---------- literals ----------

  /** What the search in a literal found is what taking the key out of its value gives. */
  ghost predicate FoundRight(run: Run, s: iset<Item>, file: string, found: Found, raw: Datum) {
    && Denotes(run, file, found, Some(raw))
    && match found
       case Value(v) => if IsLiteral(v) then In(file, v) in s && !run.host.written(v.id) else At(file, v) in s
       case Binding(name) => Def(M.Named(file, name)) in s
       case _ => true
  }

  lemma ArrayReached(run: Run, now: Term, d: Datum, key: string, raw: Datum)
    requires d.Arr? && Gives(run, now, d, key, raw)
    ensures Get(run, now, d, key) == Some(raw)
  {
    hide IsInherited, Naturals.Value, Decimal;
    if i: nat :| key == Decimal(i) && Nth(run, now, d, i) == Some(raw) {
      ValueDecimal(i);
      assert !IsDigit("length"[0]);
    }
  }

  lemma FoundBelongs(run: Run, s: iset<Item>, file: string, t: Term, key: string, raw: Datum)
    requires IsLiteral(t) && In(file, t) in s && Unwritten(run, s) && LookedUp(run, s, file, t, key)
    requires Denotes(run, file, Find(run.ops, t, key), Some(raw))
    ensures FoundRight(run, s, file, Find(run.ops, t, key), raw)
  {
    hide Find, Settles, Denotes;
    assert InnerUnwritten(run, s, file, Find(run.ops, t, key));
  }

  lemma LiteralFound(p: Program, ops: Ops, run: Run, s: iset<Item>, now: Term, file: string, t: Term, d: Datum,
                     key: string, raw: Datum)
    requires Of(run, s, p, ops) && Contains(run, s, OfLiteral(file, t), d) && Reaches(run, s, now, d, key, raw)
    ensures IsLiteral(t) && FoundRight(run, s, file, Find(ops, t, key), raw)
  {
    hide Real, PartsOf, ItemsOf, Nth, Unwritten, LookedUp, FindElem, FindProp;
    if key != "*" {
      BuiltIsMade(run, file, t, d);
      assert LookedUp(run, s, file, t, key);
      if d.Arr? {
        ArrayReached(run, now, d, key, raw);
      } else {
        ObjectReached(run, now, d, key, raw);
      }
      SettlesHere(run, s, file, t, key);
      SettledIsRight(run, file, t, key);
      FoundBelongs(run, s, file, t, key, raw);
    }
  }

  lemma SettlesHere(run: Run, s: iset<Item>, file: string, t: Term, key: string)
    requires IsLiteral(t) && LookedUp(run, s, file, t, key)
    ensures Settles(run.ops, t, key)
  {
  }

  lemma BuiltIsMade(run: Run, file: string, t: Term, d: Datum)
    requires IsLiteral(t) && Build(run, file, t) == Some(d)
    ensures (d.Obj? || d.Arr?) && d.made == Some(Made(file, t))
  {
  }

  lemma ObjectReached(run: Run, now: Term, d: Datum, key: string, raw: Datum)
    requires d.Obj? && Gives(run, now, d, key, raw)
    ensures Get(run, now, d, key) == Some(raw)
  {
  }

  // ---------- members ----------

  lemma MemberOfPrimitive(p: Program, ops: Ops, q: ConstTerms.Prim, key: string)
    ensures var v := if key == "length" && q.Text? then Verdict.Prim(M.Num(|q.s|)) else Safe;
      SoundMember(p, ops, Verdict.Prim(q), key, v)
  {
    hide Decimal;
    forall run, s, now, d, raw |
      Of(run, s, p, ops) && Contains(run, s, Verdict.Prim(q), d) && Reaches(run, s, now, d, key, raw)
      ensures Contains(run, s, if key == "length" && q.Text? then Verdict.Prim(M.Num(|q.s|)) else Safe, raw)
    {
      if i: nat :| key == Decimal(i) && Nth(run, now, d, i) == Some(raw) {
        ValueDecimal(i);
        assert !IsDigit("length"[0]);
      }
    }
  }

  lemma MemberOfModule(p: Program, ops: Ops, file: string, key: string, v: Verdict)
    requires SoundKey(p, ops, M.Exported(file, key), v)
    ensures SoundMember(p, ops, OfModule(file), key, v)
  {
    hide Decimal, Provides, Real, Unwritten;
    forall run, s, now, d, raw |
      Of(run, s, p, ops) && Contains(run, s, OfModule(file), d) && Reaches(run, s, now, d, key, raw)
      ensures Contains(run, s, v, raw)
    {
    }
  }

  /** The answer for a member of a literal, from what was found there and its verdict. */
  lemma MemberOfLiteral(p: Program, ops: Ops, file: string, t: Term, key: string, v: Verdict)
    requires IsLiteral(t) && SoundFound(p, ops, file, Find(ops, t, key), v)
    ensures SoundMember(p, ops, OfLiteral(file, t), key, v)
  {
    hide Of, Contains, Reaches, Find, FoundRight;
    forall run, s, now, d, raw |
      Of(run, s, p, ops) && Contains(run, s, OfLiteral(file, t), d) && Reaches(run, s, now, d, key, raw)
      ensures Contains(run, s, v, raw)
    {
      LiteralFound(p, ops, run, s, now, file, t, d, key, raw);
    }
  }

  /** The verdict holds of whatever the search result can stand for. */
  ghost predicate SoundFound(p: Program, ops: Ops, file: string, found: Found, v: Verdict) {
    forall run, s, raw :: Of(run, s, p, ops) && FoundRight(run, s, file, found, raw) ==> Contains(run, s, v, raw)
  }

  lemma FoundTerm(p: Program, ops: Ops, file: string, t: Term, v: Verdict)
    requires SoundTerm(p, ops, file, t, v) && (IsLiteral(t) ==> v == State)
    ensures var w := if v != State then v else if IsLiteral(t) then OfLiteral(file, t) else Safe;
      SoundFound(p, ops, file, Found.Value(t), w)
  {
    hide Of, Build;
    var w := if v != State then v else if IsLiteral(t) then OfLiteral(file, t) else Safe;
    forall run, s, raw | Of(run, s, p, ops) && FoundRight(run, s, file, Found.Value(t), raw)
      ensures Contains(run, s, w, raw)
    {
      assert Eval(run, file, t) == Some(raw);
    }
  }

  lemma FoundBinding(p: Program, ops: Ops, file: string, name: string, v: Verdict)
    requires SoundKey(p, ops, M.Named(file, name), v)
    ensures SoundFound(p, ops, file, Binding(name), v)
  {
    hide Of, Eval;
  }

  lemma RefusedMember(p: Program, ops: Ops, owner: Verdict, key: string, v: Verdict)
    requires v == State || (v == Safe && owner != State)
    ensures SoundMember(p, ops, owner, key, v)
  {
  }

  // ---------- terms ----------

  lemma RefusedTerm(p: Program, ops: Ops, file: string, t: Term, v: Verdict)
    requires v == State || (v == Safe && t.Opaque?)
    ensures SoundTerm(p, ops, file, t, v)
  {
    if ExposedTerm(p, file, t) {
      ExposedParts(p, file, t);
    }
  }

  lemma LitTerm(p: Program, ops: Ops, file: string, q: ConstTerms.Prim)
    ensures SoundTerm(p, ops, file, Lit(q), Verdict.Prim(q))
  {
    if ExposedTerm(p, file, Lit(q)) {
      ExposedParts(p, file, Lit(q));
    }
  }

  lemma LiteralTerm(p: Program, ops: Ops, file: string, t: Term)
    requires IsLiteral(t)
    ensures SoundTerm(p, ops, file, Immutable(t), OfLiteral(file, t))
  {
    hide Of, ExposedTerm, ExposedKey;
    if ExposedTerm(p, file, Immutable(t)) {
      ExposedParts(p, file, Immutable(t));
    }
    forall run, s | Of(run, s, p, ops) && At(file, Immutable(t)) in s && Eval(run, file, Immutable(t)).Some?
      ensures Contains(run, s, OfLiteral(file, t), Eval(run, file, Immutable(t)).value)
    {
      OfTerm(run, s, p, ops, file, Immutable(t));
    }
  }

  function OnlyPrimitive(v: Verdict): Verdict { if v.Prim? then v else State }

  lemma ImmutableTerm(p: Program, ops: Ops, file: string, t: Term, v: Verdict)
    requires !IsLiteral(t) && SoundTerm(p, ops, file, t, v)
    ensures SoundTerm(p, ops, file, Immutable(t), OnlyPrimitive(v))
  {
    hide Of, ExposedTerm, ExposedKey;
    if ExposedTerm(p, file, Immutable(t)) {
      ExposedParts(p, file, Immutable(t));
    }
    forall run, s | Of(run, s, p, ops) && At(file, Immutable(t)) in s && Eval(run, file, Immutable(t)).Some?
      ensures Contains(run, s, OnlyPrimitive(v), Eval(run, file, Immutable(t)).value)
    {
      OfTerm(run, s, p, ops, file, Immutable(t));
      assert Eval(run, file, t) == Eval(run, file, Immutable(t));
    }
  }

  lemma RefTerm(p: Program, ops: Ops, file: string, t: Term, v: Verdict)
    requires t.Ref? && SoundKey(p, ops, M.Named(file, t.name), v)
    ensures SoundTerm(p, ops, file, t, v)
  {
    hide Of, Contains, ExposedTerm, ExposedKey;
    if ExposedTerm(p, file, t) {
      ExposedParts(p, file, t);
    }
    forall run, s | Of(run, s, p, ops) && At(file, t) in s && Eval(run, file, t).Some?
      ensures Contains(run, s, v, Eval(run, file, t).value)
    {
      OfTerm(run, s, p, ops, file, t);
    }
  }

  lemma MemberTerm(p: Program, ops: Ops, file: string, t: Term, owner: Verdict, v: Verdict)
    requires t.Member? && SoundTerm(p, ops, file, t.owner, owner) && SoundMember(p, ops, owner, t.key, v)
    ensures SoundTerm(p, ops, file, t, v)
  {
    hide Of, Get, Contains, Settled, ExposedTerm, ExposedKey;
    if ExposedTerm(p, file, t) {
      ExposedParts(p, file, t);
    }
    forall run, s | Of(run, s, p, ops) && At(file, t) in s && Eval(run, file, t).Some?
      ensures Contains(run, s, v, Eval(run, file, t).value)
    {
      OfTerm(run, s, p, ops, file, t);
      var d := Eval(run, file, t.owner);
      assert Eval(run, file, t) == Get(run, t, d.value, t.key);
      assert Gives(run, t, d.value, t.key, Eval(run, file, t).value);
      assert Reaches(run, s, t, d.value, t.key, Eval(run, file, t).value);
    }
  }

  lemma IndexTerm(p: Program, ops: Ops, file: string, t: Term, q: ConstTerms.Prim, owner: Verdict, v: Verdict)
    requires t.Index? && SoundTerm(p, ops, file, t.at, Verdict.Prim(q))
    requires SoundTerm(p, ops, file, t.owner, owner) && SoundMember(p, ops, owner, ops.text(q), v)
    ensures SoundTerm(p, ops, file, t, v)
  {
    hide Of, Get, Settled, ExposedTerm, ExposedKey;
    if ExposedTerm(p, file, t) {
      ExposedParts(p, file, t);
    }
    forall run, s | Of(run, s, p, ops) && At(file, t) in s && Eval(run, file, t).Some?
      ensures Contains(run, s, v, Eval(run, file, t).value)
    {
      OfTerm(run, s, p, ops, file, t);
      var d, k := Eval(run, file, t.owner), Eval(run, file, t.at);
      assert Contains(run, s, Verdict.Prim(q), k.value) && Contains(run, s, owner, d.value);
      assert Eval(run, file, t) == Get(run, t, d.value, ops.text(q));
      assert Gives(run, t, d.value, ops.text(q), Eval(run, file, t).value);
      assert Reaches(run, s, t, d.value, ops.text(q), Eval(run, file, t).value);
    }
  }

  function Picked(ops: Ops, c: Verdict, yes: Verdict, no: Verdict): Verdict {
    if c.Prim? && yes.Prim? && no.Prim? then (if ops.truthy(c.p) then yes else no) else State
  }

  lemma CondTerm(p: Program, ops: Ops, file: string, t: Term, c: Verdict, yes: Verdict, no: Verdict)
    requires t.Cond? && SoundTerm(p, ops, file, t.condition, c)
    requires SoundTerm(p, ops, file, t.yes, yes) && SoundTerm(p, ops, file, t.no, no)
    ensures SoundTerm(p, ops, file, t, Picked(ops, c, yes, no))
  {
    hide Of, ExposedTerm, ExposedKey;
    if ExposedTerm(p, file, t) {
      ExposedParts(p, file, t);
    }
    if c.Prim? && yes.Prim? && no.Prim? {
      forall run, s | Of(run, s, p, ops) && At(file, t) in s && Eval(run, file, t).Some?
        ensures Contains(run, s, Picked(ops, c, yes, no), Eval(run, file, t).value)
      {
        OfTerm(run, s, p, ops, file, t);
        assert Contains(run, s, c, Eval(run, file, t.condition).value);
      }
    }
  }

  function Verdicted(p: Option<ConstTerms.Prim>): Verdict { if p.Some? then Verdict.Prim(p.value) else State }

  function Applied(ops: Ops, op: UnaryOp, v: Verdict): Verdict {
    if v.Prim? then Verdicted(ops.unary(op, v.p)) else State
  }

  lemma UnaryTerm(p: Program, ops: Ops, file: string, t: Term, v: Verdict)
    requires t.Unary? && SoundTerm(p, ops, file, t.operand, v)
    ensures SoundTerm(p, ops, file, t, Applied(ops, t.uop, v))
  {
    hide Of, ExposedTerm, ExposedKey;
    if ExposedTerm(p, file, t) {
      ExposedParts(p, file, t);
    }
    if v.Prim? {
      forall run, s | Of(run, s, p, ops) && At(file, t) in s && Eval(run, file, t).Some?
        ensures Contains(run, s, Applied(ops, t.uop, v), Eval(run, file, t).value)
      {
        OfTerm(run, s, p, ops, file, t);
        assert Contains(run, s, v, Eval(run, file, t.operand).value);
      }
    }
  }

  /** The evaluator takes both operands before it applies an operator. */
  function Folded(ops: Ops, op: BinaryOp, l: ConstTerms.Prim, r: ConstTerms.Prim): Option<ConstTerms.Prim> {
    match op
    case And => Some(if ops.truthy(l) then r else l)
    case Or => Some(if ops.truthy(l) then l else r)
    case Coalesce => Some(if l.Undefined? || l.Null? then r else l)
    case Comma => Some(r)
    case Token(token) => ops.binary(token, l, r)
  }

  function Applied2(ops: Ops, op: BinaryOp, l: Verdict, r: Verdict): Verdict {
    if l.Prim? && r.Prim? then Verdicted(Folded(ops, op, l.p, r.p)) else State
  }

  /** Although a running program may skip the right operand, the folded value is the same. */
  lemma BinaryTerm(p: Program, ops: Ops, file: string, t: Term, l: Verdict, r: Verdict)
    requires t.Binary? && SoundTerm(p, ops, file, t.left, l) && SoundTerm(p, ops, file, t.right, r)
    ensures SoundTerm(p, ops, file, t, Applied2(ops, t.bop, l, r))
  {
    hide Of, ExposedTerm, ExposedKey;
    if ExposedTerm(p, file, t) {
      ExposedParts(p, file, t);
    }
    if l.Prim? && r.Prim? {
      forall run, s | Of(run, s, p, ops) && At(file, t) in s && Eval(run, file, t).Some?
        ensures Contains(run, s, Applied2(ops, t.bop, l, r), Eval(run, file, t).value)
      {
        OfTerm(run, s, p, ops, file, t);
        assert Contains(run, s, l, Eval(run, file, t.left).value);
        assert At(file, t.right) in s && Eval(run, file, t.right).Some? ==>
          Contains(run, s, r, Eval(run, file, t.right).value);
      }
    }
  }

  ghost predicate SoundSpans(p: Program, ops: Ops, file: string, t: Term, k: nat, text: string)
    requires t.Template? && k <= |t.spans|
  {
    && (forall i :: 0 <= i < k ==> !ExposedTerm(p, file, t.spans[i].t))
    && forall run, s :: Of(run, s, p, ops) && At(file, t) in s && SpansOf(run, file, t, k).Some? ==>
      SpansOf(run, file, t, k).value == text
  }

  lemma NoSpan(p: Program, ops: Ops, file: string, t: Term)
    requires t.Template?
    ensures SoundSpans(p, ops, file, t, 0, t.head)
  {
  }

  lemma NextSpan(p: Program, ops: Ops, file: string, t: Term, k: nat, text: string, q: ConstTerms.Prim)
    requires t.Template? && k < |t.spans| && SoundSpans(p, ops, file, t, k, text)
    requires SoundTerm(p, ops, file, t.spans[k].t, Verdict.Prim(q))
    ensures SoundSpans(p, ops, file, t, k + 1, text + ops.text(q) + t.spans[k].text)
  {
    hide Of, Eval;
    forall run, s | Of(run, s, p, ops) && At(file, t) in s && SpansOf(run, file, t, k + 1).Some?
      ensures SpansOf(run, file, t, k + 1).value == text + ops.text(q) + t.spans[k].text
    {
      OfTerm(run, s, p, ops, file, t);
      assert At(file, t.spans[k].t) in s;
      assert Contains(run, s, Verdict.Prim(q), Eval(run, file, t.spans[k].t).value);
    }
  }

  lemma TemplateTerm(p: Program, ops: Ops, file: string, t: Term, text: string)
    requires t.Template? && SoundSpans(p, ops, file, t, |t.spans|, text)
    ensures SoundTerm(p, ops, file, t, Verdict.Prim(M.Text(text)))
  {
    hide Of, ExposedTerm, ExposedKey;
    if ExposedTerm(p, file, t) {
      ExposedParts(p, file, t);
    }
  }

  // ---------- paths into a pattern ----------

  /** Filling in one default after the other turns d into e; the defaults that are used belong to the items. */
  ghost predicate FillsTo(run: Run, s: iset<Item>, file: string, fallbacks: seq<Term>, d: Datum, e: Datum) {
    if fallbacks == [] then d == e
    else
      var next := Filled(run, file, Some(fallbacks[0]), Some(d));
      && (d == UNDEFINED ==> At(file, fallbacks[0]) in s)
      && next.Some? && FillsTo(run, s, file, fallbacks[1..], next.value, e)
  }

  /** raw is what following one access from d can give. */
  ghost predicate Crosses(run: Run, s: iset<Item>, file: string, now: Term, access: Access, d: Datum, raw: Datum) {
    match access
    case Static(key) => Reaches(run, s, now, d, key, raw)
    case Dynamic(at) =>
      var k := Eval(run, file, at);
      At(file, at) in s && k.Some? && (k.value.P? ==> Reaches(run, s, now, d, run.ops.text(k.value.p), raw))
  }

  ghost predicate Steps(run: Run, s: iset<Item>, file: string, now: Term, access: Access, fallbacks: seq<Term>,
                        d: Datum, e: Datum) {
    exists raw :: Crosses(run, s, file, now, access, d, raw) && FillsTo(run, s, file, fallbacks, raw, e)
  }

  /** The data met on the way: each follows from the one before by an access and the defaults of that depth. */
  ghost predicate Walks(run: Run, s: iset<Item>, file: string, now: Term, access: seq<Access>, defaults: seq<Default>,
                        ds: seq<Datum>) {
    && |ds| == |access| + 1
    && (forall i :: 0 <= i < |defaults| ==> defaults[i].depth <= |access|)
    && forall j: nat :: j < |access| ==> StepsAt(run, s, file, now, access, defaults, ds, j)
  }

  ghost predicate StepsAt(run: Run, s: iset<Item>, file: string, now: Term, access: seq<Access>,
                          defaults: seq<Default>, ds: seq<Datum>, j: nat) {
    && j < |access| && j + 1 < |ds|
    && Steps(run, s, file, now, access[j], DefaultsAt(defaults, j + 1), ds[j], ds[j + 1])
  }

  lemma {:induction false} DefaultsAtConcat(a: seq<Default>, b: seq<Default>, depth: nat)
    ensures DefaultsAt(a + b, depth) == DefaultsAt(a, depth) + DefaultsAt(b, depth)
  {
    hide DefaultAt;
    if a == [] {
      assert a + b == b;
      Empty(DefaultsAt(b, depth));
    } else {
      assert (a + b)[1..] == a[1..] + b && (a + b)[0] == a[0];
      DefaultsAtConcat(a[1..], b, depth);
      Concat(DefaultAt(a[0], depth), DefaultsAt(a[1..], depth), DefaultsAt(b, depth));
    }
  }

  lemma {:induction false} NoDefaultsAt(defaults: seq<Default>, depth: nat)
    requires forall i :: 0 <= i < |defaults| ==> defaults[i].depth != depth
    ensures DefaultsAt(defaults, depth) == []
  {
    if defaults != [] {
      NoDefaultsAt(defaults[1..], depth);
    }
  }

  /** A deeper default changes nothing above it, and is the only one at its depth. */
  lemma OneDeeper(defaults: seq<Default>, e: Element, n: nat)
    requires e.Element? && forall i :: 0 <= i < |defaults| ==> defaults[i].depth <= n
    ensures DefaultsAt(defaults + DefaultOf(e, n + 1), n + 1) == if e.fallback.Some? then [e.fallback.value] else []
    ensures forall j :: 0 <= j <= n ==> DefaultsAt(defaults + DefaultOf(e, n + 1), j) == DefaultsAt(defaults, j)
  {
    var more := DefaultOf(e, n + 1);
    DefaultsAtConcat(defaults, more, n + 1);
    NoDefaultsAt(defaults, n + 1);
    assert e.fallback.Some? ==> more[1..] == [];
    forall j | 0 <= j <= n ensures DefaultsAt(defaults + more, j) == DefaultsAt(defaults, j) {
      DefaultsAtConcat(defaults, more, j);
      NoDefaultsAt(more, j);
    }
  }

  lemma PickCrosses(run: Run, s: iset<Item>, file: string, now: Term, pattern: Pattern, i: nat, d: Datum)
    requires !pattern.Bind? && i < |pattern.elements| && pattern.elements[i].Element?
    requires PickKept(run, s, file, pattern, i, d) && Pick(run, file, now, pattern, i, d).Some?
    ensures Crosses(run, s, file, now, AccessOf(pattern, i), d, Pick(run, file, now, pattern, i, d).value)
  {
    hide Settled, Get, Nth, Decimal, NoStarExport, Eval;
  }

  /** Taking an element's value apart is one access and its default. */
  lemma TakenSteps(run: Run, s: iset<Item>, file: string, now: Term, pattern: Pattern, i: nat, access: seq<Access>,
                   defaults: seq<Default>, d: Datum, bound: Bound)
    requires !pattern.Bind? && i < |pattern.elements| && pattern.elements[i].Element?
    requires ElementKept(run, s, file, now, pattern, i, access, defaults, d, bound)
    requires Taken(run, file, now, pattern, i, d).Some?
    ensures var e := pattern.elements[i];
      var fallbacks := if e.fallback.Some? then [e.fallback.value] else [];
      Steps(run, s, file, now, AccessOf(pattern, i), fallbacks, d, Taken(run, file, now, pattern, i, d).value)
  {
    hide Crosses, PickKept, Pick, AccessOf, PathKept, Eval;
    var e := pattern.elements[i];
    var raw := Pick(run, file, now, pattern, i, d);
    PickCrosses(run, s, file, now, pattern, i, d);
    var fallbacks := if e.fallback.Some? then [e.fallback.value] else [];
    assert e.fallback.Some? ==> fallbacks[1..] == [];
    assert FillsTo(run, s, file, fallbacks, raw.value, Taken(run, file, now, pattern, i, d).value);
  }

  lemma WalkOn(run: Run, s: iset<Item>, file: string, now: Term, pattern: Pattern, i: nat, access: seq<Access>,
               defaults: seq<Default>, ds: seq<Datum>, bound: Bound)
    requires !pattern.Bind? && i < |pattern.elements| && pattern.elements[i].Element?
    requires Walks(run, s, file, now, access, defaults, ds)
    requires ElementKept(run, s, file, now, pattern, i, access, defaults, ds[|access|], bound)
    requires Taken(run, file, now, pattern, i, ds[|access|]).Some?
    ensures Walks(run, s, file, now, access + [AccessOf(pattern, i)],
                  defaults + DefaultOf(pattern.elements[i], |access| + 1),
                  ds + [Taken(run, file, now, pattern, i, ds[|access|]).value])
  {
    hide Steps, AccessOf, Taken, ElementKept, DefaultsAt;
    var n, e := |access|, pattern.elements[i];
    var taken := Taken(run, file, now, pattern, i, ds[n]).value;
    var access', defaults', ds' := access + [AccessOf(pattern, i)], defaults + DefaultOf(e, n + 1), ds + [taken];
    OneDeeper(defaults, e, n);
    TakenSteps(run, s, file, now, pattern, i, access, defaults, ds[n], bound);
    forall j: nat | j < |access'| ensures StepsAt(run, s, file, now, access', defaults', ds', j) {
      if j < n {
        assert StepsAt(run, s, file, now, access, defaults, ds, j);
      }
    }
  }

  /** Every name of a pattern is at the end of a walk that starts like the given one. */
  lemma {:induction false} NamesFollow(run: Run, s: iset<Item>, file: string, now: Term, pattern: Pattern,
                                       access: seq<Access>, defaults: seq<Default>, ds: seq<Datum>, bound: Bound)
    returns (walk: seq<Datum>)
    requires Walks(run, s, file, now, access, defaults, ds) && Binds(run, file, now, pattern, ds[|access|])
    requires PathKept(run, s, file, now, pattern, access, defaults, ds[|access|], bound)
    requires bound in NamesOf(pattern, access, defaults)
    ensures Walks(run, s, file, now, bound.access, bound.defaults, walk)
    ensures walk[0] == ds[0] && Holds(run, M.Named(file, bound.name), walk[|bound.access|])
    decreases pattern, 1, 0
  {
    hide Walks, PathKept, Holds;
    WalkLength(run, s, file, now, access, defaults, ds);
    if pattern.Bind? {
      walk := ds;
    } else {
      walk := NamesFollowFrom(run, s, file, now, pattern, 0, access, defaults, ds, bound);
    }
  }

  lemma WalkLength(run: Run, s: iset<Item>, file: string, now: Term, access: seq<Access>, defaults: seq<Default>,
                   ds: seq<Datum>)
    requires Walks(run, s, file, now, access, defaults, ds)
    ensures |ds| == |access| + 1
  {
  }

  lemma {:induction false} NamesFollowFrom(run: Run, s: iset<Item>, file: string, now: Term, pattern: Pattern, i: nat,
                                           access: seq<Access>, defaults: seq<Default>, ds: seq<Datum>, bound: Bound)
    returns (walk: seq<Datum>)
    requires !pattern.Bind? && i <= |pattern.elements|
    requires Walks(run, s, file, now, access, defaults, ds) && Binds(run, file, now, pattern, ds[|access|])
    requires PathKept(run, s, file, now, pattern, access, defaults, ds[|access|], bound)
    requires bound in NamesFrom(pattern, i, access, defaults)
    ensures Walks(run, s, file, now, bound.access, bound.defaults, walk)
    ensures walk[0] == ds[0] && Holds(run, M.Named(file, bound.name), walk[|bound.access|])
    decreases pattern, 0, |pattern.elements| - i
  {
    hide Walks, AccessOf, Taken, DefaultOf, Holds, PickKept, Pick, Eval;
    WalkLength(run, s, file, now, access, defaults, ds);
    var e := pattern.elements[i];
    if bound in NamesFrom(pattern, i + 1, access, defaults) {
      walk := NamesFollowFrom(run, s, file, now, pattern, i + 1, access, defaults, ds, bound);
    } else {
      assert Leads(pattern, i, access, defaults, bound);
      assert ElementKept(run, s, file, now, pattern, i, access, defaults, ds[|access|], bound);
      WalkOn(run, s, file, now, pattern, i, access, defaults, ds, bound);
      walk := NamesFollow(run, s, file, now, e.sub, access + [AccessOf(pattern, i)],
                          defaults + DefaultOf(e, |access| + 1),
                          ds + [Taken(run, file, now, pattern, i, ds[|access|]).value], bound);
    }
  }

  // ---------- verdicts along a path ----------

  /** The verdict holds of what any walk along the path has reached after k accesses. */
  ghost predicate SoundPath(p: Program, ops: Ops, file: string, init: Term, bound: Bound, k: nat, v: Verdict) {
    && (ExposedWay(p, file, init, bound, k) ==> v == State)
    && forall run, s, ds ::
      (Of(run, s, p, ops) && At(file, init) in s && Walks(run, s, file, init, bound.access, bound.defaults, ds)
       && k < |ds| && Eval(run, file, init) == Some(ds[0]))
      ==> Contains(run, s, v, ds[k])
  }

  ghost predicate SoundCross(p: Program, ops: Ops, file: string, owner: Verdict, access: Access, v: Verdict) {
    && (owner == State || ExposedAccess(p, file, access) ==> v == State)
    && forall run, s, now, d, raw ::
      Of(run, s, p, ops) && Contains(run, s, owner, d) && Crosses(run, s, file, now, access, d, raw) ==>
      Contains(run, s, v, raw)
  }

  /** After the first i defaults: what filling still has to do starts from something the verdict holds of. */
  ghost predicate SoundFill(p: Program, ops: Ops, file: string, fallbacks: seq<Term>, first: Verdict, i: nat,
                            v: Verdict)
    requires i <= |fallbacks|
  {
    && (first == State ==> v == State) && (forall j :: 0 <= j < i ==> !ExposedTerm(p, file, fallbacks[j]))
    && forall run, s, d, e ::
      Of(run, s, p, ops) && Contains(run, s, first, d) && FillsTo(run, s, file, fallbacks, d, e) ==>
      FillsFrom(run, s, file, fallbacks[i..], v, e)
  }

  ghost predicate FillsFrom(run: Run, s: iset<Item>, file: string, fallbacks: seq<Term>, v: Verdict, e: Datum) {
    exists d :: Contains(run, s, v, d) && FillsTo(run, s, file, fallbacks, d, e)
  }

  lemma PathStarts(p: Program, ops: Ops, file: string, init: Term, bound: Bound, v: Verdict)
    requires SoundTerm(p, ops, file, init, v)
    ensures SoundPath(p, ops, file, init, bound, 0, v)
  {
    hide Of, Walks, Contains, Eval;
  }

  lemma RefusedPath(p: Program, ops: Ops, file: string, init: Term, bound: Bound)
    ensures SoundPath(p, ops, file, init, bound, |bound.access|, State)
  {
  }

  lemma StaticCross(p: Program, ops: Ops, file: string, owner: Verdict, key: string, v: Verdict)
    requires SoundMember(p, ops, owner, key, v)
    ensures SoundCross(p, ops, file, owner, Static(key), v)
  {
    hide Of, Contains, Reaches;
  }

  lemma DynamicCross(p: Program, ops: Ops, file: string, owner: Verdict, at: Term, q: ConstTerms.Prim, v: Verdict)
    requires SoundTerm(p, ops, file, at, Verdict.Prim(q)) && SoundMember(p, ops, owner, ops.text(q), v)
    ensures SoundCross(p, ops, file, owner, Dynamic(at), v)
  {
    hide Of, Reaches, Eval;
    forall run, s, now, d, raw |
      Of(run, s, p, ops) && Contains(run, s, owner, d) && Crosses(run, s, file, now, Dynamic(at), d, raw)
      ensures Contains(run, s, v, raw)
    {
      OfParts(run, s, p, ops);
      assert Contains(run, s, Verdict.Prim(q), Eval(run, file, at).value);
    }
  }

  lemma RefusedCross(p: Program, ops: Ops, file: string, owner: Verdict, access: Access)
    ensures SoundCross(p, ops, file, owner, access, State)
  {
  }

  lemma FillStarts(p: Program, ops: Ops, file: string, fallbacks: seq<Term>, first: Verdict)
    ensures SoundFill(p, ops, file, fallbacks, first, 0, first)
  {
    hide Of, Contains, FillsTo;
    assert fallbacks[0..] == fallbacks;
  }

  /** A default replaces a verdict only if it is the primitive undefined. */
  function FilledVerdict(v: Verdict, alternative: Verdict): Verdict {
    if v == Verdict.Prim(M.Undefined) then alternative else v
  }

  lemma FillOne(run: Run, s: iset<Item>, file: string, fallbacks: seq<Term>, i: nat, v: Verdict, alternative: Verdict,
                e: Datum)
    requires i < |fallbacks| && FillsFrom(run, s, file, fallbacks[i..], v, e)
    requires At(file, fallbacks[i]) in s && Eval(run, file, fallbacks[i]).Some? ==>
      Contains(run, s, alternative, Eval(run, file, fallbacks[i]).value)
    ensures FillsFrom(run, s, file, fallbacks[i + 1..], FilledVerdict(v, alternative), e)
  {
    hide Eval, Build;
    var next := FilledVerdict(v, alternative);
    var d :| Contains(run, s, v, d) && FillsTo(run, s, file, fallbacks[i..], d, e);
    assert fallbacks[i..][0] == fallbacks[i] && fallbacks[i..][1..] == fallbacks[i + 1..];
    var filled := Filled(run, file, Some(fallbacks[i]), Some(d));
    if d == UNDEFINED && v.OfLiteral? {
      BuiltIsMade(run, v.file, v.t, d);
      assert false;
    }
    assert filled.Some? && Contains(run, s, next, filled.value);
  }

  lemma FilledState(alternative: Verdict)
    ensures FilledVerdict(State, alternative) == State
  {
  }

  lemma FillNext(p: Program, ops: Ops, file: string, fallbacks: seq<Term>, first: Verdict, i: nat, v: Verdict,
                 alternative: Verdict)
    requires i < |fallbacks| && SoundFill(p, ops, file, fallbacks, first, i, v)
    requires SoundTerm(p, ops, file, fallbacks[i], alternative) && alternative != State
    ensures SoundFill(p, ops, file, fallbacks, first, i + 1, FilledVerdict(v, alternative))
  {
    hide Of, Contains, FillsTo, FillsFrom, Eval, FilledVerdict;
    FilledState(alternative);
    forall run, s, d, e |
      Of(run, s, p, ops) && Contains(run, s, first, d) && FillsTo(run, s, file, fallbacks, d, e)
      ensures FillsFrom(run, s, file, fallbacks[i + 1..], FilledVerdict(v, alternative), e)
    {
      FillOne(run, s, file, fallbacks, i, v, alternative, e);
    }
  }

  /** One access with its defaults carries the verdict one step on. */
  lemma PathStep(p: Program, ops: Ops, file: string, init: Term, bound: Bound, k: nat, owner: Verdict, first: Verdict,
                 v: Verdict)
    requires k < |bound.access| && SoundPath(p, ops, file, init, bound, k, owner)
    requires SoundCross(p, ops, file, owner, bound.access[k], first)
    requires var fallbacks := DefaultsAt(bound.defaults, k + 1);
      SoundFill(p, ops, file, fallbacks, first, |fallbacks|, v)
    ensures SoundPath(p, ops, file, init, bound, k + 1, v)
  {
    hide Of, Contains, Crosses, Eval, DefaultsAt, ExposedTerm;
    if ExposedWay(p, file, init, bound, k + 1) {
      ExposedNext(p, file, init, bound, k);
    }
    var fallbacks := DefaultsAt(bound.defaults, k + 1);
    forall run, s, ds | Of(run, s, p, ops) && At(file, init) in s
      && Walks(run, s, file, init, bound.access, bound.defaults, ds)
      && k + 1 < |ds| && Eval(run, file, init) == Some(ds[0])
      ensures Contains(run, s, v, ds[k + 1])
    {
      assert StepsAt(run, s, file, init, bound.access, bound.defaults, ds, k);
      var raw :| Crosses(run, s, file, init, bound.access[k], ds[k], raw)
        && FillsTo(run, s, file, fallbacks, raw, ds[k + 1]);
      assert Contains(run, s, first, raw);
      assert FillsFrom(run, s, file, fallbacks[|fallbacks|..], v, ds[k + 1]);
    }
  }

  /** At the end of the path stands the value of the name. */
  lemma PathEnds(p: Program, ops: Ops, file: string, name: string, v: Verdict)
    requires (file, name) in p.locals && p.locals[(file, name)].Const?
    requires var local := p.locals[(file, name)];
      SoundPath(p, ops, file, local.init, local.bound, |local.bound.access|, v)
    ensures SoundKey(p, ops, M.Named(file, name), v)
  {
    hide Contains, Eval, Binds, NamesOf, Walks, Of, PathKept, ExposedKey, ExposedTerm;
    if ExposedKey(p, M.Named(file, name)) {
      ExposedLocal(p, file, name);
    }
    var local, k := p.locals[(file, name)], M.Named(file, name);
    forall run, s, now | Of(run, s, p, ops) && Def(k) in s ensures Contains(run, s, v, run.store(now, k)) {
      OfKey(run, s, p, ops, k);
      var d := Eval(run, file, local.init).value;
      WalkNone(run, s, file, local.init, d);
      var walk := NamesFollow(run, s, file, local.init, local.pattern, [], [], [d], local.bound);
      WalkLength(run, s, file, local.init, local.bound.access, local.bound.defaults, walk);
      assert run.store(now, k) == walk[|local.bound.access|];
    }
  }

  lemma WalkNone(run: Run, s: iset<Item>, file: string, now: Term, d: Datum)
    ensures Walks(run, s, file, now, [], [], [d])
  {
  }

  // ---------- keys ----------

  lemma ForwardKey(p: Program, ops: Ops, file: string, name: string, v: Verdict)
    requires (file, name) in p.locals && p.locals[(file, name)].Import? && p.locals[(file, name)].source.Some?
    requires SoundKey(p, ops, M.Exported(p.locals[(file, name)].source.value, p.locals[(file, name)].exported), v)
    ensures SoundKey(p, ops, M.Named(file, name), v)
  {
    hide Contains, Of, ExposedKey, ExposedTerm;
    if ExposedKey(p, M.Named(file, name)) {
      ExposedLocal(p, file, name);
    }
    var k := M.Named(file, name);
    forall run, s, now | Of(run, s, p, ops) && Def(k) in s ensures Contains(run, s, v, run.store(now, k)) {
      OfKey(run, s, p, ops, k);
    }
  }

  lemma StarKey(p: Program, ops: Ops, file: string, name: string)
    requires (file, name) in p.locals && p.locals[(file, name)].Star? && p.locals[(file, name)].source.Some?
    ensures SoundKey(p, ops, M.Named(file, name), OfModule(p.locals[(file, name)].source.value))
  {
    hide Of, ExposedKey, ExposedTerm;
    if ExposedKey(p, M.Named(file, name)) {
      ExposedLocal(p, file, name);
    }
    var k := M.Named(file, name);
    forall run, s, now | Of(run, s, p, ops) && Def(k) in s
      ensures run.store(now, k) == Namespace(p.locals[(file, name)].source.value)
    {
      OfKey(run, s, p, ops, k);
    }
  }

  lemma ExportIsProvided(p: Program, file: string, name: string)
    requires (file, name) in p.exports
    ensures Provides(p, file, name)
  {
    assert StarPath(p, [file], file, name);
  }

  lemma OnwardKey(p: Program, ops: Ops, file: string, name: string, v: Verdict)
    requires (file, name) in p.exports && p.exports[(file, name)].FromFile? && p.exports[(file, name)].source.Some?
    requires SoundKey(p, ops, M.Onward(file, p.exports[(file, name)].source.value, p.exports[(file, name)].exported), v)
    ensures SoundKey(p, ops, M.Exported(file, name), v)
  {
    hide Contains, Of, M.Onward, Provides, ExposedKey, ExposedTerm;
    if ExposedKey(p, M.Exported(file, name)) {
      ExposedExport(p, file, name);
    }
    ExportIsProvided(p, file, name);
    var k := M.Exported(file, name);
    forall run, s, now | Of(run, s, p, ops) && Def(k) in s ensures Contains(run, s, v, run.store(now, k)) {
      OfKey(run, s, p, ops, k);
    }
  }

  lemma StandardKey(p: Program, ops: Ops, file: string, name: string, v: Verdict)
    requires (file, name) in p.exports && p.exports[(file, name)].Standard?
    requires SoundTerm(p, ops, file, p.exports[(file, name)].t, v)
    ensures SoundKey(p, ops, M.Exported(file, name), v)
  {
    hide Contains, Eval, Of, Provides, ExposedKey, ExposedTerm;
    if ExposedKey(p, M.Exported(file, name)) {
      ExposedExport(p, file, name);
    }
    ExportIsProvided(p, file, name);
    var k := M.Exported(file, name);
    forall run, s, now | Of(run, s, p, ops) && Def(k) in s ensures Contains(run, s, v, run.store(now, k)) {
      OfKey(run, s, p, ops, k);
    }
  }

  lemma ProvidedBehind(p: Program, file: string, target: string, name: string)
    requires file in p.stars && target in p.stars[file] && Provides(p, target, name)
    ensures Provides(p, file, name)
  {
    var path :| StarPath(p, path, target, name);
    assert StarPath(p, [file] + path, file, name);
  }

  /** The verdict of any module re-exported with a star, unless it refuses. */
  lemma StarredKey(p: Program, ops: Ops, file: string, name: string, target: string, v: Verdict)
    requires (file, name) !in p.exports && file in p.stars && target in p.stars[file] && v != State
    requires Tried(p, target, name) && SoundKey(p, ops, M.Exported(target, name), v)
    ensures SoundKey(p, ops, M.Exported(file, name), v)
  {
    hide Contains, Of, Provides, ExposedKey, ExposedTerm;
    if ExposedKey(p, M.Exported(file, name)) {
      ExposedExport(p, file, name);
    }
    ProvidedBehind(p, file, target, name);
    var k := M.Exported(file, name);
    forall run, s, now | Of(run, s, p, ops) && Def(k) in s ensures Contains(run, s, v, run.store(now, k)) {
      OfKey(run, s, p, ops, k);
    }
  }

  function GlobalVerdict(name: string): Verdict {
    match M.Global(name)
    case Primitive(q) => Verdict.Prim(q)
    case Safe => Verdict.Safe
    case State => Verdict.State
  }

  lemma GlobalKey(p: Program, ops: Ops, file: string, name: string)
    requires (file, name) !in p.locals
    ensures SoundKey(p, ops, M.Named(file, name), GlobalVerdict(name))
  {
    hide M.BUILTINS, M.Global, Of, ExposedKey, ExposedTerm;
    if ExposedKey(p, M.Named(file, name)) {
      M.Builtins(name);
      ExposedGlobal(p, file, name);
    }
    var k := M.Named(file, name);
    forall run, s, now | Of(run, s, p, ops) && Def(k) in s
      ensures Contains(run, s, GlobalVerdict(name), run.store(now, k))
    {
      OfKey(run, s, p, ops, k);
    }
  }

  lemma RefusedKey(p: Program, ops: Ops, k: Key, v: Verdict)
    requires v == State || (v == Safe && (k.Exported? ==> (k.file, k.name) in p.exports) && !ExposedKey(p, k))
    ensures SoundKey(p, ops, k, v)
  {
    hide Of;
    if k.Exported? && v == Safe {
      ExportIsProvided(p, k.file, k.name);
    }
  }
}
