/**
 * Tables of frozen literals that refer to each other: the evaluator comes to an end exactly where following the
 * references does.
 */
module ConstTables {
  import opened Options
  import opened Naturals
  import opened ConstTerms
  import opened ConstFolding
  import opened ConstPromise
  import opened ConstSound
  import opened ConstFuel
  import opened ConstLoops
  import opened ConstValues
  import M = ModuleState

  // ---------- tables ----------

  /** A frozen literal, or something that is not evaluated. */
  predicate IsName(p: Program, file: string, name: string) {
    || (file, name) !in p.locals
    || LiteralConst(p, file, name).Some?
    || (match p.locals[(file, name)]
        case Import(source, _) => source.None?
        case Star(_) => true
        case Declared => true
        case Mutable => true
        case _ => false)
  }

  /** Every key is taken out of a literal that can be told, every name is that of a literal or is not evaluated. */
  predicate Direct(p: Program, ops: Ops, visiting: set<Key>, file: string, t: Term)
    decreases t
  {
    match t
    case Object(_, props) =>
      forall i :: 0 <= i < |props| ==>
        (match props[i]
         case Named(_, v) => Direct(p, ops, visiting, file, v)
         case Shorthand(name, _) => IsName(p, file, name)
         case _ => true)
    case Array(_, elems) =>
      forall i :: 0 <= i < |elems| && elems[i].Item? ==> Direct(p, ops, visiting, file, elems[i].value)
    case Immutable(inner) => Direct(p, ops, visiting, file, inner)
    case Ref(name, _) => IsName(p, file, name)
    case Member(owner, _) => Direct(p, ops, visiting, file, owner) && Source(p, ops, visiting, file, owner).Some?
    case Index(owner, at) =>
      at.Lit? && Direct(p, ops, visiting, file, owner) && Source(p, ops, visiting, file, owner).Some?
    case Template(_, spans) =>
      |spans| <= 1 && forall i :: 0 <= i < |spans| ==> Direct(p, ops, visiting, file, spans[i].t)
    case Cond(c, yes, no) =>
      && Direct(p, ops, visiting, file, c) && Direct(p, ops, visiting, file, yes)
      && Direct(p, ops, visiting, file, no)
    case Unary(_, operand) => Direct(p, ops, visiting, file, operand)
    case Binary(_, l, r) => Direct(p, ops, visiting, file, l) && Direct(p, ops, visiting, file, r)
    case _ => true
  }

  ghost predicate Table(p: Program, ops: Ops, visiting: set<Key>, file: string) {
    forall name :: LiteralConst(p, file, name).Some? ==>
      Direct(p, ops, visiting, file, LiteralConst(p, file, name).value)
  }

  /** Following the references of the term comes to an end within n lookups. */
  predicate Unfolds(p: Program, ops: Ops, visiting: set<Key>, file: string, t: Term, n: nat)
    decreases n, t, 0
  {
    match t
    case Immutable(inner) => IsLiteral(inner) || Unfolds(p, ops, visiting, file, inner, n)
    case Member(owner, key) =>
      Unfolds(p, ops, visiting, file, owner, n) && Followed(p, ops, visiting, file, owner, key, n)
    case Index(owner, at) =>
      at.Lit? ==>
        Unfolds(p, ops, visiting, file, owner, n) && Followed(p, ops, visiting, file, owner, ops.text(at.p), n)
    case Template(_, spans) => forall i :: 0 <= i < |spans| ==> Unfolds(p, ops, visiting, file, spans[i].t, n)
    case Cond(c, yes, no) =>
      && Unfolds(p, ops, visiting, file, c, n) && Unfolds(p, ops, visiting, file, yes, n)
      && Unfolds(p, ops, visiting, file, no, n)
    case Unary(_, operand) => Unfolds(p, ops, visiting, file, operand, n)
    case Binary(_, l, r) => Unfolds(p, ops, visiting, file, l, n) && Unfolds(p, ops, visiting, file, r, n)
    case _ => true
  }

  /** What stands under the key comes to an end, with one lookup less. */
  predicate Followed(p: Program, ops: Ops, visiting: set<Key>, file: string, owner: Term, key: string, n: nat)
    decreases n, owner, 1
  {
    var next := Next(p, ops, visiting, file, owner, key);
    next.Some? ==> n > 0 && Unfolds(p, ops, visiting, file, next.value, n - 1)
  }

  /** The term under the key that has to be evaluated. */
  function Next(p: Program, ops: Ops, visiting: set<Key>, file: string, owner: Term, key: string): Option<Term> {
    var source := Source(p, ops, visiting, file, owner);
    if source.None? || !IsLiteral(source.value) then None
    else
      var found := Find(ops, source.value, key);
      if found.Value? && !IsLiteral(found.t) then Some(found.t) else None
  }

  lemma {:induction false} UnfoldsLonger(p: Program, ops: Ops, visiting: set<Key>, file: string, t: Term, n: nat,
                                         m: nat)
    requires Unfolds(p, ops, visiting, file, t, n) && n <= m
    ensures Unfolds(p, ops, visiting, file, t, m)
    ensures Need(p, ops, visiting, file, t, m) == Need(p, ops, visiting, file, t, n)
    decreases n, t, 1
  {
    hide Next;
    match t {
      case Immutable(inner) =>
        if !IsLiteral(inner) {
          UnfoldsLonger(p, ops, visiting, file, inner, n, m);
        }
      case Member(owner, key) =>
        UnfoldsLonger(p, ops, visiting, file, owner, n, m);
        FollowedLonger(p, ops, visiting, file, owner, key, n, m);
      case Index(owner, at) =>
        if at.Lit? {
          UnfoldsLonger(p, ops, visiting, file, owner, n, m);
          FollowedLonger(p, ops, visiting, file, owner, ops.text(at.p), n, m);
        }
      case Template(_, spans) =>
        forall i | 0 <= i < |spans| ensures Unfolds(p, ops, visiting, file, spans[i].t, m)
          && Need(p, ops, visiting, file, spans[i].t, m) == Need(p, ops, visiting, file, spans[i].t, n)
        {
          UnfoldsLonger(p, ops, visiting, file, spans[i].t, n, m);
        }
        SameSpans(p, ops, visiting, file, t, |spans|, n, m);
      case Cond(c, yes, no) =>
        UnfoldsLonger(p, ops, visiting, file, c, n, m);
        UnfoldsLonger(p, ops, visiting, file, yes, n, m);
        UnfoldsLonger(p, ops, visiting, file, no, n, m);
      case Unary(_, operand) => UnfoldsLonger(p, ops, visiting, file, operand, n, m);
      case Binary(_, l, r) =>
        UnfoldsLonger(p, ops, visiting, file, l, n, m);
        UnfoldsLonger(p, ops, visiting, file, r, n, m);
      case _ =>
    }
  }

  lemma {:induction false} FollowedLonger(p: Program, ops: Ops, visiting: set<Key>, file: string, owner: Term,
                                          key: string, n: nat, m: nat)
    requires Followed(p, ops, visiting, file, owner, key, n) && n <= m
    ensures Followed(p, ops, visiting, file, owner, key, m)
    ensures LookNeed(p, ops, visiting, file, owner, key, m) == LookNeed(p, ops, visiting, file, owner, key, n)
    decreases n, owner, 2
  {
    hide Next;
    var next := Next(p, ops, visiting, file, owner, key);
    if next.Some? {
      UnfoldsLonger(p, ops, visiting, file, next.value, n - 1, m - 1);
    }
  }

  lemma {:induction false} SameSpans(p: Program, ops: Ops, visiting: set<Key>, file: string, t: Term, k: nat, n: nat,
                                     m: nat)
    requires t.Template? && k <= |t.spans|
    requires forall i :: 0 <= i < |t.spans| ==>
      Need(p, ops, visiting, file, t.spans[i].t, m) == Need(p, ops, visiting, file, t.spans[i].t, n)
    ensures SpansNeed(p, ops, visiting, file, t, k, m) == SpansNeed(p, ops, visiting, file, t, k, n)
    decreases n, t, 0, k
  {
    hide Need;
    if k > 0 {
      SameSpans(p, ops, visiting, file, t, k - 1, n, m);
    }
  }

  /** How deep the evaluation of the term gets, where it comes to an end within n lookups. */
  function Need(p: Program, ops: Ops, visiting: set<Key>, file: string, t: Term, n: nat): nat
    decreases n, t, 1, 0
  {
    match t
    case Immutable(inner) => 1 + if IsLiteral(inner) then 0 else Need(p, ops, visiting, file, inner, n)
    case Ref(_, _) => 1
    case Member(owner, key) =>
      1 + Max(Need(p, ops, visiting, file, owner, n), LookNeed(p, ops, visiting, file, owner, key, n))
    case Index(owner, at) =>
      if at.Lit? then
        1 + Max(Need(p, ops, visiting, file, owner, n), LookNeed(p, ops, visiting, file, owner, ops.text(at.p), n))
      else 0
    case Template(_, spans) => 1 + SpansNeed(p, ops, visiting, file, t, |spans|, n)
    case Cond(c, yes, no) =>
      1 + Max(Need(p, ops, visiting, file, c, n),
              Max(Need(p, ops, visiting, file, yes, n), Need(p, ops, visiting, file, no, n)))
    case Unary(_, operand) => 1 + Need(p, ops, visiting, file, operand, n)
    case Binary(_, l, r) => 1 + Max(Need(p, ops, visiting, file, l, n), Need(p, ops, visiting, file, r, n))
    case _ => 0
  }

  function LookNeed(p: Program, ops: Ops, visiting: set<Key>, file: string, owner: Term, key: string, n: nat): nat
    decreases n, owner, 2, 0
  {
    var next := Next(p, ops, visiting, file, owner, key);
    if next.None? || n == 0 then 0 else Need(p, ops, visiting, file, next.value, n - 1)
  }

  function SpansNeed(p: Program, ops: Ops, visiting: set<Key>, file: string, t: Term, k: nat, n: nat): nat
    requires t.Template? && k <= |t.spans|
    decreases n, t, 0, k
  {
    if k == 0 then 0
    else Max(SpansNeed(p, ops, visiting, file, t, k - 1, n), Need(p, ops, visiting, file, t.spans[k - 1].t, n))
  }

  lemma {:induction false} SpanNeeds(p: Program, ops: Ops, visiting: set<Key>, file: string, t: Term, k: nat, i: nat,
                                     n: nat)
    requires t.Template? && i < k <= |t.spans|
    ensures Need(p, ops, visiting, file, t.spans[i].t, n) <= SpansNeed(p, ops, visiting, file, t, k, n)
  {
    hide Need;
    if i < k - 1 {
      SpanNeeds(p, ops, visiting, file, t, k - 1, i, n);
    }
  }

  // ---------- what is found in a table belongs to it ----------

  lemma {:induction false} SourceIsDirect(p: Program, ops: Ops, visiting: set<Key>, file: string, t: Term)
    requires Table(p, ops, visiting, file) && Direct(p, ops, visiting, file, t)
    requires Source(p, ops, visiting, file, t).Some?
    ensures var source := Source(p, ops, visiting, file, t).value;
      IsLiteral(source) && Direct(p, ops, visiting, file, source)
  {
    hide Find;
    SourceIsLiteral(p, ops, visiting, file, t);
    match t {
      case Member(owner, key) =>
        SourceIsDirect(p, ops, visiting, file, owner);
        FoundIsDirect(p, ops, visiting, file, Source(p, ops, visiting, file, owner).value, key);
      case Index(owner, at) =>
        SourceIsDirect(p, ops, visiting, file, owner);
        FoundIsDirect(p, ops, visiting, file, Source(p, ops, visiting, file, owner).value, ops.text(at.p));
      case _ =>
    }
  }

  lemma FoundIsDirect(p: Program, ops: Ops, visiting: set<Key>, file: string, t: Term, key: string)
    requires IsLiteral(t) && Direct(p, ops, visiting, file, t)
    ensures var found := Find(ops, t, key);
      && (found.Value? ==> Direct(p, ops, visiting, file, found.t))
      && (found.Binding? ==> IsName(p, file, found.name))
  {
    hide ToIndex, Source, IsName;
  }

  /** A term that stands for a literal comes to an end. */
  lemma {:induction false} SourceUnfolds(p: Program, ops: Ops, visiting: set<Key>, file: string, t: Term)
    requires Source(p, ops, visiting, file, t).Some?
    ensures Unfolds(p, ops, visiting, file, t, 1)
  {
    hide Find;
    match t {
      case Member(owner, key) =>
        SourceUnfolds(p, ops, visiting, file, owner);
        assert Followed(p, ops, visiting, file, owner, key, 1);
      case Index(owner, at) =>
        SourceUnfolds(p, ops, visiting, file, owner);
        assert Followed(p, ops, visiting, file, owner, ops.text(at.p), 1);
      case _ =>
    }
  }

  // ---------- where following the references ends, fuel suffices ----------

  ghost predicate Ends(p: Program, ops: Ops, visiting: set<Key>, file: string, t: Term) {
    exists n :: Unfolds(p, ops, visiting, file, t, n)
  }

  ghost function DepthOf(p: Program, ops: Ops, visiting: set<Key>, file: string, t: Term): nat {
    if n: nat :| Unfolds(p, ops, visiting, file, t, n) then Need(p, ops, visiting, file, t, n) else 0
  }

  lemma DepthIsNeed(p: Program, ops: Ops, visiting: set<Key>, file: string, t: Term, n: nat)
    requires Unfolds(p, ops, visiting, file, t, n)
    ensures DepthOf(p, ops, visiting, file, t) == Need(p, ops, visiting, file, t, n)
  {
    hide Unfolds, Need;
    forall m: nat | Unfolds(p, ops, visiting, file, t, m)
      ensures Need(p, ops, visiting, file, t, m) == Need(p, ops, visiting, file, t, n)
    {
      if n <= m {
        UnfoldsLonger(p, ops, visiting, file, t, n, m);
      } else {
        UnfoldsLonger(p, ops, visiting, file, t, m, n);
      }
    }
  }

  /** The verdict is the literal, if it can be told. */
  predicate Fitting(file: string, source: Option<Term>, v: Verdict) {
    source.Some? ==> v == OfLiteral(file, source.value)
  }

  ghost function MayBe(file: string, source: Option<Term>): iset<Verdict> { iset v | Fitting(file, source, v) }

  ghost function MayOf(p: Program, ops: Ops, visiting: set<Key>, file: string, item: Item): iset<Verdict> {
    match item
    case Def(k) => MayBe(file, LiteralKey(p, k))
    case At(_, t) => MayBe(file, Source(p, ops, visiting, file, t))
    case In(_, _) => iset{}
  }

  ghost predicate Belongs(p: Program, ops: Ops, visiting: set<Key>, file: string, init: Term, item: Item) {
    match item
    case Def(k) => k.Named? && k.file == file && (IsName(p, file, k.name) || Defines(p, file, k.name, init))
    case At(f, t) => f == file && Direct(p, ops, visiting, file, t) && Ends(p, ops, visiting, file, t)
    case In(_, _) => false
  }

  predicate Defines(p: Program, file: string, name: string, init: Term) {
    && (file, name) in p.locals && p.locals[(file, name)].Const?
    && p.locals[(file, name)].init == init && p.locals[(file, name)].bound.access == []
  }

  /** The order of a table and one definition besides. */
  ghost function OrderOf(p: Program, ops: Ops, visiting: set<Key>, file: string, init: Term): Order {
    Order((iset item | Belongs(p, ops, visiting, file, init, item)),
          (item: Item) => MayOf(p, ops, visiting, file, item),
          (item: Item) => if item.At? then DepthOf(p, ops, visiting, file, item.t) else 0,
          Max(1, DepthOf(p, ops, visiting, file, init)))
  }

  lemma PartBelow(p: Program, ops: Ops, visiting: set<Key>, file: string, init: Term, t: Term, part: Term, n: nat)
    requires Unfolds(p, ops, visiting, file, t, n) && Unfolds(p, ops, visiting, file, part, n)
    requires Direct(p, ops, visiting, file, part)
    requires Need(p, ops, visiting, file, part, n) < Need(p, ops, visiting, file, t, n)
    ensures Below(OrderOf(p, ops, visiting, file, init), file, part, DepthOf(p, ops, visiting, file, t))
  {
    hide Unfolds, Need, Direct, DepthOf;
    DepthIsNeed(p, ops, visiting, file, t, n);
    DepthIsNeed(p, ops, visiting, file, part, n);
  }

  lemma NameListed(p: Program, ops: Ops, visiting: set<Key>, file: string, init: Term, name: string)
    requires IsName(p, file, name)
    ensures Listed(OrderOf(p, ops, visiting, file, init), Def(M.Named(file, name)), MayBe(file, None))
  {
    hide IsName;
  }

  /** What stands under a key of a literal that can be told is listed, and less deep than taking it out. */
  lemma LooksLow(p: Program, ops: Ops, visiting: set<Key>, file: string, init: Term, owner: Term, key: string, n: nat,
                 depth: nat)
    requires Table(p, ops, visiting, file) && Direct(p, ops, visiting, file, owner)
    requires Source(p, ops, visiting, file, owner).Some? && Followed(p, ops, visiting, file, owner, key, n)
    requires LookNeed(p, ops, visiting, file, owner, key, n) < depth
    ensures var source := Source(p, ops, visiting, file, owner);
      LookLow(ops, OrderOf(p, ops, visiting, file, init), OfLiteral(file, source.value), key,
              MayBe(file, FromSource(ops, source, key)), depth)
  {
    hide Source, Find, Direct, Unfolds, Need, IsName, DepthOf;
    var source := Source(p, ops, visiting, file, owner).value;
    SourceIsDirect(p, ops, visiting, file, owner);
    FoundIsDirect(p, ops, visiting, file, source, key);
    match Find(ops, source, key) {
      case Value(v) =>
        if !IsLiteral(v) {
          DepthIsNeed(p, ops, visiting, file, v, n - 1);
          FrozenSource(p, ops, visiting, file, v);
        }
      case Binding(name) => NameListed(p, ops, visiting, file, init, name);
      case _ =>
    }
  }

  lemma FrozenSource(p: Program, ops: Ops, visiting: set<Key>, file: string, t: Term)
    ensures IsFrozenLiteral(t) ==> Source(p, ops, visiting, file, t) == Some(t.t)
  {
  }

  lemma MemberIsLow(p: Program, ops: Ops, visiting: set<Key>, file: string, init: Term, t: Term, n: nat)
    requires Table(p, ops, visiting, file) && Direct(p, ops, visiting, file, t) && Unfolds(p, ops, visiting, file, t, n)
    requires t.Member? || t.Index?
    ensures TermLow(ops, OrderOf(p, ops, visiting, file, init), file, t)
  {
    hide Find, Below, LookLow, DepthOf, FromSource, Followed;
    DepthIsNeed(p, ops, visiting, file, t, n);
    PartBelow(p, ops, visiting, file, init, t, t.owner, n);
    if t.Index? {
      PartBelow(p, ops, visiting, file, init, t, t.at, n);
    }
    var key := if t.Member? then t.key else ops.text(t.at.p);
    LooksLow(p, ops, visiting, file, init, t.owner, key, n, Need(p, ops, visiting, file, t, n));
  }

  lemma OperatorIsLow(p: Program, ops: Ops, visiting: set<Key>, file: string, init: Term, t: Term, n: nat)
    requires Direct(p, ops, visiting, file, t) && Unfolds(p, ops, visiting, file, t, n)
    requires t.Template? || t.Cond? || t.Unary? || t.Binary?
    ensures TermLow(ops, OrderOf(p, ops, visiting, file, init), file, t)
  {
    hide Below, DepthOf;
    DepthIsNeed(p, ops, visiting, file, t, n);
    match t {
      case Template(_, spans) =>
        forall i | 0 <= i < |spans|
          ensures Below(OrderOf(p, ops, visiting, file, init), file, spans[i].t, DepthOf(p, ops, visiting, file, t))
        {
          SpanNeeds(p, ops, visiting, file, t, |spans|, i, n);
          PartBelow(p, ops, visiting, file, init, t, spans[i].t, n);
        }
      case Cond(c, yes, no) =>
        PartBelow(p, ops, visiting, file, init, t, c, n);
        PartBelow(p, ops, visiting, file, init, t, yes, n);
        PartBelow(p, ops, visiting, file, init, t, no, n);
      case Unary(_, operand) => PartBelow(p, ops, visiting, file, init, t, operand, n);
      case Binary(_, l, r) =>
        PartBelow(p, ops, visiting, file, init, t, l, n);
        PartBelow(p, ops, visiting, file, init, t, r, n);
    }
  }

  lemma TermIsLow(p: Program, ops: Ops, visiting: set<Key>, file: string, init: Term, t: Term, n: nat)
    requires Table(p, ops, visiting, file) && Direct(p, ops, visiting, file, t) && Unfolds(p, ops, visiting, file, t, n)
    ensures TermLow(ops, OrderOf(p, ops, visiting, file, init), file, t)
  {
    hide Below, IsName, DepthOf, Table;
    match t {
      case Immutable(inner) =>
        DepthIsNeed(p, ops, visiting, file, t, n);
        if !IsLiteral(inner) {
          PartBelow(p, ops, visiting, file, init, t, inner, n);
        }
      case Ref(name, _) =>
        DepthIsNeed(p, ops, visiting, file, t, n);
        NameListed(p, ops, visiting, file, init, name);
      case Member(_, _) => MemberIsLow(p, ops, visiting, file, init, t, n);
      case Index(_, _) => MemberIsLow(p, ops, visiting, file, init, t, n);
      case Template(_, _) => OperatorIsLow(p, ops, visiting, file, init, t, n);
      case Cond(_, _, _) => OperatorIsLow(p, ops, visiting, file, init, t, n);
      case Unary(_, _) => OperatorIsLow(p, ops, visiting, file, init, t, n);
      case Binary(_, _, _) => OperatorIsLow(p, ops, visiting, file, init, t, n);
      case _ =>
    }
  }

  lemma InitIsLow(p: Program, ops: Ops, visiting: set<Key>, file: string, init: Term, name: string, t: Term)
    requires Defines(p, file, name, t) && Direct(p, ops, visiting, file, t) && Ends(p, ops, visiting, file, t)
    requires t == init || LiteralConst(p, file, name).Some?
    ensures KeyLow(p, ops, OrderOf(p, ops, visiting, file, init), M.Named(file, name))
  {
    hide Direct, Unfolds, Ends, DepthOf;
    var o := OrderOf(p, ops, visiting, file, init);
    if LiteralConst(p, file, name).Some? {
      FrozenSource(p, ops, visiting, file, t);
      LiteralDepth(p, ops, visiting, file, t);
    }
    var ways := [o.may(At(file, t))];
    assert PathLow(ops, o, file, t, p.locals[(file, name)].bound, ways);
  }

  lemma LiteralDepth(p: Program, ops: Ops, visiting: set<Key>, file: string, t: Term)
    requires IsFrozenLiteral(t)
    ensures DepthOf(p, ops, visiting, file, t) == 1 && Ends(p, ops, visiting, file, t)
  {
    assert Unfolds(p, ops, visiting, file, t, 0);
    DepthIsNeed(p, ops, visiting, file, t, 0);
  }

  lemma TableIsOrdered(p: Program, ops: Ops, visiting: set<Key>, file: string, init: Term)
    requires Table(p, ops, visiting, file) && Direct(p, ops, visiting, file, init) && Ends(p, ops, visiting, file, init)
    ensures Ordered(p, ops, OrderOf(p, ops, visiting, file, init))
  {
    hide Unfolds, TermLow, KeyLow, DepthOf;
    var o := OrderOf(p, ops, visiting, file, init);
    forall item | item in o.items ensures Low(p, ops, o, item) {
      match item {
        case Def(k) => KeyIsLow(p, ops, visiting, file, init, k);
        case At(_, t) =>
          var n: nat :| Unfolds(p, ops, visiting, file, t, n);
          TermIsLow(p, ops, visiting, file, init, t, n);
        case In(_, _) =>
      }
    }
  }

  lemma KeyIsLow(p: Program, ops: Ops, visiting: set<Key>, file: string, init: Term, k: Key)
    requires Table(p, ops, visiting, file) && Direct(p, ops, visiting, file, init) && Ends(p, ops, visiting, file, init)
    requires Belongs(p, ops, visiting, file, init, Def(k))
    ensures KeyLow(p, ops, OrderOf(p, ops, visiting, file, init), k)
  {
    hide Direct, Unfolds, Ends, DepthOf, PathLow;
    if LiteralConst(p, file, k.name).Some? {
      var t := p.locals[(file, k.name)].init;
      LiteralDepth(p, ops, visiting, file, t);
      FrozenDirect(p, ops, visiting, file, t);
      InitIsLow(p, ops, visiting, file, init, k.name, t);
    } else if Defines(p, file, k.name, init) {
      InitIsLow(p, ops, visiting, file, init, k.name, init);
    }
  }

  lemma FrozenDirect(p: Program, ops: Ops, visiting: set<Key>, file: string, t: Term)
    requires IsFrozenLiteral(t) && Direct(p, ops, visiting, file, t.t)
    ensures Direct(p, ops, visiting, file, t)
  {
  }

  // ---------- where it does not, the evaluator goes round ----------

  lemma EndsBoth(p: Program, ops: Ops, visiting: set<Key>, file: string, t: Term, u: Term)
    requires Ends(p, ops, visiting, file, t) && Ends(p, ops, visiting, file, u)
    ensures exists n ::
      Unfolds(p, ops, visiting, file, t, n) && Unfolds(p, ops, visiting, file, u, n)
  {
    hide Unfolds;
    var n, m :| Unfolds(p, ops, visiting, file, t, n) && Unfolds(p, ops, visiting, file, u, m);
    UnfoldsLonger(p, ops, visiting, file, t, n, Max(n, m));
    UnfoldsLonger(p, ops, visiting, file, u, m, Max(n, m));
  }

  lemma EndsAll(p: Program, ops: Ops, visiting: set<Key>, file: string, t: Term, u: Term, v: Term)
    requires Ends(p, ops, visiting, file, t) && Ends(p, ops, visiting, file, u) && Ends(p, ops, visiting, file, v)
    ensures exists n ::
      Unfolds(p, ops, visiting, file, t, n) && Unfolds(p, ops, visiting, file, u, n)
      && Unfolds(p, ops, visiting, file, v, n)
  {
    hide Unfolds;
    EndsBoth(p, ops, visiting, file, t, u);
    var n, m :|
      Unfolds(p, ops, visiting, file, t, n) && Unfolds(p, ops, visiting, file, u, n)
      && Unfolds(p, ops, visiting, file, v, m);
    UnfoldsLonger(p, ops, visiting, file, t, n, Max(n, m));
    UnfoldsLonger(p, ops, visiting, file, u, n, Max(n, m));
    UnfoldsLonger(p, ops, visiting, file, v, m, Max(n, m));
  }

  ghost predicate LookFollowed(p: Program, ops: Ops, visiting: set<Key>, file: string, owner: Term, key: string) {
    exists n :: Unfolds(p, ops, visiting, file, owner, n) && Followed(p, ops, visiting, file, owner, key, n)
  }

  /** A lookup in a literal that can be told comes to an end if what stands under the key does. */
  lemma LookEnds(p: Program, ops: Ops, visiting: set<Key>, file: string, owner: Term, key: string)
    requires Source(p, ops, visiting, file, owner).Some?
    requires var next := Next(p, ops, visiting, file, owner, key);
      next.Some? ==> Ends(p, ops, visiting, file, next.value)
    ensures LookFollowed(p, ops, visiting, file, owner, key)
  {
    hide Unfolds, Next, Source;
    SourceUnfolds(p, ops, visiting, file, owner);
    var next := Next(p, ops, visiting, file, owner, key);
    if next.Some? {
      var n: nat :| Unfolds(p, ops, visiting, file, next.value, n);
      UnfoldsLonger(p, ops, visiting, file, owner, 1, n + 1);
      assert Followed(p, ops, visiting, file, owner, key, n + 1);
    } else {
      assert Followed(p, ops, visiting, file, owner, key, 1);
    }
  }

  ghost function Circling(p: Program, ops: Ops, visiting: set<Key>, file: string): iset<Term> {
    iset t | Direct(p, ops, visiting, file, t) && !Ends(p, ops, visiting, file, t)
  }

  lemma LooksRound(p: Program, ops: Ops, visiting: set<Key>, file: string, owner: Term, key: string)
    requires Table(p, ops, visiting, file) && Direct(p, ops, visiting, file, owner)
    requires Source(p, ops, visiting, file, owner).Some?
    requires !LookFollowed(p, ops, visiting, file, owner, key)
    ensures LooksInto(p, ops, visiting, file, owner, key, Circling(p, ops, visiting, file))
  {
    hide Direct, Unfolds, Source, Find, Followed;
    SourceIsDirect(p, ops, visiting, file, owner);
    FoundIsDirect(p, ops, visiting, file, Source(p, ops, visiting, file, owner).value, key);
    var next := Next(p, ops, visiting, file, owner, key);
    if next.None? || Ends(p, ops, visiting, file, next.value) {
      LookEnds(p, ops, visiting, file, owner, key);
    }
  }

  /** A term ends if its parts do. */
  lemma PartsEnd(p: Program, ops: Ops, visiting: set<Key>, file: string, t: Term)
    ensures t.Immutable? && (IsLiteral(t.t) || Ends(p, ops, visiting, file, t.t)) ==> Ends(p, ops, visiting, file, t)
    ensures t.Unary? && Ends(p, ops, visiting, file, t.operand) ==> Ends(p, ops, visiting, file, t)
    ensures t.Template? && (t.spans == [] || (|t.spans| == 1 && Ends(p, ops, visiting, file, t.spans[0].t))) ==>
      Ends(p, ops, visiting, file, t)
    ensures t.Member? && LookFollowed(p, ops, visiting, file, t.owner, t.key) ==> Ends(p, ops, visiting, file, t)
    ensures t.Index? && t.at.Lit? && LookFollowed(p, ops, visiting, file, t.owner, ops.text(t.at.p)) ==>
      Ends(p, ops, visiting, file, t)
    ensures IsLiteral(t) || t.Lit? || t.Opaque? || t.Other? || t.Ref? ==> Ends(p, ops, visiting, file, t)
  {
    hide Followed;
    if t.Immutable? && Ends(p, ops, visiting, file, t.t) {
      var n: nat :| Unfolds(p, ops, visiting, file, t.t, n);
      assert Unfolds(p, ops, visiting, file, t, n);
    } else if t.Unary? && Ends(p, ops, visiting, file, t.operand) {
      var n: nat :| Unfolds(p, ops, visiting, file, t.operand, n);
      assert Unfolds(p, ops, visiting, file, t, n);
    } else if t.Template? && |t.spans| == 1 && Ends(p, ops, visiting, file, t.spans[0].t) {
      var n: nat :| Unfolds(p, ops, visiting, file, t.spans[0].t, n);
      assert Unfolds(p, ops, visiting, file, t, n);
    } else if t.Member? && LookFollowed(p, ops, visiting, file, t.owner, t.key) {
      var n: nat :|
        Unfolds(p, ops, visiting, file, t.owner, n) && Followed(p, ops, visiting, file, t.owner, t.key, n);
      assert Unfolds(p, ops, visiting, file, t, n);
    } else if t.Index? && t.at.Lit? && LookFollowed(p, ops, visiting, file, t.owner, ops.text(t.at.p)) {
      var n: nat :|
        Unfolds(p, ops, visiting, file, t.owner, n) && Followed(p, ops, visiting, file, t.owner, ops.text(t.at.p), n);
      assert Unfolds(p, ops, visiting, file, t, n);
    } else {
      assert (IsLiteral(t) || t.Lit? || t.Opaque? || t.Other? || t.Ref? || (t.Immutable? && IsLiteral(t.t))
              || (t.Template? && t.spans == [])) ==> Unfolds(p, ops, visiting, file, t, 0);
    }
  }

  lemma OperandsEnd(p: Program, ops: Ops, visiting: set<Key>, file: string, t: Term)
    ensures t.Binary? && Ends(p, ops, visiting, file, t.left) && Ends(p, ops, visiting, file, t.right) ==>
      Ends(p, ops, visiting, file, t)
    ensures (t.Cond? && Ends(p, ops, visiting, file, t.condition) && Ends(p, ops, visiting, file, t.yes)
             && Ends(p, ops, visiting, file, t.no)) ==> Ends(p, ops, visiting, file, t)
  {
    if t.Binary? && Ends(p, ops, visiting, file, t.left) && Ends(p, ops, visiting, file, t.right) {
      EndsBoth(p, ops, visiting, file, t.left, t.right);
      var n: nat :| Unfolds(p, ops, visiting, file, t.left, n) && Unfolds(p, ops, visiting, file, t.right, n);
      assert Unfolds(p, ops, visiting, file, t, n);
    } else if t.Cond? && Ends(p, ops, visiting, file, t.condition) && Ends(p, ops, visiting, file, t.yes)
      && Ends(p, ops, visiting, file, t.no) {
      EndsAll(p, ops, visiting, file, t.condition, t.yes, t.no);
      var n: nat :|
        Unfolds(p, ops, visiting, file, t.condition, n) && Unfolds(p, ops, visiting, file, t.yes, n)
        && Unfolds(p, ops, visiting, file, t.no, n);
      assert Unfolds(p, ops, visiting, file, t, n);
    }
  }

  lemma CirclingGoesOn(p: Program, ops: Ops, visiting: set<Key>, file: string, t: Term)
    requires Table(p, ops, visiting, file) && t in Circling(p, ops, visiting, file)
    ensures GoesOn(p, ops, visiting, file, t, Circling(p, ops, visiting, file))
  {
    hide Source, LooksInto, LookFollowed, Ends;
    PartsEnd(p, ops, visiting, file, t);
    OperandsEnd(p, ops, visiting, file, t);
    if t.Member? {
      LooksRound(p, ops, visiting, file, t.owner, t.key);
    } else if t.Index? {
      LooksRound(p, ops, visiting, file, t.owner, ops.text(t.at.p));
    }
  }

  lemma CirclingIsEndless(p: Program, ops: Ops, visiting: set<Key>, file: string, t: Term)
    requires Table(p, ops, visiting, file) && Direct(p, ops, visiting, file, t) && !Ends(p, ops, visiting, file, t)
    ensures Endless(p, ops, visiting, file, t)
  {
    hide Direct, Ends, GoesOn;
    var c := Circling(p, ops, visiting, file);
    forall u | u in c ensures GoesOn(p, ops, visiting, file, u, c) {
      CirclingGoesOn(p, ops, visiting, file, u);
    }
    assert GoesRound(p, ops, visiting, file, c);
  }

  // ---------- exactly ----------

  /** The definition looks only into tables, while it is being evaluated itself. */
  ghost predicate Tabular(p: Program, ops: Ops, file: string, name: string, init: Term) {
    && Defines(p, file, name, init)
    && Table(p, ops, {M.Named(file, name)}, file) && Direct(p, ops, {M.Named(file, name)}, file, init)
  }

  function FuelFor(p: Program, ops: Ops, file: string, name: string, init: Term, n: nat): nat {
    Level(|p.stars|, Max(1, Need(p, ops, {M.Named(file, name)}, file, init, n)), |Keys(p)|) + |p.stars| + 1
  }

  lemma TableFuel(p: Program, ops: Ops, file: string, name: string, init: Term, n: nat)
    requires Tabular(p, ops, file, name, init) && Unfolds(p, ops, {M.Named(file, name)}, file, init, n)
    ensures forall fuel: nat :: fuel >= FuelFor(p, ops, file, name, init, n) ==>
      KeyFuel(p, ops, {}, M.Named(file, name), fuel)
  {
    hide Table, Direct, Unfolds, Need, Ordered, KeyFuel, Level, Keys, DepthOf;
    var visiting := {M.Named(file, name)};
    TableIsOrdered(p, ops, visiting, file, init);
    DepthIsNeed(p, ops, visiting, file, init, n);
    OrderedFuel(p, ops, OrderOf(p, ops, visiting, file, init), M.Named(file, name));
  }

  /**
   * A definition over tables is answered, with enough fuel, exactly if following its references comes to an end;
   * otherwise no fuel is enough.
   */
  method Ask(p: Program, ops: Ops, file: string, name: string, init: Term, fuel: nat) returns (r: Option<Verdict>)
    requires Tabular(p, ops, file, name, init)
    ensures forall n ::
      Unfolds(p, ops, {M.Named(file, name)}, file, init, n) && fuel >= FuelFor(p, ops, file, name, init, n) ==> r.Some?
    ensures !Ends(p, ops, {M.Named(file, name)}, file, init) ==> r.None?
  {
    hide Table, Direct, Unfolds, KeyFuel, FuelFor, Endless;
    var e := new Evaluator(p, ops);
    var k := M.Named(file, name);
    forall n: nat | Unfolds(p, ops, {k}, file, init, n) && fuel >= FuelFor(p, ops, file, name, init, n)
      ensures KeyFuel(p, ops, {}, k, fuel)
    {
      TableFuel(p, ops, file, name, init, n);
    }
    if !Ends(p, ops, {k}, file, init) {
      CirclingIsEndless(p, ops, {k}, file, init);
      assert {} + {k} == {k};
      assert EndlessKey(p, ops, {} + {k}, k);
    }
    r := e.Answer(file, name, fuel);
  }
}
