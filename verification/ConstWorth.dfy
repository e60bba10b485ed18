/**
 * What the answers are where definitions do not go round: a verdict for every definition and term that follows from
 * the verdicts of what it refers to, whatever has been asked before.
 */
module ConstWorth {
  import opened Options
  import opened ConstTerms
  import opened ConstFolding
  import opened ConstPromise
  import opened ConstSound
  import opened ConstFuel
  import opened ConstExposed
  import M = ModuleState

  /** Definitions and terms with a verdict for each; what something refers to ranks lower. */
  datatype Worth = Worth(items: iset<Item>, value: Item -> Verdict, rank: Item -> nat)

  // ---------- the verdicts that follow ----------

  /** The item belongs to the worth and ranks lower. */
  ghost predicate Under(w: Worth, item: Item, rank: nat) { item in w.items && w.rank(item) < rank }

  /** What a key of an owner refers to. */
  function LookItem(ops: Ops, owner: Verdict, key: string): Option<Item> {
    match owner
    case OfModule(file) => Some(Def(M.Exported(file, key)))
    case OfLiteral(file, t) => if IsLiteral(t) then FoundItem(file, Find(ops, t, key)) else None
    case _ => None
  }

  function FoundItem(file: string, found: Found): Option<Item> {
    match found
    case Value(v) => if IsLiteral(v) then None else Some(At(file, v))
    case Binding(name) => Some(Def(M.Named(file, name)))
    case _ => None
  }

  /** A refusal inside a literal is none of the literal. */
  function Unrefused(v: Verdict): Verdict { if v == State then Safe else v }

  /** The verdict of a key of an owner. */
  ghost function Looked(ops: Ops, w: Worth, owner: Verdict, key: string): Verdict {
    match owner
    case State => State
    case Safe => Safe
    case Prim(q) => if key == "length" && q.Text? then Verdict.Prim(M.Num(|q.s|)) else Safe
    case OfModule(file) => w.value(Def(M.Exported(file, key)))
    case OfLiteral(file, t) => if IsLiteral(t) then FoundWorth(w, file, Find(ops, t, key)) else Safe
  }

  ghost function FoundWorth(w: Worth, file: string, found: Found): Verdict {
    match found
    case Value(v) => if IsLiteral(v) then OfLiteral(file, v) else Unrefused(w.value(At(file, v)))
    case Binding(name) => Unrefused(w.value(Def(M.Named(file, name))))
    case Length(n) => Verdict.Prim(M.Num(n))
    case Absent => Verdict.Prim(M.Undefined)
    case Unknown => Safe
  }

  ghost predicate LookFits(ops: Ops, w: Worth, owner: Verdict, key: string, rank: nat) {
    var item := LookItem(ops, owner, key);
    rank > 0 && (item.Some? ==> Under(w, item.value, rank))
  }

  /** The text of the first k spans. */
  ghost function SpanTexts(ops: Ops, w: Worth, file: string, t: Term, k: nat): string
    requires t.Template? && k <= |t.spans|
  {
    if k == 0 then t.head
    else
      var v := w.value(At(file, t.spans[k - 1].t));
      SpanTexts(ops, w, file, t, k - 1) + (if v.Prim? then ops.text(v.p) else "") + t.spans[k - 1].text
  }

  /** The verdict of a term follows from those of its parts. */
  ghost predicate TermFollows(ops: Ops, w: Worth, file: string, t: Term) {
    var v, rank := w.value(At(file, t)), w.rank(At(file, t));
    match t
    case Lit(q) => v == Verdict.Prim(q)
    case Opaque(_) => v == Safe
    case Other(_) => v == State
    case Object(_, _) => v == State
    case Array(_, _) => v == State
    case Immutable(inner) =>
      if IsLiteral(inner) then rank > 0 && v == OfLiteral(file, inner)
      else
        var w' := w.value(At(file, inner));
        Under(w, At(file, inner), rank) && v == if w'.Prim? then w' else State
    case Ref(name, _) =>
      Under(w, Def(M.Named(file, name)), rank) && v == w.value(Def(M.Named(file, name)))
    case Member(owner, key) =>
      && Under(w, At(file, owner), rank) && LookFits(ops, w, w.value(At(file, owner)), key, rank)
      && v == Looked(ops, w, w.value(At(file, owner)), key)
    case Index(owner, at) =>
      && Under(w, At(file, at), rank)
      && (if w.value(At(file, at)).Prim? then
            var key := ops.text(w.value(At(file, at)).p);
            && Under(w, At(file, owner), rank) && LookFits(ops, w, w.value(At(file, owner)), key, rank)
            && v == Looked(ops, w, w.value(At(file, owner)), key)
          else v == State)
    case Template(_, spans) =>
      && (forall i :: 0 <= i < |spans| ==> Under(w, At(file, spans[i].t), rank))
      && v == (if forall i :: 0 <= i < |spans| ==> w.value(At(file, spans[i].t)).Prim?
               then Verdict.Prim(M.Text(SpanTexts(ops, w, file, t, |spans|))) else State)
    case Cond(c, yes, no) =>
      var c', yes', no' := w.value(At(file, c)), w.value(At(file, yes)), w.value(At(file, no));
      && Under(w, At(file, c), rank) && Under(w, At(file, yes), rank) && Under(w, At(file, no), rank)
      && v == if c'.Prim? && yes'.Prim? && no'.Prim? then (if ops.truthy(c'.p) then yes' else no') else State
    case Unary(op, operand) =>
      var d := w.value(At(file, operand));
      && Under(w, At(file, operand), rank)
      && v == if d.Prim? && ops.unary(op, d.p).Some? then Verdict.Prim(ops.unary(op, d.p).value) else State
    case Binary(op, left, right) =>
      var l, r := w.value(At(file, left)), w.value(At(file, right));
      && Under(w, At(file, left), rank) && Under(w, At(file, right), rank)
      && (!l.Prim? || !r.Prim? ==> v == State)
      && (l.Prim? && r.Prim? ==>
            match op
            case And => v == if ops.truthy(l.p) then r else l
            case Or => v == if ops.truthy(l.p) then l else r
            case Coalesce => v == if l.p == M.Undefined || l.p == M.Null then r else l
            case Comma => v == r
            case Token(token) =>
              var result := ops.binary(token, l.p, r.p);
              v == if result.Some? then Verdict.Prim(result.value) else State)
  }

  // ---------- destructured names ----------

  ghost predicate KeyIs(ops: Ops, w: Worth, file: string, access: Access, key: string) {
    match access
    case Static(text) => key == text
    case Dynamic(at) => w.value(At(file, at)).Prim? && key == ops.text(w.value(At(file, at)).p)
  }

  /** Following an access leads from one verdict to another. */
  ghost predicate CrossFollows(ops: Ops, w: Worth, file: string, owner: Verdict, access: Access, v: Verdict, rank: nat)
  {
    && (access.Dynamic? ==> Under(w, At(file, access.at), rank))
    && if access.Dynamic? && !w.value(At(file, access.at)).Prim? then v == State
       else forall key :: KeyIs(ops, w, file, access, key) ==>
         LookFits(ops, w, owner, key, rank) && v == Looked(ops, w, owner, key)
  }

  /** The first i defaults filled in. */
  ghost function FilledIn(w: Worth, file: string, fallbacks: seq<Term>, first: Verdict, i: nat): Verdict
    requires i <= |fallbacks|
  {
    if i == 0 then first
    else
      var v := FilledIn(w, file, fallbacks, first, i - 1);
      if v == Verdict.Prim(M.Undefined) then w.value(At(file, fallbacks[i - 1])) else v
  }

  ghost predicate StepFollows(ops: Ops, w: Worth, file: string, bound: Bound, ways: seq<(Verdict, Verdict)>, j: nat,
                              rank: nat)
    requires j < |bound.access| && |ways| == |bound.access| + 1
  {
    var fallbacks := DefaultsAt(bound.defaults, j + 1);
    && CrossFollows(ops, w, file, ways[j].1, bound.access[j], ways[j + 1].0, rank)
    && ways[j + 1].1 == FilledIn(w, file, fallbacks, ways[j + 1].0, |fallbacks|)
    && forall i :: 0 <= i < |fallbacks| ==> Under(w, At(file, fallbacks[i]), rank)
  }

  /** The verdicts on the way, before and after the defaults of each access. */
  ghost predicate PathFollows(ops: Ops, w: Worth, file: string, init: Term, bound: Bound,
                              ways: seq<(Verdict, Verdict)>, rank: nat)
  {
    && |ways| == |bound.access| + 1 && Under(w, At(file, init), rank) && ways[0].1 == w.value(At(file, init))
    && forall j :: 0 <= j < |bound.access| ==> StepFollows(ops, w, file, bound, ways, j, rank)
  }

  /** A default of one of the first k accesses is refused. */
  ghost predicate DefaultRefused(w: Worth, file: string, bound: Bound, k: nat) {
    exists j: nat :: j < k && DepthRefused(w, file, bound, j)
  }

  ghost predicate DepthRefused(w: Worth, file: string, bound: Bound, j: nat) {
    SomeRefused(w, file, DefaultsAt(bound.defaults, j + 1))
  }

  ghost predicate SomeRefused(w: Worth, file: string, fallbacks: seq<Term>) {
    exists i :: 0 <= i < |fallbacks| && w.value(At(file, fallbacks[i])) == State
  }

  ghost predicate PathGives(ops: Ops, w: Worth, file: string, init: Term, bound: Bound, v: Verdict, rank: nat) {
    exists ways :: PathFollows(ops, w, file, init, bound, ways, rank) && v == PathEnd(w, file, bound, ways)
  }

  ghost function PathEnd(w: Worth, file: string, bound: Bound, ways: seq<(Verdict, Verdict)>): Verdict
    requires |ways| == |bound.access| + 1
  {
    if DefaultRefused(w, file, bound, |bound.access|) then State else ways[|bound.access|].1
  }

  // ---------- definitions ----------

  /** The first verdict of the modules asked that is no refusal. */
  ghost function FirstStar(p: Program, w: Worth, targets: seq<string>, name: string, i: nat): Verdict
    requires i <= |targets|
  {
    if i == 0 then State
    else
      var before := FirstStar(p, w, targets, name, i - 1);
      if before != State || !Tried(p, targets[i - 1], name) then before
      else w.value(Def(M.Exported(targets[i - 1], name)))
  }

  ghost predicate KeyFollows(p: Program, ops: Ops, w: Worth, k: Key) {
    var v, rank := w.value(Def(k)), w.rank(Def(k));
    match k
    case Named(file, name) =>
      if (file, name) !in p.locals then
        && (name == "undefined" ==> v == Verdict.Prim(M.Undefined))
        && (name == "NaN" ==> v == Verdict.Prim(M.NotANumber))
        && (name == "Infinity" ==> v == Verdict.Prim(M.Infinite)) && (M.IsBuiltin(name) ==> v == Safe)
        && (!M.IsBuiltin(name) && !M.IsNamedPrimitive(name) ==> v == State)
      else (match p.locals[(file, name)]
        case Const(_, init, bound) => PathGives(ops, w, file, init, bound, v, rank)
        case Import(source, exported) =>
          && (source.None? ==> v == Safe)
          && (source.Some? ==>
                Under(w, Def(M.Exported(source.value, exported)), rank) &&
                v == w.value(Def(M.Exported(source.value, exported))))
        case Star(source) => v == if source.None? then Safe else OfModule(source.value)
        case Declared => v == Safe
        case Mutable => v == State)
    case Exported(file, name) =>
      if (file, name) in p.exports then
        (match p.exports[(file, name)]
         case FromFile(source, exported) =>
           && (source.None? ==> v == Safe)
           && (source.Some? ==>
                 var k' := if source.value == file then M.Named(file, exported) else M.Exported(source.value, exported);
                 Under(w, Def(k'), rank) && v == w.value(Def(k')))
         case Standard(t) => Under(w, At(file, t), rank) && v == w.value(At(file, t)))
      else if file !in p.stars then v == State
      else
        && (forall target :: target in p.stars[file] && Tried(p, target, name) ==>
              Under(w, Def(M.Exported(target, name)), rank))
        && v == FirstStar(p, w, p.stars[file], name, |p.stars[file]|)
  }

  ghost predicate Follows(p: Program, ops: Ops, w: Worth, item: Item) {
    match item
    case Def(k) => KeyFollows(p, ops, w, k)
    case At(file, t) => TermFollows(ops, w, file, t)
    case In(_, _) => true
  }

  ghost predicate Fits(p: Program, ops: Ops, w: Worth) { forall item :: item in w.items ==> Follows(p, ops, w, item) }

  lemma FitTerm(p: Program, ops: Ops, w: Worth, file: string, t: Term)
    requires Fits(p, ops, w) && At(file, t) in w.items
    ensures TermFollows(ops, w, file, t)
  {
    hide TermFollows;
    assert Follows(p, ops, w, At(file, t));
  }

  lemma FitKey(p: Program, ops: Ops, w: Worth, k: Key)
    requires Fits(p, ops, w) && Def(k) in w.items
    ensures KeyFollows(p, ops, w, k)
  {
    hide KeyFollows;
    assert Follows(p, ops, w, Def(k));
  }

  // ---------- questions and answers ----------

  type Cache = map<Key, Verdict>

  /** What has been answered so far is what follows. */
  ghost predicate Agree(w: Worth, cache: Cache) {
    forall k :: k in cache && Def(k) in w.items ==> cache[k] == w.value(Def(k))
  }

  /** Nothing of the worth is being visited. */
  ghost predicate Free(w: Worth, visiting: set<Key>) { forall k :: k in visiting ==> Def(k) !in w.items }

  /** What is being visited ranks at least so high. */
  ghost predicate NoneBelow(w: Worth, visiting: set<Key>, rank: nat) {
    forall k :: k in visiting && Def(k) in w.items ==> rank <= w.rank(Def(k))
  }

  ghost predicate Replies(w: Worth, item: Item, fuel: nat, r: Option<Verdict>) {
    (r.Some? ==> r.value == w.value(item)) && (fuel > 2 * w.rank(item) ==> r.Some?)
  }

  /** The worths for which the item is evaluated from this state. */
  ghost predicate Scope(p: Program, ops: Ops, w: Worth, c: Cache, visiting: set<Key>, item: Item) {
    Fits(p, ops, w) && Agree(w, c) && item in w.items && NoneBelow(w, visiting, w.rank(item))
  }

  /** Evaluating for the item has kept the cache right. */
  ghost predicate Steady(p: Program, ops: Ops, c: Cache, visiting: set<Key>, c': Cache, item: Item) {
    && (forall w :: Fits(p, ops, w) && Agree(w, c) && Free(w, visiting) ==> Agree(w, c'))
    && (forall w :: Scope(p, ops, w, c, visiting, item) ==> Agree(w, c'))
  }

  /** The item was evaluated with this fuel and has this answer. */
  ghost predicate Solved(p: Program, ops: Ops, c: Cache, visiting: set<Key>, c': Cache, item: Item, fuel: nat,
                         r: Option<Verdict>) {
    && Steady(p, ops, c, visiting, c', item)
    && forall w :: Scope(p, ops, w, c, visiting, item) ==> Replies(w, item, fuel, r)
  }

  /** The same where the item itself is not being visited. */
  ghost predicate Asked(p: Program, ops: Ops, c: Cache, visiting: set<Key>, c': Cache, item: Item, fuel: nat,
                        r: Option<Verdict>) {
    && (forall w :: Fits(p, ops, w) && Agree(w, c) && Free(w, visiting) ==> Agree(w, c'))
    && (forall w :: Scope(p, ops, w, c, visiting, item) && NoneBelow(w, visiting, w.rank(item) + 1) ==>
          Agree(w, c') && Replies(w, item, fuel, r))
  }

  /** In every worth in question the part has this verdict. */
  ghost predicate Known(p: Program, ops: Ops, c: Cache, visiting: set<Key>, item: Item, part: Item, v: Verdict) {
    forall w :: Scope(p, ops, w, c, visiting, item) ==> w.value(part) == v
  }

  /** In every worth in question the part belongs to it and ranks lower. */
  ghost predicate PartOf(p: Program, ops: Ops, c: Cache, visiting: set<Key>, item: Item, part: Item) {
    forall w :: Scope(p, ops, w, c, visiting, item) ==> Under(w, part, w.rank(item))
  }

  /** The fuel is not more than twice the rank. */
  ghost predicate Scarce(p: Program, ops: Ops, c: Cache, visiting: set<Key>, item: Item, fuel: nat) {
    forall w :: Scope(p, ops, w, c, visiting, item) ==> fuel <= 2 * w.rank(item)
  }

  lemma SteadyAtFirst(p: Program, ops: Ops, c: Cache, visiting: set<Key>, item: Item)
    ensures Steady(p, ops, c, visiting, c, item)
  {
    hide Fits;
  }

  lemma SolvedIsAsked(p: Program, ops: Ops, c: Cache, visiting: set<Key>, c': Cache, item: Item, fuel: nat,
                      r: Option<Verdict>)
    requires Solved(p, ops, c, visiting, c', item, fuel, r)
    ensures Asked(p, ops, c, visiting, c', item, fuel, r)
  {
    hide Fits, Agree, NoneBelow;
  }

  /** One part more has been evaluated. */
  lemma PartAsked(p: Program, ops: Ops, c: Cache, visiting: set<Key>, c': Cache, c'': Cache, item: Item, part: Item,
                  fuel: nat, r: Option<Verdict>)
    requires Steady(p, ops, c, visiting, c', item) && PartOf(p, ops, c, visiting, item, part)
    requires Asked(p, ops, c', visiting, c'', part, fuel, r)
    ensures Steady(p, ops, c, visiting, c'', item)
    ensures r.Some? ==> Known(p, ops, c, visiting, item, part, r.value)
    ensures r.None? ==> Scarce(p, ops, c, visiting, item, fuel + 2)
  {
    hide Fits, Agree, Free;
    forall w | Scope(p, ops, w, c, visiting, item) ensures Agree(w, c'') && Replies(w, part, fuel, r) {
      BelowPart(w, visiting, w.rank(item), w.rank(part));
      assert Scope(p, ops, w, c', visiting, part);
    }
    forall w | Fits(p, ops, w) && Agree(w, c) && Free(w, visiting) ensures Agree(w, c'') {
      assert Agree(w, c');
    }
  }

  lemma BelowPart(w: Worth, visiting: set<Key>, rank: nat, part: nat)
    requires NoneBelow(w, visiting, rank) && part < rank
    ensures NoneBelow(w, visiting, part) && NoneBelow(w, visiting, part + 1)
  {
  }

  lemma NotEnough(p: Program, ops: Ops, c: Cache, visiting: set<Key>, c': Cache, item: Item, fuel: nat, more: nat)
    requires Steady(p, ops, c, visiting, c', item) && Scarce(p, ops, c, visiting, item, more) && fuel <= more
    ensures Solved(p, ops, c, visiting, c', item, fuel, None)
  {
    hide Fits, Agree, Free, NoneBelow;
  }

  lemma NoFuel(p: Program, ops: Ops, c: Cache, visiting: set<Key>, item: Item)
    ensures Solved(p, ops, c, visiting, c, item, 0, None)
  {
    hide Fits;
  }

  /** The verdict is known to be the one that follows. */
  ghost predicate Due(p: Program, ops: Ops, c: Cache, visiting: set<Key>, item: Item, v: Verdict) {
    forall w :: Scope(p, ops, w, c, visiting, item) ==> v == w.value(item)
  }

  lemma DueIsSolved(p: Program, ops: Ops, c: Cache, visiting: set<Key>, c': Cache, item: Item, fuel: nat, v: Verdict)
    requires Steady(p, ops, c, visiting, c', item) && Due(p, ops, c, visiting, item, v)
    ensures Solved(p, ops, c, visiting, c', item, fuel, Some(v))
  {
    hide Fits, Agree, Free, NoneBelow;
  }

  // ---------- terms ----------

  lemma ScopeTerm(p: Program, ops: Ops, w: Worth, c: Cache, visiting: set<Key>, file: string, t: Term)
    requires Scope(p, ops, w, c, visiting, At(file, t))
    ensures TermFollows(ops, w, file, t)
  {
    hide Fits, TermFollows, Agree, NoneBelow;
    FitTerm(p, ops, w, file, t);
  }

  lemma ScopeKey(p: Program, ops: Ops, w: Worth, c: Cache, visiting: set<Key>, k: Key)
    requires Scope(p, ops, w, c, visiting, Def(k))
    ensures KeyFollows(p, ops, w, k)
  {
    hide Fits, KeyFollows, Agree, NoneBelow;
    FitKey(p, ops, w, k);
  }

  /** Terms that need nothing else. */
  predicate IsPlain(t: Term) {
    t.Lit? || t.Opaque? || t.Other? || IsLiteral(t) || (t.Immutable? && IsLiteral(t.t))
  }

  function PlainVerdict(file: string, t: Term): Verdict
    requires IsPlain(t)
  {
    match t
    case Lit(q) => Verdict.Prim(q)
    case Opaque(_) => Safe
    case Immutable(inner) => OfLiteral(file, inner)
    case _ => State
  }

  lemma PlainDue(p: Program, ops: Ops, c: Cache, visiting: set<Key>, file: string, t: Term, fuel: nat)
    requires IsPlain(t)
    ensures Solved(p, ops, c, visiting, c, At(file, t), fuel, Some(PlainVerdict(file, t)))
  {
    hide Scope;
    SteadyAtFirst(p, ops, c, visiting, At(file, t));
    forall w | Scope(p, ops, w, c, visiting, At(file, t)) ensures PlainVerdict(file, t) == w.value(At(file, t)) {
      ScopeTerm(p, ops, w, c, visiting, file, t);
    }
    DueIsSolved(p, ops, c, visiting, c, At(file, t), fuel, PlainVerdict(file, t));
  }

  /** The parts every evaluation of the term begins with or needs. */
  predicate NeedsTerm(t: Term, part: Term) {
    match t
    case Immutable(inner) => !IsLiteral(inner) && part == inner
    case Member(owner, _) => part == owner
    case Index(_, at) => part == at
    case Template(_, spans) => exists i :: 0 <= i < |spans| && part == spans[i].t
    case Cond(c, yes, no) => part == c || part == yes || part == no
    case Unary(_, operand) => part == operand
    case Binary(_, l, r) => part == l || part == r
    case _ => false
  }

  lemma NeededPart(p: Program, ops: Ops, c: Cache, visiting: set<Key>, file: string, t: Term, part: Term)
    requires NeedsTerm(t, part)
    ensures PartOf(p, ops, c, visiting, At(file, t), At(file, part))
  {
    hide Scope;
    forall w | Scope(p, ops, w, c, visiting, At(file, t)) ensures Under(w, At(file, part), w.rank(At(file, t))) {
      ScopeTerm(p, ops, w, c, visiting, file, t);
    }
  }

  lemma NeededName(p: Program, ops: Ops, c: Cache, visiting: set<Key>, file: string, t: Term)
    requires t.Ref?
    ensures PartOf(p, ops, c, visiting, At(file, t), Def(M.Named(file, t.name)))
  {
    hide Scope;
    forall w | Scope(p, ops, w, c, visiting, At(file, t))
      ensures Under(w, Def(M.Named(file, t.name)), w.rank(At(file, t)))
    {
      ScopeTerm(p, ops, w, c, visiting, file, t);
    }
  }

  lemma RefDue(p: Program, ops: Ops, c: Cache, visiting: set<Key>, file: string, t: Term, v: Verdict)
    requires t.Ref? && Known(p, ops, c, visiting, At(file, t), Def(M.Named(file, t.name)), v)
    ensures Due(p, ops, c, visiting, At(file, t), v)
  {
    hide Scope;
    forall w | Scope(p, ops, w, c, visiting, At(file, t)) ensures v == w.value(At(file, t)) {
      ScopeTerm(p, ops, w, c, visiting, file, t);
    }
  }

  lemma ImmutableDue(p: Program, ops: Ops, c: Cache, visiting: set<Key>, file: string, t: Term, v: Verdict)
    requires !IsLiteral(t) && Known(p, ops, c, visiting, At(file, Immutable(t)), At(file, t), v)
    ensures Due(p, ops, c, visiting, At(file, Immutable(t)), OnlyPrimitive(v))
  {
    hide Scope;
    forall w | Scope(p, ops, w, c, visiting, At(file, Immutable(t)))
      ensures OnlyPrimitive(v) == w.value(At(file, Immutable(t)))
    {
      ScopeTerm(p, ops, w, c, visiting, file, Immutable(t));
    }
  }

  lemma CondDue(p: Program, ops: Ops, c: Cache, visiting: set<Key>, file: string, t: Term, condition: Verdict,
                yes: Verdict, no: Verdict)
    requires t.Cond? && Known(p, ops, c, visiting, At(file, t), At(file, t.condition), condition)
    requires Known(p, ops, c, visiting, At(file, t), At(file, t.yes), yes)
    requires Known(p, ops, c, visiting, At(file, t), At(file, t.no), no)
    ensures Due(p, ops, c, visiting, At(file, t), Picked(ops, condition, yes, no))
  {
    hide Scope;
    forall w | Scope(p, ops, w, c, visiting, At(file, t))
      ensures Picked(ops, condition, yes, no) == w.value(At(file, t))
    {
      ScopeTerm(p, ops, w, c, visiting, file, t);
    }
  }

  lemma UnaryDue(p: Program, ops: Ops, c: Cache, visiting: set<Key>, file: string, t: Term, v: Verdict)
    requires t.Unary? && Known(p, ops, c, visiting, At(file, t), At(file, t.operand), v)
    ensures Due(p, ops, c, visiting, At(file, t), Applied(ops, t.uop, v))
  {
    hide Scope;
    forall w | Scope(p, ops, w, c, visiting, At(file, t)) ensures Applied(ops, t.uop, v) == w.value(At(file, t)) {
      ScopeTerm(p, ops, w, c, visiting, file, t);
    }
  }

  lemma BinaryDue(p: Program, ops: Ops, c: Cache, visiting: set<Key>, file: string, t: Term, l: Verdict, r: Verdict)
    requires t.Binary? && Known(p, ops, c, visiting, At(file, t), At(file, t.left), l)
    requires Known(p, ops, c, visiting, At(file, t), At(file, t.right), r)
    ensures Due(p, ops, c, visiting, At(file, t), Applied2(ops, t.bop, l, r))
  {
    hide Scope;
    forall w | Scope(p, ops, w, c, visiting, At(file, t)) ensures Applied2(ops, t.bop, l, r) == w.value(At(file, t)) {
      ScopeTerm(p, ops, w, c, visiting, file, t);
    }
  }

  // ---------- templates ----------

  /** The text of the first k spans, all of them primitives. */
  ghost predicate SpansKnown(p: Program, ops: Ops, c: Cache, visiting: set<Key>, file: string, t: Term, k: nat,
                             text: string)
    requires t.Template? && k <= |t.spans|
  {
    forall w :: Scope(p, ops, w, c, visiting, At(file, t)) ==>
      SpanTexts(ops, w, file, t, k) == text && SpansPrim(w, file, t, k)
  }

  ghost predicate SpansPrim(w: Worth, file: string, t: Term, k: nat)
    requires t.Template? && k <= |t.spans|
  {
    forall i :: 0 <= i < k ==> w.value(At(file, t.spans[i].t)).Prim?
  }

  lemma NoSpanKnown(p: Program, ops: Ops, c: Cache, visiting: set<Key>, file: string, t: Term)
    requires t.Template?
    ensures SpansKnown(p, ops, c, visiting, file, t, 0, t.head)
  {
    hide Scope;
  }

  lemma NextSpanKnown(p: Program, ops: Ops, c: Cache, visiting: set<Key>, file: string, t: Term, k: nat, text: string,
                      q: ConstTerms.Prim)
    requires t.Template? && k < |t.spans| && SpansKnown(p, ops, c, visiting, file, t, k, text)
    requires Known(p, ops, c, visiting, At(file, t), At(file, t.spans[k].t), Verdict.Prim(q))
    ensures SpansKnown(p, ops, c, visiting, file, t, k + 1, text + ops.text(q) + t.spans[k].text)
  {
    hide Scope;
  }

  lemma SpanRefused(p: Program, ops: Ops, c: Cache, visiting: set<Key>, file: string, t: Term, k: nat, v: Verdict)
    requires t.Template? && k < |t.spans| && !v.Prim?
    requires Known(p, ops, c, visiting, At(file, t), At(file, t.spans[k].t), v)
    ensures Due(p, ops, c, visiting, At(file, t), State)
  {
    hide Scope, SpanTexts;
    forall w | Scope(p, ops, w, c, visiting, At(file, t)) ensures w.value(At(file, t)) == State {
      ScopeTerm(p, ops, w, c, visiting, file, t);
      assert w.value(At(file, t.spans[k].t)) == v;
    }
  }

  lemma TemplateDue(p: Program, ops: Ops, c: Cache, visiting: set<Key>, file: string, t: Term, text: string)
    requires t.Template? && SpansKnown(p, ops, c, visiting, file, t, |t.spans|, text)
    ensures Due(p, ops, c, visiting, At(file, t), Verdict.Prim(M.Text(text)))
  {
    hide Scope, SpanTexts;
    forall w | Scope(p, ops, w, c, visiting, At(file, t)) ensures w.value(At(file, t)) == Verdict.Prim(M.Text(text)) {
      ScopeTerm(p, ops, w, c, visiting, file, t);
      assert SpansPrim(w, file, t, |t.spans|);
    }
  }

  // ---------- looking something up for an item ----------

  /** In every worth in question what the key of the owner refers to ranks lower than the item. */
  ghost predicate LookReady(p: Program, ops: Ops, c: Cache, visiting: set<Key>, item: Item, owner: Verdict, key: string)
  {
    forall w :: Scope(p, ops, w, c, visiting, item) ==> LookFits(ops, w, owner, key, w.rank(item))
  }

  ghost predicate FoundReady(p: Program, ops: Ops, c: Cache, visiting: set<Key>, item: Item, file: string, found: Found)
  {
    forall w :: Scope(p, ops, w, c, visiting, item) ==>
      FoundItem(file, found).Some? ==> Under(w, FoundItem(file, found).value, w.rank(item))
  }

  /** The answer is the verdict of the key, or the fuel did not suffice for it. */
  ghost predicate LookedAs(p: Program, ops: Ops, c: Cache, visiting: set<Key>, item: Item, owner: Verdict, key: string,
                           fuel: nat, r: Option<Verdict>) {
    && (r.Some? ==> forall w :: Scope(p, ops, w, c, visiting, item) ==> r.value == Looked(ops, w, owner, key))
    && (r.None? ==> Scarce(p, ops, c, visiting, item, fuel + 1))
  }

  ghost predicate FoundAs(p: Program, ops: Ops, c: Cache, visiting: set<Key>, item: Item, file: string, found: Found,
                          fuel: nat, r: Option<Verdict>) {
    && (r.Some? ==> forall w :: Scope(p, ops, w, c, visiting, item) ==> r.value == FoundWorth(w, file, found))
    && (r.None? ==> Scarce(p, ops, c, visiting, item, fuel + 2))
  }

  lemma MemberReady(p: Program, ops: Ops, c: Cache, visiting: set<Key>, file: string, t: Term, owner: Verdict)
    requires t.Member? && Known(p, ops, c, visiting, At(file, t), At(file, t.owner), owner)
    ensures LookReady(p, ops, c, visiting, At(file, t), owner, t.key)
  {
    hide Scope, LookFits;
    forall w | Scope(p, ops, w, c, visiting, At(file, t)) ensures LookFits(ops, w, owner, t.key, w.rank(At(file, t))) {
      ScopeTerm(p, ops, w, c, visiting, file, t);
    }
  }

  lemma MemberDue(p: Program, ops: Ops, c: Cache, visiting: set<Key>, file: string, t: Term, owner: Verdict, fuel: nat,
                  v: Verdict)
    requires t.Member? && Known(p, ops, c, visiting, At(file, t), At(file, t.owner), owner)
    requires LookedAs(p, ops, c, visiting, At(file, t), owner, t.key, fuel, Some(v))
    ensures Due(p, ops, c, visiting, At(file, t), v)
  {
    hide Scope, LookFits, Looked;
    forall w | Scope(p, ops, w, c, visiting, At(file, t)) ensures v == w.value(At(file, t)) {
      ScopeTerm(p, ops, w, c, visiting, file, t);
      assert v == Looked(ops, w, owner, t.key);
    }
  }

  lemma IndexRefused(p: Program, ops: Ops, c: Cache, visiting: set<Key>, file: string, t: Term, at: Verdict)
    requires t.Index? && Known(p, ops, c, visiting, At(file, t), At(file, t.at), at) && !at.Prim?
    ensures Due(p, ops, c, visiting, At(file, t), State)
  {
    hide Scope;
    forall w | Scope(p, ops, w, c, visiting, At(file, t)) ensures w.value(At(file, t)) == State {
      ScopeTerm(p, ops, w, c, visiting, file, t);
    }
  }

  lemma IndexOwner(p: Program, ops: Ops, c: Cache, visiting: set<Key>, file: string, t: Term, q: ConstTerms.Prim)
    requires t.Index? && Known(p, ops, c, visiting, At(file, t), At(file, t.at), Verdict.Prim(q))
    ensures PartOf(p, ops, c, visiting, At(file, t), At(file, t.owner))
  {
    hide Scope;
    forall w | Scope(p, ops, w, c, visiting, At(file, t)) ensures Under(w, At(file, t.owner), w.rank(At(file, t))) {
      ScopeTerm(p, ops, w, c, visiting, file, t);
    }
  }

  lemma IndexReady(p: Program, ops: Ops, c: Cache, visiting: set<Key>, file: string, t: Term, q: ConstTerms.Prim,
                   owner: Verdict)
    requires t.Index? && Known(p, ops, c, visiting, At(file, t), At(file, t.at), Verdict.Prim(q))
    requires Known(p, ops, c, visiting, At(file, t), At(file, t.owner), owner)
    ensures LookReady(p, ops, c, visiting, At(file, t), owner, ops.text(q))
  {
    hide Scope, LookFits;
    forall w | Scope(p, ops, w, c, visiting, At(file, t))
      ensures LookFits(ops, w, owner, ops.text(q), w.rank(At(file, t)))
    {
      ScopeTerm(p, ops, w, c, visiting, file, t);
    }
  }

  lemma IndexDue(p: Program, ops: Ops, c: Cache, visiting: set<Key>, file: string, t: Term, q: ConstTerms.Prim,
                 owner: Verdict, fuel: nat, v: Verdict)
    requires t.Index? && Known(p, ops, c, visiting, At(file, t), At(file, t.at), Verdict.Prim(q))
    requires Known(p, ops, c, visiting, At(file, t), At(file, t.owner), owner)
    requires LookedAs(p, ops, c, visiting, At(file, t), owner, ops.text(q), fuel, Some(v))
    ensures Due(p, ops, c, visiting, At(file, t), v)
  {
    hide Scope, LookFits, Looked;
    forall w | Scope(p, ops, w, c, visiting, At(file, t)) ensures v == w.value(At(file, t)) {
      ScopeTerm(p, ops, w, c, visiting, file, t);
      assert v == Looked(ops, w, owner, ops.text(q));
    }
  }

  /** Owners that refer to nothing. */
  lemma LookedPlain(p: Program, ops: Ops, c: Cache, visiting: set<Key>, item: Item, owner: Verdict, key: string,
                    fuel: nat)
    ensures owner == State ==> LookedAs(p, ops, c, visiting, item, owner, key, fuel, Some(State))
    ensures owner == Safe ==> LookedAs(p, ops, c, visiting, item, owner, key, fuel, Some(Safe))
    ensures owner.Prim? ==>
      LookedAs(p, ops, c, visiting, item, owner, key, fuel,
        Some(if key == "length" && owner.p.Text? then Verdict.Prim(M.Num(|owner.p.s|)) else Safe))
    ensures owner.OfLiteral? && !IsLiteral(owner.t) ==>
      LookedAs(p, ops, c, visiting, item, owner, key, fuel, Some(Safe))
  {
    hide Scope;
  }

  lemma LookedNoFuel(p: Program, ops: Ops, c: Cache, visiting: set<Key>, item: Item, owner: Verdict, key: string)
    requires LookReady(p, ops, c, visiting, item, owner, key)
    ensures LookedAs(p, ops, c, visiting, item, owner, key, 0, None)
  {
    hide Scope, LookItem;
  }

  lemma ModuleReady(p: Program, ops: Ops, c: Cache, visiting: set<Key>, item: Item, file: string, key: string)
    requires LookReady(p, ops, c, visiting, item, OfModule(file), key)
    ensures PartOf(p, ops, c, visiting, item, Def(M.Exported(file, key)))
  {
    hide Scope;
    forall w | Scope(p, ops, w, c, visiting, item) ensures Under(w, Def(M.Exported(file, key)), w.rank(item)) {
      assert LookFits(ops, w, OfModule(file), key, w.rank(item));
    }
  }

  lemma ModuleLooked(p: Program, ops: Ops, c: Cache, visiting: set<Key>, item: Item, file: string, key: string,
                     fuel: nat, r: Option<Verdict>)
    requires r.Some? ==> Known(p, ops, c, visiting, item, Def(M.Exported(file, key)), r.value)
    requires r.None? ==> Scarce(p, ops, c, visiting, item, fuel + 1)
    ensures LookedAs(p, ops, c, visiting, item, OfModule(file), key, fuel, r)
  {
    hide Scope;
  }

  lemma LiteralReady(p: Program, ops: Ops, c: Cache, visiting: set<Key>, item: Item, file: string, t: Term, key: string)
    requires IsLiteral(t) && LookReady(p, ops, c, visiting, item, OfLiteral(file, t), key)
    ensures FoundReady(p, ops, c, visiting, item, file, Find(ops, t, key))
  {
    hide Scope, Find;
    forall w | Scope(p, ops, w, c, visiting, item) && FoundItem(file, Find(ops, t, key)).Some?
      ensures Under(w, FoundItem(file, Find(ops, t, key)).value, w.rank(item))
    {
      assert LookFits(ops, w, OfLiteral(file, t), key, w.rank(item));
    }
  }

  lemma LiteralLooked(p: Program, ops: Ops, c: Cache, visiting: set<Key>, item: Item, file: string, t: Term,
                      key: string, fuel: nat, r: Option<Verdict>)
    requires IsLiteral(t) && fuel > 0 && FoundAs(p, ops, c, visiting, item, file, Find(ops, t, key), fuel - 1, r)
    ensures LookedAs(p, ops, c, visiting, item, OfLiteral(file, t), key, fuel, r)
  {
    hide Scope, Find, FoundWorth;
  }

  // ---------- what is found in a literal ----------

  lemma FoundPart(p: Program, ops: Ops, c: Cache, visiting: set<Key>, item: Item, file: string, found: Found)
    requires FoundReady(p, ops, c, visiting, item, file, found) && FoundItem(file, found).Some?
    ensures PartOf(p, ops, c, visiting, item, FoundItem(file, found).value)
  {
    hide Scope;
  }

  lemma FoundPlain(p: Program, ops: Ops, c: Cache, visiting: set<Key>, item: Item, file: string, found: Found,
                   fuel: nat)
    ensures found.Value? && IsLiteral(found.t) ==>
      FoundAs(p, ops, c, visiting, item, file, found, fuel, Some(OfLiteral(file, found.t)))
    ensures found.Length? ==> FoundAs(p, ops, c, visiting, item, file, found, fuel, Some(Verdict.Prim(M.Num(found.n))))
    ensures found.Absent? ==> FoundAs(p, ops, c, visiting, item, file, found, fuel, Some(Verdict.Prim(M.Undefined)))
    ensures found.Unknown? ==> FoundAs(p, ops, c, visiting, item, file, found, fuel, Some(Safe))
  {
    hide Scope;
  }

  lemma FoundAnswer(p: Program, ops: Ops, c: Cache, visiting: set<Key>, item: Item, file: string, found: Found,
                    fuel: nat, r: Option<Verdict>)
    requires FoundItem(file, found).Some?
    requires r.Some? ==> Known(p, ops, c, visiting, item, FoundItem(file, found).value, r.value)
    requires r.None? ==> Scarce(p, ops, c, visiting, item, fuel + 2)
    ensures FoundAs(p, ops, c, visiting, item, file, found, fuel,
      if r.Some? then Some(Unrefused(r.value)) else None)
  {
    hide Scope;
  }

  // ---------- definitions ----------

  lemma GlobalDue(p: Program, ops: Ops, c: Cache, visiting: set<Key>, file: string, name: string)
    requires (file, name) !in p.locals
    ensures Due(p, ops, c, visiting, Def(M.Named(file, name)), GlobalVerdict(name))
  {
    hide Scope, M.Global, M.IsBuiltin;
    M.Builtins(name);
    forall w | Scope(p, ops, w, c, visiting, Def(M.Named(file, name)))
      ensures w.value(Def(M.Named(file, name))) == GlobalVerdict(name)
    {
      ScopeKey(p, ops, w, c, visiting, M.Named(file, name));
    }
  }

  /** Definitions that need no other one. */
  predicate IsPlainLocal(local: Local) {
    local.Declared? || local.Mutable? || local.Star? || (local.Import? && local.source.None?)
  }

  function PlainLocal(local: Local): Verdict
    requires IsPlainLocal(local)
  {
    match local
    case Mutable => State
    case Star(source) => if source.Some? then OfModule(source.value) else Safe
    case _ => Safe
  }

  lemma LocalDue(p: Program, ops: Ops, c: Cache, visiting: set<Key>, file: string, name: string)
    requires (file, name) in p.locals && IsPlainLocal(p.locals[(file, name)])
    ensures Due(p, ops, c, visiting, Def(M.Named(file, name)), PlainLocal(p.locals[(file, name)]))
  {
    hide Scope;
    forall w | Scope(p, ops, w, c, visiting, Def(M.Named(file, name)))
      ensures w.value(Def(M.Named(file, name))) == PlainLocal(p.locals[(file, name)])
    {
      ScopeKey(p, ops, w, c, visiting, M.Named(file, name));
    }
  }

  /** The definition a forwarding one leads to. */
  function NextKey(p: Program, k: Key): Option<Key> {
    match k
    case Named(file, name) =>
      if (file, name) in p.locals && p.locals[(file, name)].Import? && p.locals[(file, name)].source.Some?
      then Some(M.Exported(p.locals[(file, name)].source.value, p.locals[(file, name)].exported)) else None
    case Exported(file, name) =>
      if (file, name) in p.exports && p.exports[(file, name)].FromFile? && p.exports[(file, name)].source.Some?
      then Some(M.Onward(file, p.exports[(file, name)].source.value, p.exports[(file, name)].exported)) else None
  }

  lemma NextPart(p: Program, ops: Ops, c: Cache, visiting: set<Key>, k: Key)
    requires NextKey(p, k).Some?
    ensures PartOf(p, ops, c, visiting, Def(k), Def(NextKey(p, k).value))
  {
    hide Scope;
    forall w | Scope(p, ops, w, c, visiting, Def(k)) ensures Under(w, Def(NextKey(p, k).value), w.rank(Def(k))) {
      ScopeKey(p, ops, w, c, visiting, k);
    }
  }

  lemma NextDue(p: Program, ops: Ops, c: Cache, visiting: set<Key>, k: Key, v: Verdict)
    requires NextKey(p, k).Some? && Known(p, ops, c, visiting, Def(k), Def(NextKey(p, k).value), v)
    ensures Due(p, ops, c, visiting, Def(k), v)
  {
    hide Scope;
    forall w | Scope(p, ops, w, c, visiting, Def(k)) ensures v == w.value(Def(k)) {
      ScopeKey(p, ops, w, c, visiting, k);
    }
  }

  lemma ExternalDue(p: Program, ops: Ops, c: Cache, visiting: set<Key>, file: string, name: string)
    requires (file, name) in p.exports && p.exports[(file, name)].FromFile? && p.exports[(file, name)].source.None?
    ensures Due(p, ops, c, visiting, Def(M.Exported(file, name)), Safe)
  {
    hide Scope;
    forall w | Scope(p, ops, w, c, visiting, Def(M.Exported(file, name)))
      ensures w.value(Def(M.Exported(file, name))) == Safe
    {
      ScopeKey(p, ops, w, c, visiting, M.Exported(file, name));
    }
  }

  lemma StandardPart(p: Program, ops: Ops, c: Cache, visiting: set<Key>, file: string, name: string)
    requires (file, name) in p.exports && p.exports[(file, name)].Standard?
    ensures PartOf(p, ops, c, visiting, Def(M.Exported(file, name)), At(file, p.exports[(file, name)].t))
  {
    hide Scope;
    forall w | Scope(p, ops, w, c, visiting, Def(M.Exported(file, name)))
      ensures Under(w, At(file, p.exports[(file, name)].t), w.rank(Def(M.Exported(file, name))))
    {
      ScopeKey(p, ops, w, c, visiting, M.Exported(file, name));
    }
  }

  lemma StandardDue(p: Program, ops: Ops, c: Cache, visiting: set<Key>, file: string, name: string, v: Verdict)
    requires (file, name) in p.exports && p.exports[(file, name)].Standard?
    requires Known(p, ops, c, visiting, Def(M.Exported(file, name)), At(file, p.exports[(file, name)].t), v)
    ensures Due(p, ops, c, visiting, Def(M.Exported(file, name)), v)
  {
    hide Scope;
    forall w | Scope(p, ops, w, c, visiting, Def(M.Exported(file, name)))
      ensures v == w.value(Def(M.Exported(file, name)))
    {
      ScopeKey(p, ops, w, c, visiting, M.Exported(file, name));
    }
  }

  // ---------- re-exports with a star ----------

  /** None of the first i modules has anything but refusals for the name. */
  ghost predicate StarsRefused(p: Program, ops: Ops, c: Cache, visiting: set<Key>, k: Key, targets: seq<string>, i: nat)
    requires i <= |targets|
  {
    forall w :: Scope(p, ops, w, c, visiting, Def(k)) ==> FirstStar(p, w, targets, k.name, i) == State
  }

  lemma NoStarsYet(p: Program, ops: Ops, c: Cache, visiting: set<Key>, k: Key, targets: seq<string>)
    ensures StarsRefused(p, ops, c, visiting, k, targets, 0)
  {
    hide Scope;
  }

  lemma StarSkipped(p: Program, ops: Ops, c: Cache, visiting: set<Key>, k: Key, targets: seq<string>, i: nat)
    requires i < |targets| && StarsRefused(p, ops, c, visiting, k, targets, i)
    requires Tried(p, targets[i], k.name) ==>
      Known(p, ops, c, visiting, Def(k), Def(M.Exported(targets[i], k.name)), State)
    ensures StarsRefused(p, ops, c, visiting, k, targets, i + 1)
  {
    hide Scope, Tried;
  }

  lemma StarPart(p: Program, ops: Ops, c: Cache, visiting: set<Key>, file: string, name: string, target: string)
    requires (file, name) !in p.exports && file in p.stars && target in p.stars[file] && Tried(p, target, name)
    ensures PartOf(p, ops, c, visiting, Def(M.Exported(file, name)), Def(M.Exported(target, name)))
  {
    hide Scope, Tried, FirstStar;
    forall w | Scope(p, ops, w, c, visiting, Def(M.Exported(file, name)))
      ensures Under(w, Def(M.Exported(target, name)), w.rank(Def(M.Exported(file, name))))
    {
      ScopeKey(p, ops, w, c, visiting, M.Exported(file, name));
    }
  }

  lemma {:induction false} FirstStarStays(p: Program, w: Worth, targets: seq<string>, name: string, i: nat, j: nat)
    requires i <= j <= |targets| && FirstStar(p, w, targets, name, i) != State
    ensures FirstStar(p, w, targets, name, j) == FirstStar(p, w, targets, name, i)
    decreases j
  {
    if i < j {
      FirstStarStays(p, w, targets, name, i, j - 1);
    }
  }

  lemma StarFoundDue(p: Program, ops: Ops, c: Cache, visiting: set<Key>, file: string, name: string, i: nat, v: Verdict)
    requires (file, name) !in p.exports && file in p.stars && i < |p.stars[file]| && v != State
    requires StarsRefused(p, ops, c, visiting, M.Exported(file, name), p.stars[file], i)
    requires Tried(p, p.stars[file][i], name)
    requires Known(p, ops, c, visiting, Def(M.Exported(file, name)), Def(M.Exported(p.stars[file][i], name)), v)
    ensures Due(p, ops, c, visiting, Def(M.Exported(file, name)), v)
  {
    hide Scope, Tried;
    var k, targets := M.Exported(file, name), p.stars[file];
    forall w | Scope(p, ops, w, c, visiting, Def(k)) ensures v == w.value(Def(k)) {
      ScopeKey(p, ops, w, c, visiting, k);
      assert FirstStar(p, w, targets, name, i + 1) == v;
      FirstStarStays(p, w, targets, name, i + 1, |targets|);
    }
  }

  lemma StarsDue(p: Program, ops: Ops, c: Cache, visiting: set<Key>, file: string, name: string)
    requires (file, name) !in p.exports
    requires file in p.stars ==>
      StarsRefused(p, ops, c, visiting, M.Exported(file, name), p.stars[file], |p.stars[file]|)
    ensures Due(p, ops, c, visiting, Def(M.Exported(file, name)), State)
  {
    hide Scope, Tried, FirstStar;
    var k := M.Exported(file, name);
    forall w | Scope(p, ops, w, c, visiting, Def(k)) ensures w.value(Def(k)) == State {
      ScopeKey(p, ops, w, c, visiting, k);
    }
  }

  // ---------- destructured names ----------

  /** The item is the name bound this way. */
  predicate IsBound(p: Program, item: Item, file: string, init: Term, bound: Bound) {
    && item.Def? && item.k.Named? && item.k.file == file && (file, item.k.name) in p.locals
    && var local := p.locals[(file, item.k.name)];
    local.Const? && local.init == init && local.bound == bound
  }

  ghost predicate PathIn(ops: Ops, w: Worth, item: Item, file: string, init: Term, bound: Bound,
                         ways: seq<(Verdict, Verdict)>)
  {
    PathFollows(ops, w, file, init, bound, ways, w.rank(item))
  }

  /** After k accesses the path stands at this verdict, and no default so far is refused. */
  ghost predicate PathKnown(p: Program, ops: Ops, c: Cache, visiting: set<Key>, item: Item, file: string, init: Term,
                            bound: Bound, k: nat, v: Verdict)
  {
    forall w, ways: seq<(Verdict, Verdict)> ::
      Scope(p, ops, w, c, visiting, item) && PathIn(ops, w, item, file, init, bound, ways) ==>
      k < |ways| && ways[k].1 == v && !DefaultRefused(w, file, bound, k)
  }

  lemma ScopePath(p: Program, ops: Ops, w: Worth, c: Cache, visiting: set<Key>, item: Item, file: string, init: Term,
                  bound: Bound) returns (ways: seq<(Verdict, Verdict)>)
    requires Scope(p, ops, w, c, visiting, item) && IsBound(p, item, file, init, bound)
    ensures PathIn(ops, w, item, file, init, bound, ways) && |ways| == |bound.access| + 1
    ensures w.value(item) == PathEnd(w, file, bound, ways)
  {
    hide Scope, StepFollows, DefaultRefused;
    ScopeKey(p, ops, w, c, visiting, item.k);
    ways :| PathFollows(ops, w, file, init, bound, ways, w.rank(item))
      && w.value(item) == PathEnd(w, file, bound, ways);
  }

  lemma PathPart(p: Program, ops: Ops, c: Cache, visiting: set<Key>, item: Item, file: string, init: Term, bound: Bound)
    requires IsBound(p, item, file, init, bound)
    ensures PartOf(p, ops, c, visiting, item, At(file, init))
  {
    hide Scope, StepFollows;
    forall w | Scope(p, ops, w, c, visiting, item) ensures Under(w, At(file, init), w.rank(item)) {
      var ways := ScopePath(p, ops, w, c, visiting, item, file, init, bound);
    }
  }

  lemma PathBegun(p: Program, ops: Ops, c: Cache, visiting: set<Key>, item: Item, file: string, init: Term,
                  bound: Bound, v: Verdict)
    requires Known(p, ops, c, visiting, item, At(file, init), v)
    ensures PathKnown(p, ops, c, visiting, item, file, init, bound, 0, v)
  {
    hide Scope, StepFollows;
  }

  /** In every worth in question something follows from the owner by the access. */
  ghost predicate CrossReady(p: Program, ops: Ops, c: Cache, visiting: set<Key>, item: Item, file: string,
                             owner: Verdict, access: Access)
  {
    forall w :: Scope(p, ops, w, c, visiting, item) ==>
      exists v :: CrossFollows(ops, w, file, owner, access, v, w.rank(item))
  }

  ghost predicate CrossedAs(p: Program, ops: Ops, c: Cache, visiting: set<Key>, item: Item, file: string,
                            owner: Verdict, access: Access, fuel: nat, r: Option<Verdict>)
  {
    && (r.Some? ==> forall w, v ::
          Scope(p, ops, w, c, visiting, item) && CrossFollows(ops, w, file, owner, access, v, w.rank(item)) ==>
          r.value == v)
    && (r.None? ==> Scarce(p, ops, c, visiting, item, fuel + 1))
  }

  lemma StepReady(p: Program, ops: Ops, c: Cache, visiting: set<Key>, item: Item, file: string, init: Term,
                  bound: Bound, k: nat, owner: Verdict)
    requires IsBound(p, item, file, init, bound) && k < |bound.access|
    requires PathKnown(p, ops, c, visiting, item, file, init, bound, k, owner)
    ensures CrossReady(p, ops, c, visiting, item, file, owner, bound.access[k])
  {
    hide Scope, CrossFollows, DefaultRefused, FilledIn, DefaultsAt;
    forall w | Scope(p, ops, w, c, visiting, item)
      ensures exists v :: CrossFollows(ops, w, file, owner, bound.access[k], v, w.rank(item))
    {
      var ways := ScopePath(p, ops, w, c, visiting, item, file, init, bound);
      assert StepFollows(ops, w, file, bound, ways, k, w.rank(item));
      assert CrossFollows(ops, w, file, owner, bound.access[k], ways[k + 1].0, w.rank(item));
    }
  }

  /** The key is the text of a primitive, the verdict of the term. */
  ghost predicate KeyKnown(p: Program, ops: Ops, c: Cache, visiting: set<Key>, item: Item, file: string, at: Term,
                           key: string)
  {
    exists q :: key == ops.text(q) && Known(p, ops, c, visiting, item, At(file, at), Verdict.Prim(q))
  }

  lemma CrossLook(p: Program, ops: Ops, c: Cache, visiting: set<Key>, item: Item, file: string, owner: Verdict,
                  access: Access, key: string)
    requires CrossReady(p, ops, c, visiting, item, file, owner, access)
    requires access.Static? ==> key == access.key
    requires access.Dynamic? ==> KeyKnown(p, ops, c, visiting, item, file, access.at, key)
    ensures LookReady(p, ops, c, visiting, item, owner, key)
  {
    hide Scope, LookFits, Looked;
    forall w | Scope(p, ops, w, c, visiting, item) ensures LookFits(ops, w, owner, key, w.rank(item)) {
      var v :| CrossFollows(ops, w, file, owner, access, v, w.rank(item));
      assert KeyIs(ops, w, file, access, key);
    }
  }

  lemma CrossPart(p: Program, ops: Ops, c: Cache, visiting: set<Key>, item: Item, file: string, owner: Verdict,
                  access: Access)
    requires CrossReady(p, ops, c, visiting, item, file, owner, access) && access.Dynamic?
    ensures PartOf(p, ops, c, visiting, item, At(file, access.at))
  {
    hide Scope, LookFits, Looked;
  }

  lemma CrossDone(p: Program, ops: Ops, c: Cache, visiting: set<Key>, item: Item, file: string, owner: Verdict,
                  access: Access, key: string, fuel: nat, r: Option<Verdict>)
    requires access.Static? ==> key == access.key
    requires access.Dynamic? ==> KeyKnown(p, ops, c, visiting, item, file, access.at, key)
    requires LookedAs(p, ops, c, visiting, item, owner, key, fuel, r)
    ensures CrossedAs(p, ops, c, visiting, item, file, owner, access, fuel, r)
  {
    hide Scope, LookFits, Looked;
    if r.Some? {
      forall w, v | Scope(p, ops, w, c, visiting, item)
        && CrossFollows(ops, w, file, owner, access, v, w.rank(item))
        ensures r.value == v
      {
        assert KeyIs(ops, w, file, access, key);
      }
    }
  }

  lemma CrossRefused(p: Program, ops: Ops, c: Cache, visiting: set<Key>, item: Item, file: string, owner: Verdict,
                     access: Access, at: Verdict, fuel: nat)
    requires access.Dynamic? && Known(p, ops, c, visiting, item, At(file, access.at), at) && !at.Prim?
    ensures CrossedAs(p, ops, c, visiting, item, file, owner, access, fuel, Some(State))
  {
    hide Scope, LookFits, Looked;
    forall w, v | Scope(p, ops, w, c, visiting, item)
      && CrossFollows(ops, w, file, owner, access, v, w.rank(item))
      ensures v == State
    {
      assert w.value(At(file, access.at)) == at;
    }
  }

  // ---------- defaults ----------

  ghost predicate FillReady(p: Program, ops: Ops, c: Cache, visiting: set<Key>, item: Item, file: string,
                            fallbacks: seq<Term>)
  {
    forall i :: 0 <= i < |fallbacks| ==> PartOf(p, ops, c, visiting, item, At(file, fallbacks[i]))
  }

  lemma StepFill(p: Program, ops: Ops, c: Cache, visiting: set<Key>, item: Item, file: string, init: Term,
                 bound: Bound, k: nat)
    requires IsBound(p, item, file, init, bound) && k < |bound.access|
    ensures FillReady(p, ops, c, visiting, item, file, DefaultsAt(bound.defaults, k + 1))
  {
    hide Scope, CrossFollows, FilledIn, DefaultsAt;
    var fallbacks := DefaultsAt(bound.defaults, k + 1);
    forall i, w | 0 <= i < |fallbacks| && Scope(p, ops, w, c, visiting, item)
      ensures Under(w, At(file, fallbacks[i]), w.rank(item))
    {
      var ways := ScopePath(p, ops, w, c, visiting, item, file, init, bound);
      assert StepFollows(ops, w, file, bound, ways, k, w.rank(item));
    }
  }

  /** The first i defaults filled in give this verdict, and none of them is refused. */
  ghost predicate FilledAs(p: Program, ops: Ops, c: Cache, visiting: set<Key>, item: Item, file: string,
                           fallbacks: seq<Term>, first: Verdict, i: nat, v: Verdict)
    requires i <= |fallbacks|
  {
    forall w :: Scope(p, ops, w, c, visiting, item) ==>
      FilledIn(w, file, fallbacks, first, i) == v && NoneRefused(w, file, fallbacks, i)
  }

  ghost predicate NoneRefused(w: Worth, file: string, fallbacks: seq<Term>, n: nat)
    requires n <= |fallbacks|
  {
    forall i :: 0 <= i < n ==> w.value(At(file, fallbacks[i])) != State
  }

  lemma NothingFilled(p: Program, ops: Ops, c: Cache, visiting: set<Key>, item: Item, file: string,
                      fallbacks: seq<Term>, first: Verdict)
    ensures FilledAs(p, ops, c, visiting, item, file, fallbacks, first, 0, first)
  {
    hide Scope;
  }

  lemma OneFilled(p: Program, ops: Ops, c: Cache, visiting: set<Key>, item: Item, file: string, fallbacks: seq<Term>,
                  first: Verdict, i: nat, v: Verdict, alternative: Verdict)
    requires i < |fallbacks| && FilledAs(p, ops, c, visiting, item, file, fallbacks, first, i, v)
    requires Known(p, ops, c, visiting, item, At(file, fallbacks[i]), alternative) && alternative != State
    ensures FilledAs(p, ops, c, visiting, item, file, fallbacks, first, i + 1, FilledVerdict(v, alternative))
  {
    hide Scope;
  }

  /** A default of this depth is refused. */
  ghost predicate RefusedDepth(p: Program, ops: Ops, c: Cache, visiting: set<Key>, item: Item, file: string,
                               bound: Bound, k: nat)
  {
    forall w :: Scope(p, ops, w, c, visiting, item) ==> DepthRefused(w, file, bound, k)
  }

  lemma OneRefused(p: Program, ops: Ops, c: Cache, visiting: set<Key>, item: Item, file: string, bound: Bound, k: nat,
                   i: nat)
    requires i < |DefaultsAt(bound.defaults, k + 1)|
    requires Known(p, ops, c, visiting, item, At(file, DefaultsAt(bound.defaults, k + 1)[i]), State)
    ensures RefusedDepth(p, ops, c, visiting, item, file, bound, k)
  {
    hide Scope, DefaultsAt;
  }

  lemma PathNext(p: Program, ops: Ops, c: Cache, visiting: set<Key>, item: Item, file: string, init: Term,
                 bound: Bound, k: nat, owner: Verdict, first: Verdict, fuel: nat, v: Verdict)
    requires k < |bound.access| && PathKnown(p, ops, c, visiting, item, file, init, bound, k, owner)
    requires CrossedAs(p, ops, c, visiting, item, file, owner, bound.access[k], fuel, Some(first))
    requires var fallbacks := DefaultsAt(bound.defaults, k + 1);
      FilledAs(p, ops, c, visiting, item, file, fallbacks, first, |fallbacks|, v)
    ensures PathKnown(p, ops, c, visiting, item, file, init, bound, k + 1, v)
  {
    hide Scope, CrossFollows, DefaultsAt;
    forall w, ways: seq<(Verdict, Verdict)> |
      Scope(p, ops, w, c, visiting, item) && PathIn(ops, w, item, file, init, bound, ways)
      ensures k + 1 < |ways| && ways[k + 1].1 == v && !DefaultRefused(w, file, bound, k + 1)
    {
      assert StepFollows(ops, w, file, bound, ways, k, w.rank(item));
      assert ways[k + 1].0 == first;
      assert !DepthRefused(w, file, bound, k);
    }
  }

  lemma PathDue(p: Program, ops: Ops, c: Cache, visiting: set<Key>, item: Item, file: string, init: Term,
                bound: Bound, v: Verdict)
    requires IsBound(p, item, file, init, bound)
    requires PathKnown(p, ops, c, visiting, item, file, init, bound, |bound.access|, v)
    ensures Due(p, ops, c, visiting, item, v)
  {
    hide Scope, StepFollows, DefaultRefused;
    forall w | Scope(p, ops, w, c, visiting, item) ensures v == w.value(item) {
      var ways := ScopePath(p, ops, w, c, visiting, item, file, init, bound);
    }
  }

  lemma PathRefusedDue(p: Program, ops: Ops, c: Cache, visiting: set<Key>, item: Item, file: string, init: Term,
                       bound: Bound, k: nat)
    requires IsBound(p, item, file, init, bound) && k < |bound.access|
    requires RefusedDepth(p, ops, c, visiting, item, file, bound, k)
    ensures Due(p, ops, c, visiting, item, State)
  {
    hide Scope, StepFollows, DepthRefused;
    forall w | Scope(p, ops, w, c, visiting, item) ensures w.value(item) == State {
      var ways := ScopePath(p, ops, w, c, visiting, item, file, init, bound);
      assert DepthRefused(w, file, bound, k);
    }
  }

  // ---------- keys that are asked for ----------

  lemma CachedAsked(p: Program, ops: Ops, c: Cache, visiting: set<Key>, k: Key, fuel: nat)
    requires k in c
    ensures Asked(p, ops, c, visiting, c, Def(k), fuel, Some(c[k]))
  {
    hide Fits, NoneBelow;
  }

  /** What is being visited is not asked for again in a worth. */
  lemma VisitedAsked(p: Program, ops: Ops, c: Cache, visiting: set<Key>, k: Key, fuel: nat, v: Verdict)
    requires k in visiting
    ensures Asked(p, ops, c, visiting, c, Def(k), fuel, Some(v))
  {
    hide Fits, Agree;
    forall w | Scope(p, ops, w, c, visiting, Def(k)) ensures !NoneBelow(w, visiting, w.rank(Def(k)) + 1) {
    }
  }

  lemma VisitAsked(p: Program, ops: Ops, c: Cache, visiting: set<Key>, c': Cache, k: Key, fuel: nat, r: Option<Verdict>)
    requires Solved(p, ops, c, visiting + {k}, c', Def(k), fuel, r)
    ensures Asked(p, ops, c, visiting, if r.Some? then c'[k := r.value] else c', Def(k), fuel, r)
  {
    hide Fits;
    var c'' := if r.Some? then c'[k := r.value] else c';
    forall w | Fits(p, ops, w) && Agree(w, c) && Free(w, visiting) ensures Agree(w, c'') {
      if Def(k) in w.items {
        assert NoneBelow(w, visiting + {k}, w.rank(Def(k)));
        assert Scope(p, ops, w, c, visiting + {k}, Def(k));
      } else {
        assert Free(w, visiting + {k});
      }
    }
    forall w | Scope(p, ops, w, c, visiting, Def(k)) && NoneBelow(w, visiting, w.rank(Def(k)) + 1)
      ensures Agree(w, c'') && Replies(w, Def(k), fuel, r)
    {
      assert NoneBelow(w, visiting + {k}, w.rank(Def(k)));
      assert Scope(p, ops, w, c, visiting + {k}, Def(k));
    }
  }

  // ---------- one part after the other ----------

  lemma PartDone(p: Program, ops: Ops, c: Cache, visiting: set<Key>, c': Cache, c'': Cache, file: string, t: Term,
                 part: Term, fuel: nat, r: Option<Verdict>)
    requires Steady(p, ops, c, visiting, c', At(file, t))
    requires PartOf(p, ops, c, visiting, At(file, t), At(file, part))
    requires Solved(p, ops, c', visiting, c'', At(file, part), fuel, r)
    ensures Steady(p, ops, c, visiting, c'', At(file, t))
    ensures r.Some? ==> Known(p, ops, c, visiting, At(file, t), At(file, part), r.value)
    ensures r.None? ==> Solved(p, ops, c, visiting, c'', At(file, t), fuel + 1, None)
  {
    hide *;
    SolvedIsAsked(p, ops, c', visiting, c'', At(file, part), fuel, r);
    PartAsked(p, ops, c, visiting, c', c'', At(file, t), At(file, part), fuel, r);
    if r.None? {
      NotEnough(p, ops, c, visiting, c'', At(file, t), fuel + 1, fuel + 2);
    }
  }

  lemma NextSolved(p: Program, ops: Ops, c: Cache, visiting: set<Key>, c': Cache, k: Key, fuel: nat,
                   r: Option<Verdict>)
    requires NextKey(p, k).Some? && Asked(p, ops, c, visiting, c', Def(NextKey(p, k).value), fuel, r)
    ensures Solved(p, ops, c, visiting, c', Def(k), fuel + 1, r)
  {
    hide *;
    NextPart(p, ops, c, visiting, k);
    SteadyAtFirst(p, ops, c, visiting, Def(k));
    PartAsked(p, ops, c, visiting, c, c', Def(k), Def(NextKey(p, k).value), fuel, r);
    if r.None? {
      NotEnough(p, ops, c, visiting, c', Def(k), fuel + 1, fuel + 2);
    } else {
      NextDue(p, ops, c, visiting, k, r.value);
      DueIsSolved(p, ops, c, visiting, c', Def(k), fuel + 1, r.value);
    }
  }

  lemma StandardSolved(p: Program, ops: Ops, c: Cache, visiting: set<Key>, c': Cache, file: string, name: string,
                       fuel: nat, r: Option<Verdict>)
    requires (file, name) in p.exports && p.exports[(file, name)].Standard?
    requires Solved(p, ops, c, visiting, c', At(file, p.exports[(file, name)].t), fuel, r)
    ensures Solved(p, ops, c, visiting, c', Def(M.Exported(file, name)), fuel + 1, r)
  {
    hide *;
    var item, part := Def(M.Exported(file, name)), At(file, p.exports[(file, name)].t);
    StandardPart(p, ops, c, visiting, file, name);
    SteadyAtFirst(p, ops, c, visiting, item);
    SolvedIsAsked(p, ops, c, visiting, c', part, fuel, r);
    PartAsked(p, ops, c, visiting, c, c', item, part, fuel, r);
    if r.None? {
      NotEnough(p, ops, c, visiting, c', item, fuel + 1, fuel + 2);
    } else {
      StandardDue(p, ops, c, visiting, file, name, r.value);
      DueIsSolved(p, ops, c, visiting, c', item, fuel + 1, r.value);
    }
  }

  lemma NameSolved(p: Program, ops: Ops, c: Cache, visiting: set<Key>, c': Cache, file: string, t: Term, fuel: nat,
                   r: Option<Verdict>)
    requires t.Ref? && fuel > 0 && Asked(p, ops, c, visiting, c', Def(M.Named(file, t.name)), fuel - 1, r)
    ensures Solved(p, ops, c, visiting, c', At(file, t), fuel, r)
  {
    hide *;
    var part := Def(M.Named(file, t.name));
    NeededName(p, ops, c, visiting, file, t);
    SteadyAtFirst(p, ops, c, visiting, At(file, t));
    PartAsked(p, ops, c, visiting, c, c', At(file, t), part, fuel - 1, r);
    if r.None? {
      NotEnough(p, ops, c, visiting, c', At(file, t), fuel, fuel + 1);
    } else {
      RefDue(p, ops, c, visiting, file, t, r.value);
      DueIsSolved(p, ops, c, visiting, c', At(file, t), fuel, r.value);
    }
  }

  lemma InitSolved(p: Program, ops: Ops, c: Cache, visiting: set<Key>, c': Cache, item: Item, file: string,
                   init: Term, bound: Bound, fuel: nat, r: Option<Verdict>)
    requires IsBound(p, item, file, init, bound) && Solved(p, ops, c, visiting, c', At(file, init), fuel, r)
    ensures Steady(p, ops, c, visiting, c', item)
    ensures r.Some? ==> PathKnown(p, ops, c, visiting, item, file, init, bound, 0, r.value)
    ensures r.None? ==> Solved(p, ops, c, visiting, c', item, fuel + 1, None)
  {
    hide *;
    PathPart(p, ops, c, visiting, item, file, init, bound);
    SteadyAtFirst(p, ops, c, visiting, item);
    SolvedIsAsked(p, ops, c, visiting, c', At(file, init), fuel, r);
    PartAsked(p, ops, c, visiting, c, c', item, At(file, init), fuel, r);
    if r.None? {
      NotEnough(p, ops, c, visiting, c', item, fuel + 1, fuel + 2);
    } else {
      PathBegun(p, ops, c, visiting, item, file, init, bound, r.value);
    }
  }

  lemma CrossStopped(p: Program, ops: Ops, c: Cache, visiting: set<Key>, c': Cache, item: Item, file: string,
                     owner: Verdict, access: Access, fuel: nat)
    requires Steady(p, ops, c, visiting, c', item)
    requires CrossedAs(p, ops, c, visiting, item, file, owner, access, fuel, None)
    ensures Solved(p, ops, c, visiting, c', item, fuel + 1, None)
  {
    hide Steady, Scarce, Solved, Scope;
    NotEnough(p, ops, c, visiting, c', item, fuel + 1, fuel + 1);
  }

  lemma CrossShort(p: Program, ops: Ops, c: Cache, visiting: set<Key>, item: Item, file: string, owner: Verdict,
                   access: Access, fuel: nat)
    requires Scarce(p, ops, c, visiting, item, fuel + 2)
    ensures CrossedAs(p, ops, c, visiting, item, file, owner, access, fuel, None)
  {
    hide Scope;
  }

  lemma LookStopped(p: Program, ops: Ops, c: Cache, visiting: set<Key>, c': Cache, item: Item, owner: Verdict,
                    key: string, fuel: nat)
    requires Steady(p, ops, c, visiting, c', item) && LookedAs(p, ops, c, visiting, item, owner, key, fuel, None)
    ensures Solved(p, ops, c, visiting, c', item, fuel + 1, None)
  {
    hide Steady, Scarce, Solved, Scope;
    NotEnough(p, ops, c, visiting, c', item, fuel + 1, fuel + 1);
  }

  /** Asked from outside. */
  lemma AskedWhenFree(p: Program, ops: Ops, c: Cache, visiting: set<Key>, c': Cache, k: Key, fuel: nat,
                      r: Option<Verdict>)
    requires Asked(p, ops, c, visiting, c', Def(k), fuel, r)
    ensures forall w :: Fits(p, ops, w) && Agree(w, c) && Free(w, visiting) ==>
      Agree(w, c') && (Def(k) in w.items ==> Replies(w, Def(k), fuel, r))
  {
    hide Fits, Agree, Replies;
    forall w | Fits(p, ops, w) && Agree(w, c) && Free(w, visiting) && Def(k) in w.items
      ensures Replies(w, Def(k), fuel, r)
    {
      assert NoneBelow(w, visiting, w.rank(Def(k)));
      assert NoneBelow(w, visiting, w.rank(Def(k)) + 1);
    }
  }

  lemma NothingCached(p: Program, ops: Ops)
    ensures forall w :: Fits(p, ops, w) ==> Agree(w, map[]) && Free(w, {})
  {
    hide Fits;
  }
}
