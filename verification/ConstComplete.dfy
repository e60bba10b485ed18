/** What computes a primitive in a run is answered with that primitive. */
module ConstComplete {
  import opened Options
  import opened ConstTerms
  import opened ConstFolding
  import opened ConstPromise
  import opened ConstSound
  import opened ConstLoops
  import opened ConstWorth
  import M = ModuleState

  /** Definitions and terms of a run, with a rank for each. */
  datatype Part = Part(run: Run, items: iset<Item>, rank: Item -> nat)

  /** The literal the item names, whatever else is in the program. */
  function LiteralOf(run: Run, item: Item): Option<Verdict> {
    match item
    case Def(k) =>
      if k.Named? && LiteralConst(run.p, k.file, k.name).Some?
      then Some(OfLiteral(k.file, LiteralConst(run.p, k.file, k.name).value)) else None
    case At(file, t) =>
      var source := Source(run.p, run.ops, {}, file, t);
      if source.Some? then Some(OfLiteral(file, source.value)) else None
    case In(_, _) => None
  }

  /** The primitive the item is in the run. */
  ghost function PrimOf(run: Run, item: Item): Option<ConstTerms.Prim> {
    match item
    case Def(k) =>
      var d := run.store(Lit(M.Null), k);
      if d.P? && Holds(run, k, d) then Some(d.p) else None
    case At(file, t) =>
      var d := Eval(run, file, t);
      if d.Some? && d.value.P? then Some(d.value.p) else None
    case In(_, _) => None
  }

  /** The item belongs to the part and ranks lower. */
  ghost predicate Has(part: Part, item: Item, rank: nat) { item in part.items && part.rank(item) < rank }

  ghost predicate HasPrim(part: Part, item: Item, rank: nat) {
    Has(part, item, rank) && LiteralOf(part.run, item).None?
  }

  // ---------- what belongs to a part ----------

  /** What a settled key of a literal holds is a primitive of the part. */
  ghost predicate FoundComputes(part: Part, file: string, found: Found, rank: nat) {
    match found
    case Value(v) => !IsLiteral(v) && HasPrim(part, At(file, v), rank)
    case Binding(name) => HasPrim(part, Def(M.Named(file, name)), rank)
    case Unknown => false
    case _ => true
  }

  /** The owner is a literal with the value its text gives, and the key is settled there. */
  ghost predicate LookComputes(part: Part, file: string, owner: Term, key: string, rank: nat) {
    var run := part.run;
    var source := Source(run.p, run.ops, {}, file, owner);
    && Has(part, At(file, owner), rank)
    && source.Some? && IsLiteral(source.value) && Eval(run, file, owner) == Build(run, file, source.value)
    && Settles(run.ops, source.value, key)
    && FoundComputes(part, file, Find(run.ops, source.value, key), rank)
  }

  /** The literal inside the literal the owner names is found without evaluating anything that goes round. */
  ghost predicate InnerComputes(part: Part, file: string, owner: Term, key: string, rank: nat) {
    var source := Source(part.run.p, part.run.ops, {}, file, owner);
    && Has(part, At(file, owner), rank)
    && source.Some? && IsLiteral(source.value)
    && var found := Find(part.run.ops, source.value, key);
    found.Value? && (!IsLiteral(found.t) ==> Has(part, At(file, found.t), rank))
  }

  /** A term that names a literal. */
  ghost predicate NamesLiteral(part: Part, file: string, t: Term) {
    var rank := part.rank(At(file, t));
    match t
    case Immutable(_) => rank > 0
    case Ref(name, _) => Has(part, Def(M.Named(file, name)), rank)
    case Member(owner, key) => InnerComputes(part, file, owner, key, rank)
    case Index(owner, at) =>
      at.Lit? && Has(part, At(file, at), rank) && InnerComputes(part, file, owner, part.run.ops.text(at.p), rank)
    case _ => false
  }

  /** A term with a primitive value, all of whose operands, on all branches, have primitive values too. */
  ghost predicate TermComputes(part: Part, file: string, t: Term) {
    var rank := part.rank(At(file, t));
    && PrimOf(part.run, At(file, t)).Some?
    && match t
       case Lit(_) => true
       case Immutable(inner) => !IsLiteral(inner) && HasPrim(part, At(file, inner), rank)
       case Ref(name, _) => HasPrim(part, Def(M.Named(file, name)), rank)
       case Template(_, spans) => forall i :: 0 <= i < |spans| ==> HasPrim(part, At(file, spans[i].t), rank)
       case Cond(c, yes, no) =>
         HasPrim(part, At(file, c), rank) && HasPrim(part, At(file, yes), rank) && HasPrim(part, At(file, no), rank)
       case Unary(_, operand) => HasPrim(part, At(file, operand), rank)
       case Binary(_, l, r) => HasPrim(part, At(file, l), rank) && HasPrim(part, At(file, r), rank)
       case Member(owner, key) => LookComputes(part, file, owner, key, rank)
       case Index(owner, at) =>
         && HasPrim(part, At(file, at), rank) && PrimOf(part.run, At(file, at)).Some?
         && LookComputes(part, file, owner, part.run.ops.text(PrimOf(part.run, At(file, at)).value), rank)
       case _ => false
  }

  /** A definition that always holds a primitive: a const of a computed term, or another name of such a definition. */
  ghost predicate KeyComputes(part: Part, k: Key) {
    var run, rank := part.run, part.rank(Def(k));
    && PrimOf(run, Def(k)).Some?
    && match k
       case Named(file, name) =>
         if (file, name) !in run.p.locals then
           var q := PrimOf(run, Def(k)).value;
           || (name == "undefined" && q == M.Undefined) || (name == "NaN" && q == M.NotANumber)
           || (name == "Infinity" && q == M.Infinite)
         else (match run.p.locals[(file, name)]
           case Const(_, init, bound) =>
             && bound.access == [] && HasPrim(part, At(file, init), rank)
             && Eval(run, file, init).Some? && Holds(run, k, Eval(run, file, init).value)
           case Import(source, exported) =>
             && source.Some? && HasPrim(part, Def(M.Exported(source.value, exported)), rank)
             && Same(run, k, M.Exported(source.value, exported))
           case _ => false)
       case Exported(file, name) =>
         (file, name) in run.p.exports &&
         (match run.p.exports[(file, name)]
          case FromFile(source, exported) =>
            && source.Some? && HasPrim(part, Def(M.Onward(file, source.value, exported)), rank)
            && Same(run, k, M.Onward(file, source.value, exported))
          case Standard(t) =>
            && HasPrim(part, At(file, t), rank)
            && Eval(run, file, t).Some? && Holds(run, k, Eval(run, file, t).value))
  }

  ghost predicate ItemComputes(part: Part, item: Item) {
    match item
    case At(file, t) =>
      if LiteralOf(part.run, item).Some? then NamesLiteral(part, file, t) else TermComputes(part, file, t)
    case Def(k) =>
      if LiteralOf(part.run, item).Some? then
        Has(part, At(k.file, part.run.p.locals[(k.file, k.name)].init), part.rank(item))
      else KeyComputes(part, k)
    case In(_, _) => true
  }

  /** Everything in the part is computed from lower ranks of it. */
  ghost predicate Computes(part: Part) { forall item :: item in part.items ==> ItemComputes(part, item) }

  // ---------- the verdicts ----------

  ghost function ValueOf(run: Run, item: Item): Verdict {
    if LiteralOf(run, item).Some? then LiteralOf(run, item).value
    else if PrimOf(run, item).Some? then Verdict.Prim(PrimOf(run, item).value)
    else State
  }

  ghost function WorthOf(part: Part): Worth { Worth(part.items, item => ValueOf(part.run, item), part.rank) }

  lemma ItemOf(part: Part, item: Item)
    requires Computes(part) && item in part.items
    ensures ItemComputes(part, item)
  {
    hide ItemComputes;
  }

  /** What belongs to the part and names no literal has a primitive verdict. */
  lemma PrimValue(part: Part, item: Item)
    requires Computes(part) && item in part.items && LiteralOf(part.run, item).None? && !item.In?
    ensures PrimOf(part.run, item).Some? && WorthOf(part).value(item) == Verdict.Prim(PrimOf(part.run, item).value)
  {
    hide LiteralOf, PrimOf, Computes;
    ItemOf(part, item);
  }

  lemma LiteralValue(part: Part, item: Item)
    requires LiteralOf(part.run, item).Some?
    ensures WorthOf(part).value(item) == LiteralOf(part.run, item).value
  {
    hide LiteralOf;
  }

  // ---------- literals ----------

  lemma InnerFollows(part: Part, file: string, owner: Term, key: string, rank: nat)
    requires Computes(part) && InnerComputes(part, file, owner, key, rank)
    requires FromSource(part.run.ops, Source(part.run.p, part.run.ops, {}, file, owner), key).Some?
    ensures
      var w, run := WorthOf(part), part.run;
      var v := w.value(At(file, owner));
      && Under(w, At(file, owner), rank) && LookFits(run.ops, w, v, key, rank)
      && Looked(run.ops, w, v, key) ==
         OfLiteral(file, FromSource(run.ops, Source(run.p, run.ops, {}, file, owner), key).value)
  {
    hide Find, Source, Computes;
    var source := Source(part.run.p, part.run.ops, {}, file, owner);
    LiteralValue(part, At(file, owner));
    var found := Find(part.run.ops, source.value, key);
    if !IsLiteral(found.t) {
      FrozenSource(part.run, file, found.t);
      LiteralValue(part, At(file, found.t));
    }
  }

  lemma FrozenSource(run: Run, file: string, t: Term)
    requires IsFrozenLiteral(t)
    ensures LiteralOf(run, At(file, t)) == Some(OfLiteral(file, t.t))
  {
  }

  lemma LiteralTermFollows(part: Part, file: string, t: Term)
    requires Computes(part) && At(file, t) in part.items && LiteralOf(part.run, At(file, t)).Some?
    ensures TermFollows(part.run.ops, WorthOf(part), file, t)
  {
    hide Find, FromSource, Computes, Looked, LookFits, InnerComputes;
    ItemOf(part, At(file, t));
    var run, rank := part.run, part.rank(At(file, t));
    LiteralValue(part, At(file, t));
    match t {
      case Ref(name, _) => LiteralValue(part, Def(M.Named(file, name)));
      case Member(owner, key) => InnerFollows(part, file, owner, key, rank);
      case Index(owner, at) =>
        InnerFollows(part, file, owner, run.ops.text(at.p), rank);
        LitValue(part, file, at);
      case _ =>
    }
  }

  lemma LitValue(part: Part, file: string, t: Term)
    requires t.Lit?
    ensures WorthOf(part).value(At(file, t)) == Verdict.Prim(t.p)
  {
  }

  // ---------- terms ----------

  /** What the key of the literal gives in the run is what was found there. */
  lemma FoundIsRead(part: Part, file: string, now: Term, owner: Term, key: string, rank: nat)
    requires Computes(part) && LookComputes(part, file, owner, key, rank) && rank > 0
    requires Eval(part.run, file, owner).Some?
    ensures
      var w, run, raw := WorthOf(part), part.run, Get(part.run, now, Eval(part.run, file, owner).value, key);
      var v := w.value(At(file, owner));
      && Under(w, At(file, owner), rank) && LookFits(run.ops, w, v, key, rank)
      && (raw.Some? && raw.value.P? ==> Looked(run.ops, w, v, key) == Verdict.Prim(raw.value.p))
  {
    hide Find, Source, Computes, Build, Settles, Get;
    var run := part.run;
    var source := Source(run.p, run.ops, {}, file, owner).value;
    SettledIsRight(run, file, source, key);
    LiteralValue(part, At(file, owner));
    var found := Find(run.ops, source, key);
    assert Denotes(run, file, found, Get(run, now, Eval(run, file, owner).value, key));
    match found {
      case Value(v) => PrimValue(part, At(file, v));
      case Binding(name) => PrimValue(part, Def(M.Named(file, name)));
      case _ =>
    }
  }

  lemma MemberFollows(part: Part, file: string, t: Term)
    requires Computes(part) && At(file, t) in part.items && LiteralOf(part.run, At(file, t)).None? && t.Member?
    ensures TermFollows(part.run.ops, WorthOf(part), file, t)
  {
    hide Source, Computes, LookComputes, Looked, LookFits, Get;
    ItemOf(part, At(file, t));
    PrimValue(part, At(file, t));
    OwnerRanks(part, file, t.owner, t.key, part.rank(At(file, t)));
    FoundIsRead(part, file, t, t.owner, t.key, part.rank(At(file, t)));
  }

  lemma OwnerRanks(part: Part, file: string, owner: Term, key: string, rank: nat)
    requires LookComputes(part, file, owner, key, rank)
    ensures rank > 0
  {
  }

  lemma IndexFollows(part: Part, file: string, t: Term)
    requires Computes(part) && At(file, t) in part.items && LiteralOf(part.run, At(file, t)).None? && t.Index?
    ensures TermFollows(part.run.ops, WorthOf(part), file, t)
  {
    hide Source, Computes, LookComputes, Looked, LookFits, Get;
    ItemOf(part, At(file, t));
    PrimValue(part, At(file, t));
    PrimValue(part, At(file, t.at));
    var key := part.run.ops.text(PrimOf(part.run, At(file, t.at)).value);
    OwnerRanks(part, file, t.owner, key, part.rank(At(file, t)));
    FoundIsRead(part, file, t, t.owner, key, part.rank(At(file, t)));
  }

  lemma {:induction false} SpansComputed(part: Part, file: string, t: Term, k: nat)
    requires t.Template? && k <= |t.spans| && SpansOf(part.run, file, t, k).Some?
    requires forall i :: 0 <= i < k ==>
      PrimOf(part.run, At(file, t.spans[i].t)).Some? &&
      WorthOf(part).value(At(file, t.spans[i].t)) == Verdict.Prim(PrimOf(part.run, At(file, t.spans[i].t)).value)
    ensures SpansOf(part.run, file, t, k).value == SpanTexts(part.run.ops, WorthOf(part), file, t, k)
  {
    hide WorthOf;
    if k > 0 {
      SpansComputed(part, file, t, k - 1);
      assert PrimOf(part.run, At(file, t.spans[k - 1].t)).Some?;
    }
  }

  lemma TemplateFollows(part: Part, file: string, t: Term)
    requires Computes(part) && At(file, t) in part.items && LiteralOf(part.run, At(file, t)).None? && t.Template?
    ensures TermFollows(part.run.ops, WorthOf(part), file, t)
  {
    hide Computes, SpanTexts, SpansOf;
    ItemOf(part, At(file, t));
    PrimValue(part, At(file, t));
    forall i | 0 <= i < |t.spans|
      ensures Under(WorthOf(part), At(file, t.spans[i].t), part.rank(At(file, t)))
      ensures PrimOf(part.run, At(file, t.spans[i].t)).Some?
      ensures WorthOf(part).value(At(file, t.spans[i].t)) ==
        Verdict.Prim(PrimOf(part.run, At(file, t.spans[i].t)).value)
    {
      assert HasPrim(part, At(file, t.spans[i].t), part.rank(At(file, t)));
      PrimValue(part, At(file, t.spans[i].t));
    }
    SpansComputed(part, file, t, |t.spans|);
  }

  lemma OperatorFollows(part: Part, file: string, t: Term)
    requires Computes(part) && At(file, t) in part.items && LiteralOf(part.run, At(file, t)).None?
    requires t.Cond? || t.Unary? || t.Binary?
    ensures TermFollows(part.run.ops, WorthOf(part), file, t)
  {
    hide Computes, Source;
    ItemOf(part, At(file, t));
    PrimValue(part, At(file, t));
    match t {
      case Cond(c, yes, no) =>
        PrimValue(part, At(file, c));
        PrimValue(part, At(file, yes));
        PrimValue(part, At(file, no));
      case Unary(_, operand) => PrimValue(part, At(file, operand));
      case Binary(_, l, r) =>
        PrimValue(part, At(file, l));
        PrimValue(part, At(file, r));
    }
  }

  lemma TermDue(part: Part, file: string, t: Term)
    requires Computes(part) && At(file, t) in part.items
    ensures TermFollows(part.run.ops, WorthOf(part), file, t)
  {
    hide Computes, Source, LookComputes;
    if LiteralOf(part.run, At(file, t)).Some? {
      LiteralTermFollows(part, file, t);
    } else if t.Member? {
      MemberFollows(part, file, t);
    } else if t.Index? {
      IndexFollows(part, file, t);
    } else if t.Template? {
      TemplateFollows(part, file, t);
    } else if t.Cond? || t.Unary? || t.Binary? {
      OperatorFollows(part, file, t);
    } else {
      ItemOf(part, At(file, t));
      PrimValue(part, At(file, t));
      if t.Immutable? {
        PrimValue(part, At(file, t.t));
      } else if t.Ref? {
        PrimValue(part, Def(M.Named(file, t.name)));
      }
    }
  }

  // ---------- definitions ----------

  lemma ConstFollows(part: Part, file: string, name: string, v: Verdict)
    requires (file, name) in part.run.p.locals && part.run.p.locals[(file, name)].Const?
    requires var local := part.run.p.locals[(file, name)];
      && local.bound.access == [] && Has(part, At(file, local.init), part.rank(Def(M.Named(file, name))))
      && v == WorthOf(part).value(At(file, local.init))
    ensures var local := part.run.p.locals[(file, name)];
      PathGives(part.run.ops, WorthOf(part), file, local.init, local.bound, v, part.rank(Def(M.Named(file, name))))
  {
    var local, w := part.run.p.locals[(file, name)], WorthOf(part);
    var ways := [(v, v)];
    assert PathFollows(part.run.ops, w, file, local.init, local.bound, ways, part.rank(Def(M.Named(file, name))));
    assert PathEnd(w, file, local.bound, ways) == v;
  }

  lemma KeyDue(part: Part, k: Key)
    requires Computes(part) && Def(k) in part.items
    ensures KeyFollows(part.run.p, part.run.ops, WorthOf(part), k)
  {
    hide Computes, Source, Eval, PathGives, M.IsBuiltin;
    ItemOf(part, Def(k));
    if LiteralOf(part.run, Def(k)).Some? {
      var local := part.run.p.locals[(k.file, k.name)];
      LiteralValue(part, Def(k));
      FrozenSource(part.run, k.file, local.init);
      LiteralValue(part, At(k.file, local.init));
      ConstFollows(part, k.file, k.name, WorthOf(part).value(At(k.file, local.init)));
    } else {
      PrimValue(part, Def(k));
      if k.Named? {
        if (k.file, k.name) !in part.run.p.locals {
          M.Builtins(k.name);
          NoBuiltin();
        } else {
          match part.run.p.locals[(k.file, k.name)] {
            case Const(_, init, bound) =>
              PrimValue(part, At(k.file, init));
              ConstFollows(part, k.file, k.name, WorthOf(part).value(At(k.file, init)));
            case Import(source, exported) => PrimValue(part, Def(M.Exported(source.value, exported)));
          }
        }
      } else {
        match part.run.p.exports[(k.file, k.name)] {
          case FromFile(source, exported) => PrimValue(part, Def(M.Onward(k.file, source.value, exported)));
          case Standard(t) => PrimValue(part, At(k.file, t));
        }
      }
    }
  }

  lemma NoBuiltin()
    ensures !M.IsBuiltin("undefined") && !M.IsBuiltin("NaN") && !M.IsBuiltin("Infinity")
  {
    M.Builtins("undefined");
    M.Builtins("NaN");
    M.Builtins("Infinity");
  }

  /** The verdicts of a computed part follow from one another. */
  lemma ComputedFits(part: Part)
    requires Computes(part)
    ensures Fits(part.run.p, part.run.ops, WorthOf(part))
  {
    hide Computes, TermFollows, KeyFollows, ValueOf;
    forall item | item in WorthOf(part).items ensures Follows(part.run.p, part.run.ops, WorthOf(part), item) {
      match item {
        case Def(k) => KeyDue(part, k);
        case At(file, t) => TermDue(part, file, t);
        case In(_, _) =>
      }
    }
  }

  /** A computed name has the verdict of the primitive it holds. */
  lemma ComputedValue(part: Part, k: Key)
    requires Computes(part) && Def(k) in part.items && LiteralOf(part.run, Def(k)).None?
    ensures
      var v := WorthOf(part).value(Def(k));
      v.Prim? && Holds(part.run, k, P(v.p))
  {
    hide Computes, LiteralOf;
    PrimValue(part, Def(k));
  }

  /** The definition is computed in this part of a run of the program, and names no literal. */
  ghost predicate Folds(p: Program, ops: Ops, part: Part, k: Key) {
    && part.run.p == p && part.run.ops == ops && Computes(part)
    && Def(k) in part.items && LiteralOf(part.run, Def(k)).None?
  }

  lemma FoldsAsComputed(p: Program, ops: Ops, part: Part, k: Key)
    requires Folds(p, ops, part, k)
    ensures Fits(p, ops, WorthOf(part)) && Def(k) in WorthOf(part).items
    ensures WorthOf(part).rank(Def(k)) == part.rank(Def(k))
    ensures WorthOf(part).value(Def(k)).Prim? && Holds(part.run, k, P(WorthOf(part).value(Def(k)).p))
  {
    hide Computes, Fits;
    ComputedFits(part);
    ComputedValue(part, k);
  }

  // ---------- queries ----------

  function KeyOf(query: (string, string)): Key { M.Named(query.0, query.1) }

  /** The answers are the verdicts that follow, in every worth. */
  ghost predicate Answered(p: Program, ops: Ops, queries: seq<(string, string)>, answers: seq<Verdict>) {
    |answers| <= |queries| &&
    forall i, w :: 0 <= i < |answers| && Fits(p, ops, w) && Def(KeyOf(queries[i])) in w.items ==>
      answers[i] == w.value(Def(KeyOf(queries[i])))
  }

  lemma NoneAnswered(p: Program, ops: Ops, queries: seq<(string, string)>)
    ensures Answered(p, ops, queries, [])
  {
  }

  lemma OneAnswered(p: Program, ops: Ops, queries: seq<(string, string)>, answers: seq<Verdict>, v: Verdict)
    requires Answered(p, ops, queries, answers) && |answers| < |queries|
    requires forall w :: Fits(p, ops, w) && Def(KeyOf(queries[|answers|])) in w.items ==>
      v == w.value(Def(KeyOf(queries[|answers|])))
    ensures Answered(p, ops, queries, answers + [v])
  {
    hide Fits;
  }

  /** What is computed is answered with the primitive it holds. */
  ghost predicate FoldedAnswers(p: Program, ops: Ops, queries: seq<(string, string)>, answers: seq<Verdict>) {
    |answers| <= |queries| &&
    forall i, part :: 0 <= i < |answers| ==> FoldedAnswer(p, ops, part, KeyOf(queries[i]), answers[i])
  }

  ghost predicate FoldedAnswer(p: Program, ops: Ops, part: Part, k: Key, v: Verdict) {
    Folds(p, ops, part, k) ==> v.Prim? && Holds(part.run, k, P(v.p))
  }

  lemma AnsweredFolds(p: Program, ops: Ops, queries: seq<(string, string)>, answers: seq<Verdict>)
    requires Answered(p, ops, queries, answers)
    ensures FoldedAnswers(p, ops, queries, answers)
  {
    hide Fits, FoldedAnswer;
    forall i, part | 0 <= i < |answers| ensures FoldedAnswer(p, ops, part, KeyOf(queries[i]), answers[i]) {
      OneFolds(p, ops, queries, answers, i, part);
    }
  }

  lemma OneFolds(p: Program, ops: Ops, queries: seq<(string, string)>, answers: seq<Verdict>, i: nat, part: Part)
    requires Answered(p, ops, queries, answers) && i < |answers|
    ensures FoldedAnswer(p, ops, part, KeyOf(queries[i]), answers[i])
  {
    hide Fits, Folds, Holds, WorthOf;
    if Folds(p, ops, part, KeyOf(queries[i])) {
      FoldsAsComputed(p, ops, part, KeyOf(queries[i]));
    }
  }
}
