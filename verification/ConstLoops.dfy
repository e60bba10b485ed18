/** Terms the evaluator never comes to an end with: looking into a literal is not guarded against going round. */
module ConstLoops {
  import opened Options
  import opened ConstTerms
  import opened ConstFolding
  import M = ModuleState

  /** The literal of a name that stands for one without destructuring. */
  function LiteralConst(p: Program, file: string, name: string): Option<Term> {
    if (file, name) in p.locals && IsLiteralLocal(p.locals[(file, name)]) then Some(p.locals[(file, name)].init.t)
    else None
  }

  predicate IsLiteralLocal(local: Local) { local.Const? && local.bound.access == [] && IsFrozenLiteral(local.init) }

  predicate IsFrozenLiteral(t: Term) { t.Immutable? && IsLiteral(t.t) }

  function FoundSource(found: Found): Option<Term> {
    if found.Value? && IsLiteral(found.t) then Some(found.t)
    else if found.Value? && IsFrozenLiteral(found.t) then Some(found.t.t)
    else None
  }

  /** The literal a term stands for whatever else is in the program, if that can be told from frozen literals alone. */
  function Source(p: Program, ops: Ops, visiting: set<Key>, file: string, t: Term): Option<Term>
    decreases t
  {
    match t
    case Immutable(inner) => if IsLiteral(inner) then Some(inner) else None
    case Ref(name, _) => if M.Named(file, name) in visiting then None else LiteralConst(p, file, name)
    case Member(owner, key) => FromSource(ops, Source(p, ops, visiting, file, owner), key)
    case Index(owner, at) =>
      if at.Lit? then FromSource(ops, Source(p, ops, visiting, file, owner), ops.text(at.p)) else None
    case _ => None
  }

  function FromSource(ops: Ops, source: Option<Term>, key: string): Option<Term> {
    if source.Some? && IsLiteral(source.value) then FoundSource(Find(ops, source.value, key)) else None
  }

  lemma {:induction false} SourceIsLiteral(p: Program, ops: Ops, visiting: set<Key>, file: string, t: Term)
    ensures var source := Source(p, ops, visiting, file, t); source.Some? ==> IsLiteral(source.value)
  {
    hide Find;
  }

  /** Evaluating the term always evaluates another one of the set. */
  ghost predicate GoesOn(p: Program, ops: Ops, visiting: set<Key>, file: string, t: Term, c: iset<Term>) {
    match t
    case Immutable(inner) => !IsLiteral(inner) && inner in c
    case Member(owner, key) => owner in c || LooksInto(p, ops, visiting, file, owner, key, c)
    case Index(owner, at) =>
      at in c || (at.Lit? && (owner in c || LooksInto(p, ops, visiting, file, owner, ops.text(at.p), c)))
    case Template(_, spans) => spans != [] && spans[0].t in c
    case Cond(condition, yes, no) => condition in c || yes in c || no in c
    case Unary(_, operand) => operand in c
    case Binary(_, l, r) => l in c || r in c
    case _ => false
  }

  ghost predicate LooksInto(p: Program, ops: Ops, visiting: set<Key>, file: string, owner: Term, key: string,
                            c: iset<Term>) {
    var source := Source(p, ops, visiting, file, owner);
    source.Some? && IsLiteral(source.value) && FoundIn(Find(ops, source.value, key), c)
  }

  ghost predicate FoundIn(found: Found, c: iset<Term>) { found.Value? && found.t in c }

  ghost predicate GoesRound(p: Program, ops: Ops, visiting: set<Key>, file: string, c: iset<Term>) {
    forall t :: t in c ==> GoesOn(p, ops, visiting, file, t, c)
  }

  /** Evaluating the term leads from one term to the next without end. */
  ghost predicate Endless(p: Program, ops: Ops, visiting: set<Key>, file: string, t: Term) {
    exists c :: GoesRound(p, ops, visiting, file, c) && t in c
  }

  ghost function EndlessTerms(p: Program, ops: Ops, visiting: set<Key>, file: string): iset<Term> {
    iset t | Endless(p, ops, visiting, file, t)
  }

  /** One step of an endless evaluation. */
  lemma EndlessGoesOn(p: Program, ops: Ops, visiting: set<Key>, file: string, t: Term)
    requires Endless(p, ops, visiting, file, t)
    ensures GoesOn(p, ops, visiting, file, t, EndlessTerms(p, ops, visiting, file))
  {
    hide Source, Find;
    var c :| GoesRound(p, ops, visiting, file, c) && t in c;
    assert c <= EndlessTerms(p, ops, visiting, file);
  }
}
