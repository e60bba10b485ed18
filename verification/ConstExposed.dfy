/** Definitions and terms the evaluator must refuse: what can change, and whatever is made of it. */
module ConstExposed {
  import opened Options
  import opened ConstTerms
  import M = ModuleState

  /** The evaluator asks a module re-exported with a star only if it could know the name. */
  predicate Tried(p: Program, target: string, name: string) { (target, name) in p.exports || target in p.stars }

  /**
   * At most n definitions away, the key is mutable, unknown or made of a form the evaluator has no case for; an export
   * that is re-exported with stars is so if all of its sources are.
   */
  ghost predicate KeyExposed(p: Program, k: Key, n: nat)
    decreases n, 0
  {
    n > 0 &&
    match k
    case Named(file, name) =>
      if (file, name) !in p.locals then !M.IsBuiltin(name) && !M.IsNamedPrimitive(name)
      else (match p.locals[(file, name)]
        case Const(_, init, bound) =>
          || TermExposed(p, file, init, n - 1)
          || (exists j :: 0 <= j < |bound.access| && bound.access[j].Dynamic? &&
                TermExposed(p, file, bound.access[j].at, n - 1))
          || (exists j: nat, i: nat :: IsDefault(bound, j, i) && TermExposed(p, file, DefaultNo(bound, j, i), n - 1))
        case Import(source, exported) => source.Some? && KeyExposed(p, M.Exported(source.value, exported), n - 1)
        case Star(_) => false
        case Declared => false
        case Mutable => true)
    case Exported(file, name) =>
      if (file, name) in p.exports then
        (match p.exports[(file, name)]
         case FromFile(source, exported) =>
           source.Some? &&
           KeyExposed(p, if source.value == file then M.Named(file, exported) else M.Exported(source.value, exported),
             n - 1)
         case Standard(t) => TermExposed(p, file, t, n - 1))
      else
        file in p.stars ==> forall target :: target in p.stars[file] && Tried(p, target, name) ==>
          KeyExposed(p, M.Exported(target, name), n - 1)
  }

  /** The i-th default of access j. */
  predicate IsDefault(bound: Bound, j: nat, i: nat) {
    j < |bound.access| && i < |DefaultsAt(bound.defaults, j + 1)|
  }

  function DefaultNo(bound: Bound, j: nat, i: nat): Term
    requires IsDefault(bound, j, i)
  {
    DefaultsAt(bound.defaults, j + 1)[i]
  }

  /** The term is a form without a case, a literal that can be written to, or made of something exposed. */
  ghost predicate TermExposed(p: Program, file: string, t: Term, n: nat)
    decreases n, 1, t
  {
    match t
    case Other(_) => true
    case Object(_, _) => true
    case Array(_, _) => true
    case Immutable(inner) => !IsLiteral(inner) && TermExposed(p, file, inner, n)
    case Ref(name, _) => KeyExposed(p, M.Named(file, name), n)
    case Member(owner, _) => TermExposed(p, file, owner, n)
    case Index(owner, at) => TermExposed(p, file, owner, n) || TermExposed(p, file, at, n)
    case Template(_, spans) => exists i :: 0 <= i < |spans| && TermExposed(p, file, spans[i].t, n)
    case Cond(c, yes, no) => TermExposed(p, file, c, n) || TermExposed(p, file, yes, n) || TermExposed(p, file, no, n)
    case Unary(_, operand) => TermExposed(p, file, operand, n)
    case Binary(_, l, r) => TermExposed(p, file, l, n) || TermExposed(p, file, r, n)
    case _ => false
  }

  ghost predicate ExposedKey(p: Program, k: Key) { exists n: nat :: KeyExposed(p, k, n) }

  ghost predicate ExposedTerm(p: Program, file: string, t: Term) { exists n: nat :: TermExposed(p, file, t, n) }

  lemma AtSomeDepth(p: Program, file: string)
    ensures forall t, n: nat :: TermExposed(p, file, t, n) ==> ExposedTerm(p, file, t)
    ensures forall k, n: nat :: KeyExposed(p, k, n) ==> ExposedKey(p, k)
  {
    hide TermExposed, KeyExposed;
  }

  /** One step down from an exposed term. */
  lemma ExposedParts(p: Program, file: string, t: Term)
    requires ExposedTerm(p, file, t)
    ensures !t.Lit? && !t.Opaque?
    ensures t.Immutable? ==> !IsLiteral(t.t) && ExposedTerm(p, file, t.t)
    ensures t.Ref? ==> ExposedKey(p, M.Named(file, t.name))
    ensures t.Member? ==> ExposedTerm(p, file, t.owner)
    ensures t.Index? ==> ExposedTerm(p, file, t.owner) || ExposedTerm(p, file, t.at)
    ensures t.Template? ==> exists i :: 0 <= i < |t.spans| && ExposedTerm(p, file, t.spans[i].t)
    ensures t.Cond? ==> ExposedTerm(p, file, t.condition) || ExposedTerm(p, file, t.yes) || ExposedTerm(p, file, t.no)
    ensures t.Unary? ==> ExposedTerm(p, file, t.operand)
    ensures t.Binary? ==> ExposedTerm(p, file, t.left) || ExposedTerm(p, file, t.right)
  {
    var n: nat :| TermExposed(p, file, t, n);
    AtSomeDepth(p, file);
    match t
    case Immutable(inner) => assert TermExposed(p, file, inner, n);
    case Ref(name, _) => assert KeyExposed(p, M.Named(file, name), n);
    case Member(owner, _) => assert TermExposed(p, file, owner, n);
    case Index(owner, at) => assert TermExposed(p, file, owner, n) || TermExposed(p, file, at, n);
    case Template(_, spans) =>
      var i :| 0 <= i < |spans| && TermExposed(p, file, spans[i].t, n);
    case Cond(c, yes, no) =>
      assert TermExposed(p, file, c, n) || TermExposed(p, file, yes, n) || TermExposed(p, file, no, n);
    case Unary(_, operand) => assert TermExposed(p, file, operand, n);
    case Binary(_, l, r) => assert TermExposed(p, file, l, n) || TermExposed(p, file, r, n);
    case _ =>
  }

  /** The initializer, a key or a default on the way through the first k accesses is exposed. */
  ghost predicate ExposedWay(p: Program, file: string, init: Term, bound: Bound, k: nat) {
    ExposedTerm(p, file, init) || exists j: nat :: j < k && ExposedStep(p, file, bound, j)
  }

  ghost predicate ExposedStep(p: Program, file: string, bound: Bound, j: nat) {
    j < |bound.access| && (ExposedAccess(p, file, bound.access[j]) ||
      ExposedDefault(p, file, DefaultsAt(bound.defaults, j + 1)))
  }

  ghost predicate ExposedAccess(p: Program, file: string, access: Access) {
    access.Dynamic? && ExposedTerm(p, file, access.at)
  }

  ghost predicate ExposedDefault(p: Program, file: string, fallbacks: seq<Term>) {
    exists i :: 0 <= i < |fallbacks| && ExposedTerm(p, file, fallbacks[i])
  }

  /** One step down from an exposed definition. */
  lemma ExposedLocal(p: Program, file: string, name: string)
    requires ExposedKey(p, M.Named(file, name)) && (file, name) in p.locals
    ensures match p.locals[(file, name)]
      case Const(_, init, bound) => ExposedWay(p, file, init, bound, |bound.access|)
      case Import(source, exported) => source.Some? && ExposedKey(p, M.Exported(source.value, exported))
      case Mutable => true
      case _ => false
  {
    var n: nat :| KeyExposed(p, M.Named(file, name), n);
    AtSomeDepth(p, file);
    match p.locals[(file, name)] {
      case Import(source, exported) => assert KeyExposed(p, M.Exported(source.value, exported), n - 1);
      case Const(_, init, bound) =>
        if !TermExposed(p, file, init, n - 1) {
          if j: nat :| j < |bound.access| && bound.access[j].Dynamic? && TermExposed(p, file, bound.access[j].at, n - 1)
          {
            assert ExposedAccess(p, file, bound.access[j]);
            assert ExposedStep(p, file, bound, j);
          } else {
            var j: nat, i: nat :| IsDefault(bound, j, i) && TermExposed(p, file, DefaultNo(bound, j, i), n - 1);
            assert ExposedTerm(p, file, DefaultsAt(bound.defaults, j + 1)[i]);
            assert ExposedStep(p, file, bound, j);
          }
        }
      case _ =>
    }
  }

  lemma ExposedExport(p: Program, file: string, name: string)
    requires ExposedKey(p, M.Exported(file, name))
    ensures (file, name) in p.exports ==>
      (match p.exports[(file, name)]
       case FromFile(source, exported) => source.Some? && ExposedKey(p, M.Onward(file, source.value, exported))
       case Standard(t) => ExposedTerm(p, file, t))
    ensures (file, name) !in p.exports && file in p.stars ==>
      forall target :: target in p.stars[file] && Tried(p, target, name) ==> ExposedKey(p, M.Exported(target, name))
  {
    var n: nat :| KeyExposed(p, M.Exported(file, name), n);
    AtSomeDepth(p, file);
    if (file, name) in p.exports {
      match p.exports[(file, name)] {
        case FromFile(source, exported) => assert KeyExposed(p, M.Onward(file, source.value, exported), n - 1);
        case Standard(t) => assert TermExposed(p, file, t, n - 1);
      }
    } else if file in p.stars {
      forall target | target in p.stars[file] && Tried(p, target, name)
        ensures ExposedKey(p, M.Exported(target, name))
      {
        assert KeyExposed(p, M.Exported(target, name), n - 1);
      }
    }
  }

  lemma ExposedGlobal(p: Program, file: string, name: string)
    requires ExposedKey(p, M.Named(file, name)) && (file, name) !in p.locals
    ensures !M.IsBuiltin(name) && !M.IsNamedPrimitive(name)
  {
  }

  lemma ExposedNext(p: Program, file: string, init: Term, bound: Bound, k: nat)
    requires ExposedWay(p, file, init, bound, k + 1)
    ensures ExposedWay(p, file, init, bound, k) || ExposedStep(p, file, bound, k)
  {
  }
}
