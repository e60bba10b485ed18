/** Programs in which fuel suffices: whatever is looked into refers only to what comes before it. */
module ConstEnough {
  import opened Options
  import opened Naturals
  import opened ConstTerms
  import opened ConstFolding
  import opened ConstPromise
  import opened ConstSound
  import opened ConstFuel
  import M = ModuleState

  // ---------- a weight for every term ----------

  /**
   * What a name, a level of a term and a literal that is looked into weigh; deep says whether the contents of
   * literals count at all.
   */
  datatype Weights = Weights(name: Key -> nat, node: nat, layer: nat, deep: bool)

  /** The heaviest way down the term. */
  function Weight(w: Weights, file: string, t: Term): nat
    decreases t, 1, 0
  {
    match t
    case Immutable(inner) => if IsLiteral(inner) then LiteralWeight(w, file, inner) else w.node + Weight(w, file, inner)
    case Ref(name, _) => w.node + w.name(M.Named(file, name))
    case Member(owner, _) => w.node + Weight(w, file, owner)
    case Index(owner, at) => w.node + Max(Weight(w, file, owner), Weight(w, file, at))
    case Template(_, _) => w.node + SpansWeight(w, file, t, |t.spans|)
    case Cond(c, yes, no) => w.node + Max(Weight(w, file, c), Max(Weight(w, file, yes), Weight(w, file, no)))
    case Unary(_, operand) => w.node + Weight(w, file, operand)
    case Binary(_, l, r) => w.node + Max(Weight(w, file, l), Weight(w, file, r))
    case _ => w.node
  }

  function SpansWeight(w: Weights, file: string, t: Term, k: nat): nat
    requires t.Template? && k <= |t.spans|
    decreases t, 0, k
  {
    if k == 0 then 0 else Max(SpansWeight(w, file, t, k - 1), Weight(w, file, t.spans[k - 1].t))
  }

  function LiteralWeight(w: Weights, file: string, t: Term): nat
    requires IsLiteral(t)
    decreases t, 1, 0
  {
    w.layer + if !w.deep then 0 else if t.Object? then PropsWeight(w, file, t, |t.props|)
                                     else ElemsWeight(w, file, t, |t.elems|)
  }

  function ContentWeight(w: Weights, file: string, t: Term): nat
    decreases t, 2, 0
  {
    if IsLiteral(t) then LiteralWeight(w, file, t) else Weight(w, file, t)
  }

  function PropsWeight(w: Weights, file: string, t: Term, k: nat): nat
    requires t.Object? && k <= |t.props|
    decreases t, 0, k
  {
    if k == 0 then 0 else Max(PropsWeight(w, file, t, k - 1), PropWeight(w, file, t, k - 1))
  }

  function PropWeight(w: Weights, file: string, t: Term, i: nat): nat
    requires t.Object? && i < |t.props|
    decreases t, 0, i
  {
    match t.props[i]
    case Named(_, v) => ContentWeight(w, file, v)
    case Shorthand(name, _) => w.node + w.name(M.Named(file, name))
    case _ => 0
  }

  function ElemsWeight(w: Weights, file: string, t: Term, k: nat): nat
    requires t.Array? && k <= |t.elems|
    decreases t, 0, k
  {
    if k == 0 then 0
    else Max(ElemsWeight(w, file, t, k - 1),
             if t.elems[k - 1].Item? then ContentWeight(w, file, t.elems[k - 1].value) else 0)
  }

  lemma {:induction false} SpanWeighs(w: Weights, file: string, t: Term, k: nat, i: nat)
    requires t.Template? && i < k <= |t.spans|
    ensures Weight(w, file, t.spans[i].t) <= SpansWeight(w, file, t, k)
  {
    if i < k - 1 {
      SpanWeighs(w, file, t, k - 1, i);
    }
  }

  lemma {:induction false} PropWeighs(w: Weights, file: string, t: Term, k: nat, i: nat)
    requires t.Object? && i < k <= |t.props|
    ensures PropWeight(w, file, t, i) <= PropsWeight(w, file, t, k)
  {
    hide PropWeight;
    if i < k - 1 {
      PropWeighs(w, file, t, k - 1, i);
    }
  }

  lemma {:induction false} ElemWeighs(w: Weights, file: string, t: Term, k: nat, i: nat)
    requires t.Array? && i < k <= |t.elems| && t.elems[i].Item?
    ensures ContentWeight(w, file, t.elems[i].value) <= ElemsWeight(w, file, t, k)
  {
    hide ContentWeight;
    if i < k - 1 {
      ElemWeighs(w, file, t, k - 1, i);
    }
  }

  function FoundWeight(w: Weights, file: string, found: Found): nat {
    match found
    case Value(v) => ContentWeight(w, file, v)
    case Binding(name) => w.node + w.name(M.Named(file, name))
    case _ => 0
  }

  /** What is found in a literal weighs less than the literal, by a layer. */
  lemma FoundWeighs(w: Weights, ops: Ops, file: string, t: Term, key: string)
    requires IsLiteral(t) && w.deep
    ensures FoundWeight(w, file, Find(ops, t, key)) + w.layer <= LiteralWeight(w, file, t)
  {
    hide ContentWeight, ToIndex;
    if t.Object? {
      var i := FirstNamed(t.props, key);
      if i.Some? {
        PropWeighs(w, file, t, |t.props|, i.value);
      }
    } else {
      var i := ToIndex(ops, key);
      if i.Some? && i.value < |t.elems| && t.elems[i.value].Item? {
        ElemWeighs(w, file, t, |t.elems|, i.value);
      }
    }
  }

  // ---------- programs without a way round ----------

  /** Nothing is taken out of an object in the term, other than inside its literals. */
  predicate Flat(t: Term)
    decreases t
  {
    match t
    case Immutable(inner) => IsLiteral(inner) || Flat(inner)
    case Member(_, _) => false
    case Index(_, _) => false
    case Template(_, spans) => forall i :: 0 <= i < |spans| ==> Flat(spans[i].t)
    case Cond(c, yes, no) => Flat(c) && Flat(yes) && Flat(no)
    case Unary(_, operand) => Flat(operand)
    case Binary(_, l, r) => Flat(l) && Flat(r)
    case _ => true
  }

  /** A rank for every definition, a bound for the ranks and for the height of the terms. */
  datatype Ranking = Ranking(rank: Key -> nat, bound: nat, deep: bool) {
    function Ranks(): Weights { Weights(rank, 0, 1, deep) }

    function Heights(): Weights { Weights((k: Key) => 0, 1, 1, deep) }
  }

  /** The names of the term rank no higher than n, and those inside its literals lower, by the number of literals. */
  predicate Fits(g: Ranking, file: string, t: Term, n: nat) {
    Weight(g.Ranks(), file, t) <= n && Weight(g.Heights(), file, t) <= g.bound && (g.deep || Flat(t))
  }

  predicate LocalRanked(p: Program, g: Ranking, file: string, name: string)
    requires (file, name) in p.locals
  {
    var n := g.rank(M.Named(file, name));
    match p.locals[(file, name)]
    case Const(_, init, bound) =>
      && Fits(g, file, init, n) && (g.deep || bound.access == [])
      && (forall i :: 0 <= i < |bound.access| && bound.access[i].Dynamic? ==> Fits(g, file, bound.access[i].at, n))
      && (forall i :: 0 <= i < |bound.defaults| ==> Fits(g, file, bound.defaults[i].t, n))
    case Import(source, exported) => source.Some? ==> g.rank(M.Exported(source.value, exported)) <= n
    case _ => true
  }

  /** A module's namespace ranks no lower than anything it could export. */
  ghost predicate ModuleRanked(g: Ranking, file: string, n: nat) {
    forall name :: g.rank(M.Exported(file, name)) <= n
  }

  predicate ExportRanked(p: Program, g: Ranking, file: string, name: string)
    requires (file, name) in p.exports
  {
    var n := g.rank(M.Exported(file, name));
    match p.exports[(file, name)]
    case FromFile(source, exported) => source.Some? ==> g.rank(M.Onward(file, source.value, exported)) <= n
    case Standard(t) => Fits(g, file, t, n)
  }

  ghost predicate StarsRanked(p: Program, g: Ranking, file: string, target: string) {
    forall name :: g.rank(M.Exported(target, name)) <= g.rank(M.Exported(file, name))
  }

  /**
   * What a definition refers to outside its literals ranks no higher than itself, what it refers to inside them
   * lower. If literals are looked into nowhere, their contents do not matter.
   */
  ghost predicate Ranked(p: Program, g: Ranking) {
    && (forall k :: g.rank(k) <= g.bound)
    && (forall at :: at in p.locals ==> LocalRanked(p, g, at.0, at.1))
    && (forall at :: at in p.locals && p.locals[at].Star? && p.locals[at].source.Some? ==>
      ModuleRanked(g, p.locals[at].source.value, g.rank(M.Named(at.0, at.1))))
    && (forall at :: at in p.exports ==> ExportRanked(p, g, at.0, at.1))
    && (forall file, target :: file in p.stars && target in p.stars[file] ==> StarsRanked(p, g, file, target))
  }

  // ---------- their order ----------

  function Scale(bound: nat, n: nat): nat { if n == 0 then 0 else Scale(bound, n - 1) + bound + 1 }

  lemma {:induction false} ScaleGrows(bound: nat, n: nat, m: nat)
    requires n <= m
    ensures Scale(bound, n) <= Scale(bound, m)
    ensures n < m ==> Scale(bound, n) + bound < Scale(bound, m)
  {
    if n < m {
      ScaleGrows(bound, n, m - 1);
    }
  }

  /** The verdicts that lead no higher than n. */
  ghost predicate Reaches(g: Ranking, n: nat, v: Verdict) {
    match v
    case OfLiteral(file, t) => g.deep && IsLiteral(t) ==>
      LiteralWeight(g.Ranks(), file, t) <= n && LiteralWeight(g.Heights(), file, t) <= g.bound
    case OfModule(file) => ModuleRanked(g, file, n)
    case _ => true
  }

  ghost function Reach(g: Ranking, n: nat): iset<Verdict> { iset v | Reaches(g, n, v) }

  ghost function MayOf(g: Ranking, item: Item): iset<Verdict> {
    match item
    case Def(k) => Reach(g, g.rank(k))
    case At(file, t) => Reach(g, Weight(g.Ranks(), file, t))
    case In(_, _) => iset{}
  }

  function DepthOf(g: Ranking, item: Item): nat {
    match item
    case At(file, t) => Scale(g.bound, Weight(g.Ranks(), file, t)) + Weight(g.Heights(), file, t)
    case _ => 0
  }

  predicate Belongs(g: Ranking, item: Item) {
    match item
    case Def(_) => true
    case At(file, t) => Fits(g, file, t, g.bound)
    case In(_, _) => false
  }

  ghost function OrderOf(g: Ranking): Order {
    Order((iset item | Belongs(g, item)), (item: Item) => MayOf(g, item), (item: Item) => DepthOf(g, item),
          Scale(g.bound, g.bound) + g.bound)
  }

  lemma PartBelow(g: Ranking, file: string, t: Term, part: Term)
    requires Fits(g, file, t, g.bound) && (g.deep || Flat(part))
    requires Weight(g.Ranks(), file, part) <= Weight(g.Ranks(), file, t)
    requires Weight(g.Heights(), file, part) < Weight(g.Heights(), file, t)
    ensures Below(OrderOf(g), file, part, DepthOf(g, At(file, t)))
  {
    hide Weight;
    ScaleGrows(g.bound, Weight(g.Ranks(), file, part), Weight(g.Ranks(), file, t));
  }

  /** What a verdict that leads no higher than n gives is listed, and less deep than anything of rank n. */
  lemma LooksLower(ops: Ops, g: Ranking, v: Verdict, key: string, n: nat, m: nat, depth: nat)
    requires g.deep && Reaches(g, n, v) && n <= m && n <= g.bound && depth > Scale(g.bound, n)
    ensures LookLow(ops, OrderOf(g), v, key, Reach(g, m), depth)
  {
    hide Weight, LiteralWeight, Find, Scale;
    if v.OfLiteral? && IsLiteral(v.t) {
      FoundWeighs(g.Ranks(), ops, v.file, v.t, key);
      FoundWeighs(g.Heights(), ops, v.file, v.t, key);
      var found := Find(ops, v.t, key);
      if found.Value? && !IsLiteral(found.t) {
        ScaleGrows(g.bound, Weight(g.Ranks(), v.file, found.t), n);
      }
    }
  }

  lemma NamesListed(g: Ranking, k: Key, n: nat)
    requires g.rank(k) <= n
    ensures Listed(OrderOf(g), Def(k), Reach(g, n))
  {
  }

  lemma AccessLow(ops: Ops, g: Ranking, file: string, t: Term, key: string, v: Verdict)
    requires (t.Member? || t.Index?) && g.deep && Fits(g, file, t, g.bound)
    requires v in MayOf(g, At(file, t.owner))
    ensures LookLow(ops, OrderOf(g), v, key, MayOf(g, At(file, t)), DepthOf(g, At(file, t)))
  {
    hide LookLow, Scale;
    var n, m := Weight(g.Ranks(), file, t.owner), Weight(g.Ranks(), file, t);
    ScaleGrows(g.bound, n, m);
    LooksLower(ops, g, v, key, n, m, DepthOf(g, At(file, t)));
  }

  lemma MemberIsLow(ops: Ops, g: Ranking, file: string, t: Term)
    requires (t.Member? || t.Index?) && Fits(g, file, t, g.bound)
    ensures TermLow(ops, OrderOf(g), file, t)
  {
    hide Scale, Below, LookLow, Listed;
    PartBelow(g, file, t, t.owner);
    if t.Index? {
      PartBelow(g, file, t, t.at);
    }
    forall v, key | v in MayOf(g, At(file, t.owner))
      ensures LookLow(ops, OrderOf(g), v, key, MayOf(g, At(file, t)), DepthOf(g, At(file, t)))
    {
      AccessLow(ops, g, file, t, key, v);
    }
  }

  lemma OperatorIsLow(ops: Ops, g: Ranking, file: string, t: Term)
    requires (t.Template? || t.Cond? || t.Unary? || t.Binary?) && Fits(g, file, t, g.bound)
    ensures TermLow(ops, OrderOf(g), file, t)
  {
    hide Scale, Below;
    match t {
      case Template(_, spans) =>
        forall i | 0 <= i < |spans| ensures Below(OrderOf(g), file, spans[i].t, DepthOf(g, At(file, t))) {
          SpanWeighs(g.Ranks(), file, t, |spans|, i);
          SpanWeighs(g.Heights(), file, t, |spans|, i);
          PartBelow(g, file, t, spans[i].t);
        }
      case Cond(c, yes, no) =>
        PartBelow(g, file, t, c);
        PartBelow(g, file, t, yes);
        PartBelow(g, file, t, no);
      case Unary(_, operand) => PartBelow(g, file, t, operand);
      case Binary(_, l, r) =>
        PartBelow(g, file, t, l);
        PartBelow(g, file, t, r);
    }
  }

  lemma ImmutableIsLow(ops: Ops, g: Ranking, file: string, t: Term)
    requires t.Immutable? && Fits(g, file, t, g.bound)
    ensures TermLow(ops, OrderOf(g), file, t)
  {
    hide Scale, LiteralWeight;
    if IsLiteral(t.t) {
      assert OfLiteral(file, t.t) in MayOf(g, At(file, t));
      assert LiteralWeight(g.Heights(), file, t.t) > 0 by {
        LayerWeighs(g.Heights(), file, t.t);
      }
    } else {
      PartBelow(g, file, t, t.t);
    }
  }

  lemma LayerWeighs(w: Weights, file: string, t: Term)
    requires IsLiteral(t)
    ensures LiteralWeight(w, file, t) >= w.layer
  {
  }

  lemma TermIsLow(ops: Ops, g: Ranking, file: string, t: Term)
    requires Fits(g, file, t, g.bound)
    ensures TermLow(ops, OrderOf(g), file, t)
  {
    hide Scale, Below;
    match t {
      case Immutable(_) => ImmutableIsLow(ops, g, file, t);
      case Ref(name, _) => NamesListed(g, M.Named(file, name), Weight(g.Ranks(), file, t));
      case Member(_, _) => MemberIsLow(ops, g, file, t);
      case Index(_, _) => MemberIsLow(ops, g, file, t);
      case Template(_, _) => OperatorIsLow(ops, g, file, t);
      case Cond(_, _, _) => OperatorIsLow(ops, g, file, t);
      case Unary(_, _) => OperatorIsLow(ops, g, file, t);
      case Binary(_, _, _) => OperatorIsLow(ops, g, file, t);
      case _ =>
    }
  }

  lemma FitsListed(g: Ranking, file: string, t: Term, n: nat)
    requires Fits(g, file, t, n) && n <= g.bound
    ensures Listed(OrderOf(g), At(file, t), Reach(g, n)) && Below(OrderOf(g), file, t, OrderOf(g).top + 1)
  {
    hide Weight;
    ScaleGrows(g.bound, Weight(g.Ranks(), file, t), g.bound);
  }

  lemma {:induction false} DefaultsFit(g: Ranking, file: string, defaults: seq<Default>, depth: nat, n: nat)
    requires forall i :: 0 <= i < |defaults| ==> Fits(g, file, defaults[i].t, n)
    ensures forall i :: 0 <= i < |DefaultsAt(defaults, depth)| ==> Fits(g, file, DefaultsAt(defaults, depth)[i], n)
  {
    hide Fits;
    if defaults != [] {
      DefaultsFit(g, file, defaults[1..], depth, n);
    }
  }

  lemma StepIsLow(p: Program, ops: Ops, g: Ranking, file: string, name: string, j: nat)
    requires Ranked(p, g) && (file, name) in p.locals && p.locals[(file, name)].Const?
    requires j < |p.locals[(file, name)].bound.access|
    ensures var bound := p.locals[(file, name)].bound;
      var ways := seq(|bound.access| + 1, i => Reach(g, g.rank(M.Named(file, name))));
      StepLow(ops, OrderOf(g), file, bound, ways, j)
  {
    hide Fits, LookLow, Listed, Below, DefaultsAt;
    var bound, n, o := p.locals[(file, name)].bound, g.rank(M.Named(file, name)), OrderOf(g);
    assert LocalRanked(p, g, file, name);
    if bound.access[j].Dynamic? {
      FitsListed(g, file, bound.access[j].at, n);
    }
    forall v, key | FlowsInto(Reach(g, n), v) ensures CrossKeyLow(ops, o, v, key, Reach(g, n)) {
      ScaleGrows(g.bound, n, g.bound);
      LooksLower(ops, g, v, key, n, n, o.top + 1);
    }
    DefaultsFit(g, file, bound.defaults, j + 1, n);
    var fallbacks := DefaultsAt(bound.defaults, j + 1);
    forall i | 0 <= i < |fallbacks|
      ensures Listed(o, At(file, fallbacks[i]), Reach(g, n)) && Below(o, file, fallbacks[i], o.top + 1)
    {
      FitsListed(g, file, fallbacks[i], n);
    }
  }

  lemma ConstIsLow(p: Program, ops: Ops, g: Ranking, file: string, name: string)
    requires Ranked(p, g) && (file, name) in p.locals && p.locals[(file, name)].Const?
    ensures KeyLow(p, ops, OrderOf(g), M.Named(file, name))
  {
    hide Fits, StepLow, Listed, Below, Reach;
    var local, k := p.locals[(file, name)], M.Named(file, name);
    var ways := seq(|local.bound.access| + 1, i => Reach(g, g.rank(k)));
    assert LocalRanked(p, g, file, name);
    FitsListed(g, file, local.init, g.rank(k));
    forall j | 0 <= j < |local.bound.access| ensures StepLow(ops, OrderOf(g), file, local.bound, ways, j) {
      StepIsLow(p, ops, g, file, name, j);
    }
    assert PathLow(ops, OrderOf(g), file, local.init, local.bound, ways);
  }

  lemma KeyIsLow(p: Program, ops: Ops, g: Ranking, k: Key)
    requires Ranked(p, g)
    ensures KeyLow(p, ops, OrderOf(g), k)
  {
    hide Fits, Below, Listed, PathLow, M.Onward;
    var n := g.rank(k);
    match k {
      case Named(file, name) =>
        if (file, name) in p.locals {
          assert LocalRanked(p, g, file, name);
          match p.locals[(file, name)] {
            case Const(_, _, _) => ConstIsLow(p, ops, g, file, name);
            case Import(source, exported) =>
              if source.Some? {
                NamesListed(g, M.Exported(source.value, exported), n);
              }
            case _ =>
          }
        }
      case Exported(file, name) =>
        if (file, name) in p.exports {
          assert ExportRanked(p, g, file, name);
          match p.exports[(file, name)] {
            case FromFile(source, exported) =>
              if source.Some? {
                NamesListed(g, M.Onward(file, source.value, exported), n);
              }
            case Standard(t) => FitsListed(g, file, t, n);
          }
        } else if file in p.stars {
          forall target | target in p.stars[file]
            ensures Listed(OrderOf(g), Def(M.Exported(target, name)), Reach(g, n))
          {
            assert StarsRanked(p, g, file, target);
            NamesListed(g, M.Exported(target, name), n);
          }
        }
    }
  }

  lemma RankedIsOrdered(p: Program, ops: Ops, g: Ranking)
    requires Ranked(p, g)
    ensures Ordered(p, ops, OrderOf(g)) && forall k :: Def(k) in OrderOf(g).items
  {
    hide KeyLow, TermLow, Fits, Ranked, Scale;
    var o := OrderOf(g);
    forall item | item in o.items ensures Low(p, ops, o, item) {
      match item {
        case Def(k) => KeyIsLow(p, ops, g, k);
        case At(file, t) => TermIsLow(ops, g, file, t);
        case In(_, _) =>
      }
    }
  }

  /** Fuel for every key of a program with this ranking. */
  function FuelFor(p: Program, g: Ranking): nat {
    Level(|p.stars|, Scale(g.bound, g.bound) + g.bound, |Keys(p)|) + |p.stars| + 1
  }

  /**
   * For every program with a ranking, members and patterns included, there is fuel that is enough for each of its
   * keys.
   */
  lemma EnoughFuel(p: Program, ops: Ops, g: Ranking, k: Key)
    requires Ranked(p, g)
    ensures forall fuel: nat :: fuel >= FuelFor(p, g) ==> KeyFuel(p, ops, {}, k, fuel)
  {
    hide Ranked, Ordered, Keys, Level, Scale, KeyFuel;
    RankedIsOrdered(p, ops, g);
    OrderedFuel(p, ops, OrderOf(g), k);
  }
}
