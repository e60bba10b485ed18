/** Programs and runs of them: what the promise covers, and what the evaluator answers where it gives none. */
module ConstExample {
  import opened Options
  import opened Naturals
  import opened ConstTerms
  import opened ConstFolding
  import opened ConstPromise
  import opened ConstSound
  import opened ConstLoops
  import opened ConstValues
  import opened ConstTables
  import opened ConstWorth
  import opened ConstComplete
  import opened ConstProduct
  import M = ModuleState

  // ---------- a run the promise is made for ----------

  const INNER := ObjectPattern([Element(Fixed("b"), Bind("b"), Some(Lit(M.Num(2))))])
  const OUTER := ObjectPattern([Element(Fixed("a"), INNER, None)])
  const INIT := Immutable(Object(0, [Named("a", Object(1, []))]))
  const BOUND := Bound("b", [Static("a"), Static("b")], [Default(2, Lit(M.Num(2)))])

  /**
   * const { a: { b = 2 } } = Object.freeze({ a: {} }), next to const cache = {}, which the program writes to,
   * const all = { ...base }, and two consts that read a variable between its changes.
   */
  function Locals(): map<(string, string), Local> {
    map[
      ("m", "b") := Const(OUTER, INIT, BOUND),
      ("m", "cache") := Const(Bind("cache"), Object(2, []), Bound("cache", [], [])),
      ("m", "all") := Const(Bind("all"), Object(3, [Spread(Ref("base", 4))]), Bound("all", [], [])),
      ("m", "n") := Mutable,
      ("m", "before") := Const(Bind("before"), Ref("n", 5), Bound("before", [], [])),
      ("m", "after") := Const(Bind("after"), Ref("n", 6), Bound("after", [], []))]
  }

  const PROGRAM := Program(Locals(), map[], map[])

  /** What the value of b depends on. */
  ghost function Support(): iset<Item> {
    iset{Def(M.Named("m", "b")), At("m", INIT), In("m", INIT.t), In("m", Object(1, [])), At("m", Lit(M.Num(2)))}
  }

  /** Whatever else happens, b holds 2; the variable holds different things. */
  function ExampleRun(ops: Ops, host: Host): Run {
    Run(PROGRAM, ops, host, (now: Term, k: Key) =>
      if k == M.Named("m", "b") then P(M.Num(2))
      else if k == M.Named("m", "n") || k == M.Named("m", "before") || k == M.Named("m", "after") then
        P(M.Num(if now == Ref("n", 5) || k == M.Named("m", "before") then 0 else 1))
      else UNDEFINED)
  }

  lemma NamesInExample()
    ensures NamesOf(OUTER, [], []) == [BOUND]
  {
    var first := Static("a");
    var none: seq<Default> := [];
    var e, fill := INNER.elements[0], [Default(2, Lit(M.Num(2)))];
    assert AccessOf(INNER, 0) == Static("b") && [first] + [Static("b")] == [first, Static("b")];
    assert DefaultOf(e, 2) == fill && none + fill == fill;
    assert NamesOf(e.sub, [first, Static("b")], fill) == [BOUND];
    assert NamesFrom(INNER, 1, [first], none) == [];
    assert NamesFrom(INNER, 0, [first], none) ==
      NamesOf(e.sub, [first] + [AccessOf(INNER, 0)], none + DefaultOf(e, 2)) + [];
    assert AccessOf(OUTER, 0) == first && [] + [first] == [first];
    assert DefaultOf(OUTER.elements[0], 1) == none && none + none == none;
    assert NamesFrom(OUTER, 1, [], none) == [];
    assert NamesFrom(OUTER, 0, [], none) ==
      NamesOf(INNER, [] + [AccessOf(OUTER, 0)], none + DefaultOf(OUTER.elements[0], 1)) + [];
  }

  function Empty(): Datum { Obj(map[], Common, Some(Made("m", Object(1, [])))) }

  function Frozen(): Datum { Obj(map["a" := Data(Empty())], Common, Some(Made("m", INIT.t))) }

  lemma InitInExample(run: Run)
    requires !run.host.written(1)
    ensures Eval(run, "m", INIT) == Some(Frozen())
  {
    var inner, outer := Object(1, []), INIT.t;
    assert PartsOf(run, "m", inner, 0) == Some(Parts(map[], Common));
    assert PartsOf(run, "m", outer, 0) == Some(Parts(map[], Common));
    assert PartsOf(run, "m", outer, 1) == Some(Parts(map["a" := Data(Empty())], Common));
  }

  lemma NotInherited(key: string)
    requires |key| < 6
    ensures !IsInherited(key)
  {
  }

  lemma TakenInExample(run: Run)
    ensures Taken(run, "m", INIT, OUTER, 0, Frozen()) == Some(Empty())
    ensures Pick(run, "m", INIT, INNER, 0, Empty()) == Some(UNDEFINED)
    ensures Taken(run, "m", INIT, INNER, 0, Empty()) == Some(P(M.Num(2)))
  {
    hide IsInherited;
    NotInherited("b");
    assert Get(run, INIT, Empty(), "b") == Some(UNDEFINED);
  }

  lemma BindsInExample(run: Run)
    requires Holds(run, M.Named("m", "b"), P(M.Num(2)))
    ensures Binds(run, "m", INIT, OUTER, Frozen())
  {
    hide Taken, Holds, Empty, Frozen;
    TakenInExample(run);
    assert Binds(run, "m", INIT, Bind("b"), P(M.Num(2)));
    assert Binds(run, "m", INIT, INNER, Empty());
  }

  /** Both keys are settled: the literals have plain properties only, and neither key is inherited. */
  lemma SettledInExample(run: Run)
    ensures Settled(run, Support(), Frozen(), "a") && Settled(run, Support(), Empty(), "b")
  {
    hide IsInherited;
    NotInherited("b");
    var outer, inner := INIT.t, Object(1, []);
    assert SlotsOf(outer.props) == [Plain("a")] && SlotsOf(inner.props) == [];
    assert LastSetter([Plain("a")], "a", 1) == Some(0) && FirstSlot([Plain("a")], "a") == Some(0);
    assert Decided(SlotsOf(outer.props), "a") && Decided(SlotsOf(inner.props), "b");
    assert Find(run.ops, outer, "a") == Value(inner) && Find(run.ops, inner, "b") == Absent;
  }

  lemma PathInExample(run: Run)
    ensures PathKept(run, Support(), "m", INIT, OUTER, [], [], Frozen(), BOUND)
  {
    hide Taken, Settled, Leads, Empty, Frozen, AccessOf, DefaultOf, Pick;
    TakenInExample(run);
    SettledInExample(run);
    forall access, defaults
      ensures ElementKept(run, Support(), "m", INIT, INNER, 0, access, defaults, Empty(), BOUND)
    {
      assert PathKept(run, Support(), "m", INIT, Bind("b"), access + [AccessOf(INNER, 0)],
                      defaults + DefaultOf(INNER.elements[0], |access| + 1), P(M.Num(2)), BOUND);
    }
    forall access, defaults
      ensures ElementKept(run, Support(), "m", INIT, OUTER, 0, access, defaults, Frozen(), BOUND)
    {
      assert PathKept(run, Support(), "m", INIT, INNER, access + [AccessOf(OUTER, 0)],
                      defaults + DefaultOf(OUTER.elements[0], |access| + 1), Empty(), BOUND);
    }
  }

  lemma KeyInExample(run: Run)
    requires run.p == PROGRAM && Holds(run, M.Named("m", "b"), P(M.Num(2))) && !run.host.written(1)
    ensures KeyKept(run, Support(), M.Named("m", "b"))
  {
    hide Binds, PathKept, Holds, Frozen, Eval, NamesOf;
    NamesInExample();
    InitInExample(run);
    BindsInExample(run);
    PathInExample(run);
  }

  /**
   * The run is one the promise about b speaks of, provided nothing is written to the inner literal; it may write to
   * every other, and the variable changes.
   */
  lemma ExampleIsReal(ops: Ops, host: Host)
    requires !host.written(1)
    ensures Of(ExampleRun(ops, host), Support(), PROGRAM, ops) && Def(M.Named("m", "b")) in Support()
    ensures Holds(ExampleRun(ops, host), M.Named("m", "b"), P(M.Num(2)))
  {
    hide KeyKept, OUTER, INNER, BOUND, Find;
    var run := ExampleRun(ops, host);
    KeyInExample(run);
    forall item | item in Support() ensures Kept(run, Support(), item) {
    }
    forall file, t, key | In(file, t) in Support() ensures InnerUnwritten(run, Support(), file, Find(run.ops, t, key)) {
      OnlyInner(run, t, key);
    }
  }

  /** The only literal in a literal of the example is the inner one. */
  lemma OnlyInner(run: Run, t: Term, key: string)
    requires t == INIT.t || t == Object(1, [])
    ensures var found := Find(run.ops, t, key); found.Value? && IsLiteral(found.t) ==> found.t.id == 1
  {
    if t == INIT.t {
      assert t.props[1..] == [];
    }
  }

  // ---------- a definition that is computed ----------

  /** The evaluator multiplies, whatever it was asked before. */
  method Product(ops: Ops, host: Host, queries: seq<(string, string)>) returns (answers: seq<Verdict>)
    requires ops.binary("*", M.Num(30), M.Num(60_000)) == Some(M.Num(1_800_000))
    ensures forall i :: 0 <= i < |answers| && i < |queries| && queries[i] == ("m", "DEDUPE_MS") ==>
      answers[i] == Verdict.Prim(M.Num(1_800_000))
    ensures queries == [("m", "DEDUPE_MS")] ==> answers == [Verdict.Prim(M.Num(1_800_000))]
  {
    ProductComputes(ops, host);
    FoldsAsComputed(PRODUCTS, ops, ProductPart(ops, host), M.Named("m", "DEDUPE_MS"));
    hide Folds, Fits, Holds, WorthOf, ProductPart;
    var e := new Evaluator(PRODUCTS, ops);
    answers := e.AnswerAll(queries, 9);
  }

  // ---------- wrong primitives outside the promise ----------

  /** { a: 1, a: 2 } */
  const TWICE := Object(0, [Named("a", Lit(M.Num(1))), Named("a", Lit(M.Num(2)))])

  /** { __proto__: { x: 1 } } */
  const DESCENDANT := Object(0, [Named(PROTO, Object(1, [Named("x", Lit(M.Num(1)))]))])

  /** [0, 1] */
  const PAIR := Array(0, [Item(Lit(M.Num(0))), Item(Lit(M.Num(1)))])

  /** { a: { b: 1 } }, of which only the outer object is frozen. */
  const NESTED := Object(0, [Named("a", Object(1, [Named("b", Lit(M.Num(1)))]))])

  /** The evaluator answers the first of two fields of a name; the object has the second. */
  method FirstOfTwo(e: Evaluator) returns (r: Option<Verdict>)
    requires e.Valid()
    modifies e
    ensures e.Valid() && r == Some(Verdict.Prim(M.Num(1)))
    ensures forall run :: Eval(run, "m", Member(Immutable(TWICE), "a")) == Some(P(M.Num(2)))
  {
    var owner := e.Expression("m", Immutable(TWICE), 1);
    r := e.Member(owner.value, "a", 1);
    forall run ensures Eval(run, "m", Member(Immutable(TWICE), "a")) == Some(P(M.Num(2))) {
      SecondField(run);
    }
  }

  lemma SecondField(run: Run)
    ensures Eval(run, "m", Member(Immutable(TWICE), "a")) == Some(P(M.Num(2)))
  {
    assert PartsOf(run, "m", TWICE, 0) == Some(Parts(map[], Common));
    assert PartsOf(run, "m", TWICE, 1) == Some(Parts(map["a" := Data(P(M.Num(1)))], Common));
    assert map["a" := Data(P(M.Num(1)))]["a" := Data(P(M.Num(2)))] == map["a" := Data(P(M.Num(2)))];
    assert PartsOf(run, "m", TWICE, 2) == Some(Parts(map["a" := Data(P(M.Num(2)))], Common));
  }

  /** The evaluator answers undefined for a key of the chosen prototype; the program gets its value. */
  method FromPrototype(e: Evaluator) returns (r: Option<Verdict>)
    requires e.Valid()
    modifies e
    ensures e.Valid() && r == Some(Verdict.Prim(M.Undefined))
    ensures forall run: Run :: !run.host.written(1) ==>
      Eval(run, "m", Member(Immutable(DESCENDANT), "x")) == Some(P(M.Num(1)))
  {
    NothingNamedX();
    var owner := e.Expression("m", Immutable(DESCENDANT), 1);
    r := e.Member(owner.value, "x", 1);
    forall run: Run | !run.host.written(1)
      ensures Eval(run, "m", Member(Immutable(DESCENDANT), "x")) == Some(P(M.Num(1)))
    {
      InheritedField(run);
    }
  }

  lemma NothingNamedX()
    ensures forall ops :: Find(ops, DESCENDANT, "x") == Absent
  {
    var props := DESCENDANT.props;
    assert props[1..] == [] && FirstNamed(props[1..], "x") == None;
    assert |PROTO| != |"x"| && NameOf(props[0]) == Some(PROTO);
    assert FirstNamed(props, "x") == None && !Uncertain(props);
  }

  lemma InheritedField(run: Run)
    requires !run.host.written(1)
    ensures Eval(run, "m", Member(Immutable(DESCENDANT), "x")) == Some(P(M.Num(1)))
  {
    var inner := Object(1, [Named("x", Lit(M.Num(1)))]);
    var up := Obj(map["x" := Data(P(M.Num(1)))], Common, Some(Made("m", inner)));
    assert PartsOf(run, "m", inner, 0) == Some(Parts(map[], Common));
    assert PartsOf(run, "m", inner, 1) == Some(Parts(map["x" := Data(P(M.Num(1)))], Common));
    assert PartsOf(run, "m", DESCENDANT, 0) == Some(Parts(map[], Common));
    assert Eval(run, "m", inner) == Some(up);
    assert PartsOf(run, "m", DESCENDANT, 1) == Some(Parts(map[], Chosen(up)));
    var now, made := Member(Immutable(DESCENDANT), "x"), Some(Made("m", DESCENDANT));
    assert |PROTO| != |"x"| && Get(run, now, up, "x") == Some(P(M.Num(1)));
    assert Get(run, now, Obj(map[], Chosen(up), made), "x") == Some(P(M.Num(1)));
    assert Eval(run, "m", Immutable(DESCENDANT)) == Some(Obj(map[], Chosen(up), made));
  }

  /** The evaluator reads "01" as position 1; the array has no such key. */
  method LeadingZero(e: Evaluator) returns (r: Option<Verdict>)
    requires e.Valid()
    modifies e
    ensures e.Valid() && r == Some(Verdict.Prim(M.Num(1)))
    ensures forall run :: Eval(run, "m", Member(Immutable(PAIR), "01")) == Some(UNDEFINED)
  {
    ReadAsOne();
    var owner := e.Expression("m", Immutable(PAIR), 1);
    r := e.Member(owner.value, "01", 1);
    forall run ensures Eval(run, "m", Member(Immutable(PAIR), "01")) == Some(UNDEFINED) {
      NoSuchKey(run);
    }
  }

  lemma ReadAsOne()
    ensures AllDigits("01") && Naturals.Value("01") == 1 && Decimal(1) == "1"
    ensures forall ops :: Find(ops, PAIR, "01") == Value(Lit(M.Num(1)))
  {
    var key := "01";
    assert key[..1] == "0" && key[..1][..0] == "";
    assert Naturals.Value("0") == 0;
    assert !HasMore(PAIR.elems);
  }

  lemma NoSuchKey(run: Run)
    ensures Eval(run, "m", Member(Immutable(PAIR), "01")) == Some(UNDEFINED)
  {
    ReadAsOne();
    var zero, one := P(M.Num(0)), P(M.Num(1));
    assert ItemsOf(run, "m", PAIR, 0) == Some([]) && [] + [zero] == [zero];
    assert ItemsOf(run, "m", PAIR, 1) == Some([zero]) && [zero] + [one] == [zero, one];
    assert ItemsOf(run, "m", PAIR, 2) == Some([zero, one]);
  }

  /**
   * The evaluator answers what an inner literal said at first, in every program, although the freeze does not reach
   * it.
   */
  method BehindAWrite(e: Evaluator) returns (r: Option<Verdict>)
    requires e.Valid()
    modifies e
    ensures e.Valid() && r == Some(Verdict.Prim(M.Num(1)))
    ensures forall run: Run ::
      run.host.written(1) && run.host.value(1) == Some(Obj(map["b" := Data(P(M.Num(2)))], Common, None)) ==>
      Eval(run, "m", Member(Member(Immutable(NESTED), "a"), "b")) == Some(P(M.Num(2)))
  {
    var outer := e.Expression("m", Immutable(NESTED), 1);
    var inner := e.Member(outer.value, "a", 1);
    r := e.Member(inner.value, "b", 1);
    forall run: Run | run.host.written(1) && run.host.value(1) == Some(Obj(map["b" := Data(P(M.Num(2)))], Common, None))
      ensures Eval(run, "m", Member(Member(Immutable(NESTED), "a"), "b")) == Some(P(M.Num(2)))
    {
      WrittenField(run);
    }
  }

  lemma WrittenField(run: Run)
    requires run.host.written(1) && run.host.value(1) == Some(Obj(map["b" := Data(P(M.Num(2)))], Common, None))
    ensures Eval(run, "m", Member(Member(Immutable(NESTED), "a"), "b")) == Some(P(M.Num(2)))
  {
    var inner := Obj(map["b" := Data(P(M.Num(2)))], Common, None);
    assert PartsOf(run, "m", NESTED, 0) == Some(Parts(map[], Common));
    assert PartsOf(run, "m", NESTED, 1) == Some(Parts(map["a" := Data(inner)], Common));
    assert Eval(run, "m", Member(Immutable(NESTED), "a")) == Some(inner);
  }

  // ---------- no answer at all ----------

  /** { x: a.x } */
  const RING := Object(0, [Named("x", Member(Ref("a", 1), "x"))])

  /** const a = Object.freeze({ x: a.x }), y = a.x */
  const SELF := Program(
    map[
      ("m", "a") := Const(Bind("a"), Immutable(RING), Bound("a", [], [])),
      ("m", "y") := Const(Bind("y"), Member(Ref("a", 2), "x"), Bound("y", [], []))],
    map[], map[])

  lemma RingFound(ops: Ops)
    ensures Find(ops, RING, "x") == Value(Member(Ref("a", 1), "x"))
  {
    assert NameOf(RING.props[0]) == Some("x") && FirstNamed(RING.props, "x") == Some(0);
  }

  /** Each lookup leads to the same lookup again. */
  lemma {:induction false} RingNeverUnfolds(ops: Ops, id: nat, n: nat)
    ensures !Unfolds(SELF, ops, {M.Named("m", "y")}, "m", Member(Ref("a", id), "x"), n)
    decreases n
  {
    hide Find;
    RingFound(ops);
    assert Next(SELF, ops, {M.Named("m", "y")}, "m", Ref("a", id), "x") == Some(Member(Ref("a", 1), "x"));
    if n > 0 {
      RingNeverUnfolds(ops, 1, n - 1);
    }
  }

  lemma SelfIsTabular(ops: Ops)
    ensures Tabular(SELF, ops, "m", "y", Member(Ref("a", 2), "x"))
  {
    var visiting := {M.Named("m", "y")};
    assert Source(SELF, ops, visiting, "m", Ref("a", 1)) == Some(RING);
    assert Direct(SELF, ops, visiting, "m", Member(Ref("a", 1), "x"));
    assert Direct(SELF, ops, visiting, "m", RING);
  }

  /** For a frozen literal that refers to itself the evaluator has no answer, however much fuel it gets. */
  method SelfReading(ops: Ops, fuel: nat) returns (r: Option<Verdict>)
    ensures r.None?
  {
    hide Tabular, Ends;
    SelfIsTabular(ops);
    SelfNeverEnds(ops);
    r := Ask(SELF, ops, "m", "y", Member(Ref("a", 2), "x"), fuel);
  }

  lemma SelfNeverEnds(ops: Ops)
    ensures !Ends(SELF, ops, {M.Named("m", "y")}, "m", Member(Ref("a", 2), "x"))
  {
    hide Unfolds;
    forall n: nat ensures !Unfolds(SELF, ops, {M.Named("m", "y")}, "m", Member(Ref("a", 2), "x"), n) {
      RingNeverUnfolds(ops, 2, n);
    }
  }
}
