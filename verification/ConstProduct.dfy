/** A program with a computed const, and why the evaluator must compute it. */
module ConstProduct {
  import opened Options
  import opened ConstTerms
  import opened ConstPromise
  import opened ConstLoops
  import opened ConstComplete
  import M = ModuleState

  const LENGTH := Ref("MINUTE_MS", 0)
  const PRODUCT := Binary(Token("*"), Lit(M.Num(30)), LENGTH)

  /** const MINUTE_MS = 60_000, DEDUPE_MS = 30 * MINUTE_MS */
  const PRODUCTS := Program(
    map[
      ("m", "MINUTE_MS") := Const(Bind("MINUTE_MS"), Lit(M.Num(60_000)), Bound("MINUTE_MS", [], [])),
      ("m", "DEDUPE_MS") := Const(Bind("DEDUPE_MS"), PRODUCT, Bound("DEDUPE_MS", [], []))],
    map[], map[])

  function ProductRun(ops: Ops, host: Host): Run {
    Run(PRODUCTS, ops, host, (now: Term, k: Key) =>
      if k == M.Named("m", "DEDUPE_MS") then P(M.Num(1_800_000)) else P(M.Num(60_000)))
  }

  ghost function ProductPart(ops: Ops, host: Host): Part {
    Part(ProductRun(ops, host),
      iset{Def(M.Named("m", "DEDUPE_MS")), At("m", PRODUCT), At("m", LENGTH), At("m", Lit(M.Num(30))),
           Def(M.Named("m", "MINUTE_MS")), At("m", Lit(M.Num(60_000)))},
      (item: ConstPromise.Item) =>
        if item == Def(M.Named("m", "DEDUPE_MS")) then 4
        else if item == At("m", PRODUCT) then 3
        else if item == At("m", LENGTH) then 2
        else if item == Def(M.Named("m", "MINUTE_MS")) then 1
        else 0)
  }

  lemma ProductValues(ops: Ops, host: Host)
    requires ops.binary("*", M.Num(30), M.Num(60_000)) == Some(M.Num(1_800_000))
    ensures
      var run := ProductRun(ops, host);
      && PrimOf(run, At("m", LENGTH)) == Some(M.Num(60_000)) && PrimOf(run, At("m", PRODUCT)) == Some(M.Num(1_800_000))
      && PrimOf(run, Def(M.Named("m", "MINUTE_MS"))) == Some(M.Num(60_000))
      && PrimOf(run, Def(M.Named("m", "DEDUPE_MS"))) == Some(M.Num(1_800_000))
      && PrimOf(run, At("m", Lit(M.Num(30)))).Some? && PrimOf(run, At("m", Lit(M.Num(60_000)))).Some?
  {
    var run := ProductRun(ops, host);
    assert Eval(run, "m", LENGTH) == Some(P(M.Num(60_000)));
    assert Eval(run, "m", PRODUCT) == Some(P(M.Num(1_800_000)));
  }

  /** None of the items names a literal. */
  lemma NoLiterals(ops: Ops, host: Host)
    ensures forall item :: item in ProductPart(ops, host).items ==> LiteralOf(ProductRun(ops, host), item).None?
  {
    assert PRODUCTS.locals[("m", "DEDUPE_MS")].init == PRODUCT;
    assert PRODUCTS.locals[("m", "MINUTE_MS")].init == Lit(M.Num(60_000));
    assert LiteralConst(PRODUCTS, "m", "MINUTE_MS").None?;
  }

  lemma ProductTerms(ops: Ops, host: Host)
    requires ops.binary("*", M.Num(30), M.Num(60_000)) == Some(M.Num(1_800_000))
    ensures forall t :: At("m", t) in ProductPart(ops, host).items ==> TermComputes(ProductPart(ops, host), "m", t)
  {
    hide PrimOf, LiteralOf;
    NoLiterals(ops, host);
    ProductValues(ops, host);
  }

  lemma ProductKeys(ops: Ops, host: Host)
    requires ops.binary("*", M.Num(30), M.Num(60_000)) == Some(M.Num(1_800_000))
    ensures KeyComputes(ProductPart(ops, host), M.Named("m", "DEDUPE_MS"))
    ensures KeyComputes(ProductPart(ops, host), M.Named("m", "MINUTE_MS"))
  {
    var run := ProductRun(ops, host);
    assert PRODUCTS.locals[("m", "DEDUPE_MS")].init == PRODUCT;
    assert PRODUCTS.locals[("m", "MINUTE_MS")].init == Lit(M.Num(60_000));
    assert Eval(run, "m", LENGTH) == Some(P(M.Num(60_000)));
    assert Eval(run, "m", PRODUCT) == Some(P(M.Num(1_800_000)));
    hide LiteralOf, Eval;
    NoLiterals(ops, host);
    ProductValues(ops, host);
  }

  lemma ProductComputes(ops: Ops, host: Host)
    requires ops.binary("*", M.Num(30), M.Num(60_000)) == Some(M.Num(1_800_000))
    ensures Folds(PRODUCTS, ops, ProductPart(ops, host), M.Named("m", "DEDUPE_MS"))
    ensures Holds(ProductRun(ops, host), M.Named("m", "DEDUPE_MS"), P(M.Num(1_800_000)))
    ensures ProductPart(ops, host).rank(Def(M.Named("m", "DEDUPE_MS"))) == 4
  {
    NoLiterals(ops, host);
    ProductTerms(ops, host);
    ProductKeys(ops, host);
    hide LiteralOf, TermComputes, KeyComputes, PrimOf;
    var part := ProductPart(ops, host);
    forall item | item in part.items ensures ItemComputes(part, item) {
    }
  }
}
