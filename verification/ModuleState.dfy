/** The evaluator behind the module-state check: const bindings folded with a cache and a guard against cycles. */
module ModuleState {
  import opened Options

  datatype Prim = Undefined | Null | Bool(b: bool) | Num(n: int) | NotANumber | Infinite | Text(s: string)

  /** State is the refusal: the binding has to be registered. */
  datatype Value = Primitive(p: Prim) | Safe | State

  /** The operators of the host language; None where they throw or where the evaluator has no case for them. */
  datatype Ops<!U, !B> = Ops(unary: (U, Prim) -> Option<Prim>, binary: (B, Prim, Prim) -> Option<Prim>,
                             text: Prim -> string, truthy: Prim -> bool)

  datatype Span<U, B> = Span(e: Expr<U, B>, text: string)

  /** Expressions without member access. Frozen is an immutable object, array or regular expression literal. */
  datatype Expr<U, B> =
    | Literal(p: Prim)
    | Function
    | Frozen
    | AsConst(e: Expr<U, B>)
    | Ref(name: string)
    | Template(head: string, spans: seq<Span<U, B>>)
    | Cond(condition: Expr<U, B>, yes: Expr<U, B>, no: Expr<U, B>)
    | Unary(uop: U, operand: Expr<U, B>)
    | Binary(bop: B, left: Expr<U, B>, right: Expr<U, B>)
    | Other

  /** What a file knows of a name: a const, an import, a function or class, or something mutable. */
  datatype Local<U, B> = Const(init: Expr<U, B>) | Import(source: Option<string>, exported: string) | Declared | Mutable

  datatype Export<U, B> = FromFile(source: Option<string>, exported: string) | Default(e: Expr<U, B>)

  datatype Key = Named(file: string, name: string) | Exported(file: string, name: string)

  datatype Program<U, B> =
    Program(locals: map<(string, string), Local<U, B>>, exports: map<(string, string), Export<U, B>>)

  const BUILTINS := [
    "Object", "Array", "Date", "RegExp", "Map", "Set", "WeakMap", "WeakSet", "Promise", "Error", "Number", "String",
    "Boolean", "BigInt", "Symbol", "Math", "JSON", "Reflect"]

  /** A name the file does not define. */
  function Global(name: string): Value {
    if name == "undefined" then Primitive(Undefined)
    else if name == "NaN" then Primitive(NotANumber)
    else if name == "Infinity" then Primitive(Infinite)
    else if name in BUILTINS then Safe
    else State
  }

  // ---------- combining values ----------

  function Folded(r: Option<Prim>): Value {
    if r.Some? then Primitive(r.value) else State
  }

  function Choose<U, B>(ops: Ops<U, B>, condition: Value, yes: Value, no: Value): Value {
    if condition.Primitive? && yes.Primitive? && no.Primitive?
    then (if ops.truthy(condition.p) then yes else no)
    else State
  }

  function Apply1<U, B>(ops: Ops<U, B>, op: U, v: Value): Value {
    if v.Primitive? then Folded(ops.unary(op, v.p)) else State
  }

  function Apply2<U, B>(ops: Ops<U, B>, op: B, l: Value, r: Value): Value {
    if l.Primitive? && r.Primitive? then Folded(ops.binary(op, l.p, r.p)) else State
  }

  /** One more span of a template whose text so far is known. */
  function Extend<U, B>(ops: Ops<U, B>, sofar: Value, v: Value, text: string): Value {
    if sofar.Primitive? && sofar.p.Text? && v.Primitive? then Primitive(Text(sofar.p.s + ops.text(v.p) + text))
    else State
  }

  function OnlyPrimitive(v: Value): Value { if v.Primitive? then v else State }

  // ---------- meaning ----------

  /** The value derived for a key with derivations nested at most n deep; State when there is none. */
  function Val<U, B>(p: Program<U, B>, ops: Ops<U, B>, k: Key, n: nat): Value
    decreases n, 0
  {
    if n == 0 then State
    else match k
      case Named(file, name) =>
        if (file, name) !in p.locals then Global(name)
        else (match p.locals[(file, name)]
          case Const(init) => ExprVal(p, ops, file, init, n - 1)
          case Import(source, exported) =>
            if source.None? then Safe else Val(p, ops, Exported(source.value, exported), n - 1)
          case Declared => Safe
          case Mutable => State)
      case Exported(file, name) =>
        if (file, name) !in p.exports then State
        else (match p.exports[(file, name)]
          case FromFile(source, exported) =>
            if source.None? then Safe else Val(p, ops, Onward(file, source.value, exported), n - 1)
          case Default(e) => ExprVal(p, ops, file, e, n - 1))
  }

  /** A re-export from the file itself is one of its names. */
  function Onward(file: string, source: string, exported: string): Key {
    if source == file then Named(file, exported) else Exported(source, exported)
  }

  function ExprVal<U, B>(p: Program<U, B>, ops: Ops<U, B>, file: string, e: Expr<U, B>, n: nat): Value
    decreases n, 1, e, 1, 0
  {
    match e
    case Literal(v) => Primitive(v)
    case Function => Safe
    case Frozen => Safe
    case AsConst(inner) => OnlyPrimitive(ExprVal(p, ops, file, inner, n))
    case Ref(name) => Val(p, ops, Named(file, name), n)
    case Template(head, spans) => SpansVal(p, ops, file, e, |spans|, n)
    case Cond(c, y, no) =>
      Choose(ops, ExprVal(p, ops, file, c, n), ExprVal(p, ops, file, y, n), ExprVal(p, ops, file, no, n))
    case Unary(op, operand) => Apply1(ops, op, ExprVal(p, ops, file, operand, n))
    case Binary(op, l, r) => Apply2(ops, op, ExprVal(p, ops, file, l, n), ExprVal(p, ops, file, r, n))
    case Other => State
  }

  /** The text of a template up to its first k spans. */
  function SpansVal<U, B>(p: Program<U, B>, ops: Ops<U, B>, file: string, e: Expr<U, B>, k: nat, n: nat): Value
    requires e.Template? && k <= |e.spans|
    decreases n, 1, e, 0, k
  {
    if k == 0 then Primitive(Text(e.head))
    else
      Extend(ops, SpansVal(p, ops, file, e, k - 1, n), ExprVal(p, ops, file, e.spans[k - 1].e, n), e.spans[k - 1].text)
  }

  // ---------- a value has one derivation, at every sufficient depth ----------

  lemma {:induction false} ValStays<U, B>(p: Program<U, B>, ops: Ops<U, B>, k: Key, n: nat, m: nat)
    requires n <= m && Val(p, ops, k, n) != State
    ensures Val(p, ops, k, m) == Val(p, ops, k, n)
    decreases n, 0
  {
    match k
    case Named(file, name) =>
      if (file, name) in p.locals {
        match p.locals[(file, name)]
        case Const(init) => ExprValStays(p, ops, file, init, n - 1, m - 1);
        case Import(source, exported) =>
          if source.Some? {
            ValStays(p, ops, Exported(source.value, exported), n - 1, m - 1);
          }
        case _ =>
      }
    case Exported(file, name) =>
      if (file, name) in p.exports {
        match p.exports[(file, name)]
        case FromFile(source, exported) =>
          if source.Some? {
            ValStays(p, ops, Onward(file, source.value, exported), n - 1, m - 1);
          }
        case Default(e) => ExprValStays(p, ops, file, e, n - 1, m - 1);
      }
  }

  lemma {:induction false} ExprValStays<U, B>(p: Program<U, B>, ops: Ops<U, B>, file: string, e: Expr<U, B>, n: nat,
                                              m: nat)
    requires n <= m && ExprVal(p, ops, file, e, n) != State
    ensures ExprVal(p, ops, file, e, m) == ExprVal(p, ops, file, e, n)
    decreases n, 1, e, 1, 0
  {
    match e
    case AsConst(inner) => ExprValStays(p, ops, file, inner, n, m);
    case Ref(name) => ValStays(p, ops, Named(file, name), n, m);
    case Template(head, spans) => SpansValStays(p, ops, file, e, |spans|, n, m);
    case Cond(c, y, no) =>
      ExprValStays(p, ops, file, c, n, m);
      ExprValStays(p, ops, file, y, n, m);
      ExprValStays(p, ops, file, no, n, m);
    case Unary(op, operand) => ExprValStays(p, ops, file, operand, n, m);
    case Binary(op, l, r) =>
      ExprValStays(p, ops, file, l, n, m);
      ExprValStays(p, ops, file, r, n, m);
    case _ =>
  }

  lemma {:induction false} SpansValStays<U, B>(p: Program<U, B>, ops: Ops<U, B>, file: string, e: Expr<U, B>, k: nat,
                                               n: nat, m: nat)
    requires e.Template? && k <= |e.spans|
    requires n <= m && SpansVal(p, ops, file, e, k, n) != State
    ensures SpansVal(p, ops, file, e, k, m) == SpansVal(p, ops, file, e, k, n)
    decreases n, 1, e, 0, k
  {
    if k > 0 {
      SpansValStays(p, ops, file, e, k - 1, n, m);
      ExprValStays(p, ops, file, e.spans[k - 1].e, n, m);
    }
  }

  /** v is what k means: a value some derivation gives, or State when none gives any. */
  ghost predicate Means<U, B>(p: Program<U, B>, ops: Ops<U, B>, k: Key, v: Value) {
    if v == State then forall n :: Val(p, ops, k, n) == State else exists n :: Val(p, ops, k, n) == v
  }

  ghost predicate ExprMeans<U, B>(p: Program<U, B>, ops: Ops<U, B>, file: string, e: Expr<U, B>, v: Value) {
    if v == State then forall n :: ExprVal(p, ops, file, e, n) == State
    else exists n :: ExprVal(p, ops, file, e, n) == v
  }

  ghost predicate SpansMean<U, B>(p: Program<U, B>, ops: Ops<U, B>, file: string, e: Expr<U, B>, k: nat, v: Value)
    requires e.Template? && k <= |e.spans|
  {
    if v == State then forall n :: SpansVal(p, ops, file, e, k, n) == State
    else exists n :: SpansVal(p, ops, file, e, k, n) == v
  }

  lemma MeaningUnique<U, B>(p: Program<U, B>, ops: Ops<U, B>, k: Key, v: Value, w: Value)
    requires Means(p, ops, k, v) && Means(p, ops, k, w)
    ensures v == w
  {
    if v != State && w != State {
      var n :| Val(p, ops, k, n) == v;
      var m :| Val(p, ops, k, m) == w;
      if n <= m {
        ValStays(p, ops, k, n, m);
      } else {
        ValStays(p, ops, k, m, n);
      }
    }
  }

  lemma MeaningExists<U, B>(p: Program<U, B>, ops: Ops<U, B>, k: Key) returns (v: Value)
    ensures Means(p, ops, k, v)
  {
    if n :| Val(p, ops, k, n) != State {
      v := Val(p, ops, k, n);
    } else {
      v := State;
    }
  }

  /** There is always a meaning, and only one. */
  lemma OneMeaning<U, B>(p: Program<U, B>, ops: Ops<U, B>, k: Key)
    ensures exists v :: Means(p, ops, k, v) && forall w :: Means(p, ops, k, w) ==> w == v
  {
    hide Means;
    var v := MeaningExists(p, ops, k);
    forall w | Means(p, ops, k, w) ensures w == v {
      MeaningUnique(p, ops, k, v, w);
    }
  }

  // ---------- what a key uses, and cycles ----------

  /** The names an expression reads. */
  function Reads<U, B>(e: Expr<U, B>): set<string>
    decreases e, 1, 0
  {
    match e
    case AsConst(inner) => Reads(inner)
    case Ref(name) => {name}
    case Template(_, spans) => SpansRead(e, |spans|)
    case Cond(c, y, no) => Reads(c) + Reads(y) + Reads(no)
    case Unary(_, operand) => Reads(operand)
    case Binary(_, l, r) => Reads(l) + Reads(r)
    case _ => {}
  }

  function SpansRead<U, B>(e: Expr<U, B>, k: nat): set<string>
    requires e.Template? && k <= |e.spans|
    decreases e, 0, k
  {
    if k == 0 then {} else SpansRead(e, k - 1) + Reads(e.spans[k - 1].e)
  }

  /** The evaluation of k needs the value of j. */
  predicate Uses<U, B>(p: Program<U, B>, k: Key, j: Key) {
    match k
    case Named(file, name) =>
      (file, name) in p.locals &&
      (match p.locals[(file, name)]
       case Const(init) => j.Named? && j.file == file && j.name in Reads(init)
       case Import(source, exported) => source.Some? && j == Exported(source.value, exported)
       case _ => false)
    case Exported(file, name) =>
      (file, name) in p.exports &&
      (match p.exports[(file, name)]
       case FromFile(source, exported) => source.Some? && j == Onward(file, source.value, exported)
       case Default(e) => j.Named? && j.file == file && j.name in Reads(e))
  }

  /** Evaluation is strict: a value of the whole needs a value of every name it reads. */
  lemma {:induction false} ReadsHaveValues<U, B>(p: Program<U, B>, ops: Ops<U, B>, file: string, e: Expr<U, B>,
                                                 n: nat, name: string)
    requires ExprVal(p, ops, file, e, n) != State && name in Reads(e)
    ensures Val(p, ops, Named(file, name), n) != State
    decreases e, 1, 0
  {
    match e
    case AsConst(inner) => ReadsHaveValues(p, ops, file, inner, n, name);
    case Ref(_) =>
    case Template(_, spans) => SpansHaveValues(p, ops, file, e, |spans|, n, name);
    case Cond(c, y, no) =>
      if name in Reads(c) {
        ReadsHaveValues(p, ops, file, c, n, name);
      } else if name in Reads(y) {
        ReadsHaveValues(p, ops, file, y, n, name);
      } else {
        ReadsHaveValues(p, ops, file, no, n, name);
      }
    case Unary(_, operand) => ReadsHaveValues(p, ops, file, operand, n, name);
    case Binary(_, l, r) =>
      if name in Reads(l) {
        ReadsHaveValues(p, ops, file, l, n, name);
      } else {
        ReadsHaveValues(p, ops, file, r, n, name);
      }
    case _ =>
  }

  lemma {:induction false} SpansHaveValues<U, B>(p: Program<U, B>, ops: Ops<U, B>, file: string, e: Expr<U, B>,
                                                 k: nat, n: nat, name: string)
    requires e.Template? && k <= |e.spans|
    requires SpansVal(p, ops, file, e, k, n) != State && name in SpansRead(e, k)
    ensures Val(p, ops, Named(file, name), n) != State
    decreases e, 0, k
  {
    if name in SpansRead(e, k - 1) {
      SpansHaveValues(p, ops, file, e, k - 1, n, name);
    } else {
      ReadsHaveValues(p, ops, file, e.spans[k - 1].e, n, name);
    }
  }

  /** A value of k found n deep needs a value of everything k uses, found less deep. */
  lemma UsedHasValue<U, B>(p: Program<U, B>, ops: Ops<U, B>, k: Key, j: Key, n: nat)
    requires Uses(p, k, j) && Val(p, ops, k, n) != State
    ensures n > 0 && Val(p, ops, j, n - 1) != State
  {
    match k
    case Named(file, name) =>
      match p.locals[(file, name)] {
        case Const(init) => ReadsHaveValues(p, ops, file, init, n - 1, j.name);
        case _ =>
      }
    case Exported(file, name) =>
      match p.exports[(file, name)] {
        case Default(e) => ReadsHaveValues(p, ops, file, e, n - 1, j.name);
        case _ =>
      }
  }

  /** Each key of the chain uses the next. */
  ghost predicate Chain<U, B>(p: Program<U, B>, ks: seq<Key>) {
    forall i :: 0 <= i < |ks| - 1 ==> Uses(p, ks[i], ks[i + 1])
  }

  lemma ChainTail<U, B>(p: Program<U, B>, ks: seq<Key>)
    requires |ks| > 1 && Chain(p, ks)
    ensures Chain(p, ks[1..])
  {
    forall i | 0 <= i < |ks[1..]| - 1 ensures Uses(p, ks[1..][i], ks[1..][i + 1]) {
      assert Uses(p, ks[i + 1], ks[i + 1 + 1]);
    }
  }

  lemma {:induction false} ChainHasValues<U, B>(p: Program<U, B>, ops: Ops<U, B>, ks: seq<Key>, n: nat)
    requires ks != [] && Chain(p, ks) && Val(p, ops, ks[0], n) != State
    ensures n >= |ks| - 1 && Val(p, ops, ks[|ks| - 1], n - (|ks| - 1)) != State
  {
    if |ks| > 1 {
      UsedHasValue(p, ops, ks[0], ks[1], n);
      ChainTail(p, ks);
      ChainHasValues(p, ops, ks[1..], n - 1);
    }
  }

  /** A key on a cycle of uses has no value. */
  lemma {:induction false} CycleIsState<U, B>(p: Program<U, B>, ops: Ops<U, B>, ks: seq<Key>, n: nat)
    requires |ks| > 1 && Chain(p, ks) && ks[|ks| - 1] == ks[0]
    ensures Val(p, ops, ks[0], n) == State
    decreases n
  {
    if Val(p, ops, ks[0], n) != State {
      ChainHasValues(p, ops, ks, n);
      CycleIsState(p, ops, ks, n - (|ks| - 1));
    }
  }

  /** Nor has a key from which a cycle is reached. */
  lemma CycleReachedIsState<U, B>(p: Program<U, B>, ops: Ops<U, B>, path: seq<Key>, cycle: seq<Key>)
    requires path != [] && Chain(p, path)
    requires |cycle| > 1 && Chain(p, cycle) && cycle[|cycle| - 1] == cycle[0] == path[|path| - 1]
    ensures Means(p, ops, path[0], State)
  {
    forall n: nat ensures Val(p, ops, path[0], n) == State {
      if Val(p, ops, path[0], n) != State {
        ChainHasValues(p, ops, path, n);
        CycleIsState(p, ops, cycle, n - (|path| - 1));
      }
    }
  }

  // ---------- the meaning of a whole from the meanings of its parts ----------

  lemma ExprAtAnyDepth<U, B>(p: Program<U, B>, ops: Ops<U, B>, file: string, e: Expr<U, B>, v: Value, n: nat)
    requires ExprMeans(p, ops, file, e, v)
    ensures ExprVal(p, ops, file, e, n) == State || ExprVal(p, ops, file, e, n) == v
  {
    if v != State && ExprVal(p, ops, file, e, n) != State {
      var m :| ExprVal(p, ops, file, e, m) == v;
      if n <= m {
        ExprValStays(p, ops, file, e, n, m);
      } else {
        ExprValStays(p, ops, file, e, m, n);
      }
    }
  }

  lemma ExprAtSomeDepth<U, B>(p: Program<U, B>, ops: Ops<U, B>, file: string, e: Expr<U, B>, v: Value, least: nat)
    returns (n: nat)
    requires ExprMeans(p, ops, file, e, v)
    ensures n >= least && ExprVal(p, ops, file, e, n) == v
  {
    if v == State {
      n := least;
    } else {
      n :| ExprVal(p, ops, file, e, n) == v;
      if n < least {
        ExprValStays(p, ops, file, e, n, least);
        n := least;
      }
    }
  }

  lemma Same<U, B>(p: Program<U, B>, ops: Ops<U, B>, file: string, e: Expr<U, B>, v: Value, n: nat, m: nat)
    requires ExprMeans(p, ops, file, e, v) && ExprVal(p, ops, file, e, n) == v && n <= m
    ensures ExprVal(p, ops, file, e, m) == v
  {
    if v != State {
      ExprValStays(p, ops, file, e, n, m);
    }
  }

  lemma MeansAsConst<U, B>(p: Program<U, B>, ops: Ops<U, B>, file: string, e: Expr<U, B>, v: Value)
    requires e.AsConst? && ExprMeans(p, ops, file, e.e, v)
    ensures ExprMeans(p, ops, file, e, OnlyPrimitive(v))
  {
    var n := ExprAtSomeDepth(p, ops, file, e.e, v, 0);
    assert ExprVal(p, ops, file, e, n) == OnlyPrimitive(v);
    forall m: nat ensures ExprVal(p, ops, file, e, m) in {State, OnlyPrimitive(v)} {
      ExprAtAnyDepth(p, ops, file, e.e, v, m);
    }
  }

  lemma MeansUnary<U, B>(p: Program<U, B>, ops: Ops<U, B>, file: string, e: Expr<U, B>, v: Value)
    requires e.Unary? && ExprMeans(p, ops, file, e.operand, v)
    ensures ExprMeans(p, ops, file, e, Apply1(ops, e.uop, v))
  {
    var n := ExprAtSomeDepth(p, ops, file, e.operand, v, 0);
    assert ExprVal(p, ops, file, e, n) == Apply1(ops, e.uop, v);
    forall m: nat ensures ExprVal(p, ops, file, e, m) in {State, Apply1(ops, e.uop, v)} {
      ExprAtAnyDepth(p, ops, file, e.operand, v, m);
    }
  }

  lemma MeansBinary<U, B>(p: Program<U, B>, ops: Ops<U, B>, file: string, e: Expr<U, B>, l: Value, r: Value)
    requires e.Binary? && ExprMeans(p, ops, file, e.left, l) && ExprMeans(p, ops, file, e.right, r)
    ensures ExprMeans(p, ops, file, e, Apply2(ops, e.bop, l, r))
  {
    var n := ExprAtSomeDepth(p, ops, file, e.left, l, 0);
    var m := ExprAtSomeDepth(p, ops, file, e.right, r, n);
    Same(p, ops, file, e.left, l, n, m);
    assert ExprVal(p, ops, file, e, m) == Apply2(ops, e.bop, l, r);
    forall m: nat ensures ExprVal(p, ops, file, e, m) in {State, Apply2(ops, e.bop, l, r)} {
      ExprAtAnyDepth(p, ops, file, e.left, l, m);
      ExprAtAnyDepth(p, ops, file, e.right, r, m);
    }
  }

  lemma MeansCond<U, B>(p: Program<U, B>, ops: Ops<U, B>, file: string, e: Expr<U, B>, c: Value, y: Value, no: Value)
    requires e.Cond?
    requires ExprMeans(p, ops, file, e.condition, c)
    requires ExprMeans(p, ops, file, e.yes, y) && ExprMeans(p, ops, file, e.no, no)
    ensures ExprMeans(p, ops, file, e, Choose(ops, c, y, no))
  {
    var i := ExprAtSomeDepth(p, ops, file, e.condition, c, 0);
    var j := ExprAtSomeDepth(p, ops, file, e.yes, y, i);
    var k := ExprAtSomeDepth(p, ops, file, e.no, no, j);
    Same(p, ops, file, e.condition, c, i, k);
    Same(p, ops, file, e.yes, y, j, k);
    assert ExprVal(p, ops, file, e, k) == Choose(ops, c, y, no);
    forall m: nat ensures ExprVal(p, ops, file, e, m) in {State, Choose(ops, c, y, no)} {
      ExprAtAnyDepth(p, ops, file, e.condition, c, m);
      ExprAtAnyDepth(p, ops, file, e.yes, y, m);
      ExprAtAnyDepth(p, ops, file, e.no, no, m);
    }
  }

  lemma SpansAtAnyDepth<U, B>(p: Program<U, B>, ops: Ops<U, B>, file: string, e: Expr<U, B>, k: nat, v: Value, n: nat)
    requires e.Template? && k <= |e.spans| && SpansMean(p, ops, file, e, k, v)
    ensures SpansVal(p, ops, file, e, k, n) == State || SpansVal(p, ops, file, e, k, n) == v
  {
    if v != State && SpansVal(p, ops, file, e, k, n) != State {
      var m :| SpansVal(p, ops, file, e, k, m) == v;
      if n <= m {
        SpansValStays(p, ops, file, e, k, n, m);
      } else {
        SpansValStays(p, ops, file, e, k, m, n);
      }
    }
  }

  lemma MeansNextSpan<U, B>(p: Program<U, B>, ops: Ops<U, B>, file: string, e: Expr<U, B>, k: nat, sofar: Value,
                            v: Value)
    requires e.Template? && k < |e.spans| && SpansMean(p, ops, file, e, k, sofar)
    requires ExprMeans(p, ops, file, e.spans[k].e, v)
    ensures SpansMean(p, ops, file, e, k + 1, Extend(ops, sofar, v, e.spans[k].text))
  {
    var whole := Extend(ops, sofar, v, e.spans[k].text);
    if whole != State {
      var n :| SpansVal(p, ops, file, e, k, n) == sofar;
      var m := ExprAtSomeDepth(p, ops, file, e.spans[k].e, v, n);
      SpansValStays(p, ops, file, e, k, n, m);
      assert SpansVal(p, ops, file, e, k + 1, m) == whole;
    }
    var next := k + 1;
    forall m: nat ensures SpansVal(p, ops, file, e, next, m) in {State, whole} {
      SpansAtAnyDepth(p, ops, file, e, k, sofar, m);
      ExprAtAnyDepth(p, ops, file, e.spans[k].e, v, m);
    }
  }

  /** A template is refused as soon as one span is no primitive. */
  lemma {:induction false} MeansRefused<U, B>(p: Program<U, B>, ops: Ops<U, B>, file: string, e: Expr<U, B>, k: nat)
    requires e.Template? && k <= |e.spans| && SpansMean(p, ops, file, e, k, State)
    ensures SpansMean(p, ops, file, e, |e.spans|, State)
    decreases |e.spans| - k
  {
    if k < |e.spans| {
      var next := k + 1;
      forall m: nat ensures SpansVal(p, ops, file, e, next, m) == State {
        assert SpansVal(p, ops, file, e, k, m) == State;
      }
      MeansRefused(p, ops, file, e, k + 1);
    }
  }

  lemma MeansTemplate<U, B>(p: Program<U, B>, ops: Ops<U, B>, file: string, e: Expr<U, B>, v: Value)
    requires e.Template? && SpansMean(p, ops, file, e, |e.spans|, v)
    ensures ExprMeans(p, ops, file, e, v)
  {
    assert forall n :: ExprVal(p, ops, file, e, n) == SpansVal(p, ops, file, e, |e.spans|, n);
  }

  lemma MeansNoSpan<U, B>(p: Program<U, B>, ops: Ops<U, B>, file: string, e: Expr<U, B>)
    requires e.Template?
    ensures SpansMean(p, ops, file, e, 0, Primitive(Text(e.head)))
  {
    assert SpansVal(p, ops, file, e, 0, 0) == Primitive(Text(e.head));
  }

  lemma MeansRef<U, B>(p: Program<U, B>, ops: Ops<U, B>, file: string, e: Expr<U, B>, v: Value)
    requires e.Ref? && Means(p, ops, Named(file, e.name), v)
    ensures ExprMeans(p, ops, file, e, v)
  {
    assert forall n :: ExprVal(p, ops, file, e, n) == Val(p, ops, Named(file, e.name), n);
  }

  /** Expressions that need no other value. */
  predicate IsLeaf<U, B>(e: Expr<U, B>) { e.Literal? || e.Function? || e.Frozen? || e.Other? }

  function LeafValue<U, B>(e: Expr<U, B>): Value
    requires IsLeaf(e)
  {
    if e.Literal? then Primitive(e.p) else if e.Other? then State else Safe
  }

  lemma MeansLeaf<U, B>(p: Program<U, B>, ops: Ops<U, B>, file: string, e: Expr<U, B>)
    requires IsLeaf(e)
    ensures ExprMeans(p, ops, file, e, LeafValue(e))
  {
    assert forall n :: ExprVal(p, ops, file, e, n) == LeafValue(e);
    assert ExprVal(p, ops, file, e, 0) == LeafValue(e);
  }

  // ---------- keys ----------

  /** The expression that defines a key, if there is one. */
  function Definition<U, B>(p: Program<U, B>, k: Key): Option<Expr<U, B>> {
    match k
    case Named(file, name) =>
      if (file, name) in p.locals && p.locals[(file, name)].Const? then Some(p.locals[(file, name)].init) else None
    case Exported(file, name) =>
      if (file, name) in p.exports && p.exports[(file, name)].Default? then Some(p.exports[(file, name)].e) else None
  }

  /** The key an import or re-export leads to, if it leads to a file of the program. */
  function Forward<U, B>(p: Program<U, B>, k: Key): Option<Key> {
    match k
    case Named(file, name) =>
      if (file, name) in p.locals && p.locals[(file, name)].Import? && p.locals[(file, name)].source.Some?
      then Some(Exported(p.locals[(file, name)].source.value, p.locals[(file, name)].exported)) else None
    case Exported(file, name) =>
      if (file, name) in p.exports && p.exports[(file, name)].FromFile? && p.exports[(file, name)].source.Some?
      then Some(Onward(file, p.exports[(file, name)].source.value, p.exports[(file, name)].exported)) else None
  }

  /** The value of a key that needs no other one. */
  function Plain<U, B>(p: Program<U, B>, k: Key): Value {
    match k
    case Named(file, name) =>
      if (file, name) !in p.locals then Global(name) else if p.locals[(file, name)].Mutable? then State else Safe
    case Exported(file, name) => if (file, name) !in p.exports then State else Safe
  }

  lemma MeansDefined<U, B>(p: Program<U, B>, ops: Ops<U, B>, k: Key, v: Value)
    requires Definition(p, k).Some? && ExprMeans(p, ops, k.file, Definition(p, k).value, v)
    ensures Means(p, ops, k, v)
  {
    forall n: nat
      ensures Val(p, ops, k, n) == if n == 0 then State else ExprVal(p, ops, k.file, Definition(p, k).value, n - 1)
    {
    }
    if v != State {
      var n: nat :| ExprVal(p, ops, k.file, Definition(p, k).value, n) == v;
      assert Val(p, ops, k, n + 1) == v;
    }
  }

  lemma MeansForward<U, B>(p: Program<U, B>, ops: Ops<U, B>, k: Key, v: Value)
    requires Forward(p, k).Some? && Means(p, ops, Forward(p, k).value, v)
    ensures Means(p, ops, k, v)
  {
    forall n: nat ensures Val(p, ops, k, n) == if n == 0 then State else Val(p, ops, Forward(p, k).value, n - 1) {
    }
    if v != State {
      var n: nat :| Val(p, ops, Forward(p, k).value, n) == v;
      assert Val(p, ops, k, n + 1) == v;
    }
  }

  lemma MeansPlain<U, B>(p: Program<U, B>, ops: Ops<U, B>, k: Key)
    requires Definition(p, k).None? && Forward(p, k).None?
    ensures Means(p, ops, k, Plain(p, k))
  {
    assert Val(p, ops, k, 1) == Plain(p, k);
    assert forall n: nat :: n > 0 ==> Val(p, ops, k, n) == Plain(p, k);
  }

  // ---------- what need not be registered, said without the values of the evaluator ----------

  /** Names no file defines that are functions or classes of the language. */
  predicate IsBuiltin(name: string) {
    name in {"Object", "Array", "Date", "RegExp", "Map", "Set", "WeakMap", "WeakSet", "Promise", "Error", "Number",
             "String", "Boolean", "BigInt", "Symbol", "Math", "JSON", "Reflect"}
  }

  /** Names no file defines that stand for a primitive value. */
  predicate IsNamedPrimitive(name: string) { name in {"undefined", "NaN", "Infinity"} }

  /** The form, or one inside it, is one the evaluator has no case for. */
  predicate Unsupported<U, B>(e: Expr<U, B>) {
    match e
    case Other => true
    case AsConst(inner) => Unsupported(inner)
    case Template(_, spans) => exists i :: 0 <= i < |spans| && Unsupported(spans[i].e)
    case Cond(c, y, no) => Unsupported(c) || Unsupported(y) || Unsupported(no)
    case Unary(_, operand) => Unsupported(operand)
    case Binary(_, l, r) => Unsupported(l) || Unsupported(r)
    case _ => false
  }

  /**
   * Nothing is known of the key, or it can change: a mutable name, a name nobody defines, an export that does not
   * exist, a definition of an unsupported form.
   */
  predicate Refused<U, B>(p: Program<U, B>, k: Key) {
    match k
    case Named(file, name) =>
      if (file, name) in p.locals
      then
        var local := p.locals[(file, name)];
        local.Mutable? || (local.Const? && Unsupported(local.init))
      else !IsBuiltin(name) && !IsNamedPrimitive(name)
    case Exported(file, name) =>
      (file, name) in p.exports ==>
        p.exports[(file, name)].Default? && Unsupported(p.exports[(file, name)].e)
  }

  /** The key is another name, n steps away at most, of something that cannot change: a function, an import and such. */
  predicate Unchanging<U, B>(p: Program<U, B>, k: Key, n: nat)
    decreases n, 0
  {
    n > 0 &&
    match k
    case Named(file, name) =>
      if (file, name) !in p.locals then IsBuiltin(name)
      else (match p.locals[(file, name)]
        case Const(init) => UnchangingTerm(p, file, init, n - 1)
        case Import(source, exported) => source.Some? ==> Unchanging(p, Exported(source.value, exported), n - 1)
        case Declared => true
        case Mutable => false)
    case Exported(file, name) =>
      (file, name) in p.exports &&
      (match p.exports[(file, name)]
       case FromFile(source, exported) =>
         source.Some? ==>
           Unchanging(p, if source.value == file then Named(file, exported) else Exported(source.value, exported),
             n - 1)
       case Default(e) => UnchangingTerm(p, file, e, n - 1))
  }

  predicate UnchangingTerm<U, B>(p: Program<U, B>, file: string, e: Expr<U, B>, n: nat)
    decreases n, 1
  {
    e.Function? || e.Frozen? || (e.Ref? && Unchanging(p, Named(file, e.name), n))
  }

  /** Everything the key is computed from, on all branches, is a primitive value, and every operator has a result. */
  predicate Computes<U, B>(p: Program<U, B>, ops: Ops<U, B>, k: Key, n: nat)
    decreases n, 0
  {
    n > 0 &&
    match k
    case Named(file, name) =>
      if (file, name) !in p.locals then IsNamedPrimitive(name)
      else (match p.locals[(file, name)]
        case Const(init) => ComputesTerm(p, ops, file, init, n - 1)
        case Import(source, exported) => source.Some? && Computes(p, ops, Exported(source.value, exported), n - 1)
        case _ => false)
    case Exported(file, name) =>
      (file, name) in p.exports &&
      (match p.exports[(file, name)]
       case FromFile(source, exported) =>
         source.Some? &&
         Computes(p, ops, if source.value == file then Named(file, exported) else Exported(source.value, exported),
           n - 1)
       case Default(e) => ComputesTerm(p, ops, file, e, n - 1))
  }

  predicate ComputesTerm<U, B>(p: Program<U, B>, ops: Ops<U, B>, file: string, e: Expr<U, B>, n: nat)
    decreases n, 2, e, 0
  {
    match e
    case Literal(_) => true
    case AsConst(inner) => ComputesTerm(p, ops, file, inner, n)
    case Ref(name) => Computes(p, ops, Named(file, name), n)
    case Template(_, spans) => forall i :: 0 <= i < |spans| ==> ComputesTerm(p, ops, file, spans[i].e, n)
    case Cond(c, y, no) =>
      ComputesTerm(p, ops, file, c, n) && ComputesTerm(p, ops, file, y, n) && ComputesTerm(p, ops, file, no, n)
    case Unary(op, operand) =>
      ComputesTerm(p, ops, file, operand, n) && ops.unary(op, Result(p, ops, file, operand, n)).Some?
    case Binary(op, l, r) =>
      && ComputesTerm(p, ops, file, l, n) && ComputesTerm(p, ops, file, r, n)
      && ops.binary(op, Result(p, ops, file, l, n), Result(p, ops, file, r, n)).Some?
    case _ => false
  }

  /** The result, where one branch of a conditional is evaluated. */
  function ResultOf<U, B>(p: Program<U, B>, ops: Ops<U, B>, k: Key, n: nat): Prim
    requires Computes(p, ops, k, n)
    decreases n, 1
  {
    match k
    case Named(file, name) =>
      if (file, name) !in p.locals then
        if name == "undefined" then Undefined else if name == "NaN" then NotANumber else Infinite
      else (match p.locals[(file, name)]
        case Const(init) => Result(p, ops, file, init, n - 1)
        case Import(source, exported) => ResultOf(p, ops, Exported(source.value, exported), n - 1))
    case Exported(file, name) =>
      match p.exports[(file, name)]
      case FromFile(source, exported) =>
        ResultOf(p, ops, if source.value == file then Named(file, exported) else Exported(source.value, exported),
          n - 1)
      case Default(e) => Result(p, ops, file, e, n - 1)
  }

  function Result<U, B>(p: Program<U, B>, ops: Ops<U, B>, file: string, e: Expr<U, B>, n: nat): Prim
    requires ComputesTerm(p, ops, file, e, n)
    decreases n, 2, e, 2
  {
    match e
    case Literal(v) => v
    case AsConst(inner) => Result(p, ops, file, inner, n)
    case Ref(name) => ResultOf(p, ops, Named(file, name), n)
    case Template(head, spans) => Text(head + SpanTexts(p, ops, file, e, |spans|, n))
    case Cond(c, y, no) =>
      if ops.truthy(Result(p, ops, file, c, n)) then Result(p, ops, file, y, n) else Result(p, ops, file, no, n)
    case Unary(op, operand) => ops.unary(op, Result(p, ops, file, operand, n)).value
    case Binary(op, l, r) => ops.binary(op, Result(p, ops, file, l, n), Result(p, ops, file, r, n)).value
  }

  function SpanTexts<U, B>(p: Program<U, B>, ops: Ops<U, B>, file: string, e: Expr<U, B>, k: nat, n: nat): string
    requires e.Template? && k <= |e.spans|
    requires forall i :: 0 <= i < k ==> ComputesTerm(p, ops, file, e.spans[i].e, n)
    decreases n, 2, e, 1, k
  {
    if k == 0 then ""
    else
      SpanTexts(p, ops, file, e, k - 1, n) + ops.text(Result(p, ops, file, e.spans[k - 1].e, n)) + e.spans[k - 1].text
  }

  // ---------- the values say the same ----------

  lemma Builtins(name: string)
    ensures Global(name) ==
      if name == "undefined" then Primitive(Undefined) else if name == "NaN" then Primitive(NotANumber)
      else if name == "Infinity" then Primitive(Infinite) else if IsBuiltin(name) then Safe else State
    ensures IsNamedPrimitive(name) ==> !IsBuiltin(name)
  {
    assert IsBuiltin(name) <==> name in BUILTINS;
  }

  lemma {:induction false} SafeExactly<U, B>(p: Program<U, B>, ops: Ops<U, B>, k: Key, n: nat)
    ensures Val(p, ops, k, n) == Safe <==> Unchanging(p, k, n)
    decreases n, 0
  {
    if n > 0 {
      match k {
        case Named(file, name) =>
          if (file, name) !in p.locals {
            Builtins(name);
          } else {
            match p.locals[(file, name)] {
              case Const(init) => SafeTermExactly(p, ops, file, init, n - 1);
              case Import(source, exported) =>
                if source.Some? {
                  SafeExactly(p, ops, Exported(source.value, exported), n - 1);
                }
              case _ =>
            }
          }
        case Exported(file, name) =>
          if (file, name) in p.exports {
            match p.exports[(file, name)] {
              case FromFile(source, exported) =>
                if source.Some? {
                  SafeExactly(p, ops, Onward(file, source.value, exported), n - 1);
                }
              case Default(e) => SafeTermExactly(p, ops, file, e, n - 1);
            }
          }
      }
    }
  }

  lemma SafeTermExactly<U, B>(p: Program<U, B>, ops: Ops<U, B>, file: string, e: Expr<U, B>, n: nat)
    ensures ExprVal(p, ops, file, e, n) == Safe <==> UnchangingTerm(p, file, e, n)
    decreases n, 1
  {
    match e
    case Ref(name) => SafeExactly(p, ops, Named(file, name), n);
    case Template(_, spans) => TemplateIsText(p, ops, file, e, |spans|, n);
    case _ =>
  }

  lemma TemplateIsText<U, B>(p: Program<U, B>, ops: Ops<U, B>, file: string, e: Expr<U, B>, k: nat, n: nat)
    requires e.Template? && k <= |e.spans|
    ensures SpansVal(p, ops, file, e, k, n) != Safe
  {
  }

  /** The value is a primitive exactly if the key can be computed, and then it is the result. */
  ghost predicate PrimAgrees<U, B>(p: Program<U, B>, ops: Ops<U, B>, k: Key, n: nat) {
    && (Val(p, ops, k, n).Primitive? <==> Computes(p, ops, k, n))
    && (Computes(p, ops, k, n) ==> Val(p, ops, k, n) == Primitive(ResultOf(p, ops, k, n)))
  }

  ghost predicate TermAgrees<U, B>(p: Program<U, B>, ops: Ops<U, B>, file: string, e: Expr<U, B>, n: nat) {
    && (ExprVal(p, ops, file, e, n).Primitive? <==> ComputesTerm(p, ops, file, e, n))
    && (ComputesTerm(p, ops, file, e, n) ==> ExprVal(p, ops, file, e, n) == Primitive(Result(p, ops, file, e, n)))
  }

  lemma {:induction false} ComputedExactly<U, B>(p: Program<U, B>, ops: Ops<U, B>, k: Key, n: nat)
    ensures PrimAgrees(p, ops, k, n)
    decreases n, 0
  {
    if n > 0 {
      match k {
        case Named(file, name) =>
          if (file, name) !in p.locals {
            Builtins(name);
          } else {
            match p.locals[(file, name)] {
              case Const(init) => TermComputedExactly(p, ops, file, init, n - 1);
              case Import(source, exported) =>
                if source.Some? {
                  ComputedExactly(p, ops, Exported(source.value, exported), n - 1);
                }
              case _ =>
            }
          }
        case Exported(file, name) =>
          if (file, name) in p.exports {
            match p.exports[(file, name)] {
              case FromFile(source, exported) =>
                if source.Some? {
                  ComputedExactly(p, ops, Onward(file, source.value, exported), n - 1);
                }
              case Default(e) => TermComputedExactly(p, ops, file, e, n - 1);
            }
          }
      }
    }
  }

  lemma {:induction false} TermComputedExactly<U, B>(p: Program<U, B>, ops: Ops<U, B>, file: string, e: Expr<U, B>,
                                                     n: nat)
    ensures TermAgrees(p, ops, file, e, n)
    decreases n, 1, e, 1
  {
    match e
    case AsConst(inner) => TermComputedExactly(p, ops, file, inner, n);
    case Ref(name) => ComputedExactly(p, ops, Named(file, name), n);
    case Template(_, spans) => SpansComputedExactly(p, ops, file, e, |spans|, n);
    case Cond(c, y, no) =>
      TermComputedExactly(p, ops, file, c, n);
      TermComputedExactly(p, ops, file, y, n);
      TermComputedExactly(p, ops, file, no, n);
    case Unary(_, operand) => TermComputedExactly(p, ops, file, operand, n);
    case Binary(_, l, r) =>
      TermComputedExactly(p, ops, file, l, n);
      TermComputedExactly(p, ops, file, r, n);
    case _ =>
  }

  /** The same for the first k spans of a template. */
  ghost predicate SpansAgree<U, B>(p: Program<U, B>, ops: Ops<U, B>, file: string, e: Expr<U, B>, k: nat, n: nat)
    requires e.Template? && k <= |e.spans|
  {
    var computes := forall i :: 0 <= i < k ==> ComputesTerm(p, ops, file, e.spans[i].e, n);
    && (SpansVal(p, ops, file, e, k, n).Primitive? <==> computes)
    && (computes ==> SpansVal(p, ops, file, e, k, n) == Primitive(Text(e.head + SpanTexts(p, ops, file, e, k, n))))
  }

  lemma {:induction false} SpansComputedExactly<U, B>(p: Program<U, B>, ops: Ops<U, B>, file: string, e: Expr<U, B>,
                                                      k: nat, n: nat)
    requires e.Template? && k <= |e.spans|
    ensures SpansAgree(p, ops, file, e, k, n)
    decreases n, 1, e, 0, k
  {
    if k > 0 {
      SpansComputedExactly(p, ops, file, e, k - 1, n);
      TermComputedExactly(p, ops, file, e.spans[k - 1].e, n);
      if forall i :: 0 <= i < k ==> ComputesTerm(p, ops, file, e.spans[i].e, n) {
        OneMoreText(p, ops, file, e, k, n);
      }
    } else {
      assert e.head + "" == e.head;
    }
  }

  lemma OneMoreText<U, B>(p: Program<U, B>, ops: Ops<U, B>, file: string, e: Expr<U, B>, k: nat, n: nat)
    requires e.Template? && 0 < k <= |e.spans| && TermAgrees(p, ops, file, e.spans[k - 1].e, n)
    requires forall i :: 0 <= i < k ==> ComputesTerm(p, ops, file, e.spans[i].e, n)
    requires SpansVal(p, ops, file, e, k - 1, n) == Primitive(Text(e.head + SpanTexts(p, ops, file, e, k - 1, n)))
    ensures SpansVal(p, ops, file, e, k, n) == Primitive(Text(e.head + SpanTexts(p, ops, file, e, k, n)))
  {
    hide ExprVal, ComputesTerm, Result;
    var sofar := SpanTexts(p, ops, file, e, k - 1, n);
    var text := ops.text(Result(p, ops, file, e.spans[k - 1].e, n));
    assert SpanTexts(p, ops, file, e, k, n) == sofar + text + e.spans[k - 1].text;
    assert e.head + (sofar + text + e.spans[k - 1].text) == e.head + sofar + text + e.spans[k - 1].text;
  }

  /** Found n steps deep at most, the name need not be registered. */
  predicate IsFree<U, B>(p: Program<U, B>, ops: Ops<U, B>, k: Key, n: nat) {
    Unchanging(p, k, n) || Computes(p, ops, k, n)
  }

  /** A name has to be registered exactly if it is neither unchanging nor computed. */
  lemma RegisteredExactly<U, B>(p: Program<U, B>, ops: Ops<U, B>, k: Key)
    ensures Means(p, ops, k, State) <==> forall n: nat :: !IsFree(p, ops, k, n)
  {
    if Means(p, ops, k, State) {
      NeverDerived(p, ops, k);
    }
    if forall n: nat :: !IsFree(p, ops, k, n) {
      NeverAnything(p, ops, k);
    }
  }

  lemma NeverDerived<U, B>(p: Program<U, B>, ops: Ops<U, B>, k: Key)
    requires Means(p, ops, k, State)
    ensures forall n: nat :: !IsFree(p, ops, k, n)
  {
    hide Unchanging, Computes, Val;
    forall n: nat ensures !IsFree(p, ops, k, n) {
      assert Val(p, ops, k, n) == State;
      OneExactly(p, ops, k, n);
    }
  }

  lemma NeverAnything<U, B>(p: Program<U, B>, ops: Ops<U, B>, k: Key)
    requires forall n: nat :: !IsFree(p, ops, k, n)
    ensures Means(p, ops, k, State)
  {
    hide Unchanging, Computes, Val;
    forall n: nat ensures Val(p, ops, k, n) == State {
      OneExactly(p, ops, k, n);
      assert !IsFree(p, ops, k, n);
    }
  }

  lemma OneExactly<U, B>(p: Program<U, B>, ops: Ops<U, B>, k: Key, n: nat)
    ensures Val(p, ops, k, n) == State <==> !IsFree(p, ops, k, n)
  {
    hide Unchanging, Computes, Val;
    SafeExactly(p, ops, k, n);
    ComputedExactly(p, ops, k, n);
  }

  lemma {:induction false} UnsupportedIsState<U, B>(p: Program<U, B>, ops: Ops<U, B>, file: string, e: Expr<U, B>,
                                                    n: nat)
    requires Unsupported(e)
    ensures ExprVal(p, ops, file, e, n) == State
  {
    match e
    case AsConst(inner) => UnsupportedIsState(p, ops, file, inner, n);
    case Template(_, spans) =>
      var i :| 0 <= i < |spans| && Unsupported(spans[i].e);
      UnsupportedIsState(p, ops, file, spans[i].e, n);
      SpanIsState(p, ops, file, e, i, |spans|, n);
    case Cond(c, y, no) =>
      if Unsupported(c) {
        UnsupportedIsState(p, ops, file, c, n);
      } else if Unsupported(y) {
        UnsupportedIsState(p, ops, file, y, n);
      } else {
        UnsupportedIsState(p, ops, file, no, n);
      }
    case Unary(_, operand) => UnsupportedIsState(p, ops, file, operand, n);
    case Binary(_, l, r) =>
      if Unsupported(l) {
        UnsupportedIsState(p, ops, file, l, n);
      } else {
        UnsupportedIsState(p, ops, file, r, n);
      }
    case _ =>
  }

  lemma {:induction false} SpanIsState<U, B>(p: Program<U, B>, ops: Ops<U, B>, file: string, e: Expr<U, B>, i: nat,
                                             k: nat, n: nat)
    requires e.Template? && i < k <= |e.spans| && ExprVal(p, ops, file, e.spans[i].e, n) == State
    ensures SpansVal(p, ops, file, e, k, n) == State
    decreases k
  {
    if i < k - 1 {
      SpanIsState(p, ops, file, e, i, k - 1, n);
    }
  }

  lemma RefusedIsState<U, B>(p: Program<U, B>, ops: Ops<U, B>, k: Key, n: nat)
    requires Refused(p, k)
    ensures Val(p, ops, k, n) == State
  {
    if n > 0 {
      match k
      case Named(file, name) =>
        if (file, name) !in p.locals {
          Builtins(name);
        } else if p.locals[(file, name)].Const? {
          UnsupportedIsState(p, ops, file, p.locals[(file, name)].init, n - 1);
        }
      case Exported(file, name) =>
        if (file, name) in p.exports {
          UnsupportedIsState(p, ops, file, p.exports[(file, name)].e, n - 1);
        }
    }
  }

  /** Whatever uses something refused, at any distance, has to be registered. */
  lemma RefusedReached<U, B>(p: Program<U, B>, ops: Ops<U, B>, ks: seq<Key>)
    requires ks != [] && Chain(p, ks) && Refused(p, ks[|ks| - 1])
    ensures Means(p, ops, ks[0], State)
  {
    hide Val, Chain, Refused;
    forall n: nat ensures Val(p, ops, ks[0], n) == State {
      if Val(p, ops, ks[0], n) != State {
        ChainHasValues(p, ops, ks, n);
        RefusedIsState(p, ops, ks[|ks| - 1], n - (|ks| - 1));
      }
    }
  }

  // ---------- the evaluator as it runs ----------

  /** The keys whose evaluation can lead to others. */
  function Keys<U, B>(p: Program<U, B>): set<Key> {
    (set at | at in p.locals :: Named(at.0, at.1)) + (set at | at in p.exports :: Exported(at.0, at.1))
  }

  lemma OutsideIsPlain<U, B>(p: Program<U, B>, k: Key)
    requires k !in Keys(p)
    ensures Definition(p, k).None? && Forward(p, k).None?
  {
    match k
    case Named(file, name) =>
      assert (file, name) in p.locals ==> k in (set at | at in p.locals :: Named(at.0, at.1));
    case Exported(file, name) =>
      assert (file, name) in p.exports ==> k in (set at | at in p.exports :: Exported(at.0, at.1));
  }

  /** The stack from where k stands on it, closed by k again, is a cycle. */
  lemma RevisitIsCycle<U, B>(p: Program<U, B>, ops: Ops<U, B>, stack: seq<Key>, k: Key)
    requires Chain(p, stack) && k in stack && Uses(p, stack[|stack| - 1], k)
    ensures Means(p, ops, k, State)
  {
    var i :| 0 <= i < |stack| && stack[i] == k;
    var cycle := stack[i..] + [k];
    forall j | 0 <= j < |cycle| - 1 ensures Uses(p, cycle[j], cycle[j + 1]) {
      if j < |cycle| - 2 {
        assert Uses(p, stack[i + j], stack[i + j + 1]);
      }
    }
    forall n: nat ensures Val(p, ops, k, n) == State {
      CycleIsState(p, ops, cycle, n);
    }
  }

  lemma ChainPush<U, B>(p: Program<U, B>, stack: seq<Key>, k: Key)
    requires Chain(p, stack) && (stack == [] || Uses(p, stack[|stack| - 1], k))
    ensures Chain(p, stack + [k])
  {
    var more := stack + [k];
    forall i | 0 <= i < |more| - 1 ensures Uses(p, more[i], more[i + 1]) {
      if i < |stack| - 1 {
        assert Uses(p, stack[i], stack[i + 1]);
      }
    }
  }

  lemma DefinitionUses<U, B>(p: Program<U, B>, k: Key, name: string)
    requires Definition(p, k).Some? && name in Reads(Definition(p, k).value)
    ensures Uses(p, k, Named(k.file, name))
  {
  }

  lemma ForwardUses<U, B>(p: Program<U, B>, k: Key)
    requires Forward(p, k).Some?
    ensures Uses(p, k, Forward(p, k).value)
  {
  }

  class Values<U, B> {
    const p: Program<U, B>
    const ops: Ops<U, B>
    var cache: map<Key, Value>
    var visiting: set<Key>
    /** The keys being visited, outermost first. */
    ghost var stack: seq<Key>

    /** Whatever is cached is right, and the open evaluations need each other in turn. */
    ghost predicate Valid()
      reads this
    {
      && (forall k :: k in cache ==> Means(p, ops, k, cache[k]))
      && Chain(p, stack)
      && (forall k :: k in visiting <==> k in stack)
    }

    /** The open evaluation reads these names of the file. */
    ghost predicate Serves(file: string, names: set<string>)
      reads this
    {
      stack != [] && forall name :: name in names ==> Uses(p, stack[|stack| - 1], Named(file, name))
    }

    constructor (p: Program<U, B>, ops: Ops<U, B>)
      ensures Valid() && this.p == p && this.ops == ops && stack == [] && cache == map[]
    {
      this.p, this.ops := p, ops;
      cache, visiting, stack := map[], {}, [];
    }

    method Guarded(k: Key) returns (v: Value)
      requires Valid() && (stack == [] || Uses(p, stack[|stack| - 1], k))
      modifies this
      ensures Valid() && stack == old(stack) && visiting == old(visiting)
      ensures Means(p, ops, k, v)
      decreases Keys(p) - visiting, 2
    {
      hide Means, Chain, Uses, Keys, Plain;
      if k in cache {
        return cache[k];
      }
      if k in visiting {
        RevisitIsCycle(p, ops, stack, k);
        return State;
      }
      ChainPush(p, stack, k);
      visiting, stack := visiting + {k}, stack + [k];
      if k in Keys(p) {
        v := Compute(k);
      } else {
        OutsideIsPlain(p, k);
        MeansPlain(p, ops, k);
        v := Plain(p, k);
      }
      visiting, stack := visiting - {k}, stack[..|stack| - 1];
      cache := cache[k := v];
      assert stack == old(stack);
    }

    method Compute(k: Key) returns (v: Value)
      requires Valid() && stack != [] && stack[|stack| - 1] == k
      modifies this
      ensures Valid() && stack == old(stack) && visiting == old(visiting)
      ensures Means(p, ops, k, v)
      decreases Keys(p) - visiting, 4
    {
      var definition, forward := Definition(p, k), Forward(p, k);
      if definition.Some? {
        forall name | name in Reads(definition.value) ensures Uses(p, k, Named(k.file, name)) {
          DefinitionUses(p, k, name);
        }
        v := Expression(k.file, definition.value);
        MeansDefined(p, ops, k, v);
      } else if forward.Some? {
        ForwardUses(p, k);
        v := Guarded(forward.value);
        MeansForward(p, ops, k, v);
      } else {
        MeansPlain(p, ops, k);
        v := Plain(p, k);
      }
    }

    method Expression(file: string, e: Expr<U, B>) returns (v: Value)
      requires Valid() && Serves(file, Reads(e))
      modifies this
      ensures Valid() && stack == old(stack) && visiting == old(visiting)
      ensures ExprMeans(p, ops, file, e, v)
      decreases Keys(p) - visiting, 3, e, 1
    {
      match e
      case AsConst(inner) =>
        v := Expression(file, inner);
        MeansAsConst(p, ops, file, e, v);
        v := OnlyPrimitive(v);
      case Ref(name) =>
        v := Guarded(Named(file, name));
        MeansRef(p, ops, file, e, v);
      case Template(_, _) =>
        v := TemplateText(file, e);
      case Cond(c, y, no) =>
        var condition := Expression(file, c);
        var yes := Expression(file, y);
        var other := Expression(file, no);
        MeansCond(p, ops, file, e, condition, yes, other);
        v := Choose(ops, condition, yes, other);
      case Unary(op, operand) =>
        v := Expression(file, operand);
        MeansUnary(p, ops, file, e, v);
        v := Apply1(ops, op, v);
      case Binary(op, left, right) =>
        var l := Expression(file, left);
        var r := Expression(file, right);
        MeansBinary(p, ops, file, e, l, r);
        v := Apply2(ops, op, l, r);
      case _ =>
        MeansLeaf(p, ops, file, e);
        v := LeafValue(e);
    }

    /** Stops at the first span that is no primitive, leaving the later ones unevaluated. */
    method TemplateText(file: string, e: Expr<U, B>) returns (v: Value)
      requires e.Template? && Valid() && Serves(file, Reads(e))
      modifies this
      ensures Valid() && stack == old(stack) && visiting == old(visiting)
      ensures ExprMeans(p, ops, file, e, v)
      decreases Keys(p) - visiting, 3, e, 0
    {
      var text := e.head;
      MeansNoSpan(p, ops, file, e);
      var i := 0;
      while i < |e.spans|
        invariant i <= |e.spans|
        invariant Valid() && stack == old(stack) && visiting == old(visiting)
        invariant SpansMean(p, ops, file, e, i, Primitive(Text(text)))
      {
        SpanReads(e, i, |e.spans|);
        var value := Expression(file, e.spans[i].e);
        MeansNextSpan(p, ops, file, e, i, Primitive(Text(text)), value);
        if !value.Primitive? {
          MeansRefused(p, ops, file, e, i + 1);
          MeansTemplate(p, ops, file, e, State);
          return State;
        }
        text := text + ops.text(value.p) + e.spans[i].text;
        i := i + 1;
      }
      v := Primitive(Text(text));
      MeansTemplate(p, ops, file, e, v);
    }

    /** Whether the name has to be registered. */
    method Required(file: string, name: string) returns (b: bool)
      requires Valid() && stack == []
      modifies this
      ensures Valid() && stack == []
      ensures b <==> Means(p, ops, Named(file, name), State)
      ensures b <==> forall n: nat :: !IsFree(p, ops, Named(file, name), n)
      ensures forall ks ::
        ks != [] && ks[0] == Named(file, name) && Chain(p, ks) && Refused(p, ks[|ks| - 1]) ==> b
    {
      hide Means, Chain, Refused, IsFree;
      var v := Guarded(Named(file, name));
      b := v == State;
      if Means(p, ops, Named(file, name), State) {
        MeaningUnique(p, ops, Named(file, name), v, State);
      }
      RegisteredExactly(p, ops, Named(file, name));
      forall ks | ks != [] && ks[0] == Named(file, name) && Chain(p, ks) && Refused(p, ks[|ks| - 1]) ensures b {
        RefusedReached(p, ops, ks);
      }
    }

    /** Queries in any order and with any repetition get the meanings of the names, whatever was cached before. */
    method QueryAll(queries: seq<(string, string)>) returns (answers: seq<bool>)
      requires Valid() && stack == []
      modifies this
      ensures Valid() && stack == [] && |answers| == |queries|
      ensures forall i :: 0 <= i < |queries| ==>
        (answers[i] <==> Means(p, ops, Named(queries[i].0, queries[i].1), State))
    {
      hide Means, Chain, Refused, IsFree;
      answers := [];
      for i := 0 to |queries|
        invariant Valid() && stack == [] && |answers| == i
        invariant forall j :: 0 <= j < i ==> (answers[j] <==> Means(p, ops, Named(queries[j].0, queries[j].1), State))
      {
        var required := Required(queries[i].0, queries[i].1);
        answers := answers + [required];
      }
    }
  }

  lemma {:induction false} SpanReads<U, B>(e: Expr<U, B>, i: nat, k: nat)
    requires e.Template? && i < k <= |e.spans|
    ensures Reads(e.spans[i].e) <= SpansRead(e, k)
    decreases k
  {
    if i < k - 1 {
      SpanReads(e, i, k - 1);
    }
  }
}
