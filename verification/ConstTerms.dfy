/** Const definitions with member access and destructuring, and what they mean when a module runs. */
module ConstTerms {
  import opened Options
  import opened Naturals
  import M = ModuleState

  type Prim = M.Prim
  type Key = M.Key

  datatype UnaryOp = Plus | Minus | Not | Tilde | TypeOf | VoidOf

  /** Token stands for the operators that always need both operands. */
  datatype BinaryOp = And | Or | Coalesce | Comma | Token(token: string)

  datatype Prop =
    | Named(key: string, value: Term)
    | Numbered(key: string, value: Term)
    | Shorthand(name: string, id: nat)
    | Accessor(key: string, id: nat)
    | Computed(at: Term, value: Term)
    | Spread(value: Term)

  datatype Elem = Item(value: Term) | Hole | More(value: Term)

  datatype Span = Span(t: Term, text: string)

  /** An object or array literal that nothing makes immutable. */
  predicate IsLiteral(t: Term) { t.Object? || t.Array? }

  /**
   * Opaque and other terms, literals and names carry the number of their occurrence: what an opaque term computes,
   * whether the program ever writes to the object a literal made, and what a variable holds when it is read, is up to
   * the run.
   */
  datatype Term =
    | Lit(p: Prim)
    | Opaque(id: nat)
    | Other(id: nat)
    | Object(id: nat, props: seq<Prop>)
    | Array(id: nat, elems: seq<Elem>)
    | Immutable(t: Term)
    | Ref(name: string, id: nat)
    | Member(owner: Term, key: string)
    | Index(owner: Term, at: Term)
    | Template(head: string, spans: seq<Span>)
    | Cond(condition: Term, yes: Term, no: Term)
    | Unary(uop: UnaryOp, operand: Term)
    | Binary(bop: BinaryOp, left: Term, right: Term)

  // ---------- patterns ----------

  /** The key of a pattern element; a numeric name is a key without a text of its own. */
  datatype PatternKey = Fixed(key: string) | Numeric(key: string) | Evaluated(at: Term) | Rest

  datatype Element = Gap | Element(key: PatternKey, sub: Pattern, fallback: Option<Term>)

  /** In an array pattern only Rest matters as a key. */
  datatype Pattern = Bind(name: string) | ObjectPattern(elements: seq<Element>) | ArrayPattern(elements: seq<Element>)

  datatype Access = Static(key: string) | Dynamic(at: Term)

  datatype Default = Default(depth: nat, t: Term)

  /** One name of a pattern with the way to it. */
  datatype Bound = Bound(name: string, access: seq<Access>, defaults: seq<Default>)

  function AccessOf(pattern: Pattern, i: nat): Access
    requires !pattern.Bind? && i < |pattern.elements| && pattern.elements[i].Element?
  {
    var key := pattern.elements[i].key;
    if key.Rest? then Static("*")
    else if pattern.ArrayPattern? then Static(Decimal(i))
    else match key
      case Fixed(text) => Static(text)
      case Evaluated(at) => Dynamic(at)
      case _ => Static("*")
  }

  function DefaultOf(e: Element, depth: nat): seq<Default>
    requires e.Element?
  {
    if e.fallback.Some? then [Default(depth, e.fallback.value)] else []
  }

  /** The names of a pattern in order, with the accesses and defaults met on the way down. */
  function NamesOf(pattern: Pattern, access: seq<Access>, defaults: seq<Default>): seq<Bound>
    decreases pattern, 1, 0
  {
    if pattern.Bind? then [Bound(pattern.name, access, defaults)]
    else NamesFrom(pattern, 0, access, defaults)
  }

  function NamesFrom(pattern: Pattern, i: nat, access: seq<Access>, defaults: seq<Default>): seq<Bound>
    requires !pattern.Bind? && i <= |pattern.elements|
    decreases pattern, 0, |pattern.elements| - i
  {
    if i == |pattern.elements| then []
    else
      (if pattern.elements[i].Gap? then []
       else
         NamesOf(pattern.elements[i].sub, access + [AccessOf(pattern, i)],
                 defaults + DefaultOf(pattern.elements[i], |access| + 1)))
      + NamesFrom(pattern, i + 1, access, defaults)
  }

  /** The defaults met at a depth, in order. */
  function DefaultsAt(defaults: seq<Default>, depth: nat): seq<Term> {
    if defaults == [] then [] else DefaultAt(defaults[0], depth) + DefaultsAt(defaults[1..], depth)
  }

  function DefaultAt(d: Default, depth: nat): seq<Term> { if d.depth == depth then [d.t] else [] }

  // ---------- programs ----------

  datatype Local =
    | Const(pattern: Pattern, init: Term, bound: Bound)
    | Import(source: Option<string>, exported: string)
    | Star(source: Option<string>)
    | Declared
    | Mutable

  datatype Export = FromFile(source: Option<string>, exported: string) | Standard(t: Term)

  /** For each file with "export * from", the files it names, in order. */
  type Stars = map<string, seq<string>>

  datatype Program = Program(locals: map<(string, string), Local>, exports: map<(string, string), Export>,
                             stars: Stars)

  /** The files on the way each re-export the next, and the last one exports the name itself. */
  predicate StarPath(p: Program, path: seq<string>, file: string, name: string) {
    && path != [] && path[0] == file && (path[|path| - 1], name) in p.exports
    && forall i :: 0 <= i < |path| - 1 ==> path[i] in p.stars && path[i + 1] in p.stars[path[i]]
  }

  /** The module has the export, or one of the modules it re-exports. */
  ghost predicate Provides(p: Program, file: string, name: string) { exists path :: StarPath(p, path, file, name) }

  /** The operators on primitives; index reads a numeral that is not plain digits. */
  datatype Ops = Ops(unary: (UnaryOp, Prim) -> Option<Prim>, binary: (string, Prim, Prim) -> Option<Prim>,
                     text: Prim -> string, truthy: Prim -> bool, index: string -> Option<nat>)

  // ---------- values of a running program ----------

  /** Objects and arrays know the literal that made them, if one did. */
  datatype Datum =
    | P(p: Prim)
    | Obj(fields: map<string, Field>, parent: Parent, made: Option<Made>)
    | Arr(items: seq<Datum>, made: Option<Made>)
    | Namespace(file: string)
    | Thing(id: int)

  datatype Field = Data(d: Datum) | Getter(id: nat)

  /**
   * Where an object looks for keys it has no field of: the common prototype, nowhere, or an object its literal
   * names.
   */
  datatype Parent = Common | Nowhere | Chosen(d: Datum)

  datatype Made = Made(file: string, t: Term)

  datatype Parts = Parts(fields: map<string, Field>, parent: Parent)

  /** Everything the run decides that the model does not; None where it throws. The term that asks comes first. */
  datatype Host = Host(
    value: nat -> Option<Datum>,
    written: nat -> bool,
    got: (Term, nat) -> Option<Datum>,
    inherited: string -> Datum,
    arrayMember: string -> Datum,
    get: (Term, Datum, string) -> Option<Datum>,
    nth: (Term, Datum, nat) -> Option<Datum>,
    rest: (Term, Datum, nat) -> Option<Datum>,
    text: (Term, Datum) -> Option<string>,
    unary: (Term, Datum) -> Option<Datum>,
    binary: (Term, Datum, Datum) -> Option<Datum>,
    fields: (Term, Datum) -> Option<map<string, Field>>,
    items: (Term, Datum) -> Option<seq<Datum>>)

  /** A run of a program: what every binding and export holds when a term reads it. */
  datatype Run = Run(p: Program, ops: Ops, host: Host, store: (Term, Key) -> Datum)

  const UNDEFINED := P(M.Undefined)

  /** The names every plain object inherits. */
  predicate IsInherited(key: string) {
    key in {
      "constructor", "__defineGetter__", "__defineSetter__", "hasOwnProperty", "__lookupGetter__", "__lookupSetter__",
      "isPrototypeOf", "propertyIsEnumerable", "toString", "valueOf", "__proto__", "toLocaleString"}
  }

  const PROTO := "__proto__"

  predicate IsIndex(key: string, n: nat) { AllDigits(key) && Value(key) < n && key == Decimal(Value(key)) }

  /** What the datum's key gives to the term that asks now. */
  ghost function Get(run: Run, now: Term, d: Datum, key: string): Option<Datum>
    decreases d
  {
    match d
    case P(p) =>
      if p.Undefined? || p.Null? then None
      else if p.Text? && key == "length" then Some(P(M.Num(|p.s|)))
      else run.host.get(now, d, key)
    case Obj(fields, parent, _) =>
      if key in fields then Read(run, now, fields[key])
      else (match parent
        case Common => Some(if IsInherited(key) then run.host.inherited(key) else UNDEFINED)
        case Nowhere => Some(UNDEFINED)
        case Chosen(up) => if key == PROTO then run.host.get(now, d, key) else Get(run, now, up, key))
    case Arr(items, _) => Some(ItemOf(run, items, key))
    case Namespace(file) =>
      if Provides(run.p, file, key) then Some(run.store(now, M.Exported(file, key))) else run.host.get(now, d, key)
    case Thing(_) => run.host.get(now, d, key)
  }

  function Read(run: Run, now: Term, field: Field): Option<Datum> {
    match field
    case Data(d) => Some(d)
    case Getter(id) => run.host.got(now, id)
  }

  function ItemOf(run: Run, items: seq<Datum>, key: string): Datum {
    if key == "length" then P(M.Num(|items|))
    else if IsIndex(key, |items|) then items[Value(key)]
    else if AllDigits(key) then UNDEFINED
    else run.host.arrayMember(key)
  }

  predicate Truthy(ops: Ops, d: Datum) { d.P? ==> ops.truthy(d.p) }

  /** The left operand alone decides. */
  predicate Stops(ops: Ops, op: BinaryOp, d: Datum) {
    match op
    case And => !Truthy(ops, d)
    case Or => Truthy(ops, d)
    case Coalesce => !(d.P? && (d.p.Undefined? || d.p.Null?))
    case _ => false
  }

  function Primitive(p: Option<Prim>): Option<Datum> { if p.Some? then Some(P(p.value)) else None }

  function TextOf(run: Run, now: Term, d: Datum): Option<string> {
    if d.P? then Some(run.ops.text(d.p)) else run.host.text(now, d)
  }

  /** The value of a term in a run; None where evaluation throws. */
  ghost function Eval(run: Run, file: string, t: Term): Option<Datum>
    decreases t, 2, 0
  {
    match t
    case Lit(p) => Some(P(p))
    case Opaque(id) => run.host.value(id)
    case Other(id) => run.host.value(id)
    case Object(id, _) => if run.host.written(id) then run.host.value(id) else Build(run, file, t)
    case Array(id, _) => if run.host.written(id) then run.host.value(id) else Build(run, file, t)
    case Immutable(inner) => if IsLiteral(inner) then Build(run, file, inner) else Eval(run, file, inner)
    case Ref(name, _) => Some(run.store(t, M.Named(file, name)))
    case Member(owner, key) => (var d := Eval(run, file, owner); if d.None? then None else Get(run, t, d.value, key))
    case Index(owner, at) => GetAt(run, t, Eval(run, file, owner), Eval(run, file, at))
    case Template(_, _) =>
      (var s := SpansOf(run, file, t, |t.spans|);
       if s.None? then None else Some(P(M.Text(s.value))))
    case Cond(c, yes, no) =>
      (var d := Eval(run, file, c);
       if d.None? then None
       else if Truthy(run.ops, d.value) then Eval(run, file, yes)
       else Eval(run, file, no))
    case Unary(op, operand) =>
      (var d := Eval(run, file, operand);
       if d.None? then None
       else if d.value.P? then Primitive(run.ops.unary(op, d.value.p))
       else run.host.unary(t, d.value))
    case Binary(op, left, right) =>
      (var l := Eval(run, file, left);
       if l.None? || Stops(run.ops, op, l.value) then l
       else Combine(run, t, op, l.value, Eval(run, file, right)))
  }

  ghost function GetAt(run: Run, now: Term, d: Option<Datum>, at: Option<Datum>): Option<Datum> {
    if d.None? || at.None? then None
    else
      var key := TextOf(run, now, at.value);
      if key.None? then None else Get(run, now, d.value, key.value)
  }

  function Combine(run: Run, now: Term, op: BinaryOp, l: Datum, r: Option<Datum>): Option<Datum> {
    if r.None? || !op.Token? then r
    else if l.P? && r.value.P? then Primitive(run.ops.binary(op.token, l.p, r.value.p))
    else run.host.binary(now, l, r.value)
  }

  /** The object or array as the literal makes it, before anything is written to it. */
  ghost function Build(run: Run, file: string, t: Term): Option<Datum>
    requires IsLiteral(t)
    decreases t, 1, 0
  {
    if t.Array? then
      var s := ItemsOf(run, file, t, |t.elems|);
      if s.None? then None else Some(Arr(s.value, Some(Made(file, t))))
    else
      var m := PartsOf(run, file, t, |t.props|);
      if m.None? then None else Some(Obj(m.value.fields, m.value.parent, Some(Made(file, t))))
  }

  /** A prototype can only be an object or null; other values leave the common one. */
  function ParentOf(d: Datum, before: Parent): Parent {
    if !d.P? then Chosen(d) else if d.p.Null? then Nowhere else before
  }

  /** The object built by the first k properties; later ones replace earlier ones. */
  ghost function PartsOf(run: Run, file: string, t: Term, k: nat): Option<Parts>
    requires t.Object? && k <= |t.props|
    decreases t, 0, k
  {
    if k == 0 then Some(Parts(map[], Common))
    else
      var m := PartsOf(run, file, t, k - 1);
      if m.None? then None
      else match t.props[k - 1]
        case Named(key, v) =>
          (var d := Eval(run, file, v);
           if d.None? then None
           else if key == PROTO then Some(m.value.(parent := ParentOf(d.value, m.value.parent)))
           else Some(Put(m.value, key, Data(d.value))))
        case Numbered(key, v) =>
          (var d := Eval(run, file, v); if d.None? then None else Some(Put(m.value, key, Data(d.value))))
        case Shorthand(name, id) => Some(Put(m.value, name, Data(run.store(Ref(name, id), M.Named(file, name)))))
        case Accessor(key, id) => Some(Put(m.value, key, Getter(id)))
        case Computed(at, v) =>
          (var key, d := Eval(run, file, at), Eval(run, file, v);
           if key.None? || d.None? || TextOf(run, at, key.value).None? then None
           else Some(Put(m.value, TextOf(run, at, key.value).value, Data(d.value))))
        case Spread(v) =>
          (var d := Eval(run, file, v);
           if d.None? || OwnFields(run, v, d.value).None? then None
           else Some(m.value.(fields := m.value.fields + OwnFields(run, v, d.value).value)))
  }

  function Put(parts: Parts, key: string, field: Field): Parts { parts.(fields := parts.fields[key := field]) }

  ghost function OwnFields(run: Run, now: Term, d: Datum): Option<map<string, Field>> {
    if d.Obj? && (forall key :: key in d.fields ==> d.fields[key].Data?) then Some(d.fields)
    else run.host.fields(now, d)
  }

  ghost function ItemsOf(run: Run, file: string, t: Term, k: nat): Option<seq<Datum>>
    requires t.Array? && k <= |t.elems|
    decreases t, 0, k
  {
    if k == 0 then Some([])
    else
      var s := ItemsOf(run, file, t, k - 1);
      if s.None? then None
      else match t.elems[k - 1]
        case Item(v) => (var d := Eval(run, file, v); if d.None? then None else Some(s.value + [d.value]))
        case Hole => Some(s.value + [UNDEFINED])
        case More(v) =>
          (var d := Eval(run, file, v);
           if d.None? then None
           else if d.value.Arr? then Some(s.value + d.value.items)
           else if run.host.items(v, d.value).None? then None
           else Some(s.value + run.host.items(v, d.value).value))
  }

  ghost function SpansOf(run: Run, file: string, t: Term, k: nat): Option<string>
    requires t.Template? && k <= |t.spans|
    decreases t, 0, k
  {
    if k == 0 then Some(t.head)
    else
      var s, d := SpansOf(run, file, t, k - 1), Eval(run, file, t.spans[k - 1].t);
      if s.None? || d.None? then None
      else
        var text := TextOf(run, t.spans[k - 1].t, d.value);
        if text.None? then None else Some(s.value + text.value + t.spans[k - 1].text)
  }

  // ---------- destructuring ----------

  /** The value an array pattern takes at a position: arrays by index, other things by their iterator. */
  function Nth(run: Run, now: Term, d: Datum, i: nat): Option<Datum> {
    match d
    case Arr(items, _) => Some(if i < |items| then items[i] else UNDEFINED)
    case P(p) => if p.Text? then run.host.nth(now, d, i) else None
    case Thing(_) => run.host.nth(now, d, i)
    case _ => None
  }

  ghost function Pick(run: Run, file: string, now: Term, pattern: Pattern, i: nat, d: Datum): Option<Datum>
    requires !pattern.Bind? && i < |pattern.elements| && pattern.elements[i].Element?
  {
    match pattern.elements[i].key
    case Rest => run.host.rest(now, d, i)
    case Fixed(key) => if pattern.ArrayPattern? then Nth(run, now, d, i) else Get(run, now, d, key)
    case Numeric(key) => if pattern.ArrayPattern? then Nth(run, now, d, i) else Get(run, now, d, key)
    case Evaluated(at) =>
      if pattern.ArrayPattern? then Nth(run, now, d, i) else GetAt(run, now, Some(d), Eval(run, file, at))
  }

  /** A default replaces undefined only. */
  ghost function Filled(run: Run, file: string, fallback: Option<Term>, d: Option<Datum>): Option<Datum> {
    if d == Some(UNDEFINED) && fallback.Some? then Eval(run, file, fallback.value) else d
  }

  ghost function Taken(run: Run, file: string, now: Term, pattern: Pattern, i: nat, d: Datum): Option<Datum>
    requires !pattern.Bind? && i < |pattern.elements| && pattern.elements[i].Element?
  {
    Filled(run, file, pattern.elements[i].fallback, Pick(run, file, now, pattern, i, d))
  }

  /** The name holds this value whenever it is read. */
  ghost predicate Holds(run: Run, k: Key, d: Datum) { forall now :: run.store(now, k) == d }

  /** Destructuring the datum succeeds and gives every name of the pattern its value in the run. */
  ghost predicate Binds(run: Run, file: string, now: Term, pattern: Pattern, d: Datum) {
    if pattern.Bind? then Holds(run, M.Named(file, pattern.name), d)
    else
      forall i :: 0 <= i < |pattern.elements| && pattern.elements[i].Element? ==>
        && Taken(run, file, now, pattern, i, d).Some?
        && Binds(run, file, now, pattern.elements[i].sub, Taken(run, file, now, pattern, i, d).value)
  }

  /** Two keys hold the same value at every moment. */
  ghost predicate Same(run: Run, k: Key, other: Key) { forall now :: run.store(now, k) == run.store(now, other) }
}
