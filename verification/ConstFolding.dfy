/** How the evaluator looks a key up in a literal, and exactly when what it finds is what the running program gets. */
module ConstFolding {
  import opened Naturals
  import opened Options
  import opened ConstTerms
  import M = ModuleState

  // ---------- the search ----------

  datatype Found = Value(t: Term) | Binding(name: string) | Length(n: nat) | Absent | Unknown

  function NameOf(prop: Prop): Option<string> {
    match prop
    case Named(key, _) => Some(key)
    case Shorthand(name, _) => Some(name)
    case Accessor(key, _) => Some(key)
    case _ => None
  }

  /** The first property with this name. */
  function FirstNamed(props: seq<Prop>, key: string): (r: Option<nat>)
    ensures r.Some? ==> r.value < |props| && NameOf(props[r.value]) == Some(key)
    ensures r.Some? ==> forall j :: 0 <= j < r.value ==> NameOf(props[j]) != Some(key)
    ensures r.None? ==> forall j :: 0 <= j < |props| ==> NameOf(props[j]) != Some(key)
  {
    if props == [] then None
    else if NameOf(props[0]) == Some(key) then Some(0)
    else
      var r := FirstNamed(props[1..], key);
      if r.None? then None else Some(r.value + 1)
  }

  predicate Uncertain(props: seq<Prop>) { exists i :: 0 <= i < |props| && (props[i].Spread? || props[i].Computed?) }

  predicate HasMore(elems: seq<Elem>) { exists i :: 0 <= i < |elems| && elems[i].More? }

  /** A text read as a number, where that gives a position. */
  function ToIndex(ops: Ops, key: string): Option<nat> {
    if key == "" then Some(0) else if AllDigits(key) then Some(Naturals.Value(key)) else ops.index(key)
  }

  function FindElem(ops: Ops, elems: seq<Elem>, key: string): Found {
    if HasMore(elems) then Unknown
    else if key == "length" then Length(|elems|)
    else
      var i := ToIndex(ops, key);
      if i.Some? && i.value < |elems| then (if elems[i.value].Item? then Value(elems[i.value].value) else Unknown)
      else if AllDigits(key) then Absent
      else Unknown
  }

  function FindProp(props: seq<Prop>, key: string): Found {
    var i := FirstNamed(props, key);
    if i.None? then (if Uncertain(props) then Unknown else Absent)
    else match props[i.value]
      case Named(_, v) => Value(v)
      case Shorthand(name, _) => Binding(name)
      case _ => Unknown
  }

  function Find(ops: Ops, t: Term, key: string): Found
    requires IsLiteral(t)
  {
    if key == "*" then Unknown
    else if t.Array? then FindElem(ops, t.elems, key)
    else FindProp(t.props, key)
  }

  /** What was found stands for this result of taking the key out of the literal's value. */
  ghost predicate Denotes(run: Run, file: string, found: Found, raw: Option<Datum>) {
    match found
    case Value(t) => raw.Some? && Eval(run, file, t) == raw
    case Binding(name) => raw.Some? && WasRead(run, M.Named(file, name), raw.value)
    case Length(n) => raw == Some(P(M.Num(n)))
    case Absent => raw == Some(UNDEFINED)
    case Unknown => true
  }

  /** The key held this value at some moment. */
  ghost predicate WasRead(run: Run, k: Key, d: Datum) { exists now :: run.store(now, k) == d }

  /**
   * In this run the search is right: if the literal has a value, what was found is what the key gives there whenever
   * it is asked.
   */
  ghost predicate Right(run: Run, file: string, t: Term, key: string)
    requires IsLiteral(t)
  {
    var d := Build(run, file, t);
    d.Some? ==> forall now :: Denotes(run, file, Find(run.ops, t, key), Get(run, now, d.value, key))
  }

  // ---------- the shape of an object literal ----------

  /** A property without its contents; a plainly written prototype is no field, an open one may set any field. */
  datatype Slot = Plain(name: string) | Proto | Short(name: string) | Access(name: string) | Digits(name: string) | Open

  function SlotOf(prop: Prop): Slot {
    match prop
    case Named(key, _) => if key == PROTO then Proto else Plain(key)
    case Numbered(key, _) => Digits(key)
    case Shorthand(name, _) => Short(name)
    case Accessor(key, _) => Access(key)
    case _ => Open
  }

  function SlotsOf(props: seq<Prop>): seq<Slot> {
    seq(|props|, i requires 0 <= i < |props| => SlotOf(props[i]))
  }

  /** The name the search sees. */
  function SearchName(slot: Slot): Option<string> {
    match slot
    case Proto => Some(PROTO)
    case Digits(_) => None
    case Open => None
    case _ => Some(slot.name)
  }

  predicate CanSet(slot: Slot, key: string) { slot.Open? || (!slot.Proto? && slot.name == key) }

  function FirstSlot(slots: seq<Slot>, key: string): (r: Option<nat>)
    ensures r.Some? ==> r.value < |slots| && SearchName(slots[r.value]) == Some(key)
    ensures r.None? ==> forall j :: 0 <= j < |slots| ==> SearchName(slots[j]) != Some(key)
  {
    if slots == [] then None
    else if SearchName(slots[0]) == Some(key) then Some(0)
    else
      var r := FirstSlot(slots[1..], key);
      if r.None? then None else Some(r.value + 1)
  }

  /** The last of the first k slots that can set the key. */
  function LastSetter(slots: seq<Slot>, key: string, k: nat): (r: Option<nat>)
    requires k <= |slots|
    ensures r.Some? ==> r.value < k && CanSet(slots[r.value], key)
    ensures r.Some? ==> forall j :: r.value < j < k ==> !CanSet(slots[j], key)
    ensures r.None? ==> forall j :: 0 <= j < k ==> !CanSet(slots[j], key)
  {
    if k == 0 then None else if CanSet(slots[k - 1], key) then Some(k - 1) else LastSetter(slots, key, k - 1)
  }

  /**
   * The shape settles the key: an accessor comes first and nothing is claimed; or the first plain property is the last
   * that can set the key, or the first and the last are shorthands of the same name; or nothing writes the key and
   * either something open may, or there is no chosen prototype, no numeric property of this name and nothing to
   * inherit.
   */
  predicate Decided(slots: seq<Slot>, key: string) {
    var i, last := FirstSlot(slots, key), LastSetter(slots, key, |slots|);
    || key == "*"
    || (if i.None? then Open in slots || (Proto !in slots && Digits(key) !in slots && !IsInherited(key))
        else (match slots[i.value]
          case Access(_) => true
          case Plain(_) => last == i
          case Short(_) => last.Some? && slots[last.value].Short?
          case _ => false))
  }

  lemma SameName(prop: Prop)
    ensures SearchName(SlotOf(prop)) == NameOf(prop)
  {
  }

  lemma {:induction false} FirstSlotFound(props: seq<Prop>, key: string)
    ensures FirstSlot(SlotsOf(props), key) == FirstNamed(props, key)
  {
    hide SlotOf, SearchName, NameOf;
    if props != [] {
      FirstSlotFound(props[1..], key);
      assert SlotsOf(props)[1..] == SlotsOf(props[1..]) && SlotsOf(props)[0] == SlotOf(props[0]);
      SameName(props[0]);
    }
  }

  lemma OpenIsUncertain(props: seq<Prop>)
    ensures Open in SlotsOf(props) <==> Uncertain(props)
  {
    if Open in SlotsOf(props) {
      var i :| 0 <= i < |props| && SlotsOf(props)[i] == Open;
      assert props[i].Spread? || props[i].Computed?;
    }
    if Uncertain(props) {
      var i :| 0 <= i < |props| && (props[i].Spread? || props[i].Computed?);
      assert SlotsOf(props)[i] == Open;
    }
  }

  // ---------- what the properties make ----------

  /** The field a property sets, other than through something open, holds the property's value. */
  ghost predicate Sets(run: Run, file: string, prop: Prop, field: Field) {
    match prop
    case Named(_, v) => field.Data? && Eval(run, file, v) == Some(field.d)
    case Numbered(_, v) => field.Data? && Eval(run, file, v) == Some(field.d)
    case Shorthand(name, id) => field == Data(run.store(Ref(name, id), M.Named(file, name)))
    case Accessor(_, id) => field == Getter(id)
    case _ => true
  }

  lemma PartsStep(run: Run, file: string, t: Term, k: nat, key: string)
    requires t.Object? && k < |t.props| && PartsOf(run, file, t, k + 1).Some?
    ensures PartsOf(run, file, t, k).Some?
    ensures var m, next, slot := PartsOf(run, file, t, k).value, PartsOf(run, file, t, k + 1).value, SlotOf(t.props[k]);
      && (!CanSet(slot, key) ==>
        (key in next.fields <==> key in m.fields) && (key in m.fields ==> next.fields[key] == m.fields[key]))
      && (CanSet(slot, key) && !slot.Open? ==> key in next.fields && Sets(run, file, t.props[k], next.fields[key]))
      && (!slot.Proto? ==> next.parent == m.parent)
  {
    hide Eval;
  }

  /** The field of a key is what the last property that can set it sets. */
  lemma {:induction false} FieldAt(run: Run, file: string, t: Term, k: nat, key: string)
    requires t.Object? && k <= |t.props| && PartsOf(run, file, t, k).Some?
    ensures var fields, last := PartsOf(run, file, t, k).value.fields, LastSetter(SlotsOf(t.props), key, k);
      && (last.None? ==> key !in fields)
      && (last.Some? && !t.props[last.value].Spread? && !t.props[last.value].Computed? ==>
           key in fields && Sets(run, file, t.props[last.value], fields[key]))
  {
    hide Eval, CanSet;
    if k > 0 {
      PartsStep(run, file, t, k - 1, key);
      FieldAt(run, file, t, k - 1, key);
    }
  }

  lemma {:induction false} ParentAt(run: Run, file: string, t: Term, k: nat)
    requires t.Object? && k <= |t.props| && PartsOf(run, file, t, k).Some?
    requires forall j :: 0 <= j < k ==> SlotOf(t.props[j]) != Proto
    ensures PartsOf(run, file, t, k).value.parent == Common
  {
    if k > 0 {
      PartsStep(run, file, t, k - 1, "");
      ParentAt(run, file, t, k - 1);
    }
  }

  lemma SlotsAre(props: seq<Prop>)
    ensures |SlotsOf(props)| == |props| && forall i :: 0 <= i < |props| ==> SlotsOf(props)[i] == SlotOf(props[i])
  {
  }

  /** A settled key is looked up rightly in every run. */
  lemma DecidedIsRight(run: Run, file: string, t: Term, key: string)
    requires t.Object? && Decided(SlotsOf(t.props), key)
    ensures Right(run, file, t, key)
  {
    hide IsInherited, Eval, PartsOf, SlotsOf, LastSetter, FirstSlot, FirstNamed, Uncertain;
    var slots, n := SlotsOf(t.props), |t.props|;
    SlotsAre(t.props);
    FirstSlotFound(t.props, key);
    OpenIsUncertain(t.props);
    if PartsOf(run, file, t, n).Some? {
      FieldAt(run, file, t, n, key);
      if Proto !in slots {
        assert forall j :: 0 <= j < n ==> SlotOf(t.props[j]) == slots[j] && slots[j] in slots;
        ParentAt(run, file, t, n);
      }
      UnsetIsUnnamed(slots, key);
    }
  }

  /** With no name found, nothing open and no numeric property, nothing can set the key. */
  lemma UnsetIsUnnamed(slots: seq<Slot>, key: string)
    ensures FirstSlot(slots, key).None? && Open !in slots && Digits(key) !in slots ==>
      LastSetter(slots, key, |slots|).None?
    ensures FirstSlot(slots, key).Some? && !slots[FirstSlot(slots, key).value].Proto? ==>
      LastSetter(slots, key, |slots|).Some? && LastSetter(slots, key, |slots|).value >= FirstSlot(slots, key).value
  {
    var last := LastSetter(slots, key, |slots|);
    if last.Some? {
      assert slots[last.value] in slots;
    }
  }

  // ---------- contents that show a wrong answer ----------

  /** Contents for a shape: every value is opaque and known by its place. */
  function Sample(props: seq<Prop>): (r: seq<Prop>)
    ensures SlotsOf(r) == SlotsOf(props)
  {
    var r := seq(|props|, i requires 0 <= i < |props| => SampleProp(props[i], i));
    assert SlotsOf(r) == SlotsOf(props);
    r
  }

  function SampleProp(prop: Prop, i: nat): (r: Prop)
    ensures SlotOf(r) == SlotOf(prop)
  {
    match prop
    case Named(key, _) => Named(key, Opaque(i))
    case Numbered(key, _) => Numbered(key, Opaque(i))
    case Shorthand(name, _) => Shorthand(name, i)
    case Accessor(key, _) => Accessor(key, i)
    case _ => Spread(Opaque(i))
  }

  /** What stands at a place: objects with the key where they could bring it in, else things that differ. */
  function SampleValue(slots: seq<Slot>, key: string, i: nat): Datum {
    if i < |slots| && slots[i].Open? then Obj(map[key := Data(Thing(i))], Common, None)
    else if i < |slots| && slots[i].Proto? then
      (if key == PROTO then P(M.Bool(true)) else Obj(map[key := Data(Thing(i))], Common, None))
    else Thing(i)
  }

  function SampleRun(p: Program, ops: Ops, slots: seq<Slot>, key: string): Run {
    Run(p, ops, SampleHost(slots, key), (now: Term, k: Key) => Thing(-1))
  }

  function SampleHost(slots: seq<Slot>, key: string): Host {
    Host(
      (id: nat) => Some(SampleValue(slots, key, id)), (id: nat) => false, (now: Term, id: nat) => Some(Thing(id)),
      (name: string) => Thing(-2), (name: string) => Thing(-1),
      (now: Term, d: Datum, name: string) => None, (now: Term, d: Datum, i: nat) => None,
      (now: Term, d: Datum, i: nat) => None, (now: Term, d: Datum) => None,
      (now: Term, d: Datum) => None, (now: Term, l: Datum, r: Datum) => None,
      (now: Term, d: Datum) => None, (now: Term, d: Datum) => None)
  }

  /** Reading the field that a place set gives the value of the place. */
  ghost predicate SampleField(run: Run, slots: seq<Slot>, i: nat, field: Field)
    requires i < |slots|
  {
    forall now :: Read(run, now, field) == Some(if slots[i].Short? then Thing(-1) else Thing(i))
  }

  lemma SampleStep(run: Run, slots: seq<Slot>, file: string, t: Term, k: nat, key: string)
    requires t.Object? && k < |t.props| && t.props == Sample(t.props) && slots == SlotsOf(t.props)
    requires run == SampleRun(run.p, run.ops, slots, key) && PartsOf(run, file, t, k).Some?
    ensures PartsOf(run, file, t, k + 1).Some?
    ensures var m, next := PartsOf(run, file, t, k).value, PartsOf(run, file, t, k + 1).value;
      && (CanSet(slots[k], key) ==> key in next.fields && SampleField(run, slots, k, next.fields[key]))
      && (!CanSet(slots[k], key) ==>
        (key in next.fields <==> key in m.fields) && (key in m.fields ==> next.fields[key] == m.fields[key]))
      && next.parent == if !slots[k].Proto? || key == PROTO then m.parent else Chosen(SampleValue(slots, key, k))
  {
    assert t.props[k] == SampleProp(t.props[k], k);
  }

  lemma {:induction false} SampleFields(run: Run, slots: seq<Slot>, file: string, t: Term, k: nat, key: string)
    requires t.Object? && k <= |t.props| && t.props == Sample(t.props) && slots == SlotsOf(t.props)
    requires run == SampleRun(run.p, run.ops, slots, key)
    ensures PartsOf(run, file, t, k).Some?
    ensures var fields, last := PartsOf(run, file, t, k).value.fields, LastSetter(slots, key, k);
      && (last.None? ==> key !in fields)
      && (last.Some? ==> key in fields && SampleField(run, slots, last.value, fields[key]))
  {
    hide CanSet, SampleRun, Sample;
    if k > 0 {
      SampleFields(run, slots, file, t, k - 1, key);
      SampleStep(run, slots, file, t, k - 1, key);
    }
  }

  lemma {:induction false} SampleParent(run: Run, slots: seq<Slot>, file: string, t: Term, k: nat, key: string)
    requires t.Object? && k <= |t.props| && t.props == Sample(t.props) && slots == SlotsOf(t.props)
    requires run == SampleRun(run.p, run.ops, slots, key)
    ensures PartsOf(run, file, t, k).Some?
    ensures var parent := PartsOf(run, file, t, k).value.parent;
      if key == PROTO || Proto !in slots[..k] then parent == Common
      else exists j :: 0 <= j < k && slots[j].Proto? && parent == Chosen(SampleValue(slots, key, j))
  {
    hide CanSet, SampleRun, Sample, SampleValue, LastSetter;
    if k > 0 {
      SampleFields(run, slots, file, t, k - 1, key);
      SampleParent(run, slots, file, t, k - 1, key);
      SampleStep(run, slots, file, t, k - 1, key);
      assert slots[..k] == slots[..k - 1] + [slots[k - 1]];
    }
  }

  /** What the key gives in the sample. */
  lemma SampleGet(run: Run, slots: seq<Slot>, file: string, t: Term, now: Term, key: string)
    requires t.Object? && t.props == Sample(t.props) && slots == SlotsOf(t.props)
    requires run == SampleRun(run.p, run.ops, slots, key)
    ensures Build(run, file, t).Some?
    ensures var raw, last := Get(run, now, Build(run, file, t).value, key), LastSetter(slots, key, |slots|);
      if last.Some? then raw == Some(if slots[last.value].Short? then Thing(-1) else Thing(last.value))
      else if Proto in slots && key != PROTO then raw.Some? && raw.value.Thing?
      else raw == Some(if IsInherited(key) then Thing(-2) else UNDEFINED)
  {
    hide IsInherited, PartsOf, LastSetter, Sample;
    SampleFields(run, slots, file, t, |slots|, key);
    SampleParent(run, slots, file, t, |slots|, key);
    assert slots[..|slots|] == slots;
  }

  lemma ProtoIsInherited()
    ensures IsInherited(PROTO)
  {
  }

  lemma UndecidedIsWrong(p: Program, ops: Ops, file: string, id: nat, props: seq<Prop>, key: string)
    requires !Decided(SlotsOf(props), key)
    ensures !Right(SampleRun(p, ops, SlotsOf(props), key), file, Object(id, Sample(props)), key)
  {
    hide IsInherited, Build, Get, Sample, LastSetter, FirstNamed, FirstSlot, Uncertain, SlotsOf;
    SlotsAre(props);
    var slots, t := SlotsOf(props), Object(id, Sample(props));
    var run := SampleRun(p, ops, slots, key);
    SampleTwice(props);
    SampleGet(run, slots, file, t, t, key);
    FirstSlotFound(t.props, key);
    OpenIsUncertain(t.props);
    UnsetIsUnnamed(slots, key);
    ProtoIsInherited();
    var i := FirstSlot(slots, key);
    if i.Some? {
      SampleAt(props, i.value);
    } else if Digits(key) in slots {
      DigitsSet(slots, key);
    }
  }

  lemma SampleTwice(props: seq<Prop>)
    ensures Sample(Sample(props)) == Sample(props)
  {
  }

  lemma SampleAt(props: seq<Prop>, i: nat)
    requires i < |props|
    ensures |Sample(props)| == |props| && Sample(props)[i] == SampleProp(props[i], i)
  {
  }

  lemma DigitsSet(slots: seq<Slot>, key: string)
    requires Digits(key) in slots
    ensures LastSetter(slots, key, |slots|).Some?
  {
    var j :| 0 <= j < |slots| && slots[j] == Digits(key);
    assert CanSet(slots[j], key);
  }

  /**
   * For an object literal of any shape, the evaluator's search for a key is right for all contents and all runs if and
   * only if the shape settles the key.
   */
  lemma ObjectLookupExact(props: seq<Prop>, key: string)
    ensures (forall run, file, id, other :: SlotsOf(other) == SlotsOf(props) ==>
      Right(run, file, Object(id, other), key))
        <==> Decided(SlotsOf(props), key)
  {
    hide Right, Decided, SlotsOf, Sample;
    if Decided(SlotsOf(props), key) {
      forall run, file, id, other | SlotsOf(other) == SlotsOf(props) ensures Right(run, file, Object(id, other), key) {
        DecidedIsRight(run, file, Object(id, other), key);
      }
    } else {
      var p, ops := Program(map[], map[], map[]), SomeOps();
      UndecidedIsWrong(p, ops, "", 0, props, key);
      SampleShape(props);
    }
  }

  lemma SampleShape(props: seq<Prop>)
    ensures SlotsOf(Sample(props)) == SlotsOf(props)
  {
  }

  function SomeOps(): Ops {
    Ops((op: UnaryOp, p: Prim) => None, (op: string, p: Prim, q: Prim) => None, (p: Prim) => "", (p: Prim) => true,
        (key: string) => None)
  }

  // ---------- arrays ----------

  predicate SameElems(elems: seq<Elem>, other: seq<Elem>) {
    |elems| == |other| && forall i :: 0 <= i < |elems| ==>
      elems[i].Hole? == other[i].Hole? && elems[i].More? == other[i].More?
  }

  /** The position that is read, if an element stands there, is the one the key names. */
  predicate Canonical(ops: Ops, elems: seq<Elem>, key: string) {
    || key == "*" || key == "length" || HasMore(elems)
    || (var i := ToIndex(ops, key); i.Some? && i.value < |elems| && elems[i.value].Item? ==> key == Decimal(i.value))
  }

  lemma {:induction false} ItemsHold(run: Run, file: string, t: Term, k: nat)
    requires t.Array? && k <= |t.elems| && !HasMore(t.elems) && ItemsOf(run, file, t, k).Some?
    ensures var s := ItemsOf(run, file, t, k).value;
      && |s| == k
      && (forall i :: 0 <= i < k && t.elems[i].Item? ==> Eval(run, file, t.elems[i].value) == Some(s[i]))
      && (forall i :: 0 <= i < k && t.elems[i].Hole? ==> s[i] == UNDEFINED)
  {
    hide Eval;
    if k > 0 {
      ItemsHold(run, file, t, k - 1);
      assert !t.elems[k - 1].More?;
    }
  }

  lemma CanonicalIsIndex(ops: Ops, key: string, n: nat)
    ensures var i := ToIndex(ops, key);
      && (i.Some? && i.value < n && key == Decimal(i.value) ==> IsIndex(key, n) && Naturals.Value(key) == i.value)
      && (IsIndex(key, n) ==> i == Some(Naturals.Value(key)) && key == Decimal(i.value))
  {
    hide Decimal;
    if ToIndex(ops, key).Some? {
      ValueDecimal(ToIndex(ops, key).value);
    }
  }

  lemma CanonicalIsRight(run: Run, file: string, t: Term, key: string)
    requires t.Array? && Canonical(run.ops, t.elems, key)
    ensures Right(run, file, t, key)
  {
    hide Decimal, Naturals.Value, Eval, ItemsOf;
    if key != "*" && !HasMore(t.elems) && ItemsOf(run, file, t, |t.elems|).Some? {
      ItemsHold(run, file, t, |t.elems|);
      CanonicalIsIndex(run.ops, key, |t.elems|);
    }
  }

  function SampleElems(elems: seq<Elem>): (r: seq<Elem>)
    ensures SameElems(elems, r) && forall i :: 0 <= i < |elems| && elems[i].Item? ==> r[i] == Item(Opaque(i))
  {
    seq(|elems|, i requires 0 <= i < |elems| => if elems[i].Item? then Item(Opaque(i)) else elems[i])
  }

  lemma {:induction false} SampleItems(run: Run, file: string, t: Term, k: nat)
    requires t.Array? && k <= |t.elems| && !HasMore(t.elems) && run == SampleRun(run.p, run.ops, [], "")
    requires forall i :: 0 <= i < |t.elems| && t.elems[i].Item? ==> t.elems[i] == Item(Opaque(i))
    ensures ItemsOf(run, file, t, k).Some?
  {
    if k > 0 {
      SampleItems(run, file, t, k - 1);
      assert !t.elems[k - 1].More?;
    }
  }

  lemma OddKeyIsWrong(p: Program, ops: Ops, file: string, id: nat, elems: seq<Elem>, key: string)
    requires !Canonical(ops, elems, key)
    ensures !Right(SampleRun(p, ops, [], ""), file, Array(id, SampleElems(elems)), key)
  {
    hide Decimal, Naturals.Value, ItemsOf, SampleElems;
    var run, t := SampleRun(p, ops, [], ""), Array(id, SampleElems(elems));
    NoMore(elems, SampleElems(elems));
    SampleItems(run, file, t, |t.elems|);
    ItemsHold(run, file, t, |t.elems|);
    CanonicalIsIndex(ops, key, |elems|);
    assert !Denotes(run, file, Find(ops, t, key), Get(run, t, Build(run, file, t).value, key));
  }

  lemma NoMore(elems: seq<Elem>, other: seq<Elem>)
    requires SameElems(elems, other)
    ensures HasMore(elems) <==> HasMore(other)
  {
    if i :| 0 <= i < |elems| && elems[i].More? {
      assert other[i].More?;
    }
    if i :| 0 <= i < |other| && other[i].More? {
      assert elems[i].More?;
    }
  }

  /**
   * An array lookup is right for all contents and all runs if and only if the key writes the position read
   * canonically.
   */
  lemma ArrayLookupExact(ops: Ops, elems: seq<Elem>, key: string)
    ensures (forall run: Run, file, id, other :: run.ops == ops && SameElems(elems, other) ==>
      Right(run, file, Array(id, other), key))
        <==> Canonical(ops, elems, key)
  {
    hide Right, ToIndex, Decimal, SampleElems;
    if Canonical(ops, elems, key) {
      forall run: Run, file, id, other | run.ops == ops && SameElems(elems, other)
        ensures Right(run, file, Array(id, other), key)
      {
        NoMore(elems, other);
        CanonicalIsRight(run, file, Array(id, other), key);
      }
    } else {
      var p := Program(map[], map[], map[]);
      OddKeyIsWrong(p, ops, "", 0, elems, key);
      assert SampleRun(p, ops, [], "").ops == ops;
    }
  }

  // ---------- literals inside literals ----------

  /** The key is one whose lookup in the literal is right. */
  predicate Settles(ops: Ops, t: Term, key: string)
    requires IsLiteral(t)
  {
    if t.Object? then Decided(SlotsOf(t.props), key) else Canonical(ops, t.elems, key)
  }

  lemma SettledIsRight(run: Run, file: string, t: Term, key: string)
    requires IsLiteral(t) && Settles(run.ops, t, key)
    ensures Right(run, file, t, key)
  {
    hide Right, Decided, Canonical;
    if t.Object? {
      DecidedIsRight(run, file, t, key);
    } else {
      CanonicalIsRight(run, file, t, key);
    }
  }

  predicate SameShape(t: Term, other: Term) {
    || (t.Object? && other.Object? && SlotsOf(t.props) == SlotsOf(other.props))
    || (t.Array? && other.Array? && SameElems(t.elems, other.elems))
  }

  /** What the evaluator takes a term in a literal to stand for: an inner literal for what its text says. */
  ghost function TextSays(run: Run, file: string, v: Term): Option<Datum> {
    if IsLiteral(v) then Build(run, file, v) else Eval(run, file, v)
  }

  /** If the literal has a value, its key gives what the text of the term found there says. */
  ghost predicate Keeps(run: Run, file: string, t: Term, key: string, v: Term)
    requires IsLiteral(t)
  {
    var d := Build(run, file, t);
    d.Some? ==> forall now :: Get(run, now, d.value, key) == TextSays(run, file, v)
  }

  /** A run that writes to everything and never throws. */
  function WritingRun(ops: Ops): Run {
    Run(Program(map[], map[], map[]), ops, WritingHost(), (now: Term, k: Key) => Thing(0))
  }

  function WritingHost(): Host {
    Host(
      (id: nat) => Some(Thing(0)), (id: nat) => true, (now: Term, id: nat) => Some(Thing(0)),
      (name: string) => Thing(0), (name: string) => Thing(0),
      (now: Term, d: Datum, name: string) => Some(Thing(0)), (now: Term, d: Datum, i: nat) => Some(Thing(0)),
      (now: Term, d: Datum, i: nat) => Some(Thing(0)), (now: Term, d: Datum) => Some(""),
      (now: Term, d: Datum) => Some(Thing(0)), (now: Term, l: Datum, r: Datum) => Some(Thing(0)),
      (now: Term, d: Datum) => Some(map[]), (now: Term, d: Datum) => Some([]))
  }

  /** The literal with every content opaque but the inner literal at one place. */
  function Around(t: Term, i: nat, v: Term): (r: Term)
    requires IsLiteral(t) && i < if t.Object? then |t.props| else |t.elems|
    requires if t.Object? then t.props[i].Named? && t.props[i].value == v else t.elems[i] == Item(v)
    ensures SameShape(t, r)
  {
    if t.Object? then
      var r := Sample(t.props)[i := t.props[i]];
      assert SlotsOf(r) == SlotsOf(t.props);
      Object(t.id, r)
    else Array(t.id, SampleElems(t.elems)[i := t.elems[i]])
  }

  lemma {:induction false} PropsBuilt(ops: Ops, file: string, t: Term, k: nat)
    requires t.Object? && k <= |t.props|
    requires forall j :: 0 <= j < |t.props| ==> match t.props[j]
      case Named(_, v) => IsLiteral(v) || v.Opaque?
      case Numbered(_, v) => v.Opaque?
      case Spread(v) => v.Opaque?
      case Computed(_, _) => false
      case _ => true
    ensures PartsOf(WritingRun(ops), file, t, k).Some?
  {
    if k > 0 {
      PropsBuilt(ops, file, t, k - 1);
    }
  }

  lemma {:induction false} ElemsBuilt(ops: Ops, file: string, t: Term, k: nat)
    requires t.Array? && k <= |t.elems|
    requires forall j :: 0 <= j < |t.elems| && t.elems[j].Item? ==>
      IsLiteral(t.elems[j].value) || t.elems[j].value.Opaque?
    requires !HasMore(t.elems)
    ensures ItemsOf(WritingRun(ops), file, t, k).Some?
  {
    if k > 0 {
      ElemsBuilt(ops, file, t, k - 1);
      assert !t.elems[k - 1].More?;
    }
  }

  lemma AroundIsBuilt(ops: Ops, file: string, t: Term, i: nat, v: Term)
    requires IsLiteral(t) && IsLiteral(v) && i < if t.Object? then |t.props| else |t.elems|
    requires if t.Object? then t.props[i].Named? && t.props[i].value == v
             else t.elems[i] == Item(v) && !HasMore(t.elems)
    ensures Build(WritingRun(ops), file, Around(t, i, v)).Some?
  {
    hide PartsOf, ItemsOf, WritingRun;
    var other := Around(t, i, v);
    if t.Object? {
      forall j | 0 <= j < |t.props| && j != i ensures other.props[j] == SampleProp(t.props[j], j) {
        SampleAt(t.props, j);
      }
      PropsBuilt(ops, file, other, |other.props|);
    } else {
      NoMore(t.elems, other.elems);
      ElemsBuilt(ops, file, other, |other.elems|);
    }
  }

  lemma AroundIsFound(ops: Ops, t: Term, i: nat, v: Term, key: string)
    requires IsLiteral(t) && i < if t.Object? then |t.props| else |t.elems|
    requires if t.Object? then t.props[i].Named? && t.props[i].value == v else t.elems[i] == Item(v)
    requires Find(ops, t, key) == Value(v)
    requires if t.Object? then FirstNamed(t.props, key) == Some(i) else ToIndex(ops, key) == Some(i)
    ensures Find(ops, Around(t, i, v), key) == Value(v)
  {
    hide ToIndex, FirstNamed, Sample, SlotsOf;
    var other := Around(t, i, v);
    if t.Object? {
      FirstSlotFound(t.props, key);
      FirstSlotFound(other.props, key);
      SampleAt(t.props, i);
      assert other.props[i] == t.props[i] && SlotsOf(other.props) == SlotsOf(t.props);
    } else {
      NoMore(t.elems, other.elems);
    }
  }

  lemma SettledByShape(ops: Ops, t: Term, other: Term, key: string)
    requires IsLiteral(t) && SameShape(t, other) && Settles(ops, t, key)
    ensures IsLiteral(other) && Settles(ops, other, key)
  {
    if t.Array? {
      NoMore(t.elems, other.elems);
    }
  }

  /** In the run that writes everywhere the inner literal is not what its text says. */
  lemma InnerIsWritten(ops: Ops, file: string, t: Term, i: nat, v: Term, key: string)
    requires IsLiteral(t) && IsLiteral(v) && i < if t.Object? then |t.props| else |t.elems|
    requires if t.Object? then t.props[i].Named? && t.props[i].value == v else t.elems[i] == Item(v)
    requires Settles(ops, t, key) && Find(ops, Around(t, i, v), key) == Value(v)
    requires Build(WritingRun(ops), file, Around(t, i, v)).Some?
    ensures !Keeps(WritingRun(ops), file, Around(t, i, v), key, v)
  {
    hide Settles, Around, Find, Get, PartsOf, ItemsOf;
    var run, other := WritingRun(ops), Around(t, i, v);
    SettledByShape(ops, t, other, key);
    SettledIsRight(run, file, other, key);
    assert Eval(run, file, v) == Some(Thing(0));
    assert Get(run, v, Build(run, file, other).value, key) == Some(Thing(0)) != TextSays(run, file, v);
  }

  /**
   * Whatever a program writes, a settled key of a literal gives what the text found there says, for all contents
   * around it, if and only if that text is not itself an unfrozen literal.
   */
  lemma InnerLiteralExact(ops: Ops, file: string, t: Term, key: string, v: Term)
    requires IsLiteral(t) && Settles(ops, t, key) && Find(ops, t, key) == Value(v)
    ensures (forall run: Run, other ::
               run.ops == ops && SameShape(t, other) && Find(ops, other, key) == Value(v) ==>
               Keeps(run, file, other, key, v))
        <==> !IsLiteral(v)
  {
    hide Settles, ToIndex, Build, Around, Eval, SlotsOf;
    if IsLiteral(v) {
      var i := if t.Object? then FirstNamed(t.props, key).value else ToIndex(ops, key).value;
      AroundIsBuilt(ops, file, t, i, v);
      AroundIsFound(ops, t, i, v, key);
      InnerIsWritten(ops, file, t, i, v, key);
      assert WritingRun(ops).ops == ops;
    } else {
      forall run: Run, other | run.ops == ops && SameShape(t, other) && Find(ops, other, key) == Value(v)
        ensures Keeps(run, file, other, key, v)
      {
        SettledByShape(ops, t, other, key);
        SettledIsRight(run, file, other, key);
      }
    }
  }
}
