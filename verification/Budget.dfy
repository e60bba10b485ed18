/**
 * The daily budget of language-model calls for web visitors: reservations in memory, a delayed copy on disk,
 * restarts.
 */
module Budget {
  import opened Options
  import opened Sequences

  /** One day's count; the day is a number of days. */
  datatype Tally = Tally(day: int, calls: nat, perSession: map<string, nat>)

  datatype Entry = Entry(tally: Tally, timer: bool)

  /** The memory of the process, empty after a restart, and the file it writes. */
  datatype World = World(entry: Option<Entry>, file: Option<Tally>)

  /** A cap of zero means no limit. */
  datatype Caps = Caps(daily: nat, session: nat)

  function Fresh(day: int): Tally { Tally(day, 0, map[]) }

  function CallsOf(perSession: map<string, nat>, session: string): nat {
    if session in perSession then perSession[session] else 0
  }

  function Loaded(file: Option<Tally>, today: int): Tally {
    if file.Some? && file.value.day == today then file.value else Fresh(today)
  }

  /** The entry in memory for today: read from the file after a restart, reset on another day. */
  function Current(w: World, today: int): Entry {
    var entry := if w.entry.Some? then w.entry.value else Entry(Loaded(w.file, today), false);
    if entry.tally.day != today then entry.(tally := Fresh(today)) else entry
  }

  predicate Grants(caps: Caps, t: Tally, session: string) {
    && (caps.session == 0 || CallsOf(t.perSession, session) < caps.session)
    && (caps.daily == 0 || t.calls < caps.daily)
  }

  function Counted(t: Tally, session: string): Tally {
    Tally(t.day, t.calls + 1, t.perSession[session := CallsOf(t.perSession, session) + 1])
  }

  /**
   * What can happen: a visitor's message, a look at the status, the timer with or without a successful write, a
   * restart.
   */
  datatype Event = Reserve(session: string, today: int) | Status(today: int) | Fire(written: bool) | Restart

  predicate Granted(caps: Caps, w: World, e: Event) {
    e.Reserve? && Grants(caps, Current(w, e.today).tally, e.session)
  }

  predicate TimerPending(w: World) { w.entry.Some? && w.entry.value.timer }

  function Step(caps: Caps, w: World, e: Event): World {
    match e
    case Reserve(session, today) =>
      var entry := Current(w, today);
      w.(entry := Some(if Granted(caps, w, e) then Entry(Counted(entry.tally, session), true) else entry))
    case Status(today) => w.(entry := Some(Current(w, today)))
    case Fire(written) =>
      if !TimerPending(w) then w
      else
        World(Some(w.entry.value.(timer := false)), if written then Some(w.entry.value.tally) else w.file)
    case Restart => w.(entry := None)
  }

  class Host {
    const caps: Caps
    var entry: Option<Entry>
    var file: Option<Tally>

    constructor (caps: Caps, file: Option<Tally>)
      ensures this.caps == caps && Now() == World(None, file)
    {
      this.caps, this.file := caps, file;
      entry := None;
    }

    function Now(): World reads this { World(entry, file) }

    method HostBudget(today: int) returns (e: Entry)
      modifies this
      ensures e == Current(old(Now()), today) && Now() == Step(caps, old(Now()), Status(today))
    {
      if entry.None? {
        var tally := Fresh(today);
        if file.Some? && file.value.day == today {
          tally := file.value;
        }
        entry := Some(Entry(tally, false));
      }
      if entry.value.tally.day != today {
        entry := Some(Entry(Fresh(today), entry.value.timer));
      }
      e := entry.value;
    }

    method TryReserve(session: string, today: int) returns (granted: bool)
      modifies this
      ensures granted == Granted(caps, old(Now()), Reserve(session, today))
      ensures Now() == Step(caps, old(Now()), Reserve(session, today))
    {
      var e := HostBudget(today);
      var t := e.tally;
      if caps.session != 0 && CallsOf(t.perSession, session) >= caps.session {
        return false;
      }
      if caps.daily != 0 && t.calls >= caps.daily {
        return false;
      }
      entry := Some(Entry(Tally(t.day, t.calls + 1, t.perSession[session := CallsOf(t.perSession, session) + 1]),
        e.timer));
      Persist();
      return true;
    }

    /** A pending timer is left alone. */
    method Persist()
      requires entry.Some?
      modifies this
      ensures entry == Some(old(entry).value.(timer := true)) && file == old(file)
    {
      if entry.value.timer {
        return;
      }
      entry := Some(entry.value.(timer := true));
    }

    method FireTimer(written: bool)
      requires TimerPending(Now())
      modifies this
      ensures Now() == Step(caps, old(Now()), Fire(written))
    {
      entry := Some(entry.value.(timer := false));
      if written {
        file := Some(entry.value.tally);
      }
    }
  }

  // ---------- the sum over sessions ----------

  ghost function Total(m: map<string, nat>): nat
    decreases |m|
  {
    if m == map[] then 0
    else
      var k :| k in m;
      m[k] + Total(m - {k})
  }

  lemma {:induction false} TotalWithout(m: map<string, nat>, k: string)
    requires k in m
    ensures Total(m) == m[k] + Total(m - {k})
    decreases |m|
  {
    var first :| first in m && Total(m) == m[first] + Total(m - {first});
    if first != k {
      TotalWithout(m - {first}, k);
      TotalWithout(m - {k}, first);
      assert m - {first} - {k} == m - {k} - {first};
    }
  }

  lemma TotalCounted(m: map<string, nat>, session: string)
    ensures Total(m[session := CallsOf(m, session) + 1]) == Total(m) + 1
  {
    var next := m[session := CallsOf(m, session) + 1];
    TotalWithout(next, session);
    if session in m {
      TotalWithout(m, session);
      assert next - {session} == m - {session};
    } else {
      assert next - {session} == m;
    }
  }

  // ---------- what every step keeps ----------

  /** The calls are the sum over sessions and no cap in force is exceeded. */
  ghost predicate Sound(caps: Caps, t: Tally) {
    && t.calls == Total(t.perSession)
    && (caps.daily != 0 ==> t.calls <= caps.daily)
    && (caps.session != 0 ==> forall s :: CallsOf(t.perSession, s) <= caps.session)
  }

  /** One tally counts no more than the other, session by session. */
  ghost predicate AtMost(t: Tally, u: Tally) {
    t.calls <= u.calls && forall s :: CallsOf(t.perSession, s) <= CallsOf(u.perSession, s)
  }

  /** The file is no newer than memory and an earlier state of the same day. */
  ghost predicate FileBehind(w: World) {
    w.entry.Some? && w.file.Some? ==>
      && w.file.value.day <= w.entry.value.tally.day
      && (w.file.value.day == w.entry.value.tally.day ==> AtMost(w.file.value, w.entry.value.tally))
  }

  /** Counted calls that are not in the file have a timer running for them. */
  ghost predicate FlushComes(w: World) {
    w.entry.Some? ==> TimerPending(w) || w.entry.value.tally.calls == 0 || w.file == Some(w.entry.value.tally)
  }

  ghost predicate Good(caps: Caps, w: World) {
    && (w.entry.Some? ==> Sound(caps, w.entry.value.tally))
    && (w.file.Some? ==> Sound(caps, w.file.value))
    && FileBehind(w)
  }

  /** The latest day the process or the file knows of does not lie after the given one. */
  predicate NotAfter(w: World, today: int) {
    (w.entry.Some? ==> w.entry.value.tally.day <= today) && (w.file.Some? ==> w.file.value.day <= today)
  }

  /** The day an event happens on; the timer and a restart do not look at the clock. */
  function DayOf(e: Event, day: int): int {
    match e
    case Reserve(_, today) => today
    case Status(today) => today
    case _ => day
  }

  lemma FreshIsSound(caps: Caps, day: int)
    ensures Sound(caps, Fresh(day))
  {
  }

  lemma CurrentIsGood(caps: Caps, w: World, today: int)
    requires Good(caps, w) && NotAfter(w, today)
    ensures Sound(caps, Current(w, today).tally) && Good(caps, w.(entry := Some(Current(w, today))))
    ensures Current(w, today).tally.day == today
  {
    hide Sound;
    FreshIsSound(caps, today);
  }

  lemma CountedIsSound(caps: Caps, t: Tally, session: string)
    requires Sound(caps, t) && Grants(caps, t, session)
    ensures Sound(caps, Counted(t, session)) && AtMost(t, Counted(t, session))
  {
    TotalCounted(t.perSession, session);
    forall s
      ensures CallsOf(Counted(t, session).perSession, s) == CallsOf(t.perSession, s) + if s == session then 1 else 0
    {
    }
  }

  lemma StepKeepsGood(caps: Caps, w: World, day: int, e: Event)
    requires Good(caps, w) && NotAfter(w, day) && day <= DayOf(e, day)
    ensures Good(caps, Step(caps, w, e)) && NotAfter(Step(caps, w, e), DayOf(e, day))
  {
    hide Sound, Counted, Grants, Current, AtMost;
    match e {
      case Reserve(session, today) =>
        CurrentIsGood(caps, w, today);
        var entry := Current(w, today);
        if Granted(caps, w, e) {
          CountedIsSound(caps, entry.tally, session);
          if w.file.Some? && w.file.value.day == today {
            AtMostTrans(w.file.value, entry.tally, Counted(entry.tally, session));
          }
          CountedDay(entry.tally, session);
        }
      case Status(today) =>
        CurrentIsGood(caps, w, today);
      case Fire(written) =>
        if TimerPending(w) {
          AtMostItself(w.entry.value.tally);
        }
      case Restart =>
    }
  }

  lemma CountedDay(t: Tally, session: string)
    ensures Counted(t, session).day == t.day
  {
  }

  lemma AtMostTrans(t: Tally, u: Tally, v: Tally)
    requires AtMost(t, u) && AtMost(u, v)
    ensures AtMost(t, v)
  {
  }

  lemma AtMostItself(t: Tally)
    ensures AtMost(t, t)
  {
  }

  lemma StepKeepsFlush(caps: Caps, w: World, e: Event)
    requires FlushComes(w) && e != Fire(false)
    ensures FlushComes(Step(caps, w, e))
  {
    hide Counted, Grants;
  }

  // ---------- runs ----------

  function Run(caps: Caps, start: World, events: seq<Event>): World {
    if events == [] then start
    else Step(caps, Run(caps, start, events[..|events| - 1]), events[|events| - 1])
  }

  function LastDay(day: int, events: seq<Event>): int {
    if events == [] then day else DayOf(events[|events| - 1], LastDay(day, events[..|events| - 1]))
  }

  /** The clock starts on the given day or later and never goes back. */
  ghost predicate OnTime(day: int, events: seq<Event>) {
    events == [] ||
    (var front, e := events[..|events| - 1], events[|events| - 1];
     OnTime(day, front) && LastDay(day, front) <= DayOf(e, LastDay(day, front)))
  }

  /** A process that starts with no file, or with one that such a process wrote, not dated in the future. */
  ghost predicate Start(caps: Caps, w: World, day: int) {
    w.entry.None? && (w.file.Some? ==> Sound(caps, w.file.value) && w.file.value.day <= day)
  }

  /**
   * In every run, memory and file agree with their sums, respect the caps, and the file is an earlier state of its
   * day.
   */
  lemma {:induction false} ReservationsAreSafe(caps: Caps, start: World, day: int, events: seq<Event>)
    requires Start(caps, start, day) && OnTime(day, events)
    ensures Good(caps, Run(caps, start, events)) && NotAfter(Run(caps, start, events), LastDay(day, events))
  {
    hide Sound, Step, DayOf;
    if events != [] {
      var front := events[..|events| - 1];
      ReservationsAreSafe(caps, start, day, front);
      StepKeepsGood(caps, Run(caps, start, front), LastDay(day, front), events[|events| - 1]);
    }
  }

  /** As long as writes succeed, a timer runs whenever a reservation is not in the file. */
  lemma {:induction false} FlushIsPending(caps: Caps, start: World, events: seq<Event>)
    requires start.entry.None? && Fire(false) !in events
    ensures FlushComes(Run(caps, start, events))
  {
    hide Step;
    if events != [] {
      FlushIsPending(caps, start, events[..|events| - 1]);
      StepKeepsFlush(caps, Run(caps, start, events[..|events| - 1]), events[|events| - 1]);
    }
  }

  // ---------- what was really spent ----------

  /**
   * For the current day: what the file held at the start, the sessions granted a call since, those not yet in a copy on
   * disk, and those forgotten by restarts.
   */
  datatype Books = Books(day: int, opening: Tally, spent: seq<string>, unflushed: seq<string>, lost: seq<string>)

  function Opened(file: Option<Tally>, day: int): Books { Books(day, Loaded(file, day), [], [], []) }

  function Turned(b: Books, today: int): Books { if today != b.day then Books(today, Fresh(today), [], [], []) else b }

  function Record(caps: Caps, w: World, b: Books, e: Event): Books {
    var books := Turned(b, DayOf(e, b.day));
    match e
    case Reserve(session, _) =>
      if Granted(caps, w, e) then books.(spent := books.spent + [session], unflushed := books.unflushed + [session])
      else books
    case Status(_) => books
    case Fire(written) => if written && TimerPending(w) then books.(unflushed := []) else books
    case Restart => books.(lost := books.lost + books.unflushed, unflushed := [])
  }

  function RecordAll(caps: Caps, start: World, day: int, events: seq<Event>): Books {
    if events == [] then Opened(start.file, day)
    else
      var front, e := events[..|events| - 1], events[|events| - 1];
      Record(caps, Run(caps, start, front), RecordAll(caps, start, day, front), e)
  }

  function Occurrences(list: seq<string>, s: string): nat {
    if list == [] then 0 else Occurrences(list[..|list| - 1], s) + if list[|list| - 1] == s then 1 else 0
  }

  lemma {:induction false} OccurrencesConcat(a: seq<string>, b: seq<string>, s: string)
    ensures Occurrences(a + b, s) == Occurrences(a, s) + Occurrences(b, s)
  {
    if b == [] {
      assert a + b == a;
    } else {
      assert (a + b)[..|a + b| - 1] == a + b[..|b| - 1];
      OccurrencesConcat(a, b[..|b| - 1], s);
    }
  }

  lemma OccurrencesSnoc(a: seq<string>, x: string, s: string)
    ensures Occurrences(a + [x], s) == Occurrences(a, s) + if x == s then 1 else 0
  {
    assert (a + [x])[..|a|] == a;
  }

  /** The tally in force on the given day: memory if there is any, else what a restart would read. */
  function InForce(w: World, day: int): Tally { Current(w, day).tally }

  /** Tally t counts the calls of tally u and those of the list, in all and session by session. */
  ghost predicate Adds(t: Tally, u: Tally, list: seq<string>) {
    t.calls == u.calls + |list| && forall s ::
      CallsOf(t.perSession, s) == CallsOf(u.perSession, s) + Occurrences(list, s)
  }

  /** The opening and the spent calls are the counted ones and the lost ones. */
  ghost predicate Accounts(t: Tally, b: Books) {
    && b.opening.calls + |b.spent| == t.calls + |b.lost|
    && forall s ::
         CallsOf(b.opening.perSession, s) + Occurrences(b.spent, s) == CallsOf(t.perSession, s) + Occurrences(b.lost, s)
  }

  ghost predicate Balanced(w: World, b: Books) {
    && NotAfter(w, b.day) && (w.entry.Some? ==> w.entry.value.tally.day == b.day)
    && Accounts(InForce(w, b.day), b)
    && Adds(InForce(w, b.day), Loaded(w.file, b.day), b.unflushed)
  }

  lemma NewDayBalances(w: World, b: Books, today: int)
    requires Balanced(w, b) && b.day <= today
    ensures Accounts(InForce(w, today), Turned(b, today))
    ensures Adds(InForce(w, today), Loaded(w.file, today), Turned(b, today).unflushed)
    ensures NotAfter(w, today)
  {
  }

  lemma CountingBalances(t: Tally, u: Tally, b: Books, session: string)
    requires Accounts(t, b) && Adds(t, u, b.unflushed)
    ensures Accounts(Counted(t, session), b.(spent := b.spent + [session]))
    ensures Adds(Counted(t, session), u, b.unflushed + [session])
  {
    forall s ensures Occurrences(b.spent + [session], s) == Occurrences(b.spent, s) + if session == s then 1 else 0 {
      OccurrencesSnoc(b.spent, session, s);
    }
    forall s
      ensures Occurrences(b.unflushed + [session], s) == Occurrences(b.unflushed, s) + if session == s then 1 else 0
    {
      OccurrencesSnoc(b.unflushed, session, s);
    }
  }

  lemma NothingAdded(t: Tally)
    ensures Adds(t, t, [])
  {
  }

  /** A restart falls back to the file: exactly the calls since the last copy are lost. */
  lemma LosingBalances(t: Tally, u: Tally, b: Books)
    requires Accounts(t, b) && Adds(t, u, b.unflushed)
    ensures Accounts(u, b.(lost := b.lost + b.unflushed, unflushed := []))
  {
    forall s ensures Occurrences(b.lost + b.unflushed, s) == Occurrences(b.lost, s) + Occurrences(b.unflushed, s) {
      OccurrencesConcat(b.lost, b.unflushed, s);
    }
  }

  lemma InForceAfter(caps: Caps, w: World, today: int, session: string)
    ensures var entry := Current(w, today);
      && InForce(w.(entry := Some(entry)), today) == entry.tally
      && InForce(w.(entry := Some(Entry(Counted(entry.tally, session), true))), today) == Counted(entry.tally, session)
      && entry.tally.day == today && Counted(entry.tally, session).day == today
  {
  }

  lemma StepBalances(caps: Caps, w: World, b: Books, e: Event)
    requires Balanced(w, b) && b.day <= DayOf(e, b.day)
    ensures Balanced(Step(caps, w, e), Record(caps, w, b, e))
  {
    hide Accounts, Adds, Counted, Grants;
    match e {
      case Reserve(session, today) =>
        NewDayBalances(w, b, today);
        InForceAfter(caps, w, today, session);
        CountingBalances(InForce(w, today), Loaded(w.file, today), Turned(b, today), session);
        AccountsIgnores(Counted(InForce(w, today), session), Turned(b, today), session);
      case Status(today) =>
        NewDayBalances(w, b, today);
        InForceAfter(caps, w, today, "");
      case Fire(written) =>
        NothingAdded(InForce(w, b.day));
        AccountsKeeps(InForce(w, b.day), b);
      case Restart =>
        LosingBalances(InForce(w, b.day), Loaded(w.file, b.day), b);
        NothingAdded(Loaded(w.file, b.day));
    }
  }

  lemma AccountsIgnores(t: Tally, b: Books, session: string)
    requires Accounts(t, b.(spent := b.spent + [session]))
    ensures Accounts(t, b.(spent := b.spent + [session], unflushed := b.unflushed + [session]))
  {
  }

  lemma AccountsKeeps(t: Tally, b: Books)
    requires Accounts(t, b)
    ensures Accounts(t, b.(unflushed := []))
  {
  }

  lemma StartBalances(start: World, day: int)
    requires start.entry.None? && (start.file.Some? ==> start.file.value.day <= day)
    ensures Balanced(start, Opened(start.file, day))
  {
    NothingAdded(Loaded(start.file, day));
  }

  /** Conservation over every run: opening and grants of the day are what is counted plus what restarts forgot. */
  lemma {:induction false} BooksBalance(caps: Caps, start: World, day: int, events: seq<Event>)
    requires Start(caps, start, day) && OnTime(day, events)
    ensures Balanced(Run(caps, start, events), RecordAll(caps, start, day, events))
    ensures RecordAll(caps, start, day, events).day == LastDay(day, events)
  {
    hide Balanced, Step, Sound;
    if events == [] {
      StartBalances(start, day);
    } else {
      var front, e := events[..|events| - 1], events[|events| - 1];
      BooksBalance(caps, start, day, front);
      StepBalances(caps, Run(caps, start, front), RecordAll(caps, start, day, front), e);
    }
  }

  /** What is left of the day's opening and grants after restarts, in all and for one session. */
  function Kept(b: Books): int { b.opening.calls + |b.spent| - |b.lost| }

  function KeptFor(b: Books, session: string): int {
    CallsOf(b.opening.perSession, session) + Occurrences(b.spent, session) - Occurrences(b.lost, session)
  }

  /**
   * Over every run a call is granted exactly if the day's grants that have not been forgotten are below the daily cap
   * and those of the session below its cap, where a cap of zero is none.
   */
  lemma GrantExact(caps: Caps, start: World, day: int, events: seq<Event>, session: string, today: int)
    requires Start(caps, start, day) && OnTime(day, events) && LastDay(day, events) <= today
    ensures
      var books := Turned(RecordAll(caps, start, day, events), today);
      Granted(caps, Run(caps, start, events), Reserve(session, today)) <==>
        (caps.daily > 0 ==> Kept(books) < caps.daily) && (caps.session > 0 ==> KeptFor(books, session) < caps.session)
  {
    hide Run, RecordAll, OnTime, Start, Turned;
    BooksBalance(caps, start, day, events);
    NewDayBalances(Run(caps, start, events), RecordAll(caps, start, day, events), today);
  }

  /** The tally in force at the end of a run respects the caps. */
  lemma ForceIsSound(caps: Caps, start: World, day: int, events: seq<Event>)
    requires Start(caps, start, day) && OnTime(day, events)
    ensures Sound(caps, InForce(Run(caps, start, events), LastDay(day, events)))
  {
    hide Run, OnTime;
    ReservationsAreSafe(caps, start, day, events);
    CurrentIsGood(caps, Run(caps, start, events), LastDay(day, events));
  }

  /**
   * Over every run the day's grants exceed the daily cap exactly when the counted and the forgotten ones together do,
   * and as the counted ones never do, by no more than was forgotten.
   */
  lemma OverspendIsLost(caps: Caps, start: World, day: int, events: seq<Event>)
    requires Start(caps, start, day) && OnTime(day, events) && caps.daily != 0
    ensures var b := RecordAll(caps, start, day, events);
      var t := InForce(Run(caps, start, events), LastDay(day, events));
      && t.calls <= caps.daily
      && (b.opening.calls + |b.spent| > caps.daily <==> t.calls + |b.lost| > caps.daily)
      && b.opening.calls + |b.spent| - caps.daily == |b.lost| - (caps.daily - t.calls)
  {
    hide Run, RecordAll, OnTime;
    BooksBalance(caps, start, day, events);
    ForceIsSound(caps, start, day, events);
  }

  /** The same for the cap of each session. */
  lemma SessionOverspendIsLost(caps: Caps, start: World, day: int, events: seq<Event>, session: string)
    requires Start(caps, start, day) && OnTime(day, events) && caps.session != 0
    ensures var b := RecordAll(caps, start, day, events);
      var counted := CallsOf(InForce(Run(caps, start, events), LastDay(day, events)).perSession, session);
      var granted := CallsOf(b.opening.perSession, session) + Occurrences(b.spent, session);
      && counted <= caps.session
      && (granted > caps.session <==> counted + Occurrences(b.lost, session) > caps.session)
      && granted - caps.session == Occurrences(b.lost, session) - (caps.session - counted)
  {
    hide Run, RecordAll, OnTime, Occurrences;
    BooksBalance(caps, start, day, events);
    ForceIsSound(caps, start, day, events);
  }

  lemma {:induction false} LastDayGrows(day: int, events: seq<Event>, i: nat)
    requires OnTime(day, events) && i <= |events|
    ensures LastDay(day, events[..i]) <= LastDay(day, events)
  {
    if i < |events| {
      var front := events[..|events| - 1];
      LastDayGrows(day, front, i);
      assert front[..i] == events[..i];
    } else {
      assert events[..i] == events;
    }
  }

  /** Restart number i of the run happens on its last day and finds grants that are not on disk. */
  ghost predicate Forgets(caps: Caps, start: World, day: int, events: seq<Event>, i: nat)
    requires i < |events|
  {
    && events[i] == Restart && LastDay(day, events[..i]) == LastDay(day, events)
    && RecordAll(caps, start, day, events[..i]).unflushed != []
  }

  lemma ForgetsFront(caps: Caps, start: World, day: int, events: seq<Event>, i: nat)
    requires i + 1 < |events| && OnTime(day, events)
    ensures var front := events[..|events| - 1];
      Forgets(caps, start, day, events, i) <==>
        LastDay(day, front) == LastDay(day, events) && Forgets(caps, start, day, front, i)
  {
    hide RecordAll;
    var front := events[..|events| - 1];
    assert events[..i] == front[..i];
    LastDayGrows(day, front, i);
  }

  lemma {:induction false} LossAtRestart(caps: Caps, start: World, day: int, events: seq<Event>)
    requires Start(caps, start, day) && OnTime(day, events)
    ensures RecordAll(caps, start, day, events).lost != [] <==>
      exists i: nat :: i < |events| && Forgets(caps, start, day, events, i)
  {
    hide Run, Sound, OnTime;
    if events != [] {
      var front, e := events[..|events| - 1], events[|events| - 1];
      OnTimeFront(day, events);
      LossAtRestart(caps, start, day, front);
      BooksBalance(caps, start, day, front);
      forall i: nat | i < |front|
        ensures Forgets(caps, start, day, events, i) <==>
          LastDay(day, front) == LastDay(day, events) && Forgets(caps, start, day, front, i)
      {
        ForgetsFront(caps, start, day, events, i);
      }
      LastForgets(caps, start, day, events);
      LostStep(caps, start, day, events);
    }
  }

  lemma OnTimeFront(day: int, events: seq<Event>)
    requires OnTime(day, events) && events != []
    ensures OnTime(day, events[..|events| - 1])
  {
  }

  lemma LastForgets(caps: Caps, start: World, day: int, events: seq<Event>)
    requires events != []
    ensures var front := events[..|events| - 1];
      Forgets(caps, start, day, events, |front|) <==>
        events[|front|] == Restart && RecordAll(caps, start, day, front).unflushed != []
  {
    hide RecordAll;
  }

  lemma LostStep(caps: Caps, start: World, day: int, events: seq<Event>)
    requires events != []
    requires RecordAll(caps, start, day, events[..|events| - 1]).day == LastDay(day, events[..|events| - 1])
    ensures var b, e := RecordAll(caps, start, day, events[..|events| - 1]), events[|events| - 1];
      RecordAll(caps, start, day, events).lost ==
        if LastDay(day, events) != LastDay(day, events[..|events| - 1]) then []
        else if e == Restart then b.lost + b.unflushed
        else b.lost
  {
    hide Granted, TimerPending;
  }

  // ---------- what is forgotten, in events ----------

  /** The reservation at this place is granted. */
  predicate GrantedAt(caps: Caps, start: World, events: seq<Event>, i: nat)
    requires i < |events|
  {
    Granted(caps, Run(caps, start, events[..i]), events[i])
  }

  /** A timer that runs fires at this place, and its write succeeds. */
  predicate WrittenAt(caps: Caps, start: World, events: seq<Event>, i: nat)
    requires i < |events|
  {
    events[i] == Fire(true) && TimerPending(Run(caps, start, events[..i]))
  }

  /** Granted on the last day of the run, and neither written nor forgotten since. */
  ghost predicate Outstanding(caps: Caps, start: World, day: int, events: seq<Event>, j: nat)
    requires j < |events|
  {
    && GrantedAt(caps, start, events, j) && LastDay(day, events[..j + 1]) == LastDay(day, events)
    && forall k :: j < k < |events| ==> events[k] != Restart && !WrittenAt(caps, start, events, k)
  }

  lemma OutstandingFront(caps: Caps, start: World, day: int, events: seq<Event>, j: nat)
    requires j + 1 < |events| && OnTime(day, events)
    ensures var front, e := events[..|events| - 1], events[|events| - 1];
      Outstanding(caps, start, day, events, j) <==>
        && Outstanding(caps, start, day, front, j) && LastDay(day, front) == LastDay(day, events)
        && e != Restart && !WrittenAt(caps, start, events, |front|)
  {
    hide Run, TimerPending, Granted;
    var front := events[..|events| - 1];
    forall k | 0 <= k < |front| ensures events[..k] == front[..k] && events[k] == front[k] {
    }
    assert events[..j + 1] == front[..j + 1];
    LastDayGrows(day, front, j + 1);
    assert forall k :: 0 <= k < |front| ==> (WrittenAt(caps, start, events, k) <==> WrittenAt(caps, start, front, k));
    assert GrantedAt(caps, start, events, j) <==> GrantedAt(caps, start, front, j);
  }

  lemma UnflushedStep(caps: Caps, start: World, day: int, events: seq<Event>)
    requires events != []
    requires RecordAll(caps, start, day, events[..|events| - 1]).day == LastDay(day, events[..|events| - 1])
    ensures var front := events[..|events| - 1];
      var b := RecordAll(caps, start, day, front);
      RecordAll(caps, start, day, events).unflushed != [] <==>
        || GrantedAt(caps, start, events, |front|)
        || (b.unflushed != [] && LastDay(day, front) == LastDay(day, events)
            && events[|front|] != Restart && !WrittenAt(caps, start, events, |front|))
  {
    hide Granted, TimerPending, Run;
    var front, e := events[..|events| - 1], events[|events| - 1];
    RecordUnflushed(caps, Run(caps, start, front), RecordAll(caps, start, day, front), e);
  }

  lemma RecordUnflushed(caps: Caps, w: World, b: Books, e: Event)
    ensures Record(caps, w, b, e).unflushed != [] <==>
      || Granted(caps, w, e)
      || (b.unflushed != [] && DayOf(e, b.day) == b.day && e != Restart && !(e == Fire(true) && TimerPending(w)))
  {
    hide Grants, Current;
  }

  /** Calls are missing on disk exactly when some grant of the day is outstanding. */
  lemma {:induction false} UnflushedExact(caps: Caps, start: World, day: int, events: seq<Event>)
    requires Start(caps, start, day) && OnTime(day, events)
    ensures RecordAll(caps, start, day, events).unflushed != [] <==>
      exists j :: 0 <= j < |events| && Outstanding(caps, start, day, events, j)
  {
    hide Run, RecordAll, Sound, OnTime, GrantedAt, WrittenAt, LastDay;
    if events == [] {
      NothingUnflushed(caps, start, day);
    } else {
      var front := events[..|events| - 1];
      OnTimeFront(day, events);
      UnflushedExact(caps, start, day, front);
      BooksBalance(caps, start, day, front);
      UnflushedStep(caps, start, day, events);
      assert events[..|front| + 1] == events;
      assert GrantedAt(caps, start, events, |front|) <==> Outstanding(caps, start, day, events, |front|);
      forall j | 0 <= j < |front|
        ensures Outstanding(caps, start, day, events, j) <==>
          && Outstanding(caps, start, day, front, j) && LastDay(day, front) == LastDay(day, events)
          && events[|front|] != Restart && !WrittenAt(caps, start, events, |front|)
      {
        OutstandingFront(caps, start, day, events, j);
      }
    }
  }

  lemma NothingUnflushed(caps: Caps, start: World, day: int)
    ensures RecordAll(caps, start, day, []).unflushed == []
  {
  }

  /** A reservation granted on the last day, a restart after it, and no successful write between the two. */
  ghost predicate ForgetsGrant(caps: Caps, start: World, day: int, events: seq<Event>, j: nat, i: nat)
    requires j < i < |events|
  {
    && GrantedAt(caps, start, events, j) && LastDay(day, events[..j + 1]) == LastDay(day, events)
    && events[i] == Restart && forall k :: j < k < i ==> !WrittenAt(caps, start, events, k)
  }

  lemma {:induction false} FirstRestart(events: seq<Event>, j: nat, i: nat) returns (first: nat)
    requires j < i < |events| && events[i] == Restart
    ensures j < first <= i && events[first] == Restart && forall k :: j < k < first ==> events[k] != Restart
  {
    first := j + 1;
    while events[first] != Restart
      invariant j < first <= i && forall k :: j < k < first ==> events[k] != Restart
      decreases i - first
    {
      first := first + 1;
    }
  }

  lemma OutstandingAt(caps: Caps, start: World, day: int, events: seq<Event>, j: nat, i: nat)
    requires j < i < |events| && OnTime(day, events[..i])
    requires LastDay(day, events[..i]) == LastDay(day, events)
    ensures Outstanding(caps, start, day, events[..i], j) <==>
      && GrantedAt(caps, start, events, j) && LastDay(day, events[..j + 1]) == LastDay(day, events)
      && forall k :: j < k < i ==> events[k] != Restart && !WrittenAt(caps, start, events, k)
  {
    hide Run, TimerPending, Granted, LastDay, OnTime;
    var front := events[..i];
    assert front[..j + 1] == events[..j + 1];
    forall k | 0 <= k < i ensures events[..k] == front[..k] && events[k] == front[k] {
    }
    assert forall k :: 0 <= k < i ==> (WrittenAt(caps, start, events, k) <==> WrittenAt(caps, start, front, k));
    assert GrantedAt(caps, start, events, j) <==> GrantedAt(caps, start, front, j);
  }

  lemma {:induction false} OnTimeUntil(day: int, events: seq<Event>, i: nat)
    requires OnTime(day, events) && i <= |events|
    ensures OnTime(day, events[..i])
  {
    if i < |events| {
      OnTimeUntil(day, events[..|events| - 1], i);
      assert events[..|events| - 1][..i] == events[..i];
    } else {
      assert events[..i] == events;
    }
  }

  /**
   * Something of the day is forgotten if and only if some granted reservation of the day is followed by a restart with
   * no successful write between the two.
   */
  lemma LossExact(caps: Caps, start: World, day: int, events: seq<Event>)
    requires Start(caps, start, day) && OnTime(day, events)
    ensures RecordAll(caps, start, day, events).lost != [] <==>
      exists j: nat, i: nat :: j < i < |events| && ForgetsGrant(caps, start, day, events, j, i)
  {
    hide Run, RecordAll, OnTime, Sound, GrantedAt, WrittenAt, LastDay, Outstanding;
    LossAtRestart(caps, start, day, events);
    if i: nat :| i < |events| && Forgets(caps, start, day, events, i) {
      OnTimeUntil(day, events, i);
      UnflushedExact(caps, start, day, events[..i]);
      var j: nat :| j < i && Outstanding(caps, start, day, events[..i], j);
      OutstandingAt(caps, start, day, events, j, i);
      assert ForgetsGrant(caps, start, day, events, j, i);
    }
    if j: nat, i: nat :| j < i < |events| && ForgetsGrant(caps, start, day, events, j, i) {
      var first := FirstRestart(events, j, i);
      OnTimeUntil(day, events, first);
      SameDayUntil(day, events, j + 1, first);
      OutstandingAt(caps, start, day, events, j, first);
      UnflushedExact(caps, start, day, events[..first]);
      assert Forgets(caps, start, day, events, first);
    }
  }

  lemma SameDayUntil(day: int, events: seq<Event>, j: nat, i: nat)
    requires OnTime(day, events) && j <= i <= |events| && LastDay(day, events[..j]) == LastDay(day, events)
    ensures LastDay(day, events[..i]) == LastDay(day, events)
  {
    hide OnTime, LastDay;
    LastDayGrows(day, events, i);
    OnTimeUntil(day, events, i);
    LastDayGrows(day, events[..i], j);
    assert events[..i][..j] == events[..j];
  }

  // ---------- a cap is exceeded ----------

  const VISITOR := "v"

  function Burst(n: nat): seq<Event> { Repeat(Reserve(VISITOR, 0), n) }

  /** A day that began empty, with n calls granted since and none of them on disk. */
  ghost predicate Bursting(w: World, b: Books, n: nat, spent: nat, lost: nat) {
    && w.file.None? && NotAfter(w, 0) && Current(w, 0).tally.calls == n
    && b.day == 0 && b.opening == Fresh(0) && |b.spent| == spent && |b.unflushed| == n && |b.lost| == lost
  }

  lemma MessageIsGranted(daily: nat, w: World, b: Books, n: nat, spent: nat, lost: nat)
    requires Bursting(w, b, n, spent, lost) && n < daily
    ensures var caps, e := Caps(daily, 0), Reserve(VISITOR, 0);
      Bursting(Step(caps, w, e), Record(caps, w, b, e), n + 1, spent + 1, lost)
  {
  }

  lemma RunSnoc(caps: Caps, start: World, day: int, events: seq<Event>, e: Event)
    ensures Run(caps, start, events + [e]) == Step(caps, Run(caps, start, events), e)
    ensures RecordAll(caps, start, day, events + [e])
         == Record(caps, Run(caps, start, events), RecordAll(caps, start, day, events), e)
  {
    assert (events + [e])[..|events|] == events;
  }

  /** After a moment with nothing in memory or on disk, n messages within the cap are all granted. */
  lemma {:induction false} BurstIsGranted(daily: nat, before: seq<Event>, n: nat, spent: nat, lost: nat)
    requires n <= daily
    requires var caps, start := Caps(daily, 0), World(None, None);
      Bursting(Run(caps, start, before), RecordAll(caps, start, 0, before), 0, spent, lost)
    ensures var caps, start, events := Caps(daily, 0), World(None, None), before + Burst(n);
      Bursting(Run(caps, start, events), RecordAll(caps, start, 0, events), n, spent + n, lost)
  {
    hide Bursting, Run, RecordAll, Step, Record;
    var caps, start := Caps(daily, 0), World(None, None);
    if n == 0 {
      assert before + Burst(n) == before;
    } else {
      var events := before + Burst(n - 1);
      BurstIsGranted(daily, before, n - 1, spent, lost);
      RepeatSnoc(Reserve(VISITOR, 0), n - 1, before);
      assert before + Burst(n) == events + [Reserve(VISITOR, 0)];
      RunSnoc(caps, start, 0, events, Reserve(VISITOR, 0));
      MessageIsGranted(daily, Run(caps, start, events), RecordAll(caps, start, 0, events), n - 1, spent + n - 1, lost);
    }
  }

  lemma NothingYet(caps: Caps)
    ensures Bursting(Run(caps, World(None, None), []), RecordAll(caps, World(None, None), 0, []), 0, 0, 0)
  {
  }

  lemma BurstSpent(w: World, b: Books, n: nat, spent: nat, lost: nat)
    requires Bursting(w, b, n, spent, lost)
    ensures |b.spent| == spent && b.day == 0
  {
  }

  lemma BurstMessages(n: nat)
    ensures forall e :: e in Burst(n) ==> e == Reserve(VISITOR, 0)
  {
  }

  lemma RestartForgets(caps: Caps, w: World, b: Books, n: nat, spent: nat, lost: nat)
    requires Bursting(w, b, n, spent, lost)
    ensures Bursting(Step(caps, w, Restart), Record(caps, w, b, Restart), 0, spent, lost + n)
  {
  }

  /** For every daily cap there is a run in which twice the cap is granted on one day: a restart between two bursts. */
  lemma CapIsExceeded(daily: nat) returns (events: seq<Event>)
    requires daily > 0
    ensures Start(Caps(daily, 0), World(None, None), 0) && OnTime(0, events)
    ensures |RecordAll(Caps(daily, 0), World(None, None), 0, events).spent| == 2 * daily
    ensures RecordAll(Caps(daily, 0), World(None, None), 0, events).day == 0
  {
    hide OnTime, Run, RecordAll, Bursting, Step, Record, Burst;
    var caps, start := Caps(daily, 0), World(None, None);
    var first := [] + Burst(daily);
    NothingYet(caps);
    BurstIsGranted(daily, [], daily, 0, 0);
    RunSnoc(caps, start, 0, first, Restart);
    RestartForgets(caps, Run(caps, start, first), RecordAll(caps, start, 0, first), daily, daily, 0);
    BurstIsGranted(daily, first + [Restart], daily, daily, daily);
    events := first + [Restart] + Burst(daily);
    BurstSpent(Run(caps, start, events), RecordAll(caps, start, 0, events), daily, daily + daily, daily);
    BurstMessages(daily);
    assert forall e :: e in events ==> e == Restart || e == Reserve(VISITOR, 0);
    SameDayOnTime(events);
  }

  lemma {:induction false} SameDayOnTime(events: seq<Event>)
    requires forall e :: e in events ==> e == Restart || e == Reserve(VISITOR, 0)
    ensures OnTime(0, events) && LastDay(0, events) == 0
  {
    if events != [] {
      var front, e := events[..|events| - 1], events[|events| - 1];
      assert forall x :: x in front ==> x in events;
      SameDayOnTime(front);
      assert e in events;
    }
  }

  /** Without restarts nothing is lost: each cap holds for the real grants of every day. */
  lemma {:induction false} NoRestartNoLoss(caps: Caps, start: World, day: int, events: seq<Event>)
    requires Restart !in events
    ensures RecordAll(caps, start, day, events).lost == []
  {
    if events != [] {
      NoRestartNoLoss(caps, start, day, events[..|events| - 1]);
    }
  }

  /** As long as writes succeed, only grants with a timer running can be lost. */
  lemma LossNeedsTimer(caps: Caps, start: World, day: int, events: seq<Event>)
    requires Start(caps, start, day) && OnTime(day, events) && Fire(false) !in events
    ensures RecordAll(caps, start, day, events).unflushed != [] ==> TimerPending(Run(caps, start, events))
  {
    hide Run, RecordAll, OnTime, Sound;
    BooksBalance(caps, start, day, events);
    FlushIsPending(caps, start, events);
  }
}
