/** The sliding-window limiter: one list of admission times per bucket, with a cap on buckets and a background sweep. */
module RateLimiter {
  import opened Sequences

  const WINDOW := 60_000
  const MAX_KEYS := 10_000
  const OVERFLOW := "__overflow__"

  type Hits = map<string, seq<int>>

  /** The times less than one window before now, in order. */
  function Recent(times: seq<int>, now: int): seq<int> {
    if times == [] then []
    else (if now - times[0] < WINDOW then [times[0]] else []) + Recent(times[1..], now)
  }

  function TimesOf(hits: Hits, bucket: string): seq<int> { if bucket in hits then hits[bucket] else [] }

  /** A new key gets its own bucket while there is room; after that all new keys share one. */
  function BucketOf(hits: Hits, key: string): string {
    if key in hits || |hits| < MAX_KEYS then key else OVERFLOW
  }

  function Kept(hits: Hits, key: string, now: int): seq<int> { Recent(TimesOf(hits, BucketOf(hits, key)), now) }

  function Limited(hits: Hits, perMin: int, key: string, now: int): bool { |Kept(hits, key, now)| >= perMin }

  function AfterCall(hits: Hits, perMin: int, key: string, now: int): Hits {
    var recent := Kept(hits, key, now);
    hits[BucketOf(hits, key) := if |recent| >= perMin then recent else recent + [now]]
  }

  function AfterSweep(hits: Hits, now: int): Hits {
    map b | b in hits && Recent(hits[b], now) != [] :: Recent(hits[b], now)
  }

  class Limiter {
    const perMin: int
    var hits: Hits

    constructor (perMin: int)
      ensures this.perMin == perMin && hits == map[]
    {
      this.perMin := perMin;
      hits := map[];
    }

    method Filter(times: seq<int>, now: int) returns (recent: seq<int>)
      ensures recent == Recent(times, now)
    {
      recent := [];
      for i := 0 to |times|
        invariant recent + Recent(times[i..], now) == Recent(times, now)
      {
        assert times[i..][1..] == times[i + 1..];
        if now - times[i] < WINDOW {
          Snoc(recent, times[i], Recent(times[i + 1..], now));
          recent := recent + [times[i]];
        } else {
          Empty(Recent(times[i + 1..], now));
        }
      }
    }

    /** True means the call is refused. */
    method Call(key: string, now: int) returns (limited: bool)
      modifies this
      ensures limited == Limited(old(hits), perMin, key, now)
      ensures hits == AfterCall(old(hits), perMin, key, now)
    {
      var bucket := if key in hits || |hits| < MAX_KEYS then key else OVERFLOW;
      var recent := Filter(if bucket in hits then hits[bucket] else [], now);
      if |recent| >= perMin {
        hits := hits[bucket := recent];
        return true;
      }
      recent := recent + [now];
      hits := hits[bucket := recent];
      return false;
    }

    /** Every bucket is visited once, in some order: emptied ones go, the others are pruned. */
    method Sweep(now: int)
      modifies this
      ensures hits == AfterSweep(old(hits), now)
    {
      ghost var before := hits;
      var left := hits.Keys;
      while left != {}
        invariant left <= before.Keys
        invariant forall b :: b in left ==> b in hits && hits[b] == before[b]
        invariant forall b :: b in hits ==> b in before
        invariant forall b :: b in before && b !in left ==>
          if Recent(before[b], now) == [] then b !in hits else b in hits && hits[b] == Recent(before[b], now)
        decreases |left|
      {
        var b :| b in left;
        var recent := Filter(hits[b], now);
        if recent != [] {
          hits := hits[b := recent];
        } else {
          hits := hits - {b};
        }
        left := left - {b};
      }
    }
  }

  // ---------- runs ----------

  datatype Event = Ask(key: string, now: int) | Tick(now: int)

  /** An admitted call with the bucket it was counted in. */
  datatype Admission = Admission(key: string, bucket: string, time: int)

  datatype State = State(hits: Hits, log: seq<Admission>, answers: seq<bool>)

  function Step(perMin: int, s: State, e: Event): State {
    match e
    case Tick(now) => s.(hits := AfterSweep(s.hits, now))
    case Ask(key, now) =>
      var limited := Limited(s.hits, perMin, key, now);
      State(
        AfterCall(s.hits, perMin, key, now),
        if limited then s.log else s.log + [Admission(key, BucketOf(s.hits, key), now)],
        s.answers + [limited])
  }

  /** The state after the events, from an empty limiter. */
  function Run(perMin: int, events: seq<Event>): State {
    if events == [] then State(map[], [], [])
    else Step(perMin, Run(perMin, events[..|events| - 1]), events[|events| - 1])
  }

  /** The clock does not go back. */
  ghost predicate Ordered(events: seq<Event>) {
    forall i, j :: 0 <= i < j < |events| ==> events[i].now <= events[j].now
  }

  // ---------- counting admissions ----------

  datatype Whose = OfKey(key: string) | OfBucket(bucket: string) | OfBuckets(buckets: set<string>)

  predicate Belongs(a: Admission, whose: Whose) {
    match whose
    case OfKey(key) => a.key == key
    case OfBucket(bucket) => a.bucket == bucket
    case OfBuckets(buckets) => a.bucket in buckets
  }

  /** How many of the admissions fall in the window that ends at time t. */
  function Count(log: seq<Admission>, whose: Whose, t: int): nat {
    if log == [] then 0
    else
      var a := log[|log| - 1];
      Count(log[..|log| - 1], whose, t) + if Belongs(a, whose) && t - WINDOW < a.time <= t then 1 else 0
  }

  function BucketTimes(log: seq<Admission>, bucket: string): seq<int> {
    if log == [] then []
    else
      var a := log[|log| - 1];
      BucketTimes(log[..|log| - 1], bucket) + if a.bucket == bucket then [a.time] else []
  }

  lemma {:induction false} RecentConcat(v: seq<int>, w: seq<int>, now: int)
    ensures Recent(v + w, now) == Recent(v, now) + Recent(w, now)
  {
    if v == [] {
      assert v + w == w;
    } else {
      assert (v + w)[1..] == v[1..] + w;
      RecentConcat(v[1..], w, now);
    }
  }

  lemma {:induction false} RecentTwice(v: seq<int>, now: int, later: int)
    requires now <= later
    ensures Recent(Recent(v, now), later) == Recent(v, later)
  {
    if v != [] {
      RecentTwice(v[1..], now, later);
      RecentConcat(if now - v[0] < WINDOW then [v[0]] else [], Recent(v[1..], now), later);
    }
  }

  lemma {:induction false} CountIsRecent(log: seq<Admission>, bucket: string, now: int)
    requires forall i :: 0 <= i < |log| ==> log[i].time <= now
    ensures Count(log, OfBucket(bucket), now) == |Recent(BucketTimes(log, bucket), now)|
  {
    if log != [] {
      var front, a := log[..|log| - 1], log[|log| - 1];
      CountIsRecent(front, bucket, now);
      RecentConcat(BucketTimes(front, bucket), if a.bucket == bucket then [a.time] else [], now);
    }
  }

  /** As long as nothing is later than now, the window ending at now holds at least what any later window holds. */
  lemma {:induction false} LaterWindow(log: seq<Admission>, whose: Whose, now: int, t: int)
    requires now <= t && forall i :: 0 <= i < |log| ==> log[i].time <= now
    ensures Count(log, whose, t) <= Count(log, whose, now)
  {
    if log != [] {
      LaterWindow(log[..|log| - 1], whose, now, t);
    }
  }

  lemma BucketTimesSnoc(log: seq<Admission>, a: Admission, bucket: string)
    ensures BucketTimes(log + [a], bucket) == BucketTimes(log, bucket) + if a.bucket == bucket then [a.time] else []
  {
    assert (log + [a])[..|log|] == log;
  }

  lemma CountSnoc(log: seq<Admission>, a: Admission, whose: Whose, t: int)
    ensures Count(log + [a], whose, t)
         == Count(log, whose, t) + if Belongs(a, whose) && t - WINDOW < a.time <= t then 1 else 0
  {
    assert (log + [a])[..|log|] == log;
  }

  // ---------- the map remembers what matters of the log ----------

  /** Up to what has left the window, each bucket's list is its part of the log. */
  ghost predicate Tracks(s: State, now: int) {
    && (forall i :: 0 <= i < |s.log| ==> s.log[i].time <= now)
    && forall b :: Recent(TimesOf(s.hits, b), now) == Recent(BucketTimes(s.log, b), now)
  }

  lemma TracksLater(s: State, now: int, later: int)
    requires Tracks(s, now) && now <= later
    ensures Tracks(s, later)
  {
    hide Recent, TimesOf, BucketTimes;
    forall b ensures Recent(TimesOf(s.hits, b), later) == Recent(BucketTimes(s.log, b), later) {
      RecentTwice(TimesOf(s.hits, b), now, later);
      RecentTwice(BucketTimes(s.log, b), now, later);
    }
  }

  lemma SweptTimes(hits: Hits, now: int, b: string)
    ensures TimesOf(AfterSweep(hits, now), b) == Recent(TimesOf(hits, b), now)
  {
  }

  lemma CalledTimes(hits: Hits, perMin: int, key: string, now: int, b: string)
    ensures TimesOf(AfterCall(hits, perMin, key, now), b) ==
      if b != BucketOf(hits, key) then TimesOf(hits, b)
      else Recent(TimesOf(hits, b), now) + if Limited(hits, perMin, key, now) then [] else [now]
  {
  }

  lemma StepTracks(perMin: int, s: State, e: Event)
    requires Tracks(s, e.now)
    ensures Tracks(Step(perMin, s, e), e.now)
  {
    hide Recent, TimesOf, BucketTimes, AfterSweep, AfterCall, BucketOf, Limited;
    var next, now := Step(perMin, s, e), e.now;
    forall b ensures Recent(TimesOf(next.hits, b), now) == Recent(BucketTimes(next.log, b), now) {
      RecentTwice(TimesOf(s.hits, b), now, now);
      match e {
        case Tick(_) =>
          SweptTimes(s.hits, now, b);
        case Ask(key, _) =>
          CalledTimes(s.hits, perMin, key, now, b);
          if !Limited(s.hits, perMin, key, now) {
            BucketTimesSnoc(s.log, Admission(key, BucketOf(s.hits, key), now), b);
            RecentConcat(Recent(TimesOf(s.hits, b), now), [now], now);
            RecentConcat(BucketTimes(s.log, b), [now], now);
          }
          Empty(Recent(TimesOf(s.hits, b), now));
          Empty(BucketTimes(s.log, b));
      }
    }
  }

  lemma {:induction false} RunTracks(perMin: int, events: seq<Event>, now: int)
    requires Ordered(events) && (events != [] ==> events[|events| - 1].now <= now)
    ensures Tracks(Run(perMin, events), now)
  {
    hide Tracks, Step;
    if events == [] {
      EmptyTracks(now);
    } else {
      var front, e := events[..|events| - 1], events[|events| - 1];
      RunTracks(perMin, front, e.now);
      StepTracks(perMin, Run(perMin, front), e);
      TracksLater(Run(perMin, events), e.now, now);
    }
  }

  lemma EmptyTracks(now: int)
    ensures Tracks(State(map[], [], []), now)
  {
  }

  // ---------- no window holds more than the limit ----------

  /** What a call sees in its bucket is the number of admissions in the window that ends now. */
  lemma SeesCount(perMin: int, s: State, key: string, now: int)
    requires Tracks(s, now)
    ensures |Kept(s.hits, key, now)| == Count(s.log, OfBucket(BucketOf(s.hits, key)), now)
  {
    hide BucketOf, Recent, TimesOf, BucketTimes, Count;
    CountIsRecent(s.log, BucketOf(s.hits, key), now);
  }

  /** Every bucket admits at most perMin calls in any window, whatever was asked and swept before. */
  lemma {:induction false} WindowBound(perMin: nat, events: seq<Event>, bucket: string, t: int)
    requires Ordered(events)
    ensures Count(Run(perMin, events).log, OfBucket(bucket), t) <= perMin
  {
    hide Tracks, AfterCall, AfterSweep, BucketOf, Kept, Count;
    if events != [] {
      var front, e := events[..|events| - 1], events[|events| - 1];
      var s := Run(perMin, front);
      WindowBound(perMin, front, bucket, t);
      if e.Ask? && !Limited(s.hits, perMin, e.key, e.now) {
        RunTracks(perMin, front, e.now);
        SeesCount(perMin, s, e.key, e.now);
        CountSnoc(s.log, Admission(e.key, BucketOf(s.hits, e.key), e.now), OfBucket(bucket), t);
        if e.now <= t {
          TracksBounds(s, e.now);
          LaterWindow(s.log, OfBucket(bucket), e.now, t);
        }
      }
    } else {
      CountEmpty(OfBucket(bucket), t);
    }
  }

  lemma CountEmpty(whose: Whose, t: int)
    ensures Count([], whose, t) == 0
  {
  }

  lemma TracksBounds(s: State, now: int)
    requires Tracks(s, now)
    ensures forall i :: 0 <= i < |s.log| ==> s.log[i].time <= now
  {
  }

  ghost predicate OwnOrShared(log: seq<Admission>) {
    forall i :: 0 <= i < |log| ==> log[i].bucket == log[i].key || log[i].bucket == OVERFLOW
  }

  /** A call is counted in the key's own bucket or in the shared one. */
  lemma {:induction false} TwoBuckets(perMin: int, events: seq<Event>)
    ensures OwnOrShared(Run(perMin, events).log)
  {
    if events != [] {
      TwoBuckets(perMin, events[..|events| - 1]);
    }
  }

  lemma {:induction false} KeyCount(log: seq<Admission>, key: string, t: int)
    requires OwnOrShared(log)
    ensures Count(log, OfKey(key), t) <= Count(log, OfBucket(key), t) + Count(log, OfBucket(OVERFLOW), t)
  {
    hide OVERFLOW;
    if log != [] {
      KeyCount(log[..|log| - 1], key, t);
    }
  }

  /**
   * One key gets at most twice the limit in any window, even when it moves between its own bucket and the shared
   * one.
   */
  lemma KeyBound(perMin: nat, events: seq<Event>, key: string, t: int)
    requires Ordered(events)
    ensures Count(Run(perMin, events).log, OfKey(key), t) <= 2 * perMin
  {
    hide Run, Count, OVERFLOW, OwnOrShared;
    TwoBuckets(perMin, events);
    KeyCount(Run(perMin, events).log, key, t);
    WindowBound(perMin, events, key, t);
    WindowBound(perMin, events, OVERFLOW, t);
  }

  // ---------- the map stays small ----------

  ghost predicate Small(hits: Hits) { |hits| <= MAX_KEYS || (|hits| == MAX_KEYS + 1 && OVERFLOW in hits) }

  lemma CallStaysSmall(hits: Hits, perMin: int, key: string, now: int)
    requires Small(hits)
    ensures Small(AfterCall(hits, perMin, key, now))
  {
    var b := BucketOf(hits, key);
    var next := AfterCall(hits, perMin, key, now);
    assert next.Keys == hits.Keys + {b};
    if b !in hits {
      assert |hits.Keys + {b}| == |hits.Keys| + 1;
    } else {
      assert hits.Keys + {b} == hits.Keys;
    }
  }

  lemma FewerKeys(small: set<string>, large: set<string>)
    requires small <= large
    ensures |small| <= |large| && (|small| == |large| ==> small == large)
  {
    assert large == small + (large - small);
    assert |large| == |small| + |large - small|;
    assert |large - small| == 0 ==> large - small == {};
  }

  lemma SweepStaysSmall(hits: Hits, now: int)
    requires Small(hits)
    ensures Small(AfterSweep(hits, now))
  {
    var next := AfterSweep(hits, now);
    FewerKeys(next.Keys, hits.Keys);
    assert |next.Keys| == |next| && |hits.Keys| == |hits|;
  }

  /** Whatever is asked and whenever the sweep runs, the map holds at most one bucket more than the cap. */
  lemma {:induction false} MapStaysSmall(perMin: int, events: seq<Event>)
    ensures Small(Run(perMin, events).hits) && |Run(perMin, events).hits| <= 10_001
  {
    hide AfterCall, AfterSweep, BucketOf, Limited, OVERFLOW;
    if events != [] {
      var front, e := events[..|events| - 1], events[|events| - 1];
      MapStaysSmall(perMin, front);
      match e {
        case Tick(now) => SweepStaysSmall(Run(perMin, front).hits, now);
        case Ask(key, now) => CallStaysSmall(Run(perMin, front).hits, perMin, key, now);
      }
    }
  }

  // ---------- all clients together ----------

  lemma {:induction false} CountSplits(log: seq<Admission>, bucket: string, rest: set<string>, t: int)
    requires bucket !in rest
    ensures Count(log, OfBuckets(rest + {bucket}), t) ==
      Count(log, OfBuckets(rest), t) + Count(log, OfBucket(bucket), t)
  {
    if log != [] {
      CountSplits(log[..|log| - 1], bucket, rest, t);
    }
  }

  lemma {:induction false} ManyBuckets(perMin: nat, log: seq<Admission>, buckets: set<string>, t: int)
    requires forall b :: Count(log, OfBucket(b), t) <= perMin
    ensures Count(log, OfBuckets(buckets), t) <= |buckets| * perMin
    decreases |buckets|
  {
    hide Count;
    if buckets == {} {
      NoBuckets(log, t);
    } else {
      var b :| b in buckets;
      var rest := buckets - {b};
      ManyBuckets(perMin, log, rest, t);
      assert rest + {b} == buckets;
      CountSplits(log, b, rest, t);
      OneMore(|rest|, perMin);
    }
  }

  lemma OneMore(n: nat, a: nat)
    ensures (n + 1) * a == n * a + a
  {
  }

  lemma MoreTimes(n: nat, m: nat, a: nat)
    requires n <= m
    ensures n * a <= m * a
  {
  }

  lemma {:induction false} NoBuckets(log: seq<Admission>, t: int)
    ensures Count(log, OfBuckets({}), t) == 0
  {
    if log != [] {
      NoBuckets(log[..|log| - 1], t);
    }
  }

  /** A bucket with an admission in the window is in the map. */
  lemma {:induction false} CountedIsHeld(log: seq<Admission>, hits: Hits, t: int)
    requires forall b :: Count(log, OfBucket(b), t) > 0 ==> b in hits
    ensures Count(log, OfBuckets(hits.Keys + Buckets(log)), t) == Count(log, OfBuckets(hits.Keys), t)
  {
    OnlyCounted(log, log, hits, t);
  }

  function Buckets(log: seq<Admission>): set<string> { set i | 0 <= i < |log| :: log[i].bucket }

  lemma {:induction false} OnlyCounted(log: seq<Admission>, part: seq<Admission>, hits: Hits, t: int)
    requires part <= log && forall b :: Count(log, OfBucket(b), t) > 0 ==> b in hits
    ensures Count(part, OfBuckets(hits.Keys + Buckets(log)), t) == Count(part, OfBuckets(hits.Keys), t)
  {
    if part != [] {
      var front, a := part[..|part| - 1], part[|part| - 1];
      OnlyCounted(log, front, hits, t);
      if t - WINDOW < a.time <= t {
        PrefixCount(part, log, OfBucket(a.bucket), t);
      }
    }
  }

  lemma {:induction false} PrefixCount(part: seq<Admission>, log: seq<Admission>, whose: Whose, t: int)
    requires part <= log
    ensures Count(part, whose, t) <= Count(log, whose, t)
  {
    if |part| < |log| {
      PrefixCount(part, log[..|log| - 1], whose, t);
    } else {
      assert part == log;
    }
  }

  function Ends(events: seq<Event>, before: int): int { if events == [] then before else events[|events| - 1].now }

  lemma HeldAtEnd(perMin: int, s: State, now: int, b: string)
    requires Tracks(s, now) && Count(s.log, OfBucket(b), now) > 0
    ensures b in s.hits
  {
    CountIsRecent(s.log, b, now);
  }

  /**
   * At every moment, the calls admitted in the last window number at most the limit for each bucket the map can
   * hold.
   */
  lemma TotalBound(perMin: nat, events: seq<Event>, now: int)
    requires Ordered(events) && Ends(events, now) <= now
    ensures var log := Run(perMin, events).log; Count(log, OfBuckets(Buckets(log)), now) <= (MAX_KEYS + 1) * perMin
  {
    hide Run, Count, Tracks, Buckets;
    var s := Run(perMin, events);
    RunTracks(perMin, events, now);
    forall b | Count(s.log, OfBucket(b), now) > 0 ensures b in s.hits {
      HeldAtEnd(perMin, s, now, b);
    }
    CountedIsHeld(s.log, s.hits, now);
    forall b ensures Count(s.log, OfBucket(b), now) <= perMin {
      WindowBound(perMin, events, b, now);
    }
    ManyBuckets(perMin, s.log, s.hits.Keys, now);
    MapStaysSmall(perMin, events);
    MoreTimes(|s.hits.Keys|, MAX_KEYS + 1, perMin);
    MoreBuckets(s.log, Buckets(s.log), s.hits.Keys + Buckets(s.log), now);
  }

  lemma {:induction false} MoreBuckets(log: seq<Admission>, few: set<string>, many: set<string>, t: int)
    requires few <= many
    ensures Count(log, OfBuckets(few), t) <= Count(log, OfBuckets(many), t)
  {
    if log != [] {
      MoreBuckets(log[..|log| - 1], few, many, t);
    }
  }

  // ---------- refinement of a log that keeps everything ----------

  datatype Ledger = Ledger(log: seq<Admission>, answers: seq<bool>)

  /** The plain limiter: it keeps every admission of every key and counts the key's own. */
  function Reference(perMin: int, events: seq<Event>): Ledger {
    if events == [] then Ledger([], [])
    else
      var before, e := Reference(perMin, events[..|events| - 1]), events[|events| - 1];
      match e
      case Tick(_) => before
      case Ask(key, now) =>
        var limited := Count(before.log, OfKey(key), now) >= perMin;
        Ledger(if limited then before.log else before.log + [Admission(key, key, now)], before.answers + [limited])
  }

  function Keys(events: seq<Event>): set<string> {
    set i | 0 <= i < |events| && events[i].Ask? :: events[i].key
  }

  lemma KeysSnoc(front: seq<Event>, e: Event)
    ensures Keys(front + [e]) == Keys(front) + if e.Ask? then {e.key} else {}
  {
    var all := front + [e];
    assert forall i :: 0 <= i < |front| ==> all[i] == front[i];
    assert all[|front|] == e;
    forall k | k in Keys(front) ensures k in Keys(all) {
      var i :| 0 <= i < |front| && front[i].Ask? && front[i].key == k;
      assert all[i].key == k;
    }
  }

  lemma {:induction false} OwnBucketCount(log: seq<Admission>, key: string, t: int)
    requires forall i :: 0 <= i < |log| ==> log[i].bucket == log[i].key
    ensures Count(log, OfBucket(key), t) == Count(log, OfKey(key), t)
  {
    if log != [] {
      OwnBucketCount(log[..|log| - 1], key, t);
    }
  }

  /** With no more distinct keys than the cap, answers and admissions are those of the plain limiter. */
  lemma {:induction false} RefinesLog(perMin: int, events: seq<Event>)
    requires Ordered(events) && |Keys(events)| <= MAX_KEYS
    ensures Run(perMin, events).answers == Reference(perMin, events).answers
    ensures Run(perMin, events).log == Reference(perMin, events).log
    ensures Run(perMin, events).hits.Keys <= Keys(events)
    ensures forall i :: 0 <= i < |Run(perMin, events).log| ==>
      Run(perMin, events).log[i].bucket == Run(perMin, events).log[i].key
  {
    hide Tracks, Count, Recent, Keys, OVERFLOW;
    if events != [] {
      var front, e := events[..|events| - 1], events[|events| - 1];
      assert events == front + [e];
      KeysSnoc(front, e);
      FewerKeys(Keys(front), Keys(events));
      RefinesLog(perMin, front);
      var s := Run(perMin, front);
      if e.Ask? {
        OwnBucket(s.hits, e.key, Keys(events));
        RunTracks(perMin, front, e.now);
        SeesCount(perMin, s, e.key, e.now);
        OwnBucketCount(s.log, e.key, e.now);
      }
    }
  }

  lemma OwnBucket(hits: Hits, key: string, keys: set<string>)
    requires hits.Keys <= keys && key in keys && |keys| <= MAX_KEYS
    ensures BucketOf(hits, key) == key
  {
    FewerKeys(hits.Keys, keys);
    assert |hits.Keys| == |hits|;
  }

  function Asks(events: seq<Event>): seq<Event> {
    if events == [] then []
    else Asks(events[..|events| - 1]) + if events[|events| - 1].Ask? then [events[|events| - 1]] else []
  }

  lemma {:induction false} ReferenceIgnoresTicks(perMin: int, events: seq<Event>)
    ensures Reference(perMin, Asks(events)) == Reference(perMin, events)
  {
    hide Count;
    if events != [] {
      var front, e := events[..|events| - 1], events[|events| - 1];
      ReferenceIgnoresTicks(perMin, front);
      if e.Ask? {
        assert Asks(events)[..|Asks(front)|] == Asks(front);
      } else {
        assert Asks(events) == Asks(front);
      }
    }
  }

  /** Wherever the sweeps fall, the same calls get the same answers. */
  lemma SweepsDoNotMatter(perMin: int, one: seq<Event>, other: seq<Event>)
    requires Ordered(one) && Ordered(other) && Asks(one) == Asks(other)
    requires |Keys(one)| <= MAX_KEYS && |Keys(other)| <= MAX_KEYS
    ensures Run(perMin, one).answers == Run(perMin, other).answers
  {
    hide Run, Reference, Keys;
    RefinesLog(perMin, one);
    RefinesLog(perMin, other);
    ReferenceIgnoresTicks(perMin, one);
    ReferenceIgnoresTicks(perMin, other);
  }

  // ---------- the bound for one key is reached ----------

  function RunFrom(perMin: int, s: State, events: seq<Event>): State {
    if events == [] then s
    else Step(perMin, RunFrom(perMin, s, events[..|events| - 1]), events[|events| - 1])
  }

  lemma {:induction false} RunConcat(perMin: int, a: seq<Event>, b: seq<Event>)
    ensures Run(perMin, a + b) == RunFrom(perMin, Run(perMin, a), b)
  {
    hide Step;
    if b == [] {
      assert a + b == a;
    } else {
      assert (a + b)[..|a + b| - 1] == a + b[..|b| - 1];
      RunConcat(perMin, a, b[..|b| - 1]);
    }
  }

  /** One call of each key at time 0. */
  function Crowd(keys: seq<string>): seq<Event> { seq(|keys|, i requires 0 <= i < |keys| => Ask(keys[i], 0)) }

  function CrowdHits(keys: seq<string>): Hits { map key | key in keys :: [0] }

  lemma CrowdNext(front: seq<string>, key: string)
    requires Distinct(front + [key])
    ensures Distinct(front) && key !in CrowdHits(front) && CrowdHits(front + [key]) == CrowdHits(front)[key := [0]]
  {
    var all := front + [key];
    forall i, j | 0 <= i < j < |front| ensures front[i] != front[j] {
      assert all[i] != all[j];
    }
    forall i | 0 <= i < |front| ensures front[i] != key {
      assert all[i] != all[|front|];
    }
  }

  lemma {:induction false} CrowdSize(keys: seq<string>)
    requires Distinct(keys)
    ensures |CrowdHits(keys)| == |keys|
  {
    if keys == [] {
      assert CrowdHits(keys) == map[];
    } else {
      var front, key := keys[..|keys| - 1], keys[|keys| - 1];
      assert keys == front + [key];
      CrowdNext(front, key);
      CrowdSize(front);
    }
  }

  lemma CrowdStep(perMin: nat, front: seq<string>, key: string)
    requires perMin > 0 && Distinct(front + [key]) && |front| < MAX_KEYS
    ensures AfterCall(CrowdHits(front), perMin, key, 0) == CrowdHits(front + [key])
  {
    CrowdNext(front, key);
    CrowdSize(front);
    var before := CrowdHits(front);
    assert BucketOf(before, key) == key && Kept(before, key, 0) == [];
    assert [] + [0] == [0];
  }

  lemma {:induction false} CrowdRuns(perMin: nat, keys: seq<string>)
    requires perMin > 0 && Distinct(keys) && |keys| <= MAX_KEYS
    ensures Run(perMin, Crowd(keys)).hits == CrowdHits(keys)
    ensures forall i :: 0 <= i < |Run(perMin, Crowd(keys)).log| ==> Run(perMin, Crowd(keys)).log[i].time == 0
  {
    hide AfterCall, BucketOf, Limited;
    if keys == [] {
      assert CrowdHits(keys) == map[];
    } else {
      var front, key := keys[..|keys| - 1], keys[|keys| - 1];
      assert keys == front + [key] && Crowd(keys)[..|front|] == Crowd(front);
      CrowdNext(front, key);
      CrowdRuns(perMin, front);
      CrowdStep(perMin, front, key);
      assert Run(perMin, Crowd(keys)) == Step(perMin, Run(perMin, Crowd(front)), Ask(key, 0));
    }
  }

  /** The calls of the key go to this bucket and keep going there. */
  predicate GoesTo(hits: Hits, key: string, bucket: string) {
    if bucket == key then key in hits || |hits| < MAX_KEYS
    else bucket == OVERFLOW && key !in hits && |hits| >= MAX_KEYS
  }

  lemma GoesOn(hits: Hits, key: string, bucket: string, times: seq<int>)
    requires GoesTo(hits, key, bucket)
    ensures BucketOf(hits, key) == bucket && GoesTo(hits[bucket := times], key, bucket)
  {
    var next := hits[bucket := times];
    assert next.Keys == hits.Keys + {bucket};
    FewerKeys(hits.Keys, next.Keys);
    assert |next.Keys| == |next| && |hits.Keys| == |hits|;
  }

  lemma {:induction false} AllRecent(n: nat, t: int, now: int)
    requires t <= now < t + WINDOW
    ensures Recent(Repeat(t, n), now) == Repeat(t, n)
  {
    if n > 0 {
      AllRecent(n - 1, t, now);
      assert Repeat(t, n)[1..] == Repeat(t, n - 1);
      assert [t] + Repeat(t, n - 1) == Repeat(t, n);
    }
  }

  lemma BurstStep(perMin: nat, s: State, key: string, bucket: string, t: int, n: nat)
    requires n < perMin && GoesTo(s.hits, key, bucket) && Recent(TimesOf(s.hits, bucket), t) == Repeat(t, n)
    ensures var after := Step(perMin, s, Ask(key, t));
      after.log == s.log + [Admission(key, bucket, t)] && after.hits == s.hits[bucket := Repeat(t, n + 1)]
    ensures GoesTo(s.hits[bucket := Repeat(t, n + 1)], key, bucket)
  {
    hide GoesTo, BucketOf, TimesOf, Recent, OVERFLOW;
    GoesOn(s.hits, key, bucket, Repeat(t, n + 1));
    RepeatSnoc(t, n, []);
  }

  /** A burst into a bucket without recent times fills it up to the limit. */
  lemma {:induction false} BurstRuns(perMin: nat, s: State, key: string, bucket: string, t: int, n: nat)
    requires n <= perMin && GoesTo(s.hits, key, bucket) && Recent(TimesOf(s.hits, bucket), t) == []
    ensures var after := RunFrom(perMin, s, Repeat(Ask(key, t), n));
      && after.log == s.log + Repeat(Admission(key, bucket, t), n)
      && after.hits == (if n == 0 then s.hits else s.hits[bucket := Repeat(t, n)])
      && GoesTo(after.hits, key, bucket)
  {
    hide GoesTo, OVERFLOW, Step, Recent;
    if n == 0 {
      assert s.log + Repeat(Admission(key, bucket, t), 0) == s.log;
    } else {
      var events, a := Repeat(Ask(key, t), n), Admission(key, bucket, t);
      BurstRuns(perMin, s, key, bucket, t, n - 1);
      RepeatSnoc(Ask(key, t), n - 1, []);
      var before := RunFrom(perMin, s, events[..n - 1]);
      AllRecent(n - 1, t, t);
      assert Repeat(t, 0) == [];
      BurstStep(perMin, before, key, bucket, t, n - 1);
      RepeatSnoc(a, n - 1, s.log);
    }
  }

  lemma {:induction false} CountRepeat(log: seq<Admission>, a: Admission, n: nat, whose: Whose, t: int)
    requires Belongs(a, whose) && t - WINDOW < a.time <= t
    ensures Count(log + Repeat(a, n), whose, t) == Count(log, whose, t) + n
  {
    hide Belongs;
    if n == 0 {
      assert log + Repeat(a, 0) == log;
    } else {
      CountRepeat(log, a, n - 1, whose, t);
      assert log + Repeat(a, n) == log + Repeat(a, n - 1) + [a];
      CountSnoc(log + Repeat(a, n - 1), a, whose, t);
    }
  }

  lemma {:induction false} CountOld(log: seq<Admission>, whose: Whose, t: int)
    requires forall i :: 0 <= i < |log| ==> log[i].time <= t - WINDOW
    ensures Count(log, whose, t) == 0
  {
    if log != [] {
      CountOld(log[..|log| - 1], whose, t);
    }
  }

  /** A crowd that fills the map, a burst into the shared bucket, the sweep, a burst into the client's own bucket. */
  function DoubleBurst(perMin: nat, crowd: seq<string>, client: string): seq<Event> {
    Crowd(crowd) + Repeat(Ask(client, WINDOW), perMin) + [Tick(WINDOW)] + Repeat(Ask(client, WINDOW), perMin)
  }

  lemma SweepsCrowd(perMin: nat, crowd: seq<string>)
    requires perMin > 0
    ensures AfterSweep(CrowdHits(crowd)[OVERFLOW := Repeat(WINDOW, perMin)], WINDOW)
         == map[OVERFLOW := Repeat(WINDOW, perMin)]
  {
    AllRecent(perMin, WINDOW, WINDOW);
    assert Recent([0], WINDOW) == [];
  }

  lemma CrowdIsOld(crowd: seq<string>)
    ensures Recent(TimesOf(CrowdHits(crowd), OVERFLOW), WINDOW) == []
  {
    assert Recent([0], WINDOW) == [];
  }

  /** A full map without the client: the client gets twice the limit in one window. */
  lemma DoubleBurstReached(perMin: nat, crowd: seq<string>, client: string)
    requires perMin > 0 && Distinct(crowd) && |crowd| == MAX_KEYS && client !in crowd && client != OVERFLOW
    ensures Count(Run(perMin, DoubleBurst(perMin, crowd, client)).log, OfKey(client), WINDOW) == 2 * perMin
  {
    hide Crowd, CrowdHits, Count, Recent, Run, RunFrom, OVERFLOW;
    var start, burst := Crowd(crowd), Repeat(Ask(client, WINDOW), perMin);
    CrowdRuns(perMin, crowd);
    CrowdSize(crowd);
    CrowdKeys(crowd);
    CrowdIsOld(crowd);
    var s0 := Run(perMin, start);
    BurstRuns(perMin, s0, client, OVERFLOW, WINDOW, perMin);
    RunConcat(perMin, start, burst);
    var s1 := Run(perMin, start + burst);
    TickRuns(perMin, start + burst);
    var s2 := Run(perMin, start + burst + [Tick(WINDOW)]);
    SweepsCrowd(perMin, crowd);
    EmptyRecent(WINDOW);
    BurstRuns(perMin, s2, client, client, WINDOW, perMin);
    RunConcat(perMin, start + burst + [Tick(WINDOW)], burst);
    CountOld(s0.log, OfKey(client), WINDOW);
    CountRepeat(s0.log, Admission(client, OVERFLOW, WINDOW), perMin, OfKey(client), WINDOW);
    CountRepeat(s1.log, Admission(client, client, WINDOW), perMin, OfKey(client), WINDOW);
  }

  lemma CrowdKeys(crowd: seq<string>)
    ensures forall key :: key in CrowdHits(crowd) <==> key in crowd
  {
  }

  lemma EmptyRecent(t: int)
    ensures Recent([], t) == []
  {
  }

  lemma TickRuns(perMin: nat, events: seq<Event>)
    ensures Run(perMin, events + [Tick(WINDOW)]) == Step(perMin, Run(perMin, events), Tick(WINDOW))
  {
    assert (events + [Tick(WINDOW)])[..|events|] == events;
  }

  lemma DoubleBurstEvents(perMin: nat, crowd: seq<string>, client: string)
    ensures Ordered(DoubleBurst(perMin, crowd, client))
    ensures forall key :: key in Keys(DoubleBurst(perMin, crowd, client)) ==> key in crowd || key == client
  {
  }

  /** Whoever of the given keys calls, and whenever: no key ever gets more than the limit in a window. */
  ghost predicate KeysBounded(perMin: nat, keys: set<string>) {
    forall events, key, t :: Ordered(events) && Keys(events) <= keys ==>
      Count(Run(perMin, events).log, OfKey(key), t) <= perMin
  }

  lemma FewKeysBounded(perMin: nat, events: seq<Event>, key: string, t: int)
    requires Ordered(events) && |Keys(events)| <= MAX_KEYS
    ensures Count(Run(perMin, events).log, OfKey(key), t) <= perMin
  {
    hide Run, Count, Reference;
    RefinesLog(perMin, events);
    OwnBucketCount(Run(perMin, events).log, key, t);
    WindowBound(perMin, events, key, t);
  }

  lemma ManyKeysExceed(perMin: nat, keys: set<string>) returns (events: seq<Event>, client: string)
    requires perMin > 0 && |keys| > MAX_KEYS
    ensures Ordered(events) && Keys(events) <= keys && Count(Run(perMin, events).log, OfKey(client), WINDOW) > perMin
  {
    hide Run, Count, Keys, Crowd, DoubleBurst, OVERFLOW;
    var others := SetHasList(keys - {OVERFLOW});
    assert keys <= (keys - {OVERFLOW}) + {OVERFLOW};
    FewerKeys(keys, (keys - {OVERFLOW}) + {OVERFLOW});
    client := others[0];
    assert client in others;
    var rest := SetHasList(keys - {client});
    var crowd := rest[..MAX_KEYS];
    assert forall key :: key in crowd ==> key in rest;
    DoubleBurstReached(perMin, crowd, client);
    DoubleBurstEvents(perMin, crowd, client);
    events := DoubleBurst(perMin, crowd, client);
  }

  /**
   * The limit holds for every single key in every run if and only if there are no more keys than the cap, or it is
   * zero.
   */
  lemma KeyLimitExact(perMin: nat, keys: set<string>)
    ensures KeysBounded(perMin, keys) <==> |keys| <= 10_000 || perMin == 0
  {
    hide Run, Count, Keys, Ordered;
    if |keys| <= MAX_KEYS || perMin == 0 {
      forall events, key, t | Ordered(events) && Keys(events) <= keys
        ensures Count(Run(perMin, events).log, OfKey(key), t) <= perMin
      {
        if perMin == 0 {
          KeyBound(perMin, events, key, t);
        } else {
          FewerKeys(Keys(events), keys);
          FewKeysBounded(perMin, events, key, t);
        }
      }
    } else {
      var events, client := ManyKeysExceed(perMin, keys);
    }
  }

  /** With a limit of one, a second call of the same key is admitted exactly when a minute has passed. */
  lemma OnePerMinute(key: string, first: int, second: int)
    requires first <= second
    ensures Run(1, [Ask(key, first), Ask(key, second)]).answers == [false, second - first < 60_000]
  {
    var one, two := [Ask(key, first)], [Ask(key, first), Ask(key, second)];
    assert one[..0] == [] && two[..1] == one;
    assert Recent([], first) == [];
    assert [first][1..] == [];
    assert Recent([first], second) == if second - first < 60_000 then [first] else [];
    var start := State(map[], [], []);
    assert Run(1, []) == start && one[0] == Ask(key, first);
    assert BucketOf(start.hits, key) == key && Kept(start.hits, key, first) == [];
    var none: seq<int> := [];
    assert none + [first] == [first];
    assert AfterCall(start.hits, 1, key, first) == map[key := [first]];
    var after := Step(1, start, Ask(key, first));
    assert after.hits == map[key := [first]] && after.answers == [false];
    assert Kept(after.hits, key, second) == Recent([first], second);
    assert Run(1, one) == after && Run(1, two) == Step(1, after, Ask(key, second));
  }
}
