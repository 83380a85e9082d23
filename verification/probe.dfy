/** The relay's probe tracker (src/zsyncd.rs): bans after repeated failures, and what they mean. */
module Probes {
  import opened Basics

  /** Times are in nanoseconds. */
  const PROBE_WINDOW: int := 60 * 1_000_000_000
  const PROBE_MAX_FAILS: nat := 8
  const PROBE_BAN: int := 10 * 60 * 1_000_000_000

  datatype ProbeState = ProbeState(fails: nat, window: int, bannedUntil: Option<int>)

  type Table = map<string, ProbeState>

  function Get(table: Table, ip: string): Option<ProbeState> {
    if ip in table then Some(table[ip]) else None
  }

  predicate Banned(entry: Option<ProbeState>, now: int) {
    entry.Some? && entry.value.bannedUntil.Some? && now < entry.value.bannedUntil.value
  }

  function Failed(entry: Option<ProbeState>, now: int): ProbeState {
    var s := if entry.Some? then entry.value else ProbeState(0, now, None);
    var s' := if now - s.window > PROBE_WINDOW then s.(fails := 0, window := now) else s;
    var fails := s'.fails + 1;
    s'.(fails := fails, bannedUntil := if fails >= PROBE_MAX_FAILS then Some(now + PROBE_BAN) else s'.bannedUntil)
  }

  predicate Live(s: ProbeState, now: int) {
    Banned(Some(s), now) || now - s.window <= PROBE_WINDOW
  }

  function Collected(table: Table, now: int): Table {
    map ip | ip in table && Live(table[ip], now) :: table[ip]
  }

  class ProbeTracker {
    var inner: Table

    constructor ()
      ensures inner == map[]
    {
      inner := map[];
    }

    method IsBanned(ip: string, now: int) returns (banned: bool)
      modifies this
      ensures inner == Collected(old(inner), now)
      ensures banned == Banned(Get(inner, ip), now)
    {
      Gc(now);
      if ip in inner {
        banned := inner[ip].bannedUntil.Some? && now < inner[ip].bannedUntil.value;
      } else {
        banned := false;
      }
    }

    method Fail(ip: string, now: int)
      modifies this
      ensures inner == old(inner)[ip := Failed(Get(old(inner), ip), now)]
    {
      var s := if ip in inner then inner[ip] else ProbeState(0, now, None);
      if now - s.window > PROBE_WINDOW {
        s := s.(fails := 0, window := now);
      }
      s := s.(fails := s.fails + 1);
      if s.fails >= PROBE_MAX_FAILS {
        s := s.(bannedUntil := Some(now + PROBE_BAN));
      }
      inner := inner[ip := s];
    }

    method Ok(ip: string)
      modifies this
      ensures inner == old(inner) - {ip}
    {
      inner := inner - {ip};
    }

    method Gc(now: int)
      modifies this
      ensures inner == Collected(old(inner), now)
    {
      inner := map ip | ip in inner && Live(inner[ip], now) :: inner[ip];
    }
  }

  // Runs, with and without garbage collection.

  datatype Event = Fail(ip: string, now: int) | Pass(ip: string, now: int) | Query(ip: string, now: int)

  function Step(gc: bool, table: Table, e: Event): Table {
    match e
    case Fail(ip, now) => table[ip := Failed(Get(table, ip), now)]
    case Pass(ip, _) => table - {ip}
    case Query(_, now) => if gc then Collected(table, now) else table
  }

  function After(gc: bool, events: seq<Event>): Table {
    if events == [] then map[] else Step(gc, After(gc, events[..|events| - 1]), events[|events| - 1])
  }

  /** What a query asked at `now` answers. */
  predicate Answer(gc: bool, table: Table, ip: string, now: int) {
    Banned(Get(if gc then Collected(table, now) else table, ip), now)
  }

  ghost predicate Ordered(events: seq<Event>) {
    forall i, j :: 0 <= i < j < |events| ==> events[i].now <= events[j].now
  }

  ghost predicate NotAfter(events: seq<Event>, now: int) {
    forall i :: 0 <= i < |events| ==> events[i].now <= now
  }

  /** An entry of the collecting tracker against the one of the tracker that never collects. */
  predicate Alike(x: Option<ProbeState>, y: Option<ProbeState>, now: int) {
    || x == y
    || (x.None? && !Live(y.value, now))
    || (x.Some? && y.Some? && x.value.fails == y.value.fails && x.value.window == y.value.window
        && x.value.bannedUntil.None? && y.value.bannedUntil.Some? && y.value.bannedUntil.value <= now)
  }

  ghost predicate Bisimilar(a: Table, b: Table, now: int) {
    forall ip :: Alike(Get(a, ip), Get(b, ip), now)
  }

  lemma StepIsBisimilar(a: Table, b: Table, before: int, e: Event)
    requires Bisimilar(a, b, before) && before <= e.now
    ensures Bisimilar(Step(true, a, e), Step(false, b, e), e.now)
  {
    forall ip
      ensures Alike(Get(Step(true, a, e), ip), Get(Step(false, b, e), ip), e.now)
    {
      assert Alike(Get(a, ip), Get(b, ip), before);
    }
  }

  lemma {:induction false} RunsAreBisimilar(events: seq<Event>, now: int)
    requires Ordered(events) && NotAfter(events, now)
    ensures Bisimilar(After(true, events), After(false, events), now)
    decreases |events|
  {
    if events != [] {
      var front, last := events[..|events| - 1], events[|events| - 1];
      RunsAreBisimilar(front, last.now);
      StepIsBisimilar(After(true, front), After(false, front), last.now, last);
      forall ip
        ensures Alike(Get(After(true, events), ip), Get(After(false, events), ip), now)
      {
        assert Alike(Get(After(true, events), ip), Get(After(false, events), ip), last.now);
      }
    }
  }

  /** Collection cannot be observed: every query of every run is answered as by a tracker that never collects. */
  lemma GcIsUnobservable(events: seq<Event>, ip: string, now: int)
    requires Ordered(events) && NotAfter(events, now)
    ensures Answer(true, After(true, events), ip, now) == Answer(false, After(false, events), ip, now)
  {
    RunsAreBisimilar(events, now);
    assert Alike(Get(After(true, events), ip), Get(After(false, events), ip), now);
  }

  // Fourteen failures within one window are enough, thirteen are not.

  predicate Fails(e: Event, ip: string) {
    e.Fail? && e.ip == ip
  }

  function FailCount(events: seq<Event>, ip: string): nat {
    if events == [] then 0 else
    FailCount(events[..|events| - 1], ip) + if Fails(events[|events| - 1], ip) then 1 else 0
  }

  const MINUTE: int := 60_000_000_000

  /** Events that happen within a minute from `start`, none of them a success of this address. */
  ghost predicate Burst(events: seq<Event>, ip: string, start: int) {
    forall e :: e in events ==> start <= e.now <= start + MINUTE && !(e.Pass? && e.ip == ip)
  }

  /**
   * Where an entry stands after `n` failures of a burst: banned, or still counting in a window opened
   * before it, in which case at most 6 fit, or counting in a window opened during it.
   */
  predicate Counting(entry: Option<ProbeState>, start: int, n: nat) {
    if entry.None? then n == 0 else
    var s := entry.value;
    || (s.bannedUntil.Some? && start + PROBE_BAN <= s.bannedUntil.value)
    || (s.window < start && n < s.fails && n <= 6)
    || (start <= s.window && n <= s.fails + 6 && s.fails <= 7)
  }

  predicate Started(entry: Option<ProbeState>, start: int) {
    entry.Some? ==> 1 <= entry.value.fails && entry.value.window <= start
  }

  lemma {:induction false} EntriesCount(events: seq<Event>, ip: string, now: int)
    requires Ordered(events) && NotAfter(events, now)
    ensures Started(Get(After(false, events), ip), now)
    ensures var entry := Get(After(false, events), ip);
            entry.Some? && PROBE_MAX_FAILS <= entry.value.fails ==>
              entry.value.bannedUntil.Some? && entry.value.window + PROBE_BAN <= entry.value.bannedUntil.value
    decreases |events|
  {
    if events != [] {
      EntriesCount(events[..|events| - 1], ip, events[|events| - 1].now);
    }
  }

  lemma {:induction false} BurstIsCounted(before: seq<Event>, burst: seq<Event>, ip: string, start: int)
    requires Ordered(before + burst) && NotAfter(before, start) && Burst(burst, ip, start)
    ensures Counting(Get(After(false, before + burst), ip), start, FailCount(burst, ip))
    decreases |burst|
  {
    if burst == [] {
      assert before + burst == before;
      EntriesCount(before, ip, start);
    } else {
      var front, last := burst[..|burst| - 1], burst[|burst| - 1];
      assert (before + burst)[..|before + burst| - 1] == before + front;
      assert last in burst && forall e :: e in front ==> e in burst;
      BurstIsCounted(before, front, ip, start);
    }
  }

  /** Whatever happens after a ban, short of a success of the address, keeps it or puts it off. */
  lemma {:induction false} BanIsKept(before: seq<Event>, later: seq<Event>, ip: string, until: int)
    requires Ordered(before + later) && NoPass(later, ip, 0)
    requires forall i :: 0 <= i < |later| ==> until <= later[i].now + PROBE_BAN
    requires BannedUntil(Get(After(false, before), ip), until)
    ensures BannedUntil(Get(After(false, before + later), ip), until)
    decreases |later|
  {
    if later == [] {
      assert before + later == before;
    } else {
      var front, last := later[..|later| - 1], later[|later| - 1];
      assert (before + later)[..|before + later| - 1] == before + front;
      assert !(last.Pass? && last.ip == ip);
      BanIsKept(before, front, ip, until);
    }
  }

  predicate BannedUntil(entry: Option<ProbeState>, until: int) {
    entry.Some? && entry.value.bannedUntil.Some? && until <= entry.value.bannedUntil.value
  }

  /**
   * Fourteen failures of an address inside one minute, with no success since the first of them, ban it,
   * whatever came before, happens in between or comes later, until ten minutes after the first.
   */
  lemma FourteenFailsBan(
    before: seq<Event>, burst: seq<Event>, later: seq<Event>, ip: string, start: int, now: int)
    requires Ordered(before + burst + later) && NotAfter(before, start) && Burst(burst, ip, start)
    requires 14 <= FailCount(burst, ip) && NoPass(later, ip, 0)
    requires NotAfter(before + burst + later, now) && now < start + 10 * MINUTE
    ensures Answer(true, After(true, before + burst + later), ip, now)
  {
    var all, early := before + burst + later, before + burst;
    assert forall i :: 0 <= i < |early| ==> early[i] == all[i];
    BurstIsCounted(before, burst, ip, start);
    assert burst != [] && burst[0] in burst;
    assert early[|before|] == burst[0] == all[|before|];
    forall i | 0 <= i < |later|
      ensures start + PROBE_BAN <= later[i].now + PROBE_BAN
    {
      assert all[|early| + i] == later[i];
    }
    hide After, FailCount, Failed;
    BanIsKept(early, later, ip, start + PROBE_BAN);
    GcIsUnobservable(all, ip, now);
  }

  lemma AfterOneMore(events: seq<Event>, e: Event, ip: string)
    ensures After(false, events + [e]) == Step(false, After(false, events), e)
    ensures FailCount(events + [e], ip) == FailCount(events, ip) + if Fails(e, ip) then 1 else 0
  {
    assert (events + [e])[..|events|] == events;
  }

  function Repeat(e: Event, n: nat): seq<Event> {
    if n == 0 then [] else Repeat(e, n - 1) + [e]
  }

  lemma {:induction false} RepeatIs(e: Event, n: nat)
    ensures |Repeat(e, n)| == n && forall x :: x in Repeat(e, n) ==> x == e
    ensures e.Fail? ==> FailCount(Repeat(e, n), e.ip) == n
    decreases n
  {
    if n > 0 {
      RepeatIs(e, n - 1);
      AfterOneMore(Repeat(e, n - 1), e, e.ip);
    }
  }

  lemma {:induction false} RepeatedFails(before: seq<Event>, ip: string, now: int, n: nat, s: ProbeState)
    requires Get(After(false, before), ip) == Some(s)
    requires s.bannedUntil.None? && now - s.window <= PROBE_WINDOW && s.fails + n < PROBE_MAX_FAILS
    ensures Get(After(false, before + Repeat(Fail(ip, now), n)), ip) == Some(s.(fails := s.fails + n))
    decreases n
  {
    var e := Fail(ip, now);
    hide After, FailCount;
    if n == 0 {
      assert before + [] == before;
    } else {
      RepeatedFails(before, ip, now, n - 1, s);
      AfterOneMore(before + Repeat(e, n - 1), e, ip);
      assert before + Repeat(e, n - 1) + [e] == before + Repeat(e, n);
    }
  }

  lemma {:induction false} FailCountOfBoth(a: seq<Event>, b: seq<Event>, ip: string)
    ensures FailCount(a + b, ip) == FailCount(a, ip) + FailCount(b, ip)
    decreases |b|
  {
    if b == [] {
      assert a + b == a;
    } else {
      assert (a + b)[..|a + b| - 1] == a + b[..|b| - 1];
      FailCountOfBoth(a, b[..|b| - 1], ip);
    }
  }

  const HALF: int := 30 * 1_000_000_000
  const LATE: int := 61 * 1_000_000_000

  /** Six failures half a minute after the first one, and seven just after its window. */
  function Thirteen(ip: string): seq<Event> {
    Repeat(Fail(ip, HALF), 6) + [Fail(ip, LATE)] + Repeat(Fail(ip, LATE), 6)
  }

  lemma ThirteenCount(ip: string)
    ensures FailCount(Thirteen(ip), ip) == 13
  {
    var six, late := Repeat(Fail(ip, HALF), 6), Fail(ip, LATE);
    RepeatIs(Fail(ip, HALF), 6);
    RepeatIs(late, 6);
    AfterOneMore(six, late, ip);
    hide FailCount, Repeat, After;
    FailCountOfBoth(six + [late], Repeat(late, 6), ip);
  }

  lemma ThirteenLeave(ip: string)
    ensures Get(After(false, [Fail(ip, 0)] + Thirteen(ip)), ip) == Some(ProbeState(7, LATE, None))
  {
    var first, six, late := [Fail(ip, 0)], Repeat(Fail(ip, HALF), 6), Fail(ip, LATE);
    AfterOneMore([], Fail(ip, 0), ip);
    assert [] + first == first;
    assert Get(After(false, first), ip) == Some(ProbeState(1, 0, None));
    hide After, Repeat, FailCount;
    RepeatedFails(first, ip, HALF, 6, ProbeState(1, 0, None));
    AfterOneMore(first + six, late, ip);
    RepeatedFails(first + six + [late], ip, LATE, 6, ProbeState(1, LATE, None));
    assert first + Thirteen(ip) == first + six + [late] + Repeat(late, 6);
  }

  lemma ThirteenTimes(ip: string)
    ensures Ordered([Fail(ip, 0)] + Thirteen(ip)) && NotAfter([Fail(ip, 0)] + Thirteen(ip), LATE)
    ensures Burst(Thirteen(ip), ip, HALF)
  {
    var all, six, late := [Fail(ip, 0)] + Thirteen(ip), Repeat(Fail(ip, HALF), 6), Fail(ip, LATE);
    RepeatIs(Fail(ip, HALF), 6);
    RepeatIs(late, 6);
    hide Repeat;
    forall i | 0 <= i < |all|
      ensures all[i] == Fail(ip, if i == 0 then 0 else if i <= 6 then HALF else LATE)
    {
      assert 1 <= i <= 6 ==> all[i] == six[i - 1] && six[i - 1] in six;
      assert 8 <= i ==> all[i] == Repeat(late, 6)[i - 8] && Repeat(late, 6)[i - 8] in Repeat(late, 6);
    }
  }

  /** Thirteen failures in 31 seconds, after one just before them, and no ban. */
  lemma ThirteenAreTooFew(ip: string) returns (before: seq<Event>, burst: seq<Event>, start: int, now: int)
    ensures Ordered(before + burst) && NotAfter(before, start) && Burst(burst, ip, start)
    ensures 13 == FailCount(burst, ip)
    ensures NotAfter(before + burst, now) && now < start + 10 * MINUTE
    ensures !Answer(true, After(true, before + burst), ip, now)
  {
    before, burst, start, now := [Fail(ip, 0)], Thirteen(ip), HALF, LATE;
    hide After, FailCount, Thirteen;
    ThirteenCount(ip);
    ThirteenLeave(ip);
    ThirteenTimes(ip);
    GcIsUnobservable(before + burst, ip, now);
  }

  // Every ban has its reason.

  ghost predicate NoPass(events: seq<Event>, ip: string, from: nat) {
    forall i :: from <= i < |events| ==> !(events[i].Pass? && events[i].ip == ip)
  }

  /** At least 8 failures from event k to event m, at most a minute apart, and no success since k. */
  ghost predicate Reason(events: seq<Event>, ip: string, k: nat, m: nat) {
    && k <= m < |events| && Fails(events[k], ip) && Fails(events[m], ip)
    && 8 <= FailCount(events[k..m + 1], ip)
    && events[m].now - events[k].now <= MINUTE
    && NoPass(events, ip, k)
  }

  ghost predicate BackedBan(events: seq<Event>, ip: string, until: int) {
    exists k: nat, m: nat :: Reason(events, ip, k, m) && until == events[m].now + PROBE_BAN
  }

  ghost predicate OpenedAt(events: seq<Event>, ip: string, s: ProbeState, k: nat) {
    && k < |events| && Fails(events[k], ip) && events[k].now == s.window
    && s.fails == FailCount(events[k..], ip)
    && NoPass(events, ip, k)
  }

  ghost predicate Explained(events: seq<Event>, ip: string, s: ProbeState) {
    && (exists k: nat :: OpenedAt(events, ip, s, k))
    && (s.bannedUntil.Some? ==> BackedBan(events, ip, s.bannedUntil.value))
  }

  lemma ReasonStays(events: seq<Event>, e: Event, ip: string, until: int)
    requires BackedBan(events, ip, until) && !(e.Pass? && e.ip == ip)
    ensures BackedBan(events + [e], ip, until)
  {
    var k: nat, m: nat :| Reason(events, ip, k, m) && until == events[m].now + PROBE_BAN;
    assert (events + [e])[k..m + 1] == events[k..m + 1];
    assert Reason(events + [e], ip, k, m);
  }

  /** After a failure the count runs from where it did, or from this failure. */
  lemma FailIsOpened(events: seq<Event>, ip: string, now: int, entry: Option<ProbeState>) returns (k: nat)
    requires entry.Some? ==> exists k: nat :: OpenedAt(events, ip, entry.value, k)
    ensures OpenedAt(events + [Fail(ip, now)], ip, Failed(entry, now), k)
    ensures now - (events + [Fail(ip, now)])[k].now <= PROBE_WINDOW
  {
    var e := Fail(ip, now);
    var all := events + [e];
    AfterOneMore([], e, ip);
    assert [] + [e] == [e] && FailCount([], ip) == 0;
    hide FailCount;
    if entry.Some? && now - entry.value.window <= PROBE_WINDOW {
      k :| OpenedAt(events, ip, entry.value, k);
      assert all[k..] == events[k..] + [e];
      FailCountOfBoth(events[k..], [e], ip);
    } else {
      k := |events|;
      assert all[k..] == [e];
    }
  }

  lemma FailIsExplained(events: seq<Event>, ip: string, now: int, entry: Option<ProbeState>)
    requires entry.Some? ==> Explained(events, ip, entry.value)
    ensures Explained(events + [Fail(ip, now)], ip, Failed(entry, now))
  {
    var e := Fail(ip, now);
    var all, s' := events + [e], Failed(entry, now);
    var k := FailIsOpened(events, ip, now, entry);
    var n := |events|;
    hide FailCount;
    if PROBE_MAX_FAILS <= s'.fails {
      assert all[k..n + 1] == all[k..];
      assert Reason(all, ip, k, n);
    } else if entry.Some? && entry.value.bannedUntil.Some? {
      ReasonStays(events, e, ip, entry.value.bannedUntil.value);
    }
  }

  lemma {:induction false} EntriesAreExplained(events: seq<Event>, ip: string)
    requires Ordered(events)
    ensures var entry := Get(After(false, events), ip);
            entry.Some? ==> Explained(events, ip, entry.value)
    decreases |events|
  {
    if events != [] {
      var front, last := events[..|events| - 1], events[|events| - 1];
      EntriesAreExplained(front, ip);
      assert events == front + [last];
      if Fails(last, ip) {
        FailIsExplained(front, ip, last.now, Get(After(false, front), ip));
      } else if !(last.Pass? && last.ip == ip) && Get(After(false, front), ip).Some? {
        OtherEventsExplain(front, last, ip, Get(After(false, front), ip).value);
      }
    }
  }

  lemma OtherEventsExplain(events: seq<Event>, e: Event, ip: string, s: ProbeState)
    requires Explained(events, ip, s) && !Fails(e, ip) && !(e.Pass? && e.ip == ip)
    ensures Explained(events + [e], ip, s)
  {
    var k: nat :| OpenedAt(events, ip, s, k);
    assert (events + [e])[k..] == events[k..] + [e];
    FailCountOfBoth(events[k..], [e], ip);
    assert [e][..0] == [];
    assert OpenedAt(events + [e], ip, s, k);
    if s.bannedUntil.Some? {
      ReasonStays(events, e, ip, s.bannedUntil.value);
    }
  }

  /**
   * A banned address failed 8 times within one minute, the last time less than ten minutes ago, and has not
   * succeeded since.
   */
  lemma BansAreBacked(events: seq<Event>, ip: string, now: int)
    requires Ordered(events) && NotAfter(events, now) && Answer(true, After(true, events), ip, now)
    ensures exists k: nat, m: nat :: Reason(events, ip, k, m) && now - events[m].now < 10 * MINUTE
  {
    GcIsUnobservable(events, ip, now);
    EntriesAreExplained(events, ip);
    var until := Get(After(false, events), ip).value.bannedUntil.value;
    var k: nat, m: nat :| Reason(events, ip, k, m) && until == events[m].now + PROBE_BAN;
  }

  /** Whoever has not failed for ten minutes is forgotten by the next collection. */
  lemma IdleIsForgotten(events: seq<Event>, ip: string, now: int)
    requires Ordered(events) && NotAfter(events, now)
    requires forall i :: 0 <= i < |events| && Fails(events[i], ip) ==> events[i].now + 10 * MINUTE <= now
    ensures ip !in Collected(After(true, events), now)
  {
    RunsAreBisimilar(events, now);
    EntriesAreExplained(events, ip);
    assert Alike(Get(After(true, events), ip), Get(After(false, events), ip), now);
    hide After, FailCount;
  }
}
