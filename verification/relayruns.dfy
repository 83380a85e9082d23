/**
 * Runs of the relay (src/zsyncd.rs, `serve_leaf`): who keeps a seat, and what a member hears.
 *
 * A session joins once, under a fresh number, and keeps its own copy of its group and device, its
 * seat.  If the acknowledgement cannot be written it is abandoned and never leaves; otherwise it may
 * speak, take from its queue, and leave at any time.
 */
module RelayRuns {
  import opened Basics
  import opened Rooms

  datatype Seat = Seat(group: string, device: string)

  datatype Phase = Joining | Serving | Over

  datatype Server = Server(relay: Relay, seats: map<nat, Seat>, phases: map<nat, Phase>, taken: map<nat, seq<Bytes>>)

  datatype Event =
    | Join(session: nat, who: Seat)
    | Ack(session: nat)
    | Abandon(session: nat)
    | Speak(session: nat, who: Seat, payload: Bytes)
    | Take(session: nat)
    | Leave(session: nat, who: Seat)
    | Kick(who: Seat)
    | KickGroup(group: string)

  predicate Acts(s: Server, session: nat, phase: Phase) {
    session in s.phases && s.phases[session] == phase
  }

  predicate Enabled(s: Server, e: Event) {
    match e
    case Join(session, _) => session !in s.seats
    case Ack(session) => Acts(s, session, Joining)
    case Abandon(session) => Acts(s, session, Joining)
    case Speak(session, who, _) => Acts(s, session, Serving) && session in s.seats && s.seats[session] == who
    case Take(session) =>
      && Acts(s, session, Serving) && session in s.taken
      && session in s.relay.queues && s.relay.queues[session] != []
    case Leave(session, who) => Acts(s, session, Serving) && session in s.seats && s.seats[session] == who
    case Kick(_) => true
    case KickGroup(_) => true
  }

  function Closed(relay: Relay, session: nat): Relay {
    relay.(queues := relay.queues - {session})
  }

  function Next(s: Server, e: Event): Server
    requires Enabled(s, e)
  {
    match e
    case Join(session, who) =>
      Server(Joined(s.relay, who.group, who.device, session),
        s.seats[session := who], s.phases[session := Joining], s.taken[session := []])
    case Ack(session) => s.(phases := s.phases[session := Serving])
    case Abandon(session) => s.(relay := Closed(s.relay, session), phases := s.phases[session := Over])
    case Speak(_, who, payload) =>
      s.(relay := s.relay.(queues := Offered(s.relay.queues, Room(s.relay.inner, who.group), who.device, payload)))
    case Take(session) =>
      var queue := s.relay.queues[session];
      s.(relay := s.relay.(queues := s.relay.queues[session := queue[1..]]),
         taken := s.taken[session := s.taken[session] + [queue[0]]])
    case Leave(session, who) =>
      s.(relay := Closed(Left(s.relay, who.group, who.device), session), phases := s.phases[session := Over])
    case Kick(who) => s.(relay := Kicked(s.relay, who.group, who.device))
    case KickGroup(group) => s.(relay := GroupKicked(s.relay, group))
  }

  const EMPTY: Server := Server(Relay(map[], map[], {}), map[], map[], map[])

  predicate Run(events: seq<Event>)
    decreases |events|, 0
  {
    events == [] || (var n := |events| - 1; Run(events[..n]) && Enabled(After(events[..n]), events[n]))
  }

  function After(events: seq<Event>): Server
    requires Run(events)
    decreases |events|, 1
  {
    if events == [] then EMPTY else Next(After(events[..|events| - 1]), events[|events| - 1])
  }

  // What the history says.

  datatype Standing = Absent | Seated | Signalled | Removed

  predicate Unseats(e: Event, who: Seat) {
    match e
    case Join(_, other) => other == who
    case Leave(_, other) => other == who
    case Kick(other) => other == who
    case KickGroup(group) => group == who.group
    case _ => false
  }

  /**
   * A session is seated by its own join, until the first event that clears the seat.  All of these
   * signal it, except a leave: that of the session itself, or of any other one with the same seat.
   */
  function Moved(standing: Standing, session: nat, who: Seat, e: Event): Standing {
    if e == Join(session, who) then Seated
    else if standing != Seated || !Unseats(e, who) then standing
    else if e.Leave? then Removed
    else Signalled
  }

  function StandingOf(events: seq<Event>, session: nat, who: Seat): Standing {
    if events == [] then Absent else
    Moved(StandingOf(events[..|events| - 1], session, who), session, who, events[|events| - 1])
  }

  /** A word of another device of the group, said while the session was seated and its queue open and not full. */
  predicate Hears(s: Server, standing: Standing, session: nat, who: Seat, e: Event) {
    && e.Speak? && e.who.group == who.group && e.who.device != who.device
    && standing == Seated
    && session in s.relay.queues && |s.relay.queues[session]| < 16
  }

  function Heard(events: seq<Event>, session: nat, who: Seat): seq<Bytes>
    requires Run(events)
  {
    if events == [] then [] else
    var front, last := events[..|events| - 1], events[|events| - 1];
    Heard(front, session, who)
    + if Hears(After(front), StandingOf(front, session, who), session, who, last) then [last.payload] else []
  }

  // Lists of members.

  ghost predicate Distinct(members: seq<Member>) {
    forall i, j :: 0 <= i < j < |members| ==> members[i].deviceId != members[j].deviceId
  }

  lemma {:induction false} OthersAre(members: seq<Member>, device: string)
    ensures forall m :: m in Others(members, device) <==> m in members && m.deviceId != device
    ensures Distinct(members) ==> Distinct(Others(members, device))
    decreases |members|
  {
    if members != [] {
      var front, last := members[..|members| - 1], members[|members| - 1];
      OthersAre(front, device);
      assert members == front + [last];
      if Distinct(members) {
        assert forall m :: m in Others(front, device) ==> m.deviceId != last.deviceId;
      }
    }
  }

  /** What stays stays in its order. */
  lemma {:induction false} OthersOfBoth(a: seq<Member>, b: seq<Member>, device: string)
    ensures Others(a + b, device) == Others(a, device) + Others(b, device)
    decreases |b|
  {
    if b == [] {
      assert a + b == a;
    } else {
      assert (a + b)[..|a + b| - 1] == a + b[..|b| - 1];
      OthersOfBoth(a, b[..|b| - 1], device);
    }
  }

  lemma {:induction false} NoOneElse(members: seq<Member>, device: string)
    requires forall m :: m in members ==> m.deviceId != device
    ensures Others(members, device) == members
    decreases |members|
  {
    if members != [] {
      var front, last := members[..|members| - 1], members[|members| - 1];
      assert members == front + [last] && last in members;
      NoOneElse(front, device);
    }
  }

  lemma FirstIs(members: seq<Member>, device: string, i: nat)
    requires i < |members| && members[i].deviceId == device
    requires forall j :: 0 <= j < i ==> members[j].deviceId != device
    ensures FirstOf(members, device) == i
  {
  }

  lemma {:induction false} RemovedIsOthers(members: seq<Member>, device: string)
    requires Distinct(members)
    ensures RemoveAt(members, FirstOf(members, device)) == Others(members, device)
    decreases |members|
  {
    hide FirstOf;
    var i := FirstOf(members, device);
    if i == |members| {
      NoOneElse(members, device);
    } else if i == |members| - 1 {
      NoOneElse(members[..i], device);
      assert RemoveAt(members, i) == members[..i];
    } else {
      var front, last := members[..|members| - 1], members[|members| - 1];
      RemovedIsOthers(front, device);
      FirstIs(front, device, i);
      assert RemoveAt(members, i) == RemoveAt(front, i) + [last];
    }
  }

  lemma FoundIs(members: seq<Member>, device: string)
    requires Distinct(members)
    ensures forall session :: session in Found(members, device) <==> Member(device, session) in members
  {
    var i := FirstOf(members, device);
    hide FirstOf;
    if i < |members| {
      assert forall j :: 0 <= j < |members| && members[j].deviceId == device ==> j == i;
      assert members[i] == Member(device, members[i].session);
    }
  }

  // One step of the rooms.

  ghost predicate Consistent(s: Server) {
    && (forall group :: Distinct(Room(s.relay.inner, group)))
    && (forall group, m :: m in Room(s.relay.inner, group) ==>
          m.session in s.seats && s.seats[m.session] == Seat(group, m.deviceId))
    && s.relay.stopped <= s.seats.Keys
    && Open(s)
  }

  /** The queues that exist are those of the sessions that are not over. */
  ghost predicate Open(s: Server) {
    && s.phases.Keys == s.seats.Keys == s.taken.Keys
    && (forall session :: session in s.relay.queues <==> session in s.phases && s.phases[session] != Over)
  }

  /** What clears a seat leaves the others of that room, in their order, and every other room. */
  predicate Cleared(before: map<string, seq<Member>>, after: map<string, seq<Member>>, who: Seat, tail: seq<Member>) {
    && Room(after, who.group) == Others(Room(before, who.group), who.device) + tail
    && forall group :: group in before.Keys + after.Keys && group != who.group ==>
         Room(after, group) == Room(before, group)
  }

  lemma JoinClears(s: Relay, who: Seat, session: nat)
    requires Distinct(Room(s.inner, who.group))
    ensures Cleared(s.inner, Joined(s, who.group, who.device, session).inner, who, [Member(who.device, session)])
  {
    RemovedIsOthers(Room(s.inner, who.group), who.device);
  }

  lemma LeaveClears(s: Relay, who: Seat)
    ensures Cleared(s.inner, Left(s, who.group, who.device).inner, who, [])
  {
  }

  lemma KickClears(s: Relay, who: Seat)
    requires Distinct(Room(s.inner, who.group))
    ensures Cleared(s.inner, Kicked(s, who.group, who.device).inner, who, [])
  {
    RemovedIsOthers(Room(s.inner, who.group), who.device);
  }

  lemma GroupKickClears(s: Relay, gone: string)
    ensures forall group ::
              Room(GroupKicked(s, gone).inner, group) == if group == gone then [] else Room(s.inner, group)
    ensures (forall group :: Distinct(Room(s.inner, group))) ==>
              forall group :: Distinct(Room(GroupKicked(s, gone).inner, group))
  {
  }

  lemma ClearedIs(
    before: map<string, seq<Member>>, after: map<string, seq<Member>>, who: Seat, tail: seq<Member>,
    group: string, m: Member)
    requires Cleared(before, after, who, tail)
    requires (forall x :: x in tail ==> x.deviceId == who.device) && |tail| <= 1
    ensures m in Room(after, group) <==> if Seat(group, m.deviceId) == who then m in tail else m in Room(before, group)
    ensures Distinct(Room(before, group)) ==> Distinct(Room(after, group))
  {
    OthersAre(Room(before, who.group), who.device);
    hide Others;
    assert group !in before.Keys + after.Keys ==> Room(before, group) == Room(after, group) == [];
  }

  /** A room after an event: without the cleared seat, or gone, or as before; and with the one who joined. */
  lemma RoomsAre(s: Server, e: Event, group: string, m: Member)
    requires Consistent(s) && Enabled(s, e)
    ensures Distinct(Room(Next(s, e).relay.inner, group))
    ensures m in Room(Next(s, e).relay.inner, group) <==>
              || (m in Room(s.relay.inner, group) && !Unseats(e, Seat(group, m.deviceId)))
              || (e.Join? && e.who == Seat(group, m.deviceId) && m.session == e.session)
  {
    hide Joined, Left, Kicked, GroupKicked, Distinct, Cleared, Others, Offered, Room;
    assert Distinct(Room(s.relay.inner, group));
    match e {
      case Join(session, who) =>
        JoinClears(s.relay, who, session);
        ClearedIs(s.relay.inner, Next(s, e).relay.inner, who, [Member(who.device, session)], group, m);
      case Leave(_, who) =>
        LeaveClears(s.relay, who);
        ClearedIs(s.relay.inner, Next(s, e).relay.inner, who, [], group, m);
      case Kick(who) =>
        KickClears(s.relay, who);
        ClearedIs(s.relay.inner, Next(s, e).relay.inner, who, [], group, m);
      case KickGroup(gone) =>
        GroupKickClears(s.relay, gone);
      case _ =>
    }
  }

  /** A room opens with its first join; a leave closes an empty one, a kick does not, and a group kick closes any. */
  lemma OpenRoomsAre(s: Server, e: Event, group: string)
    requires Enabled(s, e)
    ensures var open, open' := group in s.relay.inner, group in Next(s, e).relay.inner;
            match e
            case Join(_, who) => open' <==> open || who.group == group
            case Leave(_, who) =>
              open' <==>
                open && (who.group == group ==> exists m :: m in s.relay.inner[group] && m.deviceId != who.device)
            case KickGroup(gone) => open' <==> open && gone != group
            case _ => open' <==> open
  {
    if e.Leave? && e.who.group == group && group in s.relay.inner {
      OthersAre(s.relay.inner[group], e.who.device);
      var rest := Others(s.relay.inner[group], e.who.device);
      assert rest != [] ==> rest[0] in rest;
    }
    hide Others, FirstOf, RemoveAt, Offered, Found;
  }

  /** Whom an event signals. */
  lemma SignalledAre(s: Server, e: Event)
    requires Consistent(s) && Enabled(s, e)
    ensures forall session :: session in Next(s, e).relay.stopped <==>
              || session in s.relay.stopped
              || (!e.Leave? && session in s.seats && Unseats(e, s.seats[session])
                  && Member(s.seats[session].device, session) in Room(s.relay.inner, s.seats[session].group))
  {
    match e {
      case Join(session, who) =>
        FoundIs(Room(s.relay.inner, who.group), who.device);
        hide Found;
      case Kick(who) =>
        FoundIs(Room(s.relay.inner, who.group), who.device);
        hide Found;
      case KickGroup(group) =>
        var members := Room(s.relay.inner, group);
        assert forall m :: m in members ==> m == Member(m.deviceId, m.session) && m.session in Sessions(members);
      case _ =>
    }
  }

  lemma {:induction false} OfferedKeys(queues: Queues, members: seq<Member>, from: string, payload: Bytes)
    ensures Offered(queues, members, from, payload).Keys == queues.Keys
    decreases |members|
  {
    if members != [] {
      OfferedKeys(queues, members[..|members| - 1], from, payload);
    }
  }

  lemma NextIsOpen(s: Server, e: Event)
    requires Open(s) && Enabled(s, e)
    ensures Open(Next(s, e))
  {
    hide Offered, Room, Found, RemoveAt, FirstOf, Others, Sessions;
    if e.Speak? {
      OfferedKeys(s.relay.queues, Room(s.relay.inner, e.who.group), e.who.device, e.payload);
    }
  }

  lemma NextIsConsistent(s: Server, e: Event)
    requires Consistent(s) && Enabled(s, e)
    ensures Consistent(Next(s, e))
  {
    hide Offered, Distinct, Room, Joined, Left, Kicked, GroupKicked, Open, Unseats;
    SignalledAre(s, e);
    NextIsOpen(s, e);
    forall group
      ensures Distinct(Room(Next(s, e).relay.inner, group))
    {
      RoomsAre(s, e, group, Member("", 0));
    }
    forall group, m
      ensures m in Room(Next(s, e).relay.inner, group) ==>
                m.session in Next(s, e).seats && Next(s, e).seats[m.session] == Seat(group, m.deviceId)
    {
      RoomsAre(s, e, group, m);
    }
  }

  // Membership.

  predicate HasJoined(s: Server, session: nat, who: Seat) {
    session in s.seats && s.seats[session] == who
  }

  predicate InRoom(s: Server, session: nat, who: Seat) {
    Member(who.device, session) in Room(s.relay.inner, who.group)
  }

  ghost predicate Stands(s: Server, session: nat, who: Seat, standing: Standing) {
    && (standing == Absent <==> !HasJoined(s, session, who))
    && (standing == Seated <==> InRoom(s, session, who))
    && (standing == Signalled <==> HasJoined(s, session, who) && session in s.relay.stopped)
  }

  lemma StandsOn(s: Server, e: Event, session: nat, who: Seat, standing: Standing)
    requires Consistent(s) && Enabled(s, e) && Stands(s, session, who, standing)
    ensures Stands(Next(s, e), session, who, Moved(standing, session, who, e))
  {
    hide Room, Joined, Left, Kicked, GroupKicked, Offered, Closed, Distinct;
    RoomsAre(s, e, who.group, Member(who.device, session));
    SignalledAre(s, e);
    assert InRoom(s, session, who) ==> HasJoined(s, session, who);
  }

  lemma {:induction false} RunsAreConsistent(events: seq<Event>)
    requires Run(events)
    ensures Consistent(After(events))
    decreases |events|
  {
    if events != [] {
      RunsAreConsistent(events[..|events| - 1]);
      NextIsConsistent(After(events[..|events| - 1]), events[|events| - 1]);
    }
  }

  /**
   * The relay's tables say exactly what the history says: a session is in its room if and only if no
   * event has cleared its seat since it joined, and its stop channel is signalled if and only if
   * the event that cleared it was a join, a kick or a group kick.
   */
  lemma {:induction false} SeatsFollowHistory(events: seq<Event>, session: nat, who: Seat)
    requires Run(events)
    ensures Stands(After(events), session, who, StandingOf(events, session, who))
    decreases |events|
  {
    if events != [] {
      var front, last := events[..|events| - 1], events[|events| - 1];
      RunsAreConsistent(front);
      SeatsFollowHistory(front, session, who);
      StandsOn(After(front), last, session, who, StandingOf(front, session, who));
    }
  }

  /** A device has at most one entry in a group, and every entry is a session seated there. */
  lemma OneSeatPerDevice(events: seq<Event>, group: string, i: nat, j: nat)
    requires Run(events)
    requires i < |Room(After(events).relay.inner, group)| && j < |Room(After(events).relay.inner, group)|
    ensures var members := Room(After(events).relay.inner, group);
            && (members[i].deviceId == members[j].deviceId ==> i == j)
            && StandingOf(events, members[i].session, Seat(group, members[i].deviceId)) == Seated
  {
    RunsAreConsistent(events);
    var members := Room(After(events).relay.inner, group);
    SeatsFollowHistory(events, members[i].session, Seat(group, members[i].deviceId));
    assert members[i] == Member(members[i].deviceId, members[i].session);
    assert Distinct(members);
  }

  // Delivery.

  lemma {:induction false} OfferedIs(
    queues: Queues, members: seq<Member>, from: string, payload: Bytes, session: nat, device: string)
    requires Distinct(members) && session in queues
    requires forall m :: m in members && m.session == session ==> m.deviceId == device
    ensures var queues', queue := Offered(queues, members, from, payload), queues[session];
            session in queues' && queues'[session] ==
              if device != from && Member(device, session) in members && |queue| < CAPACITY
              then queue + [payload] else queue
    decreases |members|
  {
    if members != [] {
      var front, last := members[..|members| - 1], members[|members| - 1];
      var seat := Member(device, session);
      assert members == front + [last];
      OfferedIs(queues, front, from, payload, session, device);
      assert seat in front ==> last.deviceId != device;
      assert last.session == session <==> last == seat;
      hide Distinct;
    }
  }

  /** What a session took and what waits for it, against what it heard; once its queue is closed, the rest is lost. */
  ghost predicate Delivers(s: Server, session: nat, who: Seat, heard: seq<Bytes>) {
    if !HasJoined(s, session, who) then heard == [] else
    && session in s.taken
    && if session in s.relay.queues then
         var queue := s.relay.queues[session];
         s.taken[session] + queue == heard && |queue| <= 16
       else s.taken[session] <= heard
  }

  lemma SpeakDelivers(s: Server, e: Event, session: nat, who: Seat, heard: seq<Bytes>, standing: Standing)
    requires Consistent(s) && Enabled(s, e) && e.Speak?
    requires Stands(s, session, who, standing) && Delivers(s, session, who, heard)
    ensures Delivers(Next(s, e), session, who, heard + if Hears(s, standing, session, who, e) then [e.payload] else [])
  {
    var members := Room(s.relay.inner, e.who.group);
    hide Distinct, Room;
    OfferedKeys(s.relay.queues, members, e.who.device, e.payload);
    if HasJoined(s, session, who) && session in s.relay.queues {
      assert Member(who.device, session) in members ==> s.seats[session] == Seat(e.who.group, who.device);
      OfferedIs(s.relay.queues, members, e.who.device, e.payload, session, who.device);
      hide Offered;
      var queue := s.relay.queues[session];
      assert s.taken[session] + (queue + [e.payload]) == (s.taken[session] + queue) + [e.payload];
    }
  }

  lemma OtherEventsDeliver(s: Server, e: Event, session: nat, who: Seat, heard: seq<Bytes>)
    requires Consistent(s) && Enabled(s, e) && !e.Speak? && Delivers(s, session, who, heard)
    ensures Delivers(Next(s, e), session, who, heard)
  {
    hide Distinct, Room, Found, RemoveAt, FirstOf, Others, Sessions;
    if e == Take(session) {
      var queue := s.relay.queues[session];
      assert s.taken[session] + [queue[0]] + queue[1..] == s.taken[session] + queue;
    }
  }

  /**
   * What a session takes out of its queue, and then what still waits there, is exactly what it heard:
   * the words of the other devices of its group, said while it was seated, in the order they were
   * said, except those that found its queue full.  No queue ever holds more than 16.
   */
  lemma {:induction false} DeliveryFollowsHistory(events: seq<Event>, session: nat, who: Seat)
    requires Run(events)
    ensures Delivers(After(events), session, who, Heard(events, session, who))
    decreases |events|
  {
    if events != [] {
      var front, last := events[..|events| - 1], events[|events| - 1];
      RunsAreConsistent(front);
      DeliveryFollowsHistory(front, session, who);
      SeatsFollowHistory(front, session, who);
      hide Consistent, Delivers, Stands, Next;
      var heard, standing := Heard(front, session, who), StandingOf(front, session, who);
      if last.Speak? {
        SpeakDelivers(After(front), last, session, who, heard, standing);
      } else {
        OtherEventsDeliver(After(front), last, session, who, heard);
        assert heard + [] == heard;
      }
    }
  }

  // A cleared seat stays cleared.

  /** Whoever lost its seat never gets it back and hears nothing more, whatever happens next. */
  lemma {:induction false} OutIsForGood(events: seq<Event>, more: seq<Event>, session: nat, who: Seat)
    requires Run(events + more) && Run(events)
    requires StandingOf(events, session, who) in {Signalled, Removed}
    ensures StandingOf(events + more, session, who) == StandingOf(events, session, who)
    ensures Heard(events + more, session, who) == Heard(events, session, who)
    decreases |more|
  {
    if more == [] {
      assert events + more == events;
    } else {
      var front, last := more[..|more| - 1], more[|more| - 1];
      assert (events + more)[..|events + more| - 1] == events + front;
      OutIsForGood(events, front, session, who);
      SeatsFollowHistory(events + front, session, who);
      assert last != Join(session, who);
    }
  }

  lemma OneMore(events: seq<Event>, e: Event, session: nat, who: Seat)
    requires Run(events) && Enabled(After(events), e)
    ensures Run(events + [e]) && After(events + [e]) == Next(After(events), e)
    ensures StandingOf(events + [e], session, who) == Moved(StandingOf(events, session, who), session, who, e)
  {
    assert (events + [e])[..|events|] == events;
  }

  /**
   * `leave` removes by device: when a replaced session leaves after its successor has joined, it is
   * the successor that loses its seat, and nothing tells it so.
   */
  lemma LateLeaveUnseatsSuccessor(events: seq<Event>, former: nat, successor: nat, who: Seat)
    requires Run(events) && Enabled(After(events), Leave(former, who))
    requires former != successor && StandingOf(events, successor, who) == Seated
    ensures Run(events + [Leave(former, who)])
    ensures var s := After(events + [Leave(former, who)]);
            !InRoom(s, successor, who) && HasJoined(s, successor, who) && successor !in s.relay.stopped
  {
    hide Next, Run, After, StandingOf, Enabled, InRoom;
    OneMore(events, Leave(former, who), successor, who);
    SeatsFollowHistory(events + [Leave(former, who)], successor, who);
  }

  /** It does happen: join, acknowledge, join again from the same device. */
  lemma SuccessorsAreUnseated(who: Seat) returns (events: seq<Event>)
    ensures Run(events) && Enabled(After(events), Leave(0, who))
    ensures StandingOf(events, 1, who) == Seated
  {
    assert Run([]) && After([]) == EMPTY && StandingOf([], 1, who) == Absent;
    hide Joined, Run, After, StandingOf;
    OneMore([], Join(0, who), 1, who);
    OneMore([Join(0, who)], Ack(0), 1, who);
    assert [Join(0, who)] + [Ack(0)] == [Join(0, who), Ack(0)];
    OneMore([Join(0, who), Ack(0)], Join(1, who), 1, who);
    events := [Join(0, who), Ack(0)] + [Join(1, who)];
  }
}
