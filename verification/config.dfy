/** The persisted sequence counter and peer list (src/config.rs). */
module Config {
  import opened Basics
  import opened Tables

  datatype PeerState = PeerState(uri: string, enabled: bool)

  datatype State = State(seqno: u64, peers: seq<PeerState>)

  /** `state.json` and `state.json.tmp`; `None` is a missing file. */
  datatype Disk = Disk(file: Option<Bytes>, tmp: Option<Bytes>)

  /**
   * Where `save` stops: nowhere, before or during the write of the temporary file (which then
   * holds anything), between write and rename, or after the rename.  The process either dies
   * there or, except after the rename, sees an I/O error and goes on.
   */
  datatype Fault = NoFault | BeforeWrite | DuringWrite(torn: Bytes) | BeforeRename | AfterRename

  function Load(codec: Codec<State>, disk: Disk): State {
    if disk.file.None? then State(0, []) else
    match codec.decode(disk.file.value)
    case Some(s) => s
    case None => State(0, [])
  }

  function Save(codec: Codec<State>, disk: Disk, s: State, fault: Fault): Disk {
    match fault
    case BeforeWrite => disk
    case DuringWrite(torn) => disk.(tmp := Some(torn))
    case BeforeRename => disk.(tmp := Some(codec.encode(s)))
    case _ => Disk(Some(codec.encode(s)), None)
  }

  /** `seq += 1` on a u64 in a release build. */
  function Successor(seqno: u64): u64 {
    if seqno == U64_MAX then 0 else seqno + 1
  }

  /** The position of the first peer with this uri, or the length of the list. */
  function FirstWith(peers: seq<PeerState>, uri: string): (i: nat)
    ensures i <= |peers|
    ensures forall j :: 0 <= j < i ==> peers[j].uri != uri
    ensures i < |peers| ==> peers[i].uri == uri
  {
    if peers == [] || peers[0].uri == uri then 0 else 1 + FirstWith(peers[1..], uri)
  }

  function Upsert(peers: seq<PeerState>, uri: string, enabled: bool): seq<PeerState> {
    var i := FirstWith(peers, uri);
    if i < |peers| then peers[i := PeerState(uri, enabled)] else peers + [PeerState(uri, enabled)]
  }

  function Without(peers: seq<PeerState>, uri: string): seq<PeerState> {
    if peers == [] then [] else
    var last := peers[|peers| - 1];
    Without(peers[..|peers| - 1], uri) + if last.uri == uri then [] else [last]
  }

  ghost predicate Unique(peers: seq<PeerState>) {
    forall i, j :: 0 <= i < j < |peers| ==> peers[i].uri != peers[j].uri
  }

  /** One entry for each uri: an upsert replaces its entry or adds one, a removal takes it out, and the rest stay. */
  lemma UpsertIs(peers: seq<PeerState>, uri: string, enabled: bool)
    requires Unique(peers)
    ensures Unique(Upsert(peers, uri, enabled))
    ensures forall p :: p in Upsert(peers, uri, enabled) <==>
              p == PeerState(uri, enabled) || (p in peers && p.uri != uri)
  {
    hide FirstWith;
    var i := FirstWith(peers, uri);
    var after := Upsert(peers, uri, enabled);
    assert i < |peers| ==> after[i] == PeerState(uri, enabled);
    assert i == |peers| ==> after[i] == PeerState(uri, enabled);
    forall p | p in peers && p.uri != uri
      ensures p in after
    {
      var j :| 0 <= j < |peers| && peers[j] == p;
      assert after[j] == p;
    }
  }

  /** Entries keep their places; a new one comes last. */
  lemma UpsertKeepsOrder(peers: seq<PeerState>, uri: string, enabled: bool)
    ensures var after := Upsert(peers, uri, enabled);
            && |peers| <= |after| <= |peers| + 1
            && (forall i :: 0 <= i < |peers| ==>
                  after[i].uri == peers[i].uri && (peers[i].uri != uri ==> after[i] == peers[i]))
            && (|after| == |peers| + 1 ==> after[|peers|] == PeerState(uri, enabled))
  {
    hide FirstWith;
  }

  lemma {:induction false} WithoutOfBoth(a: seq<PeerState>, b: seq<PeerState>, uri: string)
    ensures Without(a + b, uri) == Without(a, uri) + Without(b, uri)
    decreases |b|
  {
    if b == [] {
      assert a + b == a;
    } else {
      var front := b[..|b| - 1];
      assert (a + b)[..|a + b| - 1] == a + front;
      WithoutOfBoth(a, front, uri);
    }
  }

  lemma {:induction false} WithoutIs(peers: seq<PeerState>, uri: string)
    ensures forall p :: p in Without(peers, uri) <==> p in peers && p.uri != uri
    ensures Unique(peers) ==> Unique(Without(peers, uri))
    decreases |peers|
  {
    if peers != [] {
      var front, last := peers[..|peers| - 1], peers[|peers| - 1];
      WithoutIs(front, uri);
      assert peers == front + [last];
      assert Unique(peers) ==> forall p :: p in front ==> p.uri != last.uri;
    }
  }

  lemma {:induction false} WithoutIsShorter(peers: seq<PeerState>, uri: string)
    ensures |Without(peers, uri)| <= |peers|
    ensures |Without(peers, uri)| == |peers| ==> Without(peers, uri) == peers
    decreases |peers|
  {
    if peers != [] {
      var front, last := peers[..|peers| - 1], peers[|peers| - 1];
      WithoutIsShorter(front, uri);
      var rest := Without(front, uri);
      assert Without(peers, uri) == rest + if last.uri == uri then [] else [last];
      hide Without;
      assert |Without(peers, uri)| == |peers| ==> rest + [last] == peers;
    }
  }

  method Retain(peers: seq<PeerState>, uri: string) returns (kept: seq<PeerState>)
    ensures kept == Without(peers, uri)
    ensures |kept| == |peers| <==> kept == peers
  {
    kept := [];
    for i := 0 to |peers|
      invariant kept == Without(peers[..i], uri)
    {
      assert peers[..i + 1][..i] == peers[..i];
      if peers[i].uri != uri {
        kept := kept + [peers[i]];
      }
    }
    assert peers[..|peers|] == peers;
    WithoutIsShorter(peers, uri);
  }

  class StateFile {
    const codec: Codec<State>
    var inner: State
    var disk: Disk

    /** `open`: an unreadable or unparsable file is read as the default state. */
    constructor (codec: Codec<State>, disk: Disk)
      ensures this.codec == codec && this.disk == disk && inner == Load(codec, disk)
    {
      this.codec, this.disk := codec, disk;
      inner := State(0, []);
      if disk.file.Some? {
        var parsed := codec.decode(disk.file.value);
        if parsed.Some? {
          inner := parsed.value;
        }
      }
    }

    method NextSeq(fault: Fault) returns (r: Option<u64>)
      modifies this
      ensures inner == old(inner).(seqno := Successor(old(inner).seqno))
      ensures disk == Save(codec, old(disk), inner, fault)
      ensures r == if fault == NoFault then Some(inner.seqno) else None
    {
      inner := inner.(seqno := if inner.seqno == U64_MAX then 0 else inner.seqno + 1);
      var seqno := inner.seqno;
      var saved := SaveTo(fault);
      return if saved then Some(seqno) else None;
    }

    method UpsertPeer(uri: string, enabled: bool, fault: Fault) returns (ok: bool)
      modifies this
      ensures inner == State(old(inner).seqno, Upsert(old(inner).peers, uri, enabled))
      ensures disk == Save(codec, old(disk), inner, fault)
      ensures ok == (fault == NoFault)
    {
      var i := 0;
      while i < |inner.peers| && inner.peers[i].uri != uri
        invariant 0 <= i <= |inner.peers|
        invariant forall j :: 0 <= j < i ==> inner.peers[j].uri != uri
      {
        i := i + 1;
      }
      if i < |inner.peers| {
        inner := inner.(peers := inner.peers[i := PeerState(uri, enabled)]);
      } else {
        inner := inner.(peers := inner.peers + [PeerState(uri, enabled)]);
      }
      ok := SaveTo(fault);
    }

    /** `remove_peer`: one peer by its uri, or all of them. */
    method RemovePeer(uri: Option<string>, fault: Fault) returns (removed: Option<seq<string>>)
      modifies this
      ensures inner.seqno == old(inner).seqno
      ensures inner.peers == if uri.None? then [] else Without(old(inner).peers, uri.value)
      ensures disk == Save(codec, old(disk), inner, fault)
      ensures removed.Some? <==> fault == NoFault
      ensures removed.Some? && uri.Some? ==>
                removed.value == if inner.peers == old(inner).peers then [] else [uri.value]
      ensures removed.Some? && uri.None? ==>
                |removed.value| == |old(inner).peers|
                && forall i :: 0 <= i < |removed.value| ==> removed.value[i] == old(inner).peers[i].uri
    {
      var uris := [];
      if uri.Some? {
        var kept := Retain(inner.peers, uri.value);
        uris := if |kept| == |inner.peers| then [] else [uri.value];
        inner := inner.(peers := kept);
      } else {
        uris := seq(|inner.peers|, i requires 0 <= i < |inner.peers| reads this => inner.peers[i].uri);
        inner := inner.(peers := []);
      }
      var saved := SaveTo(fault);
      return if saved then Some(uris) else None;
    }

    method SaveTo(fault: Fault) returns (ok: bool)
      modifies this`disk
      ensures disk == Save(codec, old(disk), inner, fault)
      ensures ok == (fault == NoFault)
    {
      if fault == BeforeWrite {
        return false;
      }
      if fault.DuringWrite? {
        disk := disk.(tmp := Some(fault.torn));
        return false;
      }
      disk := disk.(tmp := Some(codec.encode(inner)));
      if fault == BeforeRename {
        return false;
      }
      disk := Disk(disk.tmp, None);
      return fault == NoFault;
    }
  }

  // Runs: a daemon whose calls may fail or be cut short by a crash, after which it is started again.

  datatype Machine = Machine(mem: State, disk: Disk)

  datatype Call = NextSeq | UpsertPeer(uri: string, enabled: bool) | RemovePeer(which: Option<string>) | Restart

  /** `dies`: the process stops where `fault` says (after the call if nowhere) and is started again. */
  datatype Event = Event(call: Call, fault: Fault, dies: bool)

  function Mutate(s: State, call: Call): State {
    match call
    case NextSeq => s.(seqno := Successor(s.seqno))
    case UpsertPeer(uri, enabled) => s.(peers := Upsert(s.peers, uri, enabled))
    case RemovePeer(which) => s.(peers := if which.None? then [] else Without(s.peers, which.value))
    case Restart => s
  }

  function Step(codec: Codec<State>, m: Machine, e: Event): Machine {
    if e.call.Restart? then m.(mem := Load(codec, m.disk)) else
    var mem := Mutate(m.mem, e.call);
    var disk := Save(codec, m.disk, mem, e.fault);
    Machine(if e.dies || e.fault.AfterRename? then Load(codec, disk) else mem, disk)
  }

  /** The sequence number handed to the caller of this event, if any. */
  function Returned(m: Machine, e: Event): seq<u64> {
    if e.call.NextSeq? && e.fault == NoFault then [Successor(m.mem.seqno)] else []
  }

  function Returns(codec: Codec<State>, m: Machine, events: seq<Event>): seq<u64>
    decreases |events|
  {
    if events == [] then []
    else Returned(m, events[0]) + Returns(codec, Step(codec, m, events[0]), events[1..])
  }

  function Run(codec: Codec<State>, m: Machine, events: seq<Event>): Machine
    decreases |events|
  {
    if events == [] then m else Run(codec, Step(codec, m, events[0]), events[1..])
  }

  /** The u64 counter is below its maximum whenever `next_seq` is called. */
  predicate NoWrap(codec: Codec<State>, m: Machine, events: seq<Event>)
    decreases |events|
  {
    events == [] ||
    ((events[0].call.NextSeq? ==> m.mem.seqno < U64_MAX) && NoWrap(codec, Step(codec, m, events[0]), events[1..]))
  }

  ghost predicate Durable(codec: Codec<State>, m: Machine) {
    Load(codec, m.disk).seqno <= m.mem.seqno
  }

  lemma StepKeepsDurable(codec: Codec<State>, m: Machine, e: Event)
    requires CodecLaw(codec) && Durable(codec, m)
    requires e.call.NextSeq? ==> m.mem.seqno < U64_MAX
    ensures Durable(codec, Step(codec, m, e))
    ensures Load(codec, m.disk).seqno <= Load(codec, Step(codec, m, e).disk).seqno
    ensures forall r :: r in Returned(m, e) ==>
              Load(codec, m.disk).seqno < r == Load(codec, Step(codec, m, e).disk).seqno
  {
    var mem := Mutate(m.mem, e.call);
    assert codec.decode(codec.encode(mem)) == Some(mem);
  }

  /** Over any run, with crashes, failed saves, restarts and peer updates, the numbers handed out strictly increase. */
  lemma {:induction false} SequenceNumbersIncrease(codec: Codec<State>, m: Machine, events: seq<Event>)
    requires CodecLaw(codec) && Durable(codec, m) && NoWrap(codec, m, events)
    ensures forall r :: r in Returns(codec, m, events) ==> Load(codec, m.disk).seqno < r
    ensures forall i, j :: 0 <= i < j < |Returns(codec, m, events)| ==>
              Returns(codec, m, events)[i] < Returns(codec, m, events)[j]
    decreases |events|
  {
    if events != [] {
      StepKeepsDurable(codec, m, events[0]);
      SequenceNumbersIncrease(codec, Step(codec, m, events[0]), events[1..]);
      var rest := Returns(codec, Step(codec, m, events[0]), events[1..]);
      assert forall j :: 0 <= j < |rest| ==> rest[j] in rest;
    }
  }

  /** What was handed out before a point of a run is durable there, so it is at most what a restart reads back. */
  lemma {:induction false} HandedOutIsDurable(codec: Codec<State>, m: Machine, events: seq<Event>)
    requires CodecLaw(codec) && Durable(codec, m) && NoWrap(codec, m, events)
    ensures Durable(codec, Run(codec, m, events))
    ensures Load(codec, m.disk).seqno <= Load(codec, Run(codec, m, events).disk).seqno
    ensures forall r :: r in Returns(codec, m, events) ==> r <= Load(codec, Run(codec, m, events).disk).seqno
    decreases |events|
  {
    if events != [] {
      StepKeepsDurable(codec, m, events[0]);
      HandedOutIsDurable(codec, Step(codec, m, events[0]), events[1..]);
    }
  }

  /**
   * After any run that ends in a crash, the next clip of the restarted origin is accepted by every
   * peer that has only seen numbers this origin handed out.
   */
  lemma RestartedOriginIsAccepted(
    codec: Codec<State>, m: Machine, events: seq<Event>, origin: string, presented: seq<Presented>, next: u64)
    requires CodecLaw(codec) && Durable(codec, m) && NoWrap(codec, m, events)
    requires forall p :: p in presented && p.origin == origin ==> p.seqno in Returns(codec, m, events)
    requires Load(codec, Run(codec, m, events).disk).seqno < U64_MAX
    requires var restarted := Step(codec, Run(codec, m, events), Event(Restart, NoFault, false));
             Returned(restarted, Event(NextSeq, NoFault, false)) == [next]
    ensures Fresh(presented, origin, next)
  {
    HandedOutIsDurable(codec, m, events);
    forall i | 0 <= i < |presented| && presented[i].origin == origin
      ensures presented[i].seqno < next
    {
      assert presented[i] in presented;
    }
  }

  /**
   * Exactly when one call moves past everything durable: the counter is below its maximum.
   * At the maximum the release build wraps to 0, whatever was handed out before.
   */
  lemma NextExceedsDurableIff(codec: Codec<State>, m: Machine)
    requires Durable(codec, m)
    ensures Returned(m, Event(NextSeq, NoFault, false))[0] > Load(codec, m.disk).seqno <==> m.mem.seqno < U64_MAX
  {
  }

  /** Without failures the numbers are consecutive, up to the maximum, after which comes 0. */
  lemma {:induction false} NumbersAreConsecutive(codec: Codec<State>, m: Machine, events: seq<Event>)
    requires forall e :: e in events ==> e == Event(NextSeq, NoFault, false)
    ensures |Returns(codec, m, events)| == |events|
    ensures forall i :: 0 <= i < |events| ==>
              Returns(codec, m, events)[i] == (m.mem.seqno + 1 + i) % (U64_MAX + 1)
    decreases |events|
  {
    if events != [] {
      var next, more := Step(codec, m, events[0]), events[1..];
      assert events[0] in events && forall e :: e in more ==> e in events;
      OneNumber(codec, m);
      hide Step, Returned;
      NumbersAreConsecutive(codec, next, more);
      forall i | 0 <= i < |events|
        ensures Returns(codec, m, events)[i] == (m.mem.seqno + 1 + i) % (U64_MAX + 1)
      {
        if i > 0 {
          assert Returns(codec, m, events)[i] == Returns(codec, next, more)[i - 1];
          WrapsOnce(m.mem.seqno, i);
        }
      }
    }
  }

  lemma OneNumber(codec: Codec<State>, m: Machine)
    ensures var e := Event(NextSeq, NoFault, false);
            && Step(codec, m, e).mem.seqno == (m.mem.seqno + 1) % (U64_MAX + 1)
            && Returned(m, e) == [(m.mem.seqno + 1) % (U64_MAX + 1)]
  {
  }

  lemma WrapsOnce(seqno: u64, i: nat)
    ensures ((seqno + 1) % (U64_MAX + 1) + i) % (U64_MAX + 1) == (seqno + 1 + i) % (U64_MAX + 1)
  {
  }

  // What a restart reads back.

  predicate Saves(e: Event) {
    !e.call.Restart? && (e.fault.NoFault? || e.fault.AfterRename?)
  }

  /** The state as of the last call whose save took place, `last` before any. */
  function LastSaved(codec: Codec<State>, m: Machine, last: State, events: seq<Event>): State
    decreases |events|
  {
    if events == [] then last else
    var saved := if Saves(events[0]) then Mutate(m.mem, events[0].call) else last;
    LastSaved(codec, Step(codec, m, events[0]), saved, events[1..])
  }

  /** What was written is read back whole, whatever a torn save left beside it. */
  lemma LoadReadsBack(codec: Codec<State>, s: State, tmp: Option<Bytes>)
    requires CodecLaw(codec)
    ensures Load(codec, Disk(Some(codec.encode(s)), tmp)) == s
  {
    assert codec.decode(codec.encode(s)) == Some(s);
  }

  lemma StepLoads(codec: Codec<State>, m: Machine, e: Event)
    requires CodecLaw(codec)
    ensures Load(codec, Step(codec, m, e).disk) == if Saves(e) then Mutate(m.mem, e.call) else Load(codec, m.disk)
    ensures e.call.Restart? ==> Step(codec, m, e).mem == Load(codec, m.disk)
  {
    LoadReadsBack(codec, Mutate(m.mem, e.call), None);
  }

  /** Over any run, a restart reads back exactly the state, peers included, of the last call whose save took place. */
  lemma {:induction false} RestartReadsLastSaved(codec: Codec<State>, m: Machine, events: seq<Event>)
    requires CodecLaw(codec)
    ensures Load(codec, Run(codec, m, events).disk) == LastSaved(codec, m, Load(codec, m.disk), events)
    decreases |events|
  {
    if events != [] {
      StepLoads(codec, m, events[0]);
      RestartReadsLastSaved(codec, Step(codec, m, events[0]), events[1..]);
    }
  }

  /** Whether a peer is listed, and whether it is enabled. */
  function Entry(peers: seq<PeerState>, uri: string): Option<bool> {
    var i := FirstWith(peers, uri);
    if i < |peers| then Some(peers[i].enabled) else None
  }

  predicate Concerns(call: Call, uri: string) {
    match call
    case UpsertPeer(other, _) => other == uri
    case RemovePeer(which) => which.None? || which.value == uri
    case _ => false
  }

  lemma FirstWithIs(peers: seq<PeerState>, uri: string, i: nat)
    requires i <= |peers| && (i < |peers| ==> peers[i].uri == uri)
    requires forall j :: 0 <= j < i ==> peers[j].uri != uri
    ensures FirstWith(peers, uri) == i
  {
  }

  lemma EntryAfterUpsert(peers: seq<PeerState>, uri: string, enabled: bool, other: string)
    ensures Entry(Upsert(peers, uri, enabled), other) == if other == uri then Some(enabled) else Entry(peers, other)
  {
    UpsertKeepsOrder(peers, uri, enabled);
    var after := Upsert(peers, uri, enabled);
    hide FirstWith;
    var i := FirstWith(peers, other);
    FirstWithIs(after, other, if i == |peers| && other != uri then |after| else i);
  }

  lemma {:induction false} EntryAfterRemoval(peers: seq<PeerState>, uri: string, other: string)
    ensures Entry(Without(peers, uri), other) == if other == uri then None else Entry(peers, other)
    decreases |peers|
  {
    if peers != [] {
      var front, last := peers[..|peers| - 1], peers[|peers| - 1];
      EntryAfterRemoval(front, uri, other);
      EntryOfOneMore(front, last, other);
      EntryOfOneMore(Without(front, uri), last, other);
      hide FirstWith, Entry;
      assert peers == front + [last] && Without(front, uri) + [] == Without(front, uri);
    } else {
      NobodyIsListed(other);
    }
  }

  lemma NobodyIsListed(uri: string)
    ensures Entry([], uri) == None
  {
  }

  lemma EntryOfOneMore(peers: seq<PeerState>, last: PeerState, uri: string)
    ensures Entry(peers + [last], uri) ==
              if Entry(peers, uri).Some? then Entry(peers, uri)
              else if last.uri == uri then Some(last.enabled) else None
  {
    var i := FirstWith(peers, uri);
    hide FirstWith;
    FirstWithIs(peers + [last], uri, if i < |peers| || last.uri == uri then i else i + 1);
  }

  ghost predicate Lists(codec: Codec<State>, m: Machine, uri: string, entry: Option<bool>) {
    Entry(m.mem.peers, uri) == entry && Entry(Load(codec, m.disk).peers, uri) == entry
  }

  lemma {:induction false} OthersDoNotTouch(
    codec: Codec<State>, m: Machine, events: seq<Event>, uri: string, entry: Option<bool>)
    requires CodecLaw(codec) && Lists(codec, m, uri, entry)
    requires forall e :: e in events ==> !Concerns(e.call, uri)
    ensures Lists(codec, Run(codec, m, events), uri, entry)
    decreases |events|
  {
    hide Entry, Load, Save, FirstWith, Without, Upsert;
    if events != [] {
      var e := events[0];
      StepLoads(codec, m, e);
      match e.call {
        case UpsertPeer(other, enabled) => EntryAfterUpsert(m.mem.peers, other, enabled, uri);
        case RemovePeer(which) => EntryAfterRemoval(m.mem.peers, which.value, uri);
        case _ =>
      }
      OthersDoNotTouch(codec, Step(codec, m, e), events[1..], uri, entry);
    }
  }

  /**
   * An upserted peer whose save took place is still listed, with its flag, in memory and after a restart,
   * and a removed one is not, through any crashes, failed saves and restarts, until a call concerns it again.
   */
  lemma SavedPeersLast(codec: Codec<State>, m: Machine, e: Event, events: seq<Event>, uri: string)
    requires CodecLaw(codec) && Saves(e) && Concerns(e.call, uri)
    requires forall e :: e in events ==> !Concerns(e.call, uri)
    ensures Lists(codec, Run(codec, m, [e] + events), uri,
                  if e.call.UpsertPeer? then Some(e.call.enabled) else None)
  {
    hide Entry, Load, Save, FirstWith, Without, Upsert;
    StepLoads(codec, m, e);
    match e.call {
      case UpsertPeer(_, enabled) => EntryAfterUpsert(m.mem.peers, uri, enabled, uri);
      case RemovePeer(which) =>
        EntryAfterRemoval(m.mem.peers, uri, uri);
        NobodyIsListed(uri);
    }
    var entry := if e.call.UpsertPeer? then Some(e.call.enabled) else None;
    assert ([e] + events)[1..] == events;
    OthersDoNotTouch(codec, Step(codec, m, e), events, uri, entry);
  }
}
