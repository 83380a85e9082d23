/**
 * One hub (src/hub.rs): its operations as functions on values, the class that carries them out
 * on the clipboard, the two tables and the state file, and what every sequence of operations keeps.
 */
module Hubs {
  import opened Basics
  import opened Clips
  import opened Tables
  import Config

  /** `Suppress::new(ttl, 64)` in `Hub::new`. */
  const RING: nat := 64

  datatype ClipAck = ClipAck(hash: string, ok: bool, reason: string)

  /** What sessions subscribe to; `skip` is the ingress peer that must not get the clip back. */
  datatype Outbound = Outbound(clip: Clip, skip: Option<string>)

  datatype HubError = TooLarge | PersistSeq | BackendFailed

  /** Whether the clipboard's `get` and `set` work in a call; a failed `set` leaves it as it was. */
  datatype Health = Health(gets: bool, sets: bool)

  const WELL: Health := Health(true, true)

  /** A hub's tables are given by their histories, see module Tables. */
  datatype Hub = Hub(
    id: string,
    clipboard: Option<Item>,
    adds: seq<Added>,
    presented: seq<Presented>,
    counter: u64)

  // The operations.  `saved` tells whether the state file could be written.

  function Pack(env: Env, s: Hub, item: Item, h: string): Clip {
    Clip(
      ClipMeta(s.id, s.counter, if item.mime == "" then env.mime(item.data) else item.mime, h, |item.data|, item.name),
      item.data)
  }

  ghost function Observed(env: Env, s: Hub, item: Item, now: int, saved: bool): (Hub, Result<Option<Clip>, HubError>) {
    var h := HashOf(env, item);
    if item.data == [] || |item.data| > MAX_CLIP || Suppressed(s.adds, env.ttl, RING, h, now) then
      (s, Ok(None))
    else
      var s' := s.(adds := Recorded(s.adds, h, now), counter := Config.Successor(s.counter));
      (s', if saved then Ok(Some(Pack(env, s', item, h))) else Err(PersistSeq))
  }

  function Pushed(env: Env, s: Hub, item: Item, now: int, saved: bool): (Hub, Result<Clip, HubError>) {
    if |item.data| > MAX_CLIP then (s, Err(HubError.TooLarge)) else
    var stored := item.(hash := HashOf(env, item));
    var s' := s.(
      clipboard := Some(stored),
      adds := Recorded(Recorded(s.adds, stored.hash, now), stored.hash, now),
      counter := Config.Successor(s.counter));
    (s', if saved then Ok(Pack(env, s', stored, stored.hash)) else Err(PersistSeq))
  }

  function Reason(e: ProtoError): string {
    match e
    case TooLarge => "too-large"
    case SizeMismatch(_, _) => "truncated"
    case _ => "hash-mismatch"
  }

  function ItemOf(clip: Clip): Item {
    Item(clip.meta.mime, clip.data, clip.meta.hash, clip.meta.name)
  }

  /** An empty reason is the one branch that writes the clipboard. */
  ghost function Applied(env: Env, s: Hub, clip: Clip, now: int): (Hub, ClipAck) {
    var h := clip.meta.hash;
    var verified := VerifyClip(env, clip);
    if verified.Err? then
      (s, ClipAck(h, false, Reason(verified.error)))
    else if clip.meta.originId == s.id then
      (s, ClipAck(h, true, "own-origin"))
    else
      var s' := s.(presented := s.presented + [Presented(clip.meta.originId, clip.meta.seqno)]);
      if !Fresh(s.presented, clip.meta.originId, clip.meta.seqno) then
        (s', ClipAck(h, true, "duplicate"))
      else if s.clipboard.Some? && s.clipboard.value.hash == h then
        (s'.(adds := Recorded(s.adds, h, now)), ClipAck(h, true, "already-present"))
      else
        (s'.(clipboard := Some(ItemOf(clip)), adds := Recorded(Recorded(s.adds, h, now), h, now)),
         ClipAck(h, true, ""))
  }

  // With a clipboard that may fail.

  function PushedWith(
    env: Env, s: Hub, item: Item, now: int, health: Health, saved: bool): (Hub, Result<Clip, HubError>)
  {
    if |item.data| <= MAX_CLIP && !health.sets then
      (s.(adds := Recorded(s.adds, HashOf(env, item), now)), Err(BackendFailed))
    else
      Pushed(env, s, item, now, saved)
  }

  /** A clipboard that cannot be read is taken for a different one; a failed write has already used up the number. */
  ghost function AppliedWith(env: Env, s: Hub, clip: Clip, now: int, health: Health): (Hub, Result<ClipAck, HubError>) {
    var (s', ack) := Applied(env, if health.gets then s else s.(clipboard := None), clip, now);
    if !ack.ok || ack.reason != "" then
      (s'.(clipboard := s.clipboard), Ok(ack))
    else if health.sets then
      (s', Ok(ack))
    else
      (s.(presented := s'.presented, adds := Recorded(s.adds, clip.meta.hash, now)), Err(BackendFailed))
  }

  /** `apply_from` forwards whatever was acknowledged, duplicates and own clips included. */
  function Forwarded(clip: Clip, from: string, ack: ClipAck): seq<Outbound> {
    if ack.ok then [Outbound(clip, Some(from))] else []
  }

  // The same on objects.

  /** The backend `Memory` of src/clipboard/mod.rs, made to fail at will as others may; itself it never does. */
  class Memory {
    var inner: Option<Item>

    constructor ()
      ensures inner == None
    {
      inner := None;
    }

    method Get(health: Health) returns (r: Result<Option<Item>, HubError>)
      ensures r == if health.gets then Ok(inner) else Err(BackendFailed)
    {
      return if health.gets then Ok(inner) else Err(BackendFailed);
    }

    method Set(env: Env, item: Item, health: Health) returns (r: Result<Item, HubError>)
      modifies this
      ensures !health.sets ==> r == Err(BackendFailed) && inner == old(inner)
      ensures health.sets ==> r == Ok(item.(hash := HashOf(env, item))) && inner == Some(r.value)
    {
      if !health.sets {
        return Err(BackendFailed);
      }
      var stored := item;
      if stored.hash == "" {
        stored := stored.(hash := env.hash(stored.data));
      }
      inner := Some(stored);
      return Ok(stored);
    }
  }

  class HubObject {
    const env: Env
    const nodeId: string
    const clipboard: Memory
    const suppress: Suppress
    const seen: SeenSeq
    const state: Config.StateFile
    /** Everything sent on the broadcast channel. */
    var sent: seq<Outbound>

    ghost function Repr(): set<object> {
      {this, clipboard, suppress, seen, state}
    }

    ghost predicate Valid()
      reads Repr()
    {
      suppress.Valid() && suppress.ttl == env.ttl && suppress.max == RING && seen.Valid()
    }

    ghost function Value(): Hub
      reads Repr()
    {
      Hub(nodeId, clipboard.inner, suppress.adds, seen.presented, state.inner.seqno)
    }

    /** The peers stay, and the state file holds the new counter if it could be saved. */
    twostate predicate Counted(fault: Config.Fault)
      reads state
    {
      && state.inner == old(state.inner).(seqno := Config.Successor(old(state.inner).seqno))
      && state.disk == Config.Save(state.codec, old(state.disk), state.inner, fault)
    }

    twostate predicate Uncounted()
      reads state
    {
      state.inner == old(state.inner) && state.disk == old(state.disk)
    }

    constructor (env: Env, nodeId: string, clipboard: Memory, state: Config.StateFile)
      ensures Valid() && sent == []
      ensures Value() == Hub(nodeId, clipboard.inner, [], [], state.inner.seqno)
      ensures this.env == env && this.clipboard == clipboard && this.state == state
      ensures fresh(suppress) && fresh(seen)
    {
      this.env, this.nodeId, this.clipboard, this.state := env, nodeId, clipboard, state;
      suppress := new Suppress(env.ttl, RING);
      seen := new SeenSeq();
      sent := [];
    }

    method LocalObserved(item: Item, now: int, fault: Config.Fault) returns (r: Result<Option<Clip>, HubError>)
      requires Valid() && ClockAt(suppress.adds, now)
      modifies Repr()
      ensures Valid() && ClockAt(suppress.adds, now)
      ensures (Value(), r) == Observed(env, old(Value()), item, now, fault.NoFault?)
      ensures sent == old(sent) + if r.Ok? && r.value.Some? then [Outbound(r.value.value, None)] else []
      ensures if r == Ok(None) then Uncounted() else Counted(fault)
    {
      if item.data == [] || |item.data| > MAX_CLIP {
        return Ok(None);
      }
      var h := if item.hash == "" then env.hash(item.data) else item.hash;
      var known := suppress.Has(h, now);
      if known {
        return Ok(None);
      }
      suppress.Add(h, now);
      var packed := PackNext(item, h, fault);
      if packed.None? {
        return Err(PersistSeq);
      }
      sent := sent + [Outbound(packed.value, None)];
      return Ok(packed);
    }

    method LocalPush(item: Item, now: int, health: Health, fault: Config.Fault) returns (r: Result<Clip, HubError>)
      requires Valid() && ClockAt(suppress.adds, now)
      modifies Repr()
      ensures Valid() && ClockAt(suppress.adds, now)
      ensures (Value(), r) == PushedWith(env, old(Value()), item, now, health, fault.NoFault?)
      ensures sent == old(sent) + if r.Ok? then [Outbound(r.value, None)] else []
      ensures if r in {Err(HubError.TooLarge), Err(BackendFailed)} then Uncounted() else Counted(fault)
    {
      hide Suppress.Valid, SeenSeq.Valid, ClockAt;
      if |item.data| > MAX_CLIP {
        return Err(HubError.TooLarge);
      }
      var full := if item.hash == "" then item.(hash := env.hash(item.data)) else item;
      suppress.Add(full.hash, now);
      var stored := clipboard.Set(env, full, health);
      if stored.Err? {
        return Err(BackendFailed);
      }
      suppress.Add(stored.value.hash, now);
      var packed := PackNext(stored.value, stored.value.hash, fault);
      if packed.None? {
        return Err(PersistSeq);
      }
      sent := sent + [Outbound(packed.value, None)];
      return Ok(packed.value);
    }

    method ApplyRemote(clip: Clip, now: int, health: Health) returns (r: Result<ClipAck, HubError>)
      requires Valid() && ClockAt(suppress.adds, now)
      modifies clipboard, suppress, seen
      ensures Valid() && ClockAt(suppress.adds, now)
      ensures (Value(), r) == AppliedWith(env, old(Value()), clip, now, health)
    {
      hide Suppress.Valid, SeenSeq.Valid, ClockAt;
      var verified := VerifyClip(env, clip);
      if verified.Err? {
        return Ok(ClipAck(clip.meta.hash, false, Reason(verified.error)));
      }
      if clip.meta.originId == nodeId {
        return Ok(ClipAck(clip.meta.hash, true, "own-origin"));
      }
      var accepted := seen.Accept(clip.meta.originId, clip.meta.seqno);
      if !accepted {
        return Ok(ClipAck(clip.meta.hash, true, "duplicate"));
      }
      var shown := clipboard.Get(health);
      if shown.Ok? && shown.value.Some? && shown.value.value.hash == clip.meta.hash {
        suppress.Add(clip.meta.hash, now);
        return Ok(ClipAck(clip.meta.hash, true, "already-present"));
      }
      suppress.Add(clip.meta.hash, now);
      var stored := clipboard.Set(env, ItemOf(clip), health);
      if stored.Err? {
        return Err(BackendFailed);
      }
      suppress.Add(stored.value.hash, now);
      return Ok(ClipAck(stored.value.hash, true, ""));
    }

    method ApplyFrom(clip: Clip, from: string, now: int, health: Health) returns (r: Result<ClipAck, HubError>)
      requires Valid() && ClockAt(suppress.adds, now)
      modifies Repr()
      ensures Valid() && ClockAt(suppress.adds, now)
      ensures (Value(), r) == AppliedWith(env, old(Value()), clip, now, health)
      ensures sent == old(sent) + if r.Ok? then Forwarded(clip, from, r.value) else []
      ensures Uncounted()
    {
      r := ApplyRemote(clip, now, health);
      if r.Ok? && r.value.ok {
        sent := sent + [Outbound(clip, Some(from))];
      }
    }

    method PackNext(item: Item, h: string, fault: Config.Fault) returns (r: Option<Clip>)
      modifies state
      ensures Counted(fault)
      ensures r == if fault.NoFault? then Some(Pack(env, Value(), item, h)) else None
    {
      var seqno := state.NextSeq(fault);
      if seqno.None? {
        return None;
      }
      var mime := if item.mime == "" then env.mime(item.data) else item.mime;
      return Some(Clip(ClipMeta(nodeId, seqno.value, mime, h, |item.data|, item.name), item.data));
    }
  }

  // Runs of one hub whose sessions deliver arbitrary clips, in any order and any number of times.

  datatype Op =
    | Observe(item: Item, now: int, saved: bool)
    | Push(item: Item, now: int, health: Health, saved: bool)
    | Apply(clip: Clip, from: string, now: int, health: Health)

  /** A step's new state, the clips it sends out and the items it puts on the clipboard. */
  datatype Outcome = Outcome(hub: Hub, sent: seq<Outbound>, placed: seq<Item>)

  ghost function Step(env: Env, s: Hub, op: Op): Outcome {
    match op
    case Observe(item, now, saved) =>
      var (s', r) := Observed(env, s, item, now, saved);
      Outcome(s', if r.Ok? && r.value.Some? then [Outbound(r.value.value, None)] else [], [])
    case Push(item, now, health, saved) =>
      var (s', r) := PushedWith(env, s, item, now, health, saved);
      Outcome(s', if r.Ok? then [Outbound(r.value, None)] else [],
              if |item.data| <= MAX_CLIP && health.sets then [s'.clipboard.value] else [])
    case Apply(clip, from, now, health) =>
      var (s', r) := AppliedWith(env, s, clip, now, health);
      Outcome(
        s',
        if r.Ok? then Forwarded(clip, from, r.value) else [],
        if r.Ok? && r.value.ok && r.value.reason == "" then [ItemOf(clip)] else [])
  }

  /** The clips a run takes over, in order: those whose apply wrote the clipboard. */
  ghost function Taken(env: Env, s: Hub, ops: seq<Op>): seq<Clip>
    decreases |ops|
  {
    if ops == [] then [] else
    var o := Step(env, s, ops[0]);
    (if ops[0].Apply? && o.placed != [] then [ops[0].clip] else []) + Taken(env, o.hub, ops[1..])
  }

  ghost function Sent(env: Env, s: Hub, ops: seq<Op>): seq<Outbound>
    decreases |ops|
  {
    if ops == [] then [] else
    var o := Step(env, s, ops[0]);
    o.sent + Sent(env, o.hub, ops[1..])
  }

  ghost function Written(env: Env, s: Hub, ops: seq<Op>): seq<Item>
    decreases |ops|
  {
    if ops == [] then [] else
    var o := Step(env, s, ops[0]);
    o.placed + Written(env, o.hub, ops[1..])
  }

  ghost predicate Above(presented: seq<Presented>, clip: Clip) {
    Fresh(presented, clip.meta.originId, clip.meta.seqno)
  }

  ghost predicate SequencedAfter(first: Clip, second: Clip) {
    first.meta.originId == second.meta.originId ==> first.meta.seqno < second.meta.seqno
  }

  /** The operations of a clipboard that works are those above. */
  lemma WellIsTheSame(env: Env, s: Hub, item: Item, clip: Clip, now: int, saved: bool)
    ensures PushedWith(env, s, item, now, WELL, saved) == Pushed(env, s, item, now, saved)
    ensures var (s', ack) := Applied(env, s, clip, now);
            AppliedWith(env, s, clip, now, WELL) == (s', Ok(ack))
  {
    hide Fresh, Recorded, VerifyClip;
  }

  lemma StepRemembers(env: Env, s: Hub, op: Op)
    ensures var o := Step(env, s, op);
            && o.hub.id == s.id
            && s.presented <= o.hub.presented
            && (op.Apply? && o.placed != [] ==>
                  && op.clip.meta.originId != s.id
                  && Above(s.presented, op.clip)
                  && o.hub.presented == s.presented + [Presented(op.clip.meta.originId, op.clip.meta.seqno)])
  {
  }

  lemma AboveLater(earlier: seq<Presented>, later: seq<Presented>, clip: Clip)
    requires earlier <= later && Above(later, clip)
    ensures Above(earlier, clip)
  {
    assert forall k :: 0 <= k < |earlier| ==> earlier[k] == later[k];
  }

  /**
   * At most once: whatever is delivered, each origin's clips are taken over in strictly increasing
   * sequence order, above everything presented before, and a hub never takes over its own clip.
   */
  lemma {:induction false} AtMostOnce(env: Env, s: Hub, ops: seq<Op>)
    ensures forall i :: 0 <= i < |Taken(env, s, ops)| ==>
              Taken(env, s, ops)[i].meta.originId != s.id && Above(s.presented, Taken(env, s, ops)[i])
    ensures forall i, j :: 0 <= i < j < |Taken(env, s, ops)| ==>
              SequencedAfter(Taken(env, s, ops)[i], Taken(env, s, ops)[j])
    decreases |ops|
  {
    if ops != [] {
      var o := Step(env, s, ops[0]);
      StepRemembers(env, s, ops[0]);
      hide Step;
      AtMostOnce(env, o.hub, ops[1..]);
      var rest := Taken(env, o.hub, ops[1..]);
      forall j | 0 <= j < |rest|
        ensures Above(s.presented, rest[j])
        ensures ops[0].Apply? && o.placed != [] ==> SequencedAfter(ops[0].clip, rest[j])
      {
        AboveLater(s.presented, o.hub.presented, rest[j]);
        if ops[0].Apply? && o.placed != [] {
          var m := ops[0].clip.meta;
          assert o.hub.presented[|s.presented|] == Presented(m.originId, m.seqno);
        }
      }
    }
  }

  /** A hub acknowledges exactly the sound clips; any other one it refuses, saying why, and is as it was. */
  lemma AcknowledgedIffSound(env: Env, s: Hub, clip: Clip, now: int)
    requires HashLaw(env)
    ensures var (s', ack) := Applied(env, s, clip, now);
            && ack.hash == clip.meta.hash
            && (ack.ok <==> Sound(env, clip))
            && (!ack.ok ==> s' == s)
            && (ack.reason == "too-large" <==> |clip.data| > 10_485_760 || clip.meta.size > 10_485_760)
            && (ack.reason == "truncated" <==>
                  |clip.data| <= MAX_CLIP && clip.meta.size <= MAX_CLIP && clip.meta.size != |clip.data|)
  {
    VerifiedIsSound(env, clip);
  }

  /** Integrity: whatever is delivered, only sound clips leave a hub and only sound items reach its clipboard. */
  lemma {:induction false} Integrity(env: Env, s: Hub, ops: seq<Op>)
    requires HashLaw(env)
    requires forall op :: op in ops && !op.Apply? ==> LocalItem(env, op.item)
    ensures forall o :: o in Sent(env, s, ops) ==> Sound(env, o.clip)
    ensures forall item :: item in Written(env, s, ops) ==> SoundItem(env, item)
    decreases |ops|
  {
    if ops != [] {
      var op := ops[0];
      Integrity(env, Step(env, s, op).hub, ops[1..]);
      if op.Apply? {
        VerifiedIsSound(env, op.clip);
      } else {
        assert HashOf(env, op.item) == env.hash(op.item.data);
      }
    }
  }

  // What the operations come to, field by field.

  /** The item is the clip: its bytes, hash, MIME type and name. */
  predicate Carries(item: Item, clip: Clip) {
    && item.data == clip.data
    && item.hash == clip.meta.hash
    && item.mime == clip.meta.mime
    && item.name == clip.meta.name
  }

  /**
   * When a received clip is put on the clipboard, and as what: it is sound, foreign, new, not known to be
   * there already and can be written; then the clipboard is the clip, and otherwise it stays as it was.
   */
  lemma WrittenIff(env: Env, s: Hub, clip: Clip, now: int, health: Health)
    requires HashLaw(env)
    ensures var (s', r) := AppliedWith(env, s, clip, now, health);
            && var present := health.gets && s.clipboard.Some? && s.clipboard.value.hash == clip.meta.hash;
            && (r == Ok(ClipAck(clip.meta.hash, true, "")) <==>
                  && Sound(env, clip) && clip.meta.originId != s.id && Above(s.presented, clip)
                  && !present && health.sets)
            && (if r == Ok(ClipAck(clip.meta.hash, true, ""))
                then s'.clipboard.Some? && Carries(s'.clipboard.value, clip)
                else s'.clipboard == s.clipboard)
            && s'.id == s.id && s'.counter == s.counter
  {
    VerifiedIsSound(env, clip);
    hide Sound, Fresh, VerifyClip, HashLaw;
  }

  /** The answers to a sound clip that is not written, and the one to a clip whose hash is wrong. */
  lemma OtherAnswers(env: Env, s: Hub, clip: Clip, now: int, health: Health)
    requires HashLaw(env)
    ensures var (s', r) := AppliedWith(env, s, clip, now, health);
            var h := clip.meta.hash;
            && (r == Ok(ClipAck(h, true, "own-origin")) <==> Sound(env, clip) && clip.meta.originId == s.id)
            && (r == Ok(ClipAck(h, true, "duplicate")) <==>
                  Sound(env, clip) && clip.meta.originId != s.id && !Above(s.presented, clip))
            && (r == Ok(ClipAck(h, true, "already-present")) <==>
                  && Sound(env, clip) && clip.meta.originId != s.id && Above(s.presented, clip)
                  && health.gets && s.clipboard.Some? && s.clipboard.value.hash == h)
            && (r == Ok(ClipAck(h, false, "hash-mismatch")) <==>
                  |clip.data| == clip.meta.size <= MAX_CLIP && env.hash(clip.data) != h)
  {
    VerifiedIsSound(env, clip);
    assert |env.hash(clip.data)| == 64;
    hide Fresh, HashLaw;
  }

  /** A write that failed has used up the clip's number: delivered again, it is a duplicate. */
  lemma FailedWriteIsFinal(env: Env, s: Hub, clip: Clip, now: int, health: Health, later: int, health': Health)
    requires HashLaw(env) && AppliedWith(env, s, clip, now, health).1 == Err(BackendFailed)
    ensures var s' := AppliedWith(env, s, clip, now, health).0;
            && s'.clipboard == s.clipboard
            && AppliedWith(env, s', clip, later, health').1 == Ok(ClipAck(clip.meta.hash, true, "duplicate"))
  {
    VerifiedIsSound(env, clip);
    var s' := AppliedWith(env, s, clip, now, health).0;
    assert s'.presented[|s.presented|] == Presented(clip.meta.originId, clip.meta.seqno);
    assert !Above(s'.presented, clip);
    hide Sound, HashLaw, Fresh;
    OtherAnswers(env, s', clip, later, health');
  }

  /** The history grows by the hash: twice around a write, once for a clip already there. */
  lemma AppliedIsRecorded(env: Env, s: Hub, clip: Clip, now: int, health: Health)
    requires HashLaw(env)
    ensures var (s', r) := AppliedWith(env, s, clip, now, health);
            var times :=
              if r.Err? || r.value.reason == "already-present" then 1 else if r.value.reason == "" then 2 else 0;
            && |s'.adds| == |s.adds| + times && s.adds <= s'.adds
            && forall i :: |s.adds| <= i < |s'.adds| ==> s'.adds[i] == Added(clip.meta.hash, now)
  {
    VerifiedIsSound(env, clip);
    hide Sound, Fresh, HashLaw;
  }

  /** A clip made of an item: the item's bytes and name, its hash and MIME type or those computed, the next number. */
  predicate MadeOf(env: Env, s: Hub, item: Item, clip: Clip) {
    && clip.data == item.data
    && clip.meta.size == |item.data|
    && clip.meta.name == item.name
    && (item.mime != "" ==> clip.meta.mime == item.mime)
    && (item.mime == "" ==> clip.meta.mime == env.mime(item.data))
    && (item.hash != "" ==> clip.meta.hash == item.hash)
    && (item.hash == "" ==> clip.meta.hash == env.hash(item.data))
    && clip.meta.originId == s.id
    && clip.meta.seqno == (s.counter + 1) % (U64_MAX + 1)
  }

  /** A push within the limit is written, with its hash, and broadcast as it was given. */
  lemma PushIsWhole(env: Env, s: Hub, item: Item, now: int, health: Health, saved: bool)
    ensures var (s', r) := PushedWith(env, s, item, now, health, saved);
            && (r.Ok? <==> |item.data| <= MAX_CLIP && health.sets && saved)
            && (r.Ok? ==> MadeOf(env, s, item, r.value))
            && (if |item.data| <= MAX_CLIP && health.sets then
                  && s'.clipboard.Some? && s'.clipboard.value.(hash := item.hash) == item
                  && s'.clipboard.value.hash == HashOf(env, item)
                  && s'.counter == (s.counter + 1) % (U64_MAX + 1)
                else
                  s'.clipboard == s.clipboard && s'.counter == s.counter)
            && s'.presented == s.presented
  {
  }

  /** An observed item is broadcast unless it is empty, too large or suppressed; the clipboard is not touched. */
  lemma ObservationIsWhole(env: Env, s: Hub, item: Item, now: int, saved: bool)
    ensures var (s', r) := Observed(env, s, item, now, saved);
            && (r == Ok(None) <==>
                  || item.data == [] || |item.data| > MAX_CLIP
                  || Suppressed(s.adds, env.ttl, RING, HashOf(env, item), now))
            && (r.Ok? && r.value.Some? ==> MadeOf(env, s, item, r.value.value))
            && (r == Ok(None) ==> s' == s)
            && s'.clipboard == s.clipboard && s'.presented == s.presented
  {
    hide Suppressed;
  }

  /** A push is in the history twice, an observed item once, whether or not its number could be saved. */
  lemma MadeIsRecorded(env: Env, s: Hub, item: Item, now: int, health: Health, saved: bool)
    requires HashOf(env, item) != ""
    ensures var (s', r) := PushedWith(env, s, item, now, health, saved);
            var times := if r == Err(HubError.TooLarge) then 0 else if r == Err(BackendFailed) then 1 else 2;
            && |s'.adds| == |s.adds| + times && s.adds <= s'.adds
            && forall i :: |s.adds| <= i < |s'.adds| ==> s'.adds[i] == Added(HashOf(env, item), now)
    ensures var (s', r) := Observed(env, s, item, now, saved);
            s'.adds == s.adds + if r == Ok(None) then [] else [Added(HashOf(env, item), now)]
  {
    hide Suppressed, HashOf;
  }

  /** An observation whose number could not be saved is not made again: its hash is suppressed by then. */
  lemma UnsavedIsNotRetried(env: Env, s: Hub, item: Item, now: int, later: int)
    requires HashOf(env, item) != "" && Observed(env, s, item, now, false).1 == Err(PersistSeq)
    ensures var s' := Observed(env, s, item, now, false).0;
            Observed(env, s', item, later, true) == (s', Ok(None))
  {
    var s' := Observed(env, s, item, now, false).0;
    assert s'.adds[|s.adds|].hash == HashOf(env, item);
    hide HashOf;
  }

  /** A hash added once is suppressed for the time to live and while it is among the last sixty-four, and no longer. */
  lemma SuppressedWhileRecent(adds: seq<Added>, hash: string, at: int, others: seq<Added>, ttl: nat, now: int)
    requires hash != ""
    requires forall i :: 0 <= i < |adds| ==> adds[i].hash != hash
    requires forall i :: 0 <= i < |others| ==> others[i].hash != hash
    ensures Suppressed(adds + [Added(hash, at)] + others, ttl, RING, hash, now) <==>
              |others| < 64 || now - at <= ttl
  {
    var all := adds + [Added(hash, at)] + others;
    assert all[|adds|] == Added(hash, at);
    assert forall i :: |adds| < i < |all| ==> all[i] == others[i - |adds| - 1];
  }
}
