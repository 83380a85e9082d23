/**
 * What surrounds a hub in one daemon (src/daemon.rs): the clipboard watcher and the two kinds of
 * session, and the proof that the watcher never echoes.
 */
module Daemon {
  import opened Basics
  import opened Clips
  import opened Tables
  import opened Hubs
  import Frames
  import Envelopes

  /** A hub with its watcher: the bytes it last took, and whether it is waiting out the debounce. */
  datatype Node = Node(hub: Hub, last: Bytes, armed: bool)

  predicate Differs(clipboard: Option<Item>, last: Bytes) {
    clipboard.Some? && clipboard.value.data != [] && clipboard.value.data != last
  }

  /** The first `get` of a poll: it only decides whether to debounce. */
  function Glanced(n: Node): Node {
    if n.armed then n else n.(armed := Differs(n.hub.clipboard, n.last))
  }

  /** The second `get`, after the debounce: the clip made of it, if any. */
  ghost function Looked(env: Env, n: Node, now: int, saved: bool): (Node, Option<Clip>) {
    if !n.armed || !Differs(n.hub.clipboard, n.last) then
      (n.(armed := false), None)
    else
      var item := n.hub.clipboard.value;
      var (hub, r) := Observed(env, n.hub, item, now, saved);
      (Node(hub, item.data, false), if r.Ok? then r.value else None)
  }

  class Watcher {
    const hub: HubObject
    var last: Bytes
    var armed: bool

    ghost function Value(): Node
      reads this, hub.Repr()
    {
      Node(hub.Value(), last, armed)
    }

    constructor (hub: HubObject)
      ensures this.hub == hub && last == [] && !armed
    {
      this.hub := hub;
      last, armed := [], false;
    }

    /** A clipboard that cannot be read is looked at again later. */
    method Glance(health: Health)
      modifies this`armed
      ensures Value() == if health.gets then Glanced(old(Value())) else old(Value())
    {
      if !armed {
        var r := hub.clipboard.Get(health);
        armed := r.Ok? && r.value.Some? && r.value.value.data != [] && r.value.value.data != last;
      }
    }

    method Look(now: int, health: Health, fault: Config.Fault) returns (made: Option<Clip>)
      requires hub.Valid() && ClockAt(hub.suppress.adds, now)
      modifies this, hub.Repr()
      ensures hub.Valid() && ClockAt(hub.suppress.adds, now)
      ensures (Value(), made) ==
                if health.gets then Looked(hub.env, old(Value()), now, fault.NoFault?)
                else (old(Value()).(armed := false), None)
      ensures hub.sent == old(hub.sent) + if made.Some? then [Outbound(made.value, None)] else []
      ensures hub.Uncounted() || hub.Counted(fault)
      ensures made.Some? ==> hub.Counted(fault)
    {
      hide Observed, Suppress.Valid, SeenSeq.Valid, ClockAt;
      made := None;
      if armed {
        armed := false;
        var item := hub.clipboard.Get(health);
        if item.Err? || item.value.None? || item.value.value.data == [] || item.value.value.data == last {
          return;
        }
        last := item.value.value.data;
        var r := hub.LocalObserved(item.value.value, now, fault);
        if r.Ok? {
          made := r.value;
        }
      }
    }
  }

  // Sessions.

  /** The `skip` rule of a TCP session with this peer. */
  predicate CarriedByTcp(out: Outbound, peerId: Option<string>) {
    !(out.skip.Some? && out.skip == peerId)
  }

  /** A relay session forwards clips of local origin only. */
  predicate CarriedByRelay(out: Outbound) {
    out.skip.None?
  }

  datatype Sent = ClipFrame(clip: Clip) | AckFrame(ack: ClipAck)

  class TcpSession {
    const hub: HubObject
    const peerId: Option<string>
    const json: Codec<ClipMeta>
    var wire: seq<Sent>

    constructor (hub: HubObject, peerId: Option<string>, json: Codec<ClipMeta>)
      ensures this.hub == hub && this.peerId == peerId && this.json == json && wire == []
    {
      this.hub, this.peerId, this.json := hub, peerId, json;
      wire := [];
    }

    /** A clip that cannot be encoded ends the session. */
    method OnBroadcast(out: Outbound) returns (goesOn: bool)
      modifies this
      ensures goesOn <==> !CarriedByTcp(out, peerId) || Envelopes.Body(json, out.clip).Ok?
      ensures wire == old(wire) + if CarriedByTcp(out, peerId) && goesOn then [ClipFrame(out.clip)] else []
    {
      if out.skip.Some? && out.skip == peerId {
        return true;
      }
      var body := Envelopes.EncodeClipBody(json, out.clip);
      if body.Err? {
        return false;
      }
      wire := wire + [ClipFrame(out.clip)];
      return true;
    }

    /** Only a clipboard that fails ends the session here. */
    method OnClip(payload: Bytes, now: int, health: Health) returns (goesOn: bool)
      requires hub.Valid() && ClockAt(hub.suppress.adds, now)
      modifies this, hub.Repr()
      ensures hub.Valid() && ClockAt(hub.suppress.adds, now) && hub.Uncounted()
      ensures match Envelopes.DecodeClip(json, payload)
              case Err(_) =>
                && hub.Value() == old(hub.Value()) && hub.sent == old(hub.sent)
                && goesOn && wire == old(wire) + [AckFrame(ClipAck("", false, "truncated"))]
              case Ok(clip) =>
                var (h, r) := AppliedWith(hub.env, old(hub.Value()), clip, now, health);
                && hub.Value() == h && goesOn == r.Ok?
                && wire == old(wire) + (if r.Ok? then [AckFrame(r.value)] else [])
                && hub.sent == old(hub.sent)
                   + if peerId.Some? && r.Ok? then Forwarded(clip, peerId.value, r.value) else []
    {
      hide AppliedWith, Suppress.Valid, SeenSeq.Valid, ClockAt;
      var r: Result<ClipAck, HubError>;
      match Envelopes.DecodeClip(json, payload) {
        case Ok(clip) =>
          if peerId.Some? {
            r := hub.ApplyFrom(clip, peerId.value, now, health);
          } else {
            r := hub.ApplyRemote(clip, now, health);
          }
        case Err(_) =>
          r := Ok(ClipAck("", false, "truncated"));
      }
      if r.Err? {
        return false;
      }
      wire := wire + [AckFrame(r.value)];
      return true;
    }
  }

  /** What a member of a relay group has: the JSON codec, the cipher, the group's secret and id, and its own id. */
  datatype Membership = Membership(
    json: Codec<ClipMeta>, aead: Envelopes.Aead, secret: Secret, group: Id, sender: Id)

  function EnvelopeOf(m: Membership, clip: Clip, counter: u64, nonce: Nonce): Result<Bytes, ProtoError> {
    match Envelopes.Body(m.json, clip)
    case Err(e) => Err(e)
    case Ok(body) =>
      var envelope := Envelopes.Sealed(m.aead, m.secret, m.group, m.sender, counter, nonce, body);
      if |envelope| > MAX_FRAME then Err(ProtoError.TooLarge) else Ok(envelope)
  }

  /** The clip in an envelope and the node that sealed it, if it opens and decodes. */
  function ClipIn(m: Membership, envelope: Bytes): Option<(Clip, string)> {
    match Envelopes.Open(m.aead, m.secret, m.group, envelope)
    case Err(_) => None
    case Ok(inner) =>
      match Envelopes.DecodeClip(m.json, inner.plaintext)
      case Err(_) => None
      case Ok(clip) => Some((clip, Text.Hex(inner.sender)))
  }

  class RelaySession {
    const hub: HubObject
    const member: Membership
    var counter: u64
    /** The data frames written. */
    var wire: seq<Bytes>

    constructor (hub: HubObject, member: Membership)
      ensures this.hub == hub && this.member == member && counter == 0 && wire == []
    {
      this.hub, this.member := hub, member;
      counter, wire := 0, [];
    }

    /** A clip that cannot be encoded ends the session, and its number is used up. */
    method OnBroadcast(out: Outbound, nonce: Nonce) returns (goesOn: bool)
      modifies this
      ensures !CarriedByRelay(out) ==> goesOn && counter == old(counter) && wire == old(wire)
      ensures CarriedByRelay(out) ==>
                && counter == Config.Successor(old(counter))
                && match EnvelopeOf(member, out.clip, counter, nonce)
                   case Ok(envelope) => goesOn && wire == old(wire) + [envelope]
                   case Err(_) => !goesOn && wire == old(wire)
    {
      if out.skip.Some? {
        return true;
      }
      counter := if counter == U64_MAX then 0 else counter + 1;
      var body := Envelopes.EncodeClipBody(member.json, out.clip);
      if body.Err? {
        return false;
      }
      var envelope :=
        Envelopes.Seal(member.aead, member.secret, member.group, member.sender, counter, nonce, body.value);
      if |envelope| > MAX_FRAME {
        return false;
      }
      wire := wire + [envelope];
      return true;
    }

    /**
     * A data frame arrived.  One that does not open or decode ends the session, and so does a clipboard
     * that fails; the check made on a decoded clip changes nothing that `ApplyFrom` would not refuse.
     */
    method OnData(envelope: Bytes, now: int, health: Health) returns (goesOn: bool)
      requires hub.Valid() && ClockAt(hub.suppress.adds, now)
      modifies hub.Repr()
      ensures hub.Valid() && ClockAt(hub.suppress.adds, now) && hub.Uncounted()
      ensures match ClipIn(member, envelope)
              case None => !goesOn && hub.Value() == old(hub.Value()) && hub.sent == old(hub.sent)
              case Some((clip, sender)) =>
                var (h, r) := AppliedWith(hub.env, old(hub.Value()), clip, now, health);
                && hub.Value() == h && goesOn == r.Ok?
                && hub.sent == old(hub.sent) + if r.Ok? then Forwarded(clip, sender, r.value) else []
    {
      hide Envelopes.Open, Envelopes.DecodeClip;
      var inner := Envelopes.Open(member.aead, member.secret, member.group, envelope);
      if inner.Err? {
        return false;
      }
      var decoded := Envelopes.DecodeClip(member.json, inner.value.plaintext);
      if decoded.Err? {
        return false;
      }
      var verified := VerifyClip(hub.env, decoded.value);
      if verified.Err? {
        return true;
      }
      var sender := Text.HexEncode(inner.value.sender);
      var r := hub.ApplyFrom(decoded.value, sender, now, health);
      return r.Ok?;
    }
  }

  /** What one member seals for a sound clip another one opens as that clip, from that member. */
  lemma MembersUnderstand(
    env: Env, from: Membership, to: Membership, clip: Clip, counter: u64, nonce: Nonce, envelope: Bytes)
    requires CodecLaw(from.json) && Envelopes.AeadLaw(from.aead) && Sound(env, clip)
    requires from == to.(sender := from.sender) && EnvelopeOf(from, clip, counter, nonce) == Ok(envelope)
    ensures ClipIn(to, envelope) == Some((clip, Text.Hex(from.sender)))
  {
    var body := Envelopes.Body(from.json, clip).value;
    Envelopes.OpenInvertsSeal(from.aead, from.secret, from.group, from.sender, counter, nonce, body);
    Envelopes.BodyRoundTrip(from.json, clip, body);
    hide Envelopes.Open, Envelopes.DecodeClip, Envelopes.Body, Envelopes.Sealed;
  }

  /** Encoding fails only for a meta over the limit: a sound clip's data and envelope always fit. */
  lemma OnlyMetaCanFail(env: Env, m: Membership, clip: Clip, counter: u64, nonce: Nonce)
    requires Envelopes.AeadLaw(m.aead) && Sound(env, clip)
    ensures EnvelopeOf(m, clip, counter, nonce).Ok? <==> |m.json.encode(clip.meta)| <= MAX_META
  {
    assert Envelopes.Normalized(clip) == clip;
    if Envelopes.Body(m.json, clip).Ok? {
      var body := Envelopes.Body(m.json, clip).value;
      Envelopes.BodiesFitFrames(m.json, clip);
      Envelopes.OpenInvertsSeal(m.aead, m.secret, m.group, m.sender, counter, nonce, body);
    }
  }

  /** The envelope of a clip names its sealer, its counter and its nonce in the clear. */
  lemma EnvelopeNames(m: Membership, clip: Clip, counter: u64, nonce: Nonce, envelope: Bytes)
    requires Envelopes.AeadLaw(m.aead) && EnvelopeOf(m, clip, counter, nonce) == Ok(envelope)
    ensures 65 <= |envelope| <= 10_551_296 && envelope[0] == 1
    ensures envelope[1..17] == m.sender && envelope[25..49] == nonce
    ensures Frames.FromBigEndian(envelope[17..25]) == counter
  {
    var body := Envelopes.Body(m.json, clip).value;
    Envelopes.EnvelopeLayout(m.aead, m.secret, m.group, m.sender, counter, nonce, body);
    hide Envelopes.Body, Envelopes.Sealed, Frames.FromBigEndian;
  }

  /**
   * No member takes an envelope altered on the way: if its ciphertext is authentic, one whose version, sender,
   * counter or nonce was changed yields no clip, and neither does the unchanged one in another group or under
   * another secret.
   */
  lemma ForgeriesAreRefused(
    from: Membership, to: Membership, clip: Clip, counter: u64, nonce: Nonce, envelope: Bytes, altered: Bytes)
    requires Envelopes.AeadLaw(from.aead) && from.aead == to.aead
    requires EnvelopeOf(from, clip, counter, nonce) == Ok(envelope)
    requires |altered| == |envelope| >= 49 && altered[49..] == envelope[49..]
    requires Envelopes.Authentic(from.aead, envelope[49..])
    requires altered != envelope || to.group != from.group || to.secret != from.secret
    ensures ClipIn(to, altered).None?
  {
    var body := Envelopes.Body(from.json, clip).value;
    Envelopes.OpensOnlyAsSealed(
      from.aead, from.secret, from.group, from.sender, counter, nonce, body, to.secret, to.group, altered);
    hide Envelopes.Body, Envelopes.Sealed, Envelopes.Open, Envelopes.DecodeClip, Envelopes.Authentic;
  }

  // Runs of one daemon whose sessions deliver anything.

  datatype NodeOp =
    | UserWrites(item: Item)
    | Glance
    | Look(now: int, saved: bool)
    | Pushes(item: Item, now: int, saved: bool)
    | Receives(clip: Clip, now: int)

  ghost function NodeStep(env: Env, n: Node, op: NodeOp): Node {
    match op
    case UserWrites(item) => n.(hub := n.hub.(clipboard := Some(item)))
    case Glance => Glanced(n)
    case Look(now, saved) => Looked(env, n, now, saved).0
    case Pushes(item, now, saved) => n.(hub := Pushed(env, n.hub, item, now, saved).0)
    case Receives(clip, now) => n.(hub := Applied(env, n.hub, clip, now).0)
  }

  /** How many clips the watcher has made, and how often the user wrote the clipboard. */
  ghost function WatcherClips(env: Env, n: Node, ops: seq<NodeOp>): nat
    decreases |ops|
  {
    if ops == [] then 0 else
    (if ops[0].Look? && Looked(env, n, ops[0].now, ops[0].saved).1.Some? then 1 else 0)
    + WatcherClips(env, NodeStep(env, n, ops[0]), ops[1..])
  }

  function UserWriteCount(ops: seq<NodeOp>): nat {
    if ops == [] then 0 else (if ops[0].UserWrites? then 1 else 0) + UserWriteCount(ops[1..])
  }

  /**
   * The watcher has nothing to make of the clipboard: there is nothing it would take, or the
   * clipboard's hash is the newest ring entry, whatever its age.
   */
  ghost predicate Covered(env: Env, n: Node) {
    n.hub.clipboard.Some? ==>
      var item := n.hub.clipboard.value;
      || item.data == []
      || |item.data| > MAX_CLIP
      || item.data == n.last
      || (n.hub.adds != [] && n.hub.adds[|n.hub.adds| - 1].hash == HashOf(env, item))
  }

  lemma NewestIsSuppressed(adds: seq<Added>, ttl: nat, hash: string, now: int)
    requires adds != [] && adds[|adds| - 1].hash == hash != ""
    ensures Suppressed(adds, ttl, RING, hash, now)
  {
    assert adds[|adds| - 1].hash == hash;
  }

  /** Only the user uncovers the clipboard, and a covered clipboard makes no clip. */
  lemma StepKeepsCovered(env: Env, n: Node, op: NodeOp)
    requires HashLaw(env)
    ensures Covered(env, n) && !op.UserWrites? ==> Covered(env, NodeStep(env, n, op))
    ensures op.Look? && Looked(env, n, op.now, op.saved).1.Some? ==>
              !Covered(env, n) && Covered(env, NodeStep(env, n, op))
  {
    match op
    case UserWrites(_) =>
    case Glance =>
    case Look(now, saved) =>
      if n.armed && Differs(n.hub.clipboard, n.last) {
        var h := HashOf(env, n.hub.clipboard.value);
        assert |env.hash(n.hub.clipboard.value.data)| == 64;
        if n.hub.adds != [] && n.hub.adds[|n.hub.adds| - 1].hash == h {
          NewestIsSuppressed(n.hub.adds, env.ttl, h, now);
        }
      }
    case Pushes(item, now, saved) =>
      assert |env.hash(item.data)| == 64;
    case Receives(clip, now) =>
      VerifiedIsSound(env, clip);
      assert |env.hash(clip.data)| == 64;
  }

  /**
   * Conversely a user's write is not missed: polled twice, it is sent if and only if it is not empty,
   * not what the watcher last took, within the limit and not suppressed; and it is sent as it was written.
   */
  lemma WritesAreSent(env: Env, n: Node, item: Item, now: int)
    ensures var polled := NodeStep(env, NodeStep(env, n, UserWrites(item)), NodeOp.Glance);
            var made := Looked(env, polled, now, true).1;
            && (made.Some? <==>
                  && item.data != [] && item.data != n.last && |item.data| <= MAX_CLIP
                  && !Suppressed(n.hub.adds, env.ttl, RING, HashOf(env, item), now))
            && (made.Some? ==>
                  && made.value.data == item.data && made.value.meta.hash == HashOf(env, item)
                  && MadeOf(env, n.hub, item, made.value))
  {
    hide Suppressed;
  }

  /** A look makes nothing unless a glance before it saw a change, and never twice in a row. */
  lemma LooksNeedGlances(env: Env, n: Node, now: int, saved: bool)
    ensures NodeStep(env, n, NodeOp.Glance).armed <==>
              || n.armed
              || (n.hub.clipboard.Some? && n.hub.clipboard.value.data != [] && n.hub.clipboard.value.data != n.last)
    ensures !n.armed ==> Looked(env, n, now, saved).1.None? && NodeStep(env, n, NodeOp.Look(now, saved)) == n
    ensures !NodeStep(env, n, NodeOp.Look(now, saved)).armed
  {
    hide Observed;
  }

  /** Content that went away before the look is forgotten; content the look takes is not taken again. */
  lemma LooksTakeWhatIsThere(env: Env, n: Node, now: int, saved: bool)
    ensures var n' := NodeStep(env, n, NodeOp.Look(now, saved));
            && n'.last == (if n.armed && n.hub.clipboard.Some? && n.hub.clipboard.value.data != []
                           then n.hub.clipboard.value.data else n.last)
            && n'.hub.clipboard == n.hub.clipboard && n'.hub.presented == n.hub.presented
            && (n'.last == n.last ==> n'.hub == n.hub)
  {
    hide Suppressed;
  }

  /**
   * No echo: however long the run and whatever arrives, the clips made by the watcher never
   * outnumber the user's writes, what was on the clipboard at the start counting as one.
   */
  lemma {:induction false} NoEcho(env: Env, n: Node, ops: seq<NodeOp>)
    requires HashLaw(env)
    ensures WatcherClips(env, n, ops) <= UserWriteCount(ops) + if Covered(env, n) then 0 else 1
    decreases |ops|
  {
    if ops != [] {
      StepKeepsCovered(env, n, ops[0]);
      NoEcho(env, NodeStep(env, n, ops[0]), ops[1..]);
    }
  }
}
