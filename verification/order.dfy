/**
 * On a forest of TCP sessions without relays, clips travel away from their origin, one side of a node
 * only, in the order they were made: no run meets a duplicate, and without losses every clip
 * is handed to every connected node exactly once.
 */
module Orders {
  import opened Basics
  import opened Clips
  import opened Tables
  import opened Hubs
  import opened Daemon
  import opened Forests
  import opened Network

  ghost predicate NoRelays(t: Topology) {
    WellFormed(t) && Forest(t.peers) && forall n :: n in t.groups ==> t.groups[n] == []
  }

  /** No counter is about to wrap. */
  ghost predicate Room(net: Net) {
    forall n :: n in net.nodes ==> net.nodes[n].hub.counter < U64_MAX
  }

  predicate Before(c: Clip, c': Clip) {
    c.meta.originId == c'.meta.originId ==> c.meta.seqno < c'.meta.seqno
  }

  ghost predicate InOrder(clips: seq<Clip>) {
    forall i, j :: 0 <= i < j < |clips| ==> Before(clips[i], clips[j])
  }

  /** The node has made the clip or been handed it. */
  ghost predicate Has(net: Net, n: string, c: Clip) {
    (n in net.made && c in net.made[n]) || (n in net.got && c in net.got[n])
  }

  // What every run keeps, drops included.

  ghost predicate Aimed(env: Env, t: Topology, net: Net) {
    forall f :: f in net.frames ==>
      f.Tcp? && Away(t.peers, f.clip.meta.originId, f.src, f.dst) && Sound(env, f.clip) && Has(net, f.src, f.clip)
  }

  /** What a node was handed came over the one edge away from the origin. */
  ghost predicate Traced(t: Topology, net: Net) {
    forall v, c :: v in net.got && c in net.got[v] ==>
      c.meta.originId != v && forall u :: Away(t.peers, c.meta.originId, u, v) ==> Has(net, u, c)
  }

  ghost predicate NumberedBelow(o: string, made: seq<Clip>, counter: u64) {
    InOrder(made) && forall c :: c in made ==> c.meta.originId == o && c.meta.seqno <= counter
  }

  ghost predicate Counted(net: Net) {
    forall o :: o in net.made && o in net.nodes ==> NumberedBelow(o, net.made[o], net.nodes[o].hub.counter)
  }

  ghost predicate Queued(frames: seq<Frame>) {
    forall i, j :: 0 <= i < j < |frames| && SameEdge(frames[i], frames[j]) ==> Before(frames[i].clip, frames[j].clip)
  }

  ghost predicate Ahead(net: Net) {
    forall f, c :: f in net.frames && f.dst in net.got && c in net.got[f.dst] ==> Before(c, f.clip)
  }

  ghost predicate Received(net: Net) {
    forall v :: v in net.got ==> InOrder(net.got[v])
  }

  ghost predicate Shown(p: Presented, got: seq<Clip>) {
    exists c :: c in got && p == Presented(c.meta.originId, c.meta.seqno)
  }

  ghost predicate Remembered(net: Net) {
    forall v, p :: v in net.nodes && v in net.got && p in net.nodes[v].hub.presented ==> Shown(p, net.got[v])
  }

  ghost predicate Orderly(env: Env, t: Topology, net: Net) {
    && Aimed(env, t, net) && Traced(t, net) && Counted(net)
    && Queued(net.frames) && Ahead(net) && Received(net) && Remembered(net)
  }

  /** Nothing is lost: what a node has, each neighbour away from the origin has or is being sent. */
  ghost predicate Complete(t: Topology, net: Net) {
    forall u, v, c: Clip :: Away(t.peers, c.meta.originId, u, v) && Has(net, u, c) ==>
      Has(net, v, c) || Tcp(u, v, c) in net.frames
  }

  // The effect of one event on what the invariants mention.

  /** A delivery to a node that is not the origin: the clip is recorded and forwarded to the other peers. */
  ghost predicate Handed(t: Topology, net: Net, net': Net, f: Frame, kept: seq<Frame>) {
    && f.dst in net.nodes && f.dst in net.got && f.dst in t.peers
    && net'.made == net.made
    && net'.got == net.got[f.dst := net.got[f.dst] + [f.clip]]
    && net'.frames == kept + TcpFrames(f.dst, t.peers[f.dst], Outbound(f.clip, Some(f.src)))
  }

  ghost predicate Noted(net: Net, net': Net, f: Frame) {
    && f.dst in net.nodes && net'.nodes.Keys == net.nodes.Keys
    && (forall n :: n in net.nodes ==> net'.nodes[n].hub.counter == net.nodes[n].hub.counter)
    && (forall n :: n in net.nodes && n != f.dst ==> net'.nodes[n] == net.nodes[n])
    && net'.nodes[f.dst].hub.presented
       == net.nodes[f.dst].hub.presented + [Presented(f.clip.meta.originId, f.clip.meta.seqno)]
  }

  ghost predicate MadeAt(t: Topology, net: Net, net': Net, at: string, c: Clip) {
    && at in net.nodes && at in net.made && at in t.peers
    && net'.made == net.made[at := net.made[at] + [c]]
    && net'.got == net.got
    && net'.frames == net.frames + TcpFrames(at, t.peers[at], Outbound(c, None))
    && at in net'.nodes
    && c.meta.originId == at
    && c.meta.seqno == net'.nodes[at].hub.counter
    && net.nodes[at].hub.counter < c.meta.seqno
  }

  /** Tables other than the clipboard and the suppressed hashes only grow by a counter. */
  ghost predicate Quiet(net: Net, net': Net) {
    && net'.nodes.Keys == net.nodes.Keys
    && forall n :: n in net.nodes ==>
         && net'.nodes[n].hub.presented == net.nodes[n].hub.presented
         && net.nodes[n].hub.counter <= net'.nodes[n].hub.counter
  }

  lemma ReceivingForeign(env: Env, n: Node, clip: Clip, now: int)
    requires HashLaw(env) && Sound(env, clip) && clip.meta.originId != n.hub.id
    ensures Applied(env, n.hub, clip, now).1.ok
    ensures var n' := NodeStep(env, n, Receives(clip, now));
            && n'.hub.counter == n.hub.counter
            && n'.hub.presented == n.hub.presented + [Presented(clip.meta.originId, clip.meta.seqno)]
  {
    VerifiedIsSound(env, clip);
    hide VerifyClip, Fresh, Recorded, HashLaw, Sound;
  }

  lemma ForeignIsForwarded(env: Env, t: Topology, net: Net, e: Event)
    requires HashLaw(env) && WellFormed(t) && Fits(t, net) && Enabled(net, e) && e.Deliver?
    requires var f := net.frames[e.index];
             && f.Tcp? && Sound(env, f.clip) && f.clip.meta.originId != f.dst
             && f.dst in t.groups && t.groups[f.dst] == []
    ensures var f := net.frames[e.index];
            && f.dst in t.peers
            && Next(env, t, net, e).frames
               == Kept(net, e) + TcpFrames(f.dst, t.peers[f.dst], Outbound(f.clip, Some(f.src)))
  {
    var f := net.frames[e.index];
    NextFrames(env, t, net, e);
    hide Next, Simple, Sound, Kept, NodeStep, Applied, HashLaw, FrameFits;
    ReceivingForeign(env, net.nodes[f.dst], f.clip, e.now);
    var out := Outbound(f.clip, Some(f.src));
    assert SentBy(env, net, e) == [out];
    hide SentBy, TcpFrames;
    assert FanOut(t, f.dst, [out]) == TcpFrames(f.dst, t.peers[f.dst], out) + [];
  }

  lemma HandedOver(env: Env, t: Topology, net: Net, e: Event)
    requires HashLaw(env) && NoRelays(t) && Fits(t, net) && Enabled(net, e) && e.Deliver?
    requires var f := net.frames[e.index]; f.Tcp? && Sound(env, f.clip) && f.clip.meta.originId != f.dst
    ensures Handed(t, net, Next(env, t, net, e), net.frames[e.index], Kept(net, e))
  {
    var f := net.frames[e.index];
    assert FrameFits(t, f) && t.groups[f.dst] == [];
    hide Next, Forest, Simple, Sound, Kept, HashLaw, FrameFits, TcpFrames;
    NextGot(env, t, net, e);
    ForeignIsForwarded(env, t, net, e);
  }

  lemma NotedDown(env: Env, t: Topology, net: Net, e: Event)
    requires HashLaw(env) && WellFormed(t) && Fits(t, net) && Enabled(net, e) && e.Deliver?
    requires var f := net.frames[e.index]; f.Tcp? && Sound(env, f.clip) && f.clip.meta.originId != f.dst
    ensures Noted(net, Next(env, t, net, e), net.frames[e.index])
  {
    var f := net.frames[e.index];
    NextNodes(env, t, net, e);
    assert net.nodes[f.dst].hub.id == f.dst;
    hide Next, Simple, Sound, Kept, NodeStep, Applied, HashLaw, Fits, WellFormed, Noted, Enabled;
    ReceivingForeign(env, net.nodes[f.dst], f.clip, e.now);
    NotedIs(net, Next(env, t, net, e), f, NodeStep(env, net.nodes[f.dst], Receives(f.clip, e.now)));
  }

  lemma NotedIs(net: Net, net': Net, f: Frame, n: Node)
    requires f.dst in net.nodes && net'.nodes == net.nodes[f.dst := n]
    requires n.hub.counter == net.nodes[f.dst].hub.counter
    requires n.hub.presented
             == net.nodes[f.dst].hub.presented + [Presented(f.clip.meta.originId, f.clip.meta.seqno)]
    ensures Noted(net, net', f)
  {
  }

  lemma NextGot(env: Env, t: Topology, net: Net, e: Event)
    requires WellFormed(t) && Fits(t, net) && Enabled(net, e) && e.Deliver?
    ensures var f, net' := net.frames[e.index], Next(env, t, net, e);
            && f.dst in net.got && net'.made == net.made
            && net'.got == net.got[f.dst := net.got[f.dst] + [f.clip]]
  {
    assert FrameFits(t, net.frames[e.index]);
    hide NodeStep, SentBy, FanOut, Applied, Simple, Kept;
  }

  /** A gesture at one node, in terms of the node alone. */
  ghost function NodeMakes(env: Env, n: Node, op: NodeOp): Option<Clip> {
    match op
    case Look(now, saved) => Looked(env, n, now, saved).1
    case Pushes(item, now, saved) =>
      var r := Pushed(env, n.hub, item, now, saved).1;
      if r.Ok? then Some(r.value) else None
    case _ => None
  }

  lemma NodeMakesOne(env: Env, n: Node, op: NodeOp)
    requires !op.Receives? && n.hub.counter < U64_MAX
    ensures var n', made := NodeStep(env, n, op), NodeMakes(env, n, op);
            && n'.hub.presented == n.hub.presented
            && n.hub.counter <= n'.hub.counter
            && (made.Some? ==>
                  && made.value.meta.originId == n.hub.id
                  && n.hub.counter < n'.hub.counter == made.value.meta.seqno)
  {
    hide Suppressed;
  }

  lemma GestureFrames(env: Env, t: Topology, net: Net, e: Event)
    requires NoRelays(t) && Fits(t, net) && Enabled(net, e) && !e.Deliver? && !e.Drop?
    ensures e.at in t.peers
    ensures var net', made := Next(env, t, net, e), MadeBy(env, net, e);
            && net'.got == net.got
            && net'.made == (if made.Some? then net.made[e.at := net.made[e.at] + [made.value]] else net.made)
            && net'.frames == net.frames + if made.None? then [] else
                                             TcpFrames(e.at, t.peers[e.at], Outbound(made.value, None))
  {
    hide Forest, Simple, Looked, Pushed, NodeStep, FrameFits, MadeBy;
    var made := MadeBy(env, net, e);
    assert t.groups[e.at] == [];
    if made.Some? {
      var out := Outbound(made.value, None);
      assert FanOut(t, e.at, [out]) == TcpFrames(e.at, t.peers[e.at], out) + [];
    }
  }

  lemma MadeOne(env: Env, t: Topology, net: Net, e: Event)
    requires NoRelays(t) && Fits(t, net) && Enabled(net, e) && Room(net) && !e.Deliver? && !e.Drop?
    ensures Quiet(net, Next(env, t, net, e))
    ensures match MadeBy(env, net, e)
            case Some(c) => MadeAt(t, net, Next(env, t, net, e), e.at, c)
            case None =>
              var net' := Next(env, t, net, e);
              net'.made == net.made && net'.got == net.got && net'.frames == net.frames
  {
    hide Next, Forest, Simple, Looked, Pushed, NodeStep, FrameFits, TcpFrames;
    GestureFrames(env, t, net, e);
    NextNodes(env, t, net, e);
    assert MadeBy(env, net, e) == NodeMakes(env, net.nodes[e.at], OpOf(net, e));
    NodeMakesOne(env, net.nodes[e.at], OpOf(net, e));
  }

  // Frames: what taking one out and appending new ones does to the queues.

  lemma KeptFromElsewhere(net: Net, e: Event, f: Frame)
    requires (e.Deliver? || e.Drop?) && e.index < |net.frames| && f in Kept(net, e)
    ensures exists j :: 0 <= j < |net.frames| && j != e.index && net.frames[j] == f
  {
    var kept := Kept(net, e);
    var k :| 0 <= k < |kept| && kept[k] == f;
    var j := if k < e.index then k else k + 1;
    assert net.frames[j] == f;
  }

  lemma KeptIsQueued(net: Net, e: Event)
    requires Queued(net.frames) && (e.Deliver? || e.Drop? ==> e.index < |net.frames|)
    ensures Queued(Kept(net, e))
  {
    if e.Deliver? || e.Drop? {
      var kept := Kept(net, e);
      forall i, j | 0 <= i < j < |kept| && SameEdge(kept[i], kept[j])
        ensures Before(kept[i].clip, kept[j].clip)
      {
        var i', j' := if i < e.index then i else i + 1, if j < e.index then j else j + 1;
        assert kept[i] == net.frames[i'] && kept[j] == net.frames[j'];
      }
    }
  }

  lemma AppendIsQueued(queue: seq<Frame>, added: seq<Frame>)
    requires Queued(queue)
    requires Apart(added)
    requires forall f, f' :: f in queue && f' in added && SameEdge(f, f') ==> Before(f.clip, f'.clip)
    ensures Queued(queue + added)
  {
    var all := queue + added;
    forall i, j | 0 <= i < j < |all|
      ensures SameEdge(all[i], all[j]) ==> Before(all[i].clip, all[j].clip)
    {
      if j < |queue| {
        assert all[i] == queue[i] && all[j] == queue[j];
      } else if i < |queue| {
        assert all[i] in queue && all[j] in added;
      } else {
        assert all[i] == added[i - |queue|] && all[j] == added[j - |queue|];
      }
    }
  }

  // Delivery of frame f, the oldest of its edge, to a node other than the clip's origin.

  ghost predicate Delivery(env: Env, t: Topology, net: Net, e: Event, net': Net) {
    && NoRelays(t) && Fits(t, net) && Orderly(env, t, net) && Enabled(net, e) && e.Deliver?
    && Handed(t, net, net', net.frames[e.index], Kept(net, e)) && Noted(net, net', net.frames[e.index])
  }

  /** Everything of the same origin that the receiver has is older than the clip delivered. */
  lemma ReceiverIsBehind(env: Env, t: Topology, net: Net, f: Frame, c: Clip)
    requires NoRelays(t) && Fits(t, net) && Orderly(env, t, net) && f in net.frames && Has(net, f.dst, c)
    ensures f.Tcp? && f.dst in t.peers && f.dst != f.clip.meta.originId && Before(c, f.clip)
  {
    hide Forest, Simple, Sound;
    assert f.Tcp? && Away(t.peers, f.clip.meta.originId, f.src, f.dst);
    AwayLeavesOrigin(t.peers, f.clip.meta.originId, f.src, f.dst);
    assert FrameFits(t, f);
    if c in net.made[f.dst] {
      assert c.meta.originId == f.dst;
    }
  }

  lemma DeliveryAimed(env: Env, t: Topology, net: Net, e: Event, net': Net)
    requires Delivery(env, t, net, e, net')
    ensures Aimed(env, t, net')
  {
    hide TcpFrames, Noted, Forest, Simple, Sound, Kept, FrameFits, Queued, Ahead, Received, Remembered, Counted, Traced;
    var f := net.frames[e.index];
    KeptIs(net, e);
    TcpFramesAre(f.dst, t.peers[f.dst], Outbound(f.clip, Some(f.src)));
    forall f' | f' in net'.frames
      ensures f'.Tcp? && Away(t.peers, f'.clip.meta.originId, f'.src, f'.dst)
              && Sound(env, f'.clip) && Has(net', f'.src, f'.clip)
    {
      if f' !in Kept(net, e) {
        AwayGoesOn(t.peers, f.clip.meta.originId, f.src, f.dst, f'.dst);
      }
    }
  }

  lemma DeliveryTraced(env: Env, t: Topology, net: Net, e: Event, net': Net)
    requires Delivery(env, t, net, e, net')
    ensures Traced(t, net')
  {
    hide TcpFrames, Noted, Forest, Simple, Sound, Kept, FrameFits, Queued, Ahead, Received, Remembered, Counted;
    var f := net.frames[e.index];
    var o := f.clip.meta.originId;
    AwayLeavesOrigin(t.peers, o, f.src, f.dst);
    forall v, c | v in net'.got && c in net'.got[v]
      ensures c.meta.originId != v && forall u :: Away(t.peers, c.meta.originId, u, v) ==> Has(net', u, c)
    {
      if !(c in net.got[v]) {
        forall u | Away(t.peers, o, u, v)
          ensures Has(net', u, c)
        {
          AwayFromOneSide(t.peers, o, u, f.src, v);
        }
      }
    }
  }

  lemma DeliveryQueued(env: Env, t: Topology, net: Net, e: Event, net': Net)
    requires Delivery(env, t, net, e, net')
    ensures Queued(net'.frames)
  {
    hide TcpFrames, Noted, Forest, Sound, Kept, FrameFits, Queued, Received, Remembered, Traced, Ahead, Counted, Before;
    var f := net.frames[e.index];
    var out := Outbound(f.clip, Some(f.src));
    KeptIs(net, e);
    KeptIsQueued(net, e);
    TcpFramesAre(f.dst, t.peers[f.dst], out);
    TcpFramesApart(f.dst, t.peers[f.dst], out);
    forall f0, f1 | f0 in Kept(net, e) && f1 in TcpFrames(f.dst, t.peers[f.dst], out) && SameEdge(f0, f1)
      ensures Before(f0.clip, f1.clip)
    {
      ReceiverIsBehind(env, t, net, f, f0.clip);
    }
    AppendIsQueued(Kept(net, e), TcpFrames(f.dst, t.peers[f.dst], out));
  }

  /** A forwarded frame is ahead of what its receiver has, and so is a frame that was already under way. */
  lemma ForwardedIsAhead(env: Env, t: Topology, net: Net, e: Event, net': Net, to: Frame, c: Clip)
    requires Delivery(env, t, net, e, net') && to in net'.frames && to !in Kept(net, e)
    requires to.dst in net'.got && c in net'.got[to.dst]
    ensures Before(c, to.clip)
  {
    hide TcpFrames, Noted, Forest, Sound, Kept, FrameFits, Received, Remembered, Counted, Ahead, Queued, Traced;
    var f := net.frames[e.index];
    TcpFramesAre(f.dst, t.peers[f.dst], Outbound(f.clip, Some(f.src)));
    AwayGoesOn(t.peers, f.clip.meta.originId, f.src, f.dst, to.dst);
    if c.meta.originId == f.clip.meta.originId {
      TracedBack(env, t, net, f, to.dst, c);
      ReceiverIsBehind(env, t, net, f, c);
    }
  }

  lemma TracedBack(env: Env, t: Topology, net: Net, f: Frame, w: string, c: Clip)
    requires Traced(t, net) && w in net.got && c in net.got[w] && Away(t.peers, c.meta.originId, f.dst, w)
    ensures Has(net, f.dst, c)
  {
    hide Away;
  }

  lemma UnderWayIsAhead(env: Env, t: Topology, net: Net, e: Event, net': Net, f0: Frame, c: Clip)
    requires Delivery(env, t, net, e, net') && f0 in Kept(net, e)
    requires f0.dst in net'.got && c in net'.got[f0.dst]
    ensures Before(c, f0.clip)
  {
    hide TcpFrames, Noted, Forest, Sound, Kept, FrameFits, Received, Remembered, Counted, Traced;
    var f := net.frames[e.index];
    KeptIs(net, e);
    if c !in net.got[f0.dst] && f0.clip.meta.originId == f.clip.meta.originId {
      AwayFromOneSide(t.peers, f.clip.meta.originId, f0.src, f.src, f.dst);
      KeptFromElsewhere(net, e, f0);
      var j :| 0 <= j < |net.frames| && j != e.index && net.frames[j] == f0;
      assert SameEdge(net.frames[j], f) && SameEdge(f, net.frames[j]);
    }
  }

  lemma DeliveryAhead(env: Env, t: Topology, net: Net, e: Event, net': Net)
    requires Delivery(env, t, net, e, net')
    ensures Ahead(net')
  {
    assert e.Deliver? && e.index < |net.frames|;
    hide Delivery, Before, Kept;
    forall to, c | to in net'.frames && to.dst in net'.got && c in net'.got[to.dst]
      ensures Before(c, to.clip)
    {
      if to in Kept(net, e) {
        UnderWayIsAhead(env, t, net, e, net', to, c);
      } else {
        ForwardedIsAhead(env, t, net, e, net', to, c);
      }
    }
  }

  lemma DeliveryCounted(env: Env, t: Topology, net: Net, e: Event, net': Net)
    requires Delivery(env, t, net, e, net')
    ensures Counted(net') && Received(net')
  {
    hide TcpFrames, Forest, Simple, Sound, Kept, FrameFits, Queued, Aimed, Traced, Before, Remembered;
    var f := net.frames[e.index];
    assert forall c :: c in net.got[f.dst] ==> Before(c, f.clip);
  }

  lemma StillShown(p: Presented, got: seq<Clip>, c: Clip)
    ensures Shown(p, got) ==> Shown(p, got + [c])
    ensures p == Presented(c.meta.originId, c.meta.seqno) ==> Shown(p, got + [c])
  {
    if Shown(p, got) {
      var c0 :| c0 in got && p == Presented(c0.meta.originId, c0.meta.seqno);
      assert c0 in got + [c];
    }
    assert c in got + [c];
  }

  lemma NotedIsRemembered(net: Net, net': Net, f: Frame)
    requires Remembered(net) && Noted(net, net', f) && f.dst in net.got
    requires net'.got == net.got[f.dst := net.got[f.dst] + [f.clip]]
    ensures Remembered(net')
  {
    hide Shown;
    forall v, p | v in net'.nodes && v in net'.got && p in net'.nodes[v].hub.presented
      ensures Shown(p, net'.got[v])
    {
      if v == f.dst {
        StillShown(p, net.got[v], f.clip);
      }
    }
  }

  lemma DeliveryRecorded(env: Env, t: Topology, net: Net, e: Event, net': Net)
    requires Delivery(env, t, net, e, net')
    ensures Counted(net') && Received(net') && Remembered(net')
  {
    DeliveryCounted(env, t, net, e, net');
    hide TcpFrames, NoRelays, Fits, Kept, Queued, Aimed, Traced, Counted, Received, Ahead, Remembered, Noted;
    NotedIsRemembered(net, net', net.frames[e.index]);
  }

  lemma DeliveryComplete(env: Env, t: Topology, net: Net, e: Event, net': Net)
    requires Delivery(env, t, net, e, net') && Complete(t, net)
    ensures Complete(t, net')
  {
    hide TcpFrames, Noted, Forest, Simple, Sound, Kept, FrameFits, Queued, Traced, Before, Counted, Received,
         Remembered, Ahead;
    var f := net.frames[e.index];
    var o := f.clip.meta.originId;
    KeptIs(net, e);
    TcpFramesAre(f.dst, t.peers[f.dst], Outbound(f.clip, Some(f.src)));
    forall u, v, c: Clip | Away(t.peers, c.meta.originId, u, v) && Has(net', u, c)
      ensures Has(net', v, c) || Tcp(u, v, c) in net'.frames
    {
      if !Has(net, u, c) {
        AwayLeavesOrigin(t.peers, o, u, v);
        AwayIsOneWay(t.peers, o, f.src, f.dst);
        assert Tcp(u, v, c) in TcpFrames(f.dst, t.peers[f.dst], Outbound(f.clip, Some(f.src)));
      } else if !Has(net, v, c) {
        assert Tcp(u, v, c) in Kept(net, e) || Tcp(u, v, c) == f;
      }
    }
  }

  // A clip c packed at a node.

  ghost predicate Packing(env: Env, t: Topology, net: Net, net': Net, at: string, c: Clip) {
    && NoRelays(t) && Fits(t, net) && Orderly(env, t, net)
    && Sound(env, c) && MadeAt(t, net, net', at, c) && Quiet(net, net')
  }

  /** Everything of its own origin that a node has, it made, under a smaller number. */
  lemma OwnClipsAreOlder(env: Env, t: Topology, net: Net, net': Net, at: string, c: Clip, c0: Clip)
    requires Packing(env, t, net, net', at, c) && Has(net, at, c0)
    ensures Before(c0, c)
  {
    hide Forest, Simple, Sound, TcpFrames, Aimed, Queued, Ahead, Received, Remembered;
  }

  lemma PackingAimed(env: Env, t: Topology, net: Net, net': Net, at: string, c: Clip)
    requires Packing(env, t, net, net', at, c)
    ensures Aimed(env, t, net')
  {
    hide TcpFrames, Forest, Sound, FrameFits, Queued, Ahead, Received, Remembered, Counted, Traced, Quiet;
    TcpFramesAre(at, t.peers[at], Outbound(c, None));
    forall f' | f' in net'.frames
      ensures f'.Tcp? && Away(t.peers, f'.clip.meta.originId, f'.src, f'.dst)
              && Sound(env, f'.clip) && Has(net', f'.src, f'.clip)
    {
      if f' !in net.frames {
        AwayFromStart(t.peers, at, f'.dst);
      }
    }
  }

  lemma PackingRecorded(env: Env, t: Topology, net: Net, net': Net, at: string, c: Clip)
    requires Packing(env, t, net, net', at, c)
    ensures Traced(t, net') && Received(net') && Remembered(net')
  {
    hide TcpFrames, Forest, Simple, Sound, FrameFits, Queued, Ahead, Counted, Aimed, InOrder;
    forall v, c0 | v in net'.got && c0 in net'.got[v]
      ensures c0.meta.originId != v && forall u :: Away(t.peers, c0.meta.originId, u, v) ==> Has(net', u, c0)
    {
      assert c0 in net.got[v];
    }
  }

  lemma NumberedNext(o: string, made: seq<Clip>, counter: u64, c: Clip)
    requires NumberedBelow(o, made, counter) && c.meta.originId == o && counter < c.meta.seqno
    ensures NumberedBelow(o, made + [c], c.meta.seqno)
  {
    var all := made + [c];
    forall i, j | 0 <= i < j < |all|
      ensures Before(all[i], all[j])
    {
      assert j < |made| ==> Before(made[i], made[j]);
      assert i < |made| ==> all[i] in made;
    }
  }

  lemma PackingCounted(env: Env, t: Topology, net: Net, net': Net, at: string, c: Clip)
    requires Packing(env, t, net, net', at, c)
    ensures Counted(net')
  {
    hide TcpFrames, Forest, Simple, Sound, FrameFits, Queued, Ahead, Aimed, Traced, Received, Remembered, InOrder;
    NumberedNext(at, net.made[at], net.nodes[at].hub.counter, c);
  }

  lemma PackingQueued(env: Env, t: Topology, net: Net, net': Net, at: string, c: Clip)
    requires Packing(env, t, net, net', at, c)
    ensures Queued(net'.frames)
  {
    hide TcpFrames, Forest, Sound, FrameFits, Queued, Received, Remembered, Traced, Ahead, Counted, Before, Quiet;
    var out := Outbound(c, None);
    TcpFramesAre(at, t.peers[at], out);
    TcpFramesApart(at, t.peers[at], out);
    forall f0, f1 | f0 in net.frames && f1 in TcpFrames(at, t.peers[at], out) && SameEdge(f0, f1)
      ensures Before(f0.clip, f1.clip)
    {
      OwnClipsAreOlder(env, t, net, net', at, c, f0.clip);
    }
    AppendIsQueued(net.frames, TcpFrames(at, t.peers[at], out));
  }

  lemma PackingAhead(env: Env, t: Topology, net: Net, net': Net, at: string, c: Clip)
    requires Packing(env, t, net, net', at, c)
    ensures Ahead(net')
  {
    hide TcpFrames, Forest, Sound, FrameFits, Queued, Received, Remembered, Counted, Quiet;
    TcpFramesAre(at, t.peers[at], Outbound(c, None));
    forall f0, c0 | f0 in net'.frames && f0.dst in net'.got && c0 in net'.got[f0.dst]
      ensures Before(c0, f0.clip)
    {
      if f0 !in net.frames && c0.meta.originId == at {
        AwayFromStart(t.peers, at, f0.dst);
        OwnClipsAreOlder(env, t, net, net', at, c, c0);
      }
    }
  }

  lemma PackingComplete(env: Env, t: Topology, net: Net, net': Net, at: string, c: Clip)
    requires Packing(env, t, net, net', at, c) && Complete(t, net)
    ensures Complete(t, net')
  {
    hide TcpFrames, Simple, Sound, FrameFits, Queued, Ahead, Received, Remembered, Quiet, Before, Traced, Forest;
    TcpFramesAre(at, t.peers[at], Outbound(c, None));
    forall u, v, c0: Clip | Away(t.peers, c0.meta.originId, u, v) && Has(net', u, c0)
      ensures Has(net', v, c0) || Tcp(u, v, c0) in net'.frames
    {
      if !Has(net, u, c0) {
        AwayLeavesOrigin(t.peers, at, u, v);
      }
    }
  }

  lemma PackingKeepsOrder(env: Env, t: Topology, net: Net, net': Net, at: string, c: Clip)
    requires Packing(env, t, net, net', at, c)
    ensures Orderly(env, t, net')
    ensures Complete(t, net) ==> Complete(t, net')
  {
    PackingAimed(env, t, net, net', at, c);
    PackingRecorded(env, t, net, net', at, c);
    PackingCounted(env, t, net, net', at, c);
    PackingQueued(env, t, net, net', at, c);
    PackingAhead(env, t, net, net', at, c);
    hide Aimed, Traced, Counted, Queued, Ahead, Received, Remembered, Complete;
    if Complete(t, net) {
      PackingComplete(env, t, net, net', at, c);
    }
  }

  lemma DeliveryKeepsOrder(env: Env, t: Topology, net: Net, e: Event, net': Net)
    requires Delivery(env, t, net, e, net')
    ensures Orderly(env, t, net')
    ensures Complete(t, net) ==> Complete(t, net')
  {
    hide Handed, Noted, Aimed, Traced, Counted, Queued, Ahead, Received, Remembered, Complete, NoRelays, Fits;
    DeliveryAimed(env, t, net, e, net');
    DeliveryTraced(env, t, net, e, net');
    DeliveryQueued(env, t, net, e, net');
    DeliveryAhead(env, t, net, e, net');
    DeliveryRecorded(env, t, net, e, net');
    if Complete(t, net) {
      DeliveryComplete(env, t, net, e, net');
    }
  }

  /** Dropping a frame, or anything that touches no frame and no history, keeps the order. */
  lemma RestKeepsOrder(env: Env, t: Topology, net: Net, net': Net)
    requires Fits(t, net) && Orderly(env, t, net) && Quiet(net, net')
    requires net'.made == net.made && net'.got == net.got && Queued(net'.frames)
    requires forall f :: f in net'.frames ==> f in net.frames
    ensures Orderly(env, t, net')
    ensures net'.frames == net.frames && Complete(t, net) ==> Complete(t, net')
  {
    hide Queued, Sound, Before, InOrder, Shown, FrameFits, Away;
    assert Remembered(net') by {
      forall v, p | v in net'.nodes && v in net'.got && p in net'.nodes[v].hub.presented
        ensures Shown(p, net'.got[v])
      {
        assert p in net.nodes[v].hub.presented;
      }
    }
  }

  // Local items are what they claim to be, so the clips made of them are sound.

  ghost predicate Genuine(env: Env, net: Net) {
    forall n :: n in net.nodes && net.nodes[n].hub.clipboard.Some? ==>
                  LocalItem(env, net.nodes[n].hub.clipboard.value)
  }

  predicate HasItem(e: Event) {
    e.UserWrite? || e.Push?
  }

  ghost predicate Honest(env: Env, e: Event) {
    HasItem(e) ==> LocalItem(env, e.item)
  }

  lemma NodeStaysGenuine(env: Env, n: Node, op: NodeOp)
    requires HashLaw(env)
    requires n.hub.clipboard.Some? ==> LocalItem(env, n.hub.clipboard.value)
    requires op.UserWrites? || op.Pushes? ==> LocalItem(env, op.item)
    ensures var n' := NodeStep(env, n, op);
            n'.hub.clipboard.Some? ==> LocalItem(env, n'.hub.clipboard.value)
    ensures var made := NodeMakes(env, n, op);
            made.Some? ==> Sound(env, made.value)
  {
    if op.Receives? {
      VerifiedIsSound(env, op.clip);
    }
    hide Suppressed, Fresh, HashLaw, VerifyClip;
  }

  lemma NextIsGenuine(env: Env, t: Topology, net: Net, e: Event)
    requires HashLaw(env) && WellFormed(t) && Fits(t, net) && Enabled(net, e) && Genuine(env, net) && Honest(env, e)
    ensures Genuine(env, Next(env, t, net, e))
    ensures !e.Deliver? && !e.Drop? && MadeBy(env, net, e).Some? ==> Sound(env, MadeBy(env, net, e).value)
  {
    hide Next, Looked, Pushed, NodeStep, LocalItem, Sound, HashLaw, Simple;
    NextNodes(env, t, net, e);
    if !e.Drop? {
      var at := Place(net, e);
      NodeStaysGenuine(env, net.nodes[at], OpOf(net, e));
      assert !e.Deliver? ==> MadeBy(env, net, e) == NodeMakes(env, net.nodes[at], OpOf(net, e));
    }
  }

  // Runs.

  lemma FrameIsForeign(env: Env, t: Topology, net: Net, f: Frame)
    requires NoRelays(t) && Fits(t, net) && Orderly(env, t, net) && f in net.frames
    ensures f.Tcp? && Sound(env, f.clip) && f.clip.meta.originId != f.dst && f.dst in net.nodes
    ensures Fresh(net.nodes[f.dst].hub.presented, f.clip.meta.originId, f.clip.meta.seqno)
  {
    hide Forest, Simple, Sound, Traced, Counted, Queued, Received, HashLaw;
    AwayLeavesOrigin(t.peers, f.clip.meta.originId, f.src, f.dst);
    assert FrameFits(t, f);
    var presented := net.nodes[f.dst].hub.presented;
    forall i | 0 <= i < |presented| && presented[i].origin == f.clip.meta.originId
      ensures presented[i].seqno < f.clip.meta.seqno
    {
      assert presented[i] in presented;
      assert Shown(presented[i], net.got[f.dst]);
      var c :| c in net.got[f.dst] && presented[i] == Presented(c.meta.originId, c.meta.seqno);
      ReceiverIsBehind(env, t, net, f, c);
      assert Before(c, f.clip);
    }
  }

  lemma EventKeepsOrder(env: Env, t: Topology, net: Net, e: Event)
    requires HashLaw(env) && NoRelays(t) && Fits(t, net) && Enabled(net, e)
    requires Orderly(env, t, net) && Room(net) && Genuine(env, net) && Honest(env, e)
    ensures Fits(t, Next(env, t, net, e)) && Orderly(env, t, Next(env, t, net, e))
    ensures Genuine(env, Next(env, t, net, e))
    ensures !e.Drop? && Complete(t, net) ==> Complete(t, Next(env, t, net, e))
  {
    hide Forest, Simple, Sound, Orderly, Complete, HashLaw, Genuine, Handed, Noted, MadeAt, Quiet, MadeBy, Room,
         Honest, Next, Fits;
    NextFits(env, t, net, e);
    NextIsGenuine(env, t, net, e);
    var net' := Next(env, t, net, e);
    if e.Deliver? {
      FrameIsForeign(env, t, net, net.frames[e.index]);
      HandedOver(env, t, net, e);
      NotedDown(env, t, net, e);
      DeliveryKeepsOrder(env, t, net, e, net');
    } else if e.Drop? {
      DropKeepsOrder(env, t, net, e);
    } else {
      MadeOne(env, t, net, e);
      if MadeBy(env, net, e).Some? {
        PackingKeepsOrder(env, t, net, net', e.at, MadeBy(env, net, e).value);
      } else {
        GestureWithoutClip(env, t, net, net');
      }
    }
  }

  lemma DropKeepsOrder(env: Env, t: Topology, net: Net, e: Event)
    requires WellFormed(t) && Fits(t, net) && Enabled(net, e) && Orderly(env, t, net) && e.Drop?
    ensures Orderly(env, t, Next(env, t, net, e))
  {
    KeptIs(net, e);
    KeptIsQueued(net, e);
    hide Queued, Aimed, Traced, Counted, Ahead, Received, Remembered, Simple, Kept;
    RestKeepsOrder(env, t, net, Next(env, t, net, e));
  }

  lemma GestureWithoutClip(env: Env, t: Topology, net: Net, net': Net)
    requires Fits(t, net) && Orderly(env, t, net) && Quiet(net, net')
    requires net'.made == net.made && net'.got == net.got && net'.frames == net.frames
    ensures Orderly(env, t, net')
    ensures Complete(t, net) ==> Complete(t, net')
  {
    hide Queued, Aimed, Traced, Counted, Ahead, Received, Remembered, Complete, Quiet;
    RestKeepsOrder(env, t, net, net');
  }

  /** A run with honest local items and counters that do not wrap. */
  ghost predicate Steady(env: Env, t: Topology, net: Net, events: seq<Event>)
    requires WellFormed(t) && Run(env, t, net, events)
    decreases |events|
  {
    events == [] ||
    (Room(net) && Honest(env, events[0]) && Steady(env, t, Next(env, t, net, events[0]), events[1..]))
  }

  predicate Lossless(events: seq<Event>) {
    forall e :: e in events ==> !e.Drop?
  }

  /** Daemons that have just started, with any counters and sound clipboards, and nothing in flight. */
  ghost predicate FreshStart(env: Env, t: Topology, net: Net) {
    && Fits(t, net) && Genuine(env, net) && net.frames == []
    && (forall n :: n in net.nodes ==> net.nodes[n].hub.presented == [])
    && (forall n :: n in net.made ==> net.made[n] == [] && net.got[n] == [])
  }

  lemma StartIsOrderly(env: Env, t: Topology, net: Net)
    requires FreshStart(env, t, net)
    ensures Orderly(env, t, net) && Complete(t, net)
  {
  }

  lemma {:induction false} RunsKeepOrder(env: Env, t: Topology, net: Net, events: seq<Event>)
    requires HashLaw(env) && NoRelays(t) && Run(env, t, net, events) && Steady(env, t, net, events)
    requires Orderly(env, t, net) && Genuine(env, net)
    ensures Fits(t, After(env, t, net, events)) && Orderly(env, t, After(env, t, net, events))
    ensures Lossless(events) && Complete(t, net) ==> Complete(t, After(env, t, net, events))
    decreases |events|
  {
    hide Forest, Simple, Orderly, Complete, HashLaw, Genuine, Next, Honest, Room;
    if events != [] {
      EventKeepsOrder(env, t, net, events[0]);
      RunsKeepOrder(env, t, Next(env, t, net, events[0]), events[1..]);
    }
  }

  ghost predicate Taken(env: Env, net: Net, f: Frame) {
    f.dst in net.nodes &&
    forall now :: var ack := Applied(env, net.nodes[f.dst].hub, f.clip, now).1;
                  ack.ok && (ack.reason == "" || ack.reason == "already-present")
  }

  lemma FrameIsTaken(env: Env, t: Topology, net: Net, f: Frame)
    requires HashLaw(env) && NoRelays(t) && Fits(t, net) && Orderly(env, t, net) && f in net.frames
    ensures Taken(env, net, f)
  {
    FrameIsForeign(env, t, net, f);
    VerifiedIsSound(env, f.clip);
    hide Forest, Simple, HashLaw, Sound, Suppressed, Fresh, VerifyClip, Orderly;
  }

  /**
   * Delivery order: from a fresh start, whatever is dropped, every node is handed each origin's clips
   * in increasing sequence order, and no delivery is ever a duplicate or comes back to its origin.
   */
  lemma DeliveredInOrder(env: Env, t: Topology, net: Net, events: seq<Event>)
    requires HashLaw(env) && NoRelays(t) && Run(env, t, net, events) && Steady(env, t, net, events)
    requires FreshStart(env, t, net)
    ensures var end := After(env, t, net, events);
            && (forall v :: v in end.got ==> InOrder(end.got[v]))
            && forall f :: f in end.frames ==> Taken(env, end, f)
  {
    StartIsOrderly(env, t, net);
    RunsKeepOrder(env, t, net, events);
    hide Forest, Simple, HashLaw, Next, Honest, Room, InOrder, Taken, Steady;
    var end := After(env, t, net, events);
    forall f | f in end.frames
      ensures Taken(env, end, f)
    {
      FrameIsTaken(env, t, end, f);
    }
  }

  function ClipsOf(clips: seq<Clip>, o: string): seq<Clip> {
    if clips == [] then [] else
    var last := clips[|clips| - 1];
    ClipsOf(clips[..|clips| - 1], o) + if last.meta.originId == o then [last] else []
  }

  lemma {:induction false} ClipsOfIs(clips: seq<Clip>, o: string)
    ensures forall c :: c in ClipsOf(clips, o) <==> c in clips && c.meta.originId == o
    decreases |clips|
  {
    if clips != [] {
      var front, last := clips[..|clips| - 1], clips[|clips| - 1];
      ClipsOfIs(front, o);
      assert clips == front + [last];
    }
  }

  lemma {:induction false} ClipsOfInOrder(clips: seq<Clip>, o: string)
    requires InOrder(clips)
    ensures InOrder(ClipsOf(clips, o))
    decreases |clips|
  {
    if clips != [] {
      var front, last := clips[..|clips| - 1], clips[|clips| - 1];
      ClipsOfInOrder(front, o);
      ClipsOfIs(front, o);
      var rest := ClipsOf(front, o);
      forall i | 0 <= i < |rest|
        ensures Before(rest[i], last)
      {
        assert rest[i] in rest && rest[i] in front;
        var j :| 0 <= j < |front| && front[j] == rest[i];
        assert clips[j] == rest[i];
      }
    }
  }

  /** The last of a list in order is the only member not before it. */
  lemma LastIsNotBefore(a: seq<Clip>, o: string)
    requires InOrder(a) && a != [] && forall c :: c in a ==> c.meta.originId == o
    ensures forall c :: c in a ==> c == a[|a| - 1] || (Before(c, a[|a| - 1]) && !Before(a[|a| - 1], c))
    ensures forall c :: c in a[..|a| - 1] <==> c in a && c != a[|a| - 1]
    ensures InOrder(a[..|a| - 1]) && a == a[..|a| - 1] + [a[|a| - 1]]
  {
    var m := |a| - 1;
    assert a == a[..m] + [a[m]];
    assert forall i :: 0 <= i < m ==> a[i] in a && Before(a[i], a[m]);
    forall c | c in a && c != a[m]
      ensures Before(c, a[m]) && !Before(a[m], c) && c in a[..m]
    {
      var i :| 0 <= i < |a| && a[i] == c;
      assert a[..m][i] == c;
    }
  }

  /** Two lists of one origin's clips in order, with the same members, are the same list. */
  lemma {:induction false} SameInOrder(a: seq<Clip>, b: seq<Clip>, o: string)
    requires InOrder(a) && InOrder(b)
    requires forall c :: c in a <==> c in b
    requires forall c :: c in a ==> c.meta.originId == o
    ensures a == b
    decreases |a|
  {
    hide InOrder;
    assert (b != [] ==> b[0] in b) && (a != [] ==> a[0] in a);
    if a != [] {
      var m, n := |a| - 1, |b| - 1;
      assert a[m] in a && b[n] in b;
      LastIsNotBefore(a, o);
      LastIsNotBefore(b, o);
      assert a[m] == b[n];
      hide Before;
      assert forall c :: c in a[..m] <==> c in a && c != a[m];
      assert forall c :: c in b[..n] <==> c in b && c != b[n];
      SameInOrder(a[..m], b[..n], o);
    }
  }

  /** Along a straight walk from the origin, a complete and idle network has the origin's clips everywhere. */
  lemma {:induction false} CarriedAlong(env: Env, t: Topology, net: Net, p: seq<string>, c: Clip)
    requires NoRelays(t) && Fits(t, net) && Orderly(env, t, net) && Complete(t, net) && net.frames == []
    requires Straight(t.peers, p) && c.meta.originId == p[0]
    ensures Has(net, p[|p| - 1], c) <==> c in net.made[p[0]]
    decreases |p|
  {
    hide Forest, Simple, Sound, FrameFits, Queued, Ahead, Received, Remembered;
    var n := |p|;
    if n == 1 {
      assert p[0] in net.got && c !in net.got[p[0]];
    } else {
      CarriedAlong(env, t, net, p[..n - 1], c);
      assert Leads(t.peers, p, p[0], p[n - 2], p[n - 1]);
      assert Away(t.peers, p[0], p[n - 2], p[n - 1]);
      AwayLeavesOrigin(t.peers, p[0], p[n - 2], p[n - 1]);
    }
  }

  /**
   * Exactly once: from a fresh start, after any lossless run that has come to rest, every node that is
   * connected to an origin was handed exactly the clips that origin made, each once and in order.
   */
  lemma ExactlyOnce(env: Env, t: Topology, net: Net, events: seq<Event>, o: string, v: string)
    requires HashLaw(env) && NoRelays(t) && Run(env, t, net, events) && Steady(env, t, net, events)
    requires FreshStart(env, t, net) && Lossless(events) && After(env, t, net, events).frames == []
    requires Connected(t.peers, o, v) && v != o
    ensures var end := After(env, t, net, events);
            o in end.made && v in end.got && ClipsOf(end.got[v], o) == end.made[o]
  {
    StartIsOrderly(env, t, net);
    RunsKeepOrder(env, t, net, events);
    var end := After(env, t, net, events);
    var p :| Walk(t.peers, p) && p[0] == o && p[|p| - 1] == v;
    var q := Straighten(t.peers, p);
    hide Simple, HashLaw, Next, Honest, Room, Steady, Run, Walk, Straight, After, Complete, Aimed, Queued, Ahead,
         Traced;
    forall c: Clip | c.meta.originId == o
      ensures c in end.got[v] <==> c in end.made[o]
    {
      CarriedAlong(env, t, end, q, c);
    }
    ClipsOfIs(end.got[v], o);
    ClipsOfInOrder(end.got[v], o);
    SameInOrder(ClipsOf(end.got[v], o), end.made[o], o);
  }
}
