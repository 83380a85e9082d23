/**
 * Convergence: from a network at rest, one local gesture and any lossless schedule that comes to rest
 * again leave every reachable clipboard with the hash of the gesture's clip, on any topology.
 */
module Convergence {
  import opened Basics
  import opened Clips
  import opened Tables
  import opened Hubs
  import opened Daemon
  import opened Forests
  import opened Network
  import opened Orders

  // No node has seen, and no frame carries, a number its origin has not issued.

  ghost predicate IssuedAt(nodes: map<string, Node>, origin: string, seqno: u64) {
    origin in nodes ==> seqno <= nodes[origin].hub.counter
  }

  ghost predicate Issued(net: Net) {
    && (forall v, p :: v in net.nodes && p in net.nodes[v].hub.presented ==> IssuedAt(net.nodes, p.origin, p.seqno))
    && (forall f :: f in net.frames ==> IssuedAt(net.nodes, f.clip.meta.originId, f.clip.meta.seqno))
  }

  lemma ReceivingPresents(env: Env, n: Node, clip: Clip, now: int)
    ensures var n' := NodeStep(env, n, Receives(clip, now));
            && n'.hub.counter == n.hub.counter
            && (n'.hub.presented == n.hub.presented
                || n'.hub.presented == n.hub.presented + [Presented(clip.meta.originId, clip.meta.seqno)])
  {
    hide Suppressed, Fresh, VerifyClip;
  }

  lemma SentIsIssued(env: Env, t: Topology, net: Net, e: Event)
    requires WellFormed(t) && Fits(t, net) && Enabled(net, e) && Room(net) && !e.Drop? && Place(net, e) in net.nodes
    ensures forall out :: out in SentBy(env, net, e) ==>
              || (e.Deliver? && out.clip == net.frames[e.index].clip)
              || (out.clip.meta.originId == Place(net, e)
                  && out.clip.meta.seqno
                     == NodeStep(env, net.nodes[Place(net, e)], OpOf(net, e)).hub.counter)
  {
    hide Looked, Pushed, NodeStep, Applied, Simple;
    if !e.Deliver? {
      NodeMakesOne(env, net.nodes[e.at], OpOf(net, e));
      assert MadeBy(env, net, e) == NodeMakes(env, net.nodes[e.at], OpOf(net, e));
    }
  }

  lemma NodeKeepsIssued(env: Env, nodes: map<string, Node>, at: string, op: NodeOp)
    requires at in nodes && nodes[at].hub.counter < U64_MAX
    ensures nodes[at].hub.counter <= NodeStep(env, nodes[at], op).hub.counter
    ensures forall p :: p in NodeStep(env, nodes[at], op).hub.presented ==>
              p in nodes[at].hub.presented
              || (op.Receives? && p == Presented(op.clip.meta.originId, op.clip.meta.seqno))
  {
    hide NodeStep;
    if op.Receives? {
      ReceivingPresents(env, nodes[at], op.clip, op.now);
    } else {
      NodeMakesOne(env, nodes[at], op);
    }
  }

  lemma NextIsIssued(env: Env, t: Topology, net: Net, e: Event)
    requires WellFormed(t) && Fits(t, net) && Enabled(net, e) && Room(net) && Issued(net)
    ensures Issued(Next(env, t, net, e))
  {
    hide Next, NodeStep, SentBy, FanOut, Kept, FrameFits, Simple, NodeMakes;
    NextNodes(env, t, net, e);
    NextFrames(env, t, net, e);
    KeptIs(net, e);
    if !e.Drop? {
      var at := Place(net, e);
      NodeKeepsIssued(env, net.nodes, at, OpOf(net, e));
      SentIsIssued(env, t, net, e);
      SentByIs(env, net, e);
      FanOutIs(t, at, SentBy(env, net, e));
    }
  }

  lemma {:induction false} RunsKeepIssued(env: Env, t: Topology, net: Net, events: seq<Event>)
    requires HashLaw(env) && WellFormed(t) && Run(env, t, net, events) && Steady(env, t, net, events)
    requires Issued(net) && Genuine(env, net)
    ensures var end := After(env, t, net, events); Fits(t, end) && Issued(end) && Genuine(env, end)
    decreases |events|
  {
    hide Next, Issued, Room, Honest, Simple, Genuine, HashLaw;
    if events != [] {
      NextIsIssued(env, t, net, events[0]);
      NextIsGenuine(env, t, net, events[0]);
      RunsKeepIssued(env, t, Next(env, t, net, events[0]), events[1..]);
    }
  }

  // The clip c on its way.

  /** The node is the clip's origin or has been handed it. */
  ghost predicate Done(n: Node, c: Clip) {
    n.hub.id == c.meta.originId || Presented(c.meta.originId, c.meta.seqno) in n.hub.presented
  }

  ghost predicate Ready(env: Env, n: Node, c: Clip) {
    && Covered(env, n)
    && (Done(n, c) ==> n.hub.clipboard.Some? && HashOf(env, n.hub.clipboard.value) == c.meta.hash)
    && (!Done(n, c) ==> Above(n.hub.presented, c))
  }

  ghost predicate Spreading(env: Env, t: Topology, net: Net, c: Clip) {
    && Sound(env, c)
    && (forall n :: n in net.nodes ==> Ready(env, net.nodes[n], c))
    && (forall f :: f in net.frames ==> f.clip == c && f.src in net.nodes && Done(net.nodes[f.src], c))
    && (forall u, w :: u in net.nodes && u in t.peers && w in t.peers[u] && w in net.nodes && Done(net.nodes[u], c) ==>
          Done(net.nodes[w], c) || Tcp(u, w, c) in net.frames)
    && (forall m :: c.meta.originId in t.groups && m in t.groups[c.meta.originId] && m in net.nodes ==>
          Done(net.nodes[m], c) || Relayed(c.meta.originId, m, c) in net.frames)
  }

  lemma ReceivingMakesDone(env: Env, n: Node, c: Clip, now: int)
    requires HashLaw(env) && Sound(env, c) && Ready(env, n, c)
    ensures var n' := NodeStep(env, n, Receives(c, now));
            Ready(env, n', c) && Done(n', c) && n'.hub.id == n.hub.id
    ensures Applied(env, n.hub, c, now).1.ok
  {
    VerifiedIsSound(env, c);
    StepKeepsCovered(env, n, Receives(c, now));
    hide Covered, Suppressed;
    var p := Presented(c.meta.originId, c.meta.seqno);
    var n' := NodeStep(env, n, Receives(c, now));
    if c.meta.originId != n.hub.id {
      assert n'.hub.presented == n.hub.presented + [p];
      if p in n.hub.presented {
        var i :| 0 <= i < |n.hub.presented| && n.hub.presented[i] == p;
        assert !Fresh(n.hub.presented, c.meta.originId, c.meta.seqno);
      }
    }
  }

  lemma LookingMakesNothing(env: Env, n: Node, c: Clip, op: NodeOp)
    requires HashLaw(env) && Ready(env, n, c) && (op.Look? || op.Glance?)
    ensures var n' := NodeStep(env, n, op);
            Ready(env, n', c) && (Done(n', c) <==> Done(n, c)) && n'.hub.id == n.hub.id
    ensures NodeMakes(env, n, op).None?
  {
    StepKeepsCovered(env, n, op);
    hide Covered, Suppressed;
  }

  /** Deliveries and polls: no user, no push, no loss. */
  predicate Passive(e: Event) {
    e.Deliver? || e.Glance? || e.Look?
  }

  lemma DeliverySpreads(env: Env, t: Topology, net: Net, e: Event, c: Clip)
    requires HashLaw(env) && WellFormed(t) && Fits(t, net) && Enabled(net, e) && Spreading(env, t, net, c) && e.Deliver?
    ensures Spreading(env, t, Next(env, t, net, e), c)
  {
    hide Next, NodeStep, Kept, FrameFits, FanOut, Simple, Ready, Done, Sound, HashLaw, Applied;
    var f := net.frames[e.index];
    assert f in net.frames;
    var net' := Next(env, t, net, e);
    NextNodes(env, t, net, e);
    NextFrames(env, t, net, e);
    KeptIs(net, e);
    ReceivingMakesDone(env, net.nodes[f.dst], c, e.now);
    FanOutIs(t, f.dst, SentBy(env, net, e));
    assert forall n :: n in net.nodes && Done(net.nodes[n], c) ==> Done(net'.nodes[n], c);
  }

  lemma PollSpreads(env: Env, t: Topology, net: Net, e: Event, c: Clip)
    requires HashLaw(env) && WellFormed(t) && Fits(t, net) && Enabled(net, e) && Spreading(env, t, net, c)
    requires e.Glance? || e.Look?
    ensures Spreading(env, t, Next(env, t, net, e), c)
  {
    hide Next, NodeStep, FrameFits, Simple, Ready, Done, Sound, HashLaw, Looked;
    var net' := Next(env, t, net, e);
    NextNodes(env, t, net, e);
    NextFrames(env, t, net, e);
    LookingMakesNothing(env, net.nodes[e.at], c, OpOf(net, e));
    assert MadeBy(env, net, e) == NodeMakes(env, net.nodes[e.at], OpOf(net, e));
    assert net'.frames == net.frames;
  }

  lemma PassiveSpreads(env: Env, t: Topology, net: Net, e: Event, c: Clip)
    requires HashLaw(env) && WellFormed(t) && Fits(t, net) && Enabled(net, e) && Spreading(env, t, net, c) && Passive(e)
    ensures Fits(t, Next(env, t, net, e)) && Spreading(env, t, Next(env, t, net, e), c)
    ensures forall n :: n in net.nodes && Done(net.nodes[n], c) ==> Done(Next(env, t, net, e).nodes[n], c)
  {
    hide Next, NodeStep, Simple, Ready, Done, Sound, HashLaw, Spreading, Fits;
    NextFits(env, t, net, e);
    NextNodes(env, t, net, e);
    if Done(net.nodes[Place(net, e)], c) {
      DoneStays(env, net.nodes[Place(net, e)], OpOf(net, e), c);
    }
    if e.Deliver? {
      DeliverySpreads(env, t, net, e, c);
    } else {
      PollSpreads(env, t, net, e, c);
    }
  }

  lemma DoneStays(env: Env, n: Node, op: NodeOp, c: Clip)
    requires Done(n, c)
    ensures Done(NodeStep(env, n, op), c)
  {
    hide Suppressed, Fresh, VerifyClip;
  }

  /** What a successful gesture leaves at its own node. */
  lemma MakingIsReady(env: Env, n: Node, op: NodeOp, c: Clip)
    requires HashLaw(env) && !op.Receives? && n.hub.counter < U64_MAX && NodeMakes(env, n, op) == Some(c)
    ensures var n' := NodeStep(env, n, op);
            && Ready(env, n', c) && Done(n', c) && n'.hub.id == n.hub.id == c.meta.originId
            && n.hub.counter < c.meta.seqno
  {
    NodeMakesOne(env, n, op);
    StepKeepsCovered(env, n, op);
    hide Suppressed;
    assert op.Pushes? ==> |env.hash(op.item.data)| == 64;
  }

  lemma NotYetDone(env: Env, net: Net, v: string, c: Clip)
    requires v in net.nodes && Issued(net) && c.meta.originId in net.nodes && net.nodes[v].hub.id != c.meta.originId
    requires net.nodes[c.meta.originId].hub.counter < c.meta.seqno && Covered(env, net.nodes[v])
    ensures Ready(env, net.nodes[v], c) && !Done(net.nodes[v], c)
  {
    hide Covered;
    var presented := net.nodes[v].hub.presented;
    forall i | 0 <= i < |presented| && presented[i].origin == c.meta.originId
      ensures presented[i].seqno < c.meta.seqno
    {
      assert presented[i] in presented;
      assert IssuedAt(net.nodes, presented[i].origin, presented[i].seqno);
    }
  }

  /** At rest, nobody but perhaps the gesturing node has something its watcher would take. */
  ghost predicate AtRest(env: Env, net: Net, at: string) {
    net.frames == [] && forall n :: n in net.nodes && n != at ==> Covered(env, net.nodes[n])
  }

  /** The frames of a gesture go to every peer and every group member. */
  lemma GestureIsSent(env: Env, t: Topology, net: Net, e: Event, c: Clip)
    requires WellFormed(t) && Fits(t, net) && Enabled(net, e) && (e.Push? || e.Look?)
    requires net.frames == [] && MadeBy(env, net, e) == Some(c)
    ensures var frames := Next(env, t, net, e).frames;
            && (forall f :: f in frames ==> f.clip == c && f.src == e.at)
            && (forall w :: w in t.peers[e.at] ==> Tcp(e.at, w, c) in frames)
            && (forall m :: m in t.groups[e.at] ==> Relayed(e.at, m, c) in frames)
  {
    hide Next, FanOut, FrameFits, Simple, Looked, Pushed, MadeBy;
    NextFrames(env, t, net, e);
    FanOutIs(t, e.at, SentBy(env, net, e));
  }

  /** Everyone but `o` still has to be handed c, and `o` has just sent it to everyone. */
  ghost predicate JustSent(env: Env, t: Topology, net: Net, c: Clip, o: string) {
    && o == c.meta.originId && o in net.nodes && o in t.peers && o in t.groups
    && Sound(env, c) && Done(net.nodes[o], c)
    && (forall n :: n in net.nodes ==> Ready(env, net.nodes[n], c) && (n != o ==> !Done(net.nodes[n], c)))
    && (forall f :: f in net.frames ==> f.clip == c && f.src == o)
    && (forall w :: w in t.peers[o] ==> Tcp(o, w, c) in net.frames)
    && (forall m :: m in t.groups[o] ==> Relayed(o, m, c) in net.frames)
  }

  lemma JustSentSpreads(env: Env, t: Topology, net: Net, c: Clip, o: string)
    requires JustSent(env, t, net, c, o)
    ensures Spreading(env, t, net, c)
  {
    hide Sound, Done, Ready;
  }

  lemma GestureSpreads(env: Env, t: Topology, net: Net, e: Event, c: Clip)
    requires HashLaw(env) && WellFormed(t) && Fits(t, net) && Enabled(net, e) && (e.Push? || e.Look?)
    requires Issued(net) && Room(net) && AtRest(env, net, e.at)
    requires MadeBy(env, net, e) == Some(c) && Sound(env, c)
    ensures Fits(t, Next(env, t, net, e)) && Spreading(env, t, Next(env, t, net, e), c)
    ensures c.meta.originId == e.at && Done(Next(env, t, net, e).nodes[e.at], c)
  {
    hide Next, NodeStep, FrameFits, Simple, Ready, Done, Sound, HashLaw, Looked, Pushed, Issued, Covered, Spreading;
    var net' := Next(env, t, net, e);
    NextFits(env, t, net, e);
    NextNodes(env, t, net, e);
    GestureIsSent(env, t, net, e, c);
    assert MadeBy(env, net, e) == NodeMakes(env, net.nodes[e.at], OpOf(net, e));
    MakingIsReady(env, net.nodes[e.at], OpOf(net, e), c);
    forall n | n in net'.nodes
      ensures Ready(env, net'.nodes[n], c) && (n != e.at ==> !Done(net'.nodes[n], c))
    {
      if n != e.at {
        NotYetDone(env, net, n, c);
      }
    }
    JustSentSpreads(env, t, net', c, e.at);
  }

  lemma {:induction false} PassiveRunsSpread(env: Env, t: Topology, net: Net, events: seq<Event>, c: Clip, o: string)
    requires HashLaw(env) && WellFormed(t) && Run(env, t, net, events) && forall e :: e in events ==> Passive(e)
    requires Spreading(env, t, net, c) && o in net.nodes && Done(net.nodes[o], c)
    ensures var end := After(env, t, net, events);
            Fits(t, end) && Spreading(env, t, end, c) && o in end.nodes && Done(end.nodes[o], c)
    decreases |events|
  {
    hide Next, Simple, Done, HashLaw, Spreading;
    if events != [] {
      PassiveSpreads(env, t, net, events[0], c);
      PassiveRunsSpread(env, t, Next(env, t, net, events[0]), events[1..], c, o);
    }
  }

  lemma {:induction false} DoneAlong(env: Env, t: Topology, net: Net, c: Clip, p: seq<string>)
    requires WellFormed(t) && Fits(t, net) && Spreading(env, t, net, c) && net.frames == []
    requires Walk(t.peers, p) && Done(net.nodes[p[0]], c)
    ensures Done(net.nodes[p[|p| - 1]], c)
    decreases |p|
  {
    hide Simple, Done, Ready, Sound;
    if |p| > 1 {
      var n := |p|;
      assert p[n - 2 + 1] in t.peers[p[n - 2]];
      DoneAlong(env, t, net, c, p[..n - 1]);
    }
  }

  /** The nodes a clip of `o` can come to: over TCP from o itself or from a member of its relay groups. */
  ghost predicate Reaches(t: Topology, o: string, v: string) {
    Connected(t.peers, o, v) || exists m :: o in t.groups && m in t.groups[o] && Connected(t.peers, m, v)
  }

  ghost predicate Shows(env: Env, n: Node, c: Clip) {
    n.hub.clipboard.Some? && HashOf(env, n.hub.clipboard.value) == c.meta.hash
  }

  /**
   * Convergence: from rest, a push or a watched copy that yields clip c, followed by deliveries and
   * polls in any order until nothing is in flight, shows c on every clipboard it can reach.
   */
  lemma Converges(env: Env, t: Topology, net: Net, e: Event, c: Clip, events: seq<Event>, v: string)
    requires HashLaw(env) && WellFormed(t) && Fits(t, net) && Enabled(net, e) && (e.Push? || e.Look?)
    requires Issued(net) && Room(net) && Genuine(env, net) && Honest(env, e) && AtRest(env, net, e.at)
    requires MadeBy(env, net, e) == Some(c)
    requires Run(env, t, Next(env, t, net, e), events) && forall e :: e in events ==> Passive(e)
    requires After(env, t, Next(env, t, net, e), events).frames == [] && Reaches(t, e.at, v)
    ensures var end := After(env, t, Next(env, t, net, e), events);
            v in end.nodes && Shows(env, end.nodes[v], c)
  {
    hide Next, Simple, Done, Sound, HashLaw, Ready, Issued, Room, Genuine, Honest, AtRest, MadeBy, Spreading,
         Shows, Reaches, Run, After;
    NextIsGenuine(env, t, net, e);
    GestureSpreads(env, t, net, e, c);
    var start := Next(env, t, net, e);
    PassiveRunsSpread(env, t, start, events, c, e.at);
    RestShows(env, t, After(env, t, start, events), c, e.at, v);
  }

  lemma RestShows(env: Env, t: Topology, end: Net, c: Clip, o: string, v: string)
    requires WellFormed(t) && Fits(t, end) && Spreading(env, t, end, c) && end.frames == []
    requires o == c.meta.originId && o in end.nodes && Done(end.nodes[o], c) && Reaches(t, o, v)
    ensures v in end.nodes && Shows(env, end.nodes[v], c)
  {
    hide Simple, Done, Sound, Ready;
    var m := o;
    if !Connected(t.peers, o, v) {
      m :| m in t.groups[o] && Connected(t.peers, m, v);
      assert Done(end.nodes[m], c);
    }
    var p :| Walk(t.peers, p) && p[0] == m && p[|p| - 1] == v;
    DoneAlong(env, t, end, c, p);
    ReadyShows(env, end.nodes[v], c);
  }

  lemma ReadyShows(env: Env, n: Node, c: Clip)
    requires Ready(env, n, c) && Done(n, c)
    ensures Shows(env, n, c)
  {
  }

  /** The same from any state a freshly started network can come to, whatever was dropped on the way. */
  lemma ConvergesFromStart(
    env: Env, t: Topology, start: Net, past: seq<Event>, e: Event, c: Clip, events: seq<Event>, v: string)
    requires HashLaw(env) && WellFormed(t) && FreshStart(env, t, start)
    requires Run(env, t, start, past) && Steady(env, t, start, past)
    requires var net := After(env, t, start, past);
             && Fits(t, net) && Enabled(net, e) && (e.Push? || e.Look?)
             && Room(net) && Honest(env, e) && AtRest(env, net, e.at)
             && MadeBy(env, net, e) == Some(c)
             && Run(env, t, Next(env, t, net, e), events) && (forall e :: e in events ==> Passive(e))
             && After(env, t, Next(env, t, net, e), events).frames == [] && Reaches(t, e.at, v)
    ensures var end := After(env, t, Next(env, t, After(env, t, start, past), e), events);
            v in end.nodes && Shows(env, end.nodes[v], c)
  {
    hide Next, Room, Honest, Simple, HashLaw, Genuine, MadeBy, AtRest, Reaches, Steady, Run, After, Shows, Enabled;
    RunsKeepIssued(env, t, start, past);
    Converges(env, t, After(env, t, start, past), e, c, events, v);
  }
}
