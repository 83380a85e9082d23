/**
 * Daemons joined by TCP sessions and relay groups, as a step relation.
 *
 * A hub operation, the packing of a clip and its distribution to the sessions are one step.  There
 * is at most one session per pair of nodes; a session that is lost loses its frames.  TCP frames of
 * one direction arrive in order, relay frames in any order, and any frame may be dropped, as a
 * lagging subscriber or a full relay queue drops it.
 */
module Network {
  import opened Basics
  import opened Clips
  import opened Hubs
  import opened Daemon
  import opened Forests

  datatype Frame =
    | Tcp(src: string, dst: string, clip: Clip)
    | Relayed(src: string, dst: string, clip: Clip)

  /** The TCP neighbours of every node, and the other members of its relay groups. */
  datatype Topology = Topology(peers: Graph, groups: Graph)

  ghost predicate WellFormed(t: Topology) {
    && Simple(t.peers)
    && t.groups.Keys == t.peers.Keys
    && forall n :: n in t.groups ==> forall m :: m in t.groups[n] ==> m in t.peers
  }

  /** The histories `made` and `got` hold the clips each node packed and those handed to its `apply_remote`. */
  datatype Net = Net(
    nodes: map<string, Node>,
    frames: seq<Frame>,
    made: map<string, seq<Clip>>,
    got: map<string, seq<Clip>>)

  ghost predicate FrameFits(t: Topology, f: Frame) {
    match f
    case Tcp(src, dst, _) => src in t.peers && dst in t.peers[src] && dst in t.peers
    case Relayed(src, dst, _) => src in t.groups && dst in t.groups[src] && dst in t.peers
  }

  ghost predicate Fits(t: Topology, net: Net) {
    && net.nodes.Keys == net.made.Keys == net.got.Keys == t.peers.Keys
    && (forall n :: n in net.nodes ==> net.nodes[n].hub.id == n)
    && (forall f :: f in net.frames ==> FrameFits(t, f))
  }

  datatype Event =
    | UserWrite(at: string, item: Item)
    | Glance(at: string)
    | Look(at: string, now: int, saved: bool)
    | Push(at: string, item: Item, now: int, saved: bool)
    | Deliver(index: nat, now: int)
    | Drop(index: nat)

  predicate SameEdge(f: Frame, f': Frame) {
    f.Tcp? && f'.Tcp? && f.src == f'.src && f.dst == f'.dst
  }

  ghost predicate Enabled(net: Net, e: Event) {
    match e
    case Deliver(i, _) => i < |net.frames| && forall j :: 0 <= j < i ==> !SameEdge(net.frames[j], net.frames[i])
    case Drop(i) => i < |net.frames|
    case _ => e.at in net.nodes
  }

  /** The node an event happens at and what it does there. */
  function Place(net: Net, e: Event): string
    requires e.Deliver? || e.Drop? ==> e.index < |net.frames|
  {
    if e.Deliver? || e.Drop? then net.frames[e.index].dst else e.at
  }

  function OpOf(net: Net, e: Event): NodeOp
    requires !e.Drop? && (e.Deliver? ==> e.index < |net.frames|)
  {
    match e
    case UserWrite(_, item) => UserWrites(item)
    case Glance(_) => NodeOp.Glance
    case Look(_, now, saved) => NodeOp.Look(now, saved)
    case Push(_, item, now, saved) => Pushes(item, now, saved)
    case Deliver(i, now) => Receives(net.frames[i].clip, now)
  }

  /** The clip an event packs, and what it puts on the hub's broadcast channel. */
  ghost function MadeBy(env: Env, net: Net, e: Event): Option<Clip>
    requires !e.Deliver? && !e.Drop? ==> e.at in net.nodes
  {
    match e
    case Look(at, now, saved) => Looked(env, net.nodes[at], now, saved).1
    case Push(at, item, now, saved) =>
      var r := Pushed(env, net.nodes[at].hub, item, now, saved).1;
      if r.Ok? then Some(r.value) else None
    case _ => None
  }

  ghost function SentBy(env: Env, net: Net, e: Event): seq<Outbound>
    requires Enabled(net, e) && Place(net, e) in net.nodes
  {
    match e
    case Deliver(i, now) =>
      var f := net.frames[i];
      Forwarded(f.clip, f.src, Applied(env, net.nodes[f.dst].hub, f.clip, now).1)
    case _ =>
      var made := MadeBy(env, net, e);
      if made.Some? then [Outbound(made.value, None)] else []
  }

  /** What the TCP sessions of `src` to the peers `ws`, and its relay sessions, write for a broadcast. */
  function TcpFrames(src: string, ws: seq<string>, out: Outbound): seq<Frame> {
    if ws == [] then []
    else (if CarriedByTcp(out, Some(ws[0])) then [Tcp(src, ws[0], out.clip)] else []) + TcpFrames(src, ws[1..], out)
  }

  function RelayFrames(src: string, ms: seq<string>, out: Outbound): seq<Frame> {
    if ms == [] || !CarriedByRelay(out) then []
    else [Relayed(src, ms[0], out.clip)] + RelayFrames(src, ms[1..], out)
  }

  function FanOut(t: Topology, src: string, outs: seq<Outbound>): seq<Frame>
    requires src in t.peers && src in t.groups
  {
    if outs == [] then []
    else TcpFrames(src, t.peers[src], outs[0]) + RelayFrames(src, t.groups[src], outs[0])
  }

  function Kept(net: Net, e: Event): seq<Frame>
    requires e.Deliver? || e.Drop? ==> e.index < |net.frames|
  {
    if e.Deliver? || e.Drop? then net.frames[..e.index] + net.frames[e.index + 1..] else net.frames
  }

  ghost function Next(env: Env, t: Topology, net: Net, e: Event): Net
    requires WellFormed(t) && Fits(t, net) && Enabled(net, e)
  {
    var at := Place(net, e);
    if e.Drop? then net.(frames := Kept(net, e)) else
    assert e.Deliver? ==> FrameFits(t, net.frames[e.index]);
    var made := MadeBy(env, net, e);
    Net(
      net.nodes[at := NodeStep(env, net.nodes[at], OpOf(net, e))],
      Kept(net, e) + FanOut(t, at, SentBy(env, net, e)),
      if made.Some? then net.made[at := net.made[at] + [made.value]] else net.made,
      if e.Deliver? then net.got[at := net.got[at] + [net.frames[e.index].clip]] else net.got)
  }

  lemma {:induction false} TcpFramesAre(src: string, ws: seq<string>, out: Outbound)
    ensures forall f :: f in TcpFrames(src, ws, out) ==>
              f == Tcp(src, f.dst, out.clip) && f.dst in ws && out.skip != Some(f.dst)
    ensures forall w :: w in ws && out.skip != Some(w) ==> Tcp(src, w, out.clip) in TcpFrames(src, ws, out)
    decreases |ws|
  {
    if ws != [] {
      TcpFramesAre(src, ws[1..], out);
      assert ws == [ws[0]] + ws[1..];
    }
  }

  lemma {:induction false} RelayFramesAre(src: string, ms: seq<string>, out: Outbound)
    ensures forall f :: f in RelayFrames(src, ms, out) ==>
              f == Relayed(src, f.dst, out.clip) && f.dst in ms && out.skip.None?
    ensures forall m :: m in ms && out.skip.None? ==> Relayed(src, m, out.clip) in RelayFrames(src, ms, out)
    decreases |ms|
  {
    if ms != [] && CarriedByRelay(out) {
      RelayFramesAre(src, ms[1..], out);
      assert ms == [ms[0]] + ms[1..];
    }
  }

  /**
   * Which frames a broadcast becomes: one to each peer but the ingress one, and to each group member if
   * of local origin.
   */
  lemma FanOutIs(t: Topology, src: string, outs: seq<Outbound>)
    requires WellFormed(t) && src in t.peers && |outs| <= 1
    ensures forall f :: f in FanOut(t, src, outs) ==>
              && FrameFits(t, f) && outs != [] && f.src == src && f.clip == outs[0].clip
              && (f.Tcp? ==> outs[0].skip != Some(f.dst)) && (f.Relayed? ==> outs[0].skip.None?)
    ensures outs != [] ==> forall w :: w in t.peers[src] && outs[0].skip != Some(w) ==>
              Tcp(src, w, outs[0].clip) in FanOut(t, src, outs)
    ensures outs != [] && outs[0].skip.None? ==> forall m :: m in t.groups[src] ==>
              Relayed(src, m, outs[0].clip) in FanOut(t, src, outs)
  {
    if outs != [] {
      TcpFramesAre(src, t.peers[src], outs[0]);
      RelayFramesAre(src, t.groups[src], outs[0]);
    }
  }

  ghost predicate Apart(frames: seq<Frame>) {
    forall i, j :: 0 <= i < j < |frames| ==> !SameEdge(frames[i], frames[j])
  }

  lemma {:induction false} TcpFramesApart(src: string, ws: seq<string>, out: Outbound)
    requires Distinct(ws)
    ensures Apart(TcpFrames(src, ws, out))
    decreases |ws|
  {
    if ws != [] {
      assert Distinct(ws[1..]) && ws[0] !in ws[1..];
      TcpFramesApart(src, ws[1..], out);
      TcpFramesAre(src, ws[1..], out);
      var fs, rest := TcpFrames(src, ws, out), TcpFrames(src, ws[1..], out);
      forall i, j | 0 <= i < j < |fs|
        ensures !SameEdge(fs[i], fs[j])
      {
        if |fs| == |rest| {
          assert fs == rest;
        } else {
          assert fs[j] == rest[j - 1] && fs[j] in rest;
          assert i > 0 ==> fs[i] == rest[i - 1];
        }
      }
    }
  }

  lemma {:induction false} RelayFramesOnce(src: string, ms: seq<string>, out: Outbound)
    requires CarriedByRelay(out)
    ensures |RelayFrames(src, ms, out)| == |ms|
    ensures forall i :: 0 <= i < |ms| ==> RelayFrames(src, ms, out)[i] == Relayed(src, ms[i], out.clip)
    decreases |ms|
  {
    if ms != [] {
      RelayFramesOnce(src, ms[1..], out);
    }
  }

  /** And each only once: no session carries it twice, and a relay gets it once for every entry of a member. */
  lemma FanOutOnce(t: Topology, src: string, out: Outbound)
    requires WellFormed(t) && src in t.peers
    ensures Apart(FanOut(t, src, [out]))
    ensures var frames, members := FanOut(t, src, [out]), if out.skip.None? then t.groups[src] else [];
            var n := |frames| - |members|;
            && 0 <= n && (forall i :: 0 <= i < n ==> frames[i].Tcp?)
            && forall i :: 0 <= i < |members| ==> frames[n + i] == Relayed(src, members[i], out.clip)
  {
    var tcp, relayed := TcpFrames(src, t.peers[src], out), RelayFrames(src, t.groups[src], out);
    TcpFramesApart(src, t.peers[src], out);
    TcpFramesAre(src, t.peers[src], out);
    RelayFramesAre(src, t.groups[src], out);
    if CarriedByRelay(out) {
      RelayFramesOnce(src, t.groups[src], out);
    }
    assert FanOut(t, src, [out]) == tcp + relayed;
    hide TcpFrames, RelayFrames, FanOut;
    assert forall i :: 0 <= i < |tcp| ==> tcp[i] in tcp;
    assert forall i :: 0 <= i < |relayed| ==> relayed[i] in relayed;
  }

  lemma KeptIs(net: Net, e: Event)
    requires e.Deliver? || e.Drop? ==> e.index < |net.frames|
    ensures forall f :: f in Kept(net, e) ==> f in net.frames
    ensures forall f :: f in net.frames ==>
              f in Kept(net, e) || ((e.Deliver? || e.Drop?) && f == net.frames[e.index])
  {
    if e.Deliver? || e.Drop? {
      var i := e.index;
      assert net.frames == net.frames[..i] + [net.frames[i]] + net.frames[i + 1..];
    }
  }

  lemma NextFrames(env: Env, t: Topology, net: Net, e: Event)
    requires WellFormed(t) && Fits(t, net) && Enabled(net, e)
    ensures Place(net, e) in net.nodes && Place(net, e) in t.groups
    ensures e.Drop? ==> Next(env, t, net, e).frames == Kept(net, e)
    ensures !e.Drop? ==> Next(env, t, net, e).frames == Kept(net, e) + FanOut(t, Place(net, e), SentBy(env, net, e))
  {
    hide NodeStep, MadeBy, SentBy, FanOut, Applied, Simple;
    assert e.Deliver? || e.Drop? ==> FrameFits(t, net.frames[e.index]);
  }

  lemma NextNodes(env: Env, t: Topology, net: Net, e: Event)
    requires WellFormed(t) && Fits(t, net) && Enabled(net, e)
    ensures Place(net, e) in net.nodes
    ensures Next(env, t, net, e).nodes ==
            if e.Drop? then net.nodes
            else net.nodes[Place(net, e) := NodeStep(env, net.nodes[Place(net, e)], OpOf(net, e))]
  {
    hide NodeStep, MadeBy, SentBy, FanOut, Applied, Simple;
    assert e.Deliver? || e.Drop? ==> FrameFits(t, net.frames[e.index]);
  }

  lemma NodeStepKeepsId(env: Env, n: Node, op: NodeOp)
    ensures NodeStep(env, n, op).hub.id == n.hub.id
  {
  }

  lemma SentByIs(env: Env, net: Net, e: Event)
    requires Enabled(net, e) && !e.Drop? && Place(net, e) in net.nodes
    ensures |SentBy(env, net, e)| <= 1
  {
  }

  lemma NextKeys(env: Env, t: Topology, net: Net, e: Event)
    requires WellFormed(t) && Fits(t, net) && Enabled(net, e)
    ensures Next(env, t, net, e).made.Keys == net.made.Keys && Next(env, t, net, e).got.Keys == net.got.Keys
  {
    hide NodeStep, MadeBy, SentBy, FanOut, Applied, Simple;
    assert e.Deliver? || e.Drop? ==> FrameFits(t, net.frames[e.index]);
  }

  lemma NextFits(env: Env, t: Topology, net: Net, e: Event)
    requires WellFormed(t) && Fits(t, net) && Enabled(net, e)
    ensures Fits(t, Next(env, t, net, e))
  {
    hide Next, NodeStep, FanOut, Kept, SentBy, Simple, FrameFits;
    KeptIs(net, e);
    NextKeys(env, t, net, e);
    NextNodes(env, t, net, e);
    NextFrames(env, t, net, e);
    if !e.Drop? {
      var at := Place(net, e);
      SentByIs(env, net, e);
      NodeStepKeepsId(env, net.nodes[at], OpOf(net, e));
      FanOutIs(t, at, SentBy(env, net, e));
    }
  }

  // Runs.

  ghost predicate Run(env: Env, t: Topology, net: Net, events: seq<Event>)
    requires WellFormed(t)
    decreases |events|
  {
    Fits(t, net) &&
    (events == [] || (Enabled(net, events[0]) && Run(env, t, Next(env, t, net, events[0]), events[1..])))
  }

  ghost function After(env: Env, t: Topology, net: Net, events: seq<Event>): Net
    requires WellFormed(t) && Run(env, t, net, events)
    decreases |events|
  {
    if events == [] then net else After(env, t, Next(env, t, net, events[0]), events[1..])
  }

  lemma {:induction false} AfterFits(env: Env, t: Topology, net: Net, events: seq<Event>)
    requires WellFormed(t) && Run(env, t, net, events)
    ensures Fits(t, After(env, t, net, events))
    decreases |events|
  {
    if events != [] {
      AfterFits(env, t, Next(env, t, net, events[0]), events[1..]);
    }
  }

  // The whole network's watchers: what one daemon keeps, every daemon of every network keeps.

  ghost function Uncovered(env: Env, nodes: map<string, Node>): set<string> {
    set n | n in nodes && !Covered(env, nodes[n])
  }

  lemma UncoveredAfter(env: Env, nodes: map<string, Node>, at: string, node: Node)
    requires at in nodes
    ensures |Uncovered(env, nodes[at := node])| <= |Uncovered(env, nodes)| + 1
    ensures Covered(env, node) || !Covered(env, nodes[at]) ==>
              |Uncovered(env, nodes[at := node])| <= |Uncovered(env, nodes)|
    ensures Covered(env, node) && !Covered(env, nodes[at]) ==>
              |Uncovered(env, nodes[at := node])| < |Uncovered(env, nodes)|
  {
    hide Covered;
    var before, after := Uncovered(env, nodes), Uncovered(env, nodes[at := node]);
    assert after <= before + {at};
    SubsetIsSmaller(after, before + {at});
    if Covered(env, node) {
      SubsetIsSmaller(after, before - {at});
    } else if !Covered(env, nodes[at]) {
      SubsetIsSmaller(after, before);
    }
  }

  ghost function WatcherClipCount(env: Env, t: Topology, net: Net, events: seq<Event>): nat
    requires WellFormed(t) && Run(env, t, net, events)
    decreases |events|
  {
    if events == [] then 0 else
    (if events[0].Look? && MadeBy(env, net, events[0]).Some? then 1 else 0)
    + WatcherClipCount(env, t, Next(env, t, net, events[0]), events[1..])
  }

  function WriteCount(events: seq<Event>): nat {
    if events == [] then 0 else (if events[0].UserWrite? then 1 else 0) + WriteCount(events[1..])
  }

  lemma NextUncovered(env: Env, t: Topology, net: Net, e: Event)
    requires HashLaw(env) && WellFormed(t) && Fits(t, net) && Enabled(net, e)
    ensures |Uncovered(env, Next(env, t, net, e).nodes)|
            + (if e.Look? && MadeBy(env, net, e).Some? then 1 else 0)
         <= |Uncovered(env, net.nodes)| + if e.UserWrite? then 1 else 0
  {
    if !e.Drop? {
      var at := Place(net, e);
      assert e.Deliver? ==> FrameFits(t, net.frames[e.index]);
      StepKeepsCovered(env, net.nodes[at], OpOf(net, e));
      hide Covered, Observed, Pushed, Applied, Looked, NodeStep, FanOut, SentBy, Simple, Uncovered;
      UncoveredAfter(env, net.nodes, at, NodeStep(env, net.nodes[at], OpOf(net, e)));
    }
  }

  /**
   * No echo on any topology: over any run, drops, duplicates and cycles included, all watchers together
   * make no more clips than the users wrote clipboards, plus what was already there.
   */
  lemma {:induction false} NoEchoAnywhere(env: Env, t: Topology, net: Net, events: seq<Event>)
    requires HashLaw(env) && WellFormed(t) && Run(env, t, net, events)
    ensures WatcherClipCount(env, t, net, events) <= WriteCount(events) + |Uncovered(env, net.nodes)|
    decreases |events|
  {
    if events != [] {
      NextUncovered(env, t, net, events[0]);
      NoEchoAnywhere(env, t, Next(env, t, net, events[0]), events[1..]);
    }
  }
}
