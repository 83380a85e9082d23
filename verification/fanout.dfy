/**
 * Forwarding ends exactly on forests.
 *
 * A hub forwards duplicates and its own clips too, so nothing but the shape of the TCP sessions
 * stops a clip: every frame is worth the number of nodes it can still visit.
 */
module FanOuts {
  import opened Basics
  import opened Clips
  import opened Hubs
  import opened Daemon
  import opened Forests
  import opened Network

  ghost function Weight(t: Topology, f: Frame): nat
    requires WellFormed(t) && FrameFits(t, f)
  {
    if f.Tcp? then Beyond(t.peers, f.src, f.dst)
    else 1 + Branches(t.peers, |t.peers|, f.dst, None, t.peers[f.dst])
  }

  ghost function Load(t: Topology, frames: seq<Frame>): nat
    requires WellFormed(t) && forall f :: f in frames ==> FrameFits(t, f)
  {
    if frames == [] then 0 else Weight(t, frames[0]) + Load(t, frames[1..])
  }

  lemma {:induction false} LoadOfBoth(t: Topology, a: seq<Frame>, b: seq<Frame>)
    requires WellFormed(t) && (forall f :: f in a ==> FrameFits(t, f)) && forall f :: f in b ==> FrameFits(t, f)
    ensures Load(t, a + b) == Load(t, a) + Load(t, b)
    decreases |a|
  {
    if a == [] {
      assert a + b == b;
    } else {
      LoadOfBoth(t, a[1..], b);
      assert (a + b)[1..] == a[1..] + b;
    }
  }

  lemma LoadWithout(t: Topology, frames: seq<Frame>, i: nat)
    requires WellFormed(t) && i < |frames| && forall f :: f in frames ==> FrameFits(t, f)
    ensures Load(t, frames) == Load(t, frames[..i] + frames[i + 1..]) + Weight(t, frames[i])
  {
    var front, rest := frames[..i], frames[i + 1..];
    LoadOfBoth(t, front, rest);
    LoadOfBoth(t, front, [frames[i]]);
    LoadOfBoth(t, front + [frames[i]], rest);
    assert frames == front + [frames[i]] + rest;
  }

  /** What a broadcast puts on the TCP sessions weighs as much as the branches it is sent into. */
  lemma {:induction false} LoadOfTcpFrames(t: Topology, src: string, ws: seq<string>, out: Outbound)
    requires WellFormed(t) && src in t.peers && forall w :: w in ws ==> w in t.peers[src] && w in t.peers
    ensures forall f :: f in TcpFrames(src, ws, out) ==> FrameFits(t, f)
    ensures Load(t, TcpFrames(src, ws, out)) == Branches(t.peers, |t.peers|, src, out.skip, ws)
    decreases |ws|
  {
    TcpFramesAre(src, ws, out);
    if ws != [] {
      var rest := TcpFrames(src, ws[1..], out);
      LoadOfTcpFrames(t, src, ws[1..], out);
      if CarriedByTcp(out, Some(ws[0])) {
        var first := Tcp(src, ws[0], out.clip);
        assert ([first] + rest)[1..] == rest;
      } else {
        assert [] + rest == rest;
      }
    }
  }

  lemma {:induction false} SkippingIsLess(g: Graph, depth: nat, v: string, skip: Option<string>, ws: seq<string>)
    requires Simple(g) && forall w :: w in ws ==> w in g
    ensures Branches(g, depth, v, skip, ws) <= Branches(g, depth, v, None, ws)
    decreases |ws|
  {
    if ws != [] {
      SkippingIsLess(g, depth, v, skip, ws[1..]);
    }
  }

  /** A forwarded clip weighs less than the frame it arrived in. */
  lemma ForwardingWeighsLess(t: Topology, f: Frame, outs: seq<Outbound>)
    requires WellFormed(t) && Forest(t.peers) && FrameFits(t, f)
    requires outs == [] || outs == [Outbound(f.clip, Some(f.src))]
    ensures forall f' :: f' in FanOut(t, f.dst, outs) ==> FrameFits(t, f')
    ensures Load(t, FanOut(t, f.dst, outs)) < Weight(t, f)
    ensures f.Tcp? && outs != [] ==> Load(t, FanOut(t, f.dst, outs)) + 1 == Weight(t, f)
  {
    FanOutIs(t, f.dst, outs);
    if f.Tcp? {
      BeyondSplits(t.peers, f.src, f.dst);
    }
    if outs != [] {
      LoadOfTcpFrames(t, f.dst, t.peers[f.dst], outs[0]);
      assert FanOut(t, f.dst, outs) == TcpFrames(f.dst, t.peers[f.dst], outs[0]);
      SkippingIsLess(t.peers, |t.peers|, f.dst, Some(f.src), t.peers[f.dst]);
    }
  }

  /** An event that moves a frame: no clip is made, one frame is delivered or dropped. */
  predicate Moves(e: Event) {
    e.Deliver? || e.Drop?
  }

  lemma DeliverySends(env: Env, net: Net, e: Event)
    requires e.Deliver? ==> Enabled(net, e) && Place(net, e) in net.nodes
    ensures e.Deliver? ==>
              var f := net.frames[e.index];
              var sent := SentBy(env, net, e);
              && (sent == [] || sent == [Outbound(f.clip, Some(f.src))])
              && (HashLaw(env) && Sound(env, f.clip) ==> sent != [])
  {
    if e.Deliver? && HashLaw(env) {
      VerifiedIsSound(env, net.frames[e.index].clip);
    }
  }

  lemma MoveLightens(env: Env, t: Topology, net: Net, e: Event)
    requires WellFormed(t) && Forest(t.peers) && Fits(t, net) && Enabled(net, e) && Moves(e)
    ensures Fits(t, Next(env, t, net, e))
    ensures Load(t, Next(env, t, net, e).frames) < Load(t, net.frames)
  {
    hide Next, FanOut, SentBy, Applied, Weight, Load, Forest, Simple;
    NextFits(env, t, net, e);
    NextFrames(env, t, net, e);
    LoadWithout(t, net.frames, e.index);
    KeptIs(net, e);
    DeliverySends(env, net, e);
    var f := net.frames[e.index];
    if e.Deliver? {
      var sent := SentBy(env, net, e);
      ForwardingWeighsLess(t, f, sent);
      LoadOfBoth(t, Kept(net, e), FanOut(t, f.dst, sent));
    } else {
      BeyondIsPositive(t, f);
    }
  }

  lemma BeyondIsPositive(t: Topology, f: Frame)
    requires WellFormed(t) && Forest(t.peers) && FrameFits(t, f)
    ensures 1 <= Weight(t, f) <= |t.peers|
  {
    var g := t.peers;
    if f.Tcp? {
      BeyondSplits(g, f.src, f.dst);
      BeyondIsBounded(g, f.src, f.dst);
    } else {
      BranchesAreBounded(g, f.dst);
    }
  }

  function Times(a: nat, b: nat): nat {
    a * b
  }

  lemma OneMore(a: nat, b: nat)
    ensures Times(a, b) + b == Times(a + 1, b)
  {
  }

  lemma {:induction false} LoadIsBounded(t: Topology, frames: seq<Frame>)
    requires WellFormed(t) && Forest(t.peers) && forall f :: f in frames ==> FrameFits(t, f)
    ensures Load(t, frames) <= Times(|frames|, |t.peers|)
    decreases |frames|
  {
    if frames != [] {
      BeyondIsPositive(t, frames[0]);
      LoadIsBounded(t, frames[1..]);
      OneMore(|frames[1..]|, |t.peers|);
      hide Forest, Simple, FrameFits, Weight;
    }
  }

  /** Termination: on a forest, relays or not, no schedule moves frames more often than their load. */
  lemma {:induction false} ForwardingEnds(env: Env, t: Topology, net: Net, events: seq<Event>)
    requires WellFormed(t) && Forest(t.peers) && Run(env, t, net, events)
    requires forall e :: e in events ==> Moves(e)
    ensures |events| <= Load(t, net.frames) <= Times(|net.frames|, |t.peers|)
    decreases |events|
  {
    LoadIsBounded(t, net.frames);
    if events != [] {
      MoveLightens(env, t, net, events[0]);
      ForwardingEnds(env, t, Next(env, t, net, events[0]), events[1..]);
    }
  }

  // With gestures in between: the whole traffic of a run.

  function MoveCount(events: seq<Event>): nat {
    if events == [] then 0 else (if Moves(events[0]) then 1 else 0) + MoveCount(events[1..])
  }

  function PushCount(events: seq<Event>): nat {
    if events == [] then 0 else (if events[0].Push? then 1 else 0) + PushCount(events[1..])
  }

  /** `share` bounds what one clip of local origin can weigh: a frame per session, each good for every node. */
  ghost predicate Shares(t: Topology, share: nat) {
    && t.groups.Keys == t.peers.Keys
    && forall n :: n in t.peers ==> Times(|t.peers[n]| + |t.groups[n]|, |t.peers|) <= share
  }

  lemma {:induction false} FanOutIsShort(src: string, ws: seq<string>, out: Outbound)
    ensures |TcpFrames(src, ws, out)| <= |ws| && |RelayFrames(src, ws, out)| <= |ws|
    decreases |ws|
  {
    if ws != [] {
      FanOutIsShort(src, ws[1..], out);
    }
  }

  lemma TimesIsMonotonic(a: nat, b: nat, c: nat)
    requires a <= b
    ensures Times(a, c) <= Times(b, c)
  {
  }

  lemma BroadcastLoad(t: Topology, src: string, outs: seq<Outbound>, share: nat)
    requires WellFormed(t) && Forest(t.peers) && Shares(t, share) && src in t.peers && |outs| <= 1
    ensures forall f :: f in FanOut(t, src, outs) ==> FrameFits(t, f)
    ensures Load(t, FanOut(t, src, outs)) <= if outs == [] then 0 else share
  {
    FanOutIs(t, src, outs);
    if outs != [] {
      FanOutIsShort(src, t.peers[src], outs[0]);
      FanOutIsShort(src, t.groups[src], outs[0]);
      LoadIsBounded(t, FanOut(t, src, outs));
      TimesIsMonotonic(|FanOut(t, src, outs)|, |t.peers[src]| + |t.groups[src]|, |t.peers|);
    }
  }

  ghost predicate Gesture(env: Env, net: Net, e: Event)
    requires Enabled(net, e)
  {
    e.Push? || (e.Look? && MadeBy(env, net, e).Some?)
  }

  /** One event changes the load by a delivery or drop less, or by a gesture's share more. */
  lemma EventLoad(env: Env, t: Topology, net: Net, e: Event, share: nat)
    requires WellFormed(t) && Forest(t.peers) && Shares(t, share) && Fits(t, net) && Enabled(net, e)
    ensures Fits(t, Next(env, t, net, e))
    ensures Load(t, Next(env, t, net, e).frames) + (if Moves(e) then 1 else 0)
         <= Load(t, net.frames)
            + if Gesture(env, net, e) then share else 0
  {
    hide Next, FanOut, Pushed, Looked, Weight, Load, Forest, Simple, Shares;
    NextFits(env, t, net, e);
    if Moves(e) {
      MoveLightens(env, t, net, e);
    } else {
      NextFrames(env, t, net, e);
      SentByIs(env, net, e);
      var sent := SentBy(env, net, e);
      BroadcastLoad(t, Place(net, e), sent, share);
      LoadOfBoth(t, net.frames, FanOut(t, Place(net, e), sent));
    }
  }

  ghost function GestureCount(env: Env, t: Topology, net: Net, events: seq<Event>): nat
    requires WellFormed(t) && Run(env, t, net, events)
    decreases |events|
  {
    if events == [] then 0 else
    (if Gesture(env, net, events[0]) then 1 else 0)
    + GestureCount(env, t, Next(env, t, net, events[0]), events[1..])
  }

  lemma {:induction false} GesturesAre(env: Env, t: Topology, net: Net, events: seq<Event>)
    requires WellFormed(t) && Run(env, t, net, events)
    ensures GestureCount(env, t, net, events) <= PushCount(events) + WatcherClipCount(env, t, net, events)
    decreases |events|
  {
    if events != [] {
      GesturesAre(env, t, Next(env, t, net, events[0]), events[1..]);
    }
  }

  ghost function Budget(env: Env, t: Topology, net: Net, events: seq<Event>, share: nat): nat
    requires WellFormed(t) && Run(env, t, net, events)
  {
    Load(t, net.frames) + Times(GestureCount(env, t, net, events), share)
  }

  lemma BudgetIsSpent(env: Env, t: Topology, net: Net, events: seq<Event>, share: nat)
    requires WellFormed(t) && Forest(t.peers) && Shares(t, share) && Run(env, t, net, events) && events != []
    ensures Budget(env, t, Next(env, t, net, events[0]), events[1..], share) + (if Moves(events[0]) then 1 else 0)
         <= Budget(env, t, net, events, share)
  {
    hide Next, Load, Forest, Simple, Shares, Gesture, Times, MadeBy, Enabled, Moves;
    var net' := Next(env, t, net, events[0]);
    EventLoad(env, t, net, events[0], share);
    OneMore(GestureCount(env, t, net', events[1..]), share);
  }

  lemma {:induction false} TrafficOfGestures(env: Env, t: Topology, net: Net, events: seq<Event>, share: nat)
    requires WellFormed(t) && Forest(t.peers) && Shares(t, share) && Run(env, t, net, events)
    ensures MoveCount(events) <= Budget(env, t, net, events, share)
    decreases |events|
  {
    if events != [] {
      hide Next, Budget, Forest, Simple, Shares, Enabled, Fits;
      BudgetIsSpent(env, t, net, events, share);
      TrafficOfGestures(env, t, Next(env, t, net, events[0]), events[1..], share);
    }
  }

  /**
   * No storm: on a forest, however long the run, the frames ever moved are bounded by the frames in
   * flight at the start and a share for every push, every user write and every clipboard not yet seen.
   */
  lemma TrafficIsBounded(env: Env, t: Topology, net: Net, events: seq<Event>, share: nat)
    requires HashLaw(env) && WellFormed(t) && Forest(t.peers) && Shares(t, share) && Run(env, t, net, events)
    ensures MoveCount(events)
         <= Load(t, net.frames) + Times(PushCount(events) + WriteCount(events) + |Uncovered(env, net.nodes)|, share)
  {
    hide Times, Load, Forest, Simple, Shares, Uncovered, Next, GestureCount, MoveCount, PushCount, WriteCount,
         WatcherClipCount, Run;
    TrafficOfGestures(env, t, net, events, share);
    GesturesAre(env, t, net, events);
    NoEchoAnywhere(env, t, net, events);
    TimesIsMonotonic(GestureCount(env, t, net, events),
                     PushCount(events) + WriteCount(events) + |Uncovered(env, net.nodes)|, share);
  }

  // Cycles: one sound clip is enough to keep a cycle busy for ever.

  ghost predicate Circulating(t: Topology, net: Net, clip: Clip, u: string, v: string) {
    && Fits(t, net)
    && (forall f :: f in net.frames ==> f.clip == clip)
    && Tcp(u, v, clip) in net.frames
  }

  lemma Oldest(net: Net, f: Frame) returns (i: nat)
    requires f.Tcp? && f in net.frames
    ensures i < |net.frames| && SameEdge(net.frames[i], f)
    ensures forall j :: 0 <= j < i ==> !SameEdge(net.frames[j], f)
  {
    i := 0;
    while !SameEdge(net.frames[i], f)
      invariant i < |net.frames| && forall j :: 0 <= j < i ==> !SameEdge(net.frames[j], f)
      decreases |net.frames| - i
    {
      if i + 1 == |net.frames| {
        assert false;
      }
      i := i + 1;
    }
  }

  lemma CirculatesOn(env: Env, t: Topology, net: Net, clip: Clip, u: string, v: string, w: string) returns (e: Event)
    requires HashLaw(env) && WellFormed(t) && Sound(env, clip)
    requires Circulating(t, net, clip, u, v) && w in t.peers[v] && w != u
    ensures Enabled(net, e) && e.Deliver? && Circulating(t, Next(env, t, net, e), clip, v, w)
  {
    hide Next, FanOut, SentBy, Applied, Simple, Sound, HashLaw, Kept;
    var i := Oldest(net, Tcp(u, v, clip));
    e := Deliver(i, 0);
    assert FrameFits(t, net.frames[i]);
    DeliverySends(env, net, e);
    NextFits(env, t, net, e);
    NextFrames(env, t, net, e);
    KeptIs(net, e);
    FanOutIs(t, v, SentBy(env, net, e));
  }

  function Around(p: seq<string>, i: nat): (j: nat)
    requires i < |p|
    ensures j < |p|
  {
    if i + 1 == |p| then 0 else i + 1
  }

  /** On a cycle p there is a run of any length, entered with any frame along the cycle. */
  lemma {:induction false} CyclesRunOn(
    env: Env, t: Topology, net: Net, clip: Clip, p: seq<string>, i: nat, n: nat) returns (events: seq<Event>)
    requires HashLaw(env) && WellFormed(t) && Sound(env, clip) && Cycle(t.peers, p) && i < |p|
    requires Circulating(t, net, clip, p[i], p[Around(p, i)])
    ensures |events| == n && Run(env, t, net, events) && forall e :: e in events ==> Moves(e)
    decreases n
  {
    if n == 0 {
      return [];
    }
    var j := Around(p, i);
    var k := Around(p, j);
    assert j + 1 < |p| ==> p[j + 1] in t.peers[p[j]];
    assert p[k] in t.peers[p[j]] && p[k] != p[i];
    hide Simple, Cycle, Circulating, Sound, HashLaw;
    var e := CirculatesOn(env, t, net, clip, p[i], p[j], p[k]);
    var rest := CyclesRunOn(env, t, Next(env, t, net, e), clip, p, j, n - 1);
    events := [e] + rest;
    assert events[1..] == rest;
  }

  ghost predicate Bounded(env: Env, t: Topology, net: Net, events: seq<Event>)
    requires WellFormed(t)
  {
    Run(env, t, net, events) && (forall e :: e in events ==> Moves(e)) ==> |events| <= Times(|net.frames|, |t.peers|)
  }

  lemma OneFrameCirculates(t: Topology, idle: Net, clip: Clip, u: string, v: string)
    requires WellFormed(t) && Fits(t, idle) && u in t.peers && v in t.peers[u]
    ensures Circulating(t, idle.(frames := [Tcp(u, v, clip)]), clip, u, v)
  {
  }

  lemma CycleIsUnbounded(env: Env, t: Topology, idle: Net, clip: Clip, p: seq<string>)
    returns (frames: seq<Frame>, events: seq<Event>)
    requires HashLaw(env) && WellFormed(t) && Sound(env, clip) && Fits(t, idle) && Cycle(t.peers, p)
    ensures !Bounded(env, t, idle.(frames := frames), events)
  {
    assert p[0 + 1] in t.peers[p[0]];
    OneFrameCirculates(t, idle, clip, p[0], p[1]);
    assert Times(1, |t.peers|) == |t.peers|;
    hide Cycle, Circulating, Fits, Simple, Sound, HashLaw, Run, Times;
    frames := [Tcp(p[0], p[1], clip)];
    events := CyclesRunOn(env, t, idle.(frames := frames), clip, p, 0, |t.peers| + 1);
  }

  /** The exact condition: frames die out under every schedule if and only if the TCP sessions form a forest. */
  lemma EndsExactlyOnForests(env: Env, t: Topology, idle: Net, clip: Clip)
    requires HashLaw(env) && WellFormed(t) && Sound(env, clip) && Fits(t, idle)
    ensures Forest(t.peers) <==>
            forall frames, events :: Bounded(env, t, idle.(frames := frames), events)
  {
    if Forest(t.peers) {
      forall frames, events
        ensures Bounded(env, t, idle.(frames := frames), events)
      {
        var net := idle.(frames := frames);
        if Run(env, t, net, events) && forall e :: e in events ==> Moves(e) {
          ForwardingEnds(env, t, net, events);
        }
      }
    } else {
      var p :| Cycle(t.peers, p);
      var frames, events := CycleIsUnbounded(env, t, idle, clip, p);
    }
  }
}
