/**
 * Coming to rest: on forests every lossless schedule does, and a user's write is then seen everywhere
 * or, if it is suppressed, nowhere else.
 */
module Settling {
  import opened Basics
  import opened Clips
  import opened Tables
  import opened Hubs
  import opened Daemon
  import opened Forests
  import opened Network
  import opened Orders
  import opened Convergence
  import FanOuts

  function DeliverCount(events: seq<Event>): nat {
    if events == [] then 0 else (if events[0].Deliver? then 1 else 0) + DeliverCount(events[1..])
  }

  lemma PollKeepsFrames(env: Env, t: Topology, net: Net, e: Event, c: Clip)
    requires HashLaw(env) && WellFormed(t) && Fits(t, net) && Enabled(net, e) && Spreading(env, t, net, c)
    requires e.Glance? || e.Look?
    ensures Next(env, t, net, e).frames == net.frames
  {
    hide Next, NodeStep, FrameFits, Simple, Ready, Done, Sound, HashLaw, Looked;
    NextFrames(env, t, net, e);
    LookingMakesNothing(env, net.nodes[e.at], c, OpOf(net, e));
    assert MadeBy(env, net, e) == NodeMakes(env, net.nodes[e.at], OpOf(net, e));
  }

  /** While a clip spreads on a forest, every delivery lowers the load and no poll raises it. */
  lemma {:induction false} DeliveriesAreBounded(env: Env, t: Topology, net: Net, events: seq<Event>, c: Clip)
    requires HashLaw(env) && WellFormed(t) && Forest(t.peers) && Run(env, t, net, events)
    requires Spreading(env, t, net, c) && forall e :: e in events ==> Passive(e)
    ensures var end := After(env, t, net, events);
            Fits(t, end) && DeliverCount(events) + FanOuts.Load(t, end.frames) <= FanOuts.Load(t, net.frames)
    decreases |events|
  {
    hide Next, Simple, Forest, HashLaw, Spreading, FanOuts.Load;
    if events != [] {
      var e := events[0];
      PassiveSpreads(env, t, net, e, c);
      if e.Deliver? {
        FanOuts.MoveLightens(env, t, net, e);
      } else {
        PollKeepsFrames(env, t, net, e, c);
      }
      DeliveriesAreBounded(env, t, Next(env, t, net, e), events[1..], c);
    }
  }

  /** No delivery can take place. */
  ghost predicate Stuck(net: Net) {
    forall i: nat, now: int :: !Enabled(net, Deliver(i, now))
  }

  lemma StuckIsIdle(net: Net)
    requires Stuck(net)
    ensures net.frames == []
  {
    assert !Enabled(net, Deliver(0, 0));
  }

  /**
   * On a forest, relays included: after one gesture from rest no lossless schedule delivers more often
   * than the load it starts with, and every one that cannot deliver any more shows the clip everywhere.
   */
  lemma EverySchedule(env: Env, t: Topology, net: Net, e: Event, c: Clip, events: seq<Event>, v: string)
    requires HashLaw(env) && WellFormed(t) && Forest(t.peers) && Fits(t, net) && Enabled(net, e) && (e.Push? || e.Look?)
    requires Issued(net) && Room(net) && Genuine(env, net) && Honest(env, e) && AtRest(env, net, e.at)
    requires MadeBy(env, net, e) == Some(c)
    requires Run(env, t, Next(env, t, net, e), events) && forall e :: e in events ==> Passive(e)
    ensures var start := Next(env, t, net, e);
            Fits(t, start) && DeliverCount(events) <= FanOuts.Load(t, start.frames)
    ensures var end := After(env, t, Next(env, t, net, e), events);
            Stuck(end) && Reaches(t, e.at, v) ==> v in end.nodes && Shows(env, end.nodes[v], c)
  {
    hide Next, Simple, Forest, HashLaw, Sound, Issued, Room, Genuine, Honest, AtRest, MadeBy, Spreading, Shows, Reaches,
         Run, After, Stuck, FanOuts.Load, Done;
    NextIsGenuine(env, t, net, e);
    GestureSpreads(env, t, net, e, c);
    var start := Next(env, t, net, e);
    DeliveriesAreBounded(env, t, start, events, c);
    var end := After(env, t, start, events);
    if Stuck(end) && Reaches(t, e.at, v) {
      StuckIsIdle(end);
      Converges(env, t, net, e, c, events, v);
    }
  }

  /** And such a schedule there is, from wherever a clip is spreading. */
  lemma {:induction false} Settle(env: Env, t: Topology, net: Net, c: Clip, now: int) returns (events: seq<Event>)
    requires HashLaw(env) && WellFormed(t) && Forest(t.peers) && Fits(t, net) && Spreading(env, t, net, c)
    ensures (forall e :: e in events ==> e.Deliver?) && Run(env, t, net, events)
    ensures Stuck(After(env, t, net, events))
    decreases FanOuts.Load(t, net.frames)
  {
    hide Next, Simple, Forest, HashLaw, Spreading, FanOuts.Load;
    if net.frames == [] {
      return [];
    }
    var e := Deliver(0, now);
    PassiveSpreads(env, t, net, e, c);
    FanOuts.MoveLightens(env, t, net, e);
    var rest := Settle(env, t, Next(env, t, net, e), c, now);
    events := [e] + rest;
    assert events[1..] == rest;
  }

  // A user's write.

  /** What makes a polled write a clip: not empty, not what the watcher took last, within the limit, not suppressed. */
  ghost predicate Sendable(env: Env, n: Node, item: Item, now: int) {
    && item.data != [] && item.data != n.last && |item.data| <= MAX_CLIP
    && !Suppressed(n.hub.adds, env.ttl, RING, HashOf(env, item), now)
  }

  ghost function Shown(env: Env, n: Node, item: Item): Node {
    NodeStep(env, NodeStep(env, n, UserWrites(item)), NodeOp.Glance)
  }

  ghost function Polled(env: Env, n: Node, item: Item, now: int): Node {
    NodeStep(env, Shown(env, n, item), NodeOp.Look(now, true))
  }

  /** Sent or not, the write is then covered: the watcher has taken it, or would make nothing of it. */
  lemma PolledIs(env: Env, n: Node, item: Item, now: int)
    requires HashLaw(env)
    ensures var n', made := Polled(env, n, item, now), Looked(env, Shown(env, n, item), now, true).1;
            && (made.Some? <==> Sendable(env, n, item, now))
            && (made.Some? ==> made.value.meta.hash == HashOf(env, item) && made.value.data == item.data)
            && Covered(env, n') && n'.hub.clipboard == Some(item)
            && n'.hub.adds == n.hub.adds + (if made.Some? then [Added(HashOf(env, item), now)] else [])
            && (item.data != [] ==> n'.last == item.data)
  {
    WritesAreSent(env, n, item, now);
    assert IsHash(env.hash(item.data));
    assert HashOf(env, item) != "";
    hide Suppressed, HashLaw, IsHash;
  }

  /** What a write or a glance at one node leaves as it was. */
  ghost predicate Restful(env: Env, t: Topology, net: Net, o: string) {
    Fits(t, net) && o in net.nodes && Issued(net) && Room(net) && Genuine(env, net) && AtRest(env, net, o)
  }

  lemma LocalStep(env: Env, t: Topology, net: Net, e: Event)
    requires HashLaw(env) && WellFormed(t) && (e.UserWrite? || e.Glance?)
    requires Restful(env, t, net, e.at) && Honest(env, e)
    ensures Restful(env, t, Next(env, t, net, e), e.at)
    ensures Next(env, t, net, e).nodes == net.nodes[e.at := NodeStep(env, net.nodes[e.at], OpOf(net, e))]
  {
    hide Next, Simple, Issued, Genuine, HashLaw, Covered, Honest, Fits, Looked, Pushed;
    NextFits(env, t, net, e);
    NextNodes(env, t, net, e);
    NextFrames(env, t, net, e);
    NextIsIssued(env, t, net, e);
    NextIsGenuine(env, t, net, e);
    assert SentBy(env, net, e) == [] && Kept(net, e) == [];
  }

  lemma WriteIsShown(env: Env, t: Topology, net: Net, o: string, item: Item) returns (net2: Net)
    requires HashLaw(env) && WellFormed(t) && Restful(env, t, net, o) && LocalItem(env, item)
    ensures Restful(env, t, Next(env, t, net, UserWrite(o, item)), o)
    ensures net2 == Next(env, t, Next(env, t, net, UserWrite(o, item)), Event.Glance(o))
    ensures Restful(env, t, net2, o) && net2.nodes == net.nodes[o := Shown(env, net.nodes[o], item)]
  {
    hide Next, Simple, HashLaw, Issued, Genuine, Room, AtRest, LocalItem, NodeStep, Fits;
    LocalStep(env, t, net, UserWrite(o, item));
    net2 := Next(env, t, Next(env, t, net, UserWrite(o, item)), Event.Glance(o));
    LocalStep(env, t, Next(env, t, net, UserWrite(o, item)), Event.Glance(o));
  }

  lemma CoveredMakesNothing(env: Env, n: Node, op: NodeOp)
    requires HashLaw(env) && Covered(env, n) && (op.Look? || op.Glance?)
    ensures NodeMakes(env, n, op).None? && Covered(env, NodeStep(env, n, op)) && NodeStep(env, n, op).hub == n.hub
  {
    StepKeepsCovered(env, n, op);
    if op.Look? && n.armed && Differs(n.hub.clipboard, n.last) && |n.hub.clipboard.value.data| <= MAX_CLIP {
      var h := HashOf(env, n.hub.clipboard.value);
      assert IsHash(env.hash(n.hub.clipboard.value.data)) && h != "";
      NewestIsSuppressed(n.hub.adds, env.ttl, h, op.now);
    }
    hide Suppressed, HashLaw, IsHash, HashOf;
  }

  ghost predicate Silent(env: Env, net: Net) {
    net.frames == [] && forall n :: n in net.nodes ==> Covered(env, net.nodes[n])
  }

  lemma PollStaysSilent(env: Env, t: Topology, net: Net, e: Event)
    requires HashLaw(env) && WellFormed(t) && Fits(t, net) && Enabled(net, e) && Silent(env, net) && Passive(e)
    ensures var net' := Next(env, t, net, e);
            && Fits(t, net') && Silent(env, net') && net'.nodes.Keys == net.nodes.Keys
            && forall n :: n in net.nodes ==> net'.nodes[n].hub == net.nodes[n].hub
  {
    hide Next, NodeStep, Simple, HashLaw, Looked, Covered, Fits;
    NextFits(env, t, net, e);
    NextNodes(env, t, net, e);
    NextFrames(env, t, net, e);
    CoveredMakesNothing(env, net.nodes[e.at], OpOf(net, e));
    assert MadeBy(env, net, e) == NodeMakes(env, net.nodes[e.at], OpOf(net, e));
  }

  lemma {:induction false} SilenceStays(env: Env, t: Topology, net: Net, events: seq<Event>)
    requires HashLaw(env) && WellFormed(t) && Run(env, t, net, events) && Silent(env, net)
    requires forall e :: e in events ==> Passive(e)
    ensures var end := After(env, t, net, events);
            end.nodes.Keys == net.nodes.Keys && forall n :: n in net.nodes ==> end.nodes[n].hub == net.nodes[n].hub
    decreases |events|
  {
    hide Next, Simple, HashLaw, Silent;
    if events != [] {
      PollStaysSilent(env, t, net, events[0]);
      SilenceStays(env, t, Next(env, t, net, events[0]), events[1..]);
    }
  }

  lemma AfterThree(env: Env, t: Topology, net: Net, a: Event, b: Event, c: Event)
    requires WellFormed(t) && Run(env, t, net, [a, b, c])
    ensures Fits(t, net) && Enabled(net, a)
    ensures var net1 := Next(env, t, net, a);
            && Fits(t, net1) && Enabled(net1, b)
            && var net2 := Next(env, t, net1, b);
               && Fits(t, net2) && Enabled(net2, c)
               && After(env, t, net, [a, b, c]) == Next(env, t, net2, c)
  {
    hide Next, Fits, Enabled, Simple;
    assert [a, b, c][1..] == [b, c] && [b, c][1..] == [c] && [c][1..] == [];
    var net1 := Next(env, t, net, a);
    assert Run(env, t, net1, [b, c]) && After(env, t, net, [a, b, c]) == After(env, t, net1, [b, c]);
    var net2 := Next(env, t, net1, b);
    assert Run(env, t, net2, [c]) && After(env, t, net1, [b, c]) == After(env, t, net2, [c]);
    var net3 := Next(env, t, net2, c);
    assert Run(env, t, net3, []) && After(env, t, net2, [c]) == After(env, t, net3, []);
  }

  /** A user's write at o, and the watcher's two looks at it. */
  function Copying(o: string, item: Item, now: int): seq<Event> {
    [UserWrite(o, item), Event.Glance(o), Event.Look(o, now, true)]
  }

  lemma UnsentIsSilent(env: Env, t: Topology, net: Net, net2: Net, o: string, item: Item, now: int)
    requires HashLaw(env) && WellFormed(t) && o in net.nodes && Fits(t, net2) && AtRest(env, net2, o)
    requires net2.nodes == net.nodes[o := Shown(env, net.nodes[o], item)]
    requires !Sendable(env, net.nodes[o], item, now)
    ensures var net3 := Next(env, t, net2, Event.Look(o, now, true));
            && Silent(env, net3) && net3.nodes.Keys == net.nodes.Keys
            && forall n :: n in net.nodes && n != o ==> net3.nodes[n].hub == net.nodes[n].hub
  {
    var e := Event.Look(o, now, true);
    hide Next, NodeStep, Simple, HashLaw, Looked, Covered, Sendable, Shown, Fits;
    PolledIs(env, net.nodes[o], item, now);
    NextNodes(env, t, net2, e);
    NextFrames(env, t, net2, e);
    assert MadeBy(env, net2, e) == Looked(env, net2.nodes[o], now, true).1;
  }

  /**
   * What a user copies at o, with everyone else at rest: if it is sendable, every schedule of deliveries
   * and polls that comes to rest shows it on every clipboard it can reach; if not, nothing changes at any other node.
   */
  lemma CopySpreadsOrNot(
    env: Env, t: Topology, net: Net, o: string, item: Item, now: int, events: seq<Event>, v: string)
    requires HashLaw(env) && WellFormed(t) && Restful(env, t, net, o) && LocalItem(env, item)
    requires Run(env, t, net, Copying(o, item, now)) && forall e :: e in events ==> Passive(e)
    requires var copied := After(env, t, net, Copying(o, item, now));
             Run(env, t, copied, events) && After(env, t, copied, events).frames == []
    ensures var end := After(env, t, After(env, t, net, Copying(o, item, now)), events);
            if Sendable(env, net.nodes[o], item, now) then
              Reaches(t, o, v) ==>
                && v in end.nodes && end.nodes[v].hub.clipboard.Some?
                && HashOf(env, end.nodes[v].hub.clipboard.value) == HashOf(env, item)
            else
              v in net.nodes && v != o ==> v in end.nodes && end.nodes[v].hub == net.nodes[v].hub
  {
    var e := Event.Look(o, now, true);
    hide Next, NodeStep, Simple, HashLaw, Looked, Sendable, Shown, Issued, Room, Genuine, AtRest, Reaches, Run, After,
         LocalItem, Fits, Silent;
    AfterThree(env, t, net, UserWrite(o, item), Event.Glance(o), e);
    var net2 := WriteIsShown(env, t, net, o, item);
    PolledIs(env, net.nodes[o], item, now);
    var net3 := Next(env, t, net2, e);
    if Sendable(env, net.nodes[o], item, now) {
      if Reaches(t, o, v) {
        var c := Looked(env, net2.nodes[o], now, true).1.value;
        Converges(env, t, net2, e, c, events, v);
      }
    } else {
      UnsentIsSilent(env, t, net, net2, o, item, now);
      SilenceStays(env, t, net3, events);
    }
  }

  /**
   * Copying a, then b, then a again: the second a is among the last hashes added and is not sent, so
   * the other nodes keep b.
   */
  lemma CopyingBackIsNotSent(env: Env, n: Node, a: Item, b: Item, first: int, second: int, third: int)
    requires HashLaw(env) && Sendable(env, n, a, first)
    requires Sendable(env, Polled(env, n, a, first), b, second)
    ensures !Sendable(env, Polled(env, Polled(env, n, a, first), b, second), a, third)
  {
    var n1 := Polled(env, n, a, first);
    var n2 := Polled(env, n1, b, second);
    PolledIs(env, n, a, first);
    PolledIs(env, n1, b, second);
    assert IsHash(env.hash(a.data)) && HashOf(env, a) != "";
    hide Polled, HashLaw, IsHash, HashOf;
    assert n2.hub.adds[|n.hub.adds|] == Added(HashOf(env, a), first);
  }
}
