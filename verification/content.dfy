/**
 * What the clipboards of a network hold, in all four fields of an item: nothing that was not copied
 * somewhere, and after a gesture the very clip that it made.
 */
module Contents {
  import opened Basics
  import opened Clips
  import opened Tables
  import opened Hubs
  import opened Daemon
  import opened Forests
  import opened Network
  import opened Orders
  import opened Convergence
  import opened Settling

  /** The item with its hash and MIME type computed where it has none. */
  function Full(env: Env, item: Item): Item {
    Item(if item.mime == "" then env.mime(item.data) else item.mime, item.data, HashOf(env, item), item.name)
  }

  ghost predicate KnownClip(known: set<Item>, clip: Clip) {
    exists item :: item in known && Carries(item, clip)
  }

  ghost predicate KnownClipboard(env: Env, known: set<Item>, n: Node) {
    n.hub.clipboard.Some? ==> Full(env, n.hub.clipboard.value) in known
  }

  ghost predicate AreFull(env: Env, known: set<Item>) {
    forall item :: item in known ==> Full(env, item) == item
  }

  ghost predicate AllKnown(env: Env, known: set<Item>, net: Net) {
    && AreFull(env, known)
    && (forall n :: n in net.nodes ==> KnownClipboard(env, known, net.nodes[n]))
    && (forall f :: f in net.frames ==> KnownClip(known, f.clip))
  }

  lemma MadeIsFull(env: Env, s: Hub, item: Item, clip: Clip)
    requires MadeOf(env, s, item, clip)
    ensures Carries(Full(env, item), clip)
  {
  }

  lemma NodeStaysKnown(env: Env, known: set<Item>, n: Node, op: NodeOp)
    requires AreFull(env, known) && KnownClipboard(env, known, n)
    requires op.UserWrites? || op.Pushes? ==> Full(env, op.item) in known
    requires op.Receives? ==> KnownClip(known, op.clip)
    ensures KnownClipboard(env, known, NodeStep(env, n, op))
    ensures NodeMakes(env, n, op).Some? ==> KnownClip(known, NodeMakes(env, n, op).value)
  {
    match op
    case UserWrites(_) =>
    case Glance =>
    case Look(now, saved) =>
      if NodeMakes(env, n, op).Some? {
        var item := n.hub.clipboard.value;
        ObservationIsWhole(env, n.hub, item, now, saved);
        hide Suppressed, HashOf;
        MadeIsFull(env, n.hub, item, NodeMakes(env, n, op).value);
      } else {
        hide Suppressed, HashOf;
      }
    case Pushes(item, now, saved) =>
      if NodeMakes(env, n, op).Some? {
        PushIsWhole(env, n.hub, item, now, WELL, saved);
        MadeIsFull(env, n.hub, item, NodeMakes(env, n, op).value);
      }
    case Receives(clip, now) =>
      var item :| item in known && Carries(item, clip);
      assert Full(env, item) == item;
      hide Fresh, Suppressed;
  }

  /** What a user writes or pushes, completed. */
  function Given(env: Env, events: seq<Event>): set<Item> {
    set e | e in events && HasItem(e) :: Full(env, e.item)
  }

  /** What is on the clipboards, completed. */
  function Present(env: Env, net: Net): set<Item> {
    set n | n in net.nodes && net.nodes[n].hub.clipboard.Some? :: Full(env, net.nodes[n].hub.clipboard.value)
  }

  lemma NextStaysKnown(env: Env, t: Topology, known: set<Item>, net: Net, e: Event)
    requires WellFormed(t) && Fits(t, net) && Enabled(net, e) && AllKnown(env, known, net)
    requires HasItem(e) ==> Full(env, e.item) in known
    ensures Fits(t, Next(env, t, net, e)) && AllKnown(env, known, Next(env, t, net, e))
  {
    hide Next, NodeStep, FanOut, Kept, Simple, FrameFits, KnownClip, KnownClipboard, AreFull, Full, Looked, Pushed,
         Applied, Fits;
    NextFits(env, t, net, e);
    NextNodes(env, t, net, e);
    NextFrames(env, t, net, e);
    KeptIs(net, e);
    if !e.Drop? {
      var at := Place(net, e);
      assert e.Deliver? ==> net.frames[e.index] in net.frames;
      NodeStaysKnown(env, known, net.nodes[at], OpOf(net, e));
      assert !e.Deliver? ==> MadeBy(env, net, e) == NodeMakes(env, net.nodes[at], OpOf(net, e));
      SentByIs(env, net, e);
      FanOutIs(t, at, SentBy(env, net, e));
    }
  }

  lemma {:induction false} RunsStayKnown(env: Env, t: Topology, known: set<Item>, net: Net, events: seq<Event>)
    requires WellFormed(t) && Run(env, t, net, events) && AllKnown(env, known, net)
    requires Given(env, events) <= known
    ensures AllKnown(env, known, After(env, t, net, events))
    decreases |events|
  {
    hide Next, AllKnown, Simple, Full;
    if events != [] {
      assert events[0] in events && forall e :: e in events[1..] ==> e in events;
      NextStaysKnown(env, t, known, net, events[0]);
      RunsStayKnown(env, t, known, Next(env, t, net, events[0]), events[1..]);
    }
  }

  /**
   * On any topology and over any run, drops and cycles included: every clipboard holds, and every frame
   * carries, an item that was on a clipboard at the start or that some user wrote or pushed since, with
   * its bytes, name, hash and MIME type, the latter two computed if it had none.
   */
  lemma NothingIsInvented(env: Env, t: Topology, start: Net, events: seq<Event>)
    requires WellFormed(t) && Run(env, t, start, events) && start.frames == []
    ensures var end, known := After(env, t, start, events), Present(env, start) + Given(env, events);
            && (forall n :: n in end.nodes && end.nodes[n].hub.clipboard.Some? ==>
                  Full(env, end.nodes[n].hub.clipboard.value) in known)
            && (forall f :: f in end.frames ==> KnownClip(known, f.clip))
  {
    hide Full, KnownClip, Next, Run, After, Simple, Fits;
    GivenIsFull(env, start, events);
    RunsStayKnown(env, t, Present(env, start) + Given(env, events), start, events);
    hide Present, Given;
  }

  lemma GivenIsFull(env: Env, start: Net, events: seq<Event>)
    ensures AreFull(env, Present(env, start) + Given(env, events))
  {
    forall item | item in Present(env, start) + Given(env, events)
      ensures Full(env, item) == item
    {
      if item in Present(env, start) {
        var n :| n in start.nodes && start.nodes[n].hub.clipboard.Some?
                 && item == Full(env, start.nodes[n].hub.clipboard.value);
      } else {
        var e :| e in events && HasItem(e) && item == Full(env, e.item);
      }
    }
  }

  // While one clip spreads.

  /** Either nothing has been written, or the clipboard is the clip. */
  ghost predicate KeptOr(before: Option<Item>, after: Option<Item>, c: Clip) {
    after == before || (after.Some? && Carries(after.value, c))
  }

  lemma ReceivingKeepsOr(env: Env, n: Node, c: Clip, now: int)
    requires HashLaw(env)
    ensures KeptOr(n.hub.clipboard, NodeStep(env, n, Receives(c, now)).hub.clipboard, c)
  {
    WrittenIff(env, n.hub, c, now, WELL);
    WellIsTheSame(env, n.hub, Item("", [], "", ""), c, now, true);
    hide Applied, AppliedWith;
  }

  lemma PollKeepsClipboard(env: Env, n: Node, op: NodeOp)
    requires op.Look? || op.Glance?
    ensures NodeStep(env, n, op).hub.clipboard == n.hub.clipboard
  {
    hide Suppressed;
  }

  lemma PassiveKeepsOr(env: Env, t: Topology, net: Net, e: Event, c: Clip, v: string, before: Option<Item>)
    requires HashLaw(env) && WellFormed(t) && Fits(t, net) && Enabled(net, e) && Spreading(env, t, net, c) && Passive(e)
    requires v in net.nodes && KeptOr(before, net.nodes[v].hub.clipboard, c)
    ensures var net' := Next(env, t, net, e); v in net'.nodes && KeptOr(before, net'.nodes[v].hub.clipboard, c)
  {
    hide Next, NodeStep, Simple, Ready, Done, Sound, HashLaw, Fits;
    NextNodes(env, t, net, e);
    if e.Deliver? {
      assert net.frames[e.index] in net.frames;
      ReceivingKeepsOr(env, net.nodes[Place(net, e)], c, e.now);
    } else {
      PollKeepsClipboard(env, net.nodes[e.at], OpOf(net, e));
    }
  }

  lemma {:induction false} PassiveRunsKeepOr(
    env: Env, t: Topology, net: Net, events: seq<Event>, c: Clip, v: string, before: Option<Item>)
    requires HashLaw(env) && WellFormed(t) && Run(env, t, net, events) && forall e :: e in events ==> Passive(e)
    requires Spreading(env, t, net, c) && v in net.nodes && KeptOr(before, net.nodes[v].hub.clipboard, c)
    ensures var end := After(env, t, net, events); v in end.nodes && KeptOr(before, end.nodes[v].hub.clipboard, c)
    decreases |events|
  {
    hide Next, Simple, HashLaw, Spreading, Done, KeptOr;
    if events != [] {
      PassiveSpreads(env, t, net, events[0], c);
      PassiveKeepsOr(env, t, net, events[0], c, v, before);
      PassiveRunsKeepOr(env, t, Next(env, t, net, events[0]), events[1..], c, v, before);
    }
  }

  /**
   * Convergence in all four fields: a clipboard that the gesture's clip can reach and that did not have its
   * hash already ends as that clip; one that had it may stay as it was.
   */
  lemma ConvergesWhole(env: Env, t: Topology, net: Net, e: Event, c: Clip, events: seq<Event>, v: string)
    requires HashLaw(env) && WellFormed(t) && Fits(t, net) && Enabled(net, e) && (e.Push? || e.Look?)
    requires Issued(net) && Room(net) && Genuine(env, net) && Honest(env, e) && AtRest(env, net, e.at)
    requires MadeBy(env, net, e) == Some(c)
    requires Run(env, t, Next(env, t, net, e), events) && forall e :: e in events ==> Passive(e)
    requires After(env, t, Next(env, t, net, e), events).frames == [] && Reaches(t, e.at, v) && v != e.at
    ensures var end := After(env, t, Next(env, t, net, e), events);
            && v in net.nodes && v in end.nodes
            && (if Shows(env, net.nodes[v], c) then KeptOr(net.nodes[v].hub.clipboard, end.nodes[v].hub.clipboard, c)
                else end.nodes[v].hub.clipboard.Some? && Carries(end.nodes[v].hub.clipboard.value, c))
  {
    hide Next, Simple, Done, Sound, HashLaw, Ready, Issued, Room, Genuine, Honest, AtRest, MadeBy, Spreading,
         Reaches, Run, After, Carries, Fits;
    NextIsGenuine(env, t, net, e);
    GestureSpreads(env, t, net, e, c);
    NextNodes(env, t, net, e);
    var start := Next(env, t, net, e);
    Converges(env, t, net, e, c, events, v);
    SameNodes(env, t, start, events);
    PassiveRunsKeepOr(env, t, start, events, c, v, net.nodes[v].hub.clipboard);
  }

  lemma {:induction false} SameNodes(env: Env, t: Topology, net: Net, events: seq<Event>)
    requires WellFormed(t) && Run(env, t, net, events)
    ensures After(env, t, net, events).nodes.Keys == net.nodes.Keys
    decreases |events|
  {
    hide Next, Simple;
    if events != [] {
      NextNodes(env, t, net, events[0]);
      SameNodes(env, t, Next(env, t, net, events[0]), events[1..]);
    }
  }

  /**
   * What a user copies and the watcher sends arrives as it was copied: bytes, name, hash and MIME type, on
   * every reachable clipboard that did not have the hash already.
   */
  lemma CopyArrivesWhole(
    env: Env, t: Topology, net: Net, o: string, item: Item, now: int, events: seq<Event>, v: string)
    requires HashLaw(env) && WellFormed(t) && Restful(env, t, net, o) && LocalItem(env, item)
    requires Run(env, t, net, Copying(o, item, now)) && forall e :: e in events ==> Passive(e)
    requires var copied := After(env, t, net, Copying(o, item, now));
             Run(env, t, copied, events) && After(env, t, copied, events).frames == []
    requires Sendable(env, net.nodes[o], item, now) && Reaches(t, o, v) && v != o
    requires v in net.nodes && net.nodes[v].hub.clipboard.Some? ==>
               HashOf(env, net.nodes[v].hub.clipboard.value) != HashOf(env, item)
    ensures var end := After(env, t, After(env, t, net, Copying(o, item, now)), events);
            && v in end.nodes && end.nodes[v].hub.clipboard.Some?
            && var got := end.nodes[v].hub.clipboard.value;
            && got.data == item.data && got.name == item.name && got.hash == HashOf(env, item)
            && got.mime == if item.mime != "" then item.mime else env.mime(item.data)
  {
    var e := Event.Look(o, now, true);
    hide Next, NodeStep, Simple, HashLaw, Looked, Sendable, Settling.Shown, Issued, Room, Genuine, AtRest, Reaches,
         Run, After, LocalItem, Fits, HashOf;
    AfterThree(env, t, net, UserWrite(o, item), Event.Glance(o), e);
    var net2 := WriteIsShown(env, t, net, o, item);
    PolledIs(env, net.nodes[o], item, now);
    var c := Looked(env, net2.nodes[o], now, true).1.value;
    CopiedClipIs(env, net.nodes[o], item, now);
    ConvergesWhole(env, t, net2, e, c, events, v);
  }

  lemma CopiedClipIs(env: Env, n: Node, item: Item, now: int)
    ensures var made := Looked(env, Settling.Shown(env, n, item), now, true).1;
            made.Some? ==> MadeOf(env, n.hub, item, made.value)
  {
    ObservationIsWhole(env, Settling.Shown(env, n, item).hub, item, now, true);
    hide Suppressed, HashOf, Observed;
  }
}
