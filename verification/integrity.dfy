/** Integrity of whole networks: what is in flight and what is shown, on every topology and over every run. */
module Integrities {
  import opened Basics
  import opened Clips
  import opened Hubs
  import opened Daemon
  import opened Forests
  import opened Network
  import opened Orders

  ghost predicate SoundFrames(env: Env, net: Net) {
    forall f :: f in net.frames ==> Sound(env, f.clip)
  }

  /** No clipboard holds more than the limit. */
  ghost predicate WithinLimit(net: Net) {
    forall n :: n in net.nodes && net.nodes[n].hub.clipboard.Some? ==>
                  |net.nodes[n].hub.clipboard.value.data| <= MAX_CLIP
  }

  ghost predicate WholesomeNet(env: Env, net: Net) {
    SoundFrames(env, net) && Genuine(env, net) && WithinLimit(net)
  }

  /** Users and programs write items that are what they claim to be, and users none above the limit. */
  ghost predicate Wholesome(env: Env, e: Event) {
    Honest(env, e) && (e.UserWrite? ==> |e.item.data| <= MAX_CLIP)
  }

  lemma NodeStaysWithinLimit(env: Env, n: Node, op: NodeOp)
    requires n.hub.clipboard.Some? ==> |n.hub.clipboard.value.data| <= MAX_CLIP
    requires op.UserWrites? ==> |op.item.data| <= MAX_CLIP
    ensures var clipboard := NodeStep(env, n, op).hub.clipboard;
            clipboard.Some? ==> |clipboard.value.data| <= MAX_CLIP
  {
  }

  lemma SentIsSound(env: Env, t: Topology, net: Net, e: Event)
    requires HashLaw(env) && WellFormed(t) && Fits(t, net) && Enabled(net, e) && !e.Drop?
    requires WholesomeNet(env, net) && Wholesome(env, e) && Place(net, e) in net.nodes
    ensures forall out :: out in SentBy(env, net, e) ==> Sound(env, out.clip)
  {
    NextIsGenuine(env, t, net, e);
    assert e.Deliver? ==> net.frames[e.index] in net.frames;
    hide Next, Genuine, Sound, Applied, MadeBy, Simple, HashLaw, WithinLimit;
  }

  lemma NextIsWholesome(env: Env, t: Topology, net: Net, e: Event)
    requires HashLaw(env) && WellFormed(t) && Fits(t, net) && Enabled(net, e)
    requires WholesomeNet(env, net) && Wholesome(env, e)
    ensures Fits(t, Next(env, t, net, e)) && WholesomeNet(env, Next(env, t, net, e))
  {
    hide Next, NodeStep, SentBy, FanOut, Kept, Simple, Sound, HashLaw, FrameFits, Genuine;
    NextFits(env, t, net, e);
    NextIsGenuine(env, t, net, e);
    NextNodes(env, t, net, e);
    NextFrames(env, t, net, e);
    KeptIs(net, e);
    if !e.Drop? {
      var at := Place(net, e);
      NodeStaysWithinLimit(env, net.nodes[at], OpOf(net, e));
      SentByIs(env, net, e);
      SentIsSound(env, t, net, e);
      FanOutIs(t, at, SentBy(env, net, e));
    }
  }

  /**
   * On any topology, cycles and relays included, and over any run, drops included: every frame carries a
   * clip with its size, limit and hash right, and every clipboard an item within the limit under its own hash.
   */
  lemma {:induction false} WholesomeEverywhere(env: Env, t: Topology, net: Net, events: seq<Event>)
    requires HashLaw(env) && WellFormed(t) && Run(env, t, net, events)
    requires WholesomeNet(env, net) && forall e :: e in events ==> Wholesome(env, e)
    ensures WholesomeNet(env, After(env, t, net, events))
    decreases |events|
  {
    hide Next, WholesomeNet, Wholesome, Simple, HashLaw;
    if events != [] {
      NextIsWholesome(env, t, net, events[0]);
      WholesomeEverywhere(env, t, Next(env, t, net, events[0]), events[1..]);
    }
  }
}
