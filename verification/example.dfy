/**
 * One exchange between two daemons: it meets every assumption of the network theorems, which are thus
 * not about nothing.
 */
module Examples {
  import opened Basics
  import opened Clips
  import opened Hubs
  import opened Daemon
  import opened Forests
  import opened Network
  import opened Orders
  import opened Convergence

  const A: string := "a"
  const B: string := "b"

  function Pair(): Topology {
    Topology(map[A := [B], B := [A]], map[A := [], B := []])
  }

  function Started(id: string): Node {
    Node(Hub(id, None, [], [], 0), [], false)
  }

  function Idle(): Net {
    Net(map[A := Started(A), B := Started(B)], [], map[A := [], B := []], map[A := [], B := []])
  }

  lemma PairIsForest()
    ensures NoRelays(Pair()) && Connected(Pair().peers, A, B)
  {
    var g := Pair().peers;
    assert A != B;
    forall p
      ensures !Cycle(g, p)
    {
      if 3 <= |p| && Walk(g, p) {
        assert p[0 + 1] in g[p[0]] && p[1 + 1] in g[p[1]];
        assert p[0] == p[2];
      }
    }
    assert Walk(g, [A, B]);
  }

  lemma IdleIsFresh(env: Env)
    ensures FreshStart(env, Pair(), Idle()) && Room(Idle()) && AtRest(env, Idle(), A)
    ensures Genuine(env, Idle()) && Issued(Idle()) && Fits(Pair(), Idle())
  {
  }

  function Copy(item: Item): Event {
    Event.Push(A, item, 0, true)
  }

  const ARRIVAL: Event := Deliver(0, 0)

  /** The clip that the copy makes: the first of its origin. */
  function Made(env: Env, item: Item): Clip
    requires |item.data| <= MAX_CLIP
  {
    Pushed(env, Started(A).hub, item, 0, true).1.value
  }

  lemma MadeIsSound(env: Env, item: Item)
    requires HashLaw(env) && LocalItem(env, item) && |item.data| <= MAX_CLIP
    ensures Pushed(env, Started(A).hub, item, 0, true).1 == Ok(Made(env, item))
    ensures Sound(env, Made(env, item)) && Made(env, item).meta.originId == A
  {
  }

  lemma SentTo(src: string, dst: string, c: Clip)
    ensures TcpFrames(src, [dst], Outbound(c, None)) == [Tcp(src, dst, c)]
  {
    assert [dst][1..] == [];
  }

  lemma CopyIsSent(env: Env, item: Item)
    requires HashLaw(env) && LocalItem(env, item) && |item.data| <= MAX_CLIP
    ensures NoRelays(Pair()) && FreshStart(env, Pair(), Idle()) && Room(Idle()) && Enabled(Idle(), Copy(item))
    ensures MadeBy(env, Idle(), Copy(item)) == Some(Made(env, item))
    ensures Next(env, Pair(), Idle(), Copy(item)).frames == [Tcp(A, B, Made(env, item))]
    ensures Fits(Pair(), Next(env, Pair(), Idle(), Copy(item)))
  {
    PairIsForest();
    IdleIsFresh(env);
    MadeIsSound(env, item);
    assert MadeBy(env, Idle(), Copy(item)) == Some(Made(env, item));
    hide Next, Pushed, Simple, Forest, HashLaw, LocalItem, Sound, Made, FreshStart, Room, AtRest, Genuine, Issued,
         Fits, Connected, MadeBy, TcpFrames;
    NextFits(env, Pair(), Idle(), Copy(item));
    GestureFrames(env, Pair(), Idle(), Copy(item));
    SentTo(A, B, Made(env, item));
  }

  lemma NotSentBack(src: string, ingress: string, c: Clip)
    ensures TcpFrames(src, [ingress], Outbound(c, Some(ingress))) == []
  {
    assert [ingress][1..] == [];
  }

  lemma ArrivalIsLast(env: Env, net: Net, c: Clip)
    requires WellFormed(Pair()) && Fits(Pair(), net) && net.frames == [Tcp(A, B, c)]
    ensures Enabled(net, ARRIVAL) && Next(env, Pair(), net, ARRIVAL).frames == []
    ensures Fits(Pair(), Next(env, Pair(), net, ARRIVAL))
  {
    hide Next, Simple, Applied;
    NextFrames(env, Pair(), net, ARRIVAL);
    NextFits(env, Pair(), net, ARRIVAL);
    var sent := SentBy(env, net, ARRIVAL);
    assert sent == [] || sent == [Outbound(c, Some(A))];
    NotSentBack(B, A, c);
    hide TcpFrames;
    assert FanOut(Pair(), B, [Outbound(c, Some(A))]) == TcpFrames(B, [A], Outbound(c, Some(A))) + [];
    assert Kept(net, ARRIVAL) == [];
  }

  lemma RunOfTwo(env: Env, t: Topology, net: Net, e: Event, f: Event)
    requires WellFormed(t) && Fits(t, net) && Enabled(net, e)
    requires var net1 := Next(env, t, net, e);
             Fits(t, net1) && Enabled(net1, f) && Fits(t, Next(env, t, net1, f)) && Room(net) && Room(net1)
    requires Honest(env, e) && Honest(env, f)
    ensures var net1 := Next(env, t, net, e);
            && Run(env, t, net1, [f]) && After(env, t, net1, [f]) == Next(env, t, net1, f)
            && Run(env, t, net, [e, f]) && Steady(env, t, net, [e, f])
            && After(env, t, net, [e, f]) == Next(env, t, net1, f)
  {
    hide Next, Fits, Simple, Enabled, Room, Honest;
    assert [e, f][1..] == [f] && [f][1..] == [];
    var net1 := Next(env, t, net, e);
    assert Run(env, t, Next(env, t, net1, f), []);
    assert Steady(env, t, net1, [f]);
  }

  lemma RoomAfterCopy(env: Env, item: Item)
    requires WellFormed(Pair()) && Fits(Pair(), Idle()) && Enabled(Idle(), Copy(item))
    ensures Room(Next(env, Pair(), Idle(), Copy(item)))
  {
    hide Next, Simple, Fits;
    NextNodes(env, Pair(), Idle(), Copy(item));
  }

  /** All that `ExactlyOnce` assumes of a run of two events, and all that `Converges` assumes. */
  ghost predicate Applies(env: Env, t: Topology, net: Net, e: Event, c: Clip, f: Event, o: string, v: string) {
    && NoRelays(t) && FreshStart(env, t, net) && Room(net) && AtRest(env, net, o) && Issued(net) && Genuine(env, net)
    && Connected(t.peers, o, v) && v != o && Reaches(t, o, v)
    && Lossless([e, f]) && Enabled(net, e) && Passive(f) && Honest(env, e) && e.Push? && e.at == o
    && MadeBy(env, net, e) == Some(c)
    && Run(env, t, Next(env, t, net, e), [f]) && After(env, t, Next(env, t, net, e), [f]).frames == []
    && Run(env, t, net, [e, f]) && Steady(env, t, net, [e, f]) && After(env, t, net, [e, f]).frames == []
  }

  /** Any item within the limit, pushed at a and delivered to b. */
  lemma TheoremsApply(env: Env, item: Item)
    requires HashLaw(env) && LocalItem(env, item) && |item.data| <= MAX_CLIP
    ensures Applies(env, Pair(), Idle(), Copy(item), Made(env, item), ARRIVAL, A, B)
  {
    hide Next, Pushed, Simple, Forest, Made, Room, AtRest, HashLaw, FreshStart, Idle, Pair, Fits, Issued, Genuine,
         LocalItem,
      Connected, Run, After, Steady, MadeBy, Enabled, Lossless;
    PairIsForest();
    IdleIsFresh(env);
    CopyIsSent(env, item);
    ArrivalIsLast(env, Next(env, Pair(), Idle(), Copy(item)), Made(env, item));
    RoomAfterCopy(env, item);
    RunOfTwo(env, Pair(), Idle(), Copy(item), ARRIVAL);
    NothingIsLost(Copy(item));
  }

  lemma NothingIsLost(e: Event)
    requires e.Push?
    ensures Lossless([e, ARRIVAL])
  {
  }
}
