/**
 * The two history tables of a hub (src/suppress.rs).
 *
 * Each table is specified by the plain list of everything that was ever put into it; the
 * classes below keep the bounded structures of the source and are proved to answer exactly
 * as that list does.  A clock reading is a parameter, and one operation reads it once.
 */
module Tables {
  import opened Basics

  datatype Added = Added(hash: string, at: int)

  datatype Presented = Presented(origin: string, seqno: u64)

  /** What `Suppress.has` means: the hash was added within `ttl`, or is among the last `max` adds. */
  ghost predicate Suppressed(adds: seq<Added>, ttl: nat, max: nat, hash: string, now: int) {
    && hash != ""
    && exists i :: 0 <= i < |adds| && adds[i].hash == hash
                   && (now - adds[i].at <= ttl || |adds| - max <= i)
  }

  function Recorded(adds: seq<Added>, hash: string, now: int): seq<Added> {
    if hash == "" then adds else adds + [Added(hash, now)]
  }

  /** No reading of the clock so far is later than `now`. */
  ghost predicate ClockAt(adds: seq<Added>, now: int) {
    forall a :: a in adds ==> a.at <= now
  }

  ghost predicate IsSuffix(ring: seq<string>, adds: seq<Added>) {
    && |ring| <= |adds|
    && forall i :: |adds| - |ring| <= i < |adds| ==> adds[i].hash == ring[i - (|adds| - |ring|)]
  }

  lemma SuffixAfterPush(ring: seq<string>, adds: seq<Added>, hash: string, now: int)
    requires IsSuffix(ring, adds)
    ensures IsSuffix(ring + [hash], adds + [Added(hash, now)])
  {
  }

  lemma SuffixAfterPop(ring: seq<string>, adds: seq<Added>)
    requires IsSuffix(ring, adds) && ring != []
    ensures IsSuffix(ring[1..], adds)
  {
  }

  /**
   * `items` holds the latest time of every hash it knows, and a hash it does not know was
   * last added more than `ttl` before `now`.  Such a hash may still be in the ring.
   */
  ghost predicate Agree(items: map<string, int>, adds: seq<Added>, ttl: nat, now: int) {
    && (forall h :: h in items ==> Added(h, items[h]) in adds)
    && (forall a :: a in adds && a.hash in items ==> a.at <= items[a.hash])
    && (forall a :: a in adds && a.hash !in items ==> now - a.at > ttl)
  }

  lemma AgreeAfterInsert(items: map<string, int>, adds: seq<Added>, ttl: nat, before: int, hash: string, now: int)
    requires adds != [] ==> Agree(items, adds, ttl, before) && before <= now
    requires adds == [] ==> items == map[]
    requires ClockAt(adds, now)
    ensures Agree(items[hash := now], adds + [Added(hash, now)], ttl, now)
  {
    var items', adds' := items[hash := now], adds + [Added(hash, now)];
    assert adds'[|adds|] == Added(hash, now);
    forall a | a in adds'
      ensures a.hash in items' ==> a.at <= items'[a.hash]
      ensures a.hash !in items' ==> now - a.at > ttl
    {
      assert a in adds || a == Added(hash, now);
    }
    forall h | h in items'
      ensures Added(h, items'[h]) in adds'
    {
      if h != hash {
        assert Added(h, items[h]) in adds;
      }
    }
  }

  /** Forgetting entries older than `ttl` keeps the agreement; `add` does so in its loop and in `gc`. */
  lemma AgreeAfterExpiry(items: map<string, int>, kept: map<string, int>, adds: seq<Added>, ttl: nat, now: int)
    requires Agree(items, adds, ttl, now)
    requires forall h :: h in kept ==> h in items && kept[h] == items[h]
    requires forall h :: h in items && h !in kept ==> now - items[h] > ttl
    ensures Agree(kept, adds, ttl, now)
  {
    forall a | a in adds && a.hash !in kept
      ensures now - a.at > ttl
    {
      if a.hash in items {
        assert a.at <= items[a.hash];
      }
    }
  }

  lemma ClockAfterAdd(adds: seq<Added>, hash: string, now: int)
    requires ClockAt(adds, now)
    ensures ClockAt(adds + [Added(hash, now)], now)
    ensures adds != [] ==> adds[|adds| - 1].at <= now
  {
  }

  /** The entries left when those of `evicted` hashes are forgotten, if older than `ttl`. */
  function Unexpired(items: map<string, int>, evicted: seq<string>, ttl: nat, now: int): map<string, int> {
    map h | h in items && !(h in evicted && now - items[h] > ttl) :: items[h]
  }

  class Suppress {
    const ttl: nat
    const max: nat
    var items: map<string, int>
    var ring: seq<string>
    ghost var adds: seq<Added>

    ghost predicate Valid()
      reads this
    {
      && 8 <= max
      && |ring| == (if |adds| < max then |adds| else max)
      && IsSuffix(ring, adds)
      && (adds != [] ==> Agree(items, adds, ttl, adds[|adds| - 1].at))
      && (adds == [] ==> items == map[])
    }

    constructor (ttl: nat, max: nat)
      ensures Valid() && adds == []
      ensures this.ttl == ttl && this.max == if max < 8 then 8 else max
    {
      this.ttl := ttl;
      this.max := if max < 8 then 8 else max;
      items, ring := map[], [];
      adds := [];
    }

    method Add(hash: string, now: int)
      requires Valid() && ClockAt(adds, now)
      modifies this
      ensures Valid() && ClockAt(adds, now)
      ensures adds == Recorded(old(adds), hash, now)
    {
      if hash == "" {
        return;
      }
      ghost var before := if adds == [] then now else adds[|adds| - 1].at;
      ClockAfterAdd(adds, hash, now);
      hide Agree, IsSuffix, ClockAt;
      SuffixAfterPush(ring, adds, hash, now);
      AgreeAfterInsert(items, adds, ttl, before, hash, now);
      items, ring, adds := items[hash := now], ring + [hash], adds + [Added(hash, now)];
      Evict(now);
      assert adds != [] && adds[|adds| - 1].at == now;
      Gc(now);
      assert Agree(items, adds, ttl, adds[|adds| - 1].at);
    }

    method Has(hash: string, now: int) returns (found: bool)
      requires Valid() && ClockAt(adds, now)
      ensures found <==> Suppressed(adds, ttl, max, hash, now)
    {
      if hash == "" {
        return false;
      }
      if hash in items {
        if now - items[hash] <= ttl {
          assert Added(hash, items[hash]) in adds;
          return true;
        }
      }
      found := hash in ring;
      assert forall i :: |adds| - |ring| <= i < |adds| ==> adds[i].hash in ring;
      assert forall i :: 0 <= i < |adds| ==> adds[i] in adds;
      if found {
        var k :| 0 <= k < |ring| && ring[k] == hash;
        assert adds[|adds| - |ring| + k].hash == hash;
      } else if Suppressed(adds, ttl, max, hash, now) {
        var i :| 0 <= i < |adds| && adds[i].hash == hash && (now - adds[i].at <= ttl || |adds| - max <= i);
        assert false;
      }
    }

    /** The eviction loop of `add`. */
    method Evict(now: int)
      requires |ring| <= |adds| && IsSuffix(ring, adds) && Agree(items, adds, ttl, now)
      requires |ring| >= (if |adds| < max then |adds| else max)
      modifies this`items, this`ring
      ensures IsSuffix(ring, adds) && Agree(items, adds, ttl, now)
      ensures |ring| == (if |adds| < max then |adds| else max) <= |old(ring)|
      ensures var evicted := |old(ring)| - |ring|;
              ring == old(ring)[evicted..] && items == Unexpired(old(items), old(ring)[..evicted], ttl, now)
    {
      hide Agree, IsSuffix;
      ghost var evicted := 0;
      while |ring| > max
        invariant evicted == |old(ring)| - |ring| <= |old(ring)| && ring == old(ring)[evicted..]
        invariant items == Unexpired(old(items), old(ring)[..evicted], ttl, now)
        invariant |ring| <= |adds| && IsSuffix(ring, adds)
        invariant |ring| <= old(|ring|) && |ring| >= (if |adds| < max then |adds| else max)
        invariant Agree(items, adds, ttl, now)
      {
        var oldest := ring[0];
        SuffixAfterPop(ring, adds);
        ring := ring[1..];
        assert old(ring)[..evicted + 1] == old(ring)[..evicted] + [oldest];
        evicted := evicted + 1;
        if oldest in items {
          if now - items[oldest] > ttl {
            var kept := map h | h in items && h != oldest :: items[h];
            AgreeAfterExpiry(items, kept, adds, ttl, now);
            items := kept;
          }
        }
      }
    }

    method Gc(now: int)
      requires Agree(items, adds, ttl, now)
      modifies this`items
      ensures Agree(items, adds, ttl, now)
      ensures items == map h | h in old(items) && (now - old(items)[h] <= ttl || h in ring) :: old(items)[h]
    {
      var inRing := set h | h in ring;
      var kept := map h | h in items && (now - items[h] <= ttl || h in inRing) :: items[h];
      AgreeAfterExpiry(items, kept, adds, ttl, now);
      items := kept;
    }
  }

  /** What `SeenSeq.accept` answers: the number exceeds every one presented before for that origin. */
  ghost predicate Fresh(presented: seq<Presented>, origin: string, seqno: u64) {
    forall i :: 0 <= i < |presented| && presented[i].origin == origin ==> presented[i].seqno < seqno
  }

  class SeenSeq {
    var last: map<string, u64>
    ghost var presented: seq<Presented>

    ghost predicate Valid()
      reads this
    {
      && (forall i :: 0 <= i < |presented| ==>
            presented[i].origin in last && presented[i].seqno <= last[presented[i].origin])
      && (forall o :: o in last ==> Presented(o, last[o]) in presented)
    }

    constructor ()
      ensures Valid() && presented == []
    {
      last := map[];
      presented := [];
    }

    method Accept(origin: string, seqno: u64) returns (accepted: bool)
      requires Valid()
      modifies this
      ensures Valid()
      ensures accepted <==> Fresh(old(presented), origin, seqno)
      ensures presented == old(presented) + [Presented(origin, seqno)]
    {
      presented := presented + [Presented(origin, seqno)];
      if origin in last && seqno <= last[origin] {
        assert Presented(origin, last[origin]) in old(presented);
        accepted := false;
      } else {
        last := last[origin := seqno];
        accepted := true;
        forall o | o in last
          ensures Presented(o, last[o]) in presented
        {
          assert o == origin ==> presented[|presented| - 1] == Presented(o, last[o]);
        }
      }
    }
  }
}
