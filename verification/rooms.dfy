/**
 * The relay's rooms (src/zsyncd.rs): who is a member of a group, what a member is sent, and the
 * life of the sessions that `serve_leaf` runs.
 *
 * A session is named by a number.  `queues` holds the receiving ends that still exist, `stopped`
 * the sessions whose stop channel was signalled.
 */
module Rooms {
  import opened Basics

  const CAPACITY: nat := 16

  /** A room entry; hostname and peer address are only shown to the administrator. */
  datatype Member = Member(deviceId: string, session: nat)

  type Queues = map<nat, seq<Bytes>>

  datatype Relay = Relay(inner: map<string, seq<Member>>, queues: Queues, stopped: set<nat>)

  function Room(inner: map<string, seq<Member>>, group: string): seq<Member> {
    if group in inner then inner[group] else []
  }

  function FirstOf(members: seq<Member>, device: string): (i: nat)
    ensures i <= |members|
    ensures forall j :: 0 <= j < i ==> members[j].deviceId != device
    ensures i < |members| ==> members[i].deviceId == device
  {
    if members == [] || members[0].deviceId == device then 0 else 1 + FirstOf(members[1..], device)
  }

  function RemoveAt(members: seq<Member>, i: nat): seq<Member> {
    if i < |members| then members[..i] + members[i + 1..] else members
  }

  function Others(members: seq<Member>, device: string): seq<Member> {
    if members == [] then [] else
    var last := members[|members| - 1];
    Others(members[..|members| - 1], device) + if last.deviceId == device then [] else [last]
  }

  function Found(members: seq<Member>, device: string): set<nat> {
    var i := FirstOf(members, device);
    if i < |members| then {members[i].session} else {}
  }

  function Joined(s: Relay, group: string, device: string, session: nat): Relay {
    var members := Room(s.inner, group);
    Relay(
      s.inner[group := RemoveAt(members, FirstOf(members, device)) + [Member(device, session)]],
      s.queues[session := []],
      s.stopped + Found(members, device))
  }

  function Left(s: Relay, group: string, device: string): Relay {
    if group !in s.inner then s else
    var rest := Others(s.inner[group], device);
    s.(inner := if rest == [] then s.inner - {group} else s.inner[group := rest])
  }

  function Kicked(s: Relay, group: string, device: string): Relay {
    if group !in s.inner then s else
    var members := s.inner[group];
    s.(inner := s.inner[group := RemoveAt(members, FirstOf(members, device))],
       stopped := s.stopped + Found(members, device))
  }

  function Sessions(members: seq<Member>): set<nat> {
    set m | m in members :: m.session
  }

  function GroupKicked(s: Relay, group: string): Relay {
    s.(inner := s.inner - {group}, stopped := s.stopped + Sessions(Room(s.inner, group)))
  }

  /** `try_send`: refused by a full or closed channel. */
  function TrySend(queues: Queues, session: nat, payload: Bytes): Queues {
    if session in queues && |queues[session]| < CAPACITY
    then queues[session := queues[session] + [payload]] else queues
  }

  function Offered(queues: Queues, members: seq<Member>, from: string, payload: Bytes): Queues {
    if members == [] then queues else
    var last := members[|members| - 1];
    var queues' := Offered(queues, members[..|members| - 1], from, payload);
    if last.deviceId == from then queues' else TrySend(queues', last.session, payload)
  }

  class RoomTable {
    var inner: map<string, seq<Member>>
    var queues: Queues
    var stopped: set<nat>

    ghost function Value(): Relay
      reads this
    {
      Relay(inner, queues, stopped)
    }

    constructor ()
      ensures Value() == Relay(map[], map[], {})
    {
      inner, queues, stopped := map[], map[], {};
    }

    method Find(members: seq<Member>, device: string) returns (i: nat)
      ensures i == FirstOf(members, device)
    {
      i := 0;
      while i < |members| && members[i].deviceId != device
        invariant i <= |members| && forall j :: 0 <= j < i ==> members[j].deviceId != device
      {
        i := i + 1;
      }
    }

    /** A new channel for `session`, and its entry in place of the device's old one. */
    method Join(group: string, device: string, session: nat)
      modifies this
      ensures Value() == Joined(old(Value()), group, device, session)
    {
      var members := if group in inner then inner[group] else [];
      var i := Find(members, device);
      if i < |members| {
        stopped := stopped + {members[i].session};
        members := members[..i] + members[i + 1..];
      }
      inner := inner[group := members + [Member(device, session)]];
      queues := queues[session := []];
    }

    method Leave(group: string, device: string)
      modifies this
      ensures Value() == Left(old(Value()), group, device)
    {
      if group in inner {
        var members, kept := inner[group], [];
        for i := 0 to |members|
          invariant kept == Others(members[..i], device)
          invariant Value() == old(Value())
        {
          assert members[..i + 1][..i] == members[..i];
          if members[i].deviceId != device {
            kept := kept + [members[i]];
          }
        }
        assert members[..|members|] == members;
        if kept == [] {
          inner := inner - {group};
        } else {
          inner := inner[group := kept];
        }
      }
    }

    method Broadcast(group: string, from: string, payload: Bytes)
      modifies this`queues
      ensures Value() == old(Value()).(queues := Offered(old(queues), Room(inner, group), from, payload))
    {
      if group !in inner {
        return;
      }
      var members := inner[group];
      for i := 0 to |members|
        invariant queues == Offered(old(queues), members[..i], from, payload)
      {
        assert members[..i + 1][..i] == members[..i];
        if members[i].deviceId != from {
          var session := members[i].session;
          if session in queues && |queues[session]| < CAPACITY {
            queues := queues[session := queues[session] + [payload]];
          }
        }
      }
      assert members[..|members|] == members;
    }

    method Kick(group: string, device: string) returns (found: bool)
      modifies this
      ensures Value() == Kicked(old(Value()), group, device)
      ensures found <==> exists m :: m in Room(old(inner), group) && m.deviceId == device
    {
      if group !in inner {
        return false;
      }
      var members := inner[group];
      var i := Find(members, device);
      if i < |members| {
        stopped := stopped + {members[i].session};
        inner := inner[group := members[..i] + members[i + 1..]];
        assert members[i] in members;
        return true;
      }
      inner := inner[group := members];
      return false;
    }

    method KickGroup(group: string)
      modifies this
      ensures Value() == GroupKicked(old(Value()), group)
    {
      if group in inner {
        stopped := stopped + set m | m in inner[group] :: m.session;
        inner := inner - {group};
      }
    }
  }
}
