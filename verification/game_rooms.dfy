/**
 The `/game` namespace of the relay server: a process-wide directory from room
 id to the ordered list of socket ids seated in it, and the `joinRoom`, `move`
 and `disconnect` handlers acting on it. Each handler is a pure transition from
 the directory and the incoming event to the new directory and the events the
 server emits, each addressed to a set of socket ids.
 */
module GameRooms {
  import opened Common

  type SocketId = string
  type RoomId = string

  /** The `rooms` record: room id to the socket ids in join order. */
  type Directory = map<RoomId, seq<SocketId>>

  /** A room admits this many sockets. */
  const Capacity: nat := 2

  /** Events the server emits on the `/game` namespace. */
  datatype GameEvent =
    | Joined(roomId: RoomId, color: Color)
    | RoomFull
    | StartGame
    | OpponentMove(move: string)

  /** One emitted event and the sockets it is delivered to. */
  datatype Emit = Emit(to: set<SocketId>, event: GameEvent)

  /** The directory after a handler, and what the handler emitted, in order. */
  datatype Step = Step(rooms: Directory, out: seq<Emit>)

  /** Every listed room holds one or two sockets. */
  ghost predicate Valid(d: Directory)
  {
    forall r :: r in d ==> 1 <= |d[r]| <= Capacity
  }

  /** `rooms[roomId] || []`: an absent room reads as an empty list. */
  function Members(d: Directory, roomId: RoomId): seq<SocketId>
  {
    if roomId in d then d[roomId] else []
  }

  /** The Socket.IO room `roomId`: the sockets that joined it and are still
      connected, which are the ids listed for it. */
  function Group(d: Directory, roomId: RoomId): set<SocketId>
  {
    set x | x in Members(d, roomId)
  }

  /** Some emitted record carries `ev`. */
  predicate Fired(out: seq<Emit>, ev: GameEvent)
  {
    exists i :: 0 <= i < |out| && out[i].event == ev
  }

  /** The color of the socket at position `seat` of a room's list. */
  function SeatColor(seat: nat): Color
  {
    if seat == 0 then White else Black
  }

  /** `joinRoom`: a full room answers `roomFull` to the requester only and
      changes nothing; otherwise the socket is appended, told its color, and
      `startGame` goes to the whole room once it holds two sockets. */
  function JoinRoom(d: Directory, sock: SocketId, roomId: RoomId): (s: Step)
    ensures |Members(d, roomId)| >= Capacity ==> s == Step(d, [Emit({sock}, RoomFull)])
    ensures |Members(d, roomId)| < Capacity ==>
      && roomId in s.rooms
      && s.rooms[roomId] == Members(d, roomId) + [sock]
      && |s.out| >= 1
      && s.out[0] == Emit({sock}, Joined(roomId, SeatColor(|s.rooms[roomId]| - 1)))
    ensures forall r :: r != roomId ==> Members(s.rooms, r) == Members(d, r)
    ensures s.rooms.Keys == d.Keys || s.rooms.Keys == d.Keys + {roomId}
    ensures Fired(s.out, StartGame) <==> |Members(d, roomId)| == 1
    ensures Fired(s.out, StartGame) ==>
      |s.out| == 2 && s.out[1] == Emit(Group(s.rooms, roomId), StartGame) && sock in s.out[1].to
    ensures Fired(s.out, RoomFull) <==> |Members(d, roomId)| >= Capacity
    ensures |s.out| == (if |Members(d, roomId)| == 1 then 2 else 1)
    ensures Valid(d) ==> Valid(s.rooms)
  {
    var room := Members(d, roomId);
    if |room| >= Capacity then
      var out := [Emit({sock}, RoomFull)];
      assert out[0].event == RoomFull;
      Step(d, out)
    else
      var room' := room + [sock];
      var d' := d[roomId := room'];
      var color := if |room'| == 1 then White else Black;
      var joined := [Emit({sock}, Joined(roomId, color))];
      if |room'| == 2 then
        var out := joined + [Emit(Group(d', roomId), StartGame)];
        assert sock in Group(d', roomId);
        assert out[1].event == StartGame;
        Step(d', out)
      else
        Step(d', joined)
  }

  /** `move`: the payload goes unchanged to the other sockets of the room, the
      sender excluded, and the directory is untouched. A room with nobody else
      in it gives an empty recipient set. */
  function RelayMove(d: Directory, sock: SocketId, roomId: RoomId, move: string): (s: Step)
    ensures s.rooms == d
    ensures |s.out| == 1 && s.out[0].event == OpponentMove(move)
    ensures forall x :: x in s.out[0].to <==> x in Members(d, roomId) && x != sock
  {
    Step(d, [Emit(Group(d, roomId) - {sock}, OpponentMove(move))])
  }

  /** `sockets.filter(id => id !== sock)`. */
  function Without(s: seq<SocketId>, sock: SocketId): (r: seq<SocketId>)
    ensures forall x :: x in r <==> x in s && x != sock
    ensures |r| <= |s|
    ensures r == [] <==> forall i :: 0 <= i < |s| ==> s[i] == sock
    decreases |s|
  {
    if s == [] then []
    else
      var rest := Without(s[1..], sock);
      assert s == [s[0]] + s[1..];
      if s[0] == sock then rest else [s[0]] + rest
  }

  /** Filtering drops every copy of `sock` and keeps every other entry as
      often as it occurs. */
  lemma {:induction false} WithoutCounts(s: seq<SocketId>, sock: SocketId)
    ensures multiset(Without(s, sock)) == multiset(s)[sock := 0]
    decreases |s|
  {
    if s != [] {
      WithoutCounts(s[1..], sock);
      assert s == [s[0]] + s[1..];
      assert multiset(s) == multiset{s[0]} + multiset(s[1..]);
      if s[0] != sock {
        var rest := Without(s[1..], sock);
        assert multiset([s[0]] + rest) == multiset{s[0]} + multiset(rest);
      }
    }
  }

  /** `a` is `b` with some entries dropped, the rest kept in order. */
  predicate IsSubsequence(a: seq<SocketId>, b: seq<SocketId>)
    decreases |b|
  {
    if b == [] then a == []
    else (a != [] && a[0] == b[0] && IsSubsequence(a[1..], b[1..])) || IsSubsequence(a, b[1..])
  }

  /** Filtering keeps the remaining ids in their relative order. */
  lemma {:induction false} WithoutKeepsOrder(s: seq<SocketId>, sock: SocketId)
    ensures IsSubsequence(Without(s, sock), s)
    decreases |s|
  {
    if s != [] {
      WithoutKeepsOrder(s[1..], sock);
      var rest := Without(s[1..], sock);
      if s[0] != sock {
        assert Without(s, sock) == [s[0]] + rest;
        assert ([s[0]] + rest)[1..] == rest;
      }
    }
  }

  /** `disconnect`: the socket is filtered out of every room and the rooms left
      empty are deleted; nothing is emitted. */
  function Disconnect(d: Directory, sock: SocketId): (s: Step)
    ensures s.out == []
    ensures forall r :: r in s.rooms ==> sock !in s.rooms[r] && s.rooms[r] != []
    ensures forall r :: r in s.rooms <==> r in d && exists i :: 0 <= i < |d[r]| && d[r][i] != sock
    ensures Valid(d) ==> Valid(s.rooms)
  {
    Step(map r | r in d && Without(d[r], sock) != [] :: Without(d[r], sock), [])
  }

  /** After a disconnect every remaining room keeps each other socket exactly
      as often as it was listed. */
  lemma DisconnectCounts(d: Directory, sock: SocketId, r: RoomId)
    requires r in Disconnect(d, sock).rooms
    ensures multiset(Disconnect(d, sock).rooms[r]) == multiset(d[r])[sock := 0]
  {
    WithoutCounts(d[r], sock);
  }

  /** After a disconnect every remaining room lists its other sockets in the
      order they joined. */
  lemma DisconnectKeepsOrder(d: Directory, sock: SocketId, r: RoomId)
    requires r in Disconnect(d, sock).rooms
    ensures IsSubsequence(Disconnect(d, sock).rooms[r], d[r])
  {
    WithoutKeepsOrder(d[r], sock);
  }

  /** Room `k` of `d` has been cleaned of `sock` in `rooms`: kept with the
      filtered list when that is non-empty, deleted otherwise. */
  predicate Cleaned(d: Directory, rooms: Directory, sock: SocketId, k: RoomId)
    requires k in d
  {
    var kept := Without(d[k], sock);
    if kept == [] then k !in rooms else k in rooms && rooms[k] == kept
  }

  /** The `for … of Object.entries(rooms)` loop of the `disconnect` handler,
      visiting the rooms one at a time, computes the same directory. */
  method DisconnectScan(d: Directory, sock: SocketId) returns (rooms: Directory)
    ensures rooms == Disconnect(d, sock).rooms
  {
    rooms := d;
    var pending := d.Keys;
    while pending != {}
      invariant pending <= d.Keys
      invariant rooms.Keys <= d.Keys
      invariant forall k :: k in pending ==> k in rooms && rooms[k] == d[k]
      invariant forall k :: k in d && k !in pending ==> Cleaned(d, rooms, sock, k)
      decreases pending
    {
      var k :| k in pending;
      var kept := Without(rooms[k], sock);
      var next := if |kept| == 0 then rooms - {k} else rooms[k := kept];
      forall j | j in d && j !in pending - {k}
        ensures Cleaned(d, next, sock, j)
      {
        if j != k {
          assert Cleaned(d, rooms, sock, j);
          assert j in next <==> j in rooms;
        }
      }
      rooms := next;
      pending := pending - {k};
    }
    var expected := Disconnect(d, sock).rooms;
    forall k | k in d
      ensures k in rooms <==> k in expected
      ensures k in rooms ==> rooms[k] == expected[k]
    {
      assert Cleaned(d, rooms, sock, k);
    }
    assert rooms.Keys == expected.Keys;
  }

  /** What a client of `/game` can send, and transport-level connection loss. */
  datatype Incoming =
    | JoinRoomEvent(sock: SocketId, roomId: RoomId)
    | MoveEvent(sock: SocketId, roomId: RoomId, move: string)
    | DisconnectEvent(sock: SocketId)

  function Handle(d: Directory, e: Incoming): (s: Step)
    ensures Valid(d) ==> Valid(s.rooms)
  {
    match e
    case JoinRoomEvent(sock, roomId) => JoinRoom(d, sock, roomId)
    case MoveEvent(sock, roomId, move) => RelayMove(d, sock, roomId, move)
    case DisconnectEvent(sock) => Disconnect(d, sock)
  }

  /** Events handled one at a time, as Node delivers them: the final directory
      and everything emitted along the way. */
  function Run(d: Directory, es: seq<Incoming>): (s: Step)
    ensures Valid(d) ==> Valid(s.rooms)
    decreases |es|
  {
    if es == [] then Step(d, [])
    else
      var first := Handle(d, es[0]);
      var rest := Run(first.rooms, es[1..]);
      Step(rest.rooms, first.out + rest.out)
  }

  /** From the empty directory the server starts with, every room holds one
      or two sockets after any sequence of events. */
  lemma ReachableValid(es: seq<Incoming>)
    ensures Valid(Run(map[], es).rooms)
  {
  }

  /** The same socket may join a fresh room twice: it takes both seats and the
      game starts with it alone as recipient. */
  lemma SameSocketBothSeats(d: Directory, sock: SocketId, roomId: RoomId)
    requires roomId !in d
    ensures JoinRoom(d, sock, roomId).out == [Emit({sock}, Joined(roomId, White))]
    ensures var s := JoinRoom(JoinRoom(d, sock, roomId).rooms, sock, roomId);
      && s.rooms[roomId] == [sock, sock]
      && s.out == [Emit({sock}, Joined(roomId, Black)), Emit({sock}, StartGame)]
  {
    var s1 := JoinRoom(d, sock, roomId);
    var s2 := JoinRoom(s1.rooms, sock, roomId);
    assert Group(s2.rooms, roomId) == {sock};
  }

  lemma ScenarioFirstJoin()
    ensures JoinRoom(map[], "c1", "r1") == Step(map["r1" := ["c1"]], [Emit({"c1"}, Joined("r1", White))])
  {
    var empty: Directory := map[];
    assert Members(empty, "r1") == [];
    assert [] + ["c1"] == ["c1"];
  }

  /** A second socket joining a room of one: it is told black and the game
      starts for both. */
  lemma SecondJoin(first: SocketId, second: SocketId, roomId: RoomId)
    requires first != second
    ensures JoinRoom(map[roomId := [first]], second, roomId)
         == Step(map[roomId := [first, second]],
                 [Emit({second}, Joined(roomId, Black)), Emit({first, second}, StartGame)])
  {
    var d: Directory := map[roomId := [first]];
    assert Members(d, roomId) == [first];
    assert [first] + [second] == [first, second];
    assert Group(d[roomId := [first, second]], roomId) == {first, second};
  }

  lemma ScenarioFirstLeaves()
    ensures Disconnect(map["r1" := ["c1", "c2"]], "c1") == Step(map["r1" := ["c2"]], [])
  {
    assert Without(["c1", "c2"], "c1") == ["c2"];
  }

  /** Two sockets join `r1`, a third is turned away, the first (white)
      disconnects and a fourth joins: the fourth is seated second and told
      black, although the socket still in the room was told black when it
      joined, so both players of the restarted game are black. */
  lemma JoinLeaveScenario()
    ensures var s1 := JoinRoom(map[], "c1", "r1");
      var s2 := JoinRoom(s1.rooms, "c2", "r1");
      var s3 := JoinRoom(s2.rooms, "c3", "r1");
      var s4 := Disconnect(s3.rooms, "c1");
      var s5 := JoinRoom(s4.rooms, "c4", "r1");
      && s1.out == [Emit({"c1"}, Joined("r1", White))]
      && s2.out == [Emit({"c2"}, Joined("r1", Black)), Emit({"c1", "c2"}, StartGame)]
      && s3.out == [Emit({"c3"}, RoomFull)] && s3.rooms == s2.rooms
      && s4.rooms == map["r1" := ["c2"]]
      && s5.out == [Emit({"c4"}, Joined("r1", Black)), Emit({"c2", "c4"}, StartGame)]
  {
    ScenarioFirstJoin();
    SecondJoin("c1", "c2", "r1");
    var full: Directory := map["r1" := ["c1", "c2"]];
    assert |Members(full, "r1")| == 2;
    ScenarioFirstLeaves();
    SecondJoin("c2", "c4", "r1");
  }
}
