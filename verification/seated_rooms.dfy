/**
 The `/game` directory with the seating repaired: each room remembers the
 color every socket was told, and a newcomer takes the color nobody in the
 room holds. `GameRooms` derives the color from the position in the list, so
 after the white player of a full room leaves, the next joiner is told black
 while the remaining player is black as well (`GameRooms.JoinLeaveScenario`).
 Forgetting the colors, this directory is exactly the one `GameRooms` keeps.
 */
module SeatedRooms {
  import opened Common
  import GameRooms

  type SocketId = GameRooms.SocketId
  type RoomId = GameRooms.RoomId

  /** A socket and the color it was told when it joined. */
  datatype Seat = Seat(sock: SocketId, color: Color)

  type SeatDirectory = map<RoomId, seq<Seat>>

  datatype SeatStep = SeatStep(rooms: SeatDirectory, out: seq<GameRooms.Emit>)

  function Other(c: Color): Color
  {
    if c == White then Black else White
  }

  /** Every listed room holds one or two seats, and two seats never share a
      color. */
  ghost predicate SeatsValid(d: SeatDirectory)
  {
    forall r :: r in d ==>
      && 1 <= |d[r]| <= GameRooms.Capacity
      && (|d[r]| == 2 ==> d[r][0].color != d[r][1].color)
  }

  /** The socket ids of a room, in join order. */
  function Ids(room: seq<Seat>): (ids: seq<SocketId>)
    ensures |ids| == |room|
    ensures forall i :: 0 <= i < |room| ==> ids[i] == room[i].sock
  {
    seq(|room|, i requires 0 <= i < |room| => room[i].sock)
  }

  lemma IdsCons(x: Seat, rest: seq<Seat>)
    ensures Ids([x] + rest) == [x.sock] + Ids(rest)
  {
  }

  lemma IdsSnoc(room: seq<Seat>, x: Seat)
    ensures Ids(room + [x]) == Ids(room) + [x.sock]
  {
  }

  /** `g` is `d` with the colors forgotten: the same rooms, listing the same
      ids in the same order. */
  ghost predicate Mirrors(d: SeatDirectory, g: GameRooms.Directory)
  {
    && (forall r :: r in d <==> r in g)
    && (forall r :: r in d ==> Ids(d[r]) == g[r])
  }

  function SeatMembers(d: SeatDirectory, roomId: RoomId): seq<Seat>
  {
    if roomId in d then d[roomId] else []
  }

  /** The sockets seated in a room. */
  function SeatGroup(d: SeatDirectory, roomId: RoomId): (g: set<SocketId>)
    ensures forall x :: x in g <==> exists i :: 0 <= i < |SeatMembers(d, roomId)| && SeatMembers(d, roomId)[i].sock == x
  {
    set x | x in Ids(SeatMembers(d, roomId))
  }

  lemma MirrorsMembers(d: SeatDirectory, g: GameRooms.Directory, roomId: RoomId)
    requires Mirrors(d, g)
    ensures GameRooms.Members(g, roomId) == Ids(SeatMembers(d, roomId))
    ensures GameRooms.Group(g, roomId) == SeatGroup(d, roomId)
  {
  }

  /** The color no seat of a room of at most one seat holds. */
  function FreeColor(room: seq<Seat>): (c: Color)
    ensures forall i :: 0 <= i < |room| && |room| <= 1 ==> room[i].color != c
  {
    if room == [] then White else Other(room[0].color)
  }

  /** `joinRoom` with the free color: a full room is refused as before;
      otherwise the newcomer is seated after the others with a color none of
      them holds, told that color, and the game starts once two are seated. */
  function JoinSeated(d: SeatDirectory, sock: SocketId, roomId: RoomId): (s: SeatStep)
    ensures |SeatMembers(d, roomId)| >= GameRooms.Capacity ==>
      s == SeatStep(d, [GameRooms.Emit({sock}, GameRooms.RoomFull)])
    ensures |SeatMembers(d, roomId)| < GameRooms.Capacity ==>
      exists c: Color ::
        && (forall i :: 0 <= i < |SeatMembers(d, roomId)| ==> SeatMembers(d, roomId)[i].color != c)
        && roomId in s.rooms
        && s.rooms[roomId] == SeatMembers(d, roomId) + [Seat(sock, c)]
        && |s.out| >= 1
        && s.out[0] == GameRooms.Emit({sock}, GameRooms.Joined(roomId, c))
    ensures forall r :: r != roomId ==> SeatMembers(s.rooms, r) == SeatMembers(d, r)
    ensures GameRooms.Fired(s.out, GameRooms.StartGame) <==> |SeatMembers(d, roomId)| == 1
    ensures |s.out| == (if |SeatMembers(d, roomId)| == 1 then 2 else 1)
    ensures SeatsValid(d) ==> SeatsValid(s.rooms)
  {
    var room := SeatMembers(d, roomId);
    if |room| >= GameRooms.Capacity then
      var out := [GameRooms.Emit({sock}, GameRooms.RoomFull)];
      assert out[0].event != GameRooms.StartGame;
      SeatStep(d, out)
    else
      var c := FreeColor(room);
      var d' := d[roomId := room + [Seat(sock, c)]];
      var joined := [GameRooms.Emit({sock}, GameRooms.Joined(roomId, c))];
      assert joined[0].event != GameRooms.StartGame;
      if |room| == 1 then
        var out := joined + [GameRooms.Emit(SeatGroup(d', roomId), GameRooms.StartGame)];
        assert out[1].event == GameRooms.StartGame;
        SeatStep(d', out)
      else
        SeatStep(d', joined)
  }

  /** The repaired join keeps the server's directory of ids. */
  lemma JoinAgrees(d: SeatDirectory, g: GameRooms.Directory, sock: SocketId, roomId: RoomId)
    requires Mirrors(d, g)
    ensures Mirrors(JoinSeated(d, sock, roomId).rooms, GameRooms.JoinRoom(g, sock, roomId).rooms)
  {
    var room := SeatMembers(d, roomId);
    MirrorsMembers(d, g, roomId);
    if |room| < GameRooms.Capacity {
      IdsSnoc(room, Seat(sock, FreeColor(room)));
    }
  }

  /** The repaired join emits what the server emits except for the color in
      the first record, which agrees too when the room is empty or its one
      seat is white. */
  lemma JoinEmitsAgree(d: SeatDirectory, g: GameRooms.Directory, sock: SocketId, roomId: RoomId)
    requires Mirrors(d, g)
    ensures var s := JoinSeated(d, sock, roomId).out;
      var t := GameRooms.JoinRoom(g, sock, roomId).out;
      && |s| == |t|
      && (forall i :: 1 <= i < |s| ==> s[i] == t[i])
      && (SeatMembers(d, roomId) == [] || SeatMembers(d, roomId)[0].color == White ==> s == t)
  {
    var room := SeatMembers(d, roomId);
    MirrorsMembers(d, g, roomId);
    JoinAgrees(d, g, sock, roomId);
    if |room| == 1 {
      var d' := JoinSeated(d, sock, roomId).rooms;
      var g' := GameRooms.JoinRoom(g, sock, roomId).rooms;
      MirrorsMembers(d', g', roomId);
    }
  }

  /** `sockets.filter(id => id !== sock)` on seats: the colors of the seats
      that stay are kept. */
  function WithoutSeat(room: seq<Seat>, sock: SocketId): (r: seq<Seat>)
    ensures Ids(r) == GameRooms.Without(Ids(room), sock)
    ensures forall i :: 0 <= i < |r| ==> r[i] in room && r[i].sock != sock
    ensures |r| == |room| ==> r == room
    decreases |room|
  {
    if room == [] then []
    else
      var rest := WithoutSeat(room[1..], sock);
      assert room == [room[0]] + room[1..];
      IdsCons(room[0], room[1..]);
      if room[0].sock == sock then rest
      else
        IdsCons(room[0], rest);
        [room[0]] + rest
  }

  /** `disconnect`: the socket's seats are removed, the rooms left empty are
      deleted, and everybody else keeps the color they hold. */
  function DisconnectSeated(d: SeatDirectory, sock: SocketId): (s: SeatStep)
    ensures s.out == []
    ensures forall r :: r in s.rooms ==> r in d && forall i :: 0 <= i < |s.rooms[r]| ==> s.rooms[r][i] in d[r]
    ensures forall r :: r in s.rooms ==> forall i :: 0 <= i < |s.rooms[r]| ==> s.rooms[r][i].sock != sock
    ensures SeatsValid(d) ==> SeatsValid(s.rooms)
  {
    SeatStep(map r | r in d && WithoutSeat(d[r], sock) != [] :: WithoutSeat(d[r], sock), [])
  }

  /** The repaired disconnect keeps the server's directory of ids. */
  lemma DisconnectAgrees(d: SeatDirectory, g: GameRooms.Directory, sock: SocketId)
    requires Mirrors(d, g)
    ensures Mirrors(DisconnectSeated(d, sock).rooms, GameRooms.Disconnect(g, sock).rooms)
  {
  }

  /** `move`, unchanged: it never looks at colors. */
  function RelaySeated(d: SeatDirectory, sock: SocketId, roomId: RoomId, move: string): (s: SeatStep)
    ensures s.rooms == d
    ensures |s.out| == 1 && s.out[0].event == GameRooms.OpponentMove(move)
    ensures forall x :: x in s.out[0].to <==> x in SeatGroup(d, roomId) && x != sock
  {
    SeatStep(d, [GameRooms.Emit(SeatGroup(d, roomId) - {sock}, GameRooms.OpponentMove(move))])
  }

  function HandleSeated(d: SeatDirectory, e: GameRooms.Incoming): (s: SeatStep)
    ensures SeatsValid(d) ==> SeatsValid(s.rooms)
  {
    match e
    case JoinRoomEvent(sock, roomId) => JoinSeated(d, sock, roomId)
    case MoveEvent(sock, roomId, move) => RelaySeated(d, sock, roomId, move)
    case DisconnectEvent(sock) => DisconnectSeated(d, sock)
  }

  function RunSeated(d: SeatDirectory, es: seq<GameRooms.Incoming>): (s: SeatStep)
    ensures SeatsValid(d) ==> SeatsValid(s.rooms)
    decreases |es|
  {
    if es == [] then SeatStep(d, [])
    else
      var first := HandleSeated(d, es[0]);
      var rest := RunSeated(first.rooms, es[1..]);
      SeatStep(rest.rooms, first.out + rest.out)
  }

  /** Along any sequence of events the repaired directory, colors forgotten,
      is the one the server keeps. */
  lemma {:induction false} RunAgrees(d: SeatDirectory, g: GameRooms.Directory, es: seq<GameRooms.Incoming>)
    requires Mirrors(d, g)
    ensures Mirrors(RunSeated(d, es).rooms, GameRooms.Run(g, es).rooms)
    decreases |es|
  {
    if es != [] {
      match es[0] {
        case JoinRoomEvent(sock, roomId) => JoinAgrees(d, g, sock, roomId);
        case MoveEvent(_, _, _) =>
        case DisconnectEvent(sock) => DisconnectAgrees(d, g, sock);
      }
      RunAgrees(HandleSeated(d, es[0]).rooms, GameRooms.Handle(g, es[0]).rooms, es[1..]);
    }
  }

  /** From the empty directory, no two sockets of a room ever hold the same
      color, and the rooms list exactly the ids the server lists. */
  lemma ReachableSeatsDistinct(es: seq<GameRooms.Incoming>)
    ensures SeatsValid(RunSeated(map[], es).rooms)
    ensures Mirrors(RunSeated(map[], es).rooms, GameRooms.Run(map[], es).rooms)
  {
    RunAgrees(map[], map[], es);
  }

  /** The sequence of `GameRooms.JoinLeaveScenario`, repaired: c1 joins r1,
      c2 joins, c3 is refused, c1 leaves and c4 joins. After the white player
      leaves, the newcomer is told white and the game restarts with one player
      of each color. */
  lemma RepairedLateJoin()
    ensures var s1 := JoinSeated(map[], "c1", "r1");
      var s2 := JoinSeated(s1.rooms, "c2", "r1");
      var s3 := JoinSeated(s2.rooms, "c3", "r1");
      var s4 := DisconnectSeated(s3.rooms, "c1");
      var s5 := JoinSeated(s4.rooms, "c4", "r1");
      && s3.out == [GameRooms.Emit({"c3"}, GameRooms.RoomFull)]
      && s4.rooms == map["r1" := [Seat("c2", Black)]]
      && s5.rooms == map["r1" := [Seat("c2", Black), Seat("c4", White)]]
      && s5.out[0] == GameRooms.Emit({"c4"}, GameRooms.Joined("r1", White))
  {
    SeatedFill();
    SeatedFullLeaves();
    SeatedRejoin();
  }

  /** c1 then c2 join the empty room r1: white, then black. */
  lemma SeatedFill()
    ensures JoinSeated(map[], "c1", "r1").rooms == map["r1" := [Seat("c1", White)]]
    ensures JoinSeated(map["r1" := [Seat("c1", White)]], "c2", "r1").rooms
         == map["r1" := [Seat("c1", White), Seat("c2", Black)]]
  {
    assert FreeColor([]) == White;
    assert [] + [Seat("c1", White)] == [Seat("c1", White)];
    assert [Seat("c1", White)] + [Seat("c2", Black)] == [Seat("c1", White), Seat("c2", Black)];
  }

  /** The full room refuses c3 and keeps only c2 once c1 leaves. */
  lemma SeatedFullLeaves()
    ensures var full := map["r1" := [Seat("c1", White), Seat("c2", Black)]];
      && JoinSeated(full, "c3", "r1") == SeatStep(full, [GameRooms.Emit({"c3"}, GameRooms.RoomFull)])
      && DisconnectSeated(full, "c1").rooms == map["r1" := [Seat("c2", Black)]]
  {
    var c1, c2 := Seat("c1", White), Seat("c2", Black);
    assert WithoutSeat([c1, c2], "c1") == [c2] by {
      assert [c1, c2][1..] == [c2];
      assert [c2][1..] == [];
    }
  }

  /** c4 joins r1 while c2 holds black, and is told white. */
  lemma SeatedRejoin()
    ensures var s := JoinSeated(map["r1" := [Seat("c2", Black)]], "c4", "r1");
      && s.rooms == map["r1" := [Seat("c2", Black), Seat("c4", White)]]
      && s.out[0] == GameRooms.Emit({"c4"}, GameRooms.Joined("r1", White))
  {
    var d: SeatDirectory := map["r1" := [Seat("c2", Black)]];
    assert SeatMembers(d, "r1") == [Seat("c2", Black)];
    assert [Seat("c2", Black)] + [Seat("c4", White)] == [Seat("c2", Black), Seat("c4", White)];
  }
}
