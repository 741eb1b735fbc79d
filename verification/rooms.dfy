/**
 * The relay server's room manager: a table from six-digit room codes to
 * rooms of at most two players, the socket.io channels the sockets have
 * joined, and the log of events the server emits. Creating a room draws codes
 * until one is free, joining gives the joiner the creator's opposite colour,
 * moves are relayed to everybody else in the channel, and a disconnect closes
 * the first room, in `Object.entries` order, that lists the socket.
 */
module Rooms {
  import opened JsText

  datatype Player = Player(id: string, color: string)

  datatype Room = Room(players: seq<Player>, turn: string)

  /** The move object a client sends; the server never looks inside it. */
  datatype MovePayload = MovePayload(from: string, to: string, promotion: Option<string>)

  datatype Event =
    | RoomCreated(roomCode: string)
    | ErrorMessage(message: string)
    | StartGame(roomCode: string, players: seq<Player>)
    | MoveEvent(move: MovePayload)
    | OpponentDisconnected

  /** One emit: the sockets it reaches and what they receive. */
  datatype Emission = Emission(to: set<string>, event: Event)

  /** The joiner's colour: black against a white creator, white otherwise. */
  function Opposite(color: string): (r: string)
    ensures r != color
    ensures r == "black" <==> color == "white"
    ensures r == "white" || r == "black"
  {
    if color == "white" then "black" else "white"
  }

  /** Opposite is an involution on the two real colours. */
  lemma OppositeTwice(color: string)
    requires color == "white" || color == "black"
    ensures Opposite(Opposite(color)) == color
  {
  }

  /** The decimal text of an integer from 100000 to 999999. */
  predicate IsRoomCode(code: string)
  {
    exists n :: 100000 <= n <= 999999 && code == NatToString(n)
  }

  /** The code for one random draw: `Math.floor(100000 + Math.random() * 900000)`
      is 100000 plus a draw below 900000, printed in decimal. */
  function CodeOf(draw: nat): string
  {
    NatToString(100000 + draw)
  }

  /** Every draw yields six digits, a valid room code, and different draws
      yield different codes. */
  lemma CodeOfIsRoomCode(draw: nat)
    requires draw < 900000
    ensures IsRoomCode(CodeOf(draw)) && |CodeOf(draw)| == 6
  {
    SixDigits(100000 + draw);
  }

  lemma CodeOfInjective(a: nat, b: nat)
    ensures CodeOf(a) == CodeOf(b) ==> a == b
  {
    NatToStringValue(100000 + a);
    NatToStringValue(100000 + b);
  }

  /** `players.findIndex(p => p.id === id)`: the first position holding the
      socket, or -1 when none does. */
  function FindPlayer(players: seq<Player>, id: string): (r: int)
    ensures -1 <= r < |players|
    ensures r == -1 <==> forall j :: 0 <= j < |players| ==> players[j].id != id
    ensures r >= 0 ==> players[r].id == id && forall j :: 0 <= j < r ==> players[j].id != id
  {
    if |players| == 0 then -1
    else if players[0].id == id then 0
    else
      var t := FindPlayer(players[1..], id);
      assert forall j :: 1 <= j < |players| ==> players[j] == players[1..][j - 1];
      if t == -1 then -1 else t + 1
  }

  /** A room as the server keeps it: one or two players, White to move, and a
      second player always of the creator's opposite colour. */
  predicate RoomShape(room: Room)
  {
    && 1 <= |room.players| <= 2
    && room.turn == "white"
    && (|room.players| == 2 ==> room.players[1].color == Opposite(room.players[0].color))
  }

  predicate WellKeyed(rooms: map<string, Room>)
  {
    forall code :: code in rooms ==> IsRoomCode(code) && RoomShape(rooms[code])
  }

  /** Opening a room with a room code and the right shape keeps the table well
      keyed. */
  lemma WellKeyedAdd(rooms: map<string, Room>, code: string, room: Room)
    requires WellKeyed(rooms) && IsRoomCode(code) && RoomShape(room)
    ensures WellKeyed(rooms[code := room])
  {
  }

  // ---------------------------------------------------------------- joining

  /** How a join request ends. */
  datatype JoinStep = Refused(message: string) | Started(players: seq<Player>) | Throws

  /** Joining, with the room looked up among the table's own entries: an
      unknown code and a full room are refused, anything else starts the game
      with the creator first and the joiner, in the other colour, second. */
  function JoinStepOf(rooms: map<string, Room>, code: string, id: string): (r: JoinStep)
    requires code in rooms ==> 1 <= |rooms[code].players|
    ensures !r.Throws?
    ensures r == Refused("Invalid Room Code") <==> code !in rooms
    ensures r == Refused("Room is full") <==> code in rooms && |rooms[code].players| >= 2
    ensures r.Started? ==>
      && code in rooms && |rooms[code].players| == 1
      && |r.players| == 2
      && r.players[0] == rooms[code].players[0]
      && r.players[1].id == id
      && r.players[1].color != r.players[0].color
      && (r.players[1].color == "black" <==> r.players[0].color == "white")
  {
    if code !in rooms then Refused("Invalid Room Code")
    else
      var room := rooms[code];
      if |room.players| >= 2 then Refused("Room is full")
      else Started([room.players[0], Player(id, Opposite(room.players[0].color))])
  }

  /** Once a room has started, every further join is refused as full. */
  lemma SecondJoinIsRefused(rooms: map<string, Room>, code: string, id: string, other: string)
    requires code in rooms ==> 1 <= |rooms[code].players|
    requires JoinStepOf(rooms, code, id).Started?
    ensures JoinStepOf(rooms[code := Room(JoinStepOf(rooms, code, id).players, "white")], code, other)
            == Refused("Room is full")
  {
  }

  /** The names a plain JavaScript object inherits from `Object.prototype`. */
  const InheritedKeys: set<string> := {
    "constructor", "__proto__", "hasOwnProperty", "isPrototypeOf",
    "propertyIsEnumerable", "toString", "toLocaleString", "valueOf",
    "__defineGetter__", "__defineSetter__", "__lookupGetter__", "__lookupSetter__"
  }

  /** What `rooms[roomCode]` yields on the plain object: an own room, an
      inherited function (truthy, with no `players`), or `undefined`. */
  datatype Lookup = Own(room: Room) | Inherited | Missing

  function LookupAsWritten(rooms: map<string, Room>, key: string): (r: Lookup)
    ensures r.Own? <==> key in rooms
    ensures r.Inherited? <==> key !in rooms && key in InheritedKeys
  {
    if key in rooms then Own(rooms[key])
    else if key in InheritedKeys then Inherited
    else Missing
  }

  /** `join_room` as written: an inherited name passes the `!room` test, and
      reading `.length` of its missing `players` throws a TypeError. */
  function JoinAsWritten(rooms: map<string, Room>, code: string, id: string): JoinStep
    requires code in rooms ==> 1 <= |rooms[code].players|
  {
    match LookupAsWritten(rooms, code)
    case Missing => Refused("Invalid Room Code")
    case Inherited => Throws
    case Own(room) =>
      if |room.players| >= 2 then Refused("Room is full")
      else Started([room.players[0], Player(id, Opposite(room.players[0].color))])
  }

  /** On any room table the server can reach, joining the code "constructor"
      throws instead of answering 'Invalid Room Code'. */
  lemma PrototypeKeyCrashesJoin(rooms: map<string, Room>, id: string)
    requires WellKeyed(rooms)
    ensures JoinAsWritten(rooms, "constructor", id) == Throws
    ensures JoinStepOf(rooms, "constructor", id) == Refused("Invalid Room Code")
  {
  }

  /** Apart from inherited names, the code as written and the corrected join
      agree. */
  lemma JoinAsWrittenAgreesElsewhere(rooms: map<string, Room>, code: string, id: string)
    requires code in rooms ==> 1 <= |rooms[code].players|
    requires code in rooms || code !in InheritedKeys
    ensures JoinAsWritten(rooms, code, id) == JoinStepOf(rooms, code, id)
  {
  }

  // ------------------------------------------------------------- disconnect

  /** Room number n exists and lists the socket. */
  predicate Hosts(rooms: map<string, Room>, id: string, n: nat)
  {
    NatToString(n) in rooms && FindPlayer(rooms[NatToString(n)].players, id) != -1
  }

  /** The number of the first room, from `from` up to 999999, that lists the
      socket. `Object.entries` lists integer-like keys in ascending numeric
      order, and every room code is one. */
  function FirstRoomWith(rooms: map<string, Room>, id: string, from: nat): Option<nat>
    decreases 1000000 - from
  {
    if from > 999999 then None
    else if Hosts(rooms, id, from) then Some(from)
    else FirstRoomWith(rooms, id, from + 1)
  }

  lemma {:induction false} FirstRoomWithIsFirst(rooms: map<string, Room>, id: string, from: nat)
    ensures var r := FirstRoomWith(rooms, id, from);
      && (r.Some? ==> from <= r.value <= 999999 && Hosts(rooms, id, r.value)
                       && forall n :: from <= n < r.value ==> !Hosts(rooms, id, n))
      && (r.None? ==> forall n :: from <= n <= 999999 ==> !Hosts(rooms, id, n))
    decreases 1000000 - from
  {
    if from <= 999999 && !Hosts(rooms, id, from) {
      FirstRoomWithIsFirst(rooms, id, from + 1);
    }
  }

  /** Over a table of room codes, the search finds a room exactly when some
      room lists the socket. */
  lemma FirstRoomWithFindsAny(rooms: map<string, Room>, id: string)
    requires WellKeyed(rooms)
    ensures FirstRoomWith(rooms, id, 100000).None? <==>
            forall code :: code in rooms ==> FindPlayer(rooms[code].players, id) == -1
  {
    FirstRoomWithIsFirst(rooms, id, 100000);
    if FirstRoomWith(rooms, id, 100000).None? {
      forall code | code in rooms
        ensures FindPlayer(rooms[code].players, id) == -1
      {
        var n :| 100000 <= n <= 999999 && code == NatToString(n);
        assert !Hosts(rooms, id, n);
      }
    }
  }

  /** What a disconnect finds on a table of room codes: nothing exactly when no
      room lists the socket, otherwise a room that does, whose removal keeps
      the table well keyed. */
  lemma DisconnectOutcome(rooms: map<string, Room>, id: string)
    requires WellKeyed(rooms)
    ensures var f := FirstRoomWith(rooms, id, 100000);
      && (f.None? <==> forall code :: code in rooms ==> FindPlayer(rooms[code].players, id) == -1)
      && (f.Some? ==> NatToString(f.value) in rooms && FindPlayer(rooms[NatToString(f.value)].players, id) != -1
                      && WellKeyed(rooms - {NatToString(f.value)}))
  {
    FirstRoomWithFindsAny(rooms, id);
    FirstRoomWithIsFirst(rooms, id, 100000);
    var f := FirstRoomWith(rooms, id, 100000);
    if f.Some? {
      var gone := NatToString(f.value);
      forall k | k in rooms - {gone}
        ensures IsRoomCode(k) && RoomShape((rooms - {gone})[k])
      {
        assert k in rooms;
      }
    }
  }

  /** The room a disconnect closes, by its key. */
  function ClosedKey(found: Option<nat>): Option<string>
  {
    match found
    case None => None
    case Some(n) => Some(NatToString(n))
  }

  /** Leaving every channel (socket.io does this before `disconnect` runs). */
  function LeaveAll(channels: map<string, set<string>>, id: string): (r: map<string, set<string>>)
    ensures r.Keys == channels.Keys
    ensures forall code :: code in r ==> id !in r[code] && r[code] + {id} >= channels[code]
  {
    map code | code in channels :: channels[code] - {id}
  }

  // ----------------------------------------------------------------- server

  class RoomServer {
    var rooms: map<string, Room>
    /** socket.io channel membership: the sockets that joined each code. */
    var channels: map<string, set<string>>
    var outbox: seq<Emission>

    predicate Valid()
      reads this
    {
      WellKeyed(rooms)
    }

    function Members(code: string): set<string>
      reads this
    {
      if code in channels then channels[code] else {}
    }

    constructor ()
      ensures Valid()
      ensures rooms == map[] && channels == map[] && outbox == []
    {
      rooms, channels, outbox := map[], map[], [];
    }

    /** `create_room`: draw codes until one is not in use (the draws stand for
        `Math.random`, and one of them must be free), store a room with the
        creator alone in the chosen colour, join its channel and tell the
        creator the code. */
    method CreateRoom(id: string, color: string, draws: seq<nat>) returns (code: string)
      requires Valid()
      requires forall k :: 0 <= k < |draws| ==> draws[k] < 900000
      requires exists k :: 0 <= k < |draws| && CodeOf(draws[k]) !in rooms
      modifies this
      ensures Valid()
      ensures code !in old(rooms) && IsRoomCode(code)
      ensures exists k :: 0 <= k < |draws| && code == CodeOf(draws[k])
                && forall j :: 0 <= j < k ==> CodeOf(draws[j]) in old(rooms)
      ensures rooms == old(rooms)[code := Room([Player(id, color)], "white")]
      ensures channels == old(channels)[code := old(Members(code)) + {id}]
      ensures outbox == old(outbox) + [Emission({id}, RoomCreated(code))]
    {
      ghost var free :| 0 <= free < |draws| && CodeOf(draws[free]) !in rooms;
      var i := 0;
      code := CodeOf(draws[0]);
      while code in rooms
        invariant 0 <= i <= free
        invariant code == CodeOf(draws[i])
        invariant forall j :: 0 <= j < i ==> CodeOf(draws[j]) in rooms
        decreases free - i
      {
        i := i + 1;
        code := CodeOf(draws[i]);
      }
      CodeOfIsRoomCode(draws[i]);
      WellKeyedAdd(rooms, code, Room([Player(id, color)], "white"));
      channels := channels[code := Members(code) + {id}];
      rooms := rooms[code := Room([Player(id, color)], "white")];
      outbox := outbox + [Emission({id}, RoomCreated(code))];
    }

    /** `join_room`, answering exactly as `JoinStepOf` says: an error to the
        sender on refusal; otherwise the joiner is appended, joins the channel,
        and the whole channel hears `start_game`. */
    method JoinRoom(id: string, code: string) returns (step: JoinStep)
      requires Valid()
      modifies this
      ensures Valid()
      ensures step == JoinStepOf(old(rooms), code, id)
      ensures step.Refused? ==>
        && rooms == old(rooms) && channels == old(channels)
        && outbox == old(outbox) + [Emission({id}, ErrorMessage(step.message))]
      ensures step.Started? ==>
        && code in old(rooms)
        && rooms == old(rooms)[code := Room(old(rooms)[code].players + [step.players[1]], "white")]
        && step.players == rooms[code].players
        && channels == old(channels)[code := old(Members(code)) + {id}]
        && outbox == old(outbox) + [Emission(old(Members(code)) + {id}, StartGame(code, step.players))]
    {
      step := JoinStepOf(rooms, code, id);
      if code !in rooms {
        outbox := outbox + [Emission({id}, ErrorMessage("Invalid Room Code"))];
        return;
      }
      var room := rooms[code];
      if |room.players| >= 2 {
        outbox := outbox + [Emission({id}, ErrorMessage("Room is full"))];
        return;
      }
      var creatorColor := room.players[0].color;
      var joinerColor := if creatorColor == "white" then "black" else "white";
      rooms := rooms[code := room.(players := room.players + [Player(id, joinerColor)])];
      channels := channels[code := Members(code) + {id}];
      outbox := outbox + [Emission(Members(code), StartGame(code, [room.players[0], Player(id, joinerColor)]))];
    }

    /** `move`: the payload goes, unchanged, to every other socket in the
        channel and never back to the sender; no room changes. */
    method Relay(id: string, code: string, move: MovePayload)
      modifies this
      ensures rooms == old(rooms) && channels == old(channels)
      ensures outbox == old(outbox) + [Emission(Members(code) - {id}, MoveEvent(move))]
      ensures id !in outbox[|outbox| - 1].to
    {
      outbox := outbox + [Emission(Members(code) - {id}, MoveEvent(move))];
    }

    /** `disconnect`: after the socket has left every channel, walk the rooms
        in key order and close the first one that lists it, telling the rest
        of its channel; if no room lists it, nothing else changes. */
    method Disconnect(id: string) returns (closed: Option<string>)
      requires Valid()
      modifies this
      ensures Valid()
      ensures channels == LeaveAll(old(channels), id)
      ensures closed == ClosedKey(FirstRoomWith(old(rooms), id, 100000))
      ensures closed.None? <==> forall code :: code in old(rooms) ==> FindPlayer(old(rooms)[code].players, id) == -1
      ensures closed.None? ==> rooms == old(rooms) && outbox == old(outbox)
      ensures closed.Some? ==>
        && closed.value in old(rooms)
        && FindPlayer(old(rooms)[closed.value].players, id) != -1
        && rooms == old(rooms) - {closed.value}
        && outbox == old(outbox) + [Emission(Members(closed.value), OpponentDisconnected)]
    {
      channels := LeaveAll(channels, id);
      closed := None;
      var n := 100000;
      while n <= 999999
        invariant 100000 <= n <= 1000000
        invariant FirstRoomWith(rooms, id, n) == FirstRoomWith(rooms, id, 100000)
        invariant rooms == old(rooms) && outbox == old(outbox) && closed.None?
        decreases 1000000 - n
      {
        var code := NatToString(n);
        if code in rooms && FindPlayer(rooms[code].players, id) != -1 {
          outbox := outbox + [Emission(Members(code), OpponentDisconnected)];
          rooms := rooms - {code};
          closed := Some(code);
          break;
        }
        n := n + 1;
      }
      DisconnectOutcome(old(rooms), id);
    }
  }
}
