/** The room request handlers of a non-club server. Wire decoding and sending are not
    modelled: a handler receives the decoded fields (an absent enum value is `None`) and the
    facts it would look up elsewhere (the server kind, the player's level), and returns the
    result code it would send, if any. */
module RoomMessages {
  import opened Wrappers
  import opened RoomModes
  import opened Rooms
  import opened Sequences
  import opened RoomRegistry
  import opened ResultCodes

  const MaxRoomNameLength: nat := 30
  const MaxRoomPasswordLength: nat := 4
  const MaxRoomLevel := 60
  const MinRoomLevel := 1

  /** The longest prefix of `s` that has at most `n` characters. */
  function Truncate(s: string, n: nat): (r: string)
    ensures |r| == if |s| <= n then |s| else n
    ensures r == s[..|r|]
  {
    if |s| > n then s[..n] else s
  }

  /** The access type a room is given: PASSWORD with an empty password becomes FREE. */
  function EffectiveAccess(access: AccessType, password: string): (r: AccessType)
    ensures r == Password ==> password != []
    ensures access != Password ==> r == access
    ensures r == Free <==> access == Free || (access == Password && password == [])
  {
    if access == Password && password == [] then Free else access
  }

  // ---------------------------------------------------------------------------------------
  // createRoom

  /** A decoded room-creation request. */
  datatype CreateRequest = CreateRequest(
    access: Option<AccessType>, name: string, password: string, mode: Option<RoomMode>,
    minLevel: int, maxLevel: int, roomMap: Option<RoomMap>, ball: Option<RoomBall>,
    maxSize: Option<RoomSize>)

  /** Every setting of the request decoded, and its mode one this server hosts. */
  predicate CreateSettingsKnown(req: CreateRequest, server: ServerType) {
    && req.maxSize.Some? && req.access.Some? && req.roomMap.Some? && req.ball.Some?
    && req.mode.Some? && req.mode.value.IsValidForServer(server)
  }

  /** The creation checks in the order they are made: level bounds (-3), missing or invalid
      settings (-1), the creator's own level (-4). */
  function CreateChecks(req: CreateRequest, server: ServerType, playerLevel: int): seq<Check> {
    [ Check(MinRoomLevel <= req.minLevel && req.maxLevel <= MaxRoomLevel, -3),
      Check(CreateSettingsKnown(req, server), -1),
      Check(req.minLevel <= playerLevel <= req.maxLevel, -4) ]
  }

  /** The result code of a creation request. */
  function CreateRoomResult(req: CreateRequest, server: ServerType, playerLevel: int): (r: int)
    ensures r == 0 <==> && MinRoomLevel <= req.minLevel && req.maxLevel <= MaxRoomLevel
                        && CreateSettingsKnown(req, server)
                        && req.minLevel <= playerLevel <= req.maxLevel
  {
    if req.minLevel < MinRoomLevel || req.maxLevel > MaxRoomLevel then -3
    else if req.maxSize == None || req.access == None || req.roomMap == None || req.ball == None ||
            req.mode == None || req.mode.value.NotValidForServer(server) then -1
    else if playerLevel < req.minLevel || playerLevel > req.maxLevel then -4
    else 0
  }

  /** The creation code is the code of the first failing check, in the order listed. */
  lemma CreateRoomResultOrder(req: CreateRequest, server: ServerType, playerLevel: int)
    ensures CreateRoomResult(req, server, playerLevel) == FirstFailure(CreateChecks(req, server, playerLevel))
  {
    var cs := CreateChecks(req, server, playerLevel);
    assert cs[3..] == [];
    FirstFailureFrom(cs, 2);
    FirstFailureFrom(cs, 1);
    FirstFailureFrom(cs, 0);
    assert cs[0..] == cs;
  }

  /** Creates a room for a player who is in no room. The reply is the result code; the room
      is created, filed under the smallest free id and joined by its creator only on 0. */
  method CreateRoom(rm: RoomManager, sessionRoomId: int, playerId: int, req: CreateRequest,
                    server: ServerType, playerLevel: int, team: RoomTeam)
    returns (reply: Option<int>, created: Option<Room>)
    requires rm.Valid() && rm.RoomsValid()
    modifies rm
    ensures rm.Valid() && rm.RoomsValid()
    ensures sessionRoomId > 0 ==> reply == None
    ensures sessionRoomId <= 0 ==> reply == Some(CreateRoomResult(req, server, playerLevel))
    ensures created.Some? <==> reply == Some(0)
    ensures created.None? ==> rm.rooms == old(rm.rooms)
    ensures created.Some? ==>
              var room: Room := created.value;
              && fresh(room)
              && IsSmallestMissing(old(rm.rooms).Keys, room.id)
              && rm.rooms == old(rm.rooms)[room.id := room]
              && room.name == Truncate(req.name, MaxRoomNameLength)
              && room.password == Truncate(req.password, MaxRoomPasswordLength)
              && room.accessType == EffectiveAccess(req.access.value, room.password)
              && room.mode == req.mode.value && room.roomMap == req.roomMap.value
              && room.minLevel == req.minLevel && room.maxLevel == req.maxLevel
              && room.ball == req.ball.value && room.maxSize == req.maxSize.value
              && !room.isClub && room.state == Waiting && room.confirmed == []
              && room.players == {playerId} && room.master == playerId && room.host == playerId
              && room.teams == map[playerId := team] && room.swapLocked == {} && room.timeStart == 0
  {
    reply, created := None, None;
    if sessionRoomId <= 0 {
      var result := CreateRoomResult(req, server, playerLevel);
      reply := Some(result);
      if result == 0 {
        var name, password, access := req.name, req.password, req.access.value;
        if |name| > MaxRoomNameLength {
          name := name[..MaxRoomNameLength];
        }
        if |password| > MaxRoomPasswordLength {
          password := password[..MaxRoomPasswordLength];
        }
        if access == Password && password == [] {
          access := Free;
        }
        var id := rm.GetSmallestMissingIndex();
        var room := new Room(id, false, name, password, access, req.mode.value, req.minLevel,
                             req.maxLevel, req.roomMap.value, req.ball.value, req.maxSize.value);
        rm.AddRoom(room);
        room.AddPlayer(playerId, team);
        created := Some(room);
      }
    }
  }

  // ---------------------------------------------------------------------------------------
  // roomSettings

  /** A decoded settings request. */
  datatype SettingsRequest = SettingsRequest(
    access: Option<AccessType>, name: string, password: string, mode: Option<RoomMode>,
    minLevel: int, maxLevel: int, maxSize: Option<RoomSize>)

  /** What the settings check reads of the target room; the two level tests stand for the
      room's own `isValidMaxLevel` and `isValidMinLevel`. */
  datatype RoomFacts = RoomFacts(master: int, currentSize: int,
                                 validMaxLevel: int -> bool, validMinLevel: int -> bool)

  /** The requested minimum level, raised to the lowest room level. */
  function ClampMinLevel(level: int): (r: int)
    ensures r >= MinRoomLevel && (level >= MinRoomLevel ==> r == level)
  {
    if level < MinRoomLevel then MinRoomLevel else level
  }

  /** The requested maximum level, lowered to the highest room level. */
  function ClampMaxLevel(level: int): (r: int)
    ensures r <= MaxRoomLevel && (level <= MaxRoomLevel ==> r == level)
  {
    if level > MaxRoomLevel then MaxRoomLevel else level
  }

  /** The settings checks in the order they are made, on the clamped levels. */
  function SettingsChecks(req: SettingsRequest, server: ServerType, room: Option<RoomFacts>,
                          playerId: int, playerLevel: int): seq<Check>
  {
    var min, max := ClampMinLevel(req.minLevel), ClampMaxLevel(req.maxLevel);
    [ Check(req.maxSize.Some? && req.access.Some? && req.mode.Some? &&
            req.mode.value.IsValidForServer(server), -1),
      Check(room.Some?, -2),
      Check(room.None? || room.value.master == playerId, -3),
      Check(room.None? || req.maxSize.None? || req.maxSize.value.players >= room.value.currentSize, -4),
      Check(min <= max, -5),
      Check(room.None? || room.value.validMaxLevel(max), -7),
      Check(room.None? || room.value.validMinLevel(min), -8),
      Check(min <= playerLevel <= max, -6) ]
  }

  /** The result code of a settings request. */
  function RoomSettingsResult(req: SettingsRequest, server: ServerType, room: Option<RoomFacts>,
                              playerId: int, playerLevel: int): (r: int)
    ensures r == 0 ==> room.Some? && room.value.master == playerId && req.access.Some? &&
                       req.mode.Some? && req.maxSize.Some? &&
                       MinRoomLevel <= ClampMinLevel(req.minLevel) <= playerLevel <=
                       ClampMaxLevel(req.maxLevel) <= MaxRoomLevel
  {
    var min, max := ClampMinLevel(req.minLevel), ClampMaxLevel(req.maxLevel);
    if req.maxSize == None || req.access == None || req.mode == None ||
       req.mode.value.NotValidForServer(server) then -1
    else if room == None then -2
    else if room.value.master != playerId then -3
    else if req.maxSize.value.players < room.value.currentSize then -4
    else if min > max then -5
    else if !room.value.validMaxLevel(max) then -7
    else if !room.value.validMinLevel(min) then -8
    else if playerLevel < min || playerLevel > max then -6
    else 0
  }

  /** The settings code is the code of the first failing check, in the order listed. */
  lemma RoomSettingsResultOrder(req: SettingsRequest, server: ServerType, room: Option<RoomFacts>,
                                playerId: int, playerLevel: int)
    ensures RoomSettingsResult(req, server, room, playerId, playerLevel) ==
            FirstFailure(SettingsChecks(req, server, room, playerId, playerLevel))
  {
    var cs := SettingsChecks(req, server, room, playerId, playerLevel);
    LevelChecksOrder(cs);
    FirstFailureFrom(cs, 3);
    FirstFailureFrom(cs, 2);
    FirstFailureFrom(cs, 1);
    FirstFailureFrom(cs, 0);
    assert cs[0..] == cs;
  }

  /** The last four checks of a settings request, those on the level bounds. */
  lemma LevelChecksOrder(cs: seq<Check>)
    requires |cs| == 8
    ensures FirstFailure(cs[4..]) ==
            if !cs[4].passes then cs[4].code
            else if !cs[5].passes then cs[5].code
            else if !cs[6].passes then cs[6].code
            else if !cs[7].passes then cs[7].code
            else 0
  {
    assert cs[8..] == [];
    FirstFailureFrom(cs, 7);
    FirstFailureFrom(cs, 6);
    FirstFailureFrom(cs, 5);
    FirstFailureFrom(cs, 4);
  }

  /** Changes a room's settings when its master asks and every check passes; the room is
      otherwise left exactly as it was. Returns the result code. */
  method RoomSettings(rm: RoomManager, roomId: int, playerId: int, req: SettingsRequest,
                      server: ServerType, playerLevel: int,
                      validMaxLevel: int -> bool, validMinLevel: int -> bool)
    returns (result: int)
    requires rm.Valid() && rm.RoomsValid()
    modifies rm.Footprint(roomId)
    ensures rm.Valid() && rm.RoomsValid()
    ensures var facts := match rm.GetRoomById(roomId)
                         case None => None
                         case Some(r) => Some(RoomFacts(old(r.master), old(r.CurrentSize()),
                                                        validMaxLevel, validMinLevel));
            result == RoomSettingsResult(req, server, facts, playerId, playerLevel)
    ensures result != 0 ==> forall r :: r in rm.Footprint(roomId) ==> unchanged(r)
    ensures result == 0 ==>
              var room: Room := rm.rooms[roomId];
              && room.accessType == req.access.value
              && room.name == Truncate(req.name, MaxRoomNameLength)
              && room.password == Truncate(req.password, MaxRoomPasswordLength)
              && room.mode == req.mode.value && room.maxSize == req.maxSize.value
              && room.minLevel == ClampMinLevel(req.minLevel)
              && room.maxLevel == ClampMaxLevel(req.maxLevel)
              && unchanged(room`state, room`players, room`teams, room`confirmed, room`master,
                           room`host, room`swapLocked, room`timeStart, room`roomMap, room`ball)
  {
    var found := rm.GetRoomById(roomId);
    var facts := match found
                 case None => None
                 case Some(r) => Some(RoomFacts(r.master, r.CurrentSize(), validMaxLevel, validMinLevel));
    result := RoomSettingsResult(req, server, facts, playerId, playerLevel);
    if result == 0 {
      ApplySettings(found.value, req);
    }
  }

  /** Writes the accepted settings into the room, names and passwords cut to their limits
      and levels clamped; the roster and the match state are untouched. */
  method ApplySettings(room: Room, req: SettingsRequest)
    requires room.Valid() && req.access.Some? && req.mode.Some? && req.maxSize.Some?
    modifies room
    ensures room.Valid()
    ensures && room.accessType == req.access.value
            && room.name == Truncate(req.name, MaxRoomNameLength)
            && room.password == Truncate(req.password, MaxRoomPasswordLength)
            && room.mode == req.mode.value && room.maxSize == req.maxSize.value
            && room.minLevel == ClampMinLevel(req.minLevel)
            && room.maxLevel == ClampMaxLevel(req.maxLevel)
            && unchanged(room`state, room`players, room`teams, room`confirmed, room`master,
                         room`host, room`swapLocked, room`timeStart, room`roomMap, room`ball)
  {
    var name := Truncate(req.name, MaxRoomNameLength);
    var password := Truncate(req.password, MaxRoomPasswordLength);
    var min, max := ClampMinLevel(req.minLevel), ClampMaxLevel(req.maxLevel);
    room.accessType := req.access.value;
    room.name := name;
    room.password := password;
    room.mode := req.mode.value;
    room.minLevel := min;
    room.maxLevel := max;
    room.maxSize := req.maxSize.value;
  }

  // ---------------------------------------------------------------------------------------
  // swapTeam

  /** Moves a waiting, unlocked member to the other team when the room allows it
      (`canSwap` stands for the room's own decision). A player whose team changes is locked
      against further swaps and the new team is broadcast. */
  method SwapTeam(rm: RoomManager, roomId: int, playerId: int, canSwap: bool)
    returns (broadcast: Option<RoomTeam>)
    requires rm.Valid() && rm.RoomsValid()
    modifies rm.Footprint(roomId)
    ensures rm.Valid() && rm.RoomsValid()
    ensures var acts := roomId > 0 && roomId in rm.rooms &&
                        playerId in old(rm.rooms[roomId].players) &&
                        old(rm.rooms[roomId].state) == Waiting &&
                        playerId !in old(rm.rooms[roomId].swapLocked);
            && (!acts || !canSwap ==>
                  broadcast == None && forall r :: r in rm.Footprint(roomId) ==> unchanged(r))
            && (acts && canSwap ==>
                  var room: Room := rm.rooms[roomId];
                  && room.teams == old(room.teams)[playerId := Opposite(old(room.teams[playerId]))]
                  && room.swapLocked == old(room.swapLocked) + {playerId}
                  && broadcast == Some(room.teams[playerId])
                  && unchanged(room`state, room`players, room`confirmed, room`master, room`host,
                               room`name, room`password, room`accessType, room`mode,
                               room`minLevel, room`maxLevel, room`maxSize, room`timeStart,
                               room`roomMap, room`ball))
  {
    broadcast := None;
    var found := rm.GetRoomById(roomId);
    if found.Some? && playerId in found.value.players && found.value.state == Waiting {
      var room := found.value;
      if playerId !in room.swapLocked {
        var currentTeam := room.teams[playerId];
        var newTeam := if canSwap then Opposite(currentTeam) else currentTeam;
        if newTeam != currentTeam {
          room.teams := room.teams[playerId := newTeam];
          room.swapLocked := room.swapLocked + {playerId};
          broadcast := Some(newTeam);
        }
      }
    }
  }

  // ---------------------------------------------------------------------------------------
  // kickPlayer

  /** What a kick request leads to: the target leaves the room, an error code goes back to
      the requester, or (on a club server) nothing at all. */
  datatype KickOutcome = Kicked(target: int) | Rejected(code: int) | Ignored

  /** Handles a kick request from the player whose session is in room `sessionRoomId`. */
  method KickPlayer(rm: RoomManager, server: ServerType, sessionRoomId: int, playerId: int,
                    roomId: int, target: int)
    returns (outcome: KickOutcome)
    requires rm.Valid()
    ensures server == Club <==> outcome == Ignored
    ensures outcome.Rejected? ==> outcome.code in {-2, -3, -4}
    ensures outcome == Rejected(-2) <==>
              server != Club && (sessionRoomId <= 0 || sessionRoomId !in rm.rooms || sessionRoomId != roomId)
    ensures outcome == Rejected(-3) <==>
              && server != Club && sessionRoomId > 0 && sessionRoomId in rm.rooms && sessionRoomId == roomId
              && (rm.rooms[roomId].master != playerId || !rm.rooms[roomId].IsInLobbyScreen())
    ensures outcome.Kicked? ==>
              && sessionRoomId == roomId && roomId in rm.rooms
              && rm.rooms[roomId].master == playerId && rm.rooms[roomId].IsInLobbyScreen()
              && outcome.target == target && target in rm.rooms[roomId].players
    ensures outcome == Rejected(-4) ==> sessionRoomId == roomId && target !in rm.rooms[roomId].players
  {
    if server == Club {
      return Ignored;
    }
    var result := 0;
    var found := rm.GetRoomById(sessionRoomId);
    if found.Some? && found.value.id == roomId {
      var room := found.value;
      if room.master == playerId && room.IsInLobbyScreen() {
        if target in room.players {
          outcome := Kicked(target);
        } else {
          result := -4;
        }
      } else {
        result := -3;
      }
    } else {
      result := -2;
    }
    if result != 0 {
      outcome := Rejected(result);
    }
  }

  // ---------------------------------------------------------------------------------------
  // The confirmed-player list: startCountDown, playerReady, matchResult

  /** The confirmed list after `playerId` confirms: the player is appended unless present. */
  function ConfirmOnce(confirmed: seq<int>, playerId: int): (r: seq<int>)
    ensures playerId in r && |confirmed| <= |r| <= |confirmed| + 1
    ensures forall x :: x in r <==> x in confirmed || x == playerId
    ensures NoDuplicates(confirmed) ==> NoDuplicates(r)
    ensures r[..|confirmed|] == confirmed
  {
    if playerId in confirmed then confirmed else confirmed + [playerId]
  }

  /** The confirmed list after a run of confirmations. */
  function ConfirmAll(confirmed: seq<int>, players: seq<int>): seq<int>
    decreases |players|
  {
    if players == [] then confirmed
    else ConfirmAll(ConfirmOnce(confirmed, players[0]), players[1..])
  }

  /** After confirmations from distinct players nobody had confirmed yet, the list has grown
      by exactly one entry per player: the size gate opens on the last needed signal. */
  lemma {:induction false} ConfirmAllCounts(confirmed: seq<int>, players: seq<int>)
    requires NoDuplicates(players)
    requires forall i :: 0 <= i < |players| ==> players[i] !in confirmed
    ensures |ConfirmAll(confirmed, players)| == |confirmed| + |players|
    decreases |players|
  {
    if players != [] {
      var next := ConfirmOnce(confirmed, players[0]);
      assert next == confirmed + [players[0]];
      forall i | 0 <= i < |players[1..]| ensures players[1..][i] !in next {
        assert players[1..][i] == players[i + 1];
      }
      ConfirmAllCounts(next, players[1..]);
    }
  }

  /** A repeated confirmation changes nothing. */
  lemma {:induction false} ConfirmAllRepeats(confirmed: seq<int>, players: seq<int>)
    requires forall i :: 0 <= i < |players| ==> players[i] in confirmed
    ensures ConfirmAll(confirmed, players) == confirmed
    decreases |players|
  {
    if players != [] {
      ConfirmAllRepeats(confirmed, players[1..]);
    }
  }

  /** `startCountDown`: kind 1 confirms the sender and, once every member has confirmed,
      clears the list and broadcasts the end of the countdown; kind -1 lets the master of a
      waiting room start the countdown. Returns whether the countdown end was broadcast. */
  method StartCountDown(rm: RoomManager, sessionRoomId: int, roomId: int, playerId: int, kind: int)
    returns (finished: bool)
    requires rm.Valid() && rm.RoomsValid()
    modifies rm.Footprint(roomId)
    ensures rm.Valid() && rm.RoomsValid()
    ensures var acts := sessionRoomId == roomId && roomId > 0 && roomId in rm.rooms;
            && (!acts ==> !finished && forall r :: r in rm.Footprint(roomId) ==> unchanged(r))
            && (acts && kind == 1 ==>
                  var room: Room := rm.rooms[roomId];
                  var c := ConfirmOnce(old(room.confirmed), playerId);
                  && finished == (|c| >= room.CurrentSize())
                  && room.confirmed == (if finished then [] else c)
                  && room.state == old(room.state) && room.timeStart == old(room.timeStart)
                  && room.MembersUnchanged() && room.SettingsUnchanged())
            && (acts && kind == -1 ==>
                  var room: Room := rm.rooms[roomId];
                  && !finished
                  && room.state == (if old(room.state) == Waiting && old(room.master) == playerId
                                    then CountDown else old(room.state))
                  && room.confirmed == old(room.confirmed) && room.timeStart == old(room.timeStart)
                  && room.MembersUnchanged() && room.SettingsUnchanged())
            && (acts && kind != 1 && kind != -1 ==>
                  !finished && forall r :: r in rm.Footprint(roomId) ==> unchanged(r))
  {
    finished := false;
    if sessionRoomId == roomId {
      var found := rm.GetRoomById(roomId);
      if found.Some? {
        var room := found.value;
        if kind == 1 {
          if playerId !in room.confirmed {
            room.confirmed := room.confirmed + [playerId];
          }
          if |room.confirmed| >= room.CurrentSize() {
            room.confirmed := [];
            finished := true;
          }
        } else if kind == -1 {
          if room.state == Waiting && room.master == playerId {
            room.state := CountDown;
          }
        }
      }
    }
  }

  /** `playerReady`: in a loading room the sender is confirmed once, and when every member
      has confirmed the match starts (PLAYING, start time stamped). The confirmed list is
      not cleared here. Outside LOADING the sender only gets a reply. A missing room has no
      effect. Returns whether a reply goes back to the sender alone. */
  method PlayerReady(rm: RoomManager, sessionRoomId: int, roomId: int, playerId: int, now: int)
    returns (replied: bool)
    requires rm.Valid() && rm.RoomsValid()
    modifies rm.Footprint(roomId)
    ensures rm.Valid() && rm.RoomsValid()
    ensures var acts := sessionRoomId == roomId && roomId > 0 && roomId in rm.rooms;
            && (!acts ==> !replied && forall r :: r in rm.Footprint(roomId) ==> unchanged(r))
            && (acts && old(rm.rooms[roomId].state) != Loading ==>
                  replied && forall r :: r in rm.Footprint(roomId) ==> unchanged(r))
            && (acts && old(rm.rooms[roomId].state) == Loading ==>
                  var room: Room := rm.rooms[roomId];
                  && !replied
                  && room.confirmed == ConfirmOnce(old(room.confirmed), playerId)
                  && (|room.confirmed| >= room.CurrentSize() ==> room.state == Playing && room.timeStart == now)
                  && (|room.confirmed| < room.CurrentSize() ==> room.state == Loading && room.timeStart == old(room.timeStart))
                  && room.MembersUnchanged() && room.SettingsUnchanged())
  {
    replied := false;
    if sessionRoomId == roomId {
      var found := rm.GetRoomById(roomId);
      if found.Some? {
        var room := found.value;
        if room.state == Loading {
          if playerId !in room.confirmed {
            room.confirmed := room.confirmed + [playerId];
          }
          if |room.confirmed| >= room.CurrentSize() {
            room.state := Playing;
            room.timeStart := now;
          }
        } else {
          replied := true;
        }
      }
    }
  }

  /** `matchResult`: a result for a playing room moves it to RESULT and, after the rewards
      are handled (whether or not that fails), clears the confirmed list. Ignored otherwise. */
  method MatchResult(rm: RoomManager, sessionRoomId: int, roomId: int)
    requires rm.Valid() && rm.RoomsValid()
    modifies rm.Footprint(roomId)
    ensures rm.Valid() && rm.RoomsValid()
    ensures var acts := sessionRoomId == roomId && roomId > 0 && roomId in rm.rooms &&
                        old(rm.rooms[roomId].state) == Playing;
            && (!acts ==> forall r :: r in rm.Footprint(roomId) ==> unchanged(r))
            && (acts ==>
                  var room: Room := rm.rooms[roomId];
                  && room.state == Result && room.confirmed == []
                  && room.timeStart == old(room.timeStart)
                  && room.MembersUnchanged() && room.SettingsUnchanged())
  {
    if sessionRoomId != roomId {
      return;
    }
    var found := rm.GetRoomById(roomId);
    if found.None? || found.value.state != Playing {
      return;
    }
    var room := found.value;
    room.state := Result;
    room.confirmed := [];
  }

  // ---------------------------------------------------------------------------------------
  // unknown1, cancelLoading

  /** `unknown1`: the room of the sender goes back to WAITING, from whatever state. */
  method Unknown1(rm: RoomManager, sessionRoomId: int, roomId: int)
    requires rm.Valid() && rm.RoomsValid()
    modifies rm.Footprint(roomId)
    ensures rm.Valid() && rm.RoomsValid()
    ensures var acts := sessionRoomId == roomId && roomId > 0 && roomId in rm.rooms;
            && (!acts ==> forall r :: r in rm.Footprint(roomId) ==> unchanged(r))
            && (acts ==>
                  var room: Room := rm.rooms[roomId];
                  && room.state == Waiting
                  && room.confirmed == old(room.confirmed) && room.timeStart == old(room.timeStart)
                  && room.MembersUnchanged() && room.SettingsUnchanged())
  {
    if sessionRoomId == roomId {
      var found := rm.GetRoomById(roomId);
      if found.Some? {
        found.value.state := Waiting;
      }
    }
  }

  /** `cancelLoading`: only the host can send a loading room back to WAITING. */
  method CancelLoading(rm: RoomManager, roomId: int, playerId: int)
    requires rm.Valid() && rm.RoomsValid()
    modifies rm.Footprint(roomId)
    ensures rm.Valid() && rm.RoomsValid()
    ensures var acts := roomId > 0 && roomId in rm.rooms && old(rm.rooms[roomId].state) == Loading &&
                        old(rm.rooms[roomId].host) == playerId;
            && (!acts ==> forall r :: r in rm.Footprint(roomId) ==> unchanged(r))
            && (acts ==>
                  var room: Room := rm.rooms[roomId];
                  && room.state == Waiting
                  && room.confirmed == old(room.confirmed) && room.timeStart == old(room.timeStart)
                  && room.MembersUnchanged() && room.SettingsUnchanged())
  {
    var found := rm.GetRoomById(roomId);
    if found.Some? && found.value.state == Loading && found.value.host == playerId {
      found.value.state := Waiting;
    }
  }
}
