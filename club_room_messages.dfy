/** The room request handlers of a club server. Club rooms are filed under the club's own id
    and carry fixed settings. As for the other handlers, decoding and sending are not modelled:
    a handler receives the decoded fields and the facts it would look up elsewhere. */
module ClubRoomMessages {
  import opened Wrappers
  import opened RoomModes
  import opened Rooms
  import opened Sequences
  import opened RoomRegistry
  import opened ResultCodes
  import RoomMessages

  const MaxClubRoomNameLength: nat := 14
  const MinClubRoomLevel := 3

  // ---------------------------------------------------------------------------------------
  // createRoom

  /** The club creation checks in the order they are made. */
  function ClubCreateChecks(access: Option<AccessType>, mode: Option<RoomMode>, server: ServerType,
                            playerLevel: int, clubId: int, clubRoomExists: bool): seq<Check>
  {
    [ Check(access.Some? && mode.Some? && mode.value.IsValidForServer(server), -1),
      Check(playerLevel >= MinClubRoomLevel, -3),
      Check(clubId > 0, -4),
      Check(!clubRoomExists, -5) ]
  }

  /** The result code of a club creation request; `clubRoomExists` says whether a room is
      already filed under the club's id. */
  function ClubCreateRoomResult(access: Option<AccessType>, mode: Option<RoomMode>, server: ServerType,
                                playerLevel: int, clubId: int, clubRoomExists: bool): (r: int)
    ensures r == 0 <==> access.Some? && mode.Some? && mode.value.IsValidForServer(server) &&
                        playerLevel >= MinClubRoomLevel && clubId > 0 && !clubRoomExists
    ensures r in {0, -1, -3, -4, -5}
  {
    if access == None || mode == None || mode.value.NotValidForServer(server) then -1
    else if playerLevel < MinClubRoomLevel then -3
    else if clubId <= 0 then -4
    else if clubRoomExists then -5
    else 0
  }

  /** The club creation code is the code of the first failing check, in the order listed. */
  lemma ClubCreateRoomResultOrder(access: Option<AccessType>, mode: Option<RoomMode>, server: ServerType,
                                  playerLevel: int, clubId: int, clubRoomExists: bool)
    ensures ClubCreateRoomResult(access, mode, server, playerLevel, clubId, clubRoomExists) ==
            FirstFailure(ClubCreateChecks(access, mode, server, playerLevel, clubId, clubRoomExists))
  {
    var cs := ClubCreateChecks(access, mode, server, playerLevel, clubId, clubRoomExists);
    assert cs[4..] == [];
    FirstFailureFrom(cs, 3);
    FirstFailureFrom(cs, 2);
    FirstFailureFrom(cs, 1);
    FirstFailureFrom(cs, 0);
    assert cs[0..] == cs;
  }

  /** Creates the room of the sender's club. Unlike the match-server handler there is no
      "already in a room" test. On 0 a club room is filed under the club id, with the fixed
      club settings, and the creator joins it. */
  method CreateRoom(rm: RoomManager, playerId: int, clubId: int, access: Option<AccessType>,
                    name: string, password: string, mode: Option<RoomMode>, server: ServerType,
                    playerLevel: int, team: RoomTeam)
    returns (result: int, created: Option<Room>)
    requires rm.Valid() && rm.RoomsValid()
    modifies rm
    ensures rm.Valid() && rm.RoomsValid()
    ensures result == ClubCreateRoomResult(access, mode, server, playerLevel, clubId,
                                           clubId > 0 && clubId in old(rm.rooms))
    ensures created.Some? <==> result == 0
    ensures created.None? ==> rm.rooms == old(rm.rooms)
    ensures created.Some? ==>
              var room: Room := created.value;
              && fresh(room)
              && room.id == clubId && room.isClub
              && rm.rooms == old(rm.rooms)[clubId := room]
              && room.name == RoomMessages.Truncate(name, MaxClubRoomNameLength)
              && room.password == RoomMessages.Truncate(password, RoomMessages.MaxRoomPasswordLength)
              && room.accessType == RoomMessages.EffectiveAccess(access.value, room.password)
              && room.mode == mode.value
              && room.minLevel == MinClubRoomLevel && room.maxLevel == RoomMessages.MaxRoomLevel
              && room.roomMap == Reservoir && room.ball == TeamArena && room.maxSize == Size4v4
              && room.state == Waiting && room.players == {playerId}
              && room.master == playerId && room.host == playerId
              && room.teams == map[playerId := team] && room.confirmed == []
              && room.swapLocked == {} && room.timeStart == 0
  {
    created := None;
    var existing := rm.GetRoomById(clubId);
    result := ClubCreateRoomResult(access, mode, server, playerLevel, clubId, existing.Some?);
    if result == 0 {
      var roomName, roomPassword, roomAccess := name, password, access.value;
      if |roomName| > MaxClubRoomNameLength {
        roomName := roomName[..MaxClubRoomNameLength];
      }
      if |roomPassword| > RoomMessages.MaxRoomPasswordLength {
        roomPassword := roomPassword[..RoomMessages.MaxRoomPasswordLength];
      }
      if roomAccess == Password && roomPassword == [] {
        roomAccess := Free;
      }
      var room := new Room(clubId, true, roomName, roomPassword, roomAccess, mode.value,
                           MinClubRoomLevel, RoomMessages.MaxRoomLevel, Reservoir, TeamArena, Size4v4);
      rm.AddRoom(room);
      room.AddPlayer(playerId, team);
      created := Some(room);
    }
  }

  // ---------------------------------------------------------------------------------------
  // joinRoom

  /** What a join request leads to: nothing (the sender is already in a room), the room's own
      join procedure (with the password given), or the code -3 for a missing room. */
  datatype JoinOutcome = AlreadyInRoom | TryJoin(room: Room, password: string) | NoSuchRoom

  /** The code the sender receives for a join request that names no room. */
  const NoSuchRoomCode := -3

  /** Handles a club join request. */
  method JoinRoom(rm: RoomManager, sessionRoomId: int, roomId: int, password: string)
    returns (outcome: JoinOutcome)
    requires rm.Valid()
    ensures sessionRoomId > 0 <==> outcome == AlreadyInRoom
    ensures outcome == NoSuchRoom <==> sessionRoomId <= 0 && (roomId <= 0 || roomId !in rm.rooms)
    ensures outcome.TryJoin? ==> && roomId > 0 && roomId in rm.rooms
                                 && outcome.room == rm.rooms[roomId] && outcome.room.id == roomId
                                 && outcome.password == password
  {
    if sessionRoomId > 0 {
      return AlreadyInRoom;
    }
    var found := rm.GetRoomById(roomId);
    if found.Some? {
      outcome := TryJoin(found.value, password);
    } else {
      outcome := NoSuchRoom;
    }
  }

  // ---------------------------------------------------------------------------------------
  // roomSettings

  /** The club settings checks in the order they are made. */
  function ClubSettingsChecks(access: Option<AccessType>, roomMaster: Option<int>, playerId: int): seq<Check> {
    [ Check(access.Some?, -1),
      Check(roomMaster.Some?, -2),
      Check(roomMaster.None? || roomMaster.value == playerId, -3) ]
  }

  /** The result code of a club settings request; `roomMaster` is the master of the target
      room, if the room exists. */
  function ClubSettingsResult(access: Option<AccessType>, roomMaster: Option<int>, playerId: int): (r: int)
    ensures r == 0 <==> access.Some? && roomMaster == Some(playerId)
    ensures r in {0, -1, -2, -3}
  {
    if access == None then -1
    else if roomMaster == None then -2
    else if roomMaster.value != playerId then -3
    else 0
  }

  /** The club settings code is the code of the first failing check, in the order listed. */
  lemma ClubSettingsResultOrder(access: Option<AccessType>, roomMaster: Option<int>, playerId: int)
    ensures ClubSettingsResult(access, roomMaster, playerId) ==
            FirstFailure(ClubSettingsChecks(access, roomMaster, playerId))
  {
    var cs := ClubSettingsChecks(access, roomMaster, playerId);
    assert cs[3..] == [];
    FirstFailureFrom(cs, 2);
    FirstFailureFrom(cs, 1);
    FirstFailureFrom(cs, 0);
    assert cs[0..] == cs;
  }

  /** Changes the access type, name and password of a club room when its master asks. The
      PASSWORD-with-empty-password case is not normalised here. Mode, levels, size and the
      rest of the room stay as they were. */
  method RoomSettings(rm: RoomManager, roomId: int, playerId: int, access: Option<AccessType>,
                      name: string, password: string)
    returns (result: int)
    requires rm.Valid() && rm.RoomsValid()
    modifies rm.Footprint(roomId)
    ensures rm.Valid() && rm.RoomsValid()
    ensures var master := if roomId > 0 && roomId in rm.rooms then Some(old(rm.rooms[roomId].master)) else None;
            result == ClubSettingsResult(access, master, playerId)
    ensures result != 0 ==> forall r :: r in rm.Footprint(roomId) ==> unchanged(r)
    ensures result == 0 ==>
              var room: Room := rm.rooms[roomId];
              && room.accessType == access.value
              && room.name == RoomMessages.Truncate(name, MaxClubRoomNameLength)
              && room.password == RoomMessages.Truncate(password, RoomMessages.MaxRoomPasswordLength)
              && unchanged(room`state, room`players, room`teams, room`confirmed, room`master,
                           room`host, room`swapLocked, room`timeStart, room`mode, room`minLevel,
                           room`maxLevel, room`roomMap, room`ball, room`maxSize)
  {
    var found := rm.GetRoomById(roomId);
    var master := if found.Some? then Some(found.value.master) else None;
    result := ClubSettingsResult(access, master, playerId);
    if result == 0 {
      var room := found.value;
      var roomName, roomPassword := name, password;
      if |roomName| > MaxClubRoomNameLength {
        roomName := roomName[..MaxClubRoomNameLength];
      }
      if |roomPassword| > RoomMessages.MaxRoomPasswordLength {
        roomPassword := roomPassword[..RoomMessages.MaxRoomPasswordLength];
      }
      room.accessType := access.value;
      room.name := roomName;
      room.password := roomPassword;
      assert room.Valid();
    }
  }

  // ---------------------------------------------------------------------------------------
  // invitePlayer

  /** What an invitation leads to: nothing (the sender is in no room, or the room is full),
      an invitation sent to the target, or an error code for the sender. */
  datatype InviteOutcome = NotInRoom | RoomFull | Invited(target: int) | InviteRejected(code: int)

  /** Handles an invitation from the sender's current room. `mainLobby` holds the players in
      the main lobby, `acceptsInvites` and `clubOf` stand for the target's settings and
      membership. */
  method InvitePlayer(rm: RoomManager, sessionRoomId: int, target: int, mainLobby: set<int>,
                      acceptsInvites: int -> bool, clubOf: int -> int)
    returns (outcome: InviteOutcome)
    requires rm.Valid()
    ensures outcome == NotInRoom <==> sessionRoomId <= 0 || sessionRoomId !in rm.rooms
    ensures outcome == RoomFull <==>
              sessionRoomId > 0 && sessionRoomId in rm.rooms && !rm.rooms[sessionRoomId].IsNotFull()
    ensures var open := sessionRoomId > 0 && sessionRoomId in rm.rooms && rm.rooms[sessionRoomId].IsNotFull();
            && (outcome == InviteRejected(-2) <==> open && target !in mainLobby)
            && (outcome == InviteRejected(-3) <==> open && target in mainLobby && !acceptsInvites(target))
            && (outcome == InviteRejected(-6) <==> open && target in mainLobby && acceptsInvites(target) &&
                                                   clubOf(target) != sessionRoomId)
            && (outcome.Invited? <==> open && target in mainLobby && acceptsInvites(target) &&
                                      clubOf(target) == sessionRoomId)
    ensures outcome.Invited? ==> outcome.target == target
  {
    var found := rm.GetRoomById(sessionRoomId);
    if found.None? {
      return NotInRoom;
    }
    var room := found.value;
    if !room.IsNotFull() {
      return RoomFull;
    }
    var result := 0;
    if target in mainLobby {
      if acceptsInvites(target) {
        if clubOf(target) == room.id {
          outcome := Invited(target);
        } else {
          result := -6;
        }
      } else {
        result := -3;
      }
    } else {
      result := -2;
    }
    if result != 0 {
      outcome := InviteRejected(result);
    }
  }
}
