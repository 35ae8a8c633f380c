/** The parts of a match room that the room handlers and the registry read and change.
    Room.java itself is not part of this model: its fields are modelled from the way the
    handlers use them, and the few room behaviours used here (adding a player, the size,
    quick-join and level tests, the lobby-screen test) are stated as assumptions in the
    doc comments of the members below. */
module Rooms {
  import opened RoomModes
  import opened Sequences

  /** The lifecycle of a room. */
  datatype RoomState = Waiting | CountDown | Loading | Playing | Result

  /** How players may enter a room. Only FREE and PASSWORD matter to this model. */
  datatype AccessType = Free | Password | OtherAccess(code: int)

  datatype RoomTeam = Red | Blue

  datatype RoomMap = Reservoir | OtherMap(code: int)

  datatype RoomBall = TeamArena | OtherBall(code: int)

  /** A team-capacity tier; assumed: `players` is the value its `toInt` yields, the number of
      players the room holds. */
  datatype RoomSize = RoomSize(players: int)

  /** The four-against-four tier that every club room uses; assumed to hold eight players. */
  const Size4v4: RoomSize := RoomSize(8)

  /** The other team. */
  function Opposite(t: RoomTeam): (r: RoomTeam)
    ensures r != t
  {
    if t == Red then Blue else Red
  }


  class Room {
    const id: int
    const isClub: bool

    var state: RoomState
    var players: set<int>
    var teams: map<int, RoomTeam>
    var confirmed: seq<int>
    var master: int
    var host: int
    var swapLocked: set<int>
    var timeStart: int

    var name: string
    var password: string
    var accessType: AccessType
    var mode: RoomMode
    var minLevel: int
    var maxLevel: int
    var roomMap: RoomMap
    var ball: RoomBall
    var maxSize: RoomSize

    /** The confirmed-player list never holds a player twice, and every player has a team. */
    ghost predicate Valid()
      reads this
    {
      NoDuplicates(confirmed) && teams.Keys == players
    }

    /** Roster, teams, master and host are as they were. */
    twostate predicate MembersUnchanged()
      reads this
    {
      unchanged(this`players, this`teams, this`master, this`host)
    }

    /** The settings (name, password, access type, mode, level bounds, map, ball, size) and
        the swap locks are as they were. */
    twostate predicate SettingsUnchanged()
      reads this
    {
      unchanged(this`name, this`password, this`accessType, this`mode, this`minLevel,
                this`maxLevel, this`roomMap, this`ball, this`maxSize, this`swapLocked)
    }

    /** A new, empty room in the WAITING state with the given settings. */
    constructor (id: int, isClub: bool, name: string, password: string, accessType: AccessType,
                 mode: RoomMode, minLevel: int, maxLevel: int, roomMap: RoomMap, ball: RoomBall,
                 maxSize: RoomSize)
      ensures Valid()
      ensures this.id == id && this.isClub == isClub
      ensures this.name == name && this.password == password && this.accessType == accessType
      ensures this.mode == mode && this.minLevel == minLevel && this.maxLevel == maxLevel
      ensures this.roomMap == roomMap && this.ball == ball && this.maxSize == maxSize
      ensures state == Waiting && players == {} && teams == map[] && confirmed == []
      ensures swapLocked == {} && timeStart == 0
    {
      this.id := id;
      this.isClub := isClub;
      this.name := name;
      this.password := password;
      this.accessType := accessType;
      this.mode := mode;
      this.minLevel := minLevel;
      this.maxLevel := maxLevel;
      this.roomMap := roomMap;
      this.ball := ball;
      this.maxSize := maxSize;
      state := Waiting;
      players := {};
      teams := map[];
      confirmed := [];
      master := 0;
      host := 0;
      swapLocked := {};
      timeStart := 0;
    }

    /** The number of players in the room (`getCurrentSize`). */
    function CurrentSize(): nat
      reads this
    {
      |players|
    }

    /** Assumed: a room is full once its player count reaches the player count of its size
        tier. */
    predicate IsNotFull()
      reads this
    {
      CurrentSize() < maxSize.players
    }

    /** Assumed: WAITING, not full, no password and not a club room. */
    predicate CanQuickJoin()
      reads this
    {
      state == Waiting && IsNotFull() && accessType != Password && !isClub
    }

    /** Assumed: the level lies within the room's bounds, both inclusive. */
    predicate IsLevelAllowed(level: int)
      reads this
    {
      minLevel <= level <= maxLevel
    }

    /** Assumed: the room's members still see the lobby screen, waiting or counting down. */
    predicate IsInLobbyScreen()
      reads this
    {
      state == Waiting || state == CountDown
    }

    /** Adds a player on the given team; assumed: the first player becomes master and host.
        A player already in the room is left as is. */
    method AddPlayer(playerId: int, team: RoomTeam)
      requires Valid()
      modifies this
      ensures Valid()
      ensures players == old(players) + {playerId}
      ensures playerId in old(players) ==> teams == old(teams)
      ensures playerId !in old(players) ==> teams == old(teams)[playerId := team]
      ensures old(players) == {} ==> master == playerId && host == playerId
      ensures old(players) != {} ==> master == old(master) && host == old(host)
      ensures state == old(state) && confirmed == old(confirmed) && swapLocked == old(swapLocked)
      ensures timeStart == old(timeStart)
      ensures name == old(name) && password == old(password) && accessType == old(accessType)
      ensures mode == old(mode) && minLevel == old(minLevel) && maxLevel == old(maxLevel)
      ensures roomMap == old(roomMap) && ball == old(ball) && maxSize == old(maxSize)
    {
      if playerId !in players {
        if players == {} {
          master := playerId;
          host := playerId;
        }
        players := players + {playerId};
        teams := teams[playerId := team];
      }
    }
  }
}
