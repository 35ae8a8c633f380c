/** Room modes, their wire encoding and which server kinds accept them. */
module RoomModes {
  import opened Wrappers

  datatype RoomMode = AiGoalkeeper | PlayerGoalkeeper | TrainingOne | TrainingTwo | TrainingThree {

    /** The wire code of this mode (`toInt`). */
    function ToInt(): (n: int)
      ensures 0 <= n <= 4
      ensures FromInt(n) == Some(this)
    {
      match this
      case AiGoalkeeper => 0
      case PlayerGoalkeeper => 1
      case TrainingOne => 2
      case TrainingTwo => 3
      case TrainingThree => 4
    }

    /** Whether a server of the given kind hosts rooms in this mode (`isValidForServer`). */
    predicate IsValidForServer(server: ServerType) {
      match server
      case Private | Club | Normal => this == AiGoalkeeper
      case Practice => this == TrainingOne || this == TrainingTwo || this == TrainingThree
    }

    /** The negation the request handlers test (`notValidForServer`). */
    predicate NotValidForServer(server: ServerType) {
      !IsValidForServer(server)
    }
  }

  /** The kind of server this process runs as. */
  datatype ServerType = Normal | Practice | Club | Private

  /** Decodes a wire code (`fromInt`): codes outside 0..4 yield no mode. */
  function FromInt(n: int): (r: Option<RoomMode>)
    ensures r.Some? <==> 0 <= n <= 4
  {
    match n
    case 0 => Some(AiGoalkeeper)
    case 1 => Some(PlayerGoalkeeper)
    case 2 => Some(TrainingOne)
    case 3 => Some(TrainingTwo)
    case 4 => Some(TrainingThree)
    case _ => None
  }

  /** Decoding undoes encoding, and encoding undoes decoding of every valid code. */
  lemma RoundTrip(m: RoomMode, n: int)
    ensures FromInt(m.ToInt()) == Some(m)
    ensures FromInt(n) == Some(m) ==> m.ToInt() == n
  {
  }

  /** Distinct modes have distinct codes. */
  lemma ToIntInjective(m1: RoomMode, m2: RoomMode)
    ensures m1.ToInt() == m2.ToInt() ==> m1 == m2
  {
    RoundTrip(m1, m2.ToInt());
  }

  /** On private, club and normal servers the only valid mode is the AI goalkeeper one. */
  lemma MatchServersAcceptOnlyAiGoalkeeper(m: RoomMode, server: ServerType)
    requires server != Practice
    ensures m.IsValidForServer(server) <==> m == AiGoalkeeper
  {
  }

  /** On a practice server exactly the three training modes are valid;
      the player-goalkeeper mode is valid nowhere. */
  lemma PracticeServerAcceptsTraining(m: RoomMode, server: ServerType)
    ensures m.IsValidForServer(Practice) <==> m.ToInt() >= 2
    ensures !PlayerGoalkeeper.IsValidForServer(server)
  {
  }
}
