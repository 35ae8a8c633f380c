# KicksEmu room and match core, in Dafny

This project models the room and match layer of the KicksEmu game server and proves
properties of the model. It covers:

- the room registry (`RoomManager`): id allocation, insertion without overwrite, removal,
  the page count, page listing and quick-join selection;
- the request handlers that create and configure rooms and drive a room through WAITING,
  COUNT_DOWN, LOADING, PLAYING and RESULT (`RoomMessages`, `ClubRoomMessages`);
- the reward one player earns at the end of a match (`PlayerRewards`);
- the small helpers around them: the room-mode encoding, the room lobby's player list, the
  expiry filters of the player cache and the skill price table.

Each handler receives the decoded request fields and the facts it would look up elsewhere
(server kind, player level, configuration values, "now") as parameters. It returns the
result code it would send. The registry is a class whose `rooms` map the handlers change
through its methods. Rooms, the lobby, the cache and the reward computation are classes
whose methods update their fields in place. Pure decision logic is written as functions. A
handler is proved against those functions and against lemmas about them.

Files and modules:

| file | module | models |
|---|---|---|
| wrappers.dfy | Wrappers | `Option`, the model of Java's `Optional` and of `null` |
| room_mode.dfy | RoomModes | `RoomMode`, `ServerType` |
| sequences.dfy | Sequences | duplicate-free lists of player ids |
| room.dfy | Rooms | the parts of a room the handlers use |
| room_manager.dfy | RoomRegistry | `RoomManager` |
| result_codes.dfy | ResultCodes | result codes chosen by a chain of checks |
| room_messages.dfy | RoomMessages | `RoomMessages` |
| club_room_messages.dfy | ClubRoomMessages | `ClubRoomMessages` |
| player_rewards.dfy | MatchRewards | `PlayerRewards` and the player's result line |
| room_lobby.dfy | Lobbies | `RoomLobby` |
| inventory.dfy | Inventory | item, skill and celebration entries; expiration kinds; payment |
| player_cache.dfy | PlayerCaches | `PlayerCache` |
| skill_price.dfy | SkillPrices | `SkillPrice` |

The ordering of Java's `HashMap` is not specified. Operations that depend on it take the
iteration order as a parameter `order`: a duplicate-free list of the registry's keys. Their
properties are proved for every such order. The stable sort of the quick-join query means
that, among the eligible rooms with the most players, the one earliest in `order` wins.

The model follows the code in these points, where the intended room lifecycle reads
differently:

- `playerReady` moves a loading room to PLAYING once every player has confirmed, but does
  not clear the confirmed list, although a new phase is meant to start with an empty list.
- `unknown1` sets the room to WAITING from any state and does not clear the confirmed list.
  The intended step is RESULT to WAITING, with the list cleared.
- The swap lock is meant to be short-lived and to expire by itself. The handler only locks;
  expiry belongs to the lock class, which is not part of this model, so a lock here never
  expires.
- The club `createRoom` has no "already in a room" test; the match-server one does.
- Neither settings handler, club or match-server, turns PASSWORD with an empty password
  into FREE, although both creation handlers do. A room can therefore end up
  PASSWORD-protected with an empty password.

## Model

| member | source | states |
|---|---|---|
| RoomModes.RoomMode.ToInt | src/main/java/com/neikeq/kicksemu/game/rooms/enums/RoomMode.java:36-51 | every mode's code lies in 0..4 and decodes back to that mode |
| RoomModes.FromInt | src/main/java/com/neikeq/kicksemu/game/rooms/enums/RoomMode.java:15-34 | a code yields a mode exactly when it lies in 0..4 |
| RoomModes.RoundTrip | src/main/java/com/neikeq/kicksemu/game/rooms/enums/RoomMode.java:15-51 | `FromInt(m.ToInt()) == Some(m)`, and a code that decodes to `m` is `m`'s code |
| RoomModes.ToIntInjective | src/main/java/com/neikeq/kicksemu/game/rooms/enums/RoomMode.java:36-51 | distinct modes have distinct codes |
| RoomModes.MatchServersAcceptOnlyAiGoalkeeper | src/main/java/com/neikeq/kicksemu/game/rooms/enums/RoomMode.java:55-58 | on private, club and normal servers a mode is valid iff it is AI_GOALKEEPER |
| RoomModes.PracticeServerAcceptsTraining | src/main/java/com/neikeq/kicksemu/game/rooms/enums/RoomMode.java:53-64 | on a practice server exactly the three training modes are valid; PLAYER_GOALKEEPER is valid on no server |
| Rooms.Room.AddPlayer | src/main/java/com/neikeq/kicksemu/game/rooms/messages/RoomMessages.java:115 | the player joins the roster with a team, the first player becomes master and host, and nothing else in the room changes |
| RoomRegistry.PagesFor | src/main/java/com/neikeq/kicksemu/game/rooms/RoomManager.java:53-55 | the page count is the smallest number of five-room pages that hold `n` rooms (the ceiling of n/5) |
| RoomRegistry.SmallestMissingIsUnique | src/main/java/com/neikeq/kicksemu/game/rooms/RoomManager.java:57-73 | at most one id is the smallest free positive id |
| RoomRegistry.SmallestMissingExamples | src/main/java/com/neikeq/kicksemu/game/rooms/RoomManager.java:61-73 | with keys {1,2,4} the new id is 3; with no keys it is 1 |
| RoomRegistry.FullRangeLeavesNext | src/main/java/com/neikeq/kicksemu/game/rooms/RoomManager.java:65-71 | when 1..n are all taken by n keys, n+1 is free, so the loop's fall-through value is right |
| RoomRegistry.FirstFrom | src/main/java/com/neikeq/kicksemu/game/rooms/RoomManager.java:87 | the filter-and-limit keeps at most `limit` ids, all taken from the order and all at least `start` |
| RoomRegistry.FirstFromComplete | src/main/java/com/neikeq/kicksemu/game/rooms/RoomManager.java:87 | when fewer than `limit` ids are kept, every id of the order that is at least `start` is among them |
| RoomRegistry.AtLeast | src/main/java/com/neikeq/kicksemu/game/rooms/RoomManager.java:87 | the filter alone keeps exactly the ids of the order that are at least `start` |
| RoomRegistry.FirstFromIsPrefix | src/main/java/com/neikeq/kicksemu/game/rooms/RoomManager.java:87 | the filter-and-limit is exactly the first `limit` filtered ids, or all of them when there are fewer |
| RoomRegistry.FirstFromDistinct | src/main/java/com/neikeq/kicksemu/game/rooms/RoomManager.java:82-87 | ids taken from a duplicate-free key order are duplicate-free |
| RoomRegistry.PageMap | src/main/java/com/neikeq/kicksemu/game/rooms/RoomManager.java:88 | the page map holds exactly the listed ids, each under the registry's room |
| RoomRegistry.PageMapOfDistinct | src/main/java/com/neikeq/kicksemu/game/rooms/RoomManager.java:88 | distinct ids give a page map with one entry per id |
| RoomRegistry.PageWindow | src/main/java/com/neikeq/kicksemu/game/rooms/RoomManager.java:81-91 | a page holds at most five rooms, each an entry of the registry with id ≥ start, and it holds all of them when it is not full |
| RoomRegistry.QuickIndex | src/main/java/com/neikeq/kicksemu/game/rooms/RoomManager.java:100-109 | none iff no room is eligible; otherwise an eligible room with the most players, every earlier eligible room having strictly fewer (stable sort, first wins) |
| RoomRegistry.RoomsOf | src/main/java/com/neikeq/kicksemu/game/rooms/RoomManager.java:101 | the rooms of the registry in the iteration order |
| RoomRegistry.RoomManager.GetRoomById | src/main/java/com/neikeq/kicksemu/game/rooms/RoomManager.java:21-29 | empty for every id ≤ 0 or absent id; otherwise exactly the registry's entry, whose id is the one asked for |
| RoomRegistry.RoomManager.AddRoom | src/main/java/com/neikeq/kicksemu/game/rooms/RoomManager.java:31-38 | inserts only when the id is absent, never overwrites, and keeps the page count equal to the ceiling of size/5 |
| RoomRegistry.RoomManager.RemoveRoom | src/main/java/com/neikeq/kicksemu/game/rooms/RoomManager.java:40-45 | deletes exactly that key, leaves every other entry, and keeps the page count right |
| RoomRegistry.RoomManager.UpdatePagesCount | src/main/java/com/neikeq/kicksemu/game/rooms/RoomManager.java:53-55 | the page count becomes the ceiling of size/5 and nothing else changes |
| RoomRegistry.RoomManager.GetSmallestMissingIndex | src/main/java/com/neikeq/kicksemu/game/rooms/RoomManager.java:61-73 | returns i with 1 ≤ i ≤ size+1, i not a key and every j in 1..i-1 a key |
| RoomRegistry.RoomManager.GetRoomsFromPage | src/main/java/com/neikeq/kicksemu/game/rooms/RoomManager.java:81-91 | at most five entries, each with id ≥ page·5 and the registry's room, all such entries when fewer than five |
| RoomRegistry.RoomManager.GetQuickRoom | src/main/java/com/neikeq/kicksemu/game/rooms/RoomManager.java:100-109 | empty iff no room can be quick-joined at that level; otherwise an eligible room with the most players, the earliest of those in iteration order |
| ResultCodes.FirstFailure | src/main/java/com/neikeq/kicksemu/game/rooms/messages/RoomMessages.java:231-251 | when every check passes the code is 0 |
| ResultCodes.FirstFailureFrom | src/main/java/com/neikeq/kicksemu/game/rooms/messages/RoomMessages.java:231-251 | each check in turn either fails with its own code or defers to the rest |
| ResultCodes.FirstFailureSpec | src/main/java/com/neikeq/kicksemu/game/rooms/messages/RoomMessages.java:231-251 | with non-zero codes the result is 0 iff every check passes, and otherwise it is the code of a failing check that all earlier checks passed |
| RoomMessages.Truncate | src/main/java/com/neikeq/kicksemu/game/rooms/messages/RoomMessages.java:85-91 | the result is the prefix of the input of length min(length, limit) |
| RoomMessages.EffectiveAccess | src/main/java/com/neikeq/kicksemu/game/rooms/messages/RoomMessages.java:93-96 | PASSWORD with an empty password becomes FREE; PASSWORD survives only with a password; other types are kept |
| RoomMessages.CreateRoomResult | src/main/java/com/neikeq/kicksemu/game/rooms/messages/RoomMessages.java:60-75 | 0 exactly when the levels are within 1..60, every setting is known, the mode suits the server and the creator's level is in range |
| RoomMessages.CreateRoomResultOrder | src/main/java/com/neikeq/kicksemu/game/rooms/messages/RoomMessages.java:60-75 | the code is the first failure of the checks -3 (level bounds), -1 (settings), -4 (player level), in that order |
| RoomMessages.CreateRoom | src/main/java/com/neikeq/kicksemu/game/rooms/messages/RoomMessages.java:43-122 | nothing happens for a player already in a room; otherwise the reply is the result code, and only on 0 a room is filed under the smallest free id with the truncated name and password, the normalised access type, the requested settings, its creator as master, host and sole member on the given team, no confirmations, no swap locks and start time 0 |
| RoomMessages.ClampMinLevel | src/main/java/com/neikeq/kicksemu/game/rooms/messages/RoomMessages.java:215-217 | the minimum level is raised to at least 1 and otherwise kept |
| RoomMessages.ClampMaxLevel | src/main/java/com/neikeq/kicksemu/game/rooms/messages/RoomMessages.java:219-221 | the maximum level is lowered to at most 60 and otherwise kept |
| RoomMessages.RoomSettingsResult | src/main/java/com/neikeq/kicksemu/game/rooms/messages/RoomMessages.java:223-251 | 0 only for the room's master, with every setting known and the clamped levels ordered around the player's level |
| RoomMessages.RoomSettingsResultOrder | src/main/java/com/neikeq/kicksemu/game/rooms/messages/RoomMessages.java:215-251 | the code is the first failure of -1, -2, -3, -4 (size below the roster), -5, -7, -8, -6, on the clamped levels |
| RoomMessages.RoomSettings | src/main/java/com/neikeq/kicksemu/game/rooms/messages/RoomMessages.java:205-277 | the result is the settings code of the room as it was; on a non-zero code the room is untouched; on 0 exactly the seven settings change |
| RoomMessages.ApplySettings | src/main/java/com/neikeq/kicksemu/game/rooms/messages/RoomMessages.java:252-268 | access, truncated name and password, mode, clamped levels and size are written; roster, state, map and ball are untouched |
| RoomMessages.SwapTeam | src/main/java/com/neikeq/kicksemu/game/rooms/messages/RoomMessages.java:279-297 | acts only for an unlocked member of a waiting room; the player is locked and the new team broadcast only when the team changes, and nothing else changes |
| RoomMessages.KickPlayer | src/main/java/com/neikeq/kicksemu/game/rooms/messages/RoomMessages.java:299-330 | no effect on a club server; -2 when the session's room is missing or is another room; -3 when the sender is not master or the room has left the lobby screen; -4 when the target is absent; otherwise the target is kicked |
| RoomMessages.ConfirmOnce | src/main/java/com/neikeq/kicksemu/game/rooms/messages/RoomMessages.java:384-386 | the sender is added at most once: the list keeps its prefix, gains at most one entry, holds the sender, and stays duplicate-free |
| RoomMessages.ConfirmAllCounts | src/main/java/com/neikeq/kicksemu/game/rooms/messages/RoomMessages.java:383-391 | signals from distinct unconfirmed players grow the list by one each, so the size gate opens at the last needed signal |
| RoomMessages.ConfirmAllRepeats | src/main/java/com/neikeq/kicksemu/game/rooms/messages/RoomMessages.java:384-386 | repeated signals leave the list unchanged |
| RoomMessages.StartCountDown | src/main/java/com/neikeq/kicksemu/game/rooms/messages/RoomMessages.java:372-402 | kind 1 confirms the sender and clears the list once its size reaches the roster size; kind -1 starts the countdown of a waiting room for its master; nothing else in the room changes; other kinds and other rooms change nothing |
| RoomMessages.PlayerReady | src/main/java/com/neikeq/kicksemu/game/rooms/messages/RoomMessages.java:454-483 | in LOADING the sender is confirmed once, and reaching the roster size sets PLAYING and the start time without clearing the list; nothing else in the room changes; outside LOADING only a reply is sent |
| RoomMessages.MatchResult | src/main/java/com/neikeq/kicksemu/game/rooms/messages/RoomMessages.java:501-522 | a no-op unless the room is PLAYING; otherwise it becomes RESULT, the confirmed list is cleared and nothing else changes |
| RoomMessages.Unknown1 | src/main/java/com/neikeq/kicksemu/game/rooms/messages/RoomMessages.java:524-533 | the sender's room returns to WAITING from any state; the confirmed list and every other field are untouched |
| RoomMessages.CancelLoading | src/main/java/com/neikeq/kicksemu/game/rooms/messages/RoomMessages.java:549-558 | LOADING becomes WAITING only when the sender was the host before the call; only the state changes, and otherwise nothing changes |
| ClubRoomMessages.ClubCreateRoomResult | src/main/java/com/neikeq/kicksemu/game/rooms/messages/ClubRoomMessages.java:38-50 | 0 exactly when type and mode are known and valid, the level is at least 3, the club id is positive and the club has no room yet |
| ClubRoomMessages.ClubCreateRoomResultOrder | src/main/java/com/neikeq/kicksemu/game/rooms/messages/ClubRoomMessages.java:42-50 | the code is the first failure of -1, -3, -4, -5, in that order |
| ClubRoomMessages.CreateRoom | src/main/java/com/neikeq/kicksemu/game/rooms/messages/ClubRoomMessages.java:27-95 | only on 0 a club room is filed under the club id, with levels 3..60, RESERVOIR, TEAM_ARENA, the 4v4 size, a name of at most 14 characters, a password of at most 4 and the normalised access type; the creator is master, host and sole member on the given team, with no confirmations, no swap locks and start time 0 |
| ClubRoomMessages.JoinRoom | src/main/java/com/neikeq/kicksemu/game/rooms/messages/ClubRoomMessages.java:97-112 | ignored for a player already in a room; -3 for a missing room; otherwise the room's join procedure with the given password |
| ClubRoomMessages.ClubSettingsResult | src/main/java/com/neikeq/kicksemu/game/rooms/messages/ClubRoomMessages.java:128-140 | 0 exactly when the access type is known and the sender is the master of an existing room |
| ClubRoomMessages.ClubSettingsResultOrder | src/main/java/com/neikeq/kicksemu/game/rooms/messages/ClubRoomMessages.java:132-140 | the code is the first failure of -1, -2, -3, in that order |
| ClubRoomMessages.RoomSettings | src/main/java/com/neikeq/kicksemu/game/rooms/messages/ClubRoomMessages.java:120-161 | on 0 only access type, name (14) and password (4) change, mode, levels and size staying; otherwise the room is untouched |
| ClubRoomMessages.InvitePlayer | src/main/java/com/neikeq/kicksemu/game/rooms/messages/ClubRoomMessages.java:163-201 | nothing without a room or with a full room; -2 when the target is not in the main lobby, -3 when the target refuses invitations, -6 when the target's club is not the room's; otherwise an invitation |
| MatchRewards.JavaDiv | src/main/java/com/neikeq/kicksemu/game/rooms/match/PlayerRewards.java:82 | Java's integer division: agrees with floor division on non-negatives, follows the dividend's sign, and is 0 for a dividend smaller than the divisor in size |
| MatchRewards.JavaDivBounds | src/main/java/com/neikeq/kicksemu/game/rooms/match/PlayerRewards.java:82 | the quotient truncates toward zero: q·b ≤ a < q·b + b for a ≥ 0, and q·b − b < a ≤ q·b for a < 0 |
| MatchRewards.CappedVotePoints | src/main/java/com/neikeq/kicksemu/game/rooms/match/PlayerRewards.java:60-61 | vote points are capped at 100 and otherwise kept |
| MatchRewards.RewardFactor | src/main/java/com/neikeq/kicksemu/game/rooms/match/PlayerRewards.java:63-80 | 6, 8, 10 give 12, 18, 24; -1 gives 12 iff practice rewards are on, the countdown is over and the player scored at least 3; anything else gives 0 |
| MatchRewards.BaseReward | src/main/java/com/neikeq/kicksemu/game/rooms/match/PlayerRewards.java:82 | for non-negative votes the base lies between 0 and ten times the factor; it is 0 without a factor and not positive below 10 votes |
| MatchRewards.LowersPercent | src/main/java/com/neikeq/kicksemu/game/rooms/match/PlayerRewards.java:174-186 | twice the levels below the room average, capped at 75, and 0 at or above the average |
| MatchRewards.DefenderPercent | src/main/java/com/neikeq/kicksemu/game/rooms/match/PlayerRewards.java:91-99 | 30 iff the player is a defender whose team conceded at most one goal and did not lose |
| MatchRewards.LowersBonusPercent | src/main/java/com/neikeq/kicksemu/game/rooms/match/PlayerRewards.java:101-103 | within 0..75, positive iff the bonus is on and the player is below the average |
| MatchRewards.MatchBonusPercent | src/main/java/com/neikeq/kicksemu/game/rooms/match/PlayerRewards.java:90-108 | the stacked percentage lies within 0..190 and is 0 iff no bonus applies |
| MatchRewards.ItemBonusesAppend | src/main/java/com/neikeq/kicksemu/game/rooms/match/PlayerRewards.java:114-118 | items apply in sequence: a list split in two gives what the second part gives from the first part's result |
| MatchRewards.NeutralItemsChangeNothing | src/main/java/com/neikeq/kicksemu/game/rooms/match/PlayerRewards.java:114-118 | items whose bonuses have no effect leave experience and points as they were |
| MatchRewards.CappedExperience | src/main/java/com/neikeq/kicksemu/game/rooms/match/PlayerRewards.java:135-139 | over the limit the total lands exactly on the limit; otherwise the gain is kept; it never grows |
| MatchRewards.FinalRewardsRespectLimit | src/main/java/com/neikeq/kicksemu/game/rooms/match/PlayerRewards.java:135-139 | a player who starts within the limit never ends above it, whatever the items, rates and mission do |
| MatchRewards.RewardExamples | src/main/java/com/neikeq/kicksemu/game/rooms/match/PlayerRewards.java:82-107 | factor 24 with 85 votes gives 192, and the MVP bonus alone raises it to 217 |
| MatchRewards.PlayerRewards.constructor | src/main/java/com/neikeq/kicksemu/game/rooms/match/PlayerRewards.java:30-37 | a new computation starts with rewards 0, levels earned 0 and last quest -1 |
| MatchRewards.PlayerRewards.ApplyMatchRewards | src/main/java/com/neikeq/kicksemu/game/rooms/match/PlayerRewards.java:39-56 | with a positive base the result line and counters hold the final rewards, levels and quest are recorded, and the write and messages are logged in order; otherwise nothing after the base runs and only the progress message is sent |
| MatchRewards.PlayerRewards.RewardPositiveBase | src/main/java/com/neikeq/kicksemu/game/rooms/match/PlayerRewards.java:42-53 | the pipeline from bonuses to quest ends with the final rewards in the counters and the result line |
| MatchRewards.PlayerRewards.CalculateBaseReward | src/main/java/com/neikeq/kicksemu/game/rooms/match/PlayerRewards.java:58-83 | the base is the factor times a tenth of the capped votes |
| MatchRewards.PlayerRewards.SetBaseReward | src/main/java/com/neikeq/kicksemu/game/rooms/match/PlayerRewards.java:218-222 | the bonus reward starts at the base and one percent is base/100 |
| MatchRewards.PlayerRewards.ApplyBonusPercentageIf | src/main/java/com/neikeq/kicksemu/game/rooms/match/PlayerRewards.java:188-192 | a bonus adds exactly one percent of the base times its percentage, and only when its condition holds |
| MatchRewards.PlayerRewards.ApplyLowersBonus | src/main/java/com/neikeq/kicksemu/game/rooms/match/PlayerRewards.java:174-186 | adds one percent of the base times the lowers percentage |
| MatchRewards.PlayerRewards.CalculateMatchBonuses | src/main/java/com/neikeq/kicksemu/game/rooms/match/PlayerRewards.java:90-108 | the bonuses stack additively: together they add one percent of the base times the total percentage |
| MatchRewards.PlayerRewards.CalculateItemBonuses | src/main/java/com/neikeq/kicksemu/game/rooms/match/PlayerRewards.java:110-119 | both counters start at the bonus reward, then every selected item applies its two bonuses in order |
| MatchRewards.PlayerRewards.ApplyRewardRates | src/main/java/com/neikeq/kicksemu/game/rooms/match/PlayerRewards.java:121-124 | experience and points are multiplied by their rates |
| MatchRewards.PlayerRewards.ApplyMissionReward | src/main/java/com/neikeq/kicksemu/game/rooms/match/PlayerRewards.java:126-133 | a mission adds its reward to both counters; no mission changes nothing |
| MatchRewards.PlayerRewards.LimitMaximumExperience | src/main/java/com/neikeq/kicksemu/game/rooms/match/PlayerRewards.java:135-139 | the experience is capped so that the total stays within the limit |
| MatchRewards.PlayerRewards.UpdateResultRewards | src/main/java/com/neikeq/kicksemu/game/rooms/match/PlayerRewards.java:141-144 | the result line receives the computed experience and points |
| MatchRewards.PlayerRewards.GiveReward | src/main/java/com/neikeq/kicksemu/game/rooms/match/PlayerRewards.java:146-149 | logs one database write of the result line's experience and points |
| MatchRewards.PlayerRewards.SendRequiredMessages | src/main/java/com/neikeq/kicksemu/game/rooms/match/PlayerRewards.java:160-172 | room updates and bonus stats only for a positive base, stats only when a level was earned, then progress and flush |
| Lobbies.IndexOf | src/main/java/com/neikeq/kicksemu/game/lobby/RoomLobby.java:31 | -1 iff the id is absent; otherwise a position holding the id with no earlier occurrence |
| Lobbies.RemoveFirst | src/main/java/com/neikeq/kicksemu/game/lobby/RoomLobby.java:31-35 | an absent id leaves the list unchanged; otherwise one occurrence is dropped and the multiset of the others is kept |
| Lobbies.RemoveFirstKeepsOrder | src/main/java/com/neikeq/kicksemu/game/lobby/RoomLobby.java:28-37 | removal keeps the list duplicate-free, removes the id for good and keeps every other id; putting the id back at its old position gives the list back, so the order of the others is kept |
| Lobbies.OccursOnce | src/main/java/com/neikeq/kicksemu/game/lobby/RoomLobby.java:20-26 | in a duplicate-free list a present id occurs exactly once |
| Lobbies.AddThenRemove | src/main/java/com/neikeq/kicksemu/game/lobby/RoomLobby.java:20-37 | adding a new player and then removing them gives back the original list |
| Lobbies.RoomLobby.constructor | src/main/java/com/neikeq/kicksemu/game/lobby/RoomLobby.java:8-11 | a new lobby is empty with team chat on |
| Lobbies.RoomLobby.AddPlayer | src/main/java/com/neikeq/kicksemu/game/lobby/RoomLobby.java:20-26 | appends an absent id, leaves a present one, and afterwards the id occurs exactly once |
| Lobbies.RoomLobby.RemovePlayer | src/main/java/com/neikeq/kicksemu/game/lobby/RoomLobby.java:28-37 | removes the id's entry, keeps the others in order and leaves no occurrence |
| Lobbies.RoomLobby.SetTeamChatEnabled | src/main/java/com/neikeq/kicksemu/game/lobby/RoomLobby.java:43-45 | the flag takes the given value; the player list is outside its frame |
| PlayerCaches.Values | src/main/java/com/neikeq/kicksemu/game/sessions/PlayerCache.java:134 | the values of a map in iteration order |
| PlayerCaches.Filter | src/main/java/com/neikeq/kicksemu/game/sessions/PlayerCache.java:135-139 | every value kept comes from the input and passes, and every passing value is kept |
| PlayerCaches.KeyIndex | src/main/java/com/neikeq/kicksemu/game/sessions/PlayerCache.java:140-141 | -1 iff no entry has the key; otherwise a position with the key |
| PlayerCaches.MergeEntry | src/main/java/com/neikeq/kicksemu/game/sessions/PlayerCache.java:140-141 | a new key is appended; a duplicate key removes the existing entry (the merge yields no value) |
| PlayerCaches.Collect | src/main/java/com/neikeq/kicksemu/game/sessions/PlayerCache.java:140-141 | collecting never yields more entries than values |
| PlayerCaches.EntryFilter | src/main/java/com/neikeq/kicksemu/game/sessions/PlayerCache.java:133-141 | the reference filter keeps exactly the entries whose value passes, in order |
| PlayerCaches.ValuesOfEntryFilter | src/main/java/com/neikeq/kicksemu/game/sessions/PlayerCache.java:134-139 | filtering entries and then taking values equals filtering the values |
| PlayerCaches.EntryFilterWellKeyed | src/main/java/com/neikeq/kicksemu/game/sessions/PlayerCache.java:140-141 | filtering keeps a map well keyed |
| PlayerCaches.CollectWellKeyed | src/main/java/com/neikeq/kicksemu/game/sessions/PlayerCache.java:140-141 | collecting the values of a well-keyed map rebuilds that map, order included |
| PlayerCaches.MergeWellKeyed | src/main/java/com/neikeq/kicksemu/game/sessions/PlayerCache.java:140-141 | merging a value under its own id keeps a map well keyed and adds no entry but that value's |
| PlayerCaches.CollectIsWellKeyed | src/main/java/com/neikeq/kicksemu/game/sessions/PlayerCache.java:140-141 | whatever the values, the collected map is well keyed and holds only values from the input |
| PlayerCaches.EntryFilterAllPass | src/main/java/com/neikeq/kicksemu/game/sessions/PlayerCache.java:135-139 | the reference filter leaves a map whose values all pass as it is |
| PlayerCaches.FilterIsEntryFilter | src/main/java/com/neikeq/kicksemu/game/sessions/PlayerCache.java:133-141 | on a well-keyed map the stream filter equals the reference filter: surviving entries, in order, under their own ids |
| PlayerCaches.EntryFilterIdempotent | src/main/java/com/neikeq/kicksemu/game/sessions/PlayerCache.java:133-141 | the reference filter applied twice equals applying it once |
| PlayerCaches.FilterTwice | src/main/java/com/neikeq/kicksemu/game/sessions/PlayerCache.java:130-145 | for every map, filtering twice at the same time gives the same map as filtering once |
| PlayerCaches.DuplicateIdsCancel | src/main/java/com/neikeq/kicksemu/game/sessions/PlayerCache.java:140-141 | two surviving values with the same id cancel out and neither is kept |
| PlayerCaches.ItemFilterKeepsLiveItems | src/main/java/com/neikeq/kicksemu/game/sessions/PlayerCache.java:133-141 | on a well-keyed map the item filter keeps exactly the usage items with uses left, the day items not yet expired and the permanent items, and is idempotent |
| PlayerCaches.FilterMatchesReference | src/main/java/com/neikeq/kicksemu/game/sessions/PlayerCache.java:133-141 | for any map: when it is well keyed, the stream filter equals the reference filter |
| PlayerCaches.PlayerCache.constructor | src/main/java/com/neikeq/kicksemu/game/sessions/PlayerCache.java:17-33 | a new cache has nothing loaded |
| PlayerCaches.PlayerCache.Clear | src/main/java/com/neikeq/kicksemu/game/sessions/PlayerCache.java:35-64 | every field becomes unloaded except the default clothes, which are kept |
| PlayerCaches.PlayerCache.GetItems | src/main/java/com/neikeq/kicksemu/game/sessions/PlayerCache.java:130-145 | an unloaded map stays unloaded; a loaded one is replaced by its filter, which keeps exactly the live items when it is well keyed, and is returned |
| PlayerCaches.PlayerCache.GetSkills | src/main/java/com/neikeq/kicksemu/game/sessions/PlayerCache.java:151-163 | the same for skills: kept exactly when expiring after now or permanent |
| PlayerCaches.PlayerCache.GetCeles | src/main/java/com/neikeq/kicksemu/game/sessions/PlayerCache.java:169-181 | the same for celebrations |
| SkillPrices.FromRow | src/main/java/com/neikeq/kicksemu/game/inventory/table/SkillPrice.java:16-23 | a row with at least six values gives the price whose row is its first six values, in field order; a shorter row gives none |
| SkillPrices.RowRoundTrip | src/main/java/com/neikeq/kicksemu/game/inventory/table/SkillPrice.java:16-23 | reading back a written price gives the same price |
| SkillPrices.SkillPrice.GetPriceFor | src/main/java/com/neikeq/kicksemu/game/inventory/table/SkillPrice.java:25-36 | a day or permanent duration reads a value of the row; a usage duration gives -1 |
| SkillPrices.Column | src/main/java/com/neikeq/kicksemu/game/inventory/table/SkillPrice.java:25-32 | kash prices sit in the first three columns and point prices in the last three |
| SkillPrices.PriceIsColumn | src/main/java/com/neikeq/kicksemu/game/inventory/table/SkillPrice.java:25-36 | 7 days, 30 days and permanent read their column for the currency; every other duration gives -1 |

## Left out

- Concurrency: the registry lock, the lobby lock and the cancellation of the loading-timeout task. Every operation runs alone, in sequence.
- Wire decoding and sending: decoded fields are parameters, and an absent enum value is `None`. A handler returns its reply code or outcome. Broadcasts are not modelled, except that `SwapTeam` returns the team it broadcasts and the reward step logs its messages.
- Room.java is not part of this model. Its fields are modelled from the handlers' use of them.
- Room operations are given assumed behaviour:
  - `addPlayer` makes the first player of an empty room its master and host.
  - `isNotFull` compares the player count with the player count of the room's size tier.
  - `RoomSize.toInt` is a player count, and SIZE_4V4 holds eight players.
  - `isLevelAllowed` is `minLevel <= level <= maxLevel`.
  - `canQuickJoin` is WAITING, not full, no password and not a club room.
  - `isInLobbyScreen` is WAITING or COUNT_DOWN.
  - `startCountdown` sets COUNT_DOWN.
  - `addPlayer` takes the new player's team as a parameter.
- Other room operations are parameters or outcomes:
  - `isValidMaxLevel` and `isValidMinLevel` are predicates passed in;
  - the team change of `swapPlayerTeam` is a boolean passed in;
  - `tryJoinRoom` is the `TryJoin` outcome;
  - the kicked player's `leaveRoom` is the `Kicked` outcome.
- RoomMessages.SwapTeam: the swap lock never expires here, because its expiry lives in the unseen lock class.
- RoomMessages.Truncate: names and passwords are sequences of Unicode characters, while Java's `length` and `substring` count UTF-16 units. A name with characters outside the Basic Multilingual Plane is therefore cut at a different point than the server cuts it, and the server can split a surrogate pair.
- RoomMessages.PlayerReady, RoomMessages.MatchResult and RoomMessages.Unknown1: a missing room has no effect. The source dereferences the lookup without a check and would throw.
- RoomMessages.MatchResult: the result handler itself, with its database work and its swallowed exception, is not modelled. The confirmed list is cleared either way.
- Handlers outside the modelled core are not modelled:
  - `roomList`, `joinRoom`, `quickJoinRoom`, `leaveRoom`, `roomMap`, `roomBall` and `invitePlayer` of the match server;
  - `roomList` of the club server;
  - `hostInfo`, `countDown`, `cancelCountDown`, `matchLoading`, `startMatch` and `unknown2`.
  The registry queries they rely on are modelled.
- Integer widths are not modelled: the model's integers are unbounded. This covers:
  - the signed-byte levels of requests;
  - the short page count;
  - the short levels earned and last quest;
  - 32-bit overflow in the reward multiplications.
- MatchRewards.BaseReward: the float cast is modelled as exact integer arithmetic. This is exact because the factor is at most 24 and a tenth of the votes at most 10.
- MatchRewards.PlayerRewards.ApplyMatchRewards has several collaborators passed in:
  - the item effects (`applyBonus`);
  - the bonus ids of the selected usage items, in iteration order;
  - the level-up check (`levelUp`);
  - the quest check (`questReached`);
  - the match facts.
  The database write is an event in the log. Reading the selected items from the cache also filters the cache; that step is not repeated here.
- PlayerCaches.PlayerCache.Clear: the source empties each map before dropping it, so other holders of that map see it emptied. The model does not capture this aliasing.
- PlayerCache also has trivial getters and setters, which are not modelled. Timestamps are integers.
- SkillPrices.FromRow: the row's values arrive already parsed as integers. A value that is not a number is not modelled.
- The SQL accessors, the row parser of free items and the configuration and clock lookups are not modelled. Their values are parameters.
