/** The lobby of one room: the ids of the players on its lobby screen, in joining order, and
    whether team chat is on. */
module Lobbies {
  import opened Sequences

  /** The position of the first occurrence of `p` in `s`, or -1 (`List.indexOf`). */
  function IndexOf(s: seq<int>, p: int): (i: int)
    ensures -1 <= i < |s|
    ensures i == -1 <==> p !in s
    ensures i >= 0 ==> s[i] == p && p !in s[..i]
  {
    if s == [] then -1
    else if s[0] == p then 0
    else
      var j := IndexOf(s[1..], p);
      assert j >= 0 ==> s[1..][..j] == s[1..j + 1];
      if j == -1 then -1 else j + 1
  }

  /** `s` without the first occurrence of `p`; `s` itself when `p` is absent. */
  function RemoveFirst(s: seq<int>, p: int): (r: seq<int>)
    ensures p !in s ==> r == s
    ensures p in s ==> |r| == |s| - 1
    ensures multiset(r) == multiset(s) - multiset{p}
  {
    var i := IndexOf(s, p);
    if i < 0 then s
    else
      assert s == s[..i] + [p] + s[i + 1..];
      s[..i] + s[i + 1..]
  }

  /** Removal keeps every other player, in order, and keeps the list duplicate-free; with
      no duplicates the removed player is gone for good, and putting them back at their old
      position gives the list back. */
  lemma RemoveFirstKeepsOrder(s: seq<int>, p: int)
    requires NoDuplicates(s)
    ensures NoDuplicates(RemoveFirst(s, p))
    ensures p !in RemoveFirst(s, p)
    ensures forall q :: q != p ==> (q in RemoveFirst(s, p) <==> q in s)
    ensures p in s ==> var i := IndexOf(s, p);
                       s == RemoveFirst(s, p)[..i] + [p] + RemoveFirst(s, p)[i..]
  {
    var i := IndexOf(s, p);
    if i >= 0 {
      assert RemoveFirst(s, p) == s[..i] + s[i + 1..];
      ReinsertAt(s, i);
      RemovedIndices(s, i);
      RemovedMembers(s, i);
    }
  }

  /** Putting the value of position `i` back where it was undoes dropping it. */
  lemma ReinsertAt(s: seq<int>, i: int)
    requires 0 <= i < |s|
    ensures var r := s[..i] + s[i + 1..]; s == r[..i] + [s[i]] + r[i..]
  {
    var r := s[..i] + s[i + 1..];
    assert r[..i] == s[..i] && r[i..] == s[i + 1..];
    assert s == s[..i] + [s[i]] + s[i + 1..];
  }

  /** Dropping position `i` keeps every other value and, without duplicates, drops `s[i]`. */
  lemma RemovedMembers(s: seq<int>, i: int)
    requires NoDuplicates(s) && 0 <= i < |s|
    ensures s[i] !in s[..i] + s[i + 1..]
    ensures forall q :: q != s[i] ==> (q in s[..i] + s[i + 1..] <==> q in s)
  {
    var r := s[..i] + s[i + 1..];
    forall k | 0 <= k < |r| ensures r[k] != s[i] && r[k] in s {
      assert r[k] == s[if k < i then k else k + 1];
    }
    forall k | 0 <= k < |s| && k != i ensures s[k] in r {
      assert r[if k < i then k else k - 1] == s[k];
    }
  }

  /** Dropping one position of a duplicate-free list leaves it duplicate-free. */
  lemma RemovedIndices(s: seq<int>, i: int)
    requires NoDuplicates(s) && 0 <= i < |s|
    ensures NoDuplicates(s[..i] + s[i + 1..])
  {
    var r := s[..i] + s[i + 1..];
    forall a, b | 0 <= a < b < |r| ensures r[a] != r[b] {
      var a' := if a < i then a else a + 1;
      var b' := if b < i then b else b + 1;
      assert r[a] == s[a'] && r[b] == s[b'] && a' < b';
    }
  }

  /** In a duplicate-free list a present id occurs exactly once. */
  lemma {:induction false} OccursOnce(s: seq<int>, p: int)
    requires NoDuplicates(s) && p in s
    ensures multiset(s)[p] == 1
  {
    assert s == [s[0]] + s[1..];
    if s[0] == p {
      assert p !in s[1..] by {
        forall k | 0 <= k < |s[1..]| ensures s[1..][k] != p {
          assert s[1..][k] == s[k + 1];
        }
      }
    } else {
      assert NoDuplicates(s[1..]) by {
        forall a, b | 0 <= a < b < |s[1..]| ensures s[1..][a] != s[1..][b] {
          assert s[1..][a] == s[a + 1] && s[1..][b] == s[b + 1];
        }
      }
      OccursOnce(s[1..], p);
    }
  }

  /** Joining and then leaving gives back the lobby as it was. */
  lemma AddThenRemove(s: seq<int>, p: int)
    requires p !in s
    ensures RemoveFirst(s + [p], p) == s
  {
    assert IndexOf(s + [p], p) == |s| by {
      assert (s + [p])[..|s|] == s;
    }
    assert (s + [p])[..|s|] == s;
  }

  class RoomLobby {
    var players: seq<int>
    var teamChatEnabled: bool

    ghost predicate Valid()
      reads this
    {
      NoDuplicates(players)
    }

    /** An empty lobby with team chat on. */
    constructor ()
      ensures Valid()
      ensures players == [] && teamChatEnabled
    {
      players := [];
      teamChatEnabled := true;
    }

    /** Appends the player unless present; afterwards the player occurs exactly once. */
    method AddPlayer(playerId: int)
      requires Valid()
      modifies this`players
      ensures Valid()
      ensures players == if playerId in old(players) then old(players) else old(players) + [playerId]
      ensures multiset(players)[playerId] == 1
    {
      if playerId !in players {
        players := players + [playerId];
      }
      OccursOnce(players, playerId);
    }

    /** Removes the player's entry, if any, keeping the others in order. */
    method RemovePlayer(playerId: int)
      requires Valid()
      modifies this`players
      ensures Valid()
      ensures players == RemoveFirst(old(players), playerId)
      ensures playerId !in players
    {
      var index := IndexOf(players, playerId);
      RemoveFirstKeepsOrder(players, playerId);
      if index >= 0 {
        players := players[..index] + players[index + 1..];
      }
    }

    function IsTeamChatEnabled(): bool
      reads this
    {
      teamChatEnabled
    }

    method SetTeamChatEnabled(enabled: bool)
      modifies this`teamChatEnabled
      ensures teamChatEnabled == enabled
    {
      teamChatEnabled := enabled;
    }
  }
}
