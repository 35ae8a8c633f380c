/** The process-wide registry of live rooms: id allocation, pagination and quick-join
    discovery. The registry lock is not modelled; every operation runs on its own. */
module RoomRegistry {
  import opened Wrappers
  import opened Rooms
  import opened Sequences

  const RoomsPerPage: nat := 5

  /** The page count for `n` rooms: the ceiling of n / 5. */
  function PagesFor(n: nat): (p: nat)
    ensures p * RoomsPerPage >= n
    ensures p > 0 ==> (p - 1) * RoomsPerPage < n
  {
    (n + RoomsPerPage - 1) / RoomsPerPage
  }

  /** `i` is the smallest positive integer that is not in `keys`. */
  ghost predicate IsSmallestMissing(keys: set<int>, i: int) {
    i >= 1 && i !in keys && forall j :: 1 <= j < i ==> j in keys
  }

  /** At most one integer is the smallest missing one. */
  lemma SmallestMissingIsUnique(keys: set<int>, i: int, i': int)
    requires IsSmallestMissing(keys, i) && IsSmallestMissing(keys, i')
    ensures i == i'
  {
  }

  /** For ids {1, 2, 4} the smallest missing id is 3; for no ids it is 1. */
  lemma SmallestMissingExamples(i: int)
    ensures IsSmallestMissing({1, 2, 4}, i) <==> i == 3
    ensures IsSmallestMissing({}, i) <==> i == 1
  {
    if IsSmallestMissing({1, 2, 4}, i) {
      SmallestMissingIsUnique({1, 2, 4}, i, 3);
    }
    if IsSmallestMissing({}, i) {
      SmallestMissingIsUnique({}, i, 1);
    }
  }

  /** The ids 1..n. */
  function IdRange(n: nat): (r: set<int>)
    ensures forall j :: j in r <==> 1 <= j <= n
  {
    if n == 0 then {} else IdRange(n - 1) + {n}
  }

  lemma {:induction false} IdRangeSize(n: nat)
    ensures |IdRange(n)| == n
  {
    if n > 0 {
      IdRangeSize(n - 1);
      assert IdRange(n) == IdRange(n - 1) + {n};
    }
  }

  /** A set of `n` keys that holds every id 1..n holds nothing else, so n + 1 is missing. */
  lemma {:induction false} FullRangeLeavesNext(keys: set<int>, n: nat)
    requires |keys| == n
    requires forall j :: 1 <= j <= n ==> j in keys
    ensures n + 1 !in keys
  {
    IdRangeSize(n);
    assert IdRange(n) <= keys;
    assert |keys - IdRange(n)| == 0;
    assert keys == IdRange(n);
  }

  /** The first `limit` elements of `order` that are at least `start`, in order:
      the stream filter-then-limit of the page query. */
  function FirstFrom(order: seq<int>, start: int, limit: nat): (r: seq<int>)
    ensures |r| <= limit && |r| <= |order|
    ensures forall i :: 0 <= i < |r| ==> r[i] in order && r[i] >= start
  {
    if order == [] || limit == 0 then []
    else if order[0] >= start then [order[0]] + FirstFrom(order[1..], start, limit - 1)
    else FirstFrom(order[1..], start, limit)
  }

  /** The elements of `order` that are at least `start`, in order: the filter alone. */
  function AtLeast(order: seq<int>, start: int): (r: seq<int>)
    ensures |r| <= |order|
    ensures forall x :: x in r <==> x in order && x >= start
  {
    if order == [] then []
    else if order[0] >= start then [order[0]] + AtLeast(order[1..], start)
    else AtLeast(order[1..], start)
  }

  /** The window is the first `limit` elements of the filtered order, or all of them when
      there are fewer. */
  lemma {:induction false} FirstFromIsPrefix(order: seq<int>, start: int, limit: nat)
    ensures var q := AtLeast(order, start);
            FirstFrom(order, start, limit) == q[..if |q| < limit then |q| else limit]
  {
    var q := AtLeast(order, start);
    if order == [] || limit == 0 {
      assert q[..0] == [];
    } else if order[0] >= start {
      var q' := AtLeast(order[1..], start);
      assert q == [order[0]] + q';
      assert FirstFrom(order, start, limit) == [order[0]] + FirstFrom(order[1..], start, limit - 1);
      FirstFromIsPrefix(order[1..], start, limit - 1);
      var n := if |q'| < limit - 1 then |q'| else limit - 1;
      assert q[..n + 1] == [order[0]] + q'[..n];
    } else {
      assert q == AtLeast(order[1..], start);
      assert FirstFrom(order, start, limit) == FirstFrom(order[1..], start, limit);
      FirstFromIsPrefix(order[1..], start, limit);
    }
  }

  /** When the window is not filled, it holds every element that passes the filter. */
  lemma {:induction false} FirstFromComplete(order: seq<int>, start: int, limit: nat, k: int)
    requires |FirstFrom(order, start, limit)| < limit
    requires k in order && k >= start
    ensures k in FirstFrom(order, start, limit)
  {
    if order[0] != k {
      assert k in order[1..];
      if order[0] >= start {
        FirstFromComplete(order[1..], start, limit - 1, k);
      } else {
        FirstFromComplete(order[1..], start, limit, k);
      }
    }
  }

  /** The rooms listed by `ids`, as a map. */
  function PageMap(rooms: map<int, Room>, ids: seq<int>): (r: map<int, Room>)
    requires forall i :: 0 <= i < |ids| ==> ids[i] in rooms
    ensures |r| <= |ids|
    ensures forall k :: k in r <==> k in ids
    ensures forall k :: k in r ==> r[k] == rooms[k]
  {
    if ids == [] then map[]
    else
      var rest := PageMap(rooms, ids[1..]);
      rest[ids[0] := rooms[ids[0]]]
  }

  /** The rooms a quick join may pick for a player of `level`. */
  predicate Eligible(room: Room, level: int)
    reads room
  {
    room.CanQuickJoin() && room.IsLevelAllowed(level)
  }

  /** The position of the quick-join pick in `rs`: the eligible room with the most players,
      the earliest one on a tie (a stable sort by decreasing size, then the head). */
  function QuickIndex(rs: seq<Room>, level: int): (r: Option<nat>)
    reads rs
    ensures r.None? <==> forall i :: 0 <= i < |rs| ==> !Eligible(rs[i], level)
    ensures r.Some? ==> r.value < |rs| && Eligible(rs[r.value], level)
    ensures r.Some? ==> forall i :: 0 <= i < |rs| && Eligible(rs[i], level) ==>
                          rs[i].CurrentSize() <= rs[r.value].CurrentSize()
    ensures r.Some? ==> forall i :: 0 <= i < r.value && Eligible(rs[i], level) ==>
                          rs[i].CurrentSize() < rs[r.value].CurrentSize()
  {
    if rs == [] then None
    else
      var rest := QuickIndex(rs[1..], level);
      if Eligible(rs[0], level) && (rest.None? || rs[1..][rest.value].CurrentSize() <= rs[0].CurrentSize()) then
        Some(0)
      else if rest.Some? then Some(rest.value + 1)
      else None
  }

  /** The rooms of `rooms` listed in the order of `ids`. */
  function RoomsOf(rooms: map<int, Room>, ids: seq<int>): (r: seq<Room>)
    requires forall i :: 0 <= i < |ids| ==> ids[i] in rooms
    ensures |r| == |ids|
    ensures forall i :: 0 <= i < |ids| ==> r[i] == rooms[ids[i]]
  {
    if ids == [] then [] else [rooms[ids[0]]] + RoomsOf(rooms, ids[1..])
  }

  class RoomManager {
    var rooms: map<int, Room>
    var pagesCount: int

    /** The page count matches the number of rooms, and each room is filed under its own id. */
    ghost predicate Valid()
      reads this
    {
      && pagesCount == PagesFor(|rooms|)
      && forall k :: k in rooms ==> rooms[k].id == k
    }

    /** Every filed room keeps its own invariant. */
    ghost predicate RoomsValid()
      reads this, rooms.Values
    {
      forall k :: k in rooms ==> rooms[k].Valid()
    }

    /** `order` lists every id of the registry once: the map's iteration order. */
    ghost predicate IsIterationOrder(order: seq<int>)
      reads this
    {
      && NoDuplicates(order)
      && (forall i :: 0 <= i < |order| ==> order[i] in rooms)
      && (forall k :: k in rooms ==> k in order)
    }

    constructor ()
      ensures Valid() && rooms == map[]
    {
      rooms := map[];
      pagesCount := 0;
    }

    /** The room filed under `id`; nothing for a non-positive id. */
    function GetRoomById(id: int): (r: Option<Room>)
      reads this
      requires Valid()
      ensures r.Some? <==> id > 0 && id in rooms
      ensures r.Some? ==> r.value == rooms[id] && r.value.id == id
    {
      if id <= 0 then None
      else if id in rooms then Some(rooms[id])
      else None
    }

    /** The room a handler for `id` may change: the one filed under it, if any. */
    function Footprint(id: int): (r: set<Room>)
      reads this
      ensures r == if id > 0 && id in rooms then {rooms[id]} else {}
    {
      if id > 0 && id in rooms then {rooms[id]} else {}
    }

    function RoomsCount(): nat
      reads this
    {
      |rooms|
    }

    /** Files `room` under its id unless that id is taken; an existing entry is never replaced. */
    method AddRoom(room: Room)
      requires Valid()
      modifies this
      ensures Valid()
      ensures room.id in old(rooms) ==> rooms == old(rooms)
      ensures room.id !in old(rooms) ==> rooms == old(rooms)[room.id := room]
    {
      if room.id !in rooms {
        rooms := rooms[room.id := room];
        UpdatePagesCount();
      }
    }

    /** Deletes the entry for `id`, if any, and leaves every other entry as it was. */
    method RemoveRoom(id: int)
      requires Valid()
      modifies this
      ensures Valid()
      ensures rooms == old(rooms) - {id}
    {
      rooms := rooms - {id};
      UpdatePagesCount();
    }

    method UpdatePagesCount()
      modifies this`pagesCount
      ensures pagesCount == PagesFor(|rooms|)
    {
      pagesCount := PagesFor(RoomsCount());
    }

    /** The id a new room receives: the smallest positive id that is free. */
    method GetSmallestMissingIndex() returns (i: int)
      ensures IsSmallestMissing(rooms.Keys, i)
      ensures i <= |rooms| + 1
    {
      i := 1;
      while i <= |rooms|
        invariant 1 <= i <= |rooms| + 1
        invariant forall j :: 1 <= j < i ==> j in rooms
      {
        if i !in rooms {
          return;
        }
        i := i + 1;
      }
      FullRangeLeavesNext(rooms.Keys, |rooms|);
    }

    /** Up to five rooms whose id is at least page * 5, the first such in iteration order. */
    function GetRoomsFromPage(page: int, order: seq<int>): (r: map<int, Room>)
      reads this
      requires IsIterationOrder(order)
      ensures |r| <= RoomsPerPage
      ensures forall k :: k in r ==> k in rooms && k >= page * RoomsPerPage && r[k] == rooms[k]
      ensures |r| < RoomsPerPage ==>
                forall k :: k in rooms && k >= page * RoomsPerPage ==> k in r
    {
      var ids := FirstFrom(order, page * RoomsPerPage, RoomsPerPage);
      assert forall i :: 0 <= i < |ids| ==> ids[i] in rooms by {
        forall i | 0 <= i < |ids| ensures ids[i] in rooms {
          var j :| 0 <= j < |order| && order[j] == ids[i];
        }
      }
      PageWindow(rooms, order, page * RoomsPerPage);
      PageMap(rooms, ids)
    }

    /** The quick-join pick for a player of `level`: an eligible room with the most players,
        the first in iteration order on a tie; nothing when no room is eligible. */
    function GetQuickRoom(level: int, order: seq<int>): (r: Option<Room>)
      reads this, rooms.Values
      requires IsIterationOrder(order)
      ensures r.None? <==> forall k :: k in rooms ==> !Eligible(rooms[k], level)
      ensures r.Some? ==> Eligible(r.value, level)
      ensures r.Some? ==> forall k :: k in rooms && Eligible(rooms[k], level) ==>
                            rooms[k].CurrentSize() <= r.value.CurrentSize()
      ensures r.Some? ==> exists p :: 0 <= p < |order| && rooms[order[p]] == r.value &&
                            forall q :: 0 <= q < p && Eligible(rooms[order[q]], level) ==>
                              rooms[order[q]].CurrentSize() < r.value.CurrentSize()
    {
      var rs := RoomsOf(rooms, order);
      var pick := QuickIndex(rs, level);
      if pick.None? then
        assert forall k :: k in rooms ==> !Eligible(rooms[k], level) by {
          forall k | k in rooms ensures !Eligible(rooms[k], level) {
            var p :| 0 <= p < |order| && order[p] == k;
            assert rs[p] == rooms[k];
          }
        }
        None
      else
        var p := pick.value;
        assert forall k :: k in rooms && Eligible(rooms[k], level) ==>
                 rooms[k].CurrentSize() <= rs[p].CurrentSize() by {
          forall k | k in rooms && Eligible(rooms[k], level)
            ensures rooms[k].CurrentSize() <= rs[p].CurrentSize()
          {
            var q :| 0 <= q < |order| && order[q] == k;
            assert rs[q] == rooms[k];
          }
        }
        Some(rs[p])
    }
  }

  /** Distinct ids give a map with as many entries. */
  lemma {:induction false} PageMapOfDistinct(rooms: map<int, Room>, ids: seq<int>)
    requires forall i :: 0 <= i < |ids| ==> ids[i] in rooms
    requires NoDuplicates(ids)
    ensures |PageMap(rooms, ids)| == |ids|
  {
    if ids != [] {
      PageMapOfDistinct(rooms, ids[1..]);
      assert ids[0] !in ids[1..];
    }
  }

  /** Filtering and limiting a duplicate-free order keeps it duplicate-free. */
  lemma {:induction false} FirstFromDistinct(order: seq<int>, start: int, limit: nat)
    requires NoDuplicates(order)
    ensures NoDuplicates(FirstFrom(order, start, limit))
  {
    if order != [] && limit > 0 {
      assert NoDuplicates(order[1..]);
      if order[0] >= start {
        FirstFromDistinct(order[1..], start, limit - 1);
        var rest := FirstFrom(order[1..], start, limit - 1);
        assert order[0] !in order[1..] by {
          forall j | 0 <= j < |order[1..]| ensures order[1..][j] != order[0] {
            assert order[1..][j] == order[j + 1];
          }
        }
        assert FirstFrom(order, start, limit) == [order[0]] + rest;
      } else {
        FirstFromDistinct(order[1..], start, limit);
      }
    }
  }

  /** The page window of an iteration order: at most a page of rooms, each filed under a
      large enough id, and every such room when the page is not full. */
  lemma PageWindow(rooms: map<int, Room>, order: seq<int>, start: int)
    requires NoDuplicates(order)
    requires forall i :: 0 <= i < |order| ==> order[i] in rooms
    ensures var r := PageMap(rooms, FirstFrom(order, start, RoomsPerPage));
            |r| < RoomsPerPage ==> forall k :: k in rooms && k >= start && k in order ==> k in r
  {
    var ids := FirstFrom(order, start, RoomsPerPage);
    if |ids| == RoomsPerPage {
      FirstFromDistinct(order, start, RoomsPerPage);
      PageMapOfDistinct(rooms, ids);
    }
    forall k | |ids| < RoomsPerPage && k in rooms && k >= start && k in order
      ensures k in ids
    {
      FirstFromComplete(order, start, RoomsPerPage, k);
    }
  }
}
