/** The per-session cache of a player's data. Each inventory map is kept as its entries in
    iteration order, `None` standing for a map that was never loaded. Reading the items,
    skills or celebrations drops the expired entries and stores the result back. */
module PlayerCaches {
  import opened Wrappers
  import opened Inventory

  // ---------------------------------------------------------------------------------------
  // Collecting entries into an insertion-ordered map

  /** The values of the entries, in order. */
  function Values<V>(es: seq<(int, V)>): (vs: seq<V>)
    ensures |vs| == |es|
    ensures forall i :: 0 <= i < |es| ==> vs[i] == es[i].1
  {
    seq(|es|, i requires 0 <= i < |es| => es[i].1)
  }

  /** The values that pass `keep`, in order. */
  function Filter<V>(vs: seq<V>, keep: V -> bool): (r: seq<V>)
    ensures |r| <= |vs|
    ensures forall i :: 0 <= i < |r| ==> r[i] in vs && keep(r[i])
    ensures forall i :: 0 <= i < |vs| && keep(vs[i]) ==> vs[i] in r
  {
    if vs == [] then []
    else Filter(vs[..|vs| - 1], keep) + (if keep(vs[|vs| - 1]) then [vs[|vs| - 1]] else [])
  }

  /** The position of the entry for `key`, or -1. */
  function KeyIndex<V>(es: seq<(int, V)>, key: int): (i: int)
    ensures -1 <= i < |es|
    ensures i == -1 <==> forall j :: 0 <= j < |es| ==> es[j].0 != key
    ensures i >= 0 ==> es[i].0 == key
  {
    if es == [] then -1
    else if es[|es| - 1].0 == key then |es| - 1
    else KeyIndex(es[..|es| - 1], key)
  }

  /** Puts `v` under `key` at the end of the map; when the key is already present the merge
      yields no value, which removes the key instead. */
  function MergeEntry<V>(es: seq<(int, V)>, key: int, v: V): (r: seq<(int, V)>)
    ensures KeyIndex(es, key) == -1 ==> r == es + [(key, v)]
    ensures KeyIndex(es, key) >= 0 ==> |r| == |es| - 1
  {
    var i := KeyIndex(es, key);
    if i < 0 then es + [(key, v)] else es[..i] + es[i + 1..]
  }

  /** The values collected, in order, into a map keyed by `id`. */
  function Collect<V>(vs: seq<V>, id: V -> int): (r: seq<(int, V)>)
    ensures |r| <= |vs|
  {
    if vs == [] then []
    else MergeEntry(Collect(vs[..|vs| - 1], id), id(vs[|vs| - 1]), vs[|vs| - 1])
  }

  /** The expiry filter of the cache: the surviving values, collected by id. */
  function FilterEntries<V>(es: seq<(int, V)>, keep: V -> bool, id: V -> int): seq<(int, V)> {
    Collect(Filter(Values(es), keep), id)
  }

  /** The reference filter: the entries whose value passes `keep`, in order, under their own
      keys. */
  function EntryFilter<V>(es: seq<(int, V)>, keep: V -> bool): (r: seq<(int, V)>)
    ensures |r| <= |es|
    ensures forall i :: 0 <= i < |r| ==> r[i] in es && keep(r[i].1)
    ensures forall i :: 0 <= i < |es| && keep(es[i].1) ==> es[i] in r
  {
    if es == [] then []
    else EntryFilter(es[..|es| - 1], keep) + (if keep(es[|es| - 1].1) then [es[|es| - 1]] else [])
  }

  /** Keys are distinct and every entry is filed under its value's own id. */
  ghost predicate WellKeyed<V>(es: seq<(int, V)>, id: V -> int) {
    && (forall i, j :: 0 <= i < j < |es| ==> es[i].0 != es[j].0)
    && (forall i :: 0 <= i < |es| ==> es[i].0 == id(es[i].1))
  }

  lemma {:induction false} ValuesOfEntryFilter<V>(es: seq<(int, V)>, keep: V -> bool)
    ensures Values(EntryFilter(es, keep)) == Filter(Values(es), keep)
    decreases |es|
  {
    if es != [] {
      var init := es[..|es| - 1];
      assert Values(es)[..|es| - 1] == Values(init);
      ValuesOfEntryFilter(init, keep);
      var tail: seq<(int, V)> := if keep(es[|es| - 1].1) then [es[|es| - 1]] else [];
      assert Values(EntryFilter(init, keep) + tail) == Values(EntryFilter(init, keep)) + Values(tail);
    }
  }

  lemma {:induction false} EntryFilterWellKeyed<V>(es: seq<(int, V)>, keep: V -> bool, id: V -> int)
    requires WellKeyed(es, id)
    ensures WellKeyed(EntryFilter(es, keep), id)
    decreases |es|
  {
    if es != [] {
      var init := es[..|es| - 1];
      var last := es[|es| - 1];
      EntryFilterWellKeyed(init, keep, id);
      var f := EntryFilter(init, keep);
      forall k | 0 <= k < |f| ensures f[k].0 != last.0 {
        assert f[k] in init;
        var j :| 0 <= j < |init| && init[j] == f[k];
        assert es[j] == f[k];
      }
    }
  }

  lemma {:induction false} CollectWellKeyed<V>(es: seq<(int, V)>, id: V -> int)
    requires WellKeyed(es, id)
    ensures Collect(Values(es), id) == es
    decreases |es|
  {
    if es != [] {
      var init := es[..|es| - 1];
      var last := es[|es| - 1];
      var vs := Values(es);
      assert vs[..|vs| - 1] == Values(init);
      WellKeyedInit(es, id);
      CollectWellKeyed(init, id);
      assert Collect(vs, id) == MergeEntry(init, last.0, last.1);
      assert KeyIndex(init, last.0) == -1 by {
        forall j | 0 <= j < |init| ensures init[j].0 != last.0 {
          assert init[j] == es[j];
        }
      }
      assert init + [last] == es;
    }
  }

  /** Dropping the last entry keeps a map well keyed, and that entry sits under its own id. */
  lemma WellKeyedInit<V>(es: seq<(int, V)>, id: V -> int)
    requires WellKeyed(es, id) && es != []
    ensures WellKeyed(es[..|es| - 1], id)
    ensures es[|es| - 1].0 == id(es[|es| - 1].1)
  {
    var init := es[..|es| - 1];
    forall a, b | 0 <= a < b < |init| ensures init[a].0 != init[b].0 {
      assert init[a] == es[a] && init[b] == es[b];
    }
    forall a | 0 <= a < |init| ensures init[a].0 == id(init[a].1) {
      assert init[a] == es[a];
    }
  }

  /** For a well-keyed map the filter is the reference filter: it keeps exactly the entries
      whose value passes, in their order, under their keys. */
  lemma FilterIsEntryFilter<V>(es: seq<(int, V)>, keep: V -> bool, id: V -> int)
    requires WellKeyed(es, id)
    ensures FilterEntries(es, keep, id) == EntryFilter(es, keep)
    ensures WellKeyed(EntryFilter(es, keep), id)
  {
    ValuesOfEntryFilter(es, keep);
    EntryFilterWellKeyed(es, keep, id);
    CollectWellKeyed(EntryFilter(es, keep), id);
  }

  lemma {:induction false} EntryFilterIdempotent<V>(es: seq<(int, V)>, keep: V -> bool)
    ensures EntryFilter(EntryFilter(es, keep), keep) == EntryFilter(es, keep)
    decreases |es|
  {
    if es != [] {
      var init := es[..|es| - 1];
      EntryFilterIdempotent(init, keep);
      var f := EntryFilter(init, keep);
      assert EntryFilter(f, keep) == f;
      if keep(es[|es| - 1].1) {
        var g := f + [es[|es| - 1]];
        assert EntryFilter(es, keep) == g;
        assert g[..|g| - 1] == f;
        assert EntryFilter(g, keep) == EntryFilter(f, keep) + [es[|es| - 1]];
      } else {
        assert EntryFilter(es, keep) == f;
      }
    }
  }

  /** Filtering a second time, at the same time, changes nothing, whatever the map: the
      first filter's result is always well keyed and holds only values that pass. */
  lemma FilterTwice<V>(es: seq<(int, V)>, keep: V -> bool, id: V -> int)
    ensures FilterEntries(FilterEntries(es, keep, id), keep, id) == FilterEntries(es, keep, id)
  {
    var vs := Filter(Values(es), keep);
    var c := Collect(vs, id);
    CollectIsWellKeyed(vs, id);
    FilterIsEntryFilter(c, keep, id);
    forall j | 0 <= j < |c| ensures keep(c[j].1) {
      var k :| 0 <= k < |vs| && vs[k] == c[j].1;
    }
    EntryFilterAllPass(c, keep);
  }

  /** Merging a value under its own id keeps a map well keyed, and adds no entry but that
      value's. */
  lemma MergeWellKeyed<V>(es: seq<(int, V)>, v: V, id: V -> int)
    requires WellKeyed(es, id)
    ensures var r := MergeEntry(es, id(v), v);
            && WellKeyed(r, id)
            && forall j :: 0 <= j < |r| ==> r[j] in es || r[j] == (id(v), v)
  {
    var i := KeyIndex(es, id(v));
    if i >= 0 {
      var r := es[..i] + es[i + 1..];
      assert MergeEntry(es, id(v), v) == r;
      forall a, b | 0 <= a < b < |r| ensures r[a].0 != r[b].0 {
        assert r[a] == es[if a < i then a else a + 1];
        assert r[b] == es[if b < i then b else b + 1];
      }
      forall a | 0 <= a < |r| ensures r[a].0 == id(r[a].1) && r[a] in es {
        assert r[a] == es[if a < i then a else a + 1];
      }
    } else {
      var r := es + [(id(v), v)];
      forall a, b | 0 <= a < b < |r| ensures r[a].0 != r[b].0 {
        assert r[a] == es[a];
      }
    }
  }

  /** Whatever the values, collecting them gives a well-keyed map of some of them. */
  lemma {:induction false} CollectIsWellKeyed<V>(vs: seq<V>, id: V -> int)
    ensures WellKeyed(Collect(vs, id), id)
    ensures forall j :: 0 <= j < |Collect(vs, id)| ==> Collect(vs, id)[j].1 in vs
    decreases |vs|
  {
    if vs != [] {
      var init, last := vs[..|vs| - 1], vs[|vs| - 1];
      var c := Collect(init, id);
      CollectIsWellKeyed(init, id);
      MergeWellKeyed(c, last, id);
      var r := Collect(vs, id);
      forall j | 0 <= j < |r| ensures r[j].1 in vs {
        if r[j] != (id(last), last) {
          var k :| 0 <= k < |c| && c[k] == r[j];
          var m :| 0 <= m < |init| && init[m] == c[k].1;
          assert vs[m] == init[m];
        }
      }
    }
  }

  /** The reference filter keeps a map whose values all pass as it is. */
  lemma {:induction false} EntryFilterAllPass<V>(es: seq<(int, V)>, keep: V -> bool)
    requires forall i :: 0 <= i < |es| ==> keep(es[i].1)
    ensures EntryFilter(es, keep) == es
    decreases |es|
  {
    if es != [] {
      var init := es[..|es| - 1];
      forall i | 0 <= i < |init| ensures keep(init[i].1) {
        assert init[i] == es[i];
      }
      EntryFilterAllPass(init, keep);
      assert init + [es[|es| - 1]] == es;
    }
  }

  /** Two surviving values with the same id cancel out: neither is kept. */
  lemma DuplicateIdsCancel<V>(a: V, b: V, id: V -> int)
    requires id(a) == id(b)
    ensures Collect([a, b], id) == []
  {
    assert [a, b][..1] == [a];
    assert [a][..0] == [];
  }

  // ---------------------------------------------------------------------------------------
  // The three expiry rules

  /** An item survives while it has uses left (usage items), while its days have not run
      out (day items), or forever (permanent items). */
  predicate KeepItem(i: Item, now: int) {
    || (i.expiration.IsUsage() && i.usages > 0)
    || (i.expiration.IsDays() && i.timestampExpire > now)
    || i.expiration.IsPermanent()
  }

  predicate KeepSkill(s: Skill, now: int) {
    s.timestampExpire > now || s.expiration.IsPermanent()
  }

  predicate KeepCelebration(c: Celebration, now: int) {
    c.timestampExpire > now || c.expiration.IsPermanent()
  }

  function ItemFilter(now: int): Item -> bool {
    i => KeepItem(i, now)
  }

  function SkillFilter(now: int): Skill -> bool {
    s => KeepSkill(s, now)
  }

  function CelebrationFilter(now: int): Celebration -> bool {
    c => KeepCelebration(c, now)
  }

  function ItemId(i: Item): int {
    i.inventoryId
  }

  function SkillId(s: Skill): int {
    s.inventoryId
  }

  function CelebrationId(c: Celebration): int {
    c.inventoryId
  }

  /** The item filter on a well-keyed map keeps exactly the live items, in order. */
  lemma ItemFilterKeepsLiveItems(es: seq<(int, Item)>, now: int)
    requires WellKeyed(es, ItemId)
    ensures var r := FilterEntries(es, ItemFilter(now), ItemId);
            && WellKeyed(r, ItemId)
            && (forall e :: e in r <==> e in es && KeepItem(e.1, now))
            && FilterEntries(r, ItemFilter(now), ItemId) == r
  {
    FilterIsEntryFilter(es, ItemFilter(now), ItemId);
    FilterTwice(es, ItemFilter(now), ItemId);
  }

  // ---------------------------------------------------------------------------------------
  // The cache

  /** A player's cached data; `Clothes` and `Training` stand for the default-clothes record
      and the learned-training record, which the cache only stores. */
  class PlayerCache<Clothes, Training> {
    var owner: Option<int>
    var clubId: Option<int>
    var defaultClothes: Option<Clothes>
    var defaultHead: Option<int>
    var defaultShirts: Option<int>
    var defaultPants: Option<int>
    var defaultShoes: Option<int>
    var animation: Option<int>
    var name: Option<string>
    var items: Option<seq<(int, Item)>>
    var skills: Option<seq<(int, Skill)>>
    var celes: Option<seq<(int, Celebration)>>
    var learns: Option<seq<(int, Training)>>

    /** An empty cache: nothing loaded. */
    constructor ()
      ensures owner == None && clubId == None && defaultClothes == None
      ensures defaultHead == None && defaultShirts == None && defaultPants == None && defaultShoes == None
      ensures animation == None && name == None
      ensures items == None && skills == None && celes == None && learns == None
    {
      owner, clubId, defaultClothes := None, None, None;
      defaultHead, defaultShirts, defaultPants, defaultShoes := None, None, None, None;
      animation, name := None, None;
      items, skills, celes, learns := None, None, None, None;
    }

    /** Forgets everything but the default clothes. */
    method Clear()
      modifies this
      ensures owner == None && clubId == None
      ensures defaultHead == None && defaultShirts == None && defaultPants == None && defaultShoes == None
      ensures animation == None && name == None
      ensures items == None && skills == None && celes == None && learns == None
      ensures defaultClothes == old(defaultClothes)
    {
      owner := None;
      clubId := None;
      defaultHead := None;
      defaultShirts := None;
      defaultPants := None;
      defaultShoes := None;
      animation := None;
      name := None;
      items := None;
      skills := None;
      celes := None;
      learns := None;
    }

    /** The items still usable at `now`; the expired ones are dropped from the cache too.
        A map never loaded stays unloaded. */
    method GetItems(now: int) returns (r: Option<seq<(int, Item)>>)
      modifies this`items
      ensures old(items).None? ==> items == None
      ensures old(items).Some? ==> items == Some(FilterEntries(old(items).value, ItemFilter(now), ItemId))
      ensures old(items).Some? && WellKeyed(old(items).value, ItemId) ==>
                forall e :: e in items.value <==> e in old(items).value && KeepItem(e.1, now)
      ensures r == items
    {
      if items.Some? {
        FilterMatchesReference(items.value, ItemFilter(now), ItemId);
        items := Some(Collect(Filter(Values(items.value), ItemFilter(now)), ItemId));
      }
      r := items;
    }

    /** The skills still valid at `now`; the expired ones are dropped from the cache too. */
    method GetSkills(now: int) returns (r: Option<seq<(int, Skill)>>)
      modifies this`skills
      ensures old(skills).None? ==> skills == None
      ensures old(skills).Some? ==> skills == Some(FilterEntries(old(skills).value, SkillFilter(now), SkillId))
      ensures old(skills).Some? && WellKeyed(old(skills).value, SkillId) ==>
                forall e :: e in skills.value <==> e in old(skills).value && KeepSkill(e.1, now)
      ensures r == skills
    {
      if skills.Some? {
        FilterMatchesReference(skills.value, SkillFilter(now), SkillId);
        skills := Some(Collect(Filter(Values(skills.value), SkillFilter(now)), SkillId));
      }
      r := skills;
    }

    /** The celebrations still valid at `now`; the expired ones are dropped from the cache
        too. */
    method GetCeles(now: int) returns (r: Option<seq<(int, Celebration)>>)
      modifies this`celes
      ensures old(celes).None? ==> celes == None
      ensures old(celes).Some? ==> celes == Some(FilterEntries(old(celes).value, CelebrationFilter(now), CelebrationId))
      ensures old(celes).Some? && WellKeyed(old(celes).value, CelebrationId) ==>
                forall e :: e in celes.value <==> e in old(celes).value && KeepCelebration(e.1, now)
      ensures r == celes
    {
      if celes.Some? {
        FilterMatchesReference(celes.value, CelebrationFilter(now), CelebrationId);
        celes := Some(Collect(Filter(Values(celes.value), CelebrationFilter(now)), CelebrationId));
      }
      r := celes;
    }
  }

  /** `FilterIsEntryFilter` for any map: the conclusion under the well-keyed hypothesis. */
  lemma FilterMatchesReference<V>(es: seq<(int, V)>, keep: V -> bool, id: V -> int)
    ensures WellKeyed(es, id) ==> FilterEntries(es, keep, id) == EntryFilter(es, keep)
  {
    if WellKeyed(es, id) {
      FilterIsEntryFilter(es, keep, id);
    }
  }
}
