/**
  The venue directory (`venues`): the venues grouped by area, one group per
  distinct (state, city) pair, each group listing the `{id, name}` of the venues
  in that area.
 */
module Directory {
  import opened Records

  datatype AreaKey = AreaKey(state: string, city: string)

  /** One entry of the directory: `{state, city, venues: [{id, name}, ...]}`. */
  datatype Area = Area(state: string, city: string, venues: seq<Summary>)

  function AreaOf(v: Venue): AreaKey
  {
    AreaKey(v.info.state, v.info.city)
  }

  /**
    `group_by(state, city)`: the distinct areas of the venues. The database returns
    them in an order of its own; this model lists them in order of first appearance.
   */
  function DistinctAreas(venues: seq<Venue>): seq<AreaKey>
  {
    if |venues| == 0 then []
    else
      var seen := DistinctAreas(venues[..|venues| - 1]);
      var key := AreaOf(venues[|venues| - 1]);
      if key in seen then seen else seen + [key]
  }

  /** `filter_by(state=..., city=...)`: the venues of one area, in table order. */
  function VenuesIn(venues: seq<Venue>, key: AreaKey): seq<Venue>
  {
    if |venues| == 0 then []
    else
      var last := venues[|venues| - 1];
      VenuesIn(venues[..|venues| - 1], key) + (if AreaOf(last) == key then [last] else [])
  }

  /** The directory entry of one area. */
  function AreaEntry(venues: seq<Venue>, key: AreaKey): Area
  {
    Area(key.state, key.city, Summaries(VenuesIn(venues, key), VenueName))
  }

  /**
    `venues`: for each distinct area, walk that area's venues and append their
    `{id, name}` to the group, then append the group to the directory.
   */
  method ListVenues(venues: seq<Venue>) returns (areas: seq<Area>)
    ensures |areas| == |DistinctAreas(venues)|
    ensures forall k :: 0 <= k < |areas| ==> areas[k] == AreaEntry(venues, DistinctAreas(venues)[k])
    ensures multiset(Groups(areas)) == multiset(Summaries(venues, VenueName))
  {
    var keys := DistinctAreas(venues);
    areas := [];
    for k := 0 to |keys|
      invariant |areas| == k
      invariant forall j :: 0 <= j < k ==> areas[j] == AreaEntry(venues, keys[j])
    {
      var inArea := VenuesIn(venues, keys[k]);
      var group := [];
      for i := 0 to |inArea|
        invariant group == Summaries(inArea[..i], VenueName)
      {
        assert inArea[..i + 1] == inArea[..i] + [inArea[i]];
        SummariesAppend(inArea[..i], inArea[i], VenueName);
        group := group + [Summary(inArea[i].id, inArea[i].info.name)];
      }
      assert inArea[..|inArea|] == inArea;
      areas := areas + [Area(keys[k].state, keys[k].city, group)];
    }
    ListedGroupsAreFlatten(venues, keys, areas);
    DirectoryIsPartition(venues);
    SummariesKeepPermutation(Flatten(venues, keys), venues, VenueName);
  }

  /** No area is listed twice. */
  lemma {:induction false} AreasDistinct(venues: seq<Venue>)
    ensures forall i, j :: 0 <= i < j < |DistinctAreas(venues)| ==> DistinctAreas(venues)[i] != DistinctAreas(venues)[j]
  {
    if |venues| > 0 {
      AreasDistinct(venues[..|venues| - 1]);
    }
  }

  /** The listed areas are exactly the areas some venue is in. */
  lemma {:induction false} AreasListed(venues: seq<Venue>, key: AreaKey)
    ensures key in DistinctAreas(venues) <==> exists i :: 0 <= i < |venues| && AreaOf(venues[i]) == key
  {
    if |venues| > 0 {
      var init := venues[..|venues| - 1];
      AreasListed(init, key);
      if exists i :: 0 <= i < |venues| && AreaOf(venues[i]) == key {
        var i :| 0 <= i < |venues| && AreaOf(venues[i]) == key;
        if i < |venues| - 1 {
          assert AreaOf(init[i]) == key;
        }
      }
    }
  }

  /** A group holds exactly the venues of its area. */
  lemma {:induction false} VenuesInMembers(venues: seq<Venue>, key: AreaKey, v: Venue)
    ensures v in VenuesIn(venues, key) <==> v in venues && AreaOf(v) == key
  {
    if |venues| > 0 {
      var init, last := venues[..|venues| - 1], venues[|venues| - 1];
      VenuesInMembers(init, key, v);
      assert venues == init + [last];
    }
  }

  /** No listed area has an empty group. */
  lemma NoEmptyGroup(venues: seq<Venue>, k: int)
    requires 0 <= k < |DistinctAreas(venues)|
    ensures |AreaEntry(venues, DistinctAreas(venues)[k]).venues| > 0
  {
    var key := DistinctAreas(venues)[k];
    AreasListed(venues, key);
    var i :| 0 <= i < |venues| && AreaOf(venues[i]) == key;
    VenuesInMembers(venues, key, venues[i]);
  }

  /** Every venue is in exactly one group, the one of its own (state, city). */
  lemma ExactlyOneGroup(venues: seq<Venue>, v: Venue)
    requires v in venues
    ensures exists k :: 0 <= k < |DistinctAreas(venues)| && DistinctAreas(venues)[k] == AreaOf(v)
    ensures forall k :: 0 <= k < |DistinctAreas(venues)| ==>
      (v in VenuesIn(venues, DistinctAreas(venues)[k]) <==> DistinctAreas(venues)[k] == AreaOf(v))
  {
    var i :| 0 <= i < |venues| && venues[i] == v;
    AreasListed(venues, AreaOf(v));
    forall k | 0 <= k < |DistinctAreas(venues)|
      ensures v in VenuesIn(venues, DistinctAreas(venues)[k]) <==> DistinctAreas(venues)[k] == AreaOf(v)
    {
      VenuesInMembers(venues, DistinctAreas(venues)[k], v);
    }
  }

  /** The groups of the given areas, one after another. */
  function Flatten(venues: seq<Venue>, keys: seq<AreaKey>): seq<Venue>
  {
    if |keys| == 0 then []
    else Flatten(venues, keys[..|keys| - 1]) + VenuesIn(venues, keys[|keys| - 1])
  }

  lemma VenuesInAppend(venues: seq<Venue>, v: Venue, key: AreaKey)
    ensures VenuesIn(venues + [v], key) == VenuesIn(venues, key) + (if AreaOf(v) == key then [v] else [])
  {
    assert (venues + [v])[..|venues|] == venues;
  }

  /** Each area of the list is new where it is added: no area occurs twice. */
  ghost predicate Distinct(keys: seq<AreaKey>)
  {
    |keys| == 0 || (Distinct(keys[..|keys| - 1]) && keys[|keys| - 1] !in keys[..|keys| - 1])
  }

  lemma {:induction false} DistinctAreasAreNew(venues: seq<Venue>)
    ensures Distinct(DistinctAreas(venues))
  {
    if |venues| > 0 {
      var seen := DistinctAreas(venues[..|venues| - 1]);
      DistinctAreasAreNew(venues[..|venues| - 1]);
      assert (seen + [AreaOf(venues[|venues| - 1])])[..|seen|] == seen;
    }
  }

  /** Adding a venue adds it once to the flattened groups if its area is listed, and not at all otherwise. */
  lemma {:induction false} FlattenAppend(venues: seq<Venue>, v: Venue, keys: seq<AreaKey>)
    requires Distinct(keys)
    ensures multiset(Flatten(venues + [v], keys))
      == multiset(Flatten(venues, keys)) + (if AreaOf(v) in keys then multiset{v} else multiset{})
  {
    if |keys| > 0 {
      var init, last := keys[..|keys| - 1], keys[|keys| - 1];
      FlattenAppend(venues, v, init);
      VenuesInAppend(venues, v, last);
      var inInit := if AreaOf(v) in init then multiset{v} else multiset{};
      var inLast := if AreaOf(v) == last then multiset{v} else multiset{};
      InInitOrLast(keys, AreaOf(v));
      assert inInit + inLast == if AreaOf(v) in keys then multiset{v} else multiset{};
      FlattenStep(Flatten(venues, init), Flatten(venues + [v], init), VenuesIn(venues, last),
        VenuesIn(venues + [v], last), inInit, inLast);
      assert Flatten(venues, keys) == Flatten(venues, init) + VenuesIn(venues, last);
      assert Flatten(venues + [v], keys) == Flatten(venues + [v], init) + VenuesIn(venues + [v], last);
    }
  }

  lemma InInitOrLast(keys: seq<AreaKey>, key: AreaKey)
    requires |keys| > 0
    ensures key in keys <==> key in keys[..|keys| - 1] || key == keys[|keys| - 1]
  {
    assert keys == keys[..|keys| - 1] + [keys[|keys| - 1]];
  }

  /** Multiset bookkeeping of one step of FlattenAppend. */
  lemma FlattenStep(a: seq<Venue>, a2: seq<Venue>, b: seq<Venue>, b2: seq<Venue>,
      inA: multiset<Venue>, inB: multiset<Venue>)
    requires multiset(a2) == multiset(a) + inA
    requires multiset(b2) == multiset(b) + inB
    ensures multiset(a2 + b2) == multiset(a + b) + (inA + inB)
  {
  }

  /** Flattening the groups of distinct areas that cover every venue gives back exactly the venues. */
  lemma {:induction false} FlattenCovers(venues: seq<Venue>, keys: seq<AreaKey>)
    requires Distinct(keys)
    requires forall i :: 0 <= i < |venues| ==> AreaOf(venues[i]) in keys
    ensures multiset(Flatten(venues, keys)) == multiset(venues)
  {
    if |venues| == 0 {
      FlattenEmpty(keys);
    } else {
      var init, last := venues[..|venues| - 1], venues[|venues| - 1];
      FlattenCovers(init, keys);
      FlattenAppend(init, last, keys);
      assert venues == init + [last];
    }
  }

  lemma {:induction false} FlattenEmpty(keys: seq<AreaKey>)
    ensures Flatten([], keys) == []
  {
    if |keys| > 0 {
      FlattenEmpty(keys[..|keys| - 1]);
    }
  }

  /** The directory lists every venue exactly once: flattening its groups gives back the venue table as a multiset. */
  lemma DirectoryIsPartition(venues: seq<Venue>)
    ensures multiset(Flatten(venues, DistinctAreas(venues))) == multiset(venues)
  {
    DistinctAreasAreNew(venues);
    forall i | 0 <= i < |venues| ensures AreaOf(venues[i]) in DistinctAreas(venues) {
      AreasListed(venues, AreaOf(venues[i]));
    }
    FlattenCovers(venues, DistinctAreas(venues));
  }

  /** The `{id, name}` entries of the directory's groups, one group after another. */
  function Groups(areas: seq<Area>): seq<Summary>
  {
    if |areas| == 0 then []
    else Groups(areas[..|areas| - 1]) + areas[|areas| - 1].venues
  }

  /** The groups of the listed entries are the summaries of the flattened venue groups. */
  lemma {:induction false} ListedGroupsAreFlatten(venues: seq<Venue>, keys: seq<AreaKey>, areas: seq<Area>)
    requires |areas| == |keys|
    requires forall k :: 0 <= k < |areas| ==> areas[k] == AreaEntry(venues, keys[k])
    ensures Groups(areas) == Summaries(Flatten(venues, keys), VenueName)
  {
    if |keys| > 0 {
      var n := |keys| - 1;
      ListedGroupsAreFlatten(venues, keys[..n], areas[..n]);
      SummariesConcat(Flatten(venues, keys[..n]), VenuesIn(venues, keys[n]), VenueName);
    }
  }
}
