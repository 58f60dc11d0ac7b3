/**
  The three tables of the booking directory and the row-level operations the
  handlers perform on them: look a row up by id, replace a row's fields, delete a
  row. A table is a sequence of rows in the order the database returns them.
 */
module Records {
  import opened Timestamps

  datatype Option<+T> = None | Some(value: T)

  /** A stored row: a system-assigned id and the fields the forms fill in. */
  datatype Row<+T> = Row(id: int, info: T)

  datatype VenueInfo = VenueInfo(
    name: string, city: string, state: string, address: string, phone: string,
    genres: seq<string>, facebookLink: string, imageLink: string, websiteLink: string,
    seekingTalent: bool, seekingDescription: string)

  datatype ArtistInfo = ArtistInfo(
    name: string, city: string, state: string, phone: string,
    genres: seq<string>, facebookLink: string, imageLink: string, websiteLink: string,
    seekingVenue: bool, seekingDescription: string)

  datatype ShowInfo = ShowInfo(startTime: Timestamp, artistId: int, venueId: int)

  type Venue = Row<VenueInfo>
  type Artist = Row<ArtistInfo>
  type Show = Row<ShowInfo>

  /** The `{id, name}` projection used by the search pages and the venue directory. */
  datatype Summary = Summary(id: int, name: string)

  /** A snapshot of the whole database. */
  datatype Tables = Tables(venues: seq<Venue>, artists: seq<Artist>, shows: seq<Show>)

  function Ids<T>(rows: seq<Row<T>>): (ids: set<int>)
    ensures forall i :: 0 <= i < |rows| ==> rows[i].id in ids
    ensures forall id :: id in ids ==> exists i :: 0 <= i < |rows| && rows[i].id == id
  {
    set i | 0 <= i < |rows| :: rows[i].id
  }

  /** Primary keys: no two rows of a table share an id. */
  ghost predicate UniqueIds<T>(rows: seq<Row<T>>)
  {
    forall i, j :: 0 <= i < j < |rows| ==> rows[i].id != rows[j].id
  }

  /** Foreign keys: every show names an existing artist and an existing venue. */
  ghost predicate Linked(t: Tables)
  {
    forall i :: 0 <= i < |t.shows| ==>
      t.shows[i].info.artistId in Ids(t.artists) && t.shows[i].info.venueId in Ids(t.venues)
  }

  ghost predicate WellFormed(t: Tables)
  {
    UniqueIds(t.venues) && UniqueIds(t.artists) && UniqueIds(t.shows) && Linked(t)
  }

  /** `query.get(id)`: the first row with that id, or nothing. */
  function Find<T>(rows: seq<Row<T>>, id: int): (r: Option<Row<T>>)
    ensures r.None? <==> id !in Ids(rows)
    ensures r.Some? ==> r.value.id == id && exists i :: 0 <= i < |rows| && rows[i] == r.value
  {
    if |rows| == 0 then None
    else if rows[0].id == id then Some(rows[0])
    else
      var r := Find(rows[1..], id);
      assert Ids(rows) == {rows[0].id} + Ids(rows[1..]);
      r
  }

  /** Replace the fields of the row with the given id, keeping its id; every other row is unchanged. */
  function Replace<T>(rows: seq<Row<T>>, id: int, info: T): (r: seq<Row<T>>)
    ensures |r| == |rows|
    ensures forall i :: 0 <= i < |rows| ==> r[i].id == rows[i].id
    ensures forall i :: 0 <= i < |rows| && rows[i].id == id ==> r[i].info == info
    ensures forall i :: 0 <= i < |rows| && rows[i].id != id ==> r[i] == rows[i]
  {
    seq(|rows|, i requires 0 <= i < |rows| => if rows[i].id == id then Row(id, info) else rows[i])
  }

  /** Delete every row with the given id, keeping the others in order. */
  function Remove<T>(rows: seq<Row<T>>, id: int): seq<Row<T>>
  {
    if |rows| == 0 then []
    else if rows[0].id == id then Remove(rows[1..], id)
    else [rows[0]] + Remove(rows[1..], id)
  }

  /** The `{id, name}` of each row, in order. */
  function Summaries<T>(rows: seq<Row<T>>, name: T -> string): (r: seq<Summary>)
    ensures |r| == |rows|
  {
    if |rows| == 0 then []
    else
      var last := rows[|rows| - 1];
      Summaries(rows[..|rows| - 1], name) + [Summary(last.id, name(last.info))]
  }

  function VenueName(v: VenueInfo): string { v.name }

  function ArtistName(a: ArtistInfo): string { a.name }

  lemma SummariesAppend<T>(rows: seq<Row<T>>, r: Row<T>, name: T -> string)
    ensures Summaries(rows + [r], name) == Summaries(rows, name) + [Summary(r.id, name(r.info))]
  {
    assert (rows + [r])[..|rows|] == rows;
  }

  /** The projection keeps only the id and the name of each row, position by position. */
  lemma {:induction false} SummariesAt<T>(rows: seq<Row<T>>, name: T -> string, k: int)
    requires 0 <= k < |rows|
    ensures Summaries(rows, name)[k] == Summary(rows[k].id, name(rows[k].info))
  {
    if k < |rows| - 1 {
      SummariesAt(rows[..|rows| - 1], name, k);
    }
  }

  /** The projection distributes over concatenation. */
  lemma {:induction false} SummariesConcat<T>(a: seq<Row<T>>, b: seq<Row<T>>, name: T -> string)
    ensures Summaries(a + b, name) == Summaries(a, name) + Summaries(b, name)
  {
    if |b| == 0 {
      assert a + b == a;
    } else {
      var init, last := b[..|b| - 1], b[|b| - 1];
      SummariesConcat(a, init, name);
      assert a + b == (a + init) + [last];
      SummariesAppend(a + init, last, name);
      SummariesAppend(init, last, name);
      assert b == init + [last];
    }
  }

  /** Rows that are a permutation of each other project to summaries that are a permutation of each other. */
  lemma {:induction false} SummariesKeepPermutation<T>(a: seq<Row<T>>, b: seq<Row<T>>, name: T -> string)
    requires multiset(a) == multiset(b)
    ensures multiset(Summaries(a, name)) == multiset(Summaries(b, name))
    decreases |a|
  {
    if |a| > 0 {
      var init, x := a[..|a| - 1], a[|a| - 1];
      assert a == init + [x];
      assert x in multiset(b);
      var j :| 0 <= j < |b| && b[j] == x;
      var before, after := b[..j], b[j + 1..];
      assert b == before + [x] + after;
      TakeOut(init, x, before, after);
      SummariesKeepPermutation(init, before + after, name);
      SummariesAppend(init, x, name);
      SummariesAround(before, x, after, name);
    }
  }

  /** Taking the same row out of two permutations of each other leaves permutations of each other. */
  lemma TakeOut<R>(init: seq<R>, x: R, before: seq<R>, after: seq<R>)
    requires multiset(init + [x]) == multiset(before + [x] + after)
    ensures multiset(init) == multiset(before + after)
  {
    calc {
      multiset(before + [x] + after);
      multiset(before) + multiset{x} + multiset(after);
      multiset(before + after) + multiset{x};
    }
    assert multiset(init + [x]) == multiset(init) + multiset{x};
    var m, n := multiset(init), multiset(before + after);
    assert m + multiset{x} == n + multiset{x};
    assert forall y :: m[y] == (m + multiset{x})[y] - multiset{x}[y];
    assert forall y :: n[y] == (n + multiset{x})[y] - multiset{x}[y];
  }

  /** The multiset of summaries around one row: the row's summary plus the summaries of the rest. */
  lemma SummariesAround<T>(before: seq<Row<T>>, x: Row<T>, after: seq<Row<T>>, name: T -> string)
    ensures multiset(Summaries(before + [x] + after, name))
      == multiset(Summaries(before + after, name)) + multiset{Summary(x.id, name(x.info))}
  {
    SummariesAppend([], x, name);
    assert [] + [x] == [x];
    SummariesConcat(before, [x], name);
    SummariesConcat(before + [x], after, name);
    SummariesConcat(before, after, name);
  }

  /** Appending a row adds its id to the table's ids. */
  lemma IdsAppend<T>(rows: seq<Row<T>>, r: Row<T>)
    ensures Ids(rows + [r]) == Ids(rows) + {r.id}
  {
    assert forall i :: 0 <= i < |rows| ==> (rows + [r])[i] == rows[i];
    assert (rows + [r])[|rows|] == r;
  }

  /** Appending a row whose id is new keeps the ids unique. */
  lemma AppendFreshKeepsUnique<T>(rows: seq<Row<T>>, r: Row<T>)
    requires UniqueIds(rows) && r.id !in Ids(rows)
    ensures UniqueIds(rows + [r])
  {
    assert forall i :: 0 <= i < |rows| ==> (rows + [r])[i] == rows[i];
  }

  /** Replacing a row's fields changes no id. */
  lemma ReplaceKeepsIds<T>(rows: seq<Row<T>>, id: int, info: T)
    ensures Ids(Replace(rows, id, info)) == Ids(rows)
    ensures UniqueIds(rows) ==> UniqueIds(Replace(rows, id, info))
  {
    var r := Replace(rows, id, info);
    assert forall x :: x in Ids(r) ==> x in Ids(rows);
  }

  /** Deleting an id removes exactly that id from the table's ids. */
  lemma {:induction false} RemoveIds<T>(rows: seq<Row<T>>, id: int)
    ensures Ids(Remove(rows, id)) == Ids(rows) - {id}
  {
    if |rows| > 0 {
      RemoveIds(rows[1..], id);
      assert Ids(rows) == {rows[0].id} + Ids(rows[1..]);
      if rows[0].id != id {
        IdsPrepend(Remove(rows[1..], id), rows[0]);
      }
    }
  }

  lemma IdsPrepend<T>(rows: seq<Row<T>>, r: Row<T>)
    ensures Ids([r] + rows) == {r.id} + Ids(rows)
  {
    assert ([r] + rows)[0] == r;
    assert forall i :: 0 <= i < |rows| ==> ([r] + rows)[i + 1] == rows[i];
    assert forall x :: x in Ids([r] + rows) ==> x == r.id || x in Ids(rows) by {
      forall x | x in Ids([r] + rows) ensures x == r.id || x in Ids(rows) {
        var i :| 0 <= i < |[r] + rows| && ([r] + rows)[i].id == x;
        if i > 0 { assert rows[i - 1].id == x; }
      }
    }
  }

  /** Deleting an id that no row carries leaves the table as it is. */
  lemma {:induction false} RemoveAbsent<T>(rows: seq<Row<T>>, id: int)
    requires id !in Ids(rows)
    ensures Remove(rows, id) == rows
  {
    if |rows| > 0 {
      assert Ids(rows[1..]) <= Ids(rows);
      RemoveAbsent(rows[1..], id);
      assert [rows[0]] + rows[1..] == rows;
    }
  }

  /** In a table with unique ids, deleting the id of row `k` removes exactly that row and keeps the order of the rest. */
  lemma {:induction false} RemoveAt<T>(rows: seq<Row<T>>, id: int, k: int)
    requires UniqueIds(rows) && 0 <= k < |rows| && rows[k].id == id
    ensures Remove(rows, id) == rows[..k] + rows[k + 1..]
  {
    if k == 0 {
      assert id !in Ids(rows[1..]);
      RemoveAbsent(rows[1..], id);
    } else {
      assert rows[0].id != id;
      RemoveAt(rows[1..], id, k - 1);
      assert rows[..k] == [rows[0]] + rows[1..][..k - 1];
      assert rows[k + 1..] == rows[1..][k..];
    }
  }
}
