/**
  The show list (`shows`): every show in the table, in table order, with its
  artist's id, name and image link, its venue's id and name, and its start time.
 */
module ShowList {
  import opened Timestamps
  import opened Records

  datatype Listing = Listing(
    artistImageLink: string, startTime: Timestamp,
    artistId: int, artistName: string, venueId: int, venueName: string)

  /**
    The listing of one show, with the artist's and the venue's fields looked up by id.
    Where a row is missing (never, while the foreign keys hold) the looked-up fields are empty.
   */
  function ListingOf(t: Tables, s: Show): (l: Listing)
    ensures l.artistId == s.info.artistId && l.venueId == s.info.venueId && l.startTime == s.info.startTime
  {
    var artist := Find(t.artists, s.info.artistId);
    var venue := Find(t.venues, s.info.venueId);
    Listing(
      if artist.Some? then artist.value.info.imageLink else "", s.info.startTime,
      s.info.artistId, if artist.Some? then artist.value.info.name else "",
      s.info.venueId, if venue.Some? then venue.value.info.name else "")
  }

  /** `shows`: one listing per show, appended in table order. */
  method ListShows(t: Tables) returns (data: seq<Listing>)
    requires Linked(t)
    ensures |data| == |t.shows|
    ensures forall k :: 0 <= k < |data| ==> data[k] == ListingOf(t, t.shows[k])
  {
    data := [];
    for i := 0 to |t.shows|
      invariant |data| == i
      invariant forall k :: 0 <= k < i ==> data[k] == ListingOf(t, t.shows[k])
    {
      data := data + [ListingOf(t, t.shows[i])];
    }
  }

  /**
    In a well-formed database the listing names the show's own artist and venue:
    its names and image link are those of the one artist row and the one venue row
    carrying the show's ids.
   */
  lemma ListingNamesParties(t: Tables, s: Show)
    requires WellFormed(t) && s in t.shows
    ensures var l := ListingOf(t, s);
      forall i :: 0 <= i < |t.artists| && t.artists[i].id == s.info.artistId ==>
        t.artists[i].info.name == l.artistName && t.artists[i].info.imageLink == l.artistImageLink
    ensures var l := ListingOf(t, s);
      forall i :: 0 <= i < |t.venues| && t.venues[i].id == s.info.venueId ==>
        t.venues[i].info.name == l.venueName
  {
    var artist := Find(t.artists, s.info.artistId);
    var venue := Find(t.venues, s.info.venueId);
    var a :| 0 <= a < |t.artists| && t.artists[a] == artist.value;
    var v :| 0 <= v < |t.venues| && t.venues[v] == venue.value;
    forall i | 0 <= i < |t.artists| && t.artists[i].id == s.info.artistId
      ensures t.artists[i] == artist.value
    {
      assert i == a;
    }
    forall i | 0 <= i < |t.venues| && t.venues[i].id == s.info.venueId
      ensures t.venues[i] == venue.value
    {
      assert i == v;
    }
  }
}
