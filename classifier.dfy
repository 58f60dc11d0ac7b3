/**
  The show lists of the venue page (`show_venue`) and the artist page
  (`show_artist`): the shows of the record are split into past and upcoming by
  comparing each start time with the current time, and each bucket keeps a
  counter. A show is past when it starts strictly before `now`.

  Start times are whole seconds, while the clock carries microseconds. `now` stands
  for the clock rounded up to the next whole second: a whole-second start time is
  strictly before the clock's exact reading exactly when it is strictly before
  that rounded value.
 */
module Classifier {
  import opened Timestamps
  import opened Records

  /** The page a show list is built for: it decides which end of each show is listed. */
  datatype Page = VenuePage | ArtistPage

  /** One entry of `past_shows` or `upcoming_shows`: the other end of the show and its start time. */
  datatype ShowEntry = ShowEntry(partnerId: int, partnerName: string, partnerImageLink: string, startTime: Timestamp)

  /** The four show fields of a detail page. */
  datatype Buckets = Buckets(
    pastShows: seq<ShowEntry>, upcomingShows: seq<ShowEntry>,
    pastShowsCount: nat, upcomingShowsCount: nat)

  datatype VenueDetail = VenueDetail(venue: Venue, shows: Buckets)

  datatype ArtistDetail = ArtistDetail(artist: Artist, shows: Buckets)

  predicate IsPast(s: Show, now: Timestamp)
  {
    Before(s.info.startTime, now)
  }

  /** The shows that started before `now`, in their original order. */
  function PastShows(shows: seq<Show>, now: Timestamp): (r: seq<Show>)
  {
    if |shows| == 0 then []
    else
      var last := shows[|shows| - 1];
      PastShows(shows[..|shows| - 1], now) + (if IsPast(last, now) then [last] else [])
  }

  /** The shows that start at or after `now`, in their original order. */
  function UpcomingShows(shows: seq<Show>, now: Timestamp): (r: seq<Show>)
  {
    if |shows| == 0 then []
    else
      var last := shows[|shows| - 1];
      UpcomingShows(shows[..|shows| - 1], now) + (if IsPast(last, now) then [] else [last])
  }

  /** The id of the record a show belongs to on the given page (`venue.shows` or `artist.shows`). */
  function OwnerId(page: Page, s: Show): int
  {
    if page == VenuePage then s.info.venueId else s.info.artistId
  }

  /** The id of the record a show entry points to: the artist on a venue page, the venue on an artist page. */
  function PartnerId(page: Page, s: Show): int
  {
    if page == VenuePage then s.info.artistId else s.info.venueId
  }

  function PartnerIds(t: Tables, page: Page): set<int>
  {
    if page == VenuePage then Ids(t.artists) else Ids(t.venues)
  }

  /** The shows of the record with the given id, in table order. */
  function ShowsOf(shows: seq<Show>, page: Page, id: int): (r: seq<Show>)
  {
    if |shows| == 0 then []
    else
      var last := shows[|shows| - 1];
      ShowsOf(shows[..|shows| - 1], page, id) + (if OwnerId(page, last) == id then [last] else [])
  }

  ghost predicate PartnersExist(t: Tables, page: Page, shows: seq<Show>)
  {
    forall s :: s in shows ==> PartnerId(page, s) in PartnerIds(t, page)
  }

  /**
    The entry listed for one show: the partner's id, name and image link, and the
    start time. In a database whose foreign keys hold the partner row always exists;
    the fallback with empty name and link is never listed by the pages below.
   */
  function Entry(t: Tables, page: Page, s: Show): (e: ShowEntry)
    ensures e.partnerId == PartnerId(page, s) && e.startTime == s.info.startTime
  {
    var found := if page == VenuePage then Find(t.artists, s.info.artistId) else None;
    var foundVenue := if page == ArtistPage then Find(t.venues, s.info.venueId) else None;
    if found.Some? then
      ShowEntry(found.value.id, found.value.info.name, found.value.info.imageLink, s.info.startTime)
    else if foundVenue.Some? then
      ShowEntry(foundVenue.value.id, foundVenue.value.info.name, foundVenue.value.info.imageLink, s.info.startTime)
    else
      ShowEntry(PartnerId(page, s), "", "", s.info.startTime)
  }

  /** The entries listed for a sequence of shows, one per show, in the same order. */
  function Entries(t: Tables, page: Page, shows: seq<Show>): (r: seq<ShowEntry>)
    ensures |r| == |shows|
  {
    if |shows| == 0 then []
    else Entries(t, page, shows[..|shows| - 1]) + [Entry(t, page, shows[|shows| - 1])]
  }

  lemma EntriesAppend(t: Tables, page: Page, shows: seq<Show>, s: Show)
    ensures Entries(t, page, shows + [s]) == Entries(t, page, shows) + [Entry(t, page, s)]
  {
    assert (shows + [s])[..|shows|] == shows;
  }

  lemma PastShowsAppend(shows: seq<Show>, s: Show, now: Timestamp)
    ensures PastShows(shows + [s], now) == PastShows(shows, now) + (if IsPast(s, now) then [s] else [])
    ensures UpcomingShows(shows + [s], now) == UpcomingShows(shows, now) + (if IsPast(s, now) then [] else [s])
  {
    assert (shows + [s])[..|shows|] == shows;
  }

  /** One step of the classifier loop: show `i` lands at the end of exactly one bucket. */
  lemma ClassifyStep(t: Tables, page: Page, all: seq<Show>, i: int, now: Timestamp)
    requires 0 <= i < |all|
    ensures Entries(t, page, PastShows(all[..i + 1], now))
      == Entries(t, page, PastShows(all[..i], now)) + (if IsPast(all[i], now) then [Entry(t, page, all[i])] else [])
    ensures Entries(t, page, UpcomingShows(all[..i + 1], now))
      == Entries(t, page, UpcomingShows(all[..i], now)) + (if IsPast(all[i], now) then [] else [Entry(t, page, all[i])])
  {
    var shows, s := all[..i], all[i];
    assert all[..i + 1] == shows + [s];
    PastShowsAppend(shows, s, now);
    var past, upcoming := PastShows(shows, now), UpcomingShows(shows, now);
    if IsPast(s, now) {
      assert PastShows(shows + [s], now) == past + [s];
      assert UpcomingShows(shows + [s], now) == upcoming;
      EntriesAppend(t, page, past, s);
    } else {
      assert PastShows(shows + [s], now) == past;
      assert UpcomingShows(shows + [s], now) == upcoming + [s];
      EntriesAppend(t, page, upcoming, s);
    }
  }

  /**
    The loop of `show_venue`/`show_artist`: walk the shows once, append each to the
    past or the upcoming list and bump that list's counter.
   */
  method Classify(t: Tables, page: Page, shows: seq<Show>, now: Timestamp) returns (b: Buckets)
    requires PartnersExist(t, page, shows)
    ensures b.pastShows == Entries(t, page, PastShows(shows, now))
    ensures b.upcomingShows == Entries(t, page, UpcomingShows(shows, now))
    ensures b.pastShowsCount == |b.pastShows| && b.upcomingShowsCount == |b.upcomingShows|
  {
    var past, upcoming := [], [];
    var pastCount, upcomingCount := 0, 0;
    for i := 0 to |shows|
      invariant past == Entries(t, page, PastShows(shows[..i], now))
      invariant upcoming == Entries(t, page, UpcomingShows(shows[..i], now))
      invariant pastCount == |past| && upcomingCount == |upcoming|
    {
      var s := shows[i];
      ClassifyStep(t, page, shows, i, now);
      if IsPast(s, now) {
        past := past + [Entry(t, page, s)];
        pastCount := pastCount + 1;
      } else {
        upcoming := upcoming + [Entry(t, page, s)];
        upcomingCount := upcomingCount + 1;
      }
    }
    assert shows[..|shows|] == shows;
    b := Buckets(past, upcoming, pastCount, upcomingCount);
  }

  /** `show_venue`: the venue's row and its classified shows; `None` when no venue has the id. */
  method ShowVenue(t: Tables, venueId: int, now: Timestamp) returns (r: Option<VenueDetail>)
    requires WellFormed(t)
    ensures r.None? <==> venueId !in Ids(t.venues)
    ensures r.Some? ==> (r.value.venue.id == venueId
      && exists i :: 0 <= i < |t.venues| && t.venues[i] == r.value.venue)
    ensures r.Some? ==> var mine := ShowsOf(t.shows, VenuePage, venueId);
      && r.value.shows.pastShows == Entries(t, VenuePage, PastShows(mine, now))
      && r.value.shows.upcomingShows == Entries(t, VenuePage, UpcomingShows(mine, now))
      && r.value.shows.pastShowsCount == |PastShows(mine, now)|
      && r.value.shows.upcomingShowsCount == |UpcomingShows(mine, now)|
  {
    var found := Find(t.venues, venueId);
    if found.None? {
      return None;
    }
    var mine := ShowsOf(t.shows, VenuePage, venueId);
    assert PartnersExist(t, VenuePage, mine) by {
      forall s | s in mine ensures PartnerId(VenuePage, s) in PartnerIds(t, VenuePage) {
        ShowsOfMembers(t.shows, VenuePage, venueId, s);
        var i :| 0 <= i < |t.shows| && t.shows[i] == s;
      }
    }
    var b := Classify(t, VenuePage, mine, now);
    r := Some(VenueDetail(found.value, b));
  }

  /** `show_artist`: the artist's row and its classified shows; `None` when no artist has the id. */
  method ShowArtist(t: Tables, artistId: int, now: Timestamp) returns (r: Option<ArtistDetail>)
    requires WellFormed(t)
    ensures r.None? <==> artistId !in Ids(t.artists)
    ensures r.Some? ==> (r.value.artist.id == artistId
      && exists i :: 0 <= i < |t.artists| && t.artists[i] == r.value.artist)
    ensures r.Some? ==> var mine := ShowsOf(t.shows, ArtistPage, artistId);
      && r.value.shows.pastShows == Entries(t, ArtistPage, PastShows(mine, now))
      && r.value.shows.upcomingShows == Entries(t, ArtistPage, UpcomingShows(mine, now))
      && r.value.shows.pastShowsCount == |PastShows(mine, now)|
      && r.value.shows.upcomingShowsCount == |UpcomingShows(mine, now)|
  {
    var found := Find(t.artists, artistId);
    if found.None? {
      return None;
    }
    var mine := ShowsOf(t.shows, ArtistPage, artistId);
    assert PartnersExist(t, ArtistPage, mine) by {
      forall s | s in mine ensures PartnerId(ArtistPage, s) in PartnerIds(t, ArtistPage) {
        ShowsOfMembers(t.shows, ArtistPage, artistId, s);
        var i :| 0 <= i < |t.shows| && t.shows[i] == s;
      }
    }
    var b := Classify(t, ArtistPage, mine, now);
    r := Some(ArtistDetail(found.value, b));
  }

  /** Each entry describes the show at the same position. */
  lemma {:induction false} EntriesAt(t: Tables, page: Page, shows: seq<Show>, k: int)
    requires 0 <= k < |shows|
    ensures Entries(t, page, shows)[k] == Entry(t, page, shows[k])
  {
    if k < |shows| - 1 {
      EntriesAt(t, page, shows[..|shows| - 1], k);
    }
  }

  /** An entry carries the partner row's own name and image link. */
  lemma EntryShowsPartner(t: Tables, page: Page, s: Show)
    requires PartnerId(page, s) in PartnerIds(t, page)
    ensures var e := Entry(t, page, s);
      page == VenuePage ==> exists i :: (0 <= i < |t.artists| && t.artists[i].id == e.partnerId
        && t.artists[i].info.name == e.partnerName && t.artists[i].info.imageLink == e.partnerImageLink)
    ensures var e := Entry(t, page, s);
      page == ArtistPage ==> exists i :: (0 <= i < |t.venues| && t.venues[i].id == e.partnerId
        && t.venues[i].info.name == e.partnerName && t.venues[i].info.imageLink == e.partnerImageLink)
  {
  }

  /** Appending one show adds exactly one occurrence of it. */
  lemma MultisetAppend(x: seq<Show>, a: Show)
    ensures multiset(x + [a]) == multiset(x) + multiset{a}
  {
  }

  /** The two buckets split the shows: together they hold every show exactly as often as the input does. */
  lemma {:induction false} BucketsPartition(shows: seq<Show>, now: Timestamp)
    ensures multiset(PastShows(shows, now)) + multiset(UpcomingShows(shows, now)) == multiset(shows)
  {
    if |shows| > 0 {
      var init, last := shows[..|shows| - 1], shows[|shows| - 1];
      BucketsPartition(init, now);
      assert shows == init + [last];
      PartitionStep(init, last, now);
    }
  }

  /** The induction step of BucketsPartition: the appended show joins exactly one bucket. */
  lemma PartitionStep(init: seq<Show>, last: Show, now: Timestamp)
    requires multiset(PastShows(init, now)) + multiset(UpcomingShows(init, now)) == multiset(init)
    ensures multiset(PastShows(init + [last], now)) + multiset(UpcomingShows(init + [last], now))
      == multiset(init + [last])
  {
    PastShowsAppend(init, last, now);
    MultisetAppend(init, last);
    if IsPast(last, now) {
      MultisetAppend(PastShows(init, now), last);
    } else {
      MultisetAppend(UpcomingShows(init, now), last);
    }
  }

  /** The two counters add up to the number of shows. */
  lemma CountsAddUp(shows: seq<Show>, now: Timestamp)
    ensures |PastShows(shows, now)| + |UpcomingShows(shows, now)| == |shows|
  {
    BucketsPartition(shows, now);
    assert |multiset(PastShows(shows, now))| == |PastShows(shows, now)|;
    assert |multiset(UpcomingShows(shows, now))| == |UpcomingShows(shows, now)|;
  }

  /**
    Every show lands in exactly one bucket: the past one iff it starts strictly
    before `now`, otherwise the upcoming one (a show starting exactly at `now` is
    upcoming); nothing else is in either bucket.
   */
  lemma {:induction false} BucketMembers(shows: seq<Show>, now: Timestamp, s: Show)
    ensures s in PastShows(shows, now) <==> s in shows && IsPast(s, now)
    ensures s in UpcomingShows(shows, now) <==> s in shows && !IsPast(s, now)
  {
    if |shows| > 0 {
      var init, last := shows[..|shows| - 1], shows[|shows| - 1];
      BucketMembers(init, now, s);
      assert shows == init + [last];
      PastShowsAppend(init, last, now);
    }
  }

  /** Classification distributes over concatenation, so each bucket keeps the original order of its shows. */
  lemma {:induction false} BucketsKeepOrder(a: seq<Show>, b: seq<Show>, now: Timestamp)
    ensures PastShows(a + b, now) == PastShows(a, now) + PastShows(b, now)
    ensures UpcomingShows(a + b, now) == UpcomingShows(a, now) + UpcomingShows(b, now)
  {
    if |b| == 0 {
      assert a + b == a;
    } else {
      var init, last := b[..|b| - 1], b[|b| - 1];
      BucketsKeepOrder(a, init, now);
      assert a + b == (a + init) + [last];
      assert b == init + [last];
      PastShowsAppend(a + init, last, now);
      PastShowsAppend(init, last, now);
    }
  }

  /** `venue.shows` / `artist.shows`: exactly the shows whose venue (artist) id is the record's id. */
  lemma {:induction false} ShowsOfMembers(shows: seq<Show>, page: Page, id: int, s: Show)
    ensures s in ShowsOf(shows, page, id) <==> s in shows && OwnerId(page, s) == id
  {
    if |shows| > 0 {
      var init, last := shows[..|shows| - 1], shows[|shows| - 1];
      ShowsOfMembers(init, page, id, s);
      assert shows == init + [last];
    }
  }

  /**
    The boundary: with `now` at 2024-01-01 00:00:00, a show one second earlier is
    past and a show starting exactly at `now` is upcoming.
   */
  lemma BoundaryExample(early: Show, atNow: Show)
    requires early.info.startTime == Timestamp(2023, 12, 31, 23, 59, 59)
    requires atNow.info.startTime == Timestamp(2024, 1, 1, 0, 0, 0)
    ensures PastShows([early, atNow], Timestamp(2024, 1, 1, 0, 0, 0)) == [early]
    ensures UpcomingShows([early, atNow], Timestamp(2024, 1, 1, 0, 0, 0)) == [atNow]
  {
    var now := Timestamp(2024, 1, 1, 0, 0, 0);
    assert IsPast(early, now) && !IsPast(atNow, now);
    PastShowsAppend([], early, now);
    assert [early, atNow] == [early] + [atNow];
    PastShowsAppend([early], atNow, now);
  }
}
