/**
  The mutating handlers: create a venue or an artist from a submitted form, edit
  one, delete a venue, and book a show. Each runs its change inside a
  transaction: when the commit fails the session is rolled back and the store is
  left exactly as it was. Which commits fail is not under the program's control,
  so each handler takes whether its commit succeeds as an input.
 */
module Store {
  import opened Timestamps
  import opened Records
  import opened Forms
  import opened Classifier

  /**
    What a handler reports: the id of the record it created, updated or deleted;
    "Artist is busy in this day"; a failed transaction (rolled back); or an id
    that names no record (where the handler dereferences `None`).
   */
  datatype Outcome = Done(id: int) | Busy | Failed | NotFound

  /** The artist already has a show on that calendar date. */
  predicate BookedOn(shows: seq<Show>, artistId: int, date: Date)
  {
    exists i :: 0 <= i < |shows| && shows[i].info.artistId == artistId && DateOf(shows[i].info.startTime) == date
  }

  /** Some show takes place at the venue: deleting it would break a foreign key. */
  predicate Hosts(shows: seq<Show>, venueId: int)
  {
    exists i :: 0 <= i < |shows| && shows[i].info.venueId == venueId
  }

  /** No artist has two shows on the same calendar date. */
  ghost predicate NoDoubleBooking(shows: seq<Show>)
  {
    forall i, j :: 0 <= i < j < |shows| && shows[i].info.artistId == shows[j].info.artistId ==>
      DateOf(shows[i].info.startTime) != DateOf(shows[j].info.startTime)
  }

  /** The conflict check of `create_show_submission`: does any of the artist's shows fall on `date`? */
  method SameDateConflict(artistShows: seq<Show>, date: Date) returns (repeated: bool)
    ensures repeated <==> exists i :: 0 <= i < |artistShows| && DateOf(artistShows[i].info.startTime) == date
  {
    repeated := false;
    for i := 0 to |artistShows|
      invariant repeated <==> exists j :: 0 <= j < i && DateOf(artistShows[j].info.startTime) == date
    {
      if date == DateOf(artistShows[i].info.startTime) {
        repeated := true;
      }
    }
  }

  /**
    Scanning the artist's own shows finds a conflict exactly when the artist is
    booked on that date: a show of another artist, or on another date, does not block.
   */
  lemma ConflictIsBooking(shows: seq<Show>, artistId: int, date: Date, mine: seq<Show>)
    requires mine == ShowsOf(shows, ArtistPage, artistId)
    ensures (exists i :: 0 <= i < |mine| && DateOf(mine[i].info.startTime) == date) <==> BookedOn(shows, artistId, date)
  {
    if exists i :: 0 <= i < |mine| && DateOf(mine[i].info.startTime) == date {
      var i :| 0 <= i < |mine| && DateOf(mine[i].info.startTime) == date;
      ShowsOfMembers(shows, ArtistPage, artistId, mine[i]);
    }
    if BookedOn(shows, artistId, date) {
      var i :| 0 <= i < |shows| && shows[i].info.artistId == artistId && DateOf(shows[i].info.startTime) == date;
      ShowsOfMembers(shows, ArtistPage, artistId, shows[i]);
      var j :| 0 <= j < |mine| && mine[j] == shows[i];
    }
  }

  /** Booking a show the conflict check lets through never double-books its artist. */
  lemma AddShowKeepsNoDoubleBooking(shows: seq<Show>, s: Show)
    requires NoDoubleBooking(shows)
    requires !BookedOn(shows, s.info.artistId, DateOf(s.info.startTime))
    ensures NoDoubleBooking(shows + [s])
  {
    var all := shows + [s];
    forall i, j | 0 <= i < j < |all| && all[i].info.artistId == all[j].info.artistId
      ensures DateOf(all[i].info.startTime) != DateOf(all[j].info.startTime)
    {
      if j == |shows| {
        assert all[i] == shows[i];
      } else {
        assert all[i] == shows[i] && all[j] == shows[j];
      }
    }
  }

  /** Adding a show with a new id whose artist and venue exist keeps every key intact. */
  lemma AddShowKeepsWellFormed(t: Tables, s: Show)
    requires WellFormed(t)
    requires s.id !in Ids(t.shows) && s.info.artistId in Ids(t.artists) && s.info.venueId in Ids(t.venues)
    ensures WellFormed(t.(shows := t.shows + [s]))
  {
    AppendFreshKeepsUnique(t.shows, s);
    var all := t.shows + [s];
    forall i | 0 <= i < |all|
      ensures all[i].info.artistId in Ids(t.artists) && all[i].info.venueId in Ids(t.venues)
    {
      if i < |t.shows| {
        assert all[i] == t.shows[i];
      }
    }
  }

  /** Every id of the table lies below the next value of its id sequence. */
  ghost predicate IdsBelow<T>(rows: seq<Row<T>>, next: int)
  {
    forall id :: id in Ids(rows) ==> id < next
  }

  /** Adding a venue under the next id of its sequence keeps keys and id bounds. */
  lemma AddVenueKeepsInvariant(t: Tables, next: int, v: Venue)
    requires WellFormed(t) && IdsBelow(t.venues, next) && v.id == next
    ensures WellFormed(t.(venues := t.venues + [v])) && IdsBelow(t.venues + [v], next + 1)
  {
    IdsAppend(t.venues, v);
    AppendFreshKeepsUnique(t.venues, v);
  }

  /** Adding an artist under the next id of its sequence keeps keys and id bounds. */
  lemma AddArtistKeepsInvariant(t: Tables, next: int, a: Artist)
    requires WellFormed(t) && IdsBelow(t.artists, next) && a.id == next
    ensures WellFormed(t.(artists := t.artists + [a])) && IdsBelow(t.artists + [a], next + 1)
  {
    IdsAppend(t.artists, a);
    AppendFreshKeepsUnique(t.artists, a);
  }

  /** Replacing a venue's fields keeps keys and id bounds: no id changes. */
  lemma EditVenueKeepsInvariant(t: Tables, next: int, id: int, info: VenueInfo)
    requires WellFormed(t) && IdsBelow(t.venues, next)
    ensures WellFormed(t.(venues := Replace(t.venues, id, info))) && IdsBelow(Replace(t.venues, id, info), next)
  {
    ReplaceKeepsIds(t.venues, id, info);
  }

  /** Replacing an artist's fields keeps keys and id bounds: no id changes. */
  lemma EditArtistKeepsInvariant(t: Tables, next: int, id: int, info: ArtistInfo)
    requires WellFormed(t) && IdsBelow(t.artists, next)
    ensures WellFormed(t.(artists := Replace(t.artists, id, info))) && IdsBelow(Replace(t.artists, id, info), next)
  {
    ReplaceKeepsIds(t.artists, id, info);
  }

  /** Booking a show under the next id of the sequence keeps keys, id bounds and the one-show-a-day rule. */
  lemma BookingKeepsInvariant(t: Tables, next: int, s: Show)
    requires WellFormed(t) && NoDoubleBooking(t.shows) && IdsBelow(t.shows, next)
    requires s.id == next && s.info.artistId in Ids(t.artists) && s.info.venueId in Ids(t.venues)
    requires !BookedOn(t.shows, s.info.artistId, DateOf(s.info.startTime))
    ensures WellFormed(t.(shows := t.shows + [s]))
    ensures NoDoubleBooking(t.shows + [s]) && IdsBelow(t.shows + [s], next + 1)
  {
    IdsAppend(t.shows, s);
    AddShowKeepsWellFormed(t, s);
    AddShowKeepsNoDoubleBooking(t.shows, s);
  }

  /**
    Deleting the venue of row `k`, which hosts no show, removes exactly that row and
    keeps keys and id bounds.
   */
  lemma DeleteKeepsInvariant(t: Tables, next: int, k: int)
    requires WellFormed(t) && IdsBelow(t.venues, next)
    requires 0 <= k < |t.venues| && !Hosts(t.shows, t.venues[k].id)
    ensures var rest := Remove(t.venues, t.venues[k].id);
      && rest == t.venues[..k] + t.venues[k + 1..]
      && WellFormed(t.(venues := rest)) && IdsBelow(rest, next)
  {
    var id := t.venues[k].id;
    RemoveAt(t.venues, id, k);
    RemoveIds(t.venues, id);
    var rest := t.venues[..k] + t.venues[k + 1..];
    forall i, j | 0 <= i < j < |rest| ensures rest[i].id != rest[j].id {
      if j < k {
        assert rest[i] == t.venues[i] && rest[j] == t.venues[j];
      } else if i < k {
        assert rest[i] == t.venues[i] && rest[j] == t.venues[j + 1];
      } else {
        assert rest[i] == t.venues[i + 1] && rest[j] == t.venues[j + 1];
      }
    }
  }

  /** The database: three tables and the next value of each table's id sequence. */
  class Db {
    var venues: seq<Venue>
    var artists: seq<Artist>
    var shows: seq<Show>
    var nextVenueId: int
    var nextArtistId: int
    var nextShowId: int

    function Snapshot(): Tables
      reads this
    {
      Tables(venues, artists, shows)
    }

    /**
      Primary and foreign keys hold, every id handed out lies below its sequence's
      next value, and no artist is booked twice on one date.
     */
    ghost predicate Valid()
      reads this
    {
      && WellFormed(Snapshot())
      && NoDoubleBooking(shows)
      && IdsBelow(venues, nextVenueId)
      && IdsBelow(artists, nextArtistId)
      && IdsBelow(shows, nextShowId)
    }

    constructor ()
      ensures Valid() && Snapshot() == Tables([], [], [])
    {
      venues, artists, shows := [], [], [];
      nextVenueId, nextArtistId, nextShowId := 1, 1, 1;
    }

    /**
      `create_venue_submission`: a form missing a required key fails; otherwise the
      venue is added under a fresh id if the commit succeeds.
     */
    method CreateVenue(form: Form, commitOk: bool) returns (o: Outcome)
      requires Valid()
      modifies this
      ensures Valid()
      ensures o.Done? || o.Failed?
      ensures o.Done? <==> ParseVenue(form).Some? && commitOk
      ensures o.Done? ==> o.id !in Ids(old(venues)) && venues == old(venues) + [Row(o.id, ParseVenue(form).value)]
      ensures o.Done? ==> artists == old(artists) && shows == old(shows)
      ensures o.Failed? ==> unchanged(this)
    {
      var info := ParseVenue(form);
      if info.None? {
        return Failed;
      }
      var venue := Row(nextVenueId, info.value);
      if !commitOk {
        return Failed;
      }
      AddVenueKeepsInvariant(Snapshot(), nextVenueId, venue);
      venues := venues + [venue];
      nextVenueId := nextVenueId + 1;
      o := Done(venue.id);
    }

    /**
      `create_artist_submission`: a form missing a required key fails; otherwise the
      artist is added under a fresh id if the commit succeeds.
     */
    method CreateArtist(form: Form, commitOk: bool) returns (o: Outcome)
      requires Valid()
      modifies this
      ensures Valid()
      ensures o.Done? || o.Failed?
      ensures o.Done? <==> ParseArtist(form).Some? && commitOk
      ensures o.Done? ==> o.id !in Ids(old(artists)) && artists == old(artists) + [Row(o.id, ParseArtist(form).value)]
      ensures o.Done? ==> venues == old(venues) && shows == old(shows)
      ensures o.Failed? ==> unchanged(this)
    {
      var info := ParseArtist(form);
      if info.None? {
        return Failed;
      }
      var artist := Row(nextArtistId, info.value);
      if !commitOk {
        return Failed;
      }
      AddArtistKeepsInvariant(Snapshot(), nextArtistId, artist);
      artists := artists + [artist];
      nextArtistId := nextArtistId + 1;
      o := Done(artist.id);
    }

    /**
      `edit_venue_submission`: every field of the venue is replaced by the submitted
      value; the id and every other record stay as they were.
     */
    method EditVenue(id: int, form: Form, commitOk: bool) returns (o: Outcome)
      requires Valid()
      modifies this
      ensures Valid()
      ensures o.Done? || o.Failed? || o.NotFound?
      ensures o.NotFound? <==> id !in Ids(old(venues))
      ensures o.Done? <==> id in Ids(old(venues)) && ParseVenue(form).Some? && commitOk
      ensures o.Done? ==> o.id == id && venues == Replace(old(venues), id, ParseVenue(form).value)
      ensures o.Done? ==> artists == old(artists) && shows == old(shows)
      ensures !o.Done? ==> unchanged(this)
    {
      var venue := Find(venues, id);
      if venue.None? {
        return NotFound;
      }
      var info := ParseVenue(form);
      if info.None? || !commitOk {
        return Failed;
      }
      EditVenueKeepsInvariant(Snapshot(), nextVenueId, id, info.value);
      venues := Replace(venues, id, info.value);
      o := Done(id);
    }

    /**
      `edit_artist_submission`: every field of the artist is replaced by the submitted
      value; the id and every other record stay as they were.
     */
    method EditArtist(id: int, form: Form, commitOk: bool) returns (o: Outcome)
      requires Valid()
      modifies this
      ensures Valid()
      ensures o.Done? || o.Failed? || o.NotFound?
      ensures o.NotFound? <==> id !in Ids(old(artists))
      ensures o.Done? <==> id in Ids(old(artists)) && ParseArtist(form).Some? && commitOk
      ensures o.Done? ==> o.id == id && artists == Replace(old(artists), id, ParseArtist(form).value)
      ensures o.Done? ==> venues == old(venues) && shows == old(shows)
      ensures !o.Done? ==> unchanged(this)
    {
      var artist := Find(artists, id);
      if artist.None? {
        return NotFound;
      }
      var info := ParseArtist(form);
      if info.None? || !commitOk {
        return Failed;
      }
      EditArtistKeepsInvariant(Snapshot(), nextArtistId, id, info.value);
      artists := Replace(artists, id, info.value);
      o := Done(id);
    }

    /**
      `delete_venue`: removes exactly the venue with that id. A venue that still
      hosts a show cannot be deleted (the foreign key fails the commit).
     */
    method DeleteVenue(id: int, commitOk: bool) returns (o: Outcome)
      requires Valid()
      modifies this
      ensures Valid()
      ensures o.Done? || o.Failed? || o.NotFound?
      ensures o.NotFound? <==> id !in Ids(old(venues))
      ensures o.Done? <==> id in Ids(old(venues)) && !Hosts(old(shows), id) && commitOk
      ensures o.Done? ==> o.id == id
      ensures o.Done? ==> exists k :: 0 <= k < |old(venues)| && old(venues)[k].id == id && venues == old(venues)[..k] + old(venues)[k + 1..]
      ensures o.Done? ==> artists == old(artists) && shows == old(shows)
      ensures !o.Done? ==> unchanged(this)
    {
      var venue := Find(venues, id);
      if venue.None? {
        return NotFound;
      }
      if Hosts(shows, id) || !commitOk {
        return Failed;
      }
      var k :| 0 <= k < |venues| && venues[k] == venue.value;
      DeleteKeepsInvariant(Snapshot(), nextVenueId, k);
      venues := Remove(venues, id);
      o := Done(id);
    }

    /**
      `create_show_submission`: an artist already booked on the show's calendar date
      is busy; otherwise the show is added under a fresh id if its venue exists and
      the commit succeeds.
     */
    method CreateShow(artistId: int, venueId: int, startTime: Timestamp, commitOk: bool) returns (o: Outcome)
      requires Valid()
      modifies this
      ensures Valid()
      ensures o.NotFound? <==> artistId !in Ids(old(artists))
      ensures o.Busy? <==> artistId in Ids(old(artists)) && BookedOn(old(shows), artistId, DateOf(startTime))
      ensures o.Done? <==> && artistId in Ids(old(artists)) && !BookedOn(old(shows), artistId, DateOf(startTime))
                           && venueId in Ids(old(venues)) && commitOk
      ensures o.Done? ==> (o.id !in Ids(old(shows))
        && shows == old(shows) + [Row(o.id, ShowInfo(startTime, artistId, venueId))])
      ensures o.Done? ==> venues == old(venues) && artists == old(artists)
      ensures !o.Done? ==> unchanged(this)
    {
      var artist := Find(artists, artistId);
      if artist.None? {
        return NotFound;
      }
      var mine := ShowsOf(shows, ArtistPage, artistId);
      var repeated := SameDateConflict(mine, DateOf(startTime));
      ConflictIsBooking(shows, artistId, DateOf(startTime), mine);
      if repeated {
        return Busy;
      }
      var show := Row(nextShowId, ShowInfo(startTime, artistId, venueId));
      if venueId !in Ids(venues) || !commitOk {
        return Failed;
      }
      BookingKeepsInvariant(Snapshot(), nextShowId, show);
      shows := shows + [show];
      nextShowId := nextShowId + 1;
      o := Done(show.id);
    }
  }
}
