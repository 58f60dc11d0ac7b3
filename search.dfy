/**
  The two search pages (`search_venues`, `search_artists`). The result is a count
  and the `{id, name}` of every record whose name contains the search term,
  ignoring case; venue search can be narrowed by an exact city and/or state.
 */
module Search {
  import opened Records
  import opened Text

  /** Python truthiness of an optional form value (`request.form.get(...)`): present and non-empty. */
  predicate Given(filter: Option<string>)
  {
    filter.Some? && filter.value != ""
  }

  /** The search policy for venues: the name matches, and so do the city and the state where they are given. */
  predicate VenueMatches(v: Venue, term: string, city: Option<string>, state: Option<string>)
  {
    && NameMatches(v.info.name, term)
    && (Given(city) ==> v.info.city == city.value)
    && (Given(state) ==> v.info.state == state.value)
  }

  /** The venues satisfying the search policy, in table order. */
  function MatchingVenues(venues: seq<Venue>, term: string, city: Option<string>, state: Option<string>): seq<Venue>
  {
    if |venues| == 0 then []
    else
      var last := venues[|venues| - 1];
      MatchingVenues(venues[..|venues| - 1], term, city, state)
        + (if VenueMatches(last, term, city, state) then [last] else [])
  }

  /**
    One venue query as the handler issues it: `name ilike '%term%'`, plus
    `city == c` when `cityIs` is `Some(c)` and `state == s` when `stateIs` is `Some(s)`.
   */
  function VenueQuery(venues: seq<Venue>, term: string, cityIs: Option<string>, stateIs: Option<string>): seq<Venue>
  {
    if |venues| == 0 then []
    else
      var last := venues[|venues| - 1];
      var keep := && NameMatches(last.info.name, term)
                  && (cityIs.Some? ==> last.info.city == cityIs.value)
                  && (stateIs.Some? ==> last.info.state == stateIs.value);
      VenueQuery(venues[..|venues| - 1], term, cityIs, stateIs) + (if keep then [last] else [])
  }

  /** The artists whose name contains the term, ignoring case, in table order. */
  function ArtistQuery(artists: seq<Artist>, term: string): seq<Artist>
  {
    if |artists| == 0 then []
    else
      var last := artists[|artists| - 1];
      ArtistQuery(artists[..|artists| - 1], term) + (if NameMatches(last.info.name, term) then [last] else [])
  }

  /**
    The query the handler's four `if`s leave in `venues`: with only a city the
    city query, with only a state the state query, with both the last assignment
    (city and state), with neither the name-only query.
   */
  method ChooseVenueQuery(venues: seq<Venue>, term: string, city: Option<string>, state: Option<string>)
    returns (found: seq<Venue>)
    ensures found == MatchingVenues(venues, term, city, state)
  {
    found := [];
    if Given(city) {
      found := VenueQuery(venues, term, Some(city.value), None);
    }
    if Given(state) {
      found := VenueQuery(venues, term, None, Some(state.value));
    }
    if Given(city) && Given(state) {
      found := VenueQuery(venues, term, Some(city.value), Some(state.value));
    }
    if !Given(city) && !Given(state) {
      found := VenueQuery(venues, term, None, None);
    }
    QueryIsPolicy(venues, term, city, state);
  }

  /** Whichever of the four queries the handler runs, it returns exactly the venues the search policy selects. */
  lemma {:induction false} QueryIsPolicy(venues: seq<Venue>, term: string, city: Option<string>, state: Option<string>)
    ensures VenueQuery(venues, term, if Given(city) then city else None, if Given(state) then state else None)
      == MatchingVenues(venues, term, city, state)
  {
    if |venues| > 0 {
      QueryIsPolicy(venues[..|venues| - 1], term, city, state);
    }
  }

  /** `search_venues`: `count` and `data` for the term and the optional city and state filters. */
  method SearchVenues(venues: seq<Venue>, term: string, city: Option<string>, state: Option<string>)
    returns (count: nat, data: seq<Summary>)
    ensures data == Summaries(MatchingVenues(venues, term, city, state), VenueName)
    ensures count == |data|
  {
    var found := ChooseVenueQuery(venues, term, city, state);
    count := |found|;
    data := [];
    for i := 0 to |found|
      invariant data == Summaries(found[..i], VenueName)
    {
      assert found[..i + 1] == found[..i] + [found[i]];
      SummariesAppend(found[..i], found[i], VenueName);
      data := data + [Summary(found[i].id, found[i].info.name)];
    }
    assert found[..|found|] == found;
  }

  /** `search_artists`: `count` and `data` for the term. */
  method SearchArtists(artists: seq<Artist>, term: string) returns (count: nat, data: seq<Summary>)
    ensures data == Summaries(ArtistQuery(artists, term), ArtistName)
    ensures count == |data|
  {
    var found := ArtistQuery(artists, term);
    count := |found|;
    data := [];
    for i := 0 to |found|
      invariant data == Summaries(found[..i], ArtistName)
    {
      assert found[..i + 1] == found[..i] + [found[i]];
      SummariesAppend(found[..i], found[i], ArtistName);
      data := data + [Summary(found[i].id, found[i].info.name)];
    }
    assert found[..|found|] == found;
  }

  /**
    The venue search returns exactly the venues of the table whose name matches and
    whose city and state equal the filters that are given; an absent or empty
    filter imposes nothing.
   */
  lemma {:induction false} MatchingVenuesMembers(venues: seq<Venue>, term: string,
      city: Option<string>, state: Option<string>, v: Venue)
    ensures v in MatchingVenues(venues, term, city, state) <==> v in venues && VenueMatches(v, term, city, state)
  {
    if |venues| > 0 {
      var init, last := venues[..|venues| - 1], venues[|venues| - 1];
      MatchingVenuesMembers(init, term, city, state, v);
      assert venues == init + [last];
    }
  }

  /** The artist search returns exactly the artists of the table whose name matches. */
  lemma {:induction false} ArtistQueryMembers(artists: seq<Artist>, term: string, a: Artist)
    ensures a in ArtistQuery(artists, term) <==> a in artists && NameMatches(a.info.name, term)
  {
    if |artists| > 0 {
      var init, last := artists[..|artists| - 1], artists[|artists| - 1];
      ArtistQueryMembers(init, term, a);
      assert artists == init + [last];
    }
  }

  /** Search results keep the table order: the filter distributes over concatenation. */
  lemma {:induction false} MatchingVenuesKeepOrder(a: seq<Venue>, b: seq<Venue>, term: string,
      city: Option<string>, state: Option<string>)
    ensures MatchingVenues(a + b, term, city, state)
      == MatchingVenues(a, term, city, state) + MatchingVenues(b, term, city, state)
  {
    if |b| == 0 {
      assert a + b == a;
    } else {
      var init, last := b[..|b| - 1], b[|b| - 1];
      MatchingVenuesKeepOrder(a, init, term, city, state);
      assert (a + b)[..|a + b| - 1] == a + init;
    }
  }

  /** Search results keep the table order: the filter distributes over concatenation. */
  lemma {:induction false} ArtistQueryKeepsOrder(a: seq<Artist>, b: seq<Artist>, term: string)
    ensures ArtistQuery(a + b, term) == ArtistQuery(a, term) + ArtistQuery(b, term)
  {
    if |b| == 0 {
      assert a + b == a;
    } else {
      var init, last := b[..|b| - 1], b[|b| - 1];
      ArtistQueryKeepsOrder(a, init, term);
      assert (a + b)[..|a + b| - 1] == a + init;
    }
  }

  /** A term that no name contains gives `{count: 0, data: []}`. */
  lemma {:induction false} NoMatchNoResults(venues: seq<Venue>, term: string, city: Option<string>, state: Option<string>)
    requires forall i :: 0 <= i < |venues| ==> !NameMatches(venues[i].info.name, term)
    ensures MatchingVenues(venues, term, city, state) == []
  {
    if |venues| > 0 {
      NoMatchNoResults(venues[..|venues| - 1], term, city, state);
    }
  }

  /** A term that no artist name contains gives `{count: 0, data: []}`. */
  lemma {:induction false} NoArtistMatchNoResults(artists: seq<Artist>, term: string)
    requires forall i :: 0 <= i < |artists| ==> !NameMatches(artists[i].info.name, term)
    ensures ArtistQuery(artists, term) == []
  {
    if |artists| > 0 {
      NoArtistMatchNoResults(artists[..|artists| - 1], term);
    }
  }
}
