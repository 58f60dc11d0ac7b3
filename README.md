# Booking directory: a verified model

The booking directory is a small web application for venues, artists and the
shows that bring them together. Its handlers list the venues grouped by city,
search venues and artists by name, show one venue's or one artist's page with
the shows split into past and upcoming, list every show, and create, edit and
delete records. A new show is refused when its artist already plays that day.

This project models the handlers' logic over an abstract database and proves
what they promise.

The modules are:

- `Timestamps` (timestamps.dfy): a show's start time as six calendar fields, compared
  lexicographically, and its calendar date.
- `Records` (records.dfy): the three tables as sequences of `Row(id, info)`, their key
  constraints, look-up by id (`query.get`), full-field replacement, deletion, and the
  `{id, name}` projection.
- `Text` (text.dfy): the case-insensitive substring match behind both searches.
- `Forms` (forms.dfy): a submitted form as an ordered list of key/value fields. It
  gives `form[key]`, `getlist` and presence, and the venue and artist records a form
  yields.
- `Classifier` (classifier.dfy): the venue and artist pages. The owner's shows go into
  past and upcoming buckets, each with a counter.
- `Directory` (directory.dfy): the venue directory grouped by (state, city).
- `Search` (search.dfy): the two search pages. This includes the venue handler's four
  consecutive query choices.
- `ShowList` (showlist.dfy): the list of every show.
- `Store` (store.dfy): the class `Db` holding the tables and the id sequences, with
  one method per mutating handler. It also holds the same-date conflict check and the
  invariant the methods keep.

`Db.Valid` is the invariant every mutating method keeps. It requires:

- every table has unique ids;
- every show names an existing artist and an existing venue;
- every id lies below its sequence's next value;
- no artist has two shows on one calendar date.

A failed commit is an input, `commitOk`. When it is false the method leaves the object
unchanged, which is the effect of the rollback. The clock is an input too, `now`.

## Model

| member | source | states |
|---|---|---|
| `Timestamps.Trichotomy` | app.py:149 | Start times compared with `<` form a strict total order: exactly one of earlier, equal, later holds |
| `Timestamps.BeforeTransitive` | app.py:149 | The start-time order is transitive |
| `Text.Contains` | app.py:101 | The match is unanchored (`%term%`): true exactly when the term occurs at some position of the name |
| `Text.EmptyTermMatchesAll` | app.py:107 | An empty search term matches every name |
| `Text.MatchIgnoresCase` | app.py:256 | Lower-casing the name alone, the term alone, or both, never changes whether they match (`ilike`) |
| `Text.CaseVariantsMatchAlike` | app.py:101 | Names that differ only in letter case are found by the same terms, and terms that differ only in letter case find the same names |
| `Text.CaseVariantExample` | app.py:91-92 | "HOP" and "hop" find "The Musical Hop", and "hop" finds "the musical hop" |
| `Text.SliceOfNameMatches` | app.py:101 | Any piece cut out of a name finds that name |
| `Text.VenueSearchExamples` | app.py:92-93 | "hop" and "Music" find "The Musical Hop"; "Music" finds "Park Square Live Music & Coffee" |
| `Text.ArtistSearchExamples` | app.py:243-244 | "A" finds "Guns N Petals", "Matt Quevado" and "The Wild Sax Band"; "band" finds "The Wild Sax Band" |
| `Records.Find` | app.py:126 | `query.get` gives nothing exactly when no row has the id; otherwise it gives a row of the table carrying that id |
| `Records.Replace` | app.py:393-403 | An update keeps the table's length and every id; the row with the id gets the new fields; every other row is unchanged |
| `Records.RemoveAt` | app.py:216-217 | With unique ids, deleting the id of row k removes exactly that row and keeps the rest in order |
| `Records.RemoveIds` | app.py:216-217 | After a delete the table's ids are the old ids minus the deleted one |
| `Records.RemoveAbsent` | app.py:216-217 | Deleting an id no row carries leaves the table unchanged |
| `Records.SummariesAt` | app.py:112-116 | The `{id, name}` projection keeps each row's id and name, position by position |
| `Records.SummariesConcat` | app.py:112-116 | Projecting two row lists one after the other is projecting each and concatenating |
| `Records.SummariesKeepPermutation` | app.py:76-82 | Rows that are a permutation of each other give `{id, name}` lists that are a permutation of each other |
| `Forms.First` | app.py:183 | `request.form[key]` yields a value exactly when the key was submitted |
| `Forms.FirstIsFirstOccurrence` | app.py:183 | The value yielded is the one of the key's first occurrence |
| `Forms.GetListAppend` | app.py:188 | `getlist` collects every value of its key in submission order, and only those |
| `Forms.FirstAppend` | app.py:183-193 | A later field changes neither the presence nor the value of a key already submitted |
| `Forms.ParseVenue` | app.py:183-193 | A record results exactly when every key read with `form[...]` is present. Each field is that key's value, `genres` is the `getlist`, and `seeking_talent` is the key's presence |
| `Forms.ParseArtist` | app.py:432-443 | The same for artists, with `seeking_venue` |
| `Forms.SeekingTalentIsPresence` | app.py:192 | Submitting the seeking-talent box sets the flag whatever value it carries (even "false"), and changes no other field |
| `Forms.SeekingVenueIsPresence` | app.py:442 | Submitting the seeking-venue box sets the flag whatever value it carries, and changes no other field |
| `Classifier.Classify` | app.py:146-164 | The buckets list the past shows' entries and the upcoming shows' entries, each in show order. Each counter equals its bucket's length |
| `Classifier.ShowVenue` | app.py:126-164 | A missing venue gives nothing. Otherwise the page shows that venue's row, with the buckets of exactly its shows |
| `Classifier.ShowArtist` | app.py:275-312 | A missing artist gives nothing. Otherwise the page shows that artist's row, with the buckets of exactly its shows |
| `Classifier.BucketMembers` | app.py:149 | A show is in the past bucket exactly when it starts strictly before `now`, and in the upcoming bucket exactly when it does not |
| `Classifier.BucketsPartition` | app.py:149-164 | The two buckets together hold every show exactly once (as multisets) |
| `Classifier.CountsAddUp` | app.py:156-164 | `past_shows_count + upcoming_shows_count` equals the number of shows |
| `Classifier.BucketsKeepOrder` | app.py:146 | Each bucket keeps the shows' order: bucketing distributes over concatenation |
| `Classifier.ShowsOfMembers` | app.py:294 | `artist.shows` (or `venue.shows`) holds exactly the shows whose artist (or venue) id is the record's |
| `Classifier.EntriesAt` | app.py:150-155 | Entry k of a bucket is the entry of the bucket's show k |
| `Classifier.EntryShowsPartner` | app.py:151-153 | An entry carries the partner row's own id, name and image link |
| `Classifier.BoundaryExample` | app.py:149 | With now = 2024-01-01 00:00:00, a show at 2023-12-31 23:59:59 is past and a show at exactly now is upcoming |
| `Directory.ListVenues` | app.py:70-84 | One area per distinct (state, city), in order. Each lists the `{id, name}` of exactly that area's venues, in table order. The groups together hold the `{id, name}` of every venue exactly once (as a multiset) |
| `Directory.ListedGroupsAreFlatten` | app.py:72-84 | The concatenated groups of the listed entries are the `{id, name}` of the concatenated venue groups |
| `Directory.AreasDistinct` | app.py:70 | No (state, city) pair is listed twice |
| `Directory.AreasListed` | app.py:70 | A pair is listed exactly when some venue lies in it |
| `Directory.VenuesInMembers` | app.py:74 | An area's group holds exactly the venues with that state and city |
| `Directory.NoEmptyGroup` | app.py:72-84 | No listed area has an empty group |
| `Directory.ExactlyOneGroup` | app.py:72-84 | Every venue's own area is listed, and the venue is in that group and in no other |
| `Directory.DirectoryIsPartition` | app.py:70-84 | Concatenating the groups gives back exactly the venue table, as a multiset |
| `Search.ChooseVenueQuery` | app.py:100-107 | The four consecutive `if`s leave in `venues` exactly the venues the search policy selects |
| `Search.QueryIsPolicy` | app.py:100-107 | A query filtering on the given non-empty filters is the policy: name match, plus city and state where given |
| `Search.SearchVenues` | app.py:95-118 | `data` is the `{id, name}` of the selected venues in table order, and `count` is its length |
| `Search.SearchArtists` | app.py:254-267 | `data` is the `{id, name}` of the artists whose name matches, in table order, and `count` is its length |
| `Search.MatchingVenuesMembers` | app.py:100-107 | A venue is found exactly when its name matches and its city and state equal the filters given; an absent or empty filter imposes nothing |
| `Search.ArtistQueryMembers` | app.py:256 | An artist is found exactly when its name matches |
| `Search.MatchingVenuesKeepOrder` | app.py:112-116 | Venue results keep the table order |
| `Search.ArtistQueryKeepsOrder` | app.py:261-265 | Artist results keep the table order |
| `Search.NoMatchNoResults` | app.py:109 | A term no venue name contains gives an empty result |
| `Search.NoArtistMatchNoResults` | app.py:256-258 | A term no artist name contains gives an empty result |
| `ShowList.ListShows` | app.py:466-476 | One listing per show, in table order, each built from that show |
| `ShowList.ListingNamesParties` | app.py:470-475 | With keys intact, a listing carries the names and image link of the show's own artist and venue |
| `Store.SameDateConflict` | app.py:495-499 | `repeated` is set exactly when one of the artist's shows falls on the requested calendar date |
| `Store.ConflictIsBooking` | app.py:494-499 | Scanning the artist's shows finds a conflict exactly when that artist has a show on that date. Another artist's show, or a show on another date, never blocks |
| `Store.AddShowKeepsNoDoubleBooking` | app.py:501-509 | Adding a show that passed the conflict check never double-books its artist |
| `Store.BookingKeepsInvariant` | app.py:501-509 | Booking under the next show id keeps keys, id bounds and the one-show-a-day rule |
| `Store.AddVenueKeepsInvariant` | app.py:197-199 | Adding a venue under the next id keeps keys and id bounds |
| `Store.AddArtistKeepsInvariant` | app.py:445-448 | Adding an artist under the next id keeps keys and id bounds |
| `Store.DeleteKeepsInvariant` | app.py:215-217 | Deleting a venue that hosts no show removes exactly its row and keeps keys and id bounds |
| `Store.Db.CreateVenue` | app.py:182-205 | A form missing a required key, or a failed commit, leaves the store unchanged. Otherwise exactly one venue, with the form's fields and an unused id, is appended, and nothing else changes |
| `Store.Db.CreateArtist` | app.py:431-455 | The same for artists |
| `Store.Db.EditVenue` | app.py:390-411 | An unknown id is reported and changes nothing, and so do a missing key or a failed commit. Otherwise every field of that venue is replaced, its id kept, and nothing else changes |
| `Store.Db.EditArtist` | app.py:343-362 | The same for artists |
| `Store.Db.DeleteVenue` | app.py:215-225 | An unknown id is reported. A venue still hosting a show, or a failed commit, changes nothing. Otherwise exactly that venue's row is removed and the rest keep their order |
| `Store.Db.CreateShow` | app.py:492-518 | An unknown artist is reported. If the artist is booked that date, the result is "busy" and nothing changes. An unknown venue or a failed commit changes nothing. Otherwise exactly one show with the given artist, venue and start time is appended under an unused id |

## Left out

- The web layer is not modelled: routing, templates, `flash` messages, redirects and the 404/500 handlers. The handlers' results are the values and `Outcome`s above.
- The session mechanics are not modelled: `add`, `commit`, `rollback` and `close`. Commit failure is the `commitOk` input, and rollback is "the object is unchanged".
- Id assignment is modelled as a per-table sequence that advances only on a successful insert. A real database sequence may also skip values after a rollback. Only "the id is unused" is relied on.
- `Text.NameMatches` treats the term as a literal substring. In the source's `ilike`, a `%` or `_` inside the term is a wildcard, and a `\` (the default escape character of PostgreSQL and MySQL) escapes the character after it. Lower-casing is ASCII only, not the database's Unicode case folding.
- Start times are structured values. The `strptime`/`strftime` string conversions (app.py:154, 492) and their parse errors are not modelled, and neither is the locale formatting filter (app.py:41-47).
- The clock is read once, as the `now` parameter. The source reads it again for every show, and its time-zone tagging (app.py:147-148) does not change a comparison. The clock carries microseconds and `now` has whole seconds: `now` stands for the clock rounded up to the next whole second. That gives the source's comparison for the whole-second start times, but the sub-second reading itself is not modelled.
- The group order of `group_by(state, city)` is not specified by the query. `Directory.DistinctAreas` lists the areas in order of first appearance.
- The query methods take the order of the rows as the tables' order. The database's own result order is not modelled.
- A missing id is reported as `NotFound`, or as `None` on the detail pages, with nothing changed. The source dereferences `None` there and fails with a server error (app.py:126, 216, 275, 343, 390, 494).
- A missing required form key is reported as `Failed`, with nothing changed. When the `create` handlers lack `name`, their error branch raises a second time (app.py:203, 452). The store is still unchanged, but the page becomes a server error.
- A search without `search_term` raises before any query (app.py:96, 255). The model's search methods take the term as given.
- `models.py` and `forms.py` are not part of this model. The foreign keys are taken as required, with no cascade. Deleting a venue that still hosts a show therefore fails at commit (`Failed`, store unchanged), and so does a show whose venue does not exist.
- `Classifier.Entry` and `ShowList.ListingOf` look up partner rows by id and fall back to empty strings when a row is missing. With the foreign keys intact, which the page methods require, the fallback is never used.
- The handlers that only render a form are left out: the edit-form GET handlers (app.py:320-383) and the create-form handlers. So are the plain artist list (app.py:232-237), logging and the application start-up.
