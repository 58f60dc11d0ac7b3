/**
  The submitted venue and artist forms. A form body is the ordered list of its
  key/value pairs; a key may repeat (the `genres` multi-select does). `form[key]`
  is the first value of a key and fails when the key is absent, `getlist(key)` is
  every value of the key in order, and `key in form` is presence alone.
 */
module Forms {
  import opened Records

  datatype Field = Field(key: string, value: string)

  type Form = seq<Field>

  /** `key in request.form` */
  predicate Has(form: Form, key: string)
  {
    exists i :: 0 <= i < |form| && form[i].key == key
  }

  /** No field before position `i` has the key. */
  predicate NotBefore(form: Form, key: string, i: int)
  {
    forall j :: 0 <= j < i && j < |form| ==> form[j].key != key
  }

  /** `request.form[key]`: the first value submitted for the key; `None` where the handler raises `KeyError`. */
  function First(form: Form, key: string): (r: Option<string>)
    ensures r.Some? <==> Has(form, key)
  {
    if |form| == 0 then None
    else if form[0].key == key then Some(form[0].value)
    else
      assert Has(form, key) ==> Has(form[1..], key) by {
        if Has(form, key) {
          var i :| 0 <= i < |form| && form[i].key == key;
          assert form[1..][i - 1].key == key;
        }
      }
      First(form[1..], key)
  }

  /** The value `request.form[key]` gives is the one of the key's first occurrence. */
  lemma {:induction false} FirstIsFirstOccurrence(form: Form, key: string)
    requires Has(form, key)
    ensures exists i :: 0 <= i < |form| && form[i] == Field(key, First(form, key).value) && NotBefore(form, key, i)
  {
    if form[0].key != key {
      var i :| 0 <= i < |form| && form[i].key == key;
      assert form[1..][i - 1].key == key;
      FirstIsFirstOccurrence(form[1..], key);
      var j :| 0 <= j < |form[1..]| && form[1..][j] == Field(key, First(form[1..], key).value) && NotBefore(form[1..], key, j);
      assert form[j + 1] == form[1..][j];
      assert forall k :: 1 <= k < j + 1 ==> form[k] == form[1..][k - 1];
    } else {
      assert form[0] == Field(key, First(form, key).value);
    }
  }

  /** `request.form.getlist(key)`: every value submitted for the key, in order. */
  function GetList(form: Form, key: string): seq<string>
  {
    if |form| == 0 then []
    else if form[0].key == key then [form[0].value] + GetList(form[1..], key)
    else GetList(form[1..], key)
  }

  /** The form carries every key the venue handlers read with `request.form[...]`. */
  predicate HasVenueKeys(form: Form)
  {
    && Has(form, "name") && Has(form, "city") && Has(form, "state") && Has(form, "address")
    && Has(form, "phone") && Has(form, "facebook_link") && Has(form, "image_link")
    && Has(form, "website_link") && Has(form, "seeking_description")
  }

  /** The form carries every key the artist handlers read with `request.form[...]`. */
  predicate HasArtistKeys(form: Form)
  {
    && Has(form, "name") && Has(form, "city") && Has(form, "state")
    && Has(form, "phone") && Has(form, "facebook_link") && Has(form, "image_link")
    && Has(form, "website_link") && Has(form, "seeking_description")
  }

  /** The submitted value of a key the form is known to carry. */
  function Value(form: Form, key: string): string
    requires Has(form, key)
  {
    First(form, key).value
  }

  /**
    The field values a venue submission carries, or `None` when a required key is
    missing (the handler's `KeyError`). The seeking flag is the PRESENCE of its key.
   */
  function ParseVenue(form: Form): (r: Option<VenueInfo>)
    ensures r.Some? <==> HasVenueKeys(form)
    ensures r.Some? ==> r.value.seekingTalent == Has(form, "seeking_talent")
    ensures r.Some? ==> r.value.genres == GetList(form, "genres")
    ensures r.Some? ==> (
      && r.value.name == Value(form, "name") && r.value.city == Value(form, "city")
      && r.value.state == Value(form, "state") && r.value.address == Value(form, "address")
      && r.value.phone == Value(form, "phone") && r.value.facebookLink == Value(form, "facebook_link")
      && r.value.imageLink == Value(form, "image_link") && r.value.websiteLink == Value(form, "website_link")
      && r.value.seekingDescription == Value(form, "seeking_description"))
  {
    if HasVenueKeys(form) then
      Some(VenueInfo(
        Value(form, "name"), Value(form, "city"), Value(form, "state"), Value(form, "address"),
        Value(form, "phone"), GetList(form, "genres"), Value(form, "facebook_link"),
        Value(form, "image_link"), Value(form, "website_link"),
        Has(form, "seeking_talent"), Value(form, "seeking_description")))
    else
      None
  }

  /** The field values an artist submission carries, or `None` when a required key is missing. */
  function ParseArtist(form: Form): (r: Option<ArtistInfo>)
    ensures r.Some? <==> HasArtistKeys(form)
    ensures r.Some? ==> r.value.seekingVenue == Has(form, "seeking_venue")
    ensures r.Some? ==> r.value.genres == GetList(form, "genres")
    ensures r.Some? ==> (
      && r.value.name == Value(form, "name") && r.value.city == Value(form, "city")
      && r.value.state == Value(form, "state") && r.value.phone == Value(form, "phone")
      && r.value.facebookLink == Value(form, "facebook_link")
      && r.value.imageLink == Value(form, "image_link") && r.value.websiteLink == Value(form, "website_link")
      && r.value.seekingDescription == Value(form, "seeking_description"))
  {
    if HasArtistKeys(form) then
      Some(ArtistInfo(
        Value(form, "name"), Value(form, "city"), Value(form, "state"), Value(form, "phone"),
        GetList(form, "genres"), Value(form, "facebook_link"),
        Value(form, "image_link"), Value(form, "website_link"),
        Has(form, "seeking_venue"), Value(form, "seeking_description")))
    else
      None
  }

  /** Appending a field changes neither the first value nor the presence of a key that was already there. */
  lemma {:induction false} FirstAppend(form: Form, f: Field, key: string)
    ensures Has(form + [f], key) <==> Has(form, key) || f.key == key
    ensures Has(form, key) ==> First(form + [f], key) == First(form, key)
  {
    assert forall i :: 0 <= i < |form| ==> (form + [f])[i] == form[i];
    assert (form + [f])[|form|] == f;
    if |form| > 0 {
      assert (form + [f])[1..] == form[1..] + [f];
      FirstAppend(form[1..], f, key);
    }
  }

  /** Appending a field adds its value to the list of its own key only. */
  lemma {:induction false} GetListAppend(form: Form, f: Field, key: string)
    ensures GetList(form + [f], key) == GetList(form, key) + (if f.key == key then [f.value] else [])
  {
    if |form| == 0 {
      assert [f][1..] == [];
    } else {
      assert (form + [f])[1..] == form[1..] + [f];
      GetListAppend(form[1..], f, key);
    }
  }

  lemma AppendKeepsValue(form: Form, f: Field, key: string)
    requires Has(form, key)
    ensures Has(form + [f], key) && Value(form + [f], key) == Value(form, key)
  {
    FirstAppend(form, f, key);
  }

  /**
    Ticking the seeking-talent box sets the flag whatever value the box submits
    (even "false" or ""), and changes no other field.
   */
  lemma SeekingTalentIsPresence(form: Form, v: string)
    requires ParseVenue(form).Some?
    ensures ParseVenue(form + [Field("seeking_talent", v)])
      == Some(ParseVenue(form).value.(seekingTalent := true))
  {
    var f := Field("seeking_talent", v);
    AppendKeepsValue(form, f, "name"); AppendKeepsValue(form, f, "city");
    AppendKeepsValue(form, f, "state"); AppendKeepsValue(form, f, "address");
    AppendKeepsValue(form, f, "phone"); AppendKeepsValue(form, f, "facebook_link");
    AppendKeepsValue(form, f, "image_link"); AppendKeepsValue(form, f, "website_link");
    AppendKeepsValue(form, f, "seeking_description");
    assert HasVenueKeys(form + [f]);
    FirstAppend(form, f, "seeking_talent");
    assert Has(form + [f], "seeking_talent");
    GetListAppend(form, f, "genres");
    assert GetList(form + [f], "genres") == GetList(form, "genres");
  }

  /** Ticking the seeking-venue box sets the flag whatever value the box submits, and changes no other field. */
  lemma SeekingVenueIsPresence(form: Form, v: string)
    requires ParseArtist(form).Some?
    ensures ParseArtist(form + [Field("seeking_venue", v)])
      == Some(ParseArtist(form).value.(seekingVenue := true))
  {
    var f := Field("seeking_venue", v);
    AppendKeepsValue(form, f, "name"); AppendKeepsValue(form, f, "city");
    AppendKeepsValue(form, f, "state"); AppendKeepsValue(form, f, "phone");
    AppendKeepsValue(form, f, "facebook_link"); AppendKeepsValue(form, f, "image_link");
    AppendKeepsValue(form, f, "website_link"); AppendKeepsValue(form, f, "seeking_description");
    assert HasArtistKeys(form + [f]);
    FirstAppend(form, f, "seeking_venue");
    assert Has(form + [f], "seeking_venue");
    GetListAppend(form, f, "genres");
    assert GetList(form + [f], "genres") == GetList(form, "genres");
  }
}
