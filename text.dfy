/**
  The name match used by both search pages: a case-insensitive, unanchored
  substring test (the `ilike '%term%'` of the queries), with ASCII lower-casing.
 */
module Text {

  function LowerChar(c: char): (r: char)
    ensures !('A' <= r <= 'Z')
    ensures r == c || 'A' <= c <= 'Z'
  {
    if 'A' <= c <= 'Z' then (c as int + 32) as char else c
  }

  function Lower(s: string): (r: string)
    ensures |r| == |s|
    ensures forall i :: 0 <= i < |s| ==> r[i] == LowerChar(s[i])
  {
    seq(|s|, i requires 0 <= i < |s| => LowerChar(s[i]))
  }

  /** `sub` occurs in `s` starting at position `i`. */
  ghost predicate OccursAt(s: string, sub: string, i: int)
  {
    0 <= i && i + |sub| <= |s| && s[i..i + |sub|] == sub
  }

  predicate IsPrefix(p: string, s: string)
  {
    |p| <= |s| && s[..|p|] == p
  }

  /** Unanchored substring test: true exactly when `sub` occurs somewhere in `s`. */
  function Contains(s: string, sub: string): (b: bool)
    ensures b <==> exists i :: OccursAt(s, sub, i)
    decreases |s|
  {
    if IsPrefix(sub, s) then
      assert OccursAt(s, sub, 0);
      true
    else if |s| == 0 then
      false
    else
      OccurrencesOfTail(s, sub);
      Contains(s[1..], sub)
  }

  /** Away from position 0, `sub` occurs in `s` exactly where it occurs, one place earlier, in `s[1..]`. */
  lemma OccurrencesOfTail(s: string, sub: string)
    requires |s| > 0 && !IsPrefix(sub, s)
    ensures (exists i :: OccursAt(s, sub, i)) <==> (exists i :: OccursAt(s[1..], sub, i))
  {
    forall i | OccursAt(s[1..], sub, i) ensures OccursAt(s, sub, i + 1) {
      assert s[i + 1..i + 1 + |sub|] == s[1..][i..i + |sub|];
    }
    forall i | OccursAt(s, sub, i) ensures OccursAt(s[1..], sub, i - 1) {
      assert i != 0 by { assert s[..|sub|] == s[0..|sub|]; }
      var t := s[1..];
      assert i - 1 + |sub| <= |t|;
      var a, b := t[i - 1..i - 1 + |sub|], s[i..i + |sub|];
      assert forall k :: 0 <= k < |a| ==> a[k] == b[k];
      assert a == b;
    }
  }

  /** The search predicate: the lower-cased name contains the lower-cased term. */
  predicate NameMatches(name: string, term: string)
  {
    Contains(Lower(name), Lower(term))
  }

  /** An empty search term matches every name. */
  lemma EmptyTermMatchesAll(name: string)
    ensures NameMatches(name, "")
  {
    assert OccursAt(Lower(name), Lower(""), 0);
  }

  /** Lower-casing twice is lower-casing once. */
  lemma LowerIdempotent(s: string)
    ensures Lower(Lower(s)) == Lower(s)
  {
    forall i | 0 <= i < |s| ensures Lower(Lower(s))[i] == Lower(s)[i] {
      assert Lower(s)[i] == LowerChar(s[i]);
    }
  }

  /** Lower-casing the name, the term, or both, never changes whether they match. */
  lemma MatchIgnoresCase(name: string, term: string)
    ensures NameMatches(Lower(name), term) == NameMatches(name, term)
    ensures NameMatches(name, Lower(term)) == NameMatches(name, term)
    ensures NameMatches(Lower(name), Lower(term)) == NameMatches(name, term)
  {
    LowerIdempotent(name);
    LowerIdempotent(term);
  }

  /**
    Names that differ only in letter case are found by the same terms, and terms
    that differ only in letter case find the same names.
   */
  lemma CaseVariantsMatchAlike(name: string, otherName: string, term: string, otherTerm: string)
    requires Lower(name) == Lower(otherName) && Lower(term) == Lower(otherTerm)
    ensures NameMatches(name, term) == NameMatches(otherName, otherTerm)
  {
  }

  /** Upper- and lower-case spellings of a term find the same name. */
  lemma CaseVariantExample()
    ensures Lower("HOP") == Lower("hop")
    ensures NameMatches("The Musical Hop", "HOP") && NameMatches("the musical hop", "hop")
  {
    VenueSearchExamples();
    assert Lower("the musical hop") == Lower("The Musical Hop");
    CaseVariantsMatchAlike("The Musical Hop", "The Musical Hop", "hop", "HOP");
    CaseVariantsMatchAlike("The Musical Hop", "the musical hop", "hop", "hop");
  }

  /** A name matches every term cut out of it, in any letter case. */
  lemma SliceOfNameMatches(name: string, i: int, j: int)
    requires 0 <= i <= j <= |name|
    ensures NameMatches(name, name[i..j])
  {
    assert Lower(name)[i..j] == Lower(name[i..j]);
    assert OccursAt(Lower(name), Lower(name[i..j]), i);
  }

  /** The two examples in the venue search handler's comment. */
  lemma VenueSearchExamples()
    ensures NameMatches("The Musical Hop", "hop")
    ensures NameMatches("The Musical Hop", "Music")
    ensures NameMatches("Park Square Live Music & Coffee", "Music")
  {
    var hop := "The Musical Hop";
    assert Lower(hop)[12..15] == Lower("hop");
    assert OccursAt(Lower(hop), Lower("hop"), 12);
    assert Lower(hop)[4..9] == Lower("Music");
    assert OccursAt(Lower(hop), Lower("Music"), 4);
    var park := "Park Square Live Music & Coffee";
    assert Lower(park)[17..22] == Lower("Music");
    assert OccursAt(Lower(park), Lower("Music"), 17);
  }

  /** "A" finds all three seeded artists; "band" finds "The Wild Sax Band". */
  lemma ArtistSearchExamples()
    ensures NameMatches("Guns N Petals", "A")
    ensures NameMatches("Matt Quevado", "A")
    ensures NameMatches("The Wild Sax Band", "A")
    ensures NameMatches("The Wild Sax Band", "band")
  {
    var guns, matt, sax := "Guns N Petals", "Matt Quevado", "The Wild Sax Band";
    assert Lower(guns)[10..11] == Lower("A");
    assert OccursAt(Lower(guns), Lower("A"), 10);
    assert Lower(matt)[1..2] == Lower("A");
    assert OccursAt(Lower(matt), Lower("A"), 1);
    assert Lower(sax)[10..11] == Lower("A");
    assert OccursAt(Lower(sax), Lower("A"), 10);
    assert Lower(sax)[13..17] == Lower("band");
    assert OccursAt(Lower(sax), Lower("band"), 13);
  }
}
