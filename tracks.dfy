/** Track records returned by the catalog and the per-track rules applied
    before downloading: the solo-artist filter, the file-name scrubber and
    the cut of each keyword or album batch to the `--limit`. */
module Tracks {
  import opened Wrappers
  import opened Text
  import opened Seqs

  /** A catalog track as the formatted catalog answer lists it. */
  datatype Song = Song(
    id: Option<string>,
    name: Option<string>,
    artist: Option<seq<string>>,  // credited artist names
    urlId: string)                // reference handed to the URL resolver

  /** `song.artist || []`. */
  function Artists(song: Song): seq<string>
  {
    song.artist.GetOr([])
  }

  /** `isSoloMatch`: one credited artist, whose lower-cased name includes the
      lower-cased query. */
  predicate IsSoloMatch(song: Song, artist: string)
  {
    var names := Artists(song);
    |names| == 1 && Contains(Lower(names[0]), Lower(artist))
  }

  /** A track matches exactly when it has a single credited artist whose name
      holds the query somewhere, with case ignored; a track with no artist
      list, or with several artists, never matches; the query's case does not
      matter, and an empty query matches every solo track. */
  lemma IsSoloMatchSpec(song: Song, artist: string)
    ensures IsSoloMatch(song, artist) <==>
              song.artist.Some? && |song.artist.value| == 1 &&
              exists i :: OccursAt(Lower(song.artist.value[0]), Lower(artist), i)
    ensures IsSoloMatch(song, Lower(artist)) == IsSoloMatch(song, artist)
    ensures song.artist.Some? && |song.artist.value| == 1 ==> IsSoloMatch(song, "")
  {
    LowerIdempotent(artist);
    if song.artist.Some? && |song.artist.value| == 1 {
      ContainsIff(Lower(song.artist.value[0]), Lower(artist));
      assert OccursAt(Lower(song.artist.value[0]), Lower(""), 0);
      ContainsIff(Lower(song.artist.value[0]), Lower(""));
    }
  }

  /** The characters `sanitize` replaces: `< > : " / \ | ? *` and the control
      characters U+0000 to U+001F. */
  predicate IsForbidden(c: char)
  {
    c in "<>:\"/\\|?*" || c as int < 0x20
  }

  /** The regular-expression replacement inside `sanitize`: every forbidden
      character becomes `_`, every other one stays where it was. */
  function Scrub(text: string): (r: string)
    ensures |r| == |text|
    ensures forall i :: 0 <= i < |text| ==> r[i] == (if IsForbidden(text[i]) then '_' else text[i])
  {
    seq(|text|, i requires 0 <= i < |text| => if IsForbidden(text[i]) then '_' else text[i])
  }

  /** `sanitize`: scrub, trim, and fall back to `"track"` when nothing is left. */
  function Sanitize(text: string): (r: string)
    ensures |r| > 0
    ensures forall i :: 0 <= i < |r| ==> !IsForbidden(r[i])
    ensures |r| <= |text| || r == "track"
    ensures Trim(Scrub(text)) != "" ==> r == Trim(Scrub(text))
    ensures Trim(Scrub(text)) == "" ==> r == "track"
  {
    ScrubbedTrimIsSafe(text);
    var t := Trim(Scrub(text));
    if t == "" then "track" else t
  }

  /** Trimming keeps a slice of the scrubbed text, which holds no forbidden
      character. */
  lemma ScrubbedTrimIsSafe(text: string)
    ensures forall i :: 0 <= i < |Trim(Scrub(text))| ==> !IsForbidden(Trim(Scrub(text))[i])
    ensures |Trim(Scrub(text))| <= |text|
  {
    var u := Scrub(text);
    assert forall i :: 0 <= i < |u| ==> !IsForbidden(u[i]);
    TrimKeepsSafe(u);
  }

  /** Trimming a text without forbidden characters leaves none. */
  lemma TrimKeepsSafe(u: string)
    requires forall i :: 0 <= i < |u| ==> !IsForbidden(u[i])
    ensures forall i :: 0 <= i < |Trim(u)| ==> !IsForbidden(Trim(u)[i])
    ensures |Trim(u)| <= |u|
  {
    TrimSpec(u);
    var a := |u| - |TrimStart(u)|;
    forall i | 0 <= i < |Trim(u)| ensures !IsForbidden(Trim(u)[i]) {
      assert Trim(u)[i] == u[a + i];
    }
  }

  /** A name that is already clean (no forbidden character, no surrounding
      white space, not empty) is kept as it is. */
  lemma SanitizeKeepsCleanNames(text: string)
    requires text != ""
    requires forall i :: 0 <= i < |text| ==> !IsForbidden(text[i])
    requires !IsSpace(text[0]) && !IsSpace(text[|text| - 1])
    ensures Sanitize(text) == text
  {
    assert Scrub(text) == text;
    assert TrimStart(text) == text;
    assert TrimEnd(text) == text;
  }

  /** Sanitizing twice gives the same name as sanitizing once. */
  lemma SanitizeIdempotent(text: string)
    ensures Sanitize(Sanitize(text)) == Sanitize(text)
  {
    var r := Sanitize(text);
    if r != "track" {
      TrimSpec(Scrub(text));
      assert r == Trim(Scrub(text));
    }
    SanitizeKeepsCleanNames(r);
  }

  /** The songs one keyword contributes in `runKeywordMode`: with a non-empty
      `--artist`, keep the solo matches of the trimmed name; then cut to the
      limit. */
  function KeywordSelection(songs: seq<Song>, artist: Option<string>, limit: int): seq<Song>
  {
    var kept := if artist.Some? && artist.value != ""
                then Filter(songs, s => IsSoloMatch(s, Trim(artist.value)))
                else songs;
    TakeLimit(kept, limit)
  }

  /** The selection keeps catalog order and takes a prefix of the filtered
      list: with an artist every selected song is a solo match, without one
      the selection is the first `limit` songs; never more than a
      non-negative limit. */
  lemma KeywordSelectionSpec(songs: seq<Song>, artist: Option<string>, limit: int)
    ensures var r := KeywordSelection(songs, artist, limit);
            forall s :: s in r ==> s in songs
    ensures var r := KeywordSelection(songs, artist, limit);
            artist.Some? && artist.value != "" ==>
              r == Filter(songs, s => IsSoloMatch(s, Trim(artist.value)))[..|r|] &&
              forall s :: s in r ==> IsSoloMatch(s, Trim(artist.value))
    ensures artist.Some? && artist.value != "" ==>
              KeywordSelection(songs, artist, limit)
              == TakeLimit(Filter(songs, s => IsSoloMatch(s, Trim(artist.value))), limit)
    ensures artist.None? || artist.value == "" ==>
              KeywordSelection(songs, artist, limit) == TakeLimit(songs, limit)
    ensures limit >= 0 ==> |KeywordSelection(songs, artist, limit)| <= limit
  {
    var kept := if artist.Some? && artist.value != ""
                then Filter(songs, s => IsSoloMatch(s, Trim(artist.value)))
                else songs;
    TakeLimitSpec(kept, limit);
    var r := KeywordSelection(songs, artist, limit);
    assert r == kept[..|r|];
    forall s | s in r ensures s in kept {
      var i :| 0 <= i < |r| && r[i] == s;
      assert kept[i] == s;
    }
  }

}
