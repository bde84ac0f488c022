/** The output file stems: `sanitize_filename` and the stem of each entry point. */
module Filenames {
  import opened Text

  /** `c.isalnum() or c in (' ', '_', '-')`, with `isalnum` restricted to ASCII. */
  predicate IsFilenameChar(c: char)
  {
    IsAsciiLetter(c) || IsDigit(c) || c == ' ' || c == '_' || c == '-'
  }

  predicate AllFilenameChars(s: string)
  {
    forall k :: 0 <= k < |s| ==> IsFilenameChar(s[k])
  }

  /** The generator `c for c in filename if ...`: the kept characters, in order; each kept
      character occurs as often as in the input and every other character is gone. */
  function KeepFilenameChars(s: string): (r: string)
    ensures AllFilenameChars(r)
    ensures forall c :: multiset(r)[c] == (if IsFilenameChar(c) then multiset(s)[c] else 0)
  {
    if s == [] then []
    else
      var rest := KeepFilenameChars(s[1..]);
      assert s == [s[0]] + s[1..];
      if IsFilenameChar(s[0]) then [s[0]] + rest else rest
  }

  /** The filter keeps a character exactly when it is a filename character. */
  lemma KeepOneChar(c: char)
    ensures KeepFilenameChars([c]) == (if IsFilenameChar(c) then [c] else [])
  {
    assert [c][1..] == [];
  }

  /** The filter works character by character, in order: filtering a concatenation is
      concatenating the filtered parts. */
  lemma {:induction false} KeepFilenameCharsAppend(a: string, b: string)
    ensures KeepFilenameChars(a + b) == KeepFilenameChars(a) + KeepFilenameChars(b)
  {
    if a == [] {
      assert a + b == b;
    } else {
      assert (a + b)[0] == a[0];
      assert (a + b)[1..] == a[1..] + b;
      KeepFilenameCharsAppend(a[1..], b);
    }
  }

  /** `sanitize_filename(filename)`: the kept characters with the spaces at either end cut off. */
  function SanitizeFilename(filename: string): (r: string)
    ensures AllFilenameChars(r)
    ensures r == [] || (r[0] != ' ' && r[|r| - 1] != ' ')
    ensures IsTrimmedFrom(KeepFilenameChars(filename), r)
  {
    var kept := KeepFilenameChars(filename);
    var r := Strip(kept);
    KeptCharsSurviveStrip(kept, r);
    r
  }

  lemma KeptCharsSurviveStrip(kept: string, r: string)
    requires AllFilenameChars(kept) && IsTrimmedFrom(kept, r)
    ensures AllFilenameChars(r)
  {
    var i :| 0 <= i <= |kept| - |r| && kept[i..i + |r|] == r
             && AllWhitespace(kept[..i]) && AllWhitespace(kept[i + |r|..]);
    forall k | 0 <= k < |r|
      ensures IsFilenameChar(r[k])
    {
      assert r[k] == kept[i + k];
    }
  }

  /** A string of kept characters passes the filter unchanged. */
  lemma {:induction false} KeepAllKept(s: string)
    requires AllFilenameChars(s)
    ensures KeepFilenameChars(s) == s
  {
    if s != [] {
      KeepAllKept(s[1..]);
    }
  }

  /** Stripping a string that starts and ends with non-whitespace changes nothing. */
  lemma StripUntrimmed(s: string)
    requires s == [] || (!IsWhitespace(s[0]) && !IsWhitespace(s[|s| - 1]))
    ensures Strip(s) == s
  {
  }

  /** Sanitizing twice is sanitizing once. */
  lemma SanitizeIdempotent(filename: string)
    ensures SanitizeFilename(SanitizeFilename(filename)) == SanitizeFilename(filename)
  {
    var r := SanitizeFilename(filename);
    KeepAllKept(r);
    StripUntrimmed(r);
  }

  /** The stem `main33_efnt4.py` writes to: `google_maps_data_` and the stripped search term
      with its spaces turned into underscores, with no other sanitising. */
  function SearchTermStem(term: string): string
  {
    "google_maps_data_" + SpacesToUnderscores(Strip(term))
  }

  /** The search-term stem has the fixed prefix, no space, and every other character of the
      stripped term. */
  lemma SearchTermStemShape(term: string)
    ensures StartsWith(SearchTermStem(term), "google_maps_data_")
    ensures ' ' !in SearchTermStem(term)
    ensures forall c :: c != ' ' && c != '_' && c in Strip(term) ==> c in SearchTermStem(term)
  {
    var body := SpacesToUnderscores(Strip(term));
    var r := SearchTermStem(term);
    assert r[..17] == "google_maps_data_";
    assert forall k :: 0 <= k < |body| ==> r[17 + k] == body[k];
  }

  /** The stem `escrape.py` writes to: `{suburb}_{state}` with spaces turned into
      underscores, then sanitized; it holds only letters, digits, `_` and `-`. */
  function SuburbStem(suburb: string, state: string): (r: string)
    ensures AllFilenameChars(r) && ' ' !in r
  {
    var joined := SpacesToUnderscores(suburb + "_" + state);
    var kept := KeepFilenameChars(joined);
    var r := SanitizeFilename(joined);
    assert ' ' !in joined;
    assert multiset(kept)[' '] == 0;
    TrimmedChars(kept, r);
    r
  }

  /** The search-term stem keeps a path separator typed in the term. */
  lemma SearchTermStemKeepsSlash(term: string)
    requires '/' in Strip(term)
    ensures '/' in SearchTermStem(term)
  {
    SearchTermStemShape(term);
  }
}
