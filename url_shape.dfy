/** `is_valid_url` and the caller's rule that gives a scheme-less website an `https://` prefix. */
module UrlShape {
  import opened Text

  /** `[a-zA-Z0-9-]`: the characters of the host label in the URL pattern. */
  predicate IsLabelChar(c: char)
  {
    IsAsciiLetter(c) || IsDigit(c) || c == '-'
  }

  /** The alternatives of the optional group `(http://www.|https://www.|http://|https://)?`;
      the empty string stands for the group being skipped. */
  const SchemePrefixes: seq<string> := ["http://www.", "https://www.", "http://", "https://", ""]

  /** From `k`, a label `s[k..m]`, a `.` at `m` and two letters: `[a-zA-Z0-9-]+\.[a-zA-Z]{2,}`
      with its letters cut to the two that must be there (the pattern has no end anchor). */
  predicate HostAt(s: string, k: int, m: int)
  {
    0 <= k < m && m + 2 < |s|
    && (forall x :: k <= x < m ==> IsLabelChar(s[x]))
    && s[m] == '.' && IsAsciiLetter(s[m + 1]) && IsAsciiLetter(s[m + 2])
  }

  ghost predicate HostFrom(s: string, k: int)
  {
    exists m :: HostAt(s, k, m)
  }

  /** `re.match(url_pattern, url) is not None`: some alternative of the prefix group (or none)
      is followed by a host of the required shape. */
  ghost predicate MatchesUrlPattern(url: string)
  {
    exists p :: p in SchemePrefixes && StartsWith(url, p) && HostFrom(url, |p|)
  }

  /** End of the run of label characters starting at `k`. */
  function LabelEnd(s: string, k: nat): (e: nat)
    requires k <= |s|
    ensures k <= e <= |s|
    ensures forall x :: k <= x < e ==> IsLabelChar(s[x])
    ensures e < |s| ==> !IsLabelChar(s[e])
    decreases |s| - k
  {
    if k < |s| && IsLabelChar(s[k]) then LabelEnd(s, k + 1) else k
  }

  /** A run of label characters from `k` to a non-label character at `m` (or the end) is
      the run `LabelEnd` finds. */
  lemma {:induction false} LabelEndAt(s: string, k: nat, m: nat)
    requires k <= m <= |s|
    requires forall x :: k <= x < m ==> IsLabelChar(s[x])
    requires m < |s| ==> !IsLabelChar(s[m])
    ensures LabelEnd(s, k) == m
    decreases m - k
  {
    if k < m {
      LabelEndAt(s, k + 1, m);
    }
  }

  /** Whether a host of the required shape starts at `k`: the label run ends at a `.` that
      two letters follow. */
  function HostStartsAt(s: string, k: nat): bool
    requires k <= |s|
  {
    var m := LabelEnd(s, k);
    k < m && m + 2 < |s| && s[m] == '.' && IsAsciiLetter(s[m + 1]) && IsAsciiLetter(s[m + 2])
  }

  /** A label cannot contain `.`, so checking the dot at the end of the label run decides
      whether any host starts at `k`. */
  lemma HostStartsAtCorrect(s: string, k: nat)
    requires k <= |s|
    ensures HostStartsAt(s, k) <==> HostFrom(s, k)
  {
    var m := LabelEnd(s, k);
    assert forall m' :: HostAt(s, k, m') ==> m' == m;
    assert HostStartsAt(s, k) ==> HostAt(s, k, m);
  }

  /** The alternatives `prefixes` tried in order, each followed by a host. */
  function MatchesFrom(url: string, prefixes: seq<string>): bool
  {
    if prefixes == [] then false
    else (StartsWith(url, prefixes[0]) && HostStartsAt(url, |prefixes[0]|)) || MatchesFrom(url, prefixes[1..])
  }

  /** `is_valid_url(url)`: `re.match` backtracks through the alternatives of the prefix group,
      the skipped group last. */
  function IsValidUrl(url: string): bool
  {
    MatchesFrom(url, SchemePrefixes)
  }

  lemma {:induction false} MatchesFromCorrect(url: string, prefixes: seq<string>)
    ensures MatchesFrom(url, prefixes) <==>
              exists p :: p in prefixes && StartsWith(url, p) && HostFrom(url, |p|)
  {
    if prefixes != [] {
      MatchesFromCorrect(url, prefixes[1..]);
      if StartsWith(url, prefixes[0]) {
        HostStartsAtCorrect(url, |prefixes[0]|);
      }
      forall p | p in prefixes ensures p == prefixes[0] || p in prefixes[1..] {
      }
      assert prefixes[0] in prefixes;
    }
  }

  /** `is_valid_url(url)` is true exactly when the URL pattern matches at the start of `url`. */
  lemma IsValidUrlCorrect(url: string)
    ensures IsValidUrl(url) <==> MatchesUrlPattern(url)
  {
    MatchesFromCorrect(url, SchemePrefixes);
  }

  /** A host found at `k` is still found once more text follows. */
  lemma HostStartsAtExtends(url: string, tail: string, k: nat)
    requires k <= |url| && HostStartsAt(url, k)
    ensures HostStartsAt(url + tail, k)
  {
    var m := LabelEnd(url, k);
    var s := url + tail;
    assert forall x :: 0 <= x < |url| ==> s[x] == url[x];
    LabelEndAt(s, k, m);
  }

  lemma {:induction false} MatchesFromExtends(url: string, tail: string, prefixes: seq<string>)
    requires MatchesFrom(url, prefixes)
    ensures MatchesFrom(url + tail, prefixes)
  {
    var p := prefixes[0];
    if StartsWith(url, p) && HostStartsAt(url, |p|) {
      assert (url + tail)[..|p|] == url[..|p|];
      HostStartsAtExtends(url, tail, |p|);
    } else {
      MatchesFromExtends(url, tail, prefixes[1..]);
    }
  }

  /** The pattern is anchored only at the start: whatever follows a valid URL keeps it valid. */
  lemma ValidUrlHasNoEndAnchor(url: string, tail: string)
    requires IsValidUrl(url)
    ensures IsValidUrl(url + tail)
  {
    MatchesFromExtends(url, tail, SchemePrefixes);
  }

  /** The caller's rule: a website without `http://` or `https://` gets `https://` in front. */
  function NormalizeWebsite(website: string): (r: string)
    ensures HasScheme(r)
    ensures HasScheme(website) ==> r == website
    ensures !HasScheme(website) ==> r == "https://" + website
  {
    if HasScheme(website) then website else "https://" + website
  }

  /** Normalizing twice changes nothing more. */
  lemma NormalizeIdempotent(website: string)
    ensures NormalizeWebsite(NormalizeWebsite(website)) == NormalizeWebsite(website)
  {
  }

  /** A bare host such as `example.com` is valid once the scheme has been prepended. */
  lemma {:induction false} NormalizedBareHostIsValid(website: string)
    requires HostFrom(website, 0)
    ensures IsValidUrl(NormalizeWebsite(website))
  {
    var m :| HostAt(website, 0, m);
    var r := NormalizeWebsite(website);
    IsValidUrlCorrect(r);
    if HasScheme(website) {
      assert StartsWith(r, "") && HostFrom(r, 0);
      assert "" in SchemePrefixes;
    } else {
      assert forall x :: 0 <= x < |website| ==> r[8 + x] == website[x];
      assert HostAt(r, 8, 8 + m);
      assert StartsWith(r, "https://");
      assert "https://" in SchemePrefixes;
    }
  }

  /** Strings with a host shape, which pass. */
  lemma BareHostPasses()
    ensures IsValidUrl("example.com")
  {
    var s := "example.com";
    assert LabelEnd(s, 0) == 7;
    assert HostStartsAt(s, 0);
  }

  lemma HttpHostPasses()
    ensures IsValidUrl("http://example.com")
  {
    var s := "http://example.com";
    assert s[7..14] == "example" && s[14] == '.';
    LabelEndAt(s, 7, 14);
    assert HostStartsAt(s, 7);
    assert SchemePrefixes[2..][0] == "http://";
    assert MatchesFrom(s, SchemePrefixes[2..]);
  }

  lemma HttpsWwwHostPasses()
    ensures IsValidUrl("https://www.example.co.uk")
  {
    var s := "https://www.example.co.uk";
    assert s[12..19] == "example" && s[19] == '.';
    LabelEndAt(s, 12, 19);
    assert HostStartsAt(s, 12);
    assert SchemePrefixes[1..][0] == "https://www.";
    assert MatchesFrom(s, SchemePrefixes[1..]);
  }

  /** Strings without a host shape, which fail; `N/A` fails
      also after the caller has prefixed it with `https://`. */
  lemma NotApplicableFails()
    ensures !IsValidUrl("N/A")
  {
    var s := "N/A";
    assert !IsLabelChar(s[1]);
    assert !HostStartsAt(s, 0);
    assert !StartsWith(s, "http://") && !StartsWith(s, "https://");
  }

  lemma EmptyFails()
    ensures !IsValidUrl("")
  {
  }

  lemma WordsFail()
    ensures !IsValidUrl("not a url")
  {
    var s := "not a url";
    assert !IsLabelChar(s[3]);
    assert !HostStartsAt(s, 0);
    assert !StartsWith(s, "http://") && !StartsWith(s, "https://");
  }

  lemma NormalizedNotApplicableFails()
    ensures !IsValidUrl(NormalizeWebsite("N/A"))
  {
    var n := NormalizeWebsite("N/A");
    assert n == "https://N/A";
    assert n[4] == 's' && !IsLabelChar(n[5]) && !IsLabelChar(n[9]);
    assert !HostStartsAt(n, 0) && !HostStartsAt(n, 8);
    assert !StartsWith(n, "http://") && !StartsWith(n, "https://www.");
  }
}
