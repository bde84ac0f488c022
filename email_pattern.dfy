/** The email pattern `[a-zA-Z0-9._%+-]+@[a-zA-Z0-9.-]+\.[a-zA-Z]{2,}` as a hand-written matcher,
    and `extract_email_from_rendered_text`, which returns the first element of `re.findall`.

    For this pattern the match Python's backtracking engine reports is the longest one at the
    leftmost position where any match starts: the local part cannot contain `@`, so it ends at
    the first `@`; the domain part is tried longest first, so the last usable `.` wins, and the
    letters after it are taken greedily. The specification below is therefore
    "leftmost start, longest at that start". */
module EmailPattern {
  import opened Wrappers
  import opened Text

  /** `[a-zA-Z0-9._%+-]` */
  predicate IsLocalChar(c: char)
  {
    IsAsciiLetter(c) || IsDigit(c) || c == '.' || c == '_' || c == '%' || c == '+' || c == '-'
  }

  /** `[a-zA-Z0-9.-]` */
  predicate IsDomainChar(c: char)
  {
    IsAsciiLetter(c) || IsDigit(c) || c == '.' || c == '-'
  }

  predicate LocalRun(s: string, lo: int, hi: int)
  {
    0 <= lo <= hi <= |s| && forall k :: lo <= k < hi ==> IsLocalChar(s[k])
  }

  predicate DomainRun(s: string, lo: int, hi: int)
  {
    0 <= lo <= hi <= |s| && forall k :: lo <= k < hi ==> IsDomainChar(s[k])
  }

  predicate LetterRun(s: string, lo: int, hi: int)
  {
    0 <= lo <= hi <= |s| && forall k :: lo <= k < hi ==> IsAsciiLetter(s[k])
  }

  /** `s[i..j]` is an occurrence of the pattern whose `@` is at `a` and whose last `.` is at `d`. */
  predicate MatchAt(s: string, i: int, a: int, d: int, j: int)
  {
    && LocalRun(s, i, a) && i < a && a < |s| && s[a] == '@'
    && DomainRun(s, a + 1, d) && a + 1 < d && d < |s| && s[d] == '.'
    && LetterRun(s, d + 1, j) && d + 3 <= j
  }

  /** `s[i..j]` matches the pattern. */
  ghost predicate IsMatch(s: string, i: int, j: int)
  {
    exists a, d :: MatchAt(s, i, a, d, j)
  }

  /** `s[i..j]` is the match `re.findall` reports first: no match starts before `i`, and none
      starting at `i` is longer. */
  ghost predicate IsFirstMatch(s: string, i: int, j: int)
  {
    && IsMatch(s, i, j)
    && (forall p, q :: IsMatch(s, p, q) ==> i <= p)
    && (forall q :: IsMatch(s, i, q) ==> q <= j)
  }

  /** A whole string that is one email address of the pattern's shape. */
  ghost predicate IsEmailAddress(w: string)
  {
    IsMatch(w, 0, |w|)
  }

  /** End of the run of local-part characters starting at `k`. */
  function LocalEnd(s: string, k: nat): (e: nat)
    requires k <= |s|
    ensures LocalRun(s, k, e)
    ensures e < |s| ==> !IsLocalChar(s[e])
    decreases |s| - k
  {
    if k < |s| && IsLocalChar(s[k]) then LocalEnd(s, k + 1) else k
  }

  /** End of the run of domain characters starting at `k`. */
  function DomainEnd(s: string, k: nat): (e: nat)
    requires k <= |s|
    ensures DomainRun(s, k, e)
    ensures e < |s| ==> !IsDomainChar(s[e])
    decreases |s| - k
  {
    if k < |s| && IsDomainChar(s[k]) then DomainEnd(s, k + 1) else k
  }

  /** End of the run of letters starting at `k`. */
  function LetterEnd(s: string, k: nat): (e: nat)
    requires k <= |s|
    ensures LetterRun(s, k, e)
    ensures e < |s| ==> !IsAsciiLetter(s[e])
    decreases |s| - k
  {
    if k < |s| && IsAsciiLetter(s[k]) then LetterEnd(s, k + 1) else k
  }

  /** A `.` at `d` followed by at least two letters: where `\.[a-zA-Z]{2,}` can start. */
  predicate TldDot(s: string, d: nat)
  {
    d + 2 < |s| && s[d] == '.' && IsAsciiLetter(s[d + 1]) && IsAsciiLetter(s[d + 2])
  }

  /** The last position `d` with `lo <= d < k` where a top-level domain can start. */
  function LastTldDot(s: string, lo: nat, k: nat): (r: Option<nat>)
    ensures r.Some? ==> lo <= r.value < k && TldDot(s, r.value)
    ensures r.Some? ==> forall d :: r.value < d < k ==> !TldDot(s, d)
    ensures r.None? ==> forall d :: lo <= d < k ==> !TldDot(s, d)
    decreases k
  {
    if k <= lo then None
    else if TldDot(s, k - 1) then Some(k - 1)
    else LastTldDot(s, lo, k - 1)
  }

  /** The end of the longest match starting at `i`, if any match starts there. */
  function MatchEnd(s: string, i: nat): Option<nat>
    requires i <= |s|
  {
    var a := LocalEnd(s, i);
    if a == i || a == |s| || s[a] != '@' then None
    else
      var e := DomainEnd(s, a + 1);
      match LastTldDot(s, a + 2, e)
      case None => None
      case Some(d) => Some(LetterEnd(s, d + 1))
  }

  /** Every match starting at `i` puts its `@` at the end of the local run from `i`. */
  lemma AtIsLocalEnd(s: string, i: nat, a: int, d: int, j: int)
    requires i <= |s| && MatchAt(s, i, a, d, j)
    ensures a == LocalEnd(s, i)
  {
    var e := LocalEnd(s, i);
  }

  /** A match's domain and top-level domain lie inside the domain run after its `@`. */
  lemma TldDotInsideDomain(s: string, a: nat, d: int, j: int)
    requires a + 1 <= |s| && DomainRun(s, a + 1, d) && a + 1 < d && d < |s| && s[d] == '.'
    requires LetterRun(s, d + 1, j) && d + 3 <= j
    ensures TldDot(s, d) && d + 2 < DomainEnd(s, a + 1)
  {
    var e := DomainEnd(s, a + 1);
    if e <= d + 2 {
      assert a + 1 <= e;
      assert IsDomainChar(s[e]);
    }
  }

  lemma {:induction false} MatchEndCorrect(s: string, i: nat)
    requires i <= |s|
    ensures MatchEnd(s, i).Some? ==>
              IsMatch(s, i, MatchEnd(s, i).value)
              && forall j :: IsMatch(s, i, j) ==> j <= MatchEnd(s, i).value
    ensures MatchEnd(s, i).None? ==> forall j :: !IsMatch(s, i, j)
  {
    var a := LocalEnd(s, i);
    forall j, a', d' | MatchAt(s, i, a', d', j)
      ensures MatchEnd(s, i).Some? && j <= MatchEnd(s, i).value
    {
      AtIsLocalEnd(s, i, a', d', j);
      TldDotInsideDomain(s, a, d', j);
      var e := DomainEnd(s, a + 1);
      var found := LastTldDot(s, a + 2, e);
      assert found.Some?;
      var d := found.value;
      var end := LetterEnd(s, d + 1);
      if d != d' {
        assert d' < d;
      }
    }
    if MatchEnd(s, i).Some? {
      var e := DomainEnd(s, a + 1);
      var d := LastTldDot(s, a + 2, e).value;
      var end := LetterEnd(s, d + 1);
      assert MatchAt(s, i, a, d, end);
    }
  }

  /** Tries the start positions `i, i+1, ...` in order, as the regex engine does. */
  function ScanFrom(s: string, i: nat): Option<(nat, nat)>
    requires i <= |s|
    decreases |s| - i
  {
    if i == |s| then None
    else match MatchEnd(s, i)
      case Some(j) => Some((i, j))
      case None => ScanFrom(s, i + 1)
  }

  lemma MatchStartsInside(s: string, p: int, q: int)
    requires IsMatch(s, p, q)
    ensures 0 <= p < q <= |s|
  {
  }

  lemma {:induction false} ScanFromCorrect(s: string, i: nat)
    requires i <= |s|
    ensures ScanFrom(s, i).Some? ==>
              var (p, q) := ScanFrom(s, i).value;
              i <= p && IsMatch(s, p, q)
              && (forall p', q' :: i <= p' && IsMatch(s, p', q') ==> p <= p')
              && (forall q' :: IsMatch(s, p, q') ==> q' <= q)
    ensures ScanFrom(s, i).None? ==> forall p, q :: i <= p ==> !IsMatch(s, p, q)
    decreases |s| - i
  {
    if i == |s| {
      forall p, q | i <= p && IsMatch(s, p, q) ensures false {
        MatchStartsInside(s, p, q);
      }
    } else {
      MatchEndCorrect(s, i);
      ScanFromCorrect(s, i + 1);
    }
  }

  ghost predicate HasMatch(text: string)
  {
    exists i, j :: IsMatch(text, i, j)
  }

  ghost predicate IsFirstMatchOf(text: string, w: string)
  {
    exists i, j :: 0 <= i <= j <= |text| && IsFirstMatch(text, i, j) && w == text[i..j]
  }

  /** `extract_email_from_rendered_text` on the page's visible text: `findall`'s first match
      is the match that starts leftmost, taken as long as the pattern allows there. */
  function ExtractEmail(text: string): Option<string>
  {
    match ScanFrom(text, 0)
    case None => None
    case Some((i, j)) => if i <= j <= |text| then Some(text[i..j]) else None
  }

  /** The result is `None` exactly when the text holds no match of the pattern, and otherwise
      the first match. */
  lemma ExtractEmailCorrect(text: string)
    ensures ExtractEmail(text).None? <==> !HasMatch(text)
    ensures ExtractEmail(text).Some? ==> IsFirstMatchOf(text, ExtractEmail(text).value)
  {
    ScanFromCorrect(text, 0);
    if ScanFrom(text, 0).Some? {
      var (i, j) := ScanFrom(text, 0).value;
      MatchStartsInside(text, i, j);
    }
  }

  /** The first match is unique, so `ExtractEmail` is determined by the specification alone. */
  lemma FirstMatchDeterminesResult(text: string, i: int, j: int)
    requires IsFirstMatch(text, i, j)
    ensures 0 <= i <= j <= |text| && ExtractEmail(text) == Some(text[i..j])
  {
    MatchStartsInside(text, i, j);
    ExtractEmailCorrect(text);
    var r := ExtractEmail(text);
    assert r.Some?;
    var i', j' :| 0 <= i' <= j' <= |text| && IsFirstMatch(text, i', j') && r.value == text[i'..j'];
    assert i <= i' && i' <= i;
    assert j == j';
  }

  /** A match, cut out of its text, is an email address on its own. */
  lemma {:induction false} MatchIsEmailAddress(s: string, i: int, j: int)
    requires IsMatch(s, i, j)
    ensures 0 <= i <= j <= |s| && IsEmailAddress(s[i..j])
  {
    var a, d :| MatchAt(s, i, a, d, j);
    var w := s[i..j];
    forall k | 0 <= k < |w| ensures w[k] == s[i + k] { }
    assert MatchAt(w, 0, a - i, d - i, j - i);
  }

  /** Whatever `ExtractEmail` returns is an email address of the pattern's shape. */
  lemma ExtractedIsEmailAddress(text: string)
    requires ExtractEmail(text).Some?
    ensures IsEmailAddress(ExtractEmail(text).value)
  {
    ExtractEmailCorrect(text);
    var i, j :| 0 <= i <= j <= |text| && IsFirstMatch(text, i, j)
                && ExtractEmail(text).value == text[i..j];
    MatchIsEmailAddress(text, i, j);
  }

  /** Text without an `@` holds no email. */
  lemma NoAtNoEmail(text: string)
    requires forall k :: 0 <= k < |text| ==> text[k] != '@'
    ensures ExtractEmail(text) == None
  {
    ExtractEmailCorrect(text);
  }

  /** A text that is one address yields the whole of it. */
  lemma WholeAddressFound(w: string)
    requires IsEmailAddress(w)
    ensures ExtractEmail(w) == Some(w)
  {
    forall p, q | IsMatch(w, p, q)
      ensures 0 <= p && q <= |w|
    {
      MatchStartsInside(w, p, q);
    }
    assert IsFirstMatch(w, 0, |w|);
    FirstMatchDeterminesResult(w, 0, |w|);
    assert w[0..|w|] == w;
  }
}
