/** `extract_coordinates_from_url`, up to the float conversion: the string split that picks
    the latitude and longitude fields out of a map-place URL. */
module Coordinates {
  import opened Wrappers
  import opened SeqFacts

  /** The two-character separator `/@` starts at `k`. */
  predicate MarkerAt(s: string, k: int)
  {
    0 <= k && k + 1 < |s| && s[k] == '/' && s[k + 1] == '@'
  }

  ghost predicate HasMarker(s: string)
  {
    exists k :: MarkerAt(s, k)
  }

  /** Where the text after the last `/@` ending at or before `n` starts (0 if there is none). */
  function SegmentStart(s: string, n: nat): (i: nat)
    requires n <= |s|
    ensures i <= n
    ensures i == 0 || MarkerAt(s, i - 2)
    ensures forall k :: i <= k && k + 1 < n ==> !MarkerAt(s, k)
  {
    if n < 2 then 0 else if MarkerAt(s, n - 2) then n else SegmentStart(s, n - 1)
  }

  /** `url.split('/@')[-1]`: the text after the last `/@`, or the whole URL when it has none
      (occurrences of `/@` cannot overlap, so the last piece starts after the last one). */
  function AfterLastMarker(s: string): (r: string)
    ensures |r| <= |s| && r == s[|s| - |r|..]
    ensures !HasMarker(r)
    ensures |r| == |s| || MarkerAt(s, |s| - |r| - 2)
  {
    var i := SegmentStart(s, |s|);
    var r := s[i..];
    assert forall k :: MarkerAt(r, k) ==> MarkerAt(s, i + k);
    r
  }

  /** `t.split(c)[0]`: the text before the first `c`, or all of `t`. */
  function BeforeFirst(t: string, c: char): (r: string)
    ensures |r| <= |t| && r == t[..|r|]
    ensures c !in r
    ensures |r| < |t| ==> t[|r|] == c
  {
    if t == [] || t[0] == c then [] else [t[0]] + BeforeFirst(t[1..], c)
  }

  /** The place segment: after the last `/@`, up to the next `/`. */
  function PlaceSegment(url: string): string
  {
    BeforeFirst(AfterLastMarker(url), '/')
  }

  /** `seg.split(',')[0]` and `seg.split(',')[1]`; `None` where Python raises `IndexError`
      because the segment has no comma. */
  function CommaFields(seg: string): (r: Option<(string, string)>)
    ensures r.None? <==> ',' !in seg
    ensures r.Some? ==> ',' !in r.value.0 && ',' !in r.value.1
  {
    var lat := BeforeFirst(seg, ',');
    if |lat| == |seg| then
      assert seg == lat;
      None
    else
      Some((lat, BeforeFirst(seg[|lat| + 1..], ',')))
  }

  /** The two fields are the segment's text up to its first comma and from there up to the
      next comma or the segment's end. */
  lemma CommaFieldsSplit(seg: string)
    requires CommaFields(seg).Some?
    ensures var (lat, lon) := CommaFields(seg).value;
            var rest := seg[|lat| + 1 + |lon|..];
            seg == lat + "," + lon + rest && (rest == [] || rest[0] == ',')
  {
    var (lat, lon) := CommaFields(seg).value;
    assert seg[|lat| + 1..][..|lon|] == lon;
    assert seg == lat + "," + lon + seg[|lat| + 1 + |lon|..];
  }

  /** `extract_coordinates_from_url` without the float conversion: the latitude and longitude
      fields of the URL's place segment. */
  function CoordinateFields(url: string): Option<(string, string)>
  {
    CommaFields(PlaceSegment(url))
  }

  /** Text that starts with `x` and continues at a `c` (or ends) splits to `x`. */
  lemma {:induction false} BeforeFirstOf(x: string, c: char, y: string)
    requires c !in x && (y == [] || y[0] == c)
    ensures BeforeFirst(x + y, c) == x
  {
    if x != [] {
      assert (x + y)[1..] == x[1..] + y;
      BeforeFirstOf(x[1..], c, y);
    }
  }

  lemma {:induction false} SegmentStartAt(s: string, m: nat, n: nat)
    requires 2 <= m <= n <= |s| && MarkerAt(s, m - 2)
    requires forall k :: m <= k && k + 1 < n ==> !MarkerAt(s, k)
    ensures SegmentStart(s, n) == m
    decreases n
  {
    if n > m {
      assert !MarkerAt(s, n - 2);
      SegmentStartAt(s, m, n - 1);
    }
  }

  /** Whatever stands before a last `/@` is ignored. */
  lemma AfterLastMarkerOf(pre: string, z: string)
    requires !HasMarker(z)
    ensures AfterLastMarker(pre + "/@" + z) == z
  {
    var s := pre + "/@" + z;
    var m := |pre| + 2;
    forall k | m <= k && k + 1 < |s| ensures !MarkerAt(s, k) {
      assert !MarkerAt(z, k - m);
    }
    SegmentStartAt(s, m, |s|);
    assert s[m..] == z;
  }

  /** The place segment of `... /@body` followed by `/...` is `body`; followed by `,...`
      it is `body` and that tail up to its first `/`. */
  lemma PlaceSegmentOf(pre: string, body: string, tail: string)
    requires '/' !in body && !HasMarker(body + tail)
    requires tail == [] || tail[0] == '/' || tail[0] == ','
    ensures PlaceSegment(pre + "/@" + body + tail)
            == body + (if tail == [] || tail[0] == '/' then [] else BeforeFirst(tail, '/'))
  {
    var z := body + tail;
    assert pre + "/@" + body + tail == pre + "/@" + z;
    AfterLastMarkerOf(pre, z);
    BeforeFirstAcross(body, '/', tail);
    assert tail == [] || tail[0] == '/' ==> BeforeFirst(tail, '/') == [];
  }

  /** Text without `c` is kept whole in front of what the rest splits to. */
  lemma {:induction false} BeforeFirstAcross(x: string, c: char, t: string)
    requires c !in x
    ensures BeforeFirst(x + t, c) == x + BeforeFirst(t, c)
  {
    if x != [] {
      var y := x + t;
      assert y[0] == x[0] != c;
      assert y[1..] == x[1..] + t;
      BeforeFirstAcross(x[1..], c, t);
      calc {
        BeforeFirst(y, c);
        [x[0]] + BeforeFirst(x[1..] + t, c);
        [x[0]] + (x[1..] + BeforeFirst(t, c));
        { assert x == [x[0]] + x[1..]; }
        x + BeforeFirst(t, c);
      }
    } else {
      assert x + t == t;
    }
  }

  /** `lat,lon` followed by nothing or by `,...` splits to those two fields. */
  lemma CommaFieldsOf(lat: string, lon: string, rest: string)
    requires ',' !in lat && ',' !in lon
    requires rest == [] || rest[0] == ','
    ensures CommaFields(lat + "," + lon + rest) == Some((lat, lon))
  {
    var seg := lat + "," + lon + rest;
    assert seg == lat + ("," + lon + rest);
    BeforeFirstOf(lat, ',', "," + lon + rest);
    assert seg[|lat| + 1..] == lon + rest;
    BeforeFirstOf(lon, ',', rest);
  }

  /** Text without `/` in front of text without `/@` has no `/@` either. */
  lemma NoMarkerAcross(body: string, tail: string)
    requires '/' !in body && !HasMarker(tail)
    ensures !HasMarker(body + tail)
  {
    var z := body + tail;
    forall k ensures !MarkerAt(z, k) {
      if 0 <= k < |body| {
        assert z[k] == body[k];
      } else if |body| <= k {
        assert MarkerAt(z, k) ==> MarkerAt(tail, k - |body|);
      }
    }
  }

  /** A map-place URL `... /@lat,lon` followed by `/...`, `,...` or nothing yields exactly
      its embedded latitude and longitude fields. */
  lemma PlaceUrlFields(pre: string, lat: string, lon: string, tail: string)
    requires ',' !in lat && '/' !in lat && ',' !in lon && '/' !in lon
    requires tail == [] || tail[0] == '/' || tail[0] == ','
    requires !HasMarker(tail)
    ensures CoordinateFields(pre + "/@" + lat + "," + lon + tail) == Some((lat, lon))
  {
    var body := lat + "," + lon;
    assert '/' !in body;
    NoMarkerAcross(body, tail);
    PlaceSegmentOf(pre, body, tail);
    var rest := if tail == [] || tail[0] == '/' then [] else BeforeFirst(tail, '/');
    CommaFieldsOf(lat, lon, rest);
    var url := pre + "/@" + lat + "," + lon + tail;
    Regroup(pre + "/@", lat, ",", lon);
    assert PlaceSegment(url) == body + rest;
    assert CoordinateFields(url) == CommaFields(body + rest);
  }

  /** A URL without `/@` is not rejected: its text before the first `/` is split instead,
      so a bare `12.5,3.25` yields two fields. */
  lemma NoMarkerStillSplits(lat: string, lon: string)
    requires ',' !in lat && '/' !in lat && ',' !in lon && '/' !in lon
    ensures CoordinateFields(lat + "," + lon) == Some((lat, lon))
  {
    var s := lat + "," + lon;
    assert '/' !in s;
    NoMarkerAcross(s, []);
    assert s + [] == s;
    assert SegmentStart(s, |s|) == 0;
    assert AfterLastMarker(s) == s;
    BeforeFirstOf(s, '/', []);
    CommaFieldsOf(lat, lon, []);
  }
}
