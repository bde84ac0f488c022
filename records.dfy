/** The scraped rows: `Business` and `BusinessList`, shared by both entry points. */
module Records {
  import opened Wrappers

  /** One business; `None` is a field never assigned, as the dataclass default `None`.
      Latitude and longitude hold the text the coordinates were read from. */
  datatype Business = Business(
    name: Option<string>,
    address: Option<string>,
    website: Option<string>,
    phoneNumber: Option<string>,
    email: Option<string>,
    latitude: Option<string>,
    longitude: Option<string>)

  /** `Business()`: every field unset. */
  const NoBusiness := Business(None, None, None, None, None, None, None)

  /** `BusinessList`: the rows collected for one search, appended to in place. */
  class BusinessList {
    var records: seq<Business>

    constructor()
      ensures records == []
    {
      records := [];
    }

    /** `business_list.business_list.append(business)`. */
    method Append(b: Business)
      modifies this
      ensures records == old(records) + [b]
    {
      records := records + [b];
    }
  }

  /** Python's `s[:total]`: the first `total` elements, or all but the last `-total` when
      `total` is negative. */
  function Slice<T>(s: seq<T>, total: int): (r: seq<T>)
    ensures |r| <= |s| && r == s[..|r|]
    ensures total >= 0 ==> |r| == (if total < |s| then total else |s|)
    ensures total < 0 ==> |r| == (if |s| + total > 0 then |s| + total else 0)
  {
    if total >= 0 then (if total < |s| then s[..total] else s)
    else if |s| + total > 0 then s[..|s| + total]
    else []
  }

  /** At most `total` listings are kept, and none when `total` is zero or negative enough. */
  lemma SliceAtMostTotal<T>(s: seq<T>, total: int)
    ensures |Slice(s, total)| <= |s|
    ensures total >= 0 ==> |Slice(s, total)| <= total
    ensures total == 0 || total <= -|s| ==> Slice(s, total) == []
  {
  }
}
