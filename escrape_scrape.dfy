/** `scrape_google_maps` of `escrape.py`: input validation, truncation to `total`, and the
    per-listing loop whose `finally` appends whatever `business` is bound to. */
module EscrapeScrape {
  import opened Wrappers
  import opened Text
  import opened EmailPattern
  import opened UrlShape
  import opened Filenames
  import opened Browser
  import opened ContactSweep
  import opened Discovery
  import opened Records
  import opened Listings

  /** One listing's record, and whether its `try` block raised. */
  datatype Attempt = Attempt(record: Business, raised: bool)

  /** The email search the loop calls, `search_email_on_website` on a website. */
  function EmailSearch(web: string -> Load): string -> Outcome
  {
    site => Discover(web, site, ContactPaths).outcome
  }

  /** The record one listing's `try` leaves in a fresh `Business`: after a successful click,
      the field reads, then the website step. For a failed click this is the empty record the
      corrected loop appends. */
  function ExtractListing(l: Listing, search: string -> Outcome): Attempt
  {
    if !l.clicks then Attempt(NoBusiness, true)
    else
      var d := ReadDetails(l);
      if !d.complete then Attempt(d.record, true)
      else WebsiteStep(d.record, l.probeOk, search)
  }

  /** After complete reads, for a non-empty website: the `https://` rule, the URL check, the
      IP probe on the local browser and the email search `search`. */
  function WebsiteStep(rec: Business, probeOk: bool, search: string -> Outcome): Attempt
    requires rec.website.Some?
  {
    if rec.website.value == "" then Attempt(rec, false)
    else
      var site := NormalizeWebsite(rec.website.value);
      var withSite := rec.(website := Some(site));
      if !IsValidUrl(site) then Attempt(withSite, false)
      else if !probeOk then Attempt(withSite, true)
      else match search(site)
        case Found(e) => Attempt(withSite.(email := Some(e)), false)
        case NotFound => Attempt(withSite, false)
        case Raised => Attempt(withSite, true)
  }

  /** The website step sets an email only when the website, given its scheme, passed the URL
      check and the search returned that address; everything else it leaves as read. */
  lemma WebsiteStepFacts(rec: Business, probeOk: bool, search: string -> Outcome)
    requires rec.website.Some?
    ensures var a := WebsiteStep(rec, probeOk, search);
            && a.record.(website := rec.website, email := rec.email) == rec
            && a.record.website.Some?
            && (rec.website.value != "" ==> a.record.website == Some(NormalizeWebsite(rec.website.value)))
            && (a.record.email != rec.email ==>
                  && !a.raised && HasScheme(a.record.website.value) && IsValidUrl(a.record.website.value)
                  && search(a.record.website.value) == Found(a.record.email.value))
  {
  }

  /** A record carries an email only when its listing's website, once given a scheme, passed
      the URL check and the email search returned that address. */
  lemma {:induction false} EmailOnlyFromValidSite(l: Listing, search: string -> Outcome)
    ensures var a := ExtractListing(l, search);
            a.record.email.Some? ==>
              && !a.raised && a.record.website.Some?
              && HasScheme(a.record.website.value) && IsValidUrl(a.record.website.value)
              && search(a.record.website.value) == Found(a.record.email.value)
  {
    if l.clicks {
      var d := ReadDetails(l);
      ReadDetailsFacts(l);
      if d.complete {
        WebsiteStepFacts(d.record, l.probeOk, search);
      }
    }
  }

  /** With the scraper's email search, a recorded email has the shape of the email pattern. */
  lemma {:induction false} RecordedEmailIsAddress(l: Listing, web: string -> Load)
    requires ExtractListing(l, EmailSearch(web)).record.email.Some?
    ensures IsEmailAddress(ExtractListing(l, EmailSearch(web)).record.email.value)
  {
    var a := ExtractListing(l, EmailSearch(web));
    EmailOnlyFromValidSite(l, EmailSearch(web));
    FoundIsEmailAddress(web, a.record.website.value, ContactPaths);
  }

  /** A listing that raised after its reads keeps them: the record holds the name, address,
      phone and coordinates read, and a website given its scheme. */
  lemma {:induction false} RaisedSearchKeepsDetails(l: Listing, search: string -> Outcome)
    requires l.clicks && ReadDetails(l).complete
    ensures var a := ExtractListing(l, search);
            var d := ReadDetails(l);
            && a.record.(website := d.record.website, email := None) == d.record
            && (d.record.website.value != "" ==>
                  a.record.website == Some(NormalizeWebsite(d.record.website.value)))
  {
    ReadDetailsFacts(l);
    WebsiteStepFacts(ReadDetails(l).record, l.probeOk, search);
  }

  /** The corrected loop: a fresh `Business` for every listing, so each listing has its own
      record, in order. */
  function Collected(listings: seq<Listing>, search: string -> Outcome): seq<Business>
  {
    if listings == [] then []
    else [ExtractListing(listings[0], search).record] + Collected(listings[1..], search)
  }

  /** With the corrected loop, one record per listing: the k-th record is the k-th listing's. */
  lemma {:induction false} CollectedOnePerListing(listings: seq<Listing>, search: string -> Outcome)
    ensures |Collected(listings, search)| == |listings|
    ensures forall k :: 0 <= k < |listings| ==>
              Collected(listings, search)[k] == ExtractListing(listings[k], search).record
  {
    if listings != [] {
      CollectedOnePerListing(listings[1..], search);
    }
  }

  /** Records appended in front of the rest of a loop that may raise. */
  function Prepend(done: seq<Business>, rest: Result<seq<Business>, string>): Result<seq<Business>, string>
  {
    match rest
    case Success(rs) => Success(done + rs)
    case Failure(e) => Failure(e)
  }

  /** Appending in two steps is appending the two parts at once. */
  lemma PrependTwice(a: seq<Business>, b: seq<Business>, rest: Result<seq<Business>, string>)
    ensures Prepend(a, Prepend(b, rest)) == Prepend(a + b, rest)
    ensures Prepend([], rest) == rest
  {
    if rest.Success? {
      assert a + (b + rest.value) == (a + b) + rest.value;
      assert [] + rest.value == rest.value;
    }
  }

  /** What `business` is bound to after a listing's `try`: the record read, once its click
      succeeded; the earlier binding, when the click raised. */
  function Rebound(l: Listing, search: string -> Outcome, last: Option<Business>): Option<Business>
  {
    if l.clicks then Some(ExtractListing(l, search).record) else last
  }

  /** The loop as written: `business` is only bound once a click succeeds, and `finally`
      appends whatever it is bound to; `last` is that binding, and `Failure` is the
      `UnboundLocalError` raised when it is still unbound. */
  function CollectedAsWritten(listings: seq<Listing>, search: string -> Outcome, last: Option<Business>)
    : Result<seq<Business>, string>
  {
    if listings == [] then Success([])
    else
      var bound := Rebound(listings[0], search, last);
      if bound.None? then Failure("UnboundLocalError")
      else Prepend([bound.value], CollectedAsWritten(listings[1..], search, bound))
  }

  /** The loop as written from listing `i` on is listing `i`'s step followed by the rest. */
  lemma AsWrittenStep(listings: seq<Listing>, i: nat, search: string -> Outcome, last: Option<Business>)
    requires i < |listings|
    ensures var bound := Rebound(listings[i], search, last);
            CollectedAsWritten(listings[i..], search, last)
            == if bound.None? then Failure("UnboundLocalError")
               else Prepend([bound.value], CollectedAsWritten(listings[i + 1..], search, bound))
  {
    assert listings[i..][0] == listings[i];
    assert listings[i..][1..] == listings[i + 1..];
  }

  /** One listing's `try`/`finally`: after a successful click `business` is rebound to the
      record read, whether or not a later read or the website step raised; `finally` then
      appends `business`, raising when it was never bound. */
  method TryListing(list: BusinessList, l: Listing, search: string -> Outcome, business: Option<Business>)
    returns (bound: Option<Business>, raised: bool)
    modifies list
    ensures bound == Rebound(l, search, business)
    ensures raised <==> bound.None?
    ensures raised ==> list.records == old(list.records)
    ensures !raised ==> list.records == old(list.records) + [bound.value]
  {
    bound := business;
    if l.clicks {
      var attempt := ExtractListing(l, search);
      bound := Some(attempt.record);
    }
    if bound.None? {
      raised := true;
      return;
    }
    raised := false;
    list.Append(bound.value);
  }

  /** The per-listing loop as written: every listing appends the record `business` is bound
      to, and an unbound `business` raises out of the loop. */
  method CollectListings(list: BusinessList, listings: seq<Listing>, search: string -> Outcome)
    returns (raised: bool)
    modifies list
    ensures raised <==> CollectedAsWritten(listings, search, None).Failure?
    ensures raised ==> list.records == old(list.records)
    ensures !raised ==> list.records == old(list.records) + CollectedAsWritten(listings, search, None).value
  {
    var business: Option<Business> := None;
    ghost var done: seq<Business> := [];
    raised := false;
    var i := 0;
    assert listings[i..] == listings;
    PrependTwice([], [], CollectedAsWritten(listings, search, None));
    while i < |listings|
      invariant 0 <= i <= |listings|
      invariant list.records == old(list.records) + done
      invariant i == 0 ==> done == [] && business.None?
      invariant i > 0 ==> business.Some?
      invariant CollectedAsWritten(listings, search, None)
                == Prepend(done, CollectedAsWritten(listings[i..], search, business))
    {
      AsWrittenStep(listings, i, search, business);
      var bound;
      bound, raised := TryListing(list, listings[i], search, business);
      if raised {
        return;
      }
      PrependTwice(done, [bound.value], CollectedAsWritten(listings[i + 1..], search, bound));
      done := done + [bound.value];
      business := bound;
      i := i + 1;
    }
    assert done + [] == done;
  }

  /** The loop as written raises exactly when the first listing's click fails while `business`
      is still unbound. */
  lemma {:induction false} AsWrittenFailure(listings: seq<Listing>, search: string -> Outcome, last: Option<Business>)
    ensures CollectedAsWritten(listings, search, last).Failure? <==>
              last.None? && |listings| > 0 && !listings[0].clicks
  {
    if listings != [] {
      var bound := Rebound(listings[0], search, last);
      if bound.Some? {
        AsWrittenFailure(listings[1..], search, bound);
      }
    }
  }

  /** What the loop as written appends when it does not raise: one record per listing; a
      listing whose click succeeded gets its own record, and one whose click failed gets the
      record appended just before it again (or the earlier binding, for the first listing). */
  lemma {:induction false} AsWrittenShape(listings: seq<Listing>, search: string -> Outcome, last: Option<Business>)
    requires CollectedAsWritten(listings, search, last).Success?
    ensures var rs := CollectedAsWritten(listings, search, last).value;
            && |rs| == |listings|
            && (forall k :: 0 <= k < |listings| && listings[k].clicks ==>
                  rs[k] == ExtractListing(listings[k], search).record)
            && (forall k :: 0 < k < |listings| && !listings[k].clicks ==> rs[k] == rs[k - 1])
            && (|listings| > 0 && !listings[0].clicks ==> last.Some? && rs[0] == last.value)
  {
    if listings != [] {
      var bound := Rebound(listings[0], search, last);
      var tail := listings[1..];
      AsWrittenShape(tail, search, bound);
      var rest := CollectedAsWritten(tail, search, bound).value;
      var rs := CollectedAsWritten(listings, search, last).value;
      assert rs == [bound.value] + rest;
      forall k | 0 < k < |listings| && !listings[k].clicks
        ensures rs[k] == rs[k - 1]
      {
        assert tail[k - 1] == listings[k];
        if k == 1 {
          assert rest[0] == bound.value;
        } else {
          assert rest[k - 1] == rest[k - 2];
        }
      }
      forall k | 0 <= k < |listings| && listings[k].clicks
        ensures rs[k] == ExtractListing(listings[k], search).record
      {
        if k > 0 {
          assert tail[k - 1] == listings[k];
        }
      }
    }
  }

  /** As written, a listing whose click fails gets the previous listing's record again. */
  lemma StaleRecordAppendedAgain(first: Listing, second: Listing, search: string -> Outcome)
    requires first.clicks && !second.clicks
    ensures var b := ExtractListing(first, search).record;
            && CollectedAsWritten([first, second], search, None) == Success([b, b])
            && Collected([first, second], search) == [b, NoBusiness]
  {
    var b := ExtractListing(first, search).record;
    var ls := [first, second];
    assert ls[0] == first && ls[1..] == [second];
    FailedClickRepeats(second, search, b);
    assert CollectedAsWritten(ls, search, None) == Success([b] + [b]);
    assert Collected(ls, search) == [b] + [NoBusiness];
    assert [b] + [b] == [b, b] && [b] + [NoBusiness] == [b, NoBusiness];
  }

  /** As written, a failed click appends the last bound record, where the corrected loop
      appends an empty one. */
  lemma FailedClickRepeats(l: Listing, search: string -> Outcome, b: Business)
    requires !l.clicks
    ensures CollectedAsWritten([l], search, Some(b)) == Success([b])
    ensures Collected([l], search) == [NoBusiness]
  {
    var ls := [l];
    assert ls[0] == l && ls[1..] == [];
    assert CollectedAsWritten([], search, Some(b)) == Success([]);
    assert [b] + [] == [b];
  }

  /** As written, a failed click on the first listing raises out of the whole loop. */
  lemma FirstClickFailureRaises(listings: seq<Listing>, search: string -> Outcome)
    requires |listings| > 0 && !listings[0].clicks
    ensures CollectedAsWritten(listings, search, None).Failure?
  {
  }

  /** When every click succeeds the loop as written and the corrected one agree. */
  lemma {:induction false} AsWrittenAgreesWhenClicksSucceed(listings: seq<Listing>, search: string -> Outcome,
                                                           last: Option<Business>)
    requires forall k :: 0 <= k < |listings| ==> listings[k].clicks
    ensures CollectedAsWritten(listings, search, last) == Success(Collected(listings, search))
  {
    if listings != [] {
      AsWrittenAgreesWhenClicksSucceed(listings[1..], search, Some(ExtractListing(listings[0], search).record));
    }
  }

  /** The browser-level inputs of one call: whether setup up to the results panel succeeds,
      whether the hover over the first result succeeds, and the listings loaded once
      scrolling is done. */
  datatype MapsSession = MapsSession(setupOk: bool, hoverOk: bool, loaded: seq<Listing>)

  /** How a call ends: one of the two validation errors, an exception out of the browsing
      (the per-listing loop's `UnboundLocalError` included), or the records written under the
      file stem. */
  datatype ScrapeEnd = InvalidProxy | EmptyUserAgent | Aborted | Saved(stem: string, records: seq<Business>)

  /** The proxy check as written. */
  predicate ProxyAccepted(proxy: string)
  {
    StartsWith(proxy, "http://") && !StartsWith(proxy, "https://")
  }

  /** The second half of the proxy check never rejects anything: an `http://` prefix already
      rules out an `https://` one. */
  lemma ProxyCheckIsPrefixCheck(proxy: string)
    ensures ProxyAccepted(proxy) <==> StartsWith(proxy, "http://")
  {
    assert StartsWith(proxy, "http://") ==> proxy[4] == ':';
    assert StartsWith(proxy, "https://") ==> proxy[4] == 's';
  }

  /** What `scrape_google_maps(proxy_server, ..., user_agent, delay, total, suburb, state)`
      ends with, running the per-listing loop as written. */
  function Scrape(proxy: string, userAgent: string, total: int, suburb: string, state: string,
                  session: MapsSession, web: string -> Load): ScrapeEnd
  {
    if !ProxyAccepted(proxy) then InvalidProxy
    else if userAgent == "" then EmptyUserAgent
    else if !session.setupOk || !session.hoverOk then Aborted
    else match CollectedAsWritten(Slice(session.loaded, total), EmailSearch(web), None)
      case Success(records) => Saved(SuburbStem(suburb, state), records)
      case Failure(_) => Aborted
  }

  /** `scrape_google_maps`: validates, then runs the per-listing loop over the first `total`
      listings into a fresh `BusinessList`. */
  method ScrapeGoogleMaps(proxy: string, userAgent: string, total: int, suburb: string, state: string,
                          session: MapsSession, web: string -> Load) returns (end: ScrapeEnd)
    ensures end == Scrape(proxy, userAgent, total, suburb, state, session, web)
  {
    if !(StartsWith(proxy, "http://") && !StartsWith(proxy, "https://")) {
      return InvalidProxy;
    }
    if userAgent == "" {
      return EmptyUserAgent;
    }
    if !session.setupOk || !session.hoverOk {
      return Aborted;
    }
    var listings := Slice(session.loaded, total);
    var list := new BusinessList();
    var raised := CollectListings(list, listings, EmailSearch(web));
    if raised {
      return Aborted;
    }
    return Saved(SuburbStem(suburb, state), list.records);
  }

  /** Validation comes before any browsing: a bad proxy or an empty user agent ends the call
      whatever the browser would have done. */
  lemma ValidationBeforeBrowsing(proxy: string, userAgent: string, total: int, suburb: string,
                                 state: string, session: MapsSession, web: string -> Load)
    requires !StartsWith(proxy, "http://") || userAgent == ""
    ensures var end := Scrape(proxy, userAgent, total, suburb, state, session, web);
            end == InvalidProxy || end == EmptyUserAgent
  {
  }

  /** After validation and a successful setup, the loop aborts the call exactly when the first
      listing kept by `[:total]` fails to click. */
  lemma {:induction false} LoopAbortsOnFirstFailedClick(proxy: string, userAgent: string, total: int,
                                                        suburb: string, state: string,
                                                        session: MapsSession, web: string -> Load)
    requires ProxyAccepted(proxy) && userAgent != "" && session.setupOk && session.hoverOk
    ensures Scrape(proxy, userAgent, total, suburb, state, session, web) == Aborted <==>
              |Slice(session.loaded, total)| > 0 && !session.loaded[0].clicks
  {
    AsWrittenFailure(Slice(session.loaded, total), EmailSearch(web), None);
  }

  /** A saved run holds one record per listing among the first `total` loaded; the first
      listing clicked, each listing that clicked has its own record, and each later listing
      whose click failed repeats the record before it; the stem has filename characters only. */
  lemma {:induction false} SavedRecordsMatchListings(proxy: string, userAgent: string, total: int,
                                                     suburb: string, state: string,
                                                     session: MapsSession, web: string -> Load)
    requires Scrape(proxy, userAgent, total, suburb, state, session, web).Saved?
    ensures var end := Scrape(proxy, userAgent, total, suburb, state, session, web);
            && |end.records| == |Slice(session.loaded, total)| <= |session.loaded|
            && (total >= 0 ==> |end.records| <= total)
            && (|end.records| > 0 ==> session.loaded[0].clicks)
            && (forall k :: 0 <= k < |end.records| && session.loaded[k].clicks ==>
                  end.records[k] == ExtractListing(session.loaded[k], EmailSearch(web)).record)
            && (forall k :: 0 < k < |end.records| && !session.loaded[k].clicks ==>
                  end.records[k] == end.records[k - 1])
            && AllFilenameChars(end.stem)
  {
    var listings := Slice(session.loaded, total);
    SliceAtMostTotal(session.loaded, total);
    AsWrittenShape(listings, EmailSearch(web), None);
    assert forall k :: 0 <= k < |listings| ==> listings[k] == session.loaded[k];
  }
}
