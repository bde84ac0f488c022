/** The parts of `search_email_on_website` both entry points share: the contact-path sweep,
    the URLs it builds and the trace bookkeeping. */
module ContactSweep {
  import opened Wrappers
  import opened SeqFacts
  import opened Text
  import opened Browser

  /** The contact paths, in the order they are tried. */
  const ContactPaths: seq<string> :=
    ["/about", "/contact", "/about-us", "/contact-us", "/support", "/help", "/get-in-touch"]

  /** `f"{website_url.rstrip('/')}{path}"`. */
  function ContactUrl(website: string, path: string): string
  {
    RStrip(website, '/') + path
  }

  /** The address the site-specific search navigates to, query `site:{website_url} email`. */
  function SearchUrl(website: string): string
  {
    "https://www.google.com/search?q=site:" + website + " email"
  }

  /** Trailing slashes on the website make no difference to a contact URL. */
  lemma ContactUrlIgnoresTrailingSlash(website: string, path: string)
    ensures ContactUrl(website + "/", path) == ContactUrl(website, path)
  {
    assert (website + "/")[..|website|] == website;
  }

  /** A contact URL is the website without its trailing slashes, then the path. */
  lemma ContactUrlShape(website: string, path: string)
    ensures var u := ContactUrl(website, path);
            var n := |u| - |path|;
            0 <= n <= |website| && u[..n] == website[..n] && u[n..] == path
            && (n == 0 || u[n - 1] != '/')
            && forall k :: n <= k < |website| ==> website[k] == '/'
  {
    var r := RStrip(website, '/');
    assert ContactUrl(website, path)[..|r|] == r;
  }

  /** One stage of the search: the email it returned (if any) and what it did. */
  datatype Stage = Stage(email: Option<string>, events: seq<Event>)

  /** The sweep over `paths[i..]`: each contact URL is visited in turn until one page yields
      an email; a page that fails to load or read is skipped. */
  function SweepFrom(web: string -> Load, website: string, tab: Tab, paths: seq<string>, i: nat)
    : (r: Stage)
    requires i <= |paths|
    decreases |paths| - i
    ensures |r.events| <= |paths| - i
  {
    if i == |paths| then Stage(None, [])
    else
      var url := ContactUrl(website, paths[i]);
      var found := PageEmail(web(url));
      if found.Some? then Stage(found, [Navigated(tab, url)])
      else
        var rest := SweepFrom(web, website, tab, paths, i + 1);
        Stage(rest.email, [Navigated(tab, url)] + rest.events)
  }

  /** The sweep visits the contact URLs in the order of `paths`. */
  lemma {:induction false} SweepVisitsInOrder(web: string -> Load, website: string, tab: Tab,
                                              paths: seq<string>, i: nat)
    requires i <= |paths|
    decreases |paths| - i
    ensures var r := SweepFrom(web, website, tab, paths, i);
      forall j :: i <= j < i + |r.events| ==> r.events[j - i] == Navigated(tab, ContactUrl(website, paths[j]))
  {
    var r := SweepFrom(web, website, tab, paths, i);
    if i < |paths| && PageEmail(web(ContactUrl(website, paths[i]))).None? {
      SweepVisitsInOrder(web, website, tab, paths, i + 1);
      var rest := SweepFrom(web, website, tab, paths, i + 1);
      assert r.events == [Navigated(tab, ContactUrl(website, paths[i]))] + rest.events;
      forall j | i + 1 <= j < i + |r.events|
        ensures r.events[j - i] == Navigated(tab, ContactUrl(website, paths[j]))
      {
        assert r.events[j - i] == rest.events[j - (i + 1)];
      }
    }
  }

  /** Every page before the last one visited yielded nothing; an email comes from the last
      page visited; and no email means every path was visited and yielded nothing. */
  lemma {:induction false} SweepStopsAtFirstEmail(web: string -> Load, website: string, tab: Tab,
                                                  paths: seq<string>, i: nat)
    requires i <= |paths|
    decreases |paths| - i
    ensures var r := SweepFrom(web, website, tab, paths, i);
      var n := |r.events|;
      && (forall j :: i <= j < i + n - 1 ==> PageEmail(web(ContactUrl(website, paths[j]))).None?)
      && (r.email.Some? ==> n > 0 && r.email == PageEmail(web(ContactUrl(website, paths[i + n - 1]))))
      && (r.email.None? ==>
            n == |paths| - i && forall j :: i <= j < |paths| ==> PageEmail(web(ContactUrl(website, paths[j]))).None?)
  {
    if i < |paths| && PageEmail(web(ContactUrl(website, paths[i]))).None? {
      SweepStopsAtFirstEmail(web, website, tab, paths, i + 1);
    }
  }

  /** `SweepStopsAtFirstEmail` for the sweep over all of `paths`. */
  lemma SweepFromStartStops(web: string -> Load, website: string, tab: Tab, paths: seq<string>)
    ensures var r := SweepFrom(web, website, tab, paths, 0);
      var n := |r.events|;
      && (forall k :: 0 <= k < n - 1 ==> PageEmail(web(ContactUrl(website, paths[k]))).None?)
      && (r.email.Some? ==> n > 0 && r.email == PageEmail(web(ContactUrl(website, paths[n - 1]))))
      && (r.email.None? ==>
            n == |paths| && forall k :: 0 <= k < |paths| ==> PageEmail(web(ContactUrl(website, paths[k]))).None?)
  {
    SweepStopsAtFirstEmail(web, website, tab, paths, 0);
  }

  /** The sweep over all of `paths`, with the URLs it visits. */
  lemma SweepFacts(web: string -> Load, website: string, tab: Tab, paths: seq<string>)
    ensures var r := SweepFrom(web, website, tab, paths, 0);
      var n := |r.events|;
      && n <= |paths|
      && (forall k :: 0 <= k < n ==> r.events[k] == Navigated(tab, ContactUrl(website, paths[k])))
      && |Navs(r.events)| == n
      && (forall k :: 0 <= k < n ==> Navs(r.events)[k] == ContactUrl(website, paths[k]))
      && (forall k :: 0 <= k < n - 1 ==> PageEmail(web(ContactUrl(website, paths[k]))).None?)
      && (r.email.Some? ==> n > 0 && r.email == PageEmail(web(ContactUrl(website, paths[n - 1]))))
      && (r.email.None? ==>
            n == |paths| && forall k :: 0 <= k < |paths| ==> PageEmail(web(ContactUrl(website, paths[k]))).None?)
  {
    var r := SweepFrom(web, website, tab, paths, 0);
    SweepVisitsInOrder(web, website, tab, paths, 0);
    forall k | 0 <= k < |r.events|
      ensures r.events[k] == Navigated(tab, ContactUrl(website, paths[k]))
    {
      assert r.events[k - 0] == Navigated(tab, ContactUrl(website, paths[k]));
    }
    NavsOfNavigations(r.events);
    SweepFromStartStops(web, website, tab, paths);
  }

  /** The loop over the contact paths: visits them in order on `tab` and stops at the first
      page that yields an email. The scraper runs it on `ContactPaths`. */
  method SweepContactPaths(b: Session, website: string, tab: Tab, paths: seq<string>)
    returns (email: Option<string>)
    modifies b
    ensures email == SweepFrom(b.web, website, tab, paths, 0).email
    ensures b.events == old(b.events) + SweepFrom(b.web, website, tab, paths, 0).events
  {
    var i := 0;
    while i < |paths|
      invariant 0 <= i <= |paths|
      invariant SweepFrom(b.web, website, tab, paths, i).email
                == SweepFrom(b.web, website, tab, paths, 0).email
      invariant b.events + SweepFrom(b.web, website, tab, paths, i).events
                == old(b.events) + SweepFrom(b.web, website, tab, paths, 0).events
    {
      var url := ContactUrl(website, paths[i]);
      ghost var before := b.events;
      var load := b.Visit(tab, url);
      var found := PageEmail(load);
      if found.Some? {
        SweepStep(b.web, website, tab, paths, i);
        return found;
      }
      SweepAdvance(b.web, website, tab, paths, i, before);
      i := i + 1;
    }
    return None;
  }

  /** One step of the sweep: the contact URL at `i` is visited, and the sweep goes on only when
      its page gave nothing. */
  lemma SweepStep(web: string -> Load, website: string, tab: Tab, paths: seq<string>, i: nat)
    requires i < |paths|
    ensures var url := ContactUrl(website, paths[i]);
            var r := SweepFrom(web, website, tab, paths, i);
            var rest := SweepFrom(web, website, tab, paths, i + 1);
            if PageEmail(web(url)).Some? then r == Stage(PageEmail(web(url)), [Navigated(tab, url)])
            else r == Stage(rest.email, [Navigated(tab, url)] + rest.events)
  {
  }

  /** A contact page that gave nothing: the trace so far, its navigation and the rest of the
      sweep make up the sweep from it. */
  lemma SweepAdvance(web: string -> Load, website: string, tab: Tab, paths: seq<string>, i: nat,
                     before: seq<Event>)
    requires i < |paths| && PageEmail(web(ContactUrl(website, paths[i]))).None?
    ensures var rest := SweepFrom(web, website, tab, paths, i + 1);
            && before + [Navigated(tab, ContactUrl(website, paths[i]))] + rest.events
               == before + SweepFrom(web, website, tab, paths, i).events
            && rest.email == SweepFrom(web, website, tab, paths, i).email
  {
    SweepStep(web, website, tab, paths, i);
    Regroup(before, [Navigated(tab, ContactUrl(website, paths[i]))],
            SweepFrom(web, website, tab, paths, i + 1).events, []);
  }

  /** The URLs navigated to, in order. */
  function Navs(events: seq<Event>): (r: seq<string>)
    ensures |r| <= |events|
  {
    if events == [] then []
    else (if events[0].Navigated? then [events[0].url] else []) + Navs(events[1..])
  }

  lemma {:induction false} NavsAppend(a: seq<Event>, b: seq<Event>)
    ensures Navs(a + b) == Navs(a) + Navs(b)
  {
    if a == [] {
      assert a + b == b;
    } else {
      assert (a + b)[0] == a[0];
      assert (a + b)[1..] == a[1..] + b;
      NavsAppend(a[1..], b);
    }
  }

  /** A trace of navigations only lists its URLs one for one. */
  lemma {:induction false} NavsOfNavigations(events: seq<Event>)
    requires forall k :: 0 <= k < |events| ==> events[k].Navigated?
    ensures |Navs(events)| == |events|
    ensures forall k :: 0 <= k < |events| ==> Navs(events)[k] == events[k].url
  {
    if events != [] {
      NavsOfNavigations(events[1..]);
    }
  }

  /** The outcome of returning an optional email. */
  function Returned(email: Option<string>): (r: Outcome)
    ensures r != Raised
  {
    if email.Some? then Found(email.value) else NotFound
  }
}
