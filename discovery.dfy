/** `search_email_on_website` and `perform_site_specific_google_search` of `escrape.py`: the
    home page, then the contact paths on the same site tab, then a site-specific search on a
    second tab of the proxied browser. */
module Discovery {
  import opened Wrappers
  import opened SeqFacts
  import opened Text
  import opened EmailPattern
  import opened Browser
  import opened ContactSweep

  /** A finished email search: its outcome and everything it did. */
  datatype Run = Run(outcome: Outcome, events: seq<Event>)

  /** The site-specific search: no navigation and no email for a URL without a scheme;
      otherwise one navigation, and any failure gives no email. */
  function SiteSearch(web: string -> Load, website: string): Stage
  {
    if !HasScheme(website) then Stage(None, [])
    else Stage(PageEmail(web(SearchUrl(website))), [Navigated(SearchTab, SearchUrl(website))])
  }

  /** After a home page that loaded without an email: the sweep, then, when it found
      nothing, the search on its own tab. */
  function SweepThenSearchRun(web: string -> Load, website: string, paths: seq<string>): Run
  {
    var sweep := SweepFrom(web, website, SiteTab, paths, 0);
    if sweep.email.Some? then Run(Found(sweep.email.value), sweep.events)
    else
      var search := SiteSearch(web, website);
      Run(Returned(search.email), sweep.events + ([Opened(SearchTab)] + search.events + [Closed(SearchTab)]))
  }

  /** Everything between the home page's navigation and the closing of the site tab. */
  function AfterHome(web: string -> Load, website: string, paths: seq<string>): Run
  {
    var home := web(website);
    if !home.Loaded? then Run(Raised, [])
    else if ExtractEmail(home.body).Some? then Run(Found(ExtractEmail(home.body).value), [])
    else SweepThenSearchRun(web, website, paths)
  }

  /** What `search_email_on_website(local_context, website_url, proxy_context)` does when its
      contact paths are `paths`; the scraper's are `ContactPaths`. */
  function Discover(web: string -> Load, website: string, paths: seq<string>): Run
  {
    var inner := AfterHome(web, website, paths);
    Run(inner.outcome, [Opened(SiteTab), Navigated(SiteTab, website)] + inner.events + [Closed(SiteTab)])
  }

  /** `perform_site_specific_google_search(search_page, website_url)`: the scheme check, then
      the search page; every failure is caught and gives `None`. */
  method PerformSiteSearch(b: Session, website: string) returns (email: Option<string>)
    modifies b
    ensures email == SiteSearch(b.web, website).email
    ensures b.events == old(b.events) + SiteSearch(b.web, website).events
  {
    if !HasScheme(website) {
      return None;
    }
    var load := b.Visit(SearchTab, SearchUrl(website));
    email := PageEmail(load);
  }

  /** The part of `search_email_on_website` after a home page without an email. */
  method SweepThenSearch(b: Session, website: string, paths: seq<string>) returns (outcome: Outcome)
    modifies b
    ensures outcome == SweepThenSearchRun(b.web, website, paths).outcome
    ensures b.events == old(b.events) + SweepThenSearchRun(b.web, website, paths).events
  {
    var email := SweepContactPaths(b, website, SiteTab, paths);
    if email.Some? {
      outcome := Found(email.value);
    } else {
      ghost var swept := b.events;
      b.OpenPage(SearchTab);
      email := PerformSiteSearch(b, website);
      b.ClosePage(SearchTab);
      outcome := Returned(email);
      Regroup(swept, [Opened(SearchTab)], SiteSearch(b.web, website).events, [Closed(SearchTab)]);
      Regroup(old(b.events), SweepFrom(b.web, website, SiteTab, paths, 0).events, [],
              [Opened(SearchTab)] + SiteSearch(b.web, website).events + [Closed(SearchTab)]);
    }
  }

  /** What follows the home page's navigation: its email if it has one, otherwise the sweep
      and the search; a home page that failed raises. */
  method AfterHomePage(b: Session, website: string, paths: seq<string>, home: Load) returns (outcome: Outcome)
    requires home == b.web(website)
    modifies b
    ensures outcome == AfterHome(b.web, website, paths).outcome
    ensures b.events == old(b.events) + AfterHome(b.web, website, paths).events
  {
    if !home.Loaded? {
      outcome := Raised;
    } else if ExtractEmail(home.body).Some? {
      outcome := Found(ExtractEmail(home.body).value);
    } else {
      outcome := SweepThenSearch(b, website, paths);
    }
  }

  /** `search_email_on_website` with the contact paths `paths`: the site tab is closed on
      every path out, including the one where the home page raises. */
  method SearchEmailOnWebsite(b: Session, website: string, paths: seq<string>) returns (outcome: Outcome)
    modifies b
    ensures outcome == Discover(b.web, website, paths).outcome
    ensures b.events == old(b.events) + Discover(b.web, website, paths).events
  {
    b.OpenPage(SiteTab);
    var home := b.Visit(SiteTab, website);
    outcome := AfterHomePage(b, website, paths, home);
    b.ClosePage(SiteTab);
    ghost var inner := AfterHome(b.web, website, paths);
    Regroup(old(b.events), [Opened(SiteTab), Navigated(SiteTab, website)],
            inner.events, [Closed(SiteTab)]);
    assert Discover(b.web, website, paths) == Run(inner.outcome, [Opened(SiteTab), Navigated(SiteTab, website)] + inner.events + [Closed(SiteTab)]);
  }

  /** The home page yields an email: it is returned, no contact path is visited and no
      search tab is opened. */
  lemma HomeEmailShortCircuits(web: string -> Load, website: string, paths: seq<string>)
    requires web(website).Loaded? && ExtractEmail(web(website).body).Some?
    ensures Discover(web, website, paths)
            == Run(Found(ExtractEmail(web(website).body).value),
                   [Opened(SiteTab), Navigated(SiteTab, website), Closed(SiteTab)])
  {
  }

  /** The home page fails: the exception propagates, nothing else is visited, and the site
      tab is still closed. */
  lemma HomeFailurePropagates(web: string -> Load, website: string, paths: seq<string>)
    requires !web(website).Loaded?
    ensures Discover(web, website, paths)
            == Run(Raised, [Opened(SiteTab), Navigated(SiteTab, website), Closed(SiteTab)])
  {
  }

  /** A trace that opens the site tab, navigates it to the website, does `inner` and closes
      the tab. */
  lemma VisitTrace(website: string, inner: seq<Event>)
    ensures var e := [Opened(SiteTab), Navigated(SiteTab, website)] + inner + [Closed(SiteTab)];
            && |e| == |inner| + 3
            && e[0] == Opened(SiteTab) && e[1] == Navigated(SiteTab, website) && e[|e| - 1] == Closed(SiteTab)
            && (forall k :: 0 <= k < |inner| ==> e[k + 2] == inner[k])
            && (forall ev :: ev in e <==>
                  ev == Opened(SiteTab) || ev == Navigated(SiteTab, website) || ev == Closed(SiteTab)
                  || ev in inner)
            && Navs(e) == [website] + Navs(inner)
  {
    var visit := [Opened(SiteTab), Navigated(SiteTab, website)];
    assert Navs(visit) == [website] by {
      assert visit[1..] == [Navigated(SiteTab, website)];
      assert visit[1..][1..] == [];
    }
    assert Navs([Closed(SiteTab)]) == [];
    NavsAppend(visit, inner);
    NavsAppend(visit + inner, [Closed(SiteTab)]);
  }

  /** The trace of a search: the site tab opened and navigated to the website, the events
      after the home page, the site tab closed. */
  lemma DiscoverTrace(web: string -> Load, website: string, paths: seq<string>)
    ensures var e := Discover(web, website, paths).events;
            var inner := AfterHome(web, website, paths).events;
            && |e| == |inner| + 3
            && e[0] == Opened(SiteTab) && e[|e| - 1] == Closed(SiteTab)
            && (forall k :: 0 <= k < |inner| ==> e[k + 2] == inner[k])
            && (forall ev :: ev in e <==>
                  ev == Opened(SiteTab) || ev == Navigated(SiteTab, website) || ev == Closed(SiteTab)
                  || ev in inner)
            && Navs(e) == [website] + Navs(inner)
  {
    VisitTrace(website, AfterHome(web, website, paths).events);
  }

  /** The trace after a home page without an email: the sweep, then, when it found nothing,
      the search tab opened, used and closed. */
  lemma SweepThenSearchTrace(web: string -> Load, website: string, paths: seq<string>)
    ensures var e := SweepThenSearchRun(web, website, paths).events;
            var sweep := SweepFrom(web, website, SiteTab, paths, 0);
            var search := SiteSearch(web, website);
            && (sweep.email.Some? ==> e == sweep.events)
            && (sweep.email.None? ==>
                  && e == sweep.events + ([Opened(SearchTab)] + search.events + [Closed(SearchTab)])
                  && Navs(e) == Navs(sweep.events) + Navs(search.events))
  {
    var sweep := SweepFrom(web, website, SiteTab, paths, 0);
    if sweep.email.None? {
      var search := SiteSearch(web, website);
      var tail := [Opened(SearchTab)] + search.events + [Closed(SearchTab)];
      assert Navs([Opened(SearchTab)]) == [] && Navs([Closed(SearchTab)]) == [];
      NavsAppend([Opened(SearchTab)], search.events);
      NavsAppend([Opened(SearchTab)] + search.events, [Closed(SearchTab)]);
      NavsAppend(sweep.events, tail);
    }
  }

  /** The URLs visited, by stage. */
  lemma DiscoverNavs(web: string -> Load, website: string, paths: seq<string>)
    ensures var r := Discover(web, website, paths);
            var home := web(website);
            var sweep := SweepFrom(web, website, SiteTab, paths, 0);
            if !home.Loaded? || ExtractEmail(home.body).Some? then Navs(r.events) == [website]
            else if sweep.email.Some? then Navs(r.events) == [website] + Navs(sweep.events)
            else Navs(r.events) == [website] + Navs(sweep.events) + Navs(SiteSearch(web, website).events)
  {
    DiscoverTrace(web, website, paths);
    var inner := AfterHome(web, website, paths);
    var home := web(website);
    if home.Loaded? && ExtractEmail(home.body).None? {
      assert inner == SweepThenSearchRun(web, website, paths);
      SweepThenSearchTrace(web, website, paths);
      var sweep := SweepFrom(web, website, SiteTab, paths, 0);
      var search := SiteSearch(web, website);
      if sweep.email.None? {
        assert [website] + (Navs(sweep.events) + Navs(search.events))
               == [website] + Navs(sweep.events) + Navs(search.events);
      }
    } else {
      assert inner.events == [];
    }
  }

  /** The search visits its one URL only when the website has a scheme. */
  lemma SiteSearchNavs(web: string -> Load, website: string)
    ensures Navs(SiteSearch(web, website).events)
            == if HasScheme(website) then [SearchUrl(website)] else []
  {
    var e := SiteSearch(web, website).events;
    if HasScheme(website) {
      assert e[1..] == [];
    }
  }

  /** The URLs a search that reached the sweep visits: the website, the contact URLs the
      sweep navigated to, and the search URL when the sweep found nothing and the website has
      a scheme. */
  lemma SweptUrls(web: string -> Load, website: string, paths: seq<string>)
    requires web(website).Loaded? && ExtractEmail(web(website).body).None?
    ensures var urls := Navs(Discover(web, website, paths).events);
            var sweep := SweepFrom(web, website, SiteTab, paths, 0);
            var n := |sweep.events|;
            && |urls| >= n + 1 && urls[0] == website
            && (forall k :: 1 <= k <= n ==> urls[k] == ContactUrl(website, paths[k - 1]))
            && (forall k :: 1 <= k < n ==> PageEmail(web(urls[k])).None?)
            && (sweep.email.Some? ==> |urls| == n + 1 && n >= 1 && PageEmail(web(urls[n])) == sweep.email)
            && (sweep.email.None? ==>
                  && n == |paths| && PageEmail(web(urls[n])).None?
                  && (HasScheme(website) ==> |urls| == n + 2 && urls[n + 1] == SearchUrl(website))
                  && (!HasScheme(website) ==> |urls| == n + 1))
  {
    var urls := Navs(Discover(web, website, paths).events);
    var sweep := SweepFrom(web, website, SiteTab, paths, 0);
    var swept := Navs(sweep.events);
    SweepFacts(web, website, SiteTab, paths);
    SweptNavs(web, website, paths);
    assert urls[..1 + |swept|] == [website] + swept;
    forall k | 1 <= k <= |swept| ensures urls[k] == ContactUrl(website, paths[k - 1]) {
      assert urls[k] == swept[k - 1];
    }
  }

  /** The URLs of a search that reached the sweep, as one sequence. */
  lemma SweptNavs(web: string -> Load, website: string, paths: seq<string>)
    requires web(website).Loaded? && ExtractEmail(web(website).body).None?
    ensures var sweep := SweepFrom(web, website, SiteTab, paths, 0);
            Navs(Discover(web, website, paths).events)
            == [website] + Navs(sweep.events)
               + (if sweep.email.None? && HasScheme(website) then [SearchUrl(website)] else [])
  {
    DiscoverNavs(web, website, paths);
    SiteSearchNavs(web, website);
    var sweep := SweepFrom(web, website, SiteTab, paths, 0);
    assert [website] + Navs(sweep.events) + [] == [website] + Navs(sweep.events);
  }

  /** The visiting order: the website, then the contact URLs in the order of `paths`, then at
      most the search URL, each stage only when the ones before it found nothing. */
  lemma {:induction false} DiscoveryVisitsInOrder(web: string -> Load, website: string, paths: seq<string>)
    ensures var urls := Navs(Discover(web, website, paths).events);
            && 1 <= |urls| <= |paths| + 2
            && urls[0] == website
            && (forall k :: 1 <= k < |urls| && k <= |paths| ==> urls[k] == ContactUrl(website, paths[k - 1]))
            && (|urls| == |paths| + 2 ==> urls[|paths| + 1] == SearchUrl(website))
  {
    var home := web(website);
    if home.Loaded? && ExtractEmail(home.body).None? {
      SweepFacts(web, website, SiteTab, paths);
      SweptUrls(web, website, paths);
    } else {
      DiscoverNavs(web, website, paths);
    }
  }

  /** The first page that yields an email wins: every page visited before the last one gave
      nothing, an email found is the one the last page gave, and the search raises exactly
      when the home page fails. */
  lemma {:induction false} FirstSuccessWins(web: string -> Load, website: string, paths: seq<string>)
    ensures var r := Discover(web, website, paths);
            var urls := Navs(r.events);
            && |urls| >= 1
            && (forall k :: 0 <= k < |urls| - 1 ==> PageEmail(web(urls[k])).None?)
            && (r.outcome.Found? ==> PageEmail(web(urls[|urls| - 1])) == Some(r.outcome.email))
            && (r.outcome == NotFound ==> forall k :: 0 <= k < |urls| ==> PageEmail(web(urls[k])).None?)
            && (r.outcome == Raised <==> !web(website).Loaded?)
  {
    var r := Discover(web, website, paths);
    var home := web(website);
    if home.Loaded? && ExtractEmail(home.body).None? {
      SweptUrls(web, website, paths);
      var sweep := SweepFrom(web, website, SiteTab, paths, 0);
      assert r.outcome == SweepThenSearchRun(web, website, paths).outcome;
    } else {
      DiscoverNavs(web, website, paths);
    }
  }

  /** The search tab is opened exactly when the home page loaded without an email and the
      sweep found nothing. */
  lemma SearchTabOpened(web: string -> Load, website: string, paths: seq<string>)
    ensures Opened(SearchTab) in Discover(web, website, paths).events <==>
              web(website).Loaded? && ExtractEmail(web(website).body).None?
              && SweepFrom(web, website, SiteTab, paths, 0).email.None?
  {
    DiscoverTrace(web, website, paths);
    var home := web(website);
    if home.Loaded? && ExtractEmail(home.body).None? {
      var sweep := SweepFrom(web, website, SiteTab, paths, 0);
      SweepFacts(web, website, SiteTab, paths);
      SweepThenSearchTrace(web, website, paths);
      assert Opened(SearchTab) !in sweep.events;
    }
  }

  /** Once the search tab is open, the home page and every contact page gave nothing. */
  lemma SearchAfterEmptySweep(web: string -> Load, website: string, paths: seq<string>)
    requires Opened(SearchTab) in Discover(web, website, paths).events
    ensures var urls := Navs(Discover(web, website, paths).events);
            && web(website).Loaded? && |urls| >= |paths| + 1
            && forall k :: 0 <= k <= |paths| ==> PageEmail(web(urls[k])).None?
  {
    SearchTabOpened(web, website, paths);
    SweptUrls(web, website, paths);
  }

  /** A loaded home page and |paths| + 1 empty pages leave only the search to run. */
  lemma EmptySweepSearches(web: string -> Load, website: string, paths: seq<string>)
    requires var urls := Navs(Discover(web, website, paths).events);
             && web(website).Loaded? && |urls| >= |paths| + 1
             && forall k :: 0 <= k <= |paths| ==> PageEmail(web(urls[k])).None?
    ensures Opened(SearchTab) in Discover(web, website, paths).events
  {
    var urls := Navs(Discover(web, website, paths).events);
    SearchTabOpened(web, website, paths);
    DiscoverNavs(web, website, paths);
    assert urls[0] == website;
    assert PageEmail(web(urls[0])).None?;
    SweptUrls(web, website, paths);
  }

  /** The search runs only once the home page loaded and every contact path gave nothing;
      its result is then returned unchanged. */
  lemma {:induction false} SearchOnlyAfterSweep(web: string -> Load, website: string, paths: seq<string>)
    ensures var r := Discover(web, website, paths);
            var urls := Navs(r.events);
            && (Opened(SearchTab) in r.events <==>
                  web(website).Loaded? && |urls| >= |paths| + 1
                  && forall k :: 0 <= k <= |paths| ==> PageEmail(web(urls[k])).None?)
            && (Opened(SearchTab) in r.events ==> r.outcome == Returned(SiteSearch(web, website).email))
  {
    var r := Discover(web, website, paths);
    var urls := Navs(r.events);
    SearchTabOpened(web, website, paths);
    if Opened(SearchTab) in r.events {
      SearchAfterEmptySweep(web, website, paths);
    } else if web(website).Loaded? && |urls| >= |paths| + 1
              && forall k :: 0 <= k <= |paths| ==> PageEmail(web(urls[k])).None? {
      EmptySweepSearches(web, website, paths);
    }
  }

  /** Both tabs are closed: the trace starts by opening the site tab and ends by closing it,
      and the search tab, when opened, is closed again. */
  lemma {:induction false} TabsClosed(web: string -> Load, website: string, paths: seq<string>)
    ensures var e := Discover(web, website, paths).events;
            && |e| >= 3 && e[0] == Opened(SiteTab) && e[|e| - 1] == Closed(SiteTab)
            && (Opened(SearchTab) in e <==> Closed(SearchTab) in e)
  {
    DiscoverTrace(web, website, paths);
    var home := web(website);
    if home.Loaded? && ExtractEmail(home.body).None? {
      var sweep := SweepFrom(web, website, SiteTab, paths, 0);
      SweepFacts(web, website, SiteTab, paths);
      SweepThenSearchTrace(web, website, paths);
      assert Opened(SearchTab) !in sweep.events && Closed(SearchTab) !in sweep.events;
    }
  }

  /** An email found anywhere has the shape of the email pattern. */
  lemma {:induction false} FoundIsEmailAddress(web: string -> Load, website: string, paths: seq<string>)
    requires Discover(web, website, paths).outcome.Found?
    ensures IsEmailAddress(Discover(web, website, paths).outcome.email)
  {
    var r := Discover(web, website, paths);
    var urls := Navs(r.events);
    FirstSuccessWins(web, website, paths);
    PageEmailIsAddress(web(urls[|urls| - 1]));
  }

  /** A website without a scheme is never searched for: the search tab opens and closes
      without navigating. */
  lemma SearchNeedsScheme(web: string -> Load, website: string)
    requires !HasScheme(website)
    ensures SiteSearch(web, website) == Stage(None, [])
  {
  }
}
