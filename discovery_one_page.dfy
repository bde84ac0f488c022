/** `search_email_on_website` and `perform_site_specific_google_search` of
    `main33_efnt4.py`: the same home page and contact sweep, but the search reuses the site
    tab, checks no scheme, and only its extraction step is guarded. */
module OnePageDiscovery {
  import opened Wrappers
  import opened SeqFacts
  import opened Text
  import opened EmailPattern
  import opened Browser
  import opened ContactSweep
  import Discovery

  /** The outcome of the search page: a failed navigation propagates, a failed read gives
      `None`. */
  function SearchOutcome(load: Load): (r: Outcome)
    ensures r == Raised <==> load.NavFailed?
    ensures r.Found? ==> Some(r.email) == PageEmail(load)
    ensures r == NotFound <==> PageEmail(load).None? && !load.NavFailed?
  {
    match load
    case NavFailed => Raised
    case ReadFailed => NotFound
    case Loaded(body) => Returned(ExtractEmail(body))
  }

  /** After a home page that loaded without an email: the sweep, then, when it found
      nothing, the search on the same tab. */
  function SweepThenSearchOnPage(web: string -> Load, website: string, paths: seq<string>): Discovery.Run
  {
    var sweep := SweepFrom(web, website, SiteTab, paths, 0);
    if sweep.email.Some? then Discovery.Run(Found(sweep.email.value), sweep.events)
    else
      Discovery.Run(SearchOutcome(web(SearchUrl(website))),
                    sweep.events + [Navigated(SiteTab, SearchUrl(website))])
  }

  /** Everything between the home page's navigation and the closing of the tab. */
  function AfterHomeOnePage(web: string -> Load, website: string, paths: seq<string>): Discovery.Run
  {
    var home := web(website);
    if !home.Loaded? then Discovery.Run(Raised, [])
    else if ExtractEmail(home.body).Some? then Discovery.Run(Found(ExtractEmail(home.body).value), [])
    else SweepThenSearchOnPage(web, website, paths)
  }

  /** What `search_email_on_website(context, website_url)` does when its contact paths are
      `paths`; the scraper's are `ContactPaths`. */
  function DiscoverOnePage(web: string -> Load, website: string, paths: seq<string>): Discovery.Run
  {
    var inner := AfterHomeOnePage(web, website, paths);
    Discovery.Run(inner.outcome,
                  [Opened(SiteTab), Navigated(SiteTab, website)] + inner.events + [Closed(SiteTab)])
  }

  /** `perform_site_specific_google_search(search_page, website_url)` on the site tab. */
  method SearchOnPage(b: Session, website: string) returns (outcome: Outcome)
    modifies b
    ensures outcome == SearchOutcome(b.web(SearchUrl(website)))
    ensures b.events == old(b.events) + [Navigated(SiteTab, SearchUrl(website))]
  {
    var load := b.Visit(SiteTab, SearchUrl(website));
    if load.NavFailed? {
      return Raised;
    }
    outcome := Returned(PageEmail(load));
  }

  /** The part of `search_email_on_website` after a home page without an email. */
  method SweepThenSearchOnTab(b: Session, website: string, paths: seq<string>) returns (outcome: Outcome)
    modifies b
    ensures outcome == SweepThenSearchOnPage(b.web, website, paths).outcome
    ensures b.events == old(b.events) + SweepThenSearchOnPage(b.web, website, paths).events
  {
    var email := SweepContactPaths(b, website, SiteTab, paths);
    if email.Some? {
      outcome := Found(email.value);
    } else {
      outcome := SearchOnPage(b, website);
    }
  }

  /** What follows the home page's navigation on the one tab. */
  method AfterHomePage(b: Session, website: string, paths: seq<string>, home: Load) returns (outcome: Outcome)
    requires home == b.web(website)
    modifies b
    ensures outcome == AfterHomeOnePage(b.web, website, paths).outcome
    ensures b.events == old(b.events) + AfterHomeOnePage(b.web, website, paths).events
  {
    if !home.Loaded? {
      outcome := Raised;
    } else if ExtractEmail(home.body).Some? {
      outcome := Found(ExtractEmail(home.body).value);
    } else {
      outcome := SweepThenSearchOnTab(b, website, paths);
    }
  }

  /** `search_email_on_website` with the contact paths `paths`: one tab, closed on every
      path out. */
  method SearchEmailOnWebsite(b: Session, website: string, paths: seq<string>)
    returns (outcome: Outcome)
    modifies b
    ensures outcome == DiscoverOnePage(b.web, website, paths).outcome
    ensures b.events == old(b.events) + DiscoverOnePage(b.web, website, paths).events
  {
    b.OpenPage(SiteTab);
    var home := b.Visit(SiteTab, website);
    outcome := AfterHomePage(b, website, paths, home);
    b.ClosePage(SiteTab);
    ghost var inner := AfterHomeOnePage(b.web, website, paths);
    Regroup(old(b.events), [Opened(SiteTab), Navigated(SiteTab, website)], inner.events, [Closed(SiteTab)]);
    assert DiscoverOnePage(b.web, website, paths)
           == Discovery.Run(inner.outcome, [Opened(SiteTab), Navigated(SiteTab, website)] + inner.events + [Closed(SiteTab)]);
  }

  /** Between the home page and the closing of the tab there are only navigations of the
      site tab. */
  lemma AfterHomeNavigatesSiteTab(web: string -> Load, website: string, paths: seq<string>)
    ensures var inner := AfterHomeOnePage(web, website, paths).events;
            forall k :: 0 <= k < |inner| ==> inner[k].Navigated? && inner[k].tab == SiteTab
  {
    var home := web(website);
    if home.Loaded? && ExtractEmail(home.body).None? {
      SweepFacts(web, website, SiteTab, paths);
    }
  }

  /** Everything happens on the one site tab, which is opened first and closed last. */
  lemma {:induction false} SingleTab(web: string -> Load, website: string, paths: seq<string>)
    ensures var e := DiscoverOnePage(web, website, paths).events;
            && |e| >= 3 && e[0] == Opened(SiteTab) && e[|e| - 1] == Closed(SiteTab)
            && (forall k :: 0 <= k < |e| ==> e[k].tab == SiteTab)
            && (forall k :: 0 < k < |e| - 1 ==> e[k].Navigated?)
  {
    var e := DiscoverOnePage(web, website, paths).events;
    var inner := AfterHomeOnePage(web, website, paths).events;
    Discovery.VisitTrace(website, inner);
    AfterHomeNavigatesSiteTab(web, website, paths);
    forall k | 2 <= k < |e| - 1 ensures e[k].Navigated? && e[k].tab == SiteTab {
      assert e[(k - 2) + 2] == inner[k - 2];
    }
  }

  /** The escrape variant and this one visit the same URLs for a website with a scheme, and
      agree on the outcome except where this one's search navigation fails: there it raises
      and the escrape variant returns `None`. */
  lemma {:induction false} VariantsAgree(web: string -> Load, website: string, paths: seq<string>)
    requires HasScheme(website)
    ensures var one := DiscoverOnePage(web, website, paths);
            var two := Discovery.Discover(web, website, paths);
            && Navs(one.events) == Navs(two.events)
            && (one.outcome != Raised ==> two.outcome == one.outcome)
            && (one.outcome == Raised && two.outcome != Raised ==>
                  two.outcome == NotFound && web(SearchUrl(website)).NavFailed?)
  {
    var inner := AfterHomeOnePage(web, website, paths).events;
    Discovery.VisitTrace(website, inner);
    Discovery.DiscoverTrace(web, website, paths);
    var home := web(website);
    if home.Loaded? && ExtractEmail(home.body).None? {
      var sweep := SweepFrom(web, website, SiteTab, paths, 0);
      if sweep.email.None? {
        var last := [Navigated(SiteTab, SearchUrl(website))];
        assert Navs(last) == [SearchUrl(website)] by {
          assert last[1..] == [];
        }
        NavsAppend(sweep.events, last);
        Discovery.SweepThenSearchTrace(web, website, paths);
        Discovery.SiteSearchNavs(web, website);
      }
    }
  }
}
