/** The browser as the scraper sees it: a page load either yields the rendered body text or
    fails, and every page opened, navigated and closed is recorded in an event trace. */
module Browser {
  import opened Wrappers
  import opened EmailPattern

  /** What one navigation followed by reading `body` gives: the text, a failed `goto`, or a
      failure after the navigation (the wait for the page or `inner_text` raising). */
  datatype Load = Loaded(body: string) | NavFailed | ReadFailed

  /** The two tabs the email search uses: the site-visit tab and the search-engine tab. */
  datatype Tab = SiteTab | SearchTab

  datatype Event = Opened(tab: Tab) | Navigated(tab: Tab, url: string) | Closed(tab: Tab)

  /** What `search_email_on_website` ends with: an email returned, `None` returned, or an
      exception propagated to the caller. */
  datatype Outcome = Found(email: string) | NotFound | Raised

  /** The email an extraction reads from a page, or `None` when the page gave no text. */
  function PageEmail(load: Load): Option<string>
  {
    if load.Loaded? then ExtractEmail(load.body) else None
  }

  /** An email read from a page has the shape of the pattern and comes from a page that
      loaded. */
  lemma PageEmailIsAddress(load: Load)
    requires PageEmail(load).Some?
    ensures load.Loaded? && IsEmailAddress(PageEmail(load).value)
  {
    ExtractedIsEmailAddress(load.body);
  }

  /** A browser whose pages show what `web` gives for each URL; `events` is everything done
      with it so far. */
  class Session {
    const web: string -> Load
    var events: seq<Event>

    constructor(web: string -> Load)
      ensures this.web == web && events == []
    {
      this.web := web;
      events := [];
    }

    /** `context.new_page()`. */
    method OpenPage(tab: Tab)
      modifies this
      ensures events == old(events) + [Opened(tab)]
    {
      events := events + [Opened(tab)];
    }

    /** `page.goto(url)` and the read of the rendered body. */
    method Visit(tab: Tab, url: string) returns (load: Load)
      modifies this
      ensures load == web(url)
      ensures events == old(events) + [Navigated(tab, url)]
    {
      load := web(url);
      events := events + [Navigated(tab, url)];
    }

    /** `page.close()`. */
    method ClosePage(tab: Tab)
      modifies this
      ensures events == old(events) + [Closed(tab)]
    {
      events := events + [Closed(tab)];
    }
  }
}
