/** `main` of `main33_efnt4.py`: the choice of search terms and of `total`, and for each term
    the per-listing loop that appends a `Business` only when its whole extraction succeeded,
    saved under a stem made from the term. */
module Main33Scrape {
  import opened Wrappers
  import opened SeqFacts
  import opened Text
  import opened UrlShape
  import opened Filenames
  import opened Browser
  import opened ContactSweep
  import Discovery
  import opened OnePageDiscovery
  import opened Records
  import opened Listings
  import EscrapeScrape

  /** The email search this script calls, its own `search_email_on_website` on a website. */
  function OnePageSearch(web: string -> Load): string -> Outcome
  {
    site => DiscoverOnePage(web, site, ContactPaths).outcome
  }

  /** The per-listing `try`: the click, the field reads, then the website step with no IP
      probe; `None` when anything raised, in which case nothing is appended. */
  function KeepListing(l: Listing, search: string -> Outcome): Option<Business>
  {
    if !l.clicks then None
    else
      var d := ReadDetails(l);
      if !d.complete then None
      else
        var a := EscrapeScrape.WebsiteStep(d.record, true, search);
        if a.raised then None else Some(a.record)
  }

  /** A kept record has every field read, coordinates included, and carries an email only
      when its website, given its scheme, passed the URL check and the search found that
      address. */
  lemma KeptRecordIsComplete(l: Listing, search: string -> Outcome)
    requires KeepListing(l, search).Some?
    ensures var b := KeepListing(l, search).value;
            && l.clicks
            && b.name == l.name && b.address == l.address && b.phoneNumber == l.phone
            && b.name.Some? && b.address.Some? && b.website.Some? && b.phoneNumber.Some?
            && b.latitude.Some? && b.longitude.Some?
            && (b.email.Some? ==>
                  && HasScheme(b.website.value) && IsValidUrl(b.website.value)
                  && search(b.website.value) == Found(b.email.value))
  {
    var d := ReadDetails(l);
    ReadDetailsFacts(l);
    EscrapeScrape.WebsiteStepFacts(d.record, true, search);
  }

  /** A listing whose search raises is dropped, even though its reads all succeeded. */
  lemma RaisingSearchDropsListing(l: Listing, search: string -> Outcome)
    requires l.clicks && ReadDetails(l).complete
    requires ReadDetails(l).record.website.value != ""
    requires IsValidUrl(NormalizeWebsite(ReadDetails(l).record.website.value))
    requires search(NormalizeWebsite(ReadDetails(l).record.website.value)) == Raised
    ensures KeepListing(l, search) == None
  {
  }

  /** The rows a listing's `try` appends: its record, or none when it raised. */
  function Row(kept: Option<Business>): seq<Business>
  {
    if kept.Some? then [kept.value] else []
  }

  /** Listings whose extraction raised leave no record; the others keep theirs, in order. */
  function Kept(listings: seq<Listing>, search: string -> Outcome): seq<Business>
  {
    if listings == [] then []
    else Row(KeepListing(listings[0], search)) + Kept(listings[1..], search)
  }

  /** Whether each listing's `try` completes, so that its record is appended. */
  function Completed(listings: seq<Listing>, search: string -> Outcome): (flags: seq<bool>)
    ensures |flags| == |listings|
  {
    seq(|listings|, k requires 0 <= k < |listings| => KeepListing(listings[k], search).Some?)
  }

  /** The records kept from `listings[from..]` are those of the listings at the completed
      positions, one each and in order. */
  lemma {:induction false} KeptAtIndices(listings: seq<Listing>, search: string -> Outcome, from: nat)
    requires from <= |listings|
    decreases |listings| - from
    ensures var idx := TruePositions(Completed(listings, search), from);
            var kept := Kept(listings[from..], search);
            && |kept| == |idx|
            && (forall j :: 0 <= j < |idx| ==>
                  KeepListing(listings[idx[j]], search).Some?
                  && kept[j] == KeepListing(listings[idx[j]], search).value)
  {
    if from < |listings| {
      KeptAtIndices(listings, search, from + 1);
      var flags := Completed(listings, search);
      var rest := TruePositions(flags, from + 1);
      var keptRest := Kept(listings[from + 1..], search);
      assert listings[from..][0] == listings[from];
      assert listings[from..][1..] == listings[from + 1..];
      var kept := Kept(listings[from..], search);
      assert kept == Row(KeepListing(listings[from], search)) + keptRest;
      assert flags[from] == KeepListing(listings[from], search).Some?;
      if flags[from] {
        var idx := [from] + rest;
        assert TruePositions(flags, from) == idx;
        forall j | 0 <= j < |idx|
          ensures KeepListing(listings[idx[j]], search).Some?
          ensures kept[j] == KeepListing(listings[idx[j]], search).value
        {
          if j > 0 {
            assert kept[j] == keptRest[j - 1];
            assert idx[j] == rest[j - 1];
          }
        }
      }
    }
  }

  /** The positions of the listings whose `try` completes. */
  function KeptIndices(listings: seq<Listing>, search: string -> Outcome): (idx: seq<nat>)
    ensures forall j :: 0 <= j < |idx| ==> idx[j] < |listings|
  {
    TruePositions(Completed(listings, search), 0)
  }

  /** The kept records are exactly those of the listings whose `try` completes, in the
      listings' order: a strictly increasing sequence of positions holds every such listing
      and no other, and the j-th kept record is the record of the listing at its j-th entry.
      A listing that raised costs only its own row. */
  lemma KeptComesFromListings(listings: seq<Listing>, search: string -> Outcome)
    ensures var idx := KeptIndices(listings, search);
            var kept := Kept(listings, search);
            && |kept| == |idx| <= |listings|
            && (forall i, j :: 0 <= i < j < |idx| ==> idx[i] < idx[j])
            && (forall k :: 0 <= k < |listings| ==> (k in idx <==> KeepListing(listings[k], search).Some?))
            && (forall j :: 0 <= j < |idx| ==> kept[j] == KeepListing(listings[idx[j]], search).value)
  {
    TruePositionsIncrease(Completed(listings, search), 0);
    TruePositionsExact(Completed(listings, search), 0);
    KeptAtIndices(listings, search, 0);
    assert listings[0..] == listings;
    KeptLength(listings, search);
  }

  lemma {:induction false} KeptLength(listings: seq<Listing>, search: string -> Outcome)
    ensures |Kept(listings, search)| <= |listings|
  {
    if listings != [] {
      KeptLength(listings[1..], search);
    }
  }

  /** When no listing raises, every listing has its record, in order. */
  lemma {:induction false} NothingDroppedWithoutFailures(listings: seq<Listing>, search: string -> Outcome)
    requires forall k :: 0 <= k < |listings| ==> KeepListing(listings[k], search).Some?
    ensures |Kept(listings, search)| == |listings|
    ensures forall k :: 0 <= k < |listings| ==>
              Kept(listings, search)[k] == KeepListing(listings[k], search).value
  {
    if listings != [] {
      assert forall k :: 0 <= k < |listings[1..]| ==> listings[1..][k] == listings[k + 1];
      NothingDroppedWithoutFailures(listings[1..], search);
    }
  }

  lemma {:induction false} KeptAppend(ls: seq<Listing>, l: Listing, search: string -> Outcome)
    ensures Kept(ls + [l], search) == Kept(ls, search) + Row(KeepListing(l, search))
  {
    if ls == [] {
      assert ls + [l] == [l];
      assert [l][1..] == [];
    } else {
      assert (ls + [l])[1..] == ls[1..] + [l];
      assert (ls + [l])[0] == ls[0];
      KeptAppend(ls[1..], l, search);
    }
  }

  lemma KeptPrefixStep(listings: seq<Listing>, i: nat, search: string -> Outcome)
    requires i < |listings|
    ensures Kept(listings[..i + 1], search) == Kept(listings[..i], search) + Row(KeepListing(listings[i], search))
  {
    assert listings[..i + 1] == listings[..i] + [listings[i]];
    KeptAppend(listings[..i], listings[i], search);
  }

  /** One listing's `try`: its record is appended at the end of the block, so a listing that
      raised adds nothing. */
  method TryListing(list: BusinessList, l: Listing, search: string -> Outcome)
    modifies list
    ensures list.records == old(list.records) + Row(KeepListing(l, search))
  {
    var kept := KeepListing(l, search);
    if kept.Some? {
      list.Append(kept.value);
    }
  }

  /** The per-listing loop: a listing's record is appended at the end of its `try` block,
      so a listing that raised adds nothing. */
  method CollectCompleted(list: BusinessList, listings: seq<Listing>, search: string -> Outcome)
    modifies list
    ensures list.records == old(list.records) + Kept(listings, search)
  {
    var i := 0;
    while i < |listings|
      invariant 0 <= i <= |listings|
      invariant list.records == old(list.records) + Kept(listings[..i], search)
    {
      TryListing(list, listings[i], search);
      KeptPrefixStep(listings, i, search);
      i := i + 1;
    }
    assert listings[..i] == listings;
  }

  /** For a listing whose IP probe would succeed, the two scripts agree on every row this one
      keeps: the `escrape.py` loop gives the same record and does not raise. */
  lemma EscrapeKeepsWhatThisKeeps(l: Listing, web: string -> Load)
    requires l.probeOk
    requires KeepListing(l, OnePageSearch(web)).Some?
    ensures EscrapeScrape.ExtractListing(l, EscrapeScrape.EmailSearch(web))
            == EscrapeScrape.Attempt(KeepListing(l, OnePageSearch(web)).value, false)
  {
    var d := ReadDetails(l);
    var site := d.record.website.value;
    if site != "" {
      var n := NormalizeWebsite(site);
      VariantsAgree(web, n, ContactPaths);
    }
  }

  /** When every listing's IP probe would succeed and no listing raises here, this loop keeps
      the very records of the corrected `escrape.py` loop, and the `escrape.py` loop as written
      gives them too, without raising. */
  lemma {:induction false} SameRecordsAsEscrape(listings: seq<Listing>, web: string -> Load)
    requires forall k :: 0 <= k < |listings| ==>
               listings[k].probeOk && KeepListing(listings[k], OnePageSearch(web)).Some?
    ensures Kept(listings, OnePageSearch(web)) == EscrapeScrape.Collected(listings, EscrapeScrape.EmailSearch(web))
    ensures EscrapeScrape.CollectedAsWritten(listings, EscrapeScrape.EmailSearch(web), None)
            == Success(Kept(listings, OnePageSearch(web)))
  {
    if listings != [] {
      assert forall k :: 0 <= k < |listings[1..]| ==> listings[1..][k] == listings[k + 1];
      SameRecordsAsEscrape(listings[1..], web);
      EscrapeKeepsWhatThisKeeps(listings[0], web);
    }
    assert forall k :: 0 <= k < |listings| ==> listings[k].clicks;
    EscrapeScrape.AsWrittenAgreesWhenClicksSucceed(listings, EscrapeScrape.EmailSearch(web), None);
  }

  /** `args.total if args.total else 1_000_000`: a missing or zero total means one million. */
  function EffectiveTotal(arg: Option<int>): (total: int)
    ensures total != 0
    ensures arg.None? || arg.value == 0 ==> total == 1_000_000
    ensures arg.Some? && arg.value != 0 ==> total == arg.value
  {
    if arg.None? || arg.value == 0 then 1_000_000 else arg.value
  }

  /** The search terms: the `--search` argument when it is non-empty, otherwise the lines of
      `input.txt` (`[]` when there is no such file); `None` is the exit when there are none. */
  function SearchTerms(search: Option<string>, inputLines: seq<string>): (terms: Option<seq<string>>)
    ensures search.Some? && search.value != "" ==> terms == Some([search.value])
    ensures (search.None? || search.value == "") ==>
              (terms.None? <==> inputLines == []) && (terms.Some? ==> terms.value == inputLines)
  {
    if search.Some? && search.value != "" then Some([search.value])
    else if inputLines == [] then None
    else Some(inputLines)
  }

  /** What the browser gives for one search term: whether the hover over the first result
      succeeds, and the listings loaded. */
  datatype ResultsPage = ResultsPage(hoverOk: bool, loaded: seq<Listing>)

  /** One saved output: the file stem and the rows written under it. */
  datatype SavedFile = SavedFile(stem: string, records: seq<Business>)

  /** The loop over search terms: the files saved, in order, and whether a failed hover
      raised out of `main`, leaving the later terms unsearched. */
  datatype TermsRun = TermsRun(saved: seq<SavedFile>, crashed: bool)

  /** The file saved for one term: the stem made from the term, and the kept records of the
      first `total` listings loaded for it. */
  function TermFile(term: string, total: int, page: ResultsPage, search: string -> Outcome): SavedFile
  {
    SavedFile(SearchTermStem(term), Kept(Slice(page.loaded, total), search))
  }

  /** `TermFile` for every term, with the results page the browser gives for it. */
  function TermFiles(total: int, pages: string -> ResultsPage, search: string -> Outcome): string -> SavedFile
  {
    term => TermFile(term, total, pages(term), search)
  }

  /** The run over `terms[i..]` after the files `saved` were written, where `fileOf(term)`
      is what the search for `term` saves once its hover succeeded. */
  function RunFrom(terms: seq<string>, i: nat, pages: string -> ResultsPage,
                   fileOf: string -> SavedFile, saved: seq<SavedFile>): TermsRun
    requires i <= |terms|
    decreases |terms| - i
  {
    if i == |terms| then TermsRun(saved, false)
    else if !pages(terms[i]).hoverOk then TermsRun(saved, true)
    else RunFrom(terms, i + 1, pages, fileOf, saved + [fileOf(terms[i])])
  }

  /** The files already written stay first. Without a crash every term from `i` on adds its
      file; a crash comes from the hover of the first term left unsaved. */
  lemma {:induction false} RunFromShape(terms: seq<string>, i: nat, pages: string -> ResultsPage,
                                        fileOf: string -> SavedFile, saved: seq<SavedFile>)
    requires i <= |terms|
    ensures var r := RunFrom(terms, i, pages, fileOf, saved);
            && |saved| <= |r.saved| <= |saved| + |terms| - i
            && r.saved[..|saved|] == saved
            && (!r.crashed <==> |r.saved| == |saved| + |terms| - i)
            && (r.crashed ==> !pages(terms[i + |r.saved| - |saved|]).hoverOk)
    decreases |terms| - i
  {
    if i < |terms| && pages(terms[i]).hoverOk {
      var next := saved + [fileOf(terms[i])];
      RunFromShape(terms, i + 1, pages, fileOf, next);
      var r := RunFrom(terms, i, pages, fileOf, saved);
      assert r.saved[..|saved|] == r.saved[..|next|][..|saved|];
    }
  }

  /** Each file written from `i` on is the one of the term in the same position. */
  lemma {:induction false} RunFromFileAt(terms: seq<string>, i: nat, pages: string -> ResultsPage,
                                         fileOf: string -> SavedFile, saved: seq<SavedFile>, k: nat)
    requires i <= |terms|
    requires |saved| <= k < |RunFrom(terms, i, pages, fileOf, saved).saved|
    ensures i + k - |saved| < |terms|
    ensures RunFrom(terms, i, pages, fileOf, saved).saved[k] == fileOf(terms[i + k - |saved|])
    decreases |terms| - i
  {
    var next := saved + [fileOf(terms[i])];
    RunFromShape(terms, i + 1, pages, fileOf, next);
    var r := RunFrom(terms, i, pages, fileOf, saved);
    if k == |saved| {
      assert r.saved[k] == r.saved[..|next|][k] == next[k];
    } else {
      RunFromFileAt(terms, i + 1, pages, fileOf, next, k);
    }
  }

  /** The k-th file saved is the k-th term's. */
  lemma SavedInTermOrder(terms: seq<string>, pages: string -> ResultsPage, fileOf: string -> SavedFile)
    ensures forall k :: 0 <= k < |RunFrom(terms, 0, pages, fileOf, []).saved| ==>
              k < |terms| && RunFrom(terms, 0, pages, fileOf, []).saved[k] == fileOf(terms[k])
  {
    var r := RunFrom(terms, 0, pages, fileOf, []);
    RunFromShape(terms, 0, pages, fileOf, []);
    forall k | 0 <= k < |r.saved|
      ensures k < |terms| && r.saved[k] == fileOf(terms[k])
    {
      RunFromFileAt(terms, 0, pages, fileOf, [], k);
    }
  }

  /** A term's file is under the term's stem, and has at most `total` rows when `total` is
      not negative. */
  lemma TermFileWithinTotal(term: string, total: int, page: ResultsPage, search: string -> Outcome)
    ensures TermFile(term, total, page, search).stem == SearchTermStem(term)
    ensures total >= 0 ==> |TermFile(term, total, page, search).records| <= total
  {
    SliceAtMostTotal(page.loaded, total);
    KeptComesFromListings(Slice(page.loaded, total), search);
  }

  /** The k-th file `main` saves is the k-th term's: under its stem, with the kept records of
      the first `total` listings loaded for it. */
  lemma SavedFilesAreTermFiles(terms: seq<string>, total: int, pages: string -> ResultsPage,
                               search: string -> Outcome)
    ensures var r := RunFrom(terms, 0, pages, TermFiles(total, pages, search), []);
            forall k :: 0 <= k < |r.saved| ==>
              k < |terms| && r.saved[k] == TermFile(terms[k], total, pages(terms[k]), search)
  {
    var fileOf := TermFiles(total, pages, search);
    var r := RunFrom(terms, 0, pages, fileOf, []);
    SavedInTermOrder(terms, pages, fileOf);
    RunFromShape(terms, 0, pages, fileOf, []);
    forall k | 0 <= k < |r.saved|
      ensures k < |terms| && r.saved[k] == TermFile(terms[k], total, pages(terms[k]), search)
    {
      assert k < |terms|;
      assert r.saved[k] == fileOf(terms[k]);
    }
  }

  /** One term's search once the hover succeeded: the per-listing loop over the first
      `total` listings into a fresh list, saved under the term's stem. */
  method SearchTerm(term: string, total: int, pages: string -> ResultsPage, search: string -> Outcome)
    returns (file: SavedFile)
    ensures file == TermFiles(total, pages, search)(term)
  {
    var listings := Slice(pages(term).loaded, total);
    var list := new BusinessList();
    CollectCompleted(list, listings, search);
    file := SavedFile(SearchTermStem(term), list.records);
  }

  /** The loop over the search terms, saving one file per term into `saved`. */
  method RunSearches(terms: seq<string>, total: int, pages: string -> ResultsPage, search: string -> Outcome)
    returns (saved: seq<SavedFile>, crashed: bool)
    ensures TermsRun(saved, crashed) == RunFrom(terms, 0, pages, TermFiles(total, pages, search), [])
  {
    ghost var fileOf := TermFiles(total, pages, search);
    saved := [];
    crashed := false;
    var i := 0;
    while i < |terms|
      invariant 0 <= i <= |terms|
      invariant RunFrom(terms, i, pages, fileOf, saved) == RunFrom(terms, 0, pages, fileOf, [])
    {
      if !pages(terms[i]).hoverOk {
        crashed := true;
        return;
      }
      var file := SearchTerm(terms[i], total, pages, search);
      saved := saved + [file];
      i := i + 1;
    }
  }

  /** How `main` ends: the exit for want of search terms, or the run over the terms. */
  datatype MainEnd = NoSearchTerms | Searched(run: TermsRun)

  /** What `main` does with its arguments, the lines of `input.txt`, and the browser. */
  function MainRun(search: Option<string>, totalArg: Option<int>, inputLines: seq<string>,
                pages: string -> ResultsPage, web: string -> Load): MainEnd
  {
    match SearchTerms(search, inputLines)
    case None => NoSearchTerms
    case Some(terms) =>
      var total := EffectiveTotal(totalArg);
      Searched(RunFrom(terms, 0, pages, TermFiles(total, pages, OnePageSearch(web)), []))
  }

  /** `main`: picks the terms and the total, then runs the searches. */
  method RunMain(search: Option<string>, totalArg: Option<int>, inputLines: seq<string>,
                 pages: string -> ResultsPage, web: string -> Load) returns (end: MainEnd)
    ensures end == MainRun(search, totalArg, inputLines, pages, web)
  {
    var terms := SearchTerms(search, inputLines);
    if terms.None? {
      return NoSearchTerms;
    }
    var total := EffectiveTotal(totalArg);
    var saved, crashed := RunSearches(terms.value, total, pages, OnePageSearch(web));
    return Searched(TermsRun(saved, crashed));
  }

  /** With a non-empty `--search` argument, the one file saved is under that term's stem. */
  lemma SearchArgumentWins(search: string, totalArg: Option<int>, inputLines: seq<string>,
                           pages: string -> ResultsPage, web: string -> Load)
    requires search != ""
    ensures var end := MainRun(Some(search), totalArg, inputLines, pages, web);
            && end.Searched?
            && |end.run.saved| <= 1
            && (pages(search).hoverOk <==>
                  end.run.saved == [TermFile(search, EffectiveTotal(totalArg), pages(search), OnePageSearch(web))])
  {
    var fileOf := TermFiles(EffectiveTotal(totalArg), pages, OnePageSearch(web));
    RunFromShape([search], 0, pages, fileOf, []);
    SavedInTermOrder([search], pages, fileOf);
  }
}
