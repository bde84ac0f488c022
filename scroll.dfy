/** `scroll_to_load_more` of `escrape.py`: scroll the results panel until enough listings are
    shown, the count stalls after one re-check, a scroll fails, or the scroll budget runs out. */
module Scroll {
  import opened Wrappers

  /** What the page answers: whether the results panel is there, the n-th listing count taken,
      and the result of the n-th scroll; `None` is an evaluation that raised. */
  datatype Feed = Feed(panel: Option<bool>, count: nat -> Option<nat>, scroll: nat -> Option<bool>)

  /** One pass of the loop: the count taken, the count taken again after a stall, and whether
      the pass ended by scrolling. */
  datatype Round = Round(count: nat, recheck: Option<nat>, scrolled: bool)

  datatype ScrollEnd = NoPanel | Reached | Stalled | ScrollFailed | Exhausted | Crashed

  /** How the loop ended and its completed passes; a pass cut short by an exception is not
      among them. */
  datatype ScrollRun = ScrollRun(end: ScrollEnd, rounds: seq<Round>)

  /** The default of `max_scrolls`. */
  const DefaultMaxScrolls := 10

  /** The count a pass leaves in `previous_count` when it scrolls. */
  function Seen(r: Round): nat
  {
    if r.recheck.Some? then r.recheck.value else r.count
  }

  /** `previous_count` when pass `k` starts, if the loop started with `prev`. */
  function Baseline(prev: nat, rounds: seq<Round>, k: nat): nat
    requires k <= |rounds|
  {
    if k == 0 then prev else Seen(rounds[k - 1])
  }

  /** The number of scrolls performed. */
  function Scrolls(rounds: seq<Round>): (n: nat)
    ensures n <= |rounds|
  {
    if rounds == [] then 0 else (if rounds[0].scrolled then 1 else 0) + Scrolls(rounds[1..])
  }

  /** The loop from a state with `previous_count == prev` and `scroll_count == scrolls`,
      after `q` counts have been taken. */
  function ScrollFrom(feed: Feed, required: int, maxScrolls: int, prev: nat, scrolls: nat, q: nat)
    : ScrollRun
    decreases maxScrolls - scrolls
  {
    if scrolls >= maxScrolls then ScrollRun(Exhausted, [])
    else match feed.count(q)
      case None => ScrollRun(Crashed, [])
      case Some(c) =>
        if c >= required then ScrollRun(Reached, [Round(c, None, false)])
        else
          var again := if c == prev then feed.count(q + 1) else None;
          if c == prev && again.None? then ScrollRun(Crashed, [])
          else if c == prev && again.value == prev then ScrollRun(Stalled, [Round(c, again, false)])
          else
            var next := if c == prev then q + 2 else q + 1;
            match feed.scroll(scrolls)
            case None => ScrollRun(Crashed, [])
            case Some(false) => ScrollRun(ScrollFailed, [Round(c, again, false)])
            case Some(true) =>
              var rest := ScrollFrom(feed, required, maxScrolls, Seen(Round(c, again, true)), scrolls + 1, next);
              ScrollRun(rest.end, [Round(c, again, true)] + rest.rounds)
  }

  /** `scroll_to_load_more(page, required_items, max_scrolls)`. */
  function ScrollLoad(feed: Feed, required: int, maxScrolls: int): ScrollRun
  {
    match feed.panel
    case None => ScrollRun(Crashed, [])
    case Some(false) => ScrollRun(NoPanel, [])
    case Some(true) => ScrollFrom(feed, required, maxScrolls, 0, 0, 0)
  }

  /** Whether the loop goes on after the pass starting in this state, and with which state. */
  predicate Continues(feed: Feed, required: int, maxScrolls: int, prev: nat, scrolls: nat, q: nat)
  {
    && scrolls < maxScrolls && feed.count(q).Some? && feed.count(q).value < required
    && (feed.count(q).value == prev ==> feed.count(q + 1).Some? && feed.count(q + 1).value != prev)
    && feed.scroll(scrolls) == Some(true)
  }

  function FirstRound(feed: Feed, prev: nat, q: nat): Round
    requires feed.count(q).Some?
  {
    var c := feed.count(q).value;
    Round(c, if c == prev then feed.count(q + 1) else None, true)
  }

  function NextQ(feed: Feed, prev: nat, q: nat): nat
    requires feed.count(q).Some?
  {
    if feed.count(q).value == prev then q + 2 else q + 1
  }

  /** A pass that scrolls is followed by the rest of the loop; any other pass is the last. */
  lemma ScrollStep(feed: Feed, required: int, maxScrolls: int, prev: nat, scrolls: nat, q: nat)
    ensures var r := ScrollFrom(feed, required, maxScrolls, prev, scrolls, q);
      if Continues(feed, required, maxScrolls, prev, scrolls, q) then
        var first := FirstRound(feed, prev, q);
        var rest := ScrollFrom(feed, required, maxScrolls, Seen(first), scrolls + 1, NextQ(feed, prev, q));
        r.rounds == [first] + rest.rounds && r.end == rest.end
        && first.count < required
        && (first.recheck.Some? <==> first.count == prev)
        && (first.recheck.Some? ==> first.recheck.value != prev)
      else
        |r.rounds| <= 1 && r.end != NoPanel
        && (r.end == Exhausted <==> scrolls >= maxScrolls)
        && (r.rounds == [] <==> r.end == Exhausted || r.end == Crashed)
        && (|r.rounds| == 1 ==>
              !r.rounds[0].scrolled && r.rounds[0].count == feed.count(q).value
              && (r.rounds[0].count >= required <==> r.end == Reached)
              && (r.rounds[0].recheck.Some? <==> r.rounds[0].count < required && r.rounds[0].count == prev)
              && (r.end == Stalled <==> r.rounds[0].recheck == Some(prev)))
  {
  }

  /** Only the last pass may end without scrolling; a loop that ends on a scroll ran out of
      budget or raised; and a panel that was found is never reported missing. */
  lemma {:induction false} ScrollShape(feed: Feed, required: int, maxScrolls: int,
                                       prev: nat, scrolls: nat, q: nat)
    decreases maxScrolls - scrolls
    ensures var r := ScrollFrom(feed, required, maxScrolls, prev, scrolls, q);
      var rs := r.rounds;
      && (forall k :: 0 <= k < |rs| - 1 ==> rs[k].scrolled)
      && (|rs| > 0 && rs[|rs| - 1].scrolled ==> r.end == Exhausted || r.end == Crashed)
      && (r.end == ScrollFailed || r.end == Reached || r.end == Stalled ==> |rs| > 0 && !rs[|rs| - 1].scrolled)
      && r.end != NoPanel
  {
    ScrollStep(feed, required, maxScrolls, prev, scrolls, q);
    if Continues(feed, required, maxScrolls, prev, scrolls, q) {
      var first := FirstRound(feed, prev, q);
      ScrollShape(feed, required, maxScrolls, Seen(first), scrolls + 1, NextQ(feed, prev, q));
    }
  }

  /** A count at or above the target is the last count taken and ends the loop as reached;
      every earlier count is below the target. */
  lemma {:induction false} ScrollStopsAtTarget(feed: Feed, required: int, maxScrolls: int,
                                               prev: nat, scrolls: nat, q: nat)
    decreases maxScrolls - scrolls
    ensures var r := ScrollFrom(feed, required, maxScrolls, prev, scrolls, q);
      var rs := r.rounds;
      forall k :: 0 <= k < |rs| ==> (rs[k].count >= required <==> k == |rs| - 1 && r.end == Reached)
  {
    ScrollStep(feed, required, maxScrolls, prev, scrolls, q);
    if Continues(feed, required, maxScrolls, prev, scrolls, q) {
      var first := FirstRound(feed, prev, q);
      ScrollStopsAtTarget(feed, required, maxScrolls, Seen(first), scrolls + 1, NextQ(feed, prev, q));
    }
  }

  /** Putting a pass in front shifts the baselines of the later passes by one. */
  lemma BaselineShift(prev: nat, first: Round, rest: seq<Round>, k: nat)
    requires 1 <= k <= |rest| + 1
    ensures Baseline(prev, [first] + rest, k) == Baseline(Seen(first), rest, k - 1)
  {
    if k > 1 {
      assert ([first] + rest)[k - 1] == rest[k - 2];
    }
  }

  /** A count below the target that equals `previous_count` is taken again exactly once, and
      only such a count is. */
  lemma {:induction false} ScrollRechecksOnStall(feed: Feed, required: int, maxScrolls: int,
                                                 prev: nat, scrolls: nat, q: nat)
    decreases maxScrolls - scrolls
    ensures var rs := ScrollFrom(feed, required, maxScrolls, prev, scrolls, q).rounds;
      forall k :: 0 <= k < |rs| ==>
        (rs[k].recheck.Some? <==> rs[k].count < required && rs[k].count == Baseline(prev, rs, k))
  {
    var rs := ScrollFrom(feed, required, maxScrolls, prev, scrolls, q).rounds;
    ScrollStep(feed, required, maxScrolls, prev, scrolls, q);
    if Continues(feed, required, maxScrolls, prev, scrolls, q) {
      var first := FirstRound(feed, prev, q);
      var rest := ScrollFrom(feed, required, maxScrolls, Seen(first), scrolls + 1, NextQ(feed, prev, q)).rounds;
      ScrollRechecksOnStall(feed, required, maxScrolls, Seen(first), scrolls + 1, NextQ(feed, prev, q));
      forall k | 1 <= k < |rs|
        ensures rs[k].recheck.Some? <==> rs[k].count < required && rs[k].count == Baseline(prev, rs, k)
      {
        BaselineShift(prev, first, rest, k);
        assert rs[k] == rest[k - 1];
      }
    }
  }

  /** The loop stops as stalled exactly when the last pass re-counted and found
      `previous_count` again. */
  lemma {:induction false} StallEndsOnRecheck(feed: Feed, required: int, maxScrolls: int,
                                              prev: nat, scrolls: nat, q: nat)
    decreases maxScrolls - scrolls
    ensures var r := ScrollFrom(feed, required, maxScrolls, prev, scrolls, q);
      var rs := r.rounds;
      r.end == Stalled <==> |rs| > 0 && rs[|rs| - 1].recheck == Some(Baseline(prev, rs, |rs| - 1))
  {
    var r := ScrollFrom(feed, required, maxScrolls, prev, scrolls, q);
    ScrollStep(feed, required, maxScrolls, prev, scrolls, q);
    if Continues(feed, required, maxScrolls, prev, scrolls, q) {
      var first := FirstRound(feed, prev, q);
      var rest := ScrollFrom(feed, required, maxScrolls, Seen(first), scrolls + 1, NextQ(feed, prev, q));
      StallEndsOnRecheck(feed, required, maxScrolls, Seen(first), scrolls + 1, NextQ(feed, prev, q));
      if |rest.rounds| > 0 {
        BaselineShift(prev, first, rest.rounds, |r.rounds| - 1);
        assert r.rounds[|r.rounds| - 1] == rest.rounds[|rest.rounds| - 1];
      }
    }
  }

  /** The loop never scrolls more than `max_scrolls` times, and it ends by exhausting the
      budget only after using all of it. */
  lemma {:induction false} ScrollWithinBudget(feed: Feed, required: int, maxScrolls: int,
                                              prev: nat, scrolls: nat, q: nat)
    decreases maxScrolls - scrolls
    ensures var r := ScrollFrom(feed, required, maxScrolls, prev, scrolls, q);
      && scrolls + Scrolls(r.rounds) <= (if maxScrolls > scrolls then maxScrolls else scrolls)
      && (r.end == Exhausted ==> scrolls + Scrolls(r.rounds) >= maxScrolls)
  {
    var r := ScrollFrom(feed, required, maxScrolls, prev, scrolls, q);
    ScrollStep(feed, required, maxScrolls, prev, scrolls, q);
    if Continues(feed, required, maxScrolls, prev, scrolls, q) {
      var first := FirstRound(feed, prev, q);
      ScrollWithinBudget(feed, required, maxScrolls, Seen(first), scrolls + 1, NextQ(feed, prev, q));
      assert r.rounds[1..] == ScrollFrom(feed, required, maxScrolls, Seen(first), scrolls + 1, NextQ(feed, prev, q)).rounds;
    }
  }

  /** The loop as the source writes it, with its variables: a pass that stalls waits and
      counts once more; `previous_count` takes the last count before each scroll. */
  method ScrollToLoadMore(feed: Feed, required: int, maxScrolls: int) returns (run: ScrollRun)
    ensures run == ScrollLoad(feed, required, maxScrolls)
  {
    match feed.panel {
      case None =>
        return ScrollRun(Crashed, []);
      case Some(false) =>
        return ScrollRun(NoPanel, []);
      case Some(true) =>
    }
    var previousCount: nat := 0;
    var scrollCount: nat := 0;
    var q: nat := 0;
    var done: seq<Round> := [];
    while scrollCount < maxScrolls
      invariant ScrollLoad(feed, required, maxScrolls).end
                == ScrollFrom(feed, required, maxScrolls, previousCount, scrollCount, q).end
      invariant ScrollLoad(feed, required, maxScrolls).rounds
                == done + ScrollFrom(feed, required, maxScrolls, previousCount, scrollCount, q).rounds
      decreases maxScrolls - scrollCount
    {
      var current := feed.count(q);
      q := q + 1;
      if current.None? {
        return ScrollRun(Crashed, done);
      }
      var c := current.value;
      if c >= required {
        return ScrollRun(Reached, done + [Round(c, None, false)]);
      }
      var recheck: Option<nat> := None;
      if c == previousCount {
        recheck := feed.count(q);
        q := q + 1;
        if recheck.None? {
          return ScrollRun(Crashed, done);
        }
        if recheck.value == previousCount {
          return ScrollRun(Stalled, done + [Round(c, recheck, false)]);
        }
      }
      previousCount := Seen(Round(c, recheck, true));
      var scrolled := feed.scroll(scrollCount);
      if scrolled.None? {
        return ScrollRun(Crashed, done);
      }
      if !scrolled.value {
        return ScrollRun(ScrollFailed, done + [Round(c, recheck, false)]);
      }
      done := done + [Round(c, recheck, true)];
      scrollCount := scrollCount + 1;
    }
    return ScrollRun(Exhausted, done);
  }

  /** The loop's rules from its start (`previous_count = 0`, no scrolls yet): a missing panel
      ends it before any count; otherwise at most `max_scrolls` scrolls, a stop at the first
      count reaching the target, and one re-check per stall. */
  lemma ScrollLoadRules(feed: Feed, required: int, maxScrolls: int)
    ensures var r := ScrollLoad(feed, required, maxScrolls);
      var rs := r.rounds;
      && (feed.panel != Some(true) ==> rs == [])
      && (r.end == NoPanel <==> feed.panel == Some(false))
      && Scrolls(rs) <= (if maxScrolls > 0 then maxScrolls else 0)
      && (forall k :: 0 <= k < |rs| - 1 ==> rs[k].scrolled)
      && (forall k :: 0 <= k < |rs| ==> (rs[k].count >= required <==> k == |rs| - 1 && r.end == Reached))
      && (forall k :: 0 <= k < |rs| ==>
            (rs[k].recheck.Some? <==> rs[k].count < required && rs[k].count == Baseline(0, rs, k)))
      && (r.end == Stalled <==> |rs| > 0 && rs[|rs| - 1].recheck == Some(Baseline(0, rs, |rs| - 1)))
  {
    if feed.panel == Some(true) {
      ScrollShape(feed, required, maxScrolls, 0, 0, 0);
      ScrollStopsAtTarget(feed, required, maxScrolls, 0, 0, 0);
      ScrollRechecksOnStall(feed, required, maxScrolls, 0, 0, 0);
      StallEndsOnRecheck(feed, required, maxScrolls, 0, 0, 0);
      ScrollWithinBudget(feed, required, maxScrolls, 0, 0, 0);
    }
  }

  /** The re-check result is not compared with the target: a stall whose second count already
      reaches it still scrolls once more before the loop stops. */
  lemma RecheckAtTargetStillScrolls()
    ensures var feed := Feed(Some(true), n => if n == 0 then Some(0) else Some(7), n => Some(true));
            ScrollLoad(feed, 5, DefaultMaxScrolls)
            == ScrollRun(Reached, [Round(0, Some(7), true), Round(7, None, false)])
  {
    var feed := Feed(Some(true), n => if n == 0 then Some(0) else Some(7), n => Some(true));
    assert ScrollFrom(feed, 5, 10, 7, 1, 2) == ScrollRun(Reached, [Round(7, None, false)]);
  }
}
