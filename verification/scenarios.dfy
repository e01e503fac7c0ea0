/**
 * Two worked collections: one page with an open issue, a closed issue and a
 * pull request; and a three-page listing whose second page fails.
 */
module Scenarios {
  import opened Wrappers
  import opened Tracker
  import opened Selector
  import opened Tallies

  const Opened: int := 1600000000

  const OpenBug: Issue := Issue(1, "open", ["bug"], false, Opened, 0)
  const ClosedUrgentBug: Issue := Issue(2, Closed, ["bug", "urgent"], false, Opened, Opened + 86400)
  const PullRequest: Issue := Issue(3, "open", ["bug"], true, Opened, 0)

  const OnePage: seq<Issue> := [OpenBug, ClosedUrgentBug, PullRequest]

  /** The page, issue by issue: what each issue adds to the counts and to the last-timed issues. */
  lemma OnePageStepByStep(selectors: seq<string>)
    ensures OnePage == (([] + [OpenBug]) + [ClosedUrgentBug]) + [PullRequest]
    ensures forall name, state ::
      LabelCount(OnePage, name, state)
        == (if OpenBug.state == state then Occurrences(OpenBug.labels, name) else 0)
         + (if ClosedUrgentBug.state == state then Occurrences(ClosedUrgentBug.labels, name) else 0)
    ensures forall selector, state ::
      SelectorCount(OnePage, selectors, selector, state)
        == SelectorHits(OpenBug, selectors, selector, state) + SelectorHits(ClosedUrgentBug, selectors, selector, state)
    ensures forall state ::
      StateCount(OnePage, state) == (if OpenBug.state == state then 1 else 0) + (if ClosedUrgentBug.state == state then 1 else 0)
    ensures forall name, number ::
      LastTimedUnderLabel(OnePage, name, number) == if TimedUnderLabel(ClosedUrgentBug, name, number) then Some(ClosedUrgentBug) else None
  {
    var first := [] + [OpenBug];
    var two := first + [ClosedUrgentBug];
    assert OnePage == two + [PullRequest];
    SeeOneMore([], OpenBug, selectors);
    SeeOneMore(first, ClosedUrgentBug, selectors);
    SeeOneMore(two, PullRequest, selectors);
  }

  /** Counting the names in a label list of one or two entries. */
  lemma LabelListCounts()
    ensures Occurrences(["bug"], "bug") == 1 && Occurrences(["bug"], "urgent") == 0
    ensures Occurrences(["bug", "urgent"], "bug") == 1 && Occurrences(["bug", "urgent"], "urgent") == 1
  {
    assert ["bug"][..0] == [];
    assert ["bug", "urgent"][..1] == ["bug"];
  }

  /** On that page, the open issue and the closed one count under their labels and states; the pull request does not. */
  lemma OnePageLabelCounts()
    ensures LabelCount(OnePage, "bug", "open") == 1
    ensures LabelCount(OnePage, "bug", Closed) == 1
    ensures LabelCount(OnePage, "urgent", Closed) == 1
    ensures LabelCount(OnePage, "urgent", "open") == 0
  {
    OnePageStepByStep([]);
    LabelListCounts();
  }

  /**
   * The closed issue, which carries both labels, is the only match of the
   * selector "bug,urgent". The selector is a parameter fixed by the
   * precondition, so that the proof splits it through `TwoNameSelector`
   * rather than by unfolding `Split` over the literal character by character.
   */
  lemma OnePageSelectorCounts(selector: string)
    requires selector == "bug,urgent"
    ensures SelectorCount(OnePage, [selector], selector, Closed) == 1
    ensures SelectorCount(OnePage, [selector], selector, "open") == 0
  {
    OnePageStepByStep([selector]);
    assert !HasLabels(OpenBug.labels, selector) && HasLabels(ClosedUrgentBug.labels, selector) by {
      assert selector == "bug" + [Separator] + "urgent";
      TwoNameSelector(OpenBug.labels, "bug", "urgent");
      TwoNameSelector(ClosedUrgentBug.labels, "bug", "urgent");
    }
    assert Occurrences([selector], selector) == 1 by {
      assert [selector][..0] == [];
    }
  }

  /** One issue per state, and only the closed issue is timed, under its own number. */
  lemma OnePageStatesAndTimes()
    ensures StateCount(OnePage, "open") == 1
    ensures StateCount(OnePage, Closed) == 1
    ensures LastTimedUnderLabel(OnePage, "bug", 2) == Some(ClosedUrgentBug)
    ensures LastTimedUnderLabel(OnePage, "urgent", 2) == Some(ClosedUrgentBug)
    ensures LastTimedUnderLabel(OnePage, "bug", 1).None?
    ensures LastTimedUnderLabel(OnePage, "bug", 3).None?
  {
    OnePageStepByStep([]);
  }

  /** Three pages, of which the second fails. */
  const FailingListing: Client := map[
    1 := Page([OpenBug], 2),
    2 := FetchFailed("502 Bad Gateway"),
    3 := Page([ClosedUrgentBug], 0)]

  /**
   * The listing stops at the failing page: pages 1 and 2 are requested,
   * page 3 never is, and the collection yields the error rather than the
   * issues of page 1.
   */
  lemma FailureOnSecondPage()
    ensures Reaches(FailingListing, 1, 2)
    ensures AllRequests(FailingListing) == [1, 2]
    ensures AllIssues(FailingListing) == Failure("502 Bad Gateway")
  {
    assert Reaches(FailingListing, 2, 1);
    assert Reaches(FailingListing, 1, 2);
    FuelIrrelevant(FailingListing, 1, 2, Bound(FailingListing));
  }
}
