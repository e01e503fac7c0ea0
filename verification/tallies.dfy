/**
 * The seven tables the collector fills in one pass over the listed issues,
 * the counts they must hold, and the per-issue update that fills them.
 */
module Tallies {
  import opened Wrappers
  import opened Tracker
  import opened Selector

  /** Key of a count table: a label name (or selector) and an issue state. */
  datatype CountKey = CountKey(name: string, state: string)

  /** Key of a timestamp table: a label name (or selector), an issue number and an issue state. */
  datatype TimeKey = TimeKey(name: string, number: int, state: string)

  /**
   * The collector's tables: issues per (label, state), issues per
   * (selector, state), created-at and closed-at seconds per (label, number,
   * state) and per (selector, number, state), and issues per state.
   */
  datatype Tables = Tables(
    labelCount: map<CountKey, nat>,
    labelsCount: map<CountKey, nat>,
    openLabelSeconds: map<TimeKey, int>,
    closedLabelSeconds: map<TimeKey, int>,
    openLabelsSeconds: map<TimeKey, int>,
    closedLabelsSeconds: map<TimeKey, int>,
    statesCount: map<string, nat>)

  /** The tables at the start of every collection. */
  const EmptyTables: Tables := Tables(map[], map[], map[], map[], map[], map[], map[])

  /** A count table's entry, zero when the key is missing (a Go map read). */
  function CountOf<K>(m: map<K, nat>, k: K): nat
  {
    if k in m then m[k] else 0
  }

  // ---------------------------------------------------------------------------
  // What the tables must hold, as functions of the issues seen so far
  // ---------------------------------------------------------------------------

  /** How often `x` occurs in `xs`. */
  function Occurrences(xs: seq<string>, x: string): (n: nat)
    ensures n <= |xs|
    ensures n == 0 <==> x !in xs
  {
    if |xs| == 0 then 0
    else
      assert xs == xs[..|xs| - 1] + [xs[|xs| - 1]];
      Occurrences(xs[..|xs| - 1], x) + (if xs[|xs| - 1] == x then 1 else 0)
  }

  /** The number of labels named `name` on issues (not pull requests) in `state`. */
  ghost function LabelCount(issues: seq<Issue>, name: string, state: string): (n: nat)
    ensures n == 0 <==> forall k :: 0 <= k < |issues| ==>
      issues[k].isPullRequest || issues[k].state != state || name !in issues[k].labels
  {
    if |issues| == 0 then 0
    else
      var i := issues[|issues| - 1];
      LabelCount(issues[..|issues| - 1], name, state)
        + (if !i.isPullRequest && i.state == state then Occurrences(i.labels, name) else 0)
  }

  /** What one issue adds to the count of `selector` in `state`: one per entry of the selector list. */
  ghost function SelectorHits(i: Issue, selectors: seq<string>, selector: string, state: string): nat
  {
    if !i.isPullRequest && i.state == state && HasLabels(i.labels, selector) then Occurrences(selectors, selector) else 0
  }

  /** The count of `selector` in `state`: what every issue adds. */
  ghost function SelectorCount(issues: seq<Issue>, selectors: seq<string>, selector: string, state: string): nat
  {
    if |issues| == 0 then 0
    else SelectorCount(issues[..|issues| - 1], selectors, selector, state) + SelectorHits(issues[|issues| - 1], selectors, selector, state)
  }

  /** The number of issues (not pull requests) in `state` that match `selector`. */
  ghost function MatchCount(issues: seq<Issue>, selector: string, state: string): nat
  {
    if |issues| == 0 then 0
    else
      var i := issues[|issues| - 1];
      MatchCount(issues[..|issues| - 1], selector, state)
        + (if !i.isPullRequest && i.state == state && HasLabels(i.labels, selector) then 1 else 0)
  }

  /** The number of issues (not pull requests) in `state`. */
  ghost function StateCount(issues: seq<Issue>, state: string): (n: nat)
    ensures n <= |issues|
    ensures n == 0 <==> forall k :: 0 <= k < |issues| ==> issues[k].isPullRequest || issues[k].state != state
  {
    if |issues| == 0 then 0
    else
      var i := issues[|issues| - 1];
      StateCount(issues[..|issues| - 1], state) + (if !i.isPullRequest && i.state == state then 1 else 0)
  }

  /** Issue `i` is timed under `name` and `number`: a closed issue, not a pull request, with that number and label. */
  ghost predicate TimedUnderLabel(i: Issue, name: string, number: int)
  {
    !i.isPullRequest && i.state == Closed && i.number == number && name in i.labels
  }

  /** Issue `i` is timed under `selector` and `number`: a closed issue, not a pull request, with that number, matching a configured selector. */
  ghost predicate TimedUnderSelector(i: Issue, selectors: seq<string>, selector: string, number: int)
  {
    !i.isPullRequest && i.state == Closed && i.number == number && selector in selectors && HasLabels(i.labels, selector)
  }

  /** The last issue timed under `name` and `number`: later issues overwrite earlier ones. */
  ghost function LastTimedUnderLabel(issues: seq<Issue>, name: string, number: int): (r: Option<Issue>)
    ensures r.None? <==> forall k :: 0 <= k < |issues| ==> !TimedUnderLabel(issues[k], name, number)
    ensures r.Some? ==> exists k :: (0 <= k < |issues| && issues[k] == r.value && TimedUnderLabel(r.value, name, number)
      && forall j :: k < j < |issues| ==> !TimedUnderLabel(issues[j], name, number))
  {
    if |issues| == 0 then None
    else if TimedUnderLabel(issues[|issues| - 1], name, number) then Some(issues[|issues| - 1])
    else
      var r := LastTimedUnderLabel(issues[..|issues| - 1], name, number);
      assert forall k :: 0 <= k < |issues| - 1 ==> issues[..|issues| - 1][k] == issues[k];
      r
  }

  /** The last issue timed under `selector` and `number`: later issues overwrite earlier ones. */
  ghost function LastTimedUnderSelector(issues: seq<Issue>, selectors: seq<string>, selector: string, number: int): (r: Option<Issue>)
    ensures r.None? <==> forall k :: 0 <= k < |issues| ==> !TimedUnderSelector(issues[k], selectors, selector, number)
    ensures r.Some? ==> exists k :: (0 <= k < |issues| && issues[k] == r.value && TimedUnderSelector(r.value, selectors, selector, number)
      && forall j :: k < j < |issues| ==> !TimedUnderSelector(issues[j], selectors, selector, number))
  {
    if |issues| == 0 then None
    else if TimedUnderSelector(issues[|issues| - 1], selectors, selector, number) then Some(issues[|issues| - 1])
    else
      var r := LastTimedUnderSelector(issues[..|issues| - 1], selectors, selector, number);
      assert forall k :: 0 <= k < |issues| - 1 ==> issues[..|issues| - 1][k] == issues[k];
      r
  }

  // ---------------------------------------------------------------------------
  // Agreement of the tables with the issues seen
  // ---------------------------------------------------------------------------

  /** The per-label count table holds exactly the nonzero label counts. */
  ghost predicate LabelCountAgrees(m: map<CountKey, nat>, issues: seq<Issue>)
  {
    forall k :: (k in m <==> LabelCount(issues, k.name, k.state) > 0)
      && (k in m ==> m[k] == LabelCount(issues, k.name, k.state))
  }

  /** The per-label timestamp tables hold the times of the last closed issue for each (label, number). */
  ghost predicate LabelTimesAgree(open: map<TimeKey, int>, closed: map<TimeKey, int>, issues: seq<Issue>)
  {
    forall k :: (k in open <==> k.state == Closed && LastTimedUnderLabel(issues, k.name, k.number).Some?)
      && (k in closed <==> k in open)
      && (k in open ==> open[k] == LastTimedUnderLabel(issues, k.name, k.number).value.createdAt)
      && (k in closed ==> closed[k] == LastTimedUnderLabel(issues, k.name, k.number).value.closedAt)
  }

  /** The per-selector count table holds exactly the nonzero selector counts. */
  ghost predicate SelectorCountAgrees(m: map<CountKey, nat>, issues: seq<Issue>, selectors: seq<string>)
  {
    forall k :: (k in m <==> SelectorCount(issues, selectors, k.name, k.state) > 0)
      && (k in m ==> m[k] == SelectorCount(issues, selectors, k.name, k.state))
  }

  /** The per-selector timestamp tables hold the times of the last closed issue for each (selector, number). */
  ghost predicate SelectorTimesAgree(open: map<TimeKey, int>, closed: map<TimeKey, int>, issues: seq<Issue>, selectors: seq<string>)
  {
    forall k :: (k in open <==> k.state == Closed && LastTimedUnderSelector(issues, selectors, k.name, k.number).Some?)
      && (k in closed <==> k in open)
      && (k in open ==> open[k] == LastTimedUnderSelector(issues, selectors, k.name, k.number).value.createdAt)
      && (k in closed ==> closed[k] == LastTimedUnderSelector(issues, selectors, k.name, k.number).value.closedAt)
  }

  /** The per-state table holds exactly the nonzero state counts. */
  ghost predicate StatesAgree(m: map<string, nat>, issues: seq<Issue>)
  {
    forall s :: (s in m <==> StateCount(issues, s) > 0) && (s in m ==> m[s] == StateCount(issues, s))
  }

  /** All seven tables agree with the issues seen, under the configured selectors. */
  ghost predicate Summarises(t: Tables, issues: seq<Issue>, selectors: seq<string>)
  {
    && LabelCountAgrees(t.labelCount, issues)
    && LabelTimesAgree(t.openLabelSeconds, t.closedLabelSeconds, issues)
    && SelectorCountAgrees(t.labelsCount, issues, selectors)
    && SelectorTimesAgree(t.openLabelsSeconds, t.closedLabelsSeconds, issues, selectors)
    && StatesAgree(t.statesCount, issues)
  }

  /** Seeing one more issue changes every count and every last-timed issue by that issue's own contribution. */
  lemma SeeOneMore(issues: seq<Issue>, i: Issue, selectors: seq<string>)
    ensures forall name, state ::
              LabelCount(issues + [i], name, state)
                == LabelCount(issues, name, state) + (if !i.isPullRequest && i.state == state then Occurrences(i.labels, name) else 0)
    ensures forall selector, state ::
              SelectorCount(issues + [i], selectors, selector, state)
                == SelectorCount(issues, selectors, selector, state) + SelectorHits(i, selectors, selector, state)
    ensures forall selector, state ::
              MatchCount(issues + [i], selector, state)
                == MatchCount(issues, selector, state) + (if !i.isPullRequest && i.state == state && HasLabels(i.labels, selector) then 1 else 0)
    ensures forall state ::
              StateCount(issues + [i], state) == StateCount(issues, state) + (if !i.isPullRequest && i.state == state then 1 else 0)
    ensures forall name, number ::
              LastTimedUnderLabel(issues + [i], name, number)
                == if TimedUnderLabel(i, name, number) then Some(i) else LastTimedUnderLabel(issues, name, number)
    ensures forall selector, number ::
              LastTimedUnderSelector(issues + [i], selectors, selector, number)
                == if TimedUnderSelector(i, selectors, selector, number) then Some(i) else LastTimedUnderSelector(issues, selectors, selector, number)
  {
    assert (issues + [i])[..|issues|] == issues;
  }

  /** Counting in one more element. */
  lemma OccurrencesStep(xs: seq<string>, j: nat)
    requires j < |xs|
    ensures forall x :: Occurrences(xs[..j + 1], x) == Occurrences(xs[..j], x) + (if xs[j] == x then 1 else 0)
    ensures forall x :: x in xs[..j + 1] <==> x in xs[..j] || x == xs[j]
  {
    assert xs[..j + 1] == xs[..j] + [xs[j]];
    assert xs[..j + 1][..j] == xs[..j];
  }

  // ---------------------------------------------------------------------------
  // The per-issue update
  // ---------------------------------------------------------------------------

  /** What the labels `issue.labels[..j]` have added to the count under `k`. */
  ghost function PendingLabels(issue: Issue, j: nat, k: CountKey): nat
    requires j <= |issue.labels|
  {
    if k.state == issue.state then Occurrences(issue.labels[..j], k.name) else 0
  }

  /** The labels `issue.labels[..j]` have recorded the closed issue's times under `k`. */
  ghost predicate TimedByLabels(issue: Issue, j: nat, k: TimeKey)
    requires j <= |issue.labels|
  {
    issue.state == Closed && k.number == issue.number && k.name in issue.labels[..j]
  }

  /** The label count table after the first `j` labels of `issue`. */
  ghost predicate LabelCountsSoFar(m: map<CountKey, nat>, seen: seq<Issue>, issue: Issue, j: nat)
    requires j <= |issue.labels|
  {
    forall k ::
      && (k in m <==> LabelCount(seen, k.name, k.state) + PendingLabels(issue, j, k) > 0)
      && (k in m ==> m[k] == LabelCount(seen, k.name, k.state) + PendingLabels(issue, j, k))
  }

  /** The label timestamp tables after the first `j` labels of `issue`. */
  ghost predicate LabelTimesSoFar(open: map<TimeKey, int>, closed: map<TimeKey, int>, seen: seq<Issue>, issue: Issue, j: nat)
    requires j <= |issue.labels|
  {
    forall k ::
      && (k in open <==> k.state == Closed && (LastTimedUnderLabel(seen, k.name, k.number).Some? || TimedByLabels(issue, j, k)))
      && (k in closed <==> k in open)
      && (k in open ==> open[k] == if TimedByLabels(issue, j, k) then issue.createdAt
                                   else LastTimedUnderLabel(seen, k.name, k.number).value.createdAt)
      && (k in closed ==> closed[k] == if TimedByLabels(issue, j, k) then issue.closedAt
                                       else LastTimedUnderLabel(seen, k.name, k.number).value.closedAt)
  }

  lemma LabelCountStep(m: map<CountKey, nat>, seen: seq<Issue>, issue: Issue, j: nat)
    requires j < |issue.labels| && LabelCountsSoFar(m, seen, issue, j)
    ensures var key := CountKey(issue.labels[j], issue.state);
      LabelCountsSoFar(m[key := CountOf(m, key) + 1], seen, issue, j + 1)
  {
    OccurrencesStep(issue.labels, j);
  }

  lemma LabelTimesStep(open: map<TimeKey, int>, closed: map<TimeKey, int>, seen: seq<Issue>, issue: Issue, j: nat)
    requires j < |issue.labels| && LabelTimesSoFar(open, closed, seen, issue, j)
    ensures issue.state != Closed ==> LabelTimesSoFar(open, closed, seen, issue, j + 1)
    ensures issue.state == Closed ==>
      var key := TimeKey(issue.labels[j], issue.number, issue.state);
      LabelTimesSoFar(open[key := issue.createdAt], closed[key := issue.closedAt], seen, issue, j + 1)
  {
    OccurrencesStep(issue.labels, j);
  }

  /**
   * The loop over one issue's labels: each label entry adds one to the count
   * under (label, state), and for a closed issue sets the created-at and
   * closed-at seconds under (label, number, state).
   */
  method RecordLabels(
    labelCount: map<CountKey, nat>, open: map<TimeKey, int>, closed: map<TimeKey, int>,
    ghost seen: seq<Issue>, issue: Issue)
    returns (labelCount': map<CountKey, nat>, open': map<TimeKey, int>, closed': map<TimeKey, int>)
    requires !issue.isPullRequest
    requires LabelCountAgrees(labelCount, seen) && LabelTimesAgree(open, closed, seen)
    ensures LabelCountAgrees(labelCount', seen + [issue]) && LabelTimesAgree(open', closed', seen + [issue])
  {
    labelCount', open', closed' := labelCount, open, closed;
    var labels := issue.labels;
    for j := 0 to |labels|
      invariant LabelCountsSoFar(labelCount', seen, issue, j)
      invariant LabelTimesSoFar(open', closed', seen, issue, j)
    {
      LabelCountStep(labelCount', seen, issue, j);
      LabelTimesStep(open', closed', seen, issue, j);
      var key := CountKey(labels[j], issue.state);
      labelCount' := labelCount'[key := CountOf(labelCount', key) + 1];
      if issue.state == Closed {
        var timeKey := TimeKey(labels[j], issue.number, issue.state);
        open' := open'[timeKey := issue.createdAt];
        closed' := closed'[timeKey := issue.closedAt];
      }
    }
    assert labels[..|labels|] == labels;
    SeeOneMore(seen, issue, []);
  }

  /** The selector count table after the first `j` configured selectors. */
  ghost predicate SelectorCountsSoFar(m: map<CountKey, nat>, seen: seq<Issue>, issue: Issue, selectors: seq<string>, j: nat)
    requires j <= |selectors|
  {
    forall k ::
      && (k in m <==> SelectorCount(seen, selectors, k.name, k.state) + SelectorHits(issue, selectors[..j], k.name, k.state) > 0)
      && (k in m ==> m[k] == SelectorCount(seen, selectors, k.name, k.state) + SelectorHits(issue, selectors[..j], k.name, k.state))
  }

  /** The selector timestamp tables after the first `j` configured selectors. */
  ghost predicate SelectorTimesSoFar(open: map<TimeKey, int>, closed: map<TimeKey, int>, seen: seq<Issue>, issue: Issue, selectors: seq<string>, j: nat)
    requires j <= |selectors|
  {
    forall k ::
      && (k in open <==> k.state == Closed
                         && (LastTimedUnderSelector(seen, selectors, k.name, k.number).Some?
                             || TimedUnderSelector(issue, selectors[..j], k.name, k.number)))
      && (k in closed <==> k in open)
      && (k in open ==> open[k] == if TimedUnderSelector(issue, selectors[..j], k.name, k.number) then issue.createdAt
                                   else LastTimedUnderSelector(seen, selectors, k.name, k.number).value.createdAt)
      && (k in closed ==> closed[k] == if TimedUnderSelector(issue, selectors[..j], k.name, k.number) then issue.closedAt
                                       else LastTimedUnderSelector(seen, selectors, k.name, k.number).value.closedAt)
  }

  lemma SelectorCountStep(m: map<CountKey, nat>, seen: seq<Issue>, issue: Issue, selectors: seq<string>, j: nat)
    requires !issue.isPullRequest
    requires j < |selectors| && SelectorCountsSoFar(m, seen, issue, selectors, j)
    ensures !HasLabels(issue.labels, selectors[j]) ==> SelectorCountsSoFar(m, seen, issue, selectors, j + 1)
    ensures HasLabels(issue.labels, selectors[j]) ==>
      var key := CountKey(selectors[j], issue.state);
      SelectorCountsSoFar(m[key := CountOf(m, key) + 1], seen, issue, selectors, j + 1)
  {
    OccurrencesStep(selectors, j);
  }

  lemma SelectorTimesStep(open: map<TimeKey, int>, closed: map<TimeKey, int>, seen: seq<Issue>, issue: Issue, selectors: seq<string>, j: nat)
    requires !issue.isPullRequest
    requires j < |selectors| && SelectorTimesSoFar(open, closed, seen, issue, selectors, j)
    ensures !(HasLabels(issue.labels, selectors[j]) && issue.state == Closed) ==>
      SelectorTimesSoFar(open, closed, seen, issue, selectors, j + 1)
    ensures HasLabels(issue.labels, selectors[j]) && issue.state == Closed ==>
      var key := TimeKey(selectors[j], issue.number, issue.state);
      SelectorTimesSoFar(open[key := issue.createdAt], closed[key := issue.closedAt], seen, issue, selectors, j + 1)
  {
    OccurrencesStep(selectors, j);
  }

  /**
   * The loop over the configured selectors for one issue: each selector the
   * issue matches adds one to the count under (selector, state), and for a
   * closed issue sets the created-at and closed-at seconds under
   * (selector, number, state).
   */
  method RecordSelectors(
    labelsCount: map<CountKey, nat>, open: map<TimeKey, int>, closed: map<TimeKey, int>,
    ghost seen: seq<Issue>, issue: Issue, selectors: seq<string>)
    returns (labelsCount': map<CountKey, nat>, open': map<TimeKey, int>, closed': map<TimeKey, int>)
    requires !issue.isPullRequest
    requires SelectorCountAgrees(labelsCount, seen, selectors) && SelectorTimesAgree(open, closed, seen, selectors)
    ensures SelectorCountAgrees(labelsCount', seen + [issue], selectors) && SelectorTimesAgree(open', closed', seen + [issue], selectors)
  {
    labelsCount', open', closed' := labelsCount, open, closed;
    for j := 0 to |selectors|
      invariant SelectorCountsSoFar(labelsCount', seen, issue, selectors, j)
      invariant SelectorTimesSoFar(open', closed', seen, issue, selectors, j)
    {
      SelectorCountStep(labelsCount', seen, issue, selectors, j);
      SelectorTimesStep(open', closed', seen, issue, selectors, j);
      var selector := selectors[j];
      var matched := MatchSelector(issue.labels, selector);
      if !matched {
        continue;
      }
      var key := CountKey(selector, issue.state);
      labelsCount' := labelsCount'[key := CountOf(labelsCount', key) + 1];
      if issue.state == Closed {
        var timeKey := TimeKey(selector, issue.number, issue.state);
        open' := open'[timeKey := issue.createdAt];
        closed' := closed'[timeKey := issue.closedAt];
      }
    }
    assert selectors[..|selectors|] == selectors;
    SeeOneMore(seen, issue, selectors);
  }

  /**
   * The body of the loop over one page's issues, for an issue that is not a
   * pull request: its labels, then the configured selectors, then its state.
   */
  method RecordIssue(t: Tables, ghost seen: seq<Issue>, issue: Issue, selectors: seq<string>) returns (t': Tables)
    requires !issue.isPullRequest
    requires Summarises(t, seen, selectors)
    ensures Summarises(t', seen + [issue], selectors)
  {
    var labelCount, openLabel, closedLabel :=
      RecordLabels(t.labelCount, t.openLabelSeconds, t.closedLabelSeconds, seen, issue);
    var labelsCount, openLabels, closedLabels :=
      RecordSelectors(t.labelsCount, t.openLabelsSeconds, t.closedLabelsSeconds, seen, issue, selectors);
    var statesCount := t.statesCount[issue.state := CountOf(t.statesCount, issue.state) + 1];
    SeeOneMore(seen, issue, selectors);
    t' := Tables(labelCount, labelsCount, openLabel, closedLabel, openLabels, closedLabels, statesCount);
  }

  /** A pull request leaves all seven tables as they are. */
  lemma PullRequestLeavesTables(t: Tables, seen: seq<Issue>, pr: Issue, selectors: seq<string>)
    requires pr.isPullRequest
    requires Summarises(t, seen, selectors)
    ensures Summarises(t, seen + [pr], selectors)
  {
    SeeOneMore(seen, pr, selectors);
  }

  /** The loop over one page's issues: pull requests are skipped, every other issue is recorded. */
  method RecordPage(t: Tables, ghost seen: seq<Issue>, issues: seq<Issue>, selectors: seq<string>) returns (t': Tables)
    requires Summarises(t, seen, selectors)
    ensures Summarises(t', seen + issues, selectors)
  {
    t' := t;
    assert seen + issues[..0] == seen;
    for j := 0 to |issues|
      invariant Summarises(t', seen + issues[..j], selectors)
    {
      var issue := issues[j];
      assert seen + issues[..j + 1] == (seen + issues[..j]) + [issue];
      if issue.isPullRequest {
        PullRequestLeavesTables(t', seen + issues[..j], issue, selectors);
        continue;
      }
      t' := RecordIssue(t', seen + issues[..j], issue, selectors);
    }
    assert issues[..|issues|] == issues;
  }

  // ---------------------------------------------------------------------------
  // Properties of the tables
  // ---------------------------------------------------------------------------

  /** No issues, empty tables. */
  lemma EmptyTablesSummariseNothing(selectors: seq<string>)
    ensures Summarises(EmptyTables, [], selectors)
  {
  }

  /** The issues seen determine the tables: collecting the same issues twice gives the same tables. */
  lemma SummaryIsUnique(t: Tables, u: Tables, issues: seq<Issue>, selectors: seq<string>)
    requires Summarises(t, issues, selectors) && Summarises(u, issues, selectors)
    ensures t == u
  {
    LabelCountIsUnique(t.labelCount, u.labelCount, issues);
    LabelTimesAreUnique(t.openLabelSeconds, t.closedLabelSeconds, u.openLabelSeconds, u.closedLabelSeconds, issues);
    SelectorCountIsUnique(t.labelsCount, u.labelsCount, issues, selectors);
    SelectorTimesAreUnique(t.openLabelsSeconds, t.closedLabelsSeconds, u.openLabelsSeconds, u.closedLabelsSeconds, issues, selectors);
    StatesTableIsUnique(t.statesCount, u.statesCount, issues);
  }

  lemma LabelCountIsUnique(m: map<CountKey, nat>, n: map<CountKey, nat>, issues: seq<Issue>)
    requires LabelCountAgrees(m, issues) && LabelCountAgrees(n, issues)
    ensures m == n
  {
  }

  lemma LabelTimesAreUnique(open: map<TimeKey, int>, closed: map<TimeKey, int>,
                            open': map<TimeKey, int>, closed': map<TimeKey, int>, issues: seq<Issue>)
    requires LabelTimesAgree(open, closed, issues) && LabelTimesAgree(open', closed', issues)
    ensures open == open' && closed == closed'
  {
  }

  lemma SelectorCountIsUnique(m: map<CountKey, nat>, n: map<CountKey, nat>, issues: seq<Issue>, selectors: seq<string>)
    requires SelectorCountAgrees(m, issues, selectors) && SelectorCountAgrees(n, issues, selectors)
    ensures m == n
  {
  }

  lemma SelectorTimesAreUnique(open: map<TimeKey, int>, closed: map<TimeKey, int>,
                               open': map<TimeKey, int>, closed': map<TimeKey, int>, issues: seq<Issue>, selectors: seq<string>)
    requires SelectorTimesAgree(open, closed, issues, selectors) && SelectorTimesAgree(open', closed', issues, selectors)
    ensures open == open' && closed == closed'
  {
  }

  lemma StatesTableIsUnique(m: map<string, nat>, n: map<string, nat>, issues: seq<Issue>)
    requires StatesAgree(m, issues) && StatesAgree(n, issues)
    ensures m == n
  {
  }

  /**
   * Timestamp entries exist only for closed issues, selector entries only for
   * configured selectors, and every count entry is at least one.
   */
  lemma TablesShape(t: Tables, issues: seq<Issue>, selectors: seq<string>)
    requires Summarises(t, issues, selectors)
    ensures forall k :: k in t.openLabelSeconds ==> k.state == Closed
    ensures forall k :: k in t.closedLabelSeconds ==> k.state == Closed
    ensures forall k :: k in t.openLabelsSeconds ==> k.state == Closed && k.name in selectors
    ensures forall k :: k in t.closedLabelsSeconds ==> k.state == Closed && k.name in selectors
    ensures forall k :: k in t.labelCount ==> t.labelCount[k] >= 1
    ensures forall k :: k in t.labelsCount ==> t.labelsCount[k] >= 1 && k.name in selectors
    ensures forall s :: s in t.statesCount ==> t.statesCount[s] >= 1
  {
    forall k | k in t.labelsCount ensures k.name in selectors {
      SelectorCountPerListing(issues, selectors, k.name, k.state);
    }
    forall k | k in t.openLabelsSeconds ensures k.name in selectors {
      var r := LastTimedUnderSelector(issues, selectors, k.name, k.number);
    }
  }

  /** The issues that are not pull requests, in order: each kept as often as it occurs, and nothing else. */
  function WithoutPullRequests(issues: seq<Issue>): (r: seq<Issue>)
    ensures |r| <= |issues|
    ensures forall k :: 0 <= k < |r| ==> !r[k].isPullRequest
    ensures forall x :: multiset(r)[x] == if x.isPullRequest then 0 else multiset(issues)[x]
  {
    if |issues| == 0 then []
    else
      assert issues == issues[..|issues| - 1] + [issues[|issues| - 1]];
      var rest := WithoutPullRequests(issues[..|issues| - 1]);
      if issues[|issues| - 1].isPullRequest then rest else rest + [issues[|issues| - 1]]
  }

  /** Pull requests count nowhere: dropping them changes no count and no timestamp. */
  lemma {:induction false} PullRequestsCountNowhere(issues: seq<Issue>, selectors: seq<string>)
    ensures forall name, state :: LabelCount(WithoutPullRequests(issues), name, state) == LabelCount(issues, name, state)
    ensures forall selector, state ::
              SelectorCount(WithoutPullRequests(issues), selectors, selector, state) == SelectorCount(issues, selectors, selector, state)
    ensures forall state :: StateCount(WithoutPullRequests(issues), state) == StateCount(issues, state)
    ensures forall name, number :: LastTimedUnderLabel(WithoutPullRequests(issues), name, number) == LastTimedUnderLabel(issues, name, number)
    ensures forall selector, number ::
              LastTimedUnderSelector(WithoutPullRequests(issues), selectors, selector, number)
                == LastTimedUnderSelector(issues, selectors, selector, number)
  {
    if |issues| > 0 {
      var init, last := issues[..|issues| - 1], issues[|issues| - 1];
      assert issues == init + [last];
      PullRequestsCountNowhere(init, selectors);
      SeeOneMore(init, last, selectors);
      if !last.isPullRequest {
        SeeOneMore(WithoutPullRequests(init), last, selectors);
      }
    }
  }

  /**
   * A selector listed several times is counted once per listing: the
   * selector's count is its number of listings times the number of matching
   * issues.
   */
  lemma {:induction false} SelectorCountPerListing(issues: seq<Issue>, selectors: seq<string>, selector: string, state: string)
    ensures SelectorCount(issues, selectors, selector, state) == Occurrences(selectors, selector) * MatchCount(issues, selector, state)
  {
    if |issues| > 0 {
      SelectorCountPerListing(issues[..|issues| - 1], selectors, selector, state);
      var m := MatchCount(issues[..|issues| - 1], selector, state);
      var o := Occurrences(selectors, selector);
      assert o * m + o == o * (m + 1);
    }
  }

  /** So with each selector listed once, a listed selector counts the matching issues. */
  lemma SelectorCountOfListedSelector(issues: seq<Issue>, selectors: seq<string>, selector: string, state: string)
    requires selector in selectors
    requires forall a, b :: 0 <= a < b < |selectors| ==> selectors[a] != selectors[b]
    ensures SelectorCount(issues, selectors, selector, state) == MatchCount(issues, selector, state)
  {
    SelectorCountPerListing(issues, selectors, selector, state);
    OccurrencesOfDistinct(selectors, selector);
  }

  lemma {:induction false} OccurrencesOfDistinct(xs: seq<string>, x: string)
    requires x in xs
    requires forall a, b :: 0 <= a < b < |xs| ==> xs[a] != xs[b]
    ensures Occurrences(xs, x) == 1
  {
    var init := xs[..|xs| - 1];
    if xs[|xs| - 1] == x {
      assert x !in init;
    } else {
      assert x in init by {
        assert xs == init + [xs[|xs| - 1]];
      }
      OccurrencesOfDistinct(init, x);
    }
  }

  /**
   * An issue without labels changes only the per-state table: it adds to no
   * label or selector count and to no timestamp table.
   */
  lemma UnlabelledIssueCountsOnlyItsState(issues: seq<Issue>, i: Issue, selectors: seq<string>)
    requires !i.isPullRequest && i.labels == []
    ensures forall name, state :: LabelCount(issues + [i], name, state) == LabelCount(issues, name, state)
    ensures forall selector, state :: SelectorCount(issues + [i], selectors, selector, state) == SelectorCount(issues, selectors, selector, state)
    ensures forall name, number :: LastTimedUnderLabel(issues + [i], name, number) == LastTimedUnderLabel(issues, name, number)
    ensures forall selector, number ::
              LastTimedUnderSelector(issues + [i], selectors, selector, number) == LastTimedUnderSelector(issues, selectors, selector, number)
    ensures StateCount(issues + [i], i.state) == StateCount(issues, i.state) + 1
  {
    SeeOneMore(issues, i, selectors);
    forall selector | true ensures !HasLabels(i.labels, selector) {
      UnlabelledMatchesNothing(selector);
    }
  }

  /** Label counts over several pages add up page by page. */
  lemma {:induction false} LabelCountsAddUp(a: seq<Issue>, b: seq<Issue>, name: string, state: string)
    ensures LabelCount(a + b, name, state) == LabelCount(a, name, state) + LabelCount(b, name, state)
    decreases |b|
  {
    if |b| == 0 {
      assert a + b == a;
    } else {
      var init := b[..|b| - 1];
      LabelCountsAddUp(a, init, name, state);
      assert (a + b)[..|a + b| - 1] == a + init;
      assert (a + b)[|a + b| - 1] == b[|b| - 1];
    }
  }

  /** Selector counts over several pages add up page by page. */
  lemma {:induction false} SelectorCountsAddUp(a: seq<Issue>, b: seq<Issue>, selectors: seq<string>, selector: string, state: string)
    ensures SelectorCount(a + b, selectors, selector, state)
      == SelectorCount(a, selectors, selector, state) + SelectorCount(b, selectors, selector, state)
    decreases |b|
  {
    if |b| == 0 {
      assert a + b == a;
    } else {
      var init := b[..|b| - 1];
      SelectorCountsAddUp(a, init, selectors, selector, state);
      assert (a + b)[..|a + b| - 1] == a + init;
      assert (a + b)[|a + b| - 1] == b[|b| - 1];
    }
  }

  /** State counts over several pages add up page by page. */
  lemma {:induction false} StateCountsAddUp(a: seq<Issue>, b: seq<Issue>, state: string)
    ensures StateCount(a + b, state) == StateCount(a, state) + StateCount(b, state)
    decreases |b|
  {
    if |b| == 0 {
      assert a + b == a;
    } else {
      var init := b[..|b| - 1];
      StateCountsAddUp(a, init, state);
      assert (a + b)[..|a + b| - 1] == a + init;
      assert (a + b)[|a + b| - 1] == b[|b| - 1];
    }
  }

  /** When every issue is open or closed, the two state counts together count every issue that is not a pull request. */
  lemma {:induction false} StatesPartitionIssues(issues: seq<Issue>)
    requires forall k :: 0 <= k < |issues| ==> issues[k].state == "open" || issues[k].state == Closed
    ensures StateCount(issues, "open") + StateCount(issues, Closed) == |WithoutPullRequests(issues)|
  {
    if |issues| > 0 {
      StatesPartitionIssues(issues[..|issues| - 1]);
    }
  }
}
