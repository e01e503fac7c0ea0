/**
 * The issue collector: its construction from a configuration, and one
 * collection, which pages through the repository's issues, fills the seven
 * tables and then sends one sample per table entry.
 */
module Collector {
  import opened Wrappers
  import opened Tracker
  import opened Tallies
  import opened Metrics

  /** The logger the collector is given; what it logs is not modelled. */
  datatype Logger = Logger

  /** The configuration: a client and a logger, each possibly missing, and the label selectors. */
  datatype IssueConfig = IssueConfig(githubClient: Option<Client>, logger: Option<Logger>, customLabels: seq<string>)

  /** The error returned for a configuration that lacks a dependency. */
  datatype ConfigError = InvalidConfig(message: string)

  /** A constructed collector. */
  datatype IssueCollector = IssueCollector(githubClient: Client, logger: Logger, customLabels: seq<string>)

  const MissingClientMessage: string := "collector.IssueConfig.GithubClient must not be empty"
  const MissingLoggerMessage: string := "collector.IssueConfig.Logger must not be empty"

  /**
   * Construction succeeds exactly when both the client and the logger are
   * given, and then keeps the configuration as it is; a missing client is
   * reported before a missing logger.
   */
  function NewIssue(config: IssueConfig): (r: Result<IssueCollector, ConfigError>)
    ensures r.Success? <==> config.githubClient.Some? && config.logger.Some?
    ensures r.Success? ==>
      && r.value.githubClient == config.githubClient.value
      && r.value.logger == config.logger.value
      && r.value.customLabels == config.customLabels
    ensures config.githubClient.None? ==> r == Failure(InvalidConfig(MissingClientMessage))
    ensures config.githubClient.Some? && config.logger.None? ==> r == Failure(InvalidConfig(MissingLoggerMessage))
  {
    if config.githubClient.None? then Failure(InvalidConfig(MissingClientMessage))
    else if config.logger.None? then Failure(InvalidConfig(MissingLoggerMessage))
    else Success(IssueCollector(config.githubClient.value, config.logger.value, config.customLabels))
  }

  /** Issues fetched before a page and the rest of the listing compose. */
  lemma PrependTwice(seen: seq<Issue>, issues: seq<Issue>, rest: Result<seq<Issue>, string>)
    ensures Prepend(seen, Prepend(issues, rest)) == Prepend(seen + issues, rest)
  {
    if rest.Success? {
      assert seen + (issues + rest.value) == (seen + issues) + rest.value;
    }
  }

  /** A request recorded before the rest of the paging. */
  lemma RecordRequest(before: seq<int>, page: int, rest: seq<int>)
    ensures (before + [page]) + rest == before + ([page] + rest)
  {
  }

  /** Nothing fetched before a result leaves it as it is. */
  lemma PrependNothing(rest: Result<seq<Issue>, string>)
    ensures Prepend([], rest) == rest
  {
    if rest.Success? {
      assert [] + rest.value == rest.value;
    }
  }

  /**
   * One collection. Pages are requested starting at page 1, each next one
   * being the cursor the previous response gave, until a response says there
   * is no next page. A failed request ends the collection with that error and
   * no sample sent. Otherwise the samples are exactly those of the tables
   * that summarise every listed issue, one per entry, and no two share a
   * metric name and label values.
   */
  method Collect(c: IssueCollector) returns (r: Result<seq<Sample>, string>, ghost requested: seq<int>)
    requires exists n :: Reaches(c.githubClient, 1, n)
    ensures requested == AllRequests(c.githubClient)
    ensures r.Failure? <==> AllIssues(c.githubClient).Failure?
    ensures r.Failure? ==> r.error == AllIssues(c.githubClient).error
    ensures r.Success? ==> exists t :: Summarises(t, AllIssues(c.githubClient).value, c.customLabels) && Reports(r.value, t)
  {
    var client := c.githubClient;
    ghost var fuel := Bound(client);
    var page := 1;
    var t := EmptyTables;
    ghost var seen: seq<Issue> := [];
    requested := [];
    EmptyTablesSummariseNothing(c.customLabels);
    PrependNothing(AllIssues(client));
    while true
      invariant Reaches(client, page, fuel)
      invariant Summarises(t, seen, c.customLabels)
      invariant AllIssues(client) == Prepend(seen, FetchFrom(client, page, fuel))
      invariant AllRequests(client) == requested + Requests(client, page, fuel)
      decreases fuel
    {
      RecordRequest(requested, page, Requests(client, page, fuel)[1..]);
      requested := requested + [page];
      match client[page]
      case FetchFailed(e) =>
        return Failure(e), requested;
      case Page(issues, next) =>
        t := RecordPage(t, seen, issues, c.customLabels);
        if next == 0 {
          PrependTwice(seen, issues, Success([]));
          seen := seen + issues;
          break;
        }
        FollowCursor(client, page, fuel);
        PrependTwice(seen, issues, FetchFrom(client, next, fuel - 1));
        seen := seen + issues;
        page := next;
        fuel := fuel - 1;
    }
    TablesShape(t, seen, c.customLabels);
    var samples := Emit(t);
    assert AllIssues(client).value == seen;
    assert Summarises(t, AllIssues(client).value, c.customLabels) && Reports(samples, t);
    r := Success(samples);
  }

  /**
   * Reading a label count back from the samples: the sample for (label,
   * state) is sent exactly when some issue in that state carries the label,
   * and its value is the number of such label entries.
   */
  lemma LabelCountSample(t: Tables, issues: seq<Issue>, name: string, state: string, v: int)
    requires LabelCountAgrees(t.labelCount, issues)
    ensures Sample(LabelCountDesc.fqName, CountLabels(CountKey(name, state)), v) in Expected(t)
        <==> LabelCount(issues, name, state) > 0 && v == LabelCount(issues, name, state)
  {
    var s := Sample(LabelCountDesc.fqName, CountLabels(CountKey(name, state)), v);
    CountSampleByName(t, s);
    if s in Expected(t) {
      assert s in TableSamples(LabelCountDesc.fqName, t.labelCount, CountLabels);
      var k :| k in t.labelCount && s == Sample(LabelCountDesc.fqName, CountLabels(k), t.labelCount[k]);
    }
    if LabelCount(issues, name, state) > 0 && v == LabelCount(issues, name, state) {
      assert s in TableSamples(LabelCountDesc.fqName, t.labelCount, CountLabels);
    }
  }

  /**
   * Reading a selector count back from the samples: the sample for
   * (selector, state) is sent exactly when the selector is configured and
   * some issue in that state matches it, with the selector's count (which
   * counts each match once per listing of the selector).
   */
  lemma SelectorCountSample(t: Tables, issues: seq<Issue>, selectors: seq<string>, selector: string, state: string, v: int)
    requires SelectorCountAgrees(t.labelsCount, issues, selectors)
    ensures Sample(LabelsCountDesc.fqName, CountLabels(CountKey(selector, state)), v) in Expected(t)
        <==> SelectorCount(issues, selectors, selector, state) > 0 && v == SelectorCount(issues, selectors, selector, state)
  {
    var s := Sample(LabelsCountDesc.fqName, CountLabels(CountKey(selector, state)), v);
    CountSampleByName(t, s);
    if s in Expected(t) {
      assert s in TableSamples(LabelsCountDesc.fqName, t.labelsCount, CountLabels);
    }
    if SelectorCount(issues, selectors, selector, state) > 0 && v == SelectorCount(issues, selectors, selector, state) {
      assert s in TableSamples(LabelsCountDesc.fqName, t.labelsCount, CountLabels);
    }
  }

  /** Reading a state count back from the samples: one sample per state that some issue has, with its issue count. */
  lemma StateCountSample(t: Tables, issues: seq<Issue>, state: string, v: int)
    requires StatesAgree(t.statesCount, issues)
    ensures Sample(StatesCountDesc.fqName, StateLabels(state), v) in Expected(t)
        <==> StateCount(issues, state) > 0 && v == StateCount(issues, state)
  {
    var s := Sample(StatesCountDesc.fqName, StateLabels(state), v);
    CountSampleByName(t, s);
    if s in Expected(t) {
      assert s in TableSamples(StatesCountDesc.fqName, t.statesCount, StateLabels);
    }
    if StateCount(issues, state) > 0 && v == StateCount(issues, state) {
      assert s in TableSamples(StatesCountDesc.fqName, t.statesCount, StateLabels);
    }
  }

  /** In a timestamp table whose keys all carry the closed state, a sample names its entry. */
  lemma TimeTableSample(fqName: string, m: map<TimeKey, int>, key: TimeKey, v: int)
    requires forall k :: k in m ==> k.state == Closed
    requires key.state == Closed
    ensures Sample(fqName, TimeLabels(key), v) in TableSamples(fqName, m, TimeLabels) <==> key in m && v == m[key]
  {
    if Sample(fqName, TimeLabels(key), v) in TableSamples(fqName, m, TimeLabels) {
      var k :| k in m && Sample(fqName, TimeLabels(key), v) == Sample(fqName, TimeLabels(k), m[k]);
      assert TimeLabels(k)[2] == TimeLabels(key)[2] && TimeLabels(k)[3] == TimeLabels(key)[3];
    }
  }

  /**
   * Reading label timestamps back from the samples: for (label, number) the
   * closed-at and created-at samples are sent exactly when a closed issue
   * with that number carries the label, with the times of the last such issue.
   */
  lemma LabelTimeSamples(t: Tables, issues: seq<Issue>, name: string, number: int, v: int)
    requires LabelTimesAgree(t.openLabelSeconds, t.closedLabelSeconds, issues)
    ensures var last := LastTimedUnderLabel(issues, name, number);
      && (Sample(ClosedLabelSecondsDesc.fqName, TimeLabels(TimeKey(name, number, Closed)), v) in Expected(t)
          <==> last.Some? && v == last.value.closedAt)
      && (Sample(OpenLabelSecondsDesc.fqName, TimeLabels(TimeKey(name, number, Closed)), v) in Expected(t)
          <==> last.Some? && v == last.value.createdAt)
  {
    var key := TimeKey(name, number, Closed);
    TimeSampleByName(t, Sample(ClosedLabelSecondsDesc.fqName, TimeLabels(key), v));
    TimeSampleByName(t, Sample(OpenLabelSecondsDesc.fqName, TimeLabels(key), v));
    TimeTableSample(ClosedLabelSecondsDesc.fqName, t.closedLabelSeconds, key, v);
    TimeTableSample(OpenLabelSecondsDesc.fqName, t.openLabelSeconds, key, v);
  }

  /**
   * Reading selector timestamps back from the samples: for (selector,
   * number) the closed-at and created-at samples are sent exactly when a
   * closed issue with that number matches the configured selector, with the
   * times of the last such issue.
   */
  lemma SelectorTimeSamples(t: Tables, issues: seq<Issue>, selectors: seq<string>, selector: string, number: int, v: int)
    requires SelectorTimesAgree(t.openLabelsSeconds, t.closedLabelsSeconds, issues, selectors)
    ensures var last := LastTimedUnderSelector(issues, selectors, selector, number);
      && (Sample(ClosedLabelsSecondsDesc.fqName, TimeLabels(TimeKey(selector, number, Closed)), v) in Expected(t)
          <==> last.Some? && v == last.value.closedAt)
      && (Sample(OpenLabelsSecondsDesc.fqName, TimeLabels(TimeKey(selector, number, Closed)), v) in Expected(t)
          <==> last.Some? && v == last.value.createdAt)
  {
    var key := TimeKey(selector, number, Closed);
    TimeSampleByName(t, Sample(ClosedLabelsSecondsDesc.fqName, TimeLabels(key), v));
    TimeSampleByName(t, Sample(OpenLabelsSecondsDesc.fqName, TimeLabels(key), v));
    TimeTableSample(ClosedLabelsSecondsDesc.fqName, t.closedLabelsSeconds, key, v);
    TimeTableSample(OpenLabelsSecondsDesc.fqName, t.openLabelsSeconds, key, v);
  }
}
