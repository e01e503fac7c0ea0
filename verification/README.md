# Issue collector of the GitHub exporter, modelled in Dafny

The GitHub exporter turns a repository's issues into Prometheus gauges. On
every scrape its issue collector lists the issues of the `giantswarm/giantswarm`
repository page by page and skips pull requests. It fills seven tables:

- issues per (label, state) and per (custom selector, state);
- the created-at and closed-at times of closed issues, per (label, number) and
  per (selector, number);
- issues per state.

It then sends one gauge sample per table entry. A custom selector is a
comma-separated list of label names. An issue matches it when it carries every
named label.

The model follows `service/collector/issue.go`:

| file | module | what it holds |
|---|---|---|
| `wrappers.dfy` | `Wrappers` | `Option` and `Result` |
| `selector.dfy` | `Selector` | Go's `strings.Split` for one separator, the matching rule `HasLabels`, and `MatchSelector`, the collector's nested search loop proved equal to that rule |
| `tracker.dfy` | `Tracker` | The issue record, and the issue listing as a table from page number to response. `FetchFrom`/`Requests` state what paging from page 1 yields and which pages it requests |
| `tallies.dfy` | `Tallies` | The seven tables as one value. The count and last-issue functions that say what every entry must hold (`Summarises`). The per-label, per-selector, per-issue and per-page loops, each proved to keep `Summarises` |
| `metrics.dfy` | `Metrics` | The seven descriptors (`Describe`), samples, and the seven emission loops proved to send exactly one sample per table entry, no two with the same name and label values |
| `collector.dfy` | `Collector` | `NewIssue`; `Collect` (paging loop, aggregation, emission); lemmas that read each kind of sample back as a count or a time over the issues |
| `scenarios.dfy` | `Scenarios` | A page of an open issue, a closed issue and a pull request, worked out. A three-page listing whose second page fails |

The seven Go maps are locals of `Collect`, so they are modelled as one `Tables`
value. The methods of `Tallies` update it in their loops and return it; no
object outlives a collection.

The `Issue` struct is never changed after `NewIssue`, so it is a datatype as well.

Behaviours of the code a reader might not expect, which the model keeps:

- The empty selector is not "never matched". It requires a label with the empty
  name (`Selector.EmptyNamesAreRequired`).
- An issue's labels are a list, not a set. A label name listed twice on one issue
  counts twice under that label.
- A selector configured twice counts each matching issue twice
  (`Tallies.SelectorCountPerListing`).
- There are no duration histograms. The code keeps raw created-at and closed-at
  gauges for closed issues instead.

The label name `labelNumber` is used by four descriptors in
`service/collector/issue.go`. It is not among the constants of
`service/collector/collector.go`. The model gives it the value `"number"`.

## Model

| member | source | states |
|---|---|---|
| Selector.Split | service/collector/issue.go:326 | Go's `strings.Split(selector, ",")`: at least one piece, and no piece contains the separator |
| Selector.SplitThenJoin | service/collector/issue.go:326 | Joining the pieces of a split with the separator gives back the selector, so no character is lost or invented |
| Selector.JoinThenSplit | service/collector/issue.go:326 | Splitting separator-free names joined by the separator gives back exactly those names |
| Selector.SplitTrailingSeparator | service/collector/issue.go:326 | A trailing comma adds one empty piece at the end |
| Selector.MatchSelector | service/collector/issue.go:325-344 | The nested search with its `found` flag and early `return false` answers true exactly when every piece of the split selector is the name of one of the issue's labels |
| Selector.ReorderedSelectorMatchesAlike | service/collector/issue_test.go:65-88 | Two selectors whose pieces are the same multiset match the same issues, so "one,two" and "two,one" agree |
| Selector.UnlabelledMatchesNothing | service/collector/issue.go:326-341 | An issue without labels matches no selector at all, the empty one included |
| Selector.EmptyNamesAreRequired | service/collector/issue.go:326-341 | The empty selector matches exactly when the issue has a label with the empty name, and a trailing comma adds that requirement |
| Selector.SingleNameSelector | service/collector/issue.go:325-344 | A selector naming one label matches exactly the issues carrying that label |
| Selector.TwoNameSelector | service/collector/issue.go:325-344 | A selector naming two labels matches exactly the issues carrying both |
| Selector.MatchingTestCases | service/collector/issue_test.go:41-88 | Test cases 2 to 5: "one", "two", "one,two" and "two,one" match labels one, two, three |
| Selector.NonMatchingTestCases | service/collector/issue_test.go:19-100 | Test cases 0, 1 and 6: "two" does not match label one; "four" and "one,four" do not match labels one, two, three |
| Tracker.Requests | service/collector/issue.go:155-226 | Pages requested from a page on: the first is that page, each next is the previous response's `NextPage`, only the last fails or has `NextPage == 0`, and the last one does |
| Tracker.FollowCursor | service/collector/issue.go:217-226 | A page with a nonzero `NextPage` contributes its own request and issues, then paging continues at `NextPage` |
| Tracker.FetchFollowsRequests | service/collector/issue.go:155-226 | Paging fails exactly when the last requested page fails, with that page's error; otherwise it yields the issues of the requested pages in order |
| Tallies.Occurrences | service/collector/issue.go:167-174 | Entries of a list equal to a name: at most the list's length, and zero exactly when the name is absent |
| Tallies.LabelCount | service/collector/issue.go:162-174 | The per-(label, state) count is zero exactly when no issue that is not a pull request in that state carries the label |
| Tallies.StateCount | service/collector/issue.go:212-214 | The per-state count is at most the number of issues, and zero exactly when no issue that is not a pull request has that state |
| Tallies.LastTimedUnderLabel | service/collector/issue.go:177-185 | The issue whose times a (label, number) entry holds: none exactly when no closed issue with that number, other than a pull request, carries the label; otherwise such an issue with no later one, so a later issue overwrites |
| Tallies.LastTimedUnderSelector | service/collector/issue.go:201-209 | As above for a (selector, number) entry, over the configured selectors the closed issue that is not a pull request matches |
| Tallies.SeeOneMore | service/collector/issue.go:162-214 | Seeing one more issue adds exactly its own contribution to every count and makes it the last timed issue where it qualifies |
| Tallies.RecordLabels | service/collector/issue.go:167-185 | The loop over one issue's labels turns tables that summarise the issues seen into tables that summarise them plus this issue, for the label count and both label-time tables |
| Tallies.RecordSelectors | service/collector/issue.go:187-209 | The loop over the configured selectors, with `hasLabels` and `continue`, does the same for the selector count and both selector-time tables |
| Tallies.RecordIssue | service/collector/issue.go:167-214 | Labels, selectors and state of one issue that is not a pull request: all seven tables then summarise the issues seen plus this one |
| Tallies.PullRequestLeavesTables | service/collector/issue.go:163-165 | Skipping a pull request leaves tables that still summarise the issues seen plus the pull request |
| Tallies.RecordPage | service/collector/issue.go:162-215 | The loop over one page: the tables then summarise the issues seen followed by the whole page |
| Tallies.EmptyTablesSummariseNothing | service/collector/issue.go:147-153 | The seven empty maps summarise an empty listing |
| Tallies.SummaryIsUnique | service/collector/issue.go:146-215 | The issues seen determine the tables: two tables that summarise the same issues are equal, so collecting the same listing twice gives the same gauges |
| Tallies.TablesShape | service/collector/issue.go:167-214 | Timestamp entries carry the closed state; entries of the selector count and selector timestamp tables carry a configured selector; every count entry is at least one |
| Tallies.WithoutPullRequests | service/collector/issue.go:163-165 | Dropping pull requests keeps every issue that is not a pull request, as often as it occurs, and nothing else |
| Tallies.PullRequestsCountNowhere | service/collector/issue.go:163-165 | Removing every pull request changes no count and no timestamp entry |
| Tallies.SelectorCountPerListing | service/collector/issue.go:187-198 | A selector's count is its number of listings among the configured selectors times the number of matching issues in that state |
| Tallies.SelectorCountOfListedSelector | service/collector/issue.go:187-198 | With no selector configured twice, a configured selector's count is the number of matching issues in that state |
| Tallies.UnlabelledIssueCountsOnlyItsState | service/collector/issue.go:167-214 | An issue without labels adds to no label or selector count and no timestamp table, and adds one to its state's count |
| Tallies.LabelCountsAddUp | service/collector/issue.go:155-226 | Label counts over consecutive pages are the sum of the counts of each page |
| Tallies.SelectorCountsAddUp | service/collector/issue.go:155-226 | Selector counts over consecutive pages are the sum of the counts of each page |
| Tallies.StateCountsAddUp | service/collector/issue.go:155-226 | State counts over consecutive pages are the sum of the counts of each page |
| Tallies.StatesPartitionIssues | service/collector/issue.go:212-214 | When every issue is open or closed, the open and closed counts together are the number of issues that are not pull requests |
| Metrics.Describe | service/collector/issue.go:314-323 | Always the same seven descriptors, with pairwise different names, each with org and repo as its first two labels |
| Metrics.NamesDiffer | service/collector/issue.go:16-93 | The seven metric names are pairwise different |
| Metrics.EmitTable | service/collector/issue.go:228-238 | One emission loop sends one sample per map entry, with the metric's name, the entry's label values and its value; no two samples with the same name and label values when the label values tell entries apart |
| Metrics.SendTable | service/collector/issue.go:228-309 | One more emission loop keeps every (name, label values) identity unique and adds exactly that table's samples |
| Metrics.EmitClosedTimes | service/collector/issue.go:228-250 | The closed-at loops per label and per selector send exactly their tables' samples, no two with the same name and label values |
| Metrics.EmitCounts | service/collector/issue.go:252-274 | The count loops per label and per selector add exactly their tables' samples, and no sample sent so far shares name and label values with another |
| Metrics.Emit | service/collector/issue.go:228-309 | The seven loops send as many samples as there are table entries, no two with the same name and label values, and exactly the samples of the seven tables |
| Metrics.TimeSampleByName | service/collector/issue.go:228-298 | A timestamp sample is sent exactly when its entry is in the table its metric name belongs to |
| Metrics.CountSampleByName | service/collector/issue.go:252-309 | A count sample is sent exactly when its entry is in the table its metric name belongs to |
| Metrics.SamplesFitDescriptors | service/collector/issue.go:228-309 | Every sample has a described metric's name, one label value per label the descriptor declares, and org and repo "giantswarm" first |
| Collector.NewIssue | service/collector/issue.go:109-125 | Construction succeeds exactly when client and logger are both given, and then keeps the configuration; a missing client is reported first, then a missing logger, each with its message |
| Collector.Collect | service/collector/issue.go:127-312 | Pages are requested from 1 following `NextPage` until it is 0. A failed page ends the collection with that error and no sample. Otherwise the samples are exactly those of the unique tables summarising every listed issue, one per entry, no two with the same name and label values |
| Collector.LabelCountSample | service/collector/issue.go:252-262 | A label-count sample for (label, state) is sent exactly when that label count is positive, and its value is that count |
| Collector.SelectorCountSample | service/collector/issue.go:264-274 | A selector-count sample for (selector, state) is sent exactly when the selector count is positive, and its value is that count |
| Collector.StateCountSample | service/collector/issue.go:300-309 | A state sample is sent exactly when some issue that is not a pull request has that state, and its value is the number of such issues |
| Collector.TimeTableSample | service/collector/issue.go:228-238 | In a timestamp table of closed keys, the sample for a key is sent exactly when the key is in the table, with the entry's value |
| Collector.LabelTimeSamples | service/collector/issue.go:177-185 | For (label, number) the closed-at and created-at samples are sent exactly when a closed issue with that number, other than a pull request, carries the label, with the last such issue's times |
| Collector.SelectorTimeSamples | service/collector/issue.go:201-209 | For (selector, number) the closed-at and created-at samples are sent exactly when a closed issue with that number, other than a pull request, matches the selector, with the last such issue's times |
| Scenarios.OnePageLabelCounts | service/collector/issue.go:167-174 | The page of an open "bug" issue, a closed "bug, urgent" issue and a pull request counts bug once per state, urgent once when closed and never when open |
| Scenarios.OnePageSelectorCounts | service/collector/issue.go:187-198 | On that page, selector "bug,urgent" counts the closed issue once and no open issue |
| Scenarios.OnePageStatesAndTimes | service/collector/issue.go:176-214 | On that page, one open and one closed issue; only the closed issue is timed, under its own number |
| Scenarios.FailureOnSecondPage | service/collector/issue.go:155-159 | With three pages where the second fails, pages 1 and 2 are requested, page 3 never is, and the result is the error |

## Left out

- The GitHub HTTP client, the oauth2 token source, `context.Background()`, and the request options `PerPage: 1000`, `State: "all"` and `Since` (one year before now). The listing is a table from page number to response for the options the collector sends. The clock and the network are not part of this model.
- Prometheus types. A descriptor is its name, help text and label names. A sample is its metric name, label values and value, and sending one on the channel is appending it to a sequence. The `error` that `Describe` always returns as nil is dropped.
- `float64` gauge values. Counts are natural numbers and times are integer Unix seconds. The floats in the code only ever hold such integers, exactly below 2^53.
- `strconv.Itoa` of the issue number. A sample's number label value is `Number(n)`, which stands for the decimal rendering of `n`.
- Logging, and the logger's interface. `Logger` is a single value.
- `service/service.go`, `service/collector/set.go` and `flag/service/service.go` are not part of this model; they only wire dependencies and start the collector.
- The constants of `service/collector/collector.go` appear as literal metric names, label names and the org and repo.
- Duration histograms are not part of this model; the code has none.
- Collector.Collect: requires that following the cursors from page 1 ends after finitely many requests. With a listing whose cursors cycle, the Go loop would never return.
- Collector.Collect: states which samples are sent and that no two share name and label values, but not their order within one table, because Go's map iteration order is unspecified. The model's code keeps the order of the seven loops; the contracts leave it open.
- Metrics.EmitTable: leaves the order of the samples of one table open, for the same reason.
