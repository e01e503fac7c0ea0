/**
 * The metrics the collector exposes: the seven descriptors it declares and
 * the samples it sends, one per table entry, in place of the metrics channel.
 */
module Metrics {
  import opened Tracker
  import opened Tallies

  /** The organisation and repository whose issues are collected; every sample carries both. */
  const GithubOrg: string := "giantswarm"
  const GithubRepo: string := "giantswarm"

  /** A metric's identity: its fully qualified name, its help text and its variable label names. */
  datatype Desc = Desc(fqName: string, help: string, variableLabels: seq<string>)

  const ClosedLabelSecondsDesc: Desc :=
    Desc("github_exporter_issue_closed_label_seconds", "Timestamps of closed issues per label.", ["org", "repo", "label", "number"])
  const ClosedLabelsSecondsDesc: Desc :=
    Desc("github_exporter_issue_closed_labels_seconds", "Timestamps of closed issues per combined labels.", ["org", "repo", "labels", "number"])
  const LabelCountDesc: Desc :=
    Desc("github_exporter_issue_label_count", "Github issues per label.", ["org", "repo", "label", "state"])
  const LabelsCountDesc: Desc :=
    Desc("github_exporter_issue_labels_count", "Github issues per combined labels.", ["org", "repo", "labels", "state"])
  const OpenLabelSecondsDesc: Desc :=
    Desc("github_exporter_issue_open_label_seconds", "Timestamps of open issues per label.", ["org", "repo", "label", "number"])
  const OpenLabelsSecondsDesc: Desc :=
    Desc("github_exporter_issue_open_labels_seconds", "Timestamps of open issues per combined labels.", ["org", "repo", "labels", "number"])
  const StatesCountDesc: Desc :=
    Desc("github_exporter_issue_states_count", "Github issue states.", ["org", "repo", "state"])

  /** The descriptors, in the order they are declared: always the same seven, with distinct names. */
  function Describe(): (descs: seq<Desc>)
    ensures |descs| == 7
    ensures forall a, b :: 0 <= a < b < |descs| ==> descs[a].fqName != descs[b].fqName
    ensures forall a :: 0 <= a < |descs| ==> |descs[a].variableLabels| >= 2 && descs[a].variableLabels[..2] == ["org", "repo"]
  {
    [ClosedLabelSecondsDesc, ClosedLabelsSecondsDesc, LabelCountDesc, LabelsCountDesc,
     OpenLabelSecondsDesc, OpenLabelsSecondsDesc, StatesCountDesc]
  }

  /** A label value of a sample; `Number(n)` stands for the decimal rendering of the issue number `n`. */
  datatype LabelValue = Text(text: string) | Number(number: int)

  /** One gauge sample: the metric's name, its label values in descriptor order, and its value. */
  datatype Sample = Sample(fqName: string, labelValues: seq<LabelValue>, value: int)

  /** Label values of a count entry: org, repo, label (or selector), state. */
  function CountLabels(k: CountKey): seq<LabelValue>
  {
    [Text(GithubOrg), Text(GithubRepo), Text(k.name), Text(k.state)]
  }

  /** Label values of a timestamp entry: org, repo, label (or selector), issue number; the state is not sent. */
  function TimeLabels(k: TimeKey): seq<LabelValue>
  {
    [Text(GithubOrg), Text(GithubRepo), Text(k.name), Number(k.number)]
  }

  /** Label values of a state entry: org, repo, state. */
  function StateLabels(state: string): seq<LabelValue>
  {
    [Text(GithubOrg), Text(GithubRepo), Text(state)]
  }

  /** The samples of one table: one per entry. */
  ghost function TableSamples<K>(fqName: string, m: map<K, int>, labelsOf: K -> seq<LabelValue>): set<Sample>
  {
    set k | k in m :: Sample(fqName, labelsOf(k), m[k])
  }

  /**
   * No two samples share an identity, which is the metric name together with
   * the label values: one scrape holds at most one sample per identity. Two
   * samples with different identities are in particular different samples.
   */
  ghost predicate Distinct(samples: seq<Sample>)
  {
    forall a, b :: 0 <= a < b < |samples| ==>
      samples[a].fqName != samples[b].fqName || samples[a].labelValues != samples[b].labelValues
  }

  /**
   * The loop over one table: one sample per entry, in an order left open
   * (Go's map iteration order is unspecified). When the label values tell
   * entries apart, no two samples share name and label values.
   */
  method EmitTable<K>(fqName: string, m: map<K, int>, labelsOf: K -> seq<LabelValue>) returns (samples: seq<Sample>)
    requires forall k, k' :: k in m && k' in m && labelsOf(k) == labelsOf(k') ==> k == k'
    ensures |samples| == |m|
    ensures Distinct(samples)
    ensures forall s :: s in samples ==> s.fqName == fqName
    ensures forall s :: s in samples <==> s in TableSamples(fqName, m, labelsOf)
  {
    var rest := m.Keys;
    samples := [];
    ghost var emitted: seq<K> := [];
    while rest != {}
      invariant rest <= m.Keys
      invariant |samples| + |rest| == |m|
      invariant |emitted| == |samples|
      invariant forall i :: 0 <= i < |samples| ==>
                  emitted[i] in m && emitted[i] !in rest && samples[i] == Sample(fqName, labelsOf(emitted[i]), m[emitted[i]])
      invariant forall k :: k in m && k !in rest ==> k in emitted
      invariant Distinct(samples)
      decreases |rest|
    {
      var k :| k in rest;
      samples := samples + [Sample(fqName, labelsOf(k), m[k])];
      emitted := emitted + [k];
      rest := rest - {k};
    }
    forall s | s in TableSamples(fqName, m, labelsOf) ensures s in samples {
      var k :| k in m && s == Sample(fqName, labelsOf(k), m[k]);
      var i :| 0 <= i < |emitted| && emitted[i] == k;
      assert samples[i] == s;
    }
  }

  /** Count keys are told apart by their label values. */
  lemma CountLabelsTellApart(m: map<CountKey, int>)
    ensures forall k, k' :: k in m && k' in m && CountLabels(k) == CountLabels(k') ==> k == k'
  {
    forall k, k' | k in m && k' in m && CountLabels(k) == CountLabels(k') ensures k == k' {
      assert CountLabels(k)[2] == CountLabels(k')[2] && CountLabels(k)[3] == CountLabels(k')[3];
    }
  }

  /** Timestamp keys that all carry the closed state are told apart by their label values. */
  lemma TimeLabelsTellApart(m: map<TimeKey, int>)
    requires forall k :: k in m ==> k.state == Closed
    ensures forall k, k' :: k in m && k' in m && TimeLabels(k) == TimeLabels(k') ==> k == k'
  {
    forall k, k' | k in m && k' in m && TimeLabels(k) == TimeLabels(k') ensures k == k' {
      assert TimeLabels(k)[2] == TimeLabels(k')[2] && TimeLabels(k)[3] == TimeLabels(k')[3];
    }
  }

  /** State entries are told apart by their label values. */
  lemma StateLabelsTellApart(m: map<string, int>)
    ensures forall k, k' :: k in m && k' in m && StateLabels(k) == StateLabels(k') ==> k == k'
  {
    forall k, k' | k in m && k' in m && StateLabels(k) == StateLabels(k') ensures k == k' {
      assert StateLabels(k)[2] == StateLabels(k')[2];
    }
  }

  /** Every timestamp key carries the closed state, so issue number and label tell timestamp entries apart. */
  ghost predicate TimeKeysClosed(t: Tables)
  {
    && (forall k :: k in t.closedLabelSeconds ==> k.state == Closed)
    && (forall k :: k in t.closedLabelsSeconds ==> k.state == Closed)
    && (forall k :: k in t.openLabelSeconds ==> k.state == Closed)
    && (forall k :: k in t.openLabelsSeconds ==> k.state == Closed)
  }

  /** The number of entries in all seven tables. */
  function EntryCount(t: Tables): nat
  {
    |t.closedLabelSeconds| + |t.closedLabelsSeconds| + |t.labelCount| + |t.labelsCount|
      + |t.openLabelSeconds| + |t.openLabelsSeconds| + |t.statesCount|
  }

  /** The samples of all seven tables. */
  ghost function Expected(t: Tables): set<Sample>
  {
    TableSamples(ClosedLabelSecondsDesc.fqName, t.closedLabelSeconds, TimeLabels)
      + TableSamples(ClosedLabelsSecondsDesc.fqName, t.closedLabelsSeconds, TimeLabels)
      + TableSamples(LabelCountDesc.fqName, t.labelCount, CountLabels)
      + TableSamples(LabelsCountDesc.fqName, t.labelsCount, CountLabels)
      + TableSamples(OpenLabelSecondsDesc.fqName, t.openLabelSeconds, TimeLabels)
      + TableSamples(OpenLabelsSecondsDesc.fqName, t.openLabelsSeconds, TimeLabels)
      + TableSamples(StatesCountDesc.fqName, t.statesCount, StateLabels)
  }

  /** Sample `s` fits descriptor `d`: same name, one value per variable label, and the fixed org and repo first. */
  ghost predicate Fits(s: Sample, d: Desc)
  {
    && s.fqName == d.fqName
    && |s.labelValues| == |d.variableLabels|
    && |s.labelValues| >= 2
    && s.labelValues[..2] == [Text(GithubOrg), Text(GithubRepo)]
  }

  /** Every sample of a table fits the table's descriptor when every key's label values do. */
  lemma TableFits<K>(d: Desc, m: map<K, int>, labelsOf: K -> seq<LabelValue>)
    requires forall k :: k in m ==>
      |labelsOf(k)| == |d.variableLabels| && |labelsOf(k)| >= 2 && labelsOf(k)[..2] == [Text(GithubOrg), Text(GithubRepo)]
    ensures forall s :: s in TableSamples(d.fqName, m, labelsOf) ==> Fits(s, d)
  {
  }

  /**
   * Every sample sent fits one of the described metrics, so a sample is never
   * built with the wrong number of label values, and org and repo are always
   * the configured ones.
   */
  lemma SamplesFitDescriptors(t: Tables)
    ensures forall s :: s in Expected(t) ==> exists j :: 0 <= j < |Describe()| && Fits(s, Describe()[j])
  {
    var d := Describe();
    TableFits(d[0], t.closedLabelSeconds, TimeLabels);
    TableFits(d[1], t.closedLabelsSeconds, TimeLabels);
    TableFits(d[2], t.labelCount, CountLabels);
    TableFits(d[3], t.labelsCount, CountLabels);
    TableFits(d[4], t.openLabelSeconds, TimeLabels);
    TableFits(d[5], t.openLabelsSeconds, TimeLabels);
    TableFits(d[6], t.statesCount, StateLabels);
  }

  /** The seven metric names, pairwise different. */
  lemma NamesDiffer()
    ensures ClosedLabelSecondsDesc.fqName != ClosedLabelsSecondsDesc.fqName
    ensures ClosedLabelSecondsDesc.fqName != LabelCountDesc.fqName
    ensures ClosedLabelSecondsDesc.fqName != LabelsCountDesc.fqName
    ensures ClosedLabelSecondsDesc.fqName != OpenLabelSecondsDesc.fqName
    ensures ClosedLabelSecondsDesc.fqName != OpenLabelsSecondsDesc.fqName
    ensures ClosedLabelSecondsDesc.fqName != StatesCountDesc.fqName
    ensures ClosedLabelsSecondsDesc.fqName != LabelCountDesc.fqName
    ensures ClosedLabelsSecondsDesc.fqName != LabelsCountDesc.fqName
    ensures ClosedLabelsSecondsDesc.fqName != OpenLabelSecondsDesc.fqName
    ensures ClosedLabelsSecondsDesc.fqName != OpenLabelsSecondsDesc.fqName
    ensures ClosedLabelsSecondsDesc.fqName != StatesCountDesc.fqName
    ensures LabelCountDesc.fqName != LabelsCountDesc.fqName
    ensures LabelCountDesc.fqName != OpenLabelSecondsDesc.fqName
    ensures LabelCountDesc.fqName != OpenLabelsSecondsDesc.fqName
    ensures LabelCountDesc.fqName != StatesCountDesc.fqName
    ensures LabelsCountDesc.fqName != OpenLabelSecondsDesc.fqName
    ensures LabelsCountDesc.fqName != OpenLabelsSecondsDesc.fqName
    ensures LabelsCountDesc.fqName != StatesCountDesc.fqName
    ensures OpenLabelSecondsDesc.fqName != OpenLabelsSecondsDesc.fqName
    ensures OpenLabelSecondsDesc.fqName != StatesCountDesc.fqName
    ensures OpenLabelsSecondsDesc.fqName != StatesCountDesc.fqName
  {
    var d := Describe();
    assert d == [ClosedLabelSecondsDesc, ClosedLabelsSecondsDesc, LabelCountDesc, LabelsCountDesc,
                 OpenLabelSecondsDesc, OpenLabelsSecondsDesc, StatesCountDesc];
  }

  /** The metric name of a timestamp sample tells which table it comes from. */
  lemma TimeSampleByName(t: Tables, s: Sample)
    ensures s.fqName == ClosedLabelSecondsDesc.fqName ==>
      (s in Expected(t) <==> s in TableSamples(ClosedLabelSecondsDesc.fqName, t.closedLabelSeconds, TimeLabels))
    ensures s.fqName == ClosedLabelsSecondsDesc.fqName ==>
      (s in Expected(t) <==> s in TableSamples(ClosedLabelsSecondsDesc.fqName, t.closedLabelsSeconds, TimeLabels))
    ensures s.fqName == OpenLabelSecondsDesc.fqName ==>
      (s in Expected(t) <==> s in TableSamples(OpenLabelSecondsDesc.fqName, t.openLabelSeconds, TimeLabels))
    ensures s.fqName == OpenLabelsSecondsDesc.fqName ==>
      (s in Expected(t) <==> s in TableSamples(OpenLabelsSecondsDesc.fqName, t.openLabelsSeconds, TimeLabels))
  {
    NamesDiffer();
  }

  /** The metric name of a count sample tells which table it comes from. */
  lemma CountSampleByName(t: Tables, s: Sample)
    ensures s.fqName == LabelCountDesc.fqName ==>
      (s in Expected(t) <==> s in TableSamples(LabelCountDesc.fqName, t.labelCount, CountLabels))
    ensures s.fqName == LabelsCountDesc.fqName ==>
      (s in Expected(t) <==> s in TableSamples(LabelsCountDesc.fqName, t.labelsCount, CountLabels))
    ensures s.fqName == StatesCountDesc.fqName ==>
      (s in Expected(t) <==> s in TableSamples(StatesCountDesc.fqName, t.statesCount, StateLabels))
  {
    NamesDiffer();
  }

  /**
   * The samples report the tables: one sample per entry of every table, no
   * two with the same name and label values, and nothing else.
   */
  ghost predicate Reports(samples: seq<Sample>, t: Tables)
  {
    && |samples| == EntryCount(t)
    && Distinct(samples)
    && (forall s :: s in samples <==> s in Expected(t))
  }

  /** The samples of the first `i` descriptors have been sent, and only those. */
  ghost predicate SentUpTo(samples: seq<Sample>, sent: set<Sample>, descs: seq<Desc>, i: nat)
    requires i <= |descs|
  {
    && Distinct(samples)
    && (forall s :: s in samples <==> s in sent)
    && (forall s :: s in samples ==> exists j :: 0 <= j < i && s.fqName == descs[j].fqName)
  }

  /** Appending the samples of the next descriptor's metric keeps every identity unique, since the names differ. */
  lemma AppendTable(samples: seq<Sample>, sent: set<Sample>, descs: seq<Desc>, i: nat, more: seq<Sample>, table: set<Sample>)
    requires i < |descs|
    requires forall a, b :: 0 <= a < b < |descs| ==> descs[a].fqName != descs[b].fqName
    requires SentUpTo(samples, sent, descs, i)
    requires Distinct(more)
    requires forall s :: s in more <==> s in table
    requires forall s :: s in more ==> s.fqName == descs[i].fqName
    ensures SentUpTo(samples + more, sent + table, descs, i + 1)
  {
    forall a, b | 0 <= a < b < |samples + more|
      ensures (samples + more)[a].fqName != (samples + more)[b].fqName
           || (samples + more)[a].labelValues != (samples + more)[b].labelValues
    {
      if b >= |samples| && a < |samples| {
        assert (samples + more)[b] in more;
        assert (samples + more)[a] in samples;
      }
    }
  }

  /** One emission loop appended to the samples sent so far, for the metric of the `i`-th descriptor. */
  method SendTable<K>(samples: seq<Sample>, ghost sent: set<Sample>, descs: seq<Desc>, i: nat,
                      m: map<K, int>, labelsOf: K -> seq<LabelValue>)
    returns (samples': seq<Sample>, ghost sent': set<Sample>)
    requires i < |descs|
    requires forall a, b :: 0 <= a < b < |descs| ==> descs[a].fqName != descs[b].fqName
    requires SentUpTo(samples, sent, descs, i)
    requires forall k, k' :: k in m && k' in m && labelsOf(k) == labelsOf(k') ==> k == k'
    ensures SentUpTo(samples', sent', descs, i + 1)
    ensures sent' == sent + TableSamples(descs[i].fqName, m, labelsOf)
    ensures |samples'| == |samples| + |m|
  {
    var more := EmitTable(descs[i].fqName, m, labelsOf);
    AppendTable(samples, sent, descs, i, more, TableSamples(descs[i].fqName, m, labelsOf));
    samples', sent' := samples + more, sent + TableSamples(descs[i].fqName, m, labelsOf);
  }

  /** The first two emission loops: the timestamps at which issues were closed, per label and per selector. */
  method EmitClosedTimes(t: Tables, d: seq<Desc>) returns (samples: seq<Sample>, ghost sent: set<Sample>)
    requires |d| == 7
    requires forall a, b :: 0 <= a < b < |d| ==> d[a].fqName != d[b].fqName
    requires TimeKeysClosed(t)
    ensures SentUpTo(samples, sent, d, 2)
    ensures |samples| == |t.closedLabelSeconds| + |t.closedLabelsSeconds|
    ensures sent == TableSamples(d[0].fqName, t.closedLabelSeconds, TimeLabels)
                  + TableSamples(d[1].fqName, t.closedLabelsSeconds, TimeLabels)
  {
    samples, sent := [], {};
    assert SentUpTo(samples, sent, d, 0);
    TimeLabelsTellApart(t.closedLabelSeconds);
    samples, sent := SendTable(samples, sent, d, 0, t.closedLabelSeconds, TimeLabels);
    TimeLabelsTellApart(t.closedLabelsSeconds);
    samples, sent := SendTable(samples, sent, d, 1, t.closedLabelsSeconds, TimeLabels);
  }

  /** The next two emission loops: the issue counts per label and per selector. */
  method EmitCounts(samples: seq<Sample>, ghost sent: set<Sample>, t: Tables, d: seq<Desc>)
    returns (samples': seq<Sample>, ghost sent': set<Sample>)
    requires |d| == 7
    requires forall a, b :: 0 <= a < b < |d| ==> d[a].fqName != d[b].fqName
    requires SentUpTo(samples, sent, d, 2)
    ensures SentUpTo(samples', sent', d, 4)
    ensures |samples'| == |samples| + |t.labelCount| + |t.labelsCount|
    ensures sent' == sent + TableSamples(d[2].fqName, t.labelCount, CountLabels)
                   + TableSamples(d[3].fqName, t.labelsCount, CountLabels)
  {
    CountLabelsTellApart(t.labelCount);
    samples', sent' := SendTable(samples, sent, d, 2, t.labelCount, CountLabels);
    CountLabelsTellApart(t.labelsCount);
    samples', sent' := SendTable(samples', sent', d, 3, t.labelsCount, CountLabels);
  }

  /**
   * The seven emission loops, in the collector's order: exactly one sample
   * per table entry, carrying the table's metric name, the fixed org and repo,
   * and the entry's key and value.
   */
  method Emit(t: Tables) returns (samples: seq<Sample>)
    requires TimeKeysClosed(t)
    ensures |samples| == EntryCount(t)
    ensures Distinct(samples)
    ensures forall s :: s in samples <==> s in Expected(t)
  {
    var d := Describe();
    ghost var sent: set<Sample>;
    samples, sent := EmitClosedTimes(t, d);
    samples, sent := EmitCounts(samples, sent, t, d);
    TimeLabelsTellApart(t.openLabelSeconds);
    samples, sent := SendTable(samples, sent, d, 4, t.openLabelSeconds, TimeLabels);
    TimeLabelsTellApart(t.openLabelsSeconds);
    samples, sent := SendTable(samples, sent, d, 5, t.openLabelsSeconds, TimeLabels);
    StateLabelsTellApart(t.statesCount);
    samples, sent := SendTable(samples, sent, d, 6, t.statesCount, StateLabels);
    assert d == [ClosedLabelSecondsDesc, ClosedLabelsSecondsDesc, LabelCountDesc, LabelsCountDesc,
                 OpenLabelSecondsDesc, OpenLabelsSecondsDesc, StatesCountDesc];
    assert sent == Expected(t);
  }
}
