/** The log of conversion issues (convert/issue.go). */
module Issues {
  import opened Sequences

  /** Appends an issue unless the log already holds an equal one. */
  function Report<T(==)>(log: seq<T>, issue: T): (log': seq<T>)
    ensures log <= log'
    ensures Elements(log') == Elements(log) + {issue}
  {
    if issue in log then log else log + [issue]
  }

  /** Reports several issues in order. */
  function ReportAll<T(==)>(log: seq<T>, issues: seq<T>): (log': seq<T>)
    ensures log <= log'
    ensures Elements(log') == Elements(log) + Elements(issues)
  {
    if issues == [] then log else
      var init := issues[..|issues| - 1];
      assert issues == init + [issues[|issues| - 1]];
      Report(ReportAll(log, init), issues[|issues| - 1])
  }

  /** An issue of the segment is reported after all those ahead of it in the segment. */
  ghost predicate AsReported<I>(reports: seq<I>, segment: seq<I>) {
    forall i, j, k :: 0 <= i < j < |segment| && 0 <= k < |reports| && reports[k] == segment[j] ==>
      segment[i] in reports[..k]
  }

  lemma StillAsReported<I>(init: seq<I>, x: I, segment: seq<I>)
    requires AsReported(init, segment) && Elements(segment) <= Elements(init)
    ensures AsReported(init + [x], segment)
  {
    var reports := init + [x];
    forall i, j, k | 0 <= i < j < |segment| && 0 <= k < |reports| && reports[k] == segment[j]
      ensures segment[i] in reports[..k]
    {
      if k < |init| {
        assert reports[..k] == init[..k] && init[k] == segment[j];
      } else {
        assert reports[..k] == init && segment[i] in Elements(segment);
      }
    }
  }

  lemma NewAsReported<I>(init: seq<I>, x: I, segment: seq<I>)
    requires AsReported(init + [x], segment) && Elements(segment) <= Elements(init) && x !in init
    ensures AsReported(init + [x], segment + [x])
  {
    var reports := init + [x];
    forall i, j, k | 0 <= i < j < |segment| + 1 && 0 <= k < |reports| && reports[k] == (segment + [x])[j]
      ensures (segment + [x])[i] in reports[..k]
    {
      if j < |segment| {
        assert segment[i] in reports[..k];
      } else {
        assert k == |init| && reports[..k] == init && segment[i] in Elements(segment);
      }
    }
  }

  /** segment is what reporting issues adds to log: those not in it yet, each once. */
  ghost predicate AddsNew<I>(log: seq<I>, reports: seq<I>, segment: seq<I>) {
    NoDup(segment) && Elements(segment) == Elements(reports) - Elements(log)
  }

  lemma KnownAlready<I>(log: seq<I>, reports: seq<I>, x: I)
    ensures x in ReportAll(log, reports) <==> x in log || x in reports
  {
    assert x in Elements(ReportAll(log, reports)) <==> x in Elements(log) + Elements(reports);
  }

  lemma AddsNext<I>(log: seq<I>, init: seq<I>, x: I, segment: seq<I>)
    requires AddsNew(log, init, segment)
    ensures AddsNew(log, init + [x], segment + if x in log || x in init then [] else [x])
    ensures Elements(segment) <= Elements(init)
  {
    assert Elements(init + [x]) == Elements(init) + {x};
    if x !in log && x !in init {
      assert x !in Elements(segment);
      NoDupConcat(segment, [x]);
      assert Elements(segment + [x]) == Elements(segment) + {x};
    } else {
      assert segment + [] == segment;
    }
  }

  lemma {:induction false} ReportsAddNew<I>(log: seq<I>, reports: seq<I>)
    ensures var segment := ReportAll(log, reports)[|log|..];
            AddsNew(log, reports, segment) && AsReported(reports, segment)
  {
    if reports != [] {
      var init, x := reports[..|reports| - 1], reports[|reports| - 1];
      assert reports == init + [x];
      var segment := ReportAll(log, init)[|log|..];
      ReportsAddNew(log, init);
      KnownAlready(log, init, x);
      AddsNext(log, init, x, segment);
      StillAsReported(init, x, segment);
      if x in log || x in init {
        assert segment + [] == segment;
      } else {
        NewAsReported(init, x, segment);
        assert (ReportAll(log, init) + [x])[|log|..] == segment + [x];
      }
    }
  }

  /** log' is log with the new ones among the reports behind it, each once and in order. */
  ghost predicate Reported<I>(log: seq<I>, reports: seq<I>, log': seq<I>) {
    log <= log' && AddsNew(log, reports, log'[|log|..]) && AsReported(reports, log'[|log|..])
  }

  lemma ReportedAll<I>(log: seq<I>, reports: seq<I>)
    ensures Reported(log, reports, ReportAll(log, reports))
  {
    ReportsAddNew(log, reports);
  }
}
