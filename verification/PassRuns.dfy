/**
  What a pass does, call by call (convert/model.go, convertModelsPass and convertModelOnce).

  A run lists the document, the pass state and the log ahead of and behind each call. That says what
  a pass gives without the functions that specify it, also for documents that steps only append to.
 */
module PassRuns {
  import opened Sequences
  import opened Issues
  import opened Passes

  /** Document, pass state and log between two calls. */
  datatype Point<D, S, I> = Point(out: D, st: S, log: seq<I>)

  /** The call for model i succeeds and leads from p to q; a skipped model only replays its issues. */
  ghost predicate Leads<D, M, S, I>(step: (D, S, M) -> Outcome<D, S, I>, models: seq<M>, saved: Saved<I>, i: nat,
      p: Point<D, S, I>, q: Point<D, S, I>) {
    i < |models| &&
    if i in saved then q == p.(log := p.log + saved[i])
    else
      var o := step(p.out, p.st, models[i]);
      o.ok && q.out == o.out && q.st == o.st && Reported(p.log, o.reports, q.log)
  }

  /** The call for model i fails, with these issues new to the log. */
  ghost predicate Fails<D, M, S, I>(step: (D, S, M) -> Outcome<D, S, I>, models: seq<M>, saved: Saved<I>, i: nat,
      p: Point<D, S, I>, segment: seq<I>) {
    i < |models| && i !in saved && !step(p.out, p.st, models[i]).ok &&
    Reported(p.log, step(p.out, p.st, models[i]).reports, p.log + segment)
  }

  /** The calls for the first |points| - 1 of the indices lead from each point to the next. */
  ghost predicate Follows<D, M, S, I>(step: (D, S, M) -> Outcome<D, S, I>, models: seq<M>, saved: Saved<I>,
      indices: seq<nat>, points: seq<Point<D, S, I>>) {
    0 < |points| <= |indices| + 1 &&
    forall k :: 0 <= k < |points| - 1 ==> Leads(step, models, saved, indices[k], points[k], points[k + 1])
  }

  /** A pass: the models that it keeps, those with lifecycle calls, and the points ahead of and behind each call. */
  datatype Run<D, S, I> = Run(
    kept: seq<nat>, candidates: seq<nat>, converted: seq<Point<D, S, I>>, added: seq<Point<D, S, I>>)

  /** Each model that is not skipped is kept, and is a candidate if it is eligible, in document order. */
  ghost predicate Chooses<D, M, S, I>(steps: Steps<D, M, S, I>, models: seq<M>, saved: Saved<I>, run: Run<D, S, I>) {
    Ascending(run.kept) && Ascending(run.candidates) &&
    (forall i: nat :: i in run.kept <==> i < |models| && i !in saved) &&
    forall i: nat :: i in run.candidates <==> i < |models| && i !in saved && steps.eligible(models[i])
  }

  /** The pass starts with the survey of the kept models, and then converts models in document order. */
  ghost predicate Starts<D, M, S, I>(steps: Steps<D, M, S, I>, models: seq<M>, saved: Saved<I>, out: D, log: seq<I>,
      run: Run<D, S, I>) {
    Chooses(steps, models, saved, run) &&
    0 < |run.converted| <= |models| + 1 &&
    (forall i: nat :: i < |run.converted| - 1 ==>
       Leads(steps.convert, models, saved, i, run.converted[i], run.converted[i + 1])) &&
    run.converted[0].out == out && run.converted[0].st == steps.start &&
    Reported(log, steps.survey(At(models, run.kept)), run.converted[0].log)
  }

  /** With all models converted and any route opened, the pass assembles the document and makes lifecycle calls. */
  ghost predicate Continues<D, M, S, I>(steps: Steps<D, M, S, I>, models: seq<M>, saved: Saved<I>, run: Run<D, S, I>)
    requires |run.converted| > 0
  {
    var p := run.converted[|run.converted| - 1];
    |run.converted| == |models| + 1 && !steps.empty(p.st) &&
    Follows(steps.lifecycle, models, saved, run.candidates, run.added) &&
    var a := steps.assemble(p.out, p.st);
    run.added[0].out == a.out && run.added[0].st == a.st && Reported(p.log, a.reports, run.added[0].log)
  }

  /** The pass makes all its calls and ends at q. */
  ghost predicate Completes<D, M, S, I>(steps: Steps<D, M, S, I>, models: seq<M>, saved: Saved<I>, out: D, log: seq<I>,
      run: Run<D, S, I>, q: Point<D, S, I>) {
    Starts(steps, models, saved, out, log, run) && |run.converted| == |models| + 1 &&
    var p := run.converted[|models|];
    if steps.empty(p.st) then run.added == [] && q == p.(out := steps.finish(p.out, p.st))
    else
      Continues(steps, models, saved, run) && |run.added| == |run.candidates| + 1 &&
      var r := run.added[|run.candidates|];
      q == r.(out := steps.finish(r.out, r.st))
  }

  /** The pass ends at a call that fails: the conversion of model i, or its lifecycle call. */
  ghost predicate Breaks<D, M, S, I>(steps: Steps<D, M, S, I>, models: seq<M>, saved: Saved<I>, out: D, log: seq<I>,
      run: Run<D, S, I>, i: nat, segment: seq<I>) {
    Starts(steps, models, saved, out, log, run) &&
    if run.added == [] then
      |run.converted| == i + 1 && Fails(steps.convert, models, saved, i, run.converted[i], segment)
    else
      Continues(steps, models, saved, run) && |run.added| <= |run.candidates| &&
      i == run.candidates[|run.added| - 1] &&
      Fails(steps.lifecycle, models, saved, i, run.added[|run.added| - 1], segment)
  }

  /** The point of a pass that is running. */
  function PointOf<D, S, I>(p: Progress<D, S, I>): Point<D, S, I>
    requires p.Running?
  {
    Point(p.out, p.st, p.log)
  }

  lemma CallLeads<D, M, S, I>(step: (D, S, M) -> Outcome<D, S, I>, models: seq<M>, saved: Saved<I>, i: nat,
      p: Progress<D, S, I>)
    requires i < |models| && p.Running?
    ensures var q := Call(step, models, saved, i, p);
            if q.Running? then Leads(step, models, saved, i, PointOf(p), PointOf(q))
            else q.index == i && Fails(step, models, saved, i, PointOf(p), q.segment)
  {
    if i !in saved {
      var reports := step(p.out, p.st, models[i]).reports;
      ReportedAll(p.log, reports);
      assert p.log + ReportAll(p.log, reports)[|p.log|..] == ReportAll(p.log, reports);
    }
  }

  /** The points of some calls, all of them or up to the one that fails. */
  ghost predicate TracedBy<D, M, S, I>(step: (D, S, M) -> Outcome<D, S, I>, models: seq<M>, saved: Saved<I>,
      indices: seq<nat>, p: Point<D, S, I>, q: Progress<D, S, I>, points: seq<Point<D, S, I>>) {
    Follows(step, models, saved, indices, points) && points[0] == p &&
    var last := |points| - 1;
    if q.Running? then last == |indices| && points[last] == PointOf(q)
    else
      last < |indices| && q.index == indices[last] &&
      Fails(step, models, saved, q.index, points[last], q.segment)
  }

  lemma {:induction false} CallsTraced<D, M, S, I>(step: (D, S, M) -> Outcome<D, S, I>, models: seq<M>,
      saved: Saved<I>, indices: seq<nat>, p: Progress<D, S, I>)
    returns (points: seq<Point<D, S, I>>)
    requires Bounded(indices, |models|) && p.Running?
    ensures TracedBy(step, models, saved, indices, PointOf(p), Calls(step, models, saved, indices, p), points)
  {
    if indices == [] {
      points := [PointOf(p)];
    } else {
      var init, i := indices[..|indices| - 1], indices[|indices| - 1];
      assert indices == init + [i] && i in indices;
      assert forall j :: j in init ==> j in indices;
      points := CallsTraced(step, models, saved, init, p);
      var q := Calls(step, models, saved, init, p);
      if q.Running? {
        var r := Call(step, models, saved, i, q);
        CallLeads(step, models, saved, i, q);
        OneMoreCall(step, models, saved, init, i, PointOf(p), q, points, r);
        points := if r.Running? then points + [PointOf(r)] else points;
      } else {
        StoppedEarlier(step, models, saved, init, i, PointOf(p), q, points);
      }
    }
  }

  lemma OneMoreCall<D, M, S, I>(step: (D, S, M) -> Outcome<D, S, I>, models: seq<M>, saved: Saved<I>,
      init: seq<nat>, i: nat, p: Point<D, S, I>, q: Progress<D, S, I>, points: seq<Point<D, S, I>>,
      r: Progress<D, S, I>)
    requires TracedBy(step, models, saved, init, p, q, points) && q.Running?
    requires if r.Running? then Leads(step, models, saved, i, PointOf(q), PointOf(r))
             else r.index == i && Fails(step, models, saved, i, PointOf(q), r.segment)
    ensures TracedBy(step, models, saved, init + [i], p, r, if r.Running? then points + [PointOf(r)] else points)
  {
  }

  lemma StoppedEarlier<D, M, S, I>(step: (D, S, M) -> Outcome<D, S, I>, models: seq<M>, saved: Saved<I>,
      init: seq<nat>, i: nat, p: Point<D, S, I>, q: Progress<D, S, I>, points: seq<Point<D, S, I>>)
    requires TracedBy(step, models, saved, init, p, q, points) && q.Stopped?
    ensures TracedBy(step, models, saved, init + [i], p, q, points)
  {
  }

  lemma {:induction false} KeptAscends<I>(saved: Saved<I>, n: nat)
    ensures Ascending(Kept(saved, n))
  {
    if n > 0 {
      KeptAscends(saved, n - 1);
      AscendingNext(Kept(saved, n - 1), n - 1);
    }
  }

  lemma {:induction false} CandidatesAscend<M, I>(models: seq<M>, eligible: M -> bool, saved: Saved<I>, n: nat)
    requires n <= |models|
    ensures Ascending(Candidates(models, eligible, saved, n))
    ensures forall i: nat :: i < n && i !in saved && eligible(models[i]) ==> i in Candidates(models, eligible, saved, n)
    ensures forall i :: i in Candidates(models, eligible, saved, n) ==> i < n && eligible(models[i])
  {
    if n > 0 {
      CandidatesAscend(models, eligible, saved, n - 1);
      AscendingNext(Candidates(models, eligible, saved, n - 1), n - 1);
    }
  }

  lemma ChosenRun<D, M, S, I>(steps: Steps<D, M, S, I>, models: seq<M>, saved: Saved<I>,
      converted: seq<Point<D, S, I>>, added: seq<Point<D, S, I>>)
    ensures Chooses(steps, models, saved, Run(Kept(saved, |models|),
                    Candidates(models, steps.eligible, saved, |models|), converted, added))
  {
    KeptAscends(saved, |models|);
    CandidatesAscend(models, steps.eligible, saved, |models|);
  }

  /** A pass as specified makes these calls: it completes, or breaks at the failure of its model. */
  lemma PassTraced<D, M, S, I>(steps: Steps<D, M, S, I>, models: seq<M>, saved: Saved<I>, out: D, log: seq<I>)
    returns (run: Run<D, S, I>)
    ensures var p := Pass(steps, models, saved, out, log);
            if p.Running? then Completes(steps, models, saved, out, log, run, PointOf(p))
            else Breaks(steps, models, saved, out, log, run, p.index, p.segment)
  {
    var surveyed := Running(out, steps.start, ReportAll(log, steps.survey(KeptModels(models, saved))));
    var p := Calls(steps.convert, models, saved, UpTo(|models|), surveyed);
    run := RunStarts(steps, models, saved, out, log, surveyed);
    if p.Running? && !steps.empty(p.st) {
      run := RunContinues(steps, models, saved, out, log, run, p);
    }
  }

  /** The part of a pass behind the conversions, if any route was opened. */
  lemma RunContinues<D, M, S, I>(steps: Steps<D, M, S, I>, models: seq<M>, saved: Saved<I>, out: D, log: seq<I>,
      start: Run<D, S, I>, p: Progress<D, S, I>)
    returns (run: Run<D, S, I>)
    requires Starts(steps, models, saved, out, log, start) && p.Running? && !steps.empty(p.st)
    requires start.candidates == Candidates(models, steps.eligible, saved, |models|)
    requires |start.converted| == |models| + 1 && start.converted[|models|] == PointOf(p)
    ensures var q := Completed(steps, models, saved, p);
            if q.Running? then Completes(steps, models, saved, out, log, run, PointOf(q))
            else Breaks(steps, models, saved, out, log, run, q.index, q.segment)
  {
    var added := LifecyclesTraced(steps, models, saved, p);
    run := start.(added := added);
    assert Starts(steps, models, saved, out, log, run) && Continues(steps, models, saved, run);
  }

  lemma RunStarts<D, M, S, I>(steps: Steps<D, M, S, I>, models: seq<M>, saved: Saved<I>, out: D, log: seq<I>,
      surveyed: Progress<D, S, I>)
    returns (run: Run<D, S, I>)
    requires surveyed == Running(out, steps.start, ReportAll(log, steps.survey(KeptModels(models, saved))))
    ensures Starts(steps, models, saved, out, log, run) && run.added == []
    ensures run.candidates == Candidates(models, steps.eligible, saved, |models|)
    ensures TracedBy(steps.convert, models, saved, UpTo(|models|), PointOf(surveyed),
                     Calls(steps.convert, models, saved, UpTo(|models|), surveyed), run.converted)
  {
    ReportedAll(log, steps.survey(KeptModels(models, saved)));
    var converted := CallsTraced(steps.convert, models, saved, UpTo(|models|), surveyed);
    var candidates := Candidates(models, steps.eligible, saved, |models|);
    var added: seq<Point<D, S, I>> := [];
    ChosenRun(steps, models, saved, converted, added);
    run := Run(Kept(saved, |models|), candidates, converted, added);
    forall i: nat | i < |converted| - 1 ensures Leads(steps.convert, models, saved, i, converted[i], converted[i + 1]) {
      assert UpTo(|models|)[i] == i;
    }
  }

  lemma LifecyclesTraced<D, M, S, I>(steps: Steps<D, M, S, I>, models: seq<M>, saved: Saved<I>, p: Progress<D, S, I>)
    returns (added: seq<Point<D, S, I>>)
    requires p.Running?
    ensures var candidates, a := Candidates(models, steps.eligible, saved, |models|), Assembled(steps, p);
            TracedBy(steps.lifecycle, models, saved, candidates, PointOf(a),
                     Calls(steps.lifecycle, models, saved, candidates, a), added)
    ensures Reported(p.log, steps.assemble(p.out, p.st).reports, Assembled(steps, p).log)
  {
    ReportedAll(p.log, steps.assemble(p.out, p.st).reports);
    added := CallsTraced(steps.lifecycle, models, saved, Candidates(models, steps.eligible, saved, |models|),
        Assembled(steps, p));
  }

  /** What each step appends to a document that is a list. */
  datatype Parts<!T, !M, !S> = Parts(
    convert: (S, M) -> seq<T>, assemble: S -> seq<T>, lifecycle: (S, M) -> seq<T>, finish: S -> seq<T>)

  ghost predicate OnlyAppend<T(!new), M(!new), S(!new), I>(steps: Steps<seq<T>, M, S, I>, parts: Parts<T, M, S>) {
    (forall d, s, m :: steps.convert(d, s, m).ok ==> steps.convert(d, s, m).out == d + parts.convert(s, m)) &&
    (forall d, s :: steps.assemble(d, s).out == d + parts.assemble(s)) &&
    (forall d, s, m :: steps.lifecycle(d, s, m).ok ==> steps.lifecycle(d, s, m).out == d + parts.lifecycle(s, m)) &&
    forall d, s :: steps.finish(d, s) == d + parts.finish(s)
  }

  /** What the calls ahead of each point but the first append, in order; a skipped model appends nothing. */
  ghost function PartsOf<T, M, S, I>(part: (S, M) -> seq<T>, models: seq<M>, saved: Saved<I>, indices: seq<nat>,
      points: seq<Point<seq<T>, S, I>>): (r: seq<seq<T>>)
    requires |points| <= |indices| + 1 && Bounded(indices, |models|)
    ensures |points| > 0 ==> |r| == |points| - 1
  {
    if |points| == 0 then []
    else
      seq(|points| - 1, k requires 0 <= k < |points| - 1 =>
        assert indices[k] in indices;
        if indices[k] in saved then [] else part(points[k].st, models[indices[k]]))
  }

  /** Each point but the first has the document of the one ahead of it with a part behind. */
  ghost predicate Grows<T, S, I>(points: seq<Point<seq<T>, S, I>>, parts: seq<seq<T>>) {
    |points| == |parts| + 1 && forall k :: 0 <= k < |parts| ==> points[k + 1].out == points[k].out + parts[k]
  }

  lemma {:induction false} GrowsBy<T, S, I>(points: seq<Point<seq<T>, S, I>>, parts: seq<seq<T>>)
    requires Grows(points, parts)
    ensures points[|parts|].out == points[0].out + Flatten(parts)
  {
    if parts != [] {
      var n := |parts| - 1;
      GrowsBy(points[..n + 1], parts[..n]);
      assert points[0].out + Flatten(parts[..n]) + parts[n] == points[0].out + (Flatten(parts[..n]) + parts[n]);
    }
  }

  lemma CallsAppend<T(!new), M(!new), S(!new), I>(step: (seq<T>, S, M) -> Outcome<seq<T>, S, I>,
      part: (S, M) -> seq<T>, models: seq<M>, saved: Saved<I>, indices: seq<nat>, points: seq<Point<seq<T>, S, I>>)
    requires Bounded(indices, |models|) && Follows(step, models, saved, indices, points)
    requires forall d, s, m :: step(d, s, m).ok ==> step(d, s, m).out == d + part(s, m)
    ensures points[|points| - 1].out == points[0].out + Flatten(PartsOf(part, models, saved, indices, points))
  {
    var parts := PartsOf(part, models, saved, indices, points);
    forall k | 0 <= k < |parts| ensures points[k + 1].out == points[k].out + parts[k] {
      assert Leads(step, models, saved, indices[k], points[k], points[k + 1]);
    }
    GrowsBy(points, parts);
  }

  /**
    If steps only append, the document of a pass is the one at the start, then what the conversions
    of the kept models append in document order, then, if any route was opened, the assembly and the
    lifecycle parts, and then what finishing appends.
   */
  lemma DocumentOfRun<T(!new), M(!new), S(!new), I>(steps: Steps<seq<T>, M, S, I>, parts: Parts<T, M, S>,
      models: seq<M>, saved: Saved<I>, out: seq<T>, log: seq<I>, run: Run<seq<T>, S, I>, q: Point<seq<T>, S, I>)
    requires OnlyAppend(steps, parts) && Completes(steps, models, saved, out, log, run, q)
    ensures var st := run.converted[|models|].st;
            q.out == out + Flatten(PartsOf(parts.convert, models, saved, UpTo(|models|), run.converted)) +
                     (if steps.empty(st) then []
                      else parts.assemble(st) +
                           Flatten(PartsOf(parts.lifecycle, models, saved, run.candidates, run.added))) +
                     parts.finish(q.st)
  {
    var p := run.converted[|models|];
    assert Bounded(run.candidates, |models|);
    assert Follows(steps.convert, models, saved, UpTo(|models|), run.converted);
    CallsAppend(steps.convert, parts.convert, models, saved, UpTo(|models|), run.converted);
    if steps.empty(p.st) {
      assert p.out + [] == p.out;
    } else {
      CallsAppend(steps.lifecycle, parts.lifecycle, models, saved, run.candidates, run.added);
      JoinLast(p.out, parts.assemble(p.st),
          Flatten(PartsOf(parts.lifecycle, models, saved, run.candidates, run.added)));
    }
  }

  lemma JoinLast<T>(a: seq<T>, b: seq<T>, c: seq<T>)
    ensures a + b + c == a + (b + c)
  {
  }
}
