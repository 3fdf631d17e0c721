/**
  Whether the log of the model pass can hold an issue twice (convert/issue.go, report;
  convert/model.go, convertModels and convertModelOnce).

  Reporting adds no issue that the log holds. Replaying the issues of a skipped model does not look,
  and relies on the earlier pass: there the call had added only what the log ahead of it lacked.
  The log ahead can be another one by now, because more models are left out.
 */
module IssueLogs {
  import opened Sequences
  import opened Issues
  import opened ModelPasses
  import opened Passes

  // ---------------------------------------------------------------------------------------------
  // Where a pass stands
  // ---------------------------------------------------------------------------------------------

  /** The pass ahead of its first model. */
  ghost function Surveyed<D, M, S, I>(steps: Steps<D, M, S, I>, models: seq<M>, saved: Saved<I>, out: D,
      log: seq<I>): (p: Progress<D, S, I>)
    ensures p.Running?
  {
    Running(out, steps.start, ReportAll(log, steps.survey(KeptModels(models, saved))))
  }

  /** The pass ahead of model n. */
  ghost function AheadOf<D, M, S, I>(steps: Steps<D, M, S, I>, models: seq<M>, saved: Saved<I>, out: D,
      log: seq<I>, n: nat): Progress<D, S, I>
    requires n <= |models|
  {
    Calls(steps.convert, models, saved, UpTo(n), Surveyed(steps, models, saved, out, log))
  }

  /** What a call for a model adds to the log. */
  ghost function Added<D, M, S, I>(step: (D, S, M) -> Outcome<D, S, I>, m: M, q: Progress<D, S, I>): seq<I>
    requires q.Running?
  {
    ReportAll(q.log, step(q.out, q.st, m).reports)[|q.log|..]
  }

  /** Calls that stop do so at a failing call, behind calls that succeed. */
  lemma {:induction false} StoppedAt<D, M, S, I>(step: (D, S, M) -> Outcome<D, S, I>, models: seq<M>,
      saved: Saved<I>, indices: seq<nat>, p: Progress<D, S, I>)
    returns (k: nat, q: Progress<D, S, I>)
    requires Bounded(indices, |models|) && p.Running? && Calls(step, models, saved, indices, p).Stopped?
    ensures k < |indices| && indices[k] !in saved && indices[k] < |models|
    ensures q == CallsTo(step, models, saved, indices, k, p) && q.Running? && !step(q.out, q.st, models[indices[k]]).ok
    ensures Calls(step, models, saved, indices, p) == Stopped(indices[k], Added(step, models[indices[k]], q))
  {
    var init, last := indices[..|indices| - 1], indices[|indices| - 1];
    assert last in indices && forall i :: i in init ==> i in indices;
    if Calls(step, models, saved, init, p).Stopped? {
      k, q := StoppedAt(step, models, saved, init, p);
      assert init[..k] == indices[..k];
    } else {
      k, q := |init|, Calls(step, models, saved, init, p);
    }
  }

  lemma {:induction false} CallsKeepLog<D, M, S, I>(step: (D, S, M) -> Outcome<D, S, I>, models: seq<M>,
      saved: Saved<I>, indices: seq<nat>, p: Progress<D, S, I>)
    requires Bounded(indices, |models|) && p.Running? && Calls(step, models, saved, indices, p).Running?
    ensures p.log <= Calls(step, models, saved, indices, p).log
  {
    if indices != [] {
      var init, last := indices[..|indices| - 1], indices[|indices| - 1];
      assert last in indices && forall i :: i in init ==> i in indices;
      CallsKeepLog(step, models, saved, init, p);
    }
  }

  lemma UpToPrefix(n: nat, k: nat)
    requires k <= n
    ensures UpTo(n)[..k] == UpTo(k)
  {
  }

  lemma CallsUpToNext<D, M, S, I>(step: (D, S, M) -> Outcome<D, S, I>, models: seq<M>, saved: Saved<I>,
      n: nat, p: Progress<D, S, I>)
    requires n < |models|
    ensures Calls(step, models, saved, UpTo(n + 1), p) ==
            Call(step, models, saved, n, Calls(step, models, saved, UpTo(n), p))
  {
    UpToNext(n);
    CallsSnoc(step, models, saved, UpTo(n), n, p);
  }

  /** The call that stopped a pass: a conversion, or a lifecycle call behind all conversions. */
  lemma PassStoppedAt<D, M, S, I>(steps: Steps<D, M, S, I>, models: seq<M>, saved: Saved<I>, out: D, log: seq<I>)
    returns (q: Progress<D, S, I>)
    requires Pass(steps, models, saved, out, log).Stopped?
    ensures var i := Pass(steps, models, saved, out, log).index;
            i < |models| && i !in saved && q.Running? &&
            if AheadOf(steps, models, saved, out, log, |models|).Stopped? then
              q == AheadOf(steps, models, saved, out, log, i) && !steps.convert(q.out, q.st, models[i]).ok &&
              Pass(steps, models, saved, out, log) == Stopped(i, Added(steps.convert, models[i], q))
            else
              AheadOf(steps, models, saved, out, log, |models|).log <= q.log &&
              Pass(steps, models, saved, out, log) == Stopped(i, Added(steps.lifecycle, models[i], q))
  {
    var n, surveyed, k := |models|, Surveyed(steps, models, saved, out, log), 0;
    var p := AheadOf(steps, models, saved, out, log, n);
    if p.Stopped? {
      k, q := StoppedAt(steps.convert, models, saved, UpTo(n), surveyed);
      UpToPrefix(n, k);
    } else {
      k, q := LifecycleStoppedAt(steps, models, saved, p);
    }
  }

  lemma LifecycleStoppedAt<D, M, S, I>(steps: Steps<D, M, S, I>, models: seq<M>, saved: Saved<I>, p: Progress<D, S, I>)
    returns (k: nat, q: Progress<D, S, I>)
    requires p.Running? && Completed(steps, models, saved, p).Stopped?
    ensures k < |models| && k !in saved && q.Running? && p.log <= q.log
    ensures Completed(steps, models, saved, p) == Stopped(k, Added(steps.lifecycle, models[k], q))
  {
    var candidates, a := Candidates(models, steps.eligible, saved, |models|), Assembled(steps, p);
    var c: nat;
    c, q := StoppedAt(steps.lifecycle, models, saved, candidates, a);
    k := candidates[c];
    assert forall i :: i in candidates[..c] ==> i in candidates;
    CallsKeepLog(steps.lifecycle, models, saved, candidates[..c], a);
  }

  // ---------------------------------------------------------------------------------------------
  // The exact condition
  // ---------------------------------------------------------------------------------------------

  lemma ConcatRepeats<I>(log: seq<I>, segment: seq<I>)
    requires NoDup(segment)
    ensures NoDup(log + segment) <==> NoDup(log) && Elements(segment) !! Elements(log)
  {
    assert forall x :: x in log <==> x in Elements(log);
    assert forall x :: x in segment <==> x in Elements(segment);
    var all := log + segment;
    if NoDup(all) {
      assert forall k :: 0 <= k < |log| ==> all[k] == log[k];
      forall x | x in segment ensures x !in log {
        var k :| 0 <= k < |segment| && segment[k] == x;
        assert all[|log| + k] == x;
      }
    } else if NoDup(log) && Elements(segment) !! Elements(log) {
      NoDupConcat(log, segment);
    }
  }

  lemma ReportsRepeat<I>(log: seq<I>, reports: seq<I>)
    ensures NoDup(ReportAll(log, reports)) <==> NoDup(log)
  {
    ReportsAddNew(log, reports);
    var segment := ReportAll(log, reports)[|log|..];
    assert ReportAll(log, reports) == log + segment;
    ConcatRepeats(log, segment);
  }

  /** A call makes the log repeat itself exactly if it replays an issue that the log already holds. */
  lemma CallRepeats<D, M, S, I>(step: (D, S, M) -> Outcome<D, S, I>, models: seq<M>, saved: Saved<I>, i: nat,
      p: Progress<D, S, I>)
    requires i < |models| && p.Running? && Call(step, models, saved, i, p).Running?
    requires i in saved ==> NoDup(saved[i])
    ensures NoDup(Call(step, models, saved, i, p).log) <==>
            NoDup(p.log) && (i in saved ==> Elements(saved[i]) !! Elements(p.log))
  {
    if i in saved {
      ConcatRepeats(p.log, saved[i]);
    } else {
      ReportsRepeat(p.log, step(p.out, p.st, models[i]).reports);
    }
  }

  /** If model i is skipped, the log ahead of it holds none of the issues that it replays. */
  ghost predicate FreshAt<D, M, S, I>(step: (D, S, M) -> Outcome<D, S, I>, models: seq<M>, saved: Saved<I>, i: nat,
      p: Progress<D, S, I>)
    requires i <= |models|
  {
    i in saved ==>
      Calls(step, models, saved, UpTo(i), p).Running? &&
      Elements(saved[i]) !! Elements(Calls(step, models, saved, UpTo(i), p).log)
  }

  ghost predicate AllFresh<D, M, S, I>(step: (D, S, M) -> Outcome<D, S, I>, models: seq<M>, saved: Saved<I>, n: nat,
      p: Progress<D, S, I>)
    requires n <= |models|
  {
    forall i: nat :: i < n ==> FreshAt(step, models, saved, i, p)
  }

  lemma AllFreshNext<D, M, S, I>(step: (D, S, M) -> Outcome<D, S, I>, models: seq<M>, saved: Saved<I>, m: nat, n: nat,
      p: Progress<D, S, I>)
    requires n == m + 1 <= |models|
    ensures AllFresh(step, models, saved, n, p) <==>
            AllFresh(step, models, saved, m, p) && FreshAt(step, models, saved, m, p)
  {
  }

  /** The conversions keep the log free of repeats exactly if each replay is of issues that the log ahead lacks. */
  lemma {:induction false} ConversionsRepeat<D, M, S, I>(step: (D, S, M) -> Outcome<D, S, I>, models: seq<M>,
      saved: Saved<I>, n: nat, p: Progress<D, S, I>)
    requires n <= |models| && p.Running? && NoDup(p.log) && Calls(step, models, saved, UpTo(n), p).Running?
    requires forall i :: i in saved ==> NoDup(saved[i])
    ensures NoDup(Calls(step, models, saved, UpTo(n), p).log) <==> AllFresh(step, models, saved, n, p)
  {
    if n > 0 {
      var m := n - 1;
      CallsUpToNext(step, models, saved, m, p);
      ConversionsRepeat(step, models, saved, m, p);
      AllFreshNext(step, models, saved, m, n, p);
      CallRepeats(step, models, saved, m, Calls(step, models, saved, UpTo(m), p));
    }
  }

  /** Calls that replay nothing keep the log free of repeats. */
  lemma {:induction false} LifecyclesRepeat<D, M, S, I>(step: (D, S, M) -> Outcome<D, S, I>, models: seq<M>,
      saved: Saved<I>, indices: seq<nat>, p: Progress<D, S, I>)
    requires Bounded(indices, |models|) && p.Running? && Calls(step, models, saved, indices, p).Running?
    requires forall i :: i in indices ==> i !in saved
    ensures NoDup(Calls(step, models, saved, indices, p).log) <==> NoDup(p.log)
  {
    if indices != [] {
      var init, last := indices[..|indices| - 1], indices[|indices| - 1];
      assert last in indices && forall i :: i in init ==> i in indices;
      LifecyclesRepeat(step, models, saved, init, p);
      var q := Calls(step, models, saved, init, p);
      ReportsRepeat(q.log, step(q.out, q.st, models[last]).reports);
    }
  }

  lemma {:induction false} SavedOnce<D, M, S, I>(steps: Steps<D, M, S, I>, models: seq<M>, out: D, log: seq<I>,
      order: seq<nat>, saved: Saved<I>)
    requires Failures(steps, models, out, log, order, saved)
    ensures forall i :: i in saved ==> i < |models| && NoDup(saved[i])
    decreases |order|
  {
    if order != [] {
      var last := order[|order| - 1];
      var before := saved - {last};
      SavedOnce(steps, models, out, log, order[..|order| - 1], before);
      var q := PassStoppedAt(steps, models, before, out, log);
      ReportsAddNew(q.log, steps.convert(q.out, q.st, models[last]).reports);
      ReportsAddNew(q.log, steps.lifecycle(q.out, q.st, models[last]).reports);
      assert forall i :: i in saved && i != last ==> i in before && saved[i] == before[i];
    }
  }

  /** No skipped model replays an issue that the log ahead of it holds. */
  ghost predicate ReplaysFresh<D, M, S, I>(steps: Steps<D, M, S, I>, models: seq<M>, saved: Saved<I>, out: D,
      log: seq<I>) {
    AllFresh(steps.convert, models, saved, |models|, Surveyed(steps, models, saved, out, log))
  }

  /** The log that is left after all restarts holds an issue twice exactly if a replay adds one that it holds. */
  lemma LogRepeatsExactly<D, M, S, I>(steps: Steps<D, M, S, I>, models: seq<M>, out: D, log: seq<I>,
      order: seq<nat>, saved: Saved<I>)
    requires Failures(steps, models, out, log, order, saved) && NoDup(log)
    requires Pass(steps, models, saved, out, log).Running?
    ensures NoDup(Pass(steps, models, saved, out, log).log) <==> ReplaysFresh(steps, models, saved, out, log)
  {
    var n, surveyed := |models|, Surveyed(steps, models, saved, out, log);
    SavedOnce(steps, models, out, log, order, saved);
    ReportsRepeat(log, steps.survey(KeptModels(models, saved)));
    ConversionsRepeat(steps.convert, models, saved, n, surveyed);
    CompletionRepeats(steps, models, saved, AheadOf(steps, models, saved, out, log, n));
  }

  lemma CompletionRepeats<D, M, S, I>(steps: Steps<D, M, S, I>, models: seq<M>, saved: Saved<I>, p: Progress<D, S, I>)
    requires p.Running? && Completed(steps, models, saved, p).Running?
    ensures NoDup(Completed(steps, models, saved, p).log) <==> NoDup(p.log)
  {
    if !steps.empty(p.st) {
      ReportsRepeat(p.log, steps.assemble(p.out, p.st).reports);
      LifecyclesRepeat(steps.lifecycle, models, saved, Candidates(models, steps.eligible, saved, |models|),
          Assembled(steps, p));
    }
  }

  // ---------------------------------------------------------------------------------------------
  // Failures in the conversion only
  // ---------------------------------------------------------------------------------------------

  /** Each failed pass stopped at a conversion, not at a lifecycle route. */
  ghost predicate InConversion<D, M, S, I>(steps: Steps<D, M, S, I>, models: seq<M>, out: D, log: seq<I>,
      order: seq<nat>, saved: Saved<I>) {
    order != [] ==>
      var last := order[|order| - 1];
      InConversion(steps, models, out, log, order[..|order| - 1], saved - {last}) &&
      AheadOf(steps, models, saved - {last}, out, log, |models|).Stopped?
  }

  /** The survey and the conversions report different issues. */
  ghost predicate SurveyApart<D(!new), M(!new), S(!new), I(!new)>(steps: Steps<D, M, S, I>) {
    forall ms, out, st, m, x :: x in steps.survey(ms) ==> x !in steps.convert(out, st, m).reports
  }

  /** The same calls from two logs: one log stays the other with the issues of s. */
  lemma {:induction false} MoreInLog<D, M, S, I>(step: (D, S, M) -> Outcome<D, S, I>, models: seq<M>, saved: Saved<I>,
      n: nat, p: Progress<D, S, I>, q: Progress<D, S, I>, s: set<I>)
    requires n <= |models| && p.Running? && q.Running? && p.out == q.out && p.st == q.st
    requires Elements(p.log) == Elements(q.log) + s
    ensures var p', q' := Calls(step, models, saved, UpTo(n), p), Calls(step, models, saved, UpTo(n), q);
            p'.Running? == q'.Running? &&
            (p'.Running? ==> p'.out == q'.out && p'.st == q'.st && Elements(p'.log) == Elements(q'.log) + s)
  {
    if n > 0 {
      var m := n - 1;
      CallsUpToNext(step, models, saved, m, p);
      CallsUpToNext(step, models, saved, m, q);
      MoreInLog(step, models, saved, m, p, q, s);
      if m in saved && Calls(step, models, saved, UpTo(m), p).Running? {
        ElementsConcat(Calls(step, models, saved, UpTo(m), p).log, saved[m]);
        ElementsConcat(Calls(step, models, saved, UpTo(m), q).log, saved[m]);
      }
    }
  }

  lemma ElementsConcat<I>(a: seq<I>, b: seq<I>)
    ensures Elements(a + b) == Elements(a) + Elements(b)
  {
  }

  /** The calls for the first n models depend only on what is skipped among them. */
  lemma {:induction false} SameBelow<D, M, S, I>(step: (D, S, M) -> Outcome<D, S, I>, models: seq<M>, saved: Saved<I>,
      more: Saved<I>, n: nat, p: Progress<D, S, I>)
    requires n <= |models| &&
             forall j :: 0 <= j < n ==> (j in saved <==> j in more) && (j in saved ==> saved[j] == more[j])
    ensures Calls(step, models, saved, UpTo(n), p) == Calls(step, models, more, UpTo(n), p)
  {
    if n > 0 {
      CallsUpToNext(step, models, saved, n - 1, p);
      CallsUpToNext(step, models, more, n - 1, p);
      SameBelow(step, models, saved, more, n - 1, p);
    }
  }

  /** Each skipped model was converted in vain, and without the survey its replay finds none of its issues. */
  ghost predicate FreshConversions<D(!new), M(!new), S(!new), I(!new)>(steps: Steps<D, M, S, I>, models: seq<M>,
      saved: Saved<I>, p: Progress<D, S, I>) {
    forall i: nat :: i in saved ==>
      i < |models| && FreshAt(steps.convert, models, saved, i, p) &&
      exists out, st :: Elements(saved[i]) <= Elements(steps.convert(out, st, models[i]).reports)
  }

  /** A pass stops behind all models that failed before. */
  lemma StopsBehind<D(!new), M(!new), S(!new), I(!new)>(steps: Steps<D, M, S, I>, models: seq<M>, saved: Saved<I>,
      k: nat, p: Progress<D, S, I>, i: nat)
    requires p.Running? && FreshConversions(steps, models, saved, p) && i in saved && k !in saved && k < |models|
    requires var q := Calls(steps.convert, models, saved, UpTo(k), p);
             q.Running? && !steps.convert(q.out, q.st, models[k]).ok
    ensures i < k
  {
    CallsUpToNext(steps.convert, models, saved, k, p);
    if k < i {
      var n := k + 1;
      UpToPrefix(i, n);
      StaysStopped(steps.convert, models, saved, UpTo(n), UpTo(i), p);
    }
  }

  lemma {:induction false} ConversionsFresh<D(!new), M(!new), S(!new), I(!new)>(steps: Steps<D, M, S, I>,
      models: seq<M>,
      out: D, log: seq<I>, order: seq<nat>, saved: Saved<I>)
    requires Failures(steps, models, out, log, order, saved) && InConversion(steps, models, out, log, order, saved)
    ensures FreshConversions(steps, models, saved, Running(out, steps.start, log))
    decreases |order|
  {
    if order != [] {
      var k := order[|order| - 1];
      var before := saved - {k};
      ConversionsFresh(steps, models, out, log, order[..|order| - 1], before);
      FreshFailure(steps, models, out, log, before, k, saved);
    }
  }

  /** What is saved for a model that stops a pass is new in the log, and among what its conversion reported. */
  lemma FailureIsReported<D(!new), M(!new), S(!new), I(!new)>(steps: Steps<D, M, S, I>, models: seq<M>, out: D,
      log: seq<I>, before: Saved<I>, k: nat, segment: seq<I>)
    requires Pass(steps, models, before, out, log) == Stopped(k, segment)
    requires AheadOf(steps, models, before, out, log, |models|).Stopped?
    ensures k < |models| && k !in before && AheadOf(steps, models, before, out, log, k).Running?
    ensures var q := AheadOf(steps, models, before, out, log, k);
            Elements(segment) !! Elements(q.log) && !steps.convert(q.out, q.st, models[k]).ok
    ensures exists d, st :: Elements(segment) <= Elements(steps.convert(d, st, models[k]).reports)
  {
    var q := PassStoppedAt(steps, models, before, out, log);
    ReportsAddNew(q.log, steps.convert(q.out, q.st, models[k]).reports);
  }

  lemma FreshFailure<D(!new), M(!new), S(!new), I(!new)>(steps: Steps<D, M, S, I>, models: seq<M>, out: D, log: seq<I>,
      before: Saved<I>, k: nat, saved: Saved<I>)
    requires FreshConversions(steps, models, before, Running(out, steps.start, log))
    requires k in saved && before == saved - {k} && Pass(steps, models, before, out, log) == Stopped(k, saved[k])
    requires AheadOf(steps, models, before, out, log, |models|).Stopped?
    ensures FreshConversions(steps, models, saved, Running(out, steps.start, log))
  {
    var p, survey := Running(out, steps.start, log), Elements(steps.survey(KeptModels(models, before)));
    FailureIsReported(steps, models, out, log, before, k, saved[k]);
    MoreInLog(steps.convert, models, before, k, Surveyed(steps, models, before, out, log), p, survey);
    assert FreshAt(steps.convert, models, saved, k, p) by {
      SameBelow(steps.convert, models, saved, before, k, p);
    }
    forall i: nat | i in saved
      ensures i < |models| && FreshAt(steps.convert, models, saved, i, p)
      ensures exists out, st :: Elements(saved[i]) <= Elements(steps.convert(out, st, models[i]).reports)
    {
      if i != k {
        StopsBehind(steps, models, before, k, p, i);
        EarlierFresh(steps.convert, models, before, k, saved, i, p);
      }
    }
  }

  /** An earlier failure is as fresh as before. */
  lemma EarlierFresh<D, M, S, I>(step: (D, S, M) -> Outcome<D, S, I>, models: seq<M>, before: Saved<I>, k: nat,
      saved: Saved<I>, i: nat, p: Progress<D, S, I>)
    requires i < k <= |models| && i in saved && before == saved - {k} && FreshAt(step, models, before, i, p)
    ensures FreshAt(step, models, saved, i, p)
  {
    assert i in before && saved[i] == before[i];
    SameBelow(step, models, saved, before, i, p);
  }

  /**
    If no lifecycle route failed, the log never holds an issue twice: failures only ever come later
    in the document, so the log ahead of a replay is the one that the failed call found.
   */
  lemma ConversionFailuresNeverRepeat<D(!new), M(!new), S(!new), I(!new)>(steps: Steps<D, M, S, I>, models: seq<M>,
      out: D, log: seq<I>, order: seq<nat>, saved: Saved<I>)
    requires Failures(steps, models, out, log, order, saved) && NoDup(log) &&
             Pass(steps, models, saved, out, log).Running?
    requires InConversion(steps, models, out, log, order, saved) && SurveyApart(steps)
    ensures NoDup(Pass(steps, models, saved, out, log).log)
  {
    var p, survey := Running(out, steps.start, log), steps.survey(KeptModels(models, saved));
    ConversionsFresh(steps, models, out, log, order, saved);
    forall i: nat | i < |models|
      ensures FreshAt(steps.convert, models, saved, i, Surveyed(steps, models, saved, out, log))
    {
      MoreInLog(steps.convert, models, saved, i, Surveyed(steps, models, saved, out, log), p, Elements(survey));
    }
    LogRepeatsExactly(steps, models, out, log, order, saved);
  }

  // ---------------------------------------------------------------------------------------------
  // Issues that name their model
  // ---------------------------------------------------------------------------------------------

  /**
    The names of models, the model that an issue names, and the issues of a model that name no model:
    those of the policies and auth strategies that it uses.
   */
  datatype Sources<!M, !I> = Sources(name: M -> string, named: I -> Option<string>, common: M -> set<I>)

  /** A model with this issue: the one that it names, or one that uses what it is about. */
  ghost predicate Belongs<M, I>(w: Sources<M, I>, m: M, x: I) {
    match w.named(x)
    case Some(name) => name == w.name(m)
    case None => x in w.common(m)
  }

  /**
    Calls report issues of their model, a conversion that succeeds all the common ones; the survey names the
    models.
   */
  ghost predicate Sourced<D(!new), M(!new), S(!new), I(!new)>(steps: Steps<D, M, S, I>, w: Sources<M, I>) {
    (forall out, st, m, x :: x in steps.convert(out, st, m).reports ==> Belongs(w, m, x)) &&
    (forall out, st, m, x :: x in steps.lifecycle(out, st, m).reports ==> Belongs(w, m, x)) &&
    (forall out, st, m ::
        steps.convert(out, st, m).ok ==> w.common(m) <= Elements(steps.convert(out, st, m).reports)) &&
    (forall ms, x :: SurveyNames(steps, w, ms, x))
  }

  /** An issue of the survey names one of the models. */
  ghost predicate SurveyNames<D, M, S, I>(steps: Steps<D, M, S, I>, w: Sources<M, I>, ms: seq<M>, x: I) {
    x in steps.survey(ms) ==> exists m :: m in ms && w.named(x) == Some(w.name(m))
  }

  ghost predicate DistinctModels<M, I>(w: Sources<M, I>, models: seq<M>) {
    forall i, j :: 0 <= i < j < |models| ==> w.name(models[i]) != w.name(models[j])
  }

  ghost predicate OwnIssues<M, I>(w: Sources<M, I>, m: M, log: seq<I>, issues: seq<I>) {
    forall x :: x in issues ==> Belongs(w, m, x) && x !in log
  }

  /** What is known of the issues of skipped models. */
  ghost predicate Apart<M, I>(w: Sources<M, I>, models: seq<M>, log: seq<I>, saved: Saved<I>) {
    (forall i :: i in saved ==> i < |models| && OwnIssues(w, models[i], log, saved[i])) &&
    (forall i, j :: i in saved && j in saved && i != j ==> Elements(saved[i]) !! Elements(saved[j])) &&
    (forall i, j :: i in saved && 0 <= j < i && j !in saved ==> w.common(models[j]) !! Elements(saved[i]))
  }

  /** What model j puts into the log for sure: its saved issues if it is skipped, else the common ones. */
  ghost function Certain<M, I>(w: Sources<M, I>, models: seq<M>, saved: Saved<I>, j: nat): set<I>
    requires j < |models|
  {
    if j in saved then Elements(saved[j]) else w.common(models[j])
  }

  lemma CertainAdded<D(!new), M(!new), S(!new), I(!new)>(steps: Steps<D, M, S, I>, w: Sources<M, I>,
      models: seq<M>, saved: Saved<I>, j: nat, q: Progress<D, S, I>)
    requires j < |models| && Sourced(steps, w) && q.Running? && Call(steps.convert, models, saved, j, q).Running?
    ensures Certain(w, models, saved, j) <= Elements(Call(steps.convert, models, saved, j, q).log)
  {
    if j in saved {
      ElementsConcat(q.log, saved[j]);
    }
  }

  /** The log ahead of model n holds what each earlier model puts into it for sure. */
  lemma {:induction false} AheadHolds<D(!new), M(!new), S(!new), I(!new)>(steps: Steps<D, M, S, I>, w: Sources<M, I>,
      models: seq<M>, saved: Saved<I>, j: nat, n: nat, p: Progress<D, S, I>)
    requires j < n <= |models| && Sourced(steps, w) && p.Running? &&
             Calls(steps.convert, models, saved, UpTo(n), p).Running?
    ensures Certain(w, models, saved, j) <= Elements(Calls(steps.convert, models, saved, UpTo(n), p).log)
    decreases n
  {
    var m := n - 1;
    CallsUpToNext(steps.convert, models, saved, m, p);
    var q := Calls(steps.convert, models, saved, UpTo(m), p);
    if j == m {
      CertainAdded(steps, w, models, saved, j, q);
    } else {
      AheadHolds(steps, w, models, saved, j, m, p);
      assert q.log <= Calls(steps.convert, models, saved, UpTo(n), p).log;
      ElementsOfPrefix(q.log, Calls(steps.convert, models, saved, UpTo(n), p).log);
    }
  }

  lemma ElementsOfPrefix<I>(a: seq<I>, b: seq<I>)
    requires a <= b
    ensures Elements(a) <= Elements(b)
  {
  }

  /** If no issue of t is in the log or replayed or reported ahead of model n, none is in the log ahead of it. */
  lemma {:induction false} StaysClear<D(!new), M, S(!new), I>(step: (D, S, M) -> Outcome<D, S, I>, models: seq<M>,
      saved: Saved<I>, n: nat, p: Progress<D, S, I>, t: set<I>)
    requires n <= |models| && p.Running? && Calls(step, models, saved, UpTo(n), p).Running?
    requires t !! Elements(p.log)
    requires forall j :: 0 <= j < n && j in saved ==> t !! Elements(saved[j])
    requires forall j, out, st :: 0 <= j < n && j !in saved ==> t !! Elements(step(out, st, models[j]).reports)
    ensures t !! Elements(Calls(step, models, saved, UpTo(n), p).log)
  {
    if n > 0 {
      var m := n - 1;
      CallsUpToNext(step, models, saved, m, p);
      StaysClear(step, models, saved, m, p, t);
      if m in saved {
        ElementsConcat(Calls(step, models, saved, UpTo(m), p).log, saved[m]);
      }
    }
  }

  /** One more failed pass adds issues that keep apart from all others. */
  lemma FailureApart<D(!new), M(!new), S(!new), I(!new)>(steps: Steps<D, M, S, I>, w: Sources<M, I>, models: seq<M>,
      out: D, log: seq<I>, before: Saved<I>, k: nat, saved: Saved<I>)
    requires Sourced(steps, w) && DistinctModels(w, models) && Apart(w, models, log, before)
    requires k in saved && before == saved - {k} && Pass(steps, models, before, out, log) == Stopped(k, saved[k])
    ensures Apart(w, models, log, saved)
  {
    FailureNew(steps, w, models, out, log, before, k, saved[k]);
    forall j | j in before ensures Elements(saved[k]) !! Elements(before[j]) {
      OthersApart(w, models, log, before, k, saved[k], j);
    }
    AddApart(w, models, log, before, k, saved);
  }

  lemma AddApart<M, I>(w: Sources<M, I>, models: seq<M>, log: seq<I>, before: Saved<I>, k: nat, saved: Saved<I>)
    requires Apart(w, models, log, before) && k in saved && before == saved - {k} && k < |models|
    requires OwnIssues(w, models[k], log, saved[k])
    requires forall j :: j in before ==> Elements(saved[k]) !! Elements(before[j])
    requires forall j :: 0 <= j < k ==> Certain(w, models, before, j) !! Elements(saved[k])
    ensures Apart(w, models, log, saved)
  {
    assert forall i :: i in saved <==> i in before || i == k;
    assert forall i :: i in before ==> saved[i] == before[i];
    forall i, j | i in saved && j in saved && i != j ensures Elements(saved[i]) !! Elements(saved[j]) {
      if i == k {
        assert j in before;
      } else if j == k {
        assert i in before;
      }
    }
    forall i, j | i in saved && 0 <= j < i && j !in saved ensures w.common(models[j]) !! Elements(saved[i]) {
      if i == k {
        assert Certain(w, models, before, j) == w.common(models[j]);
      }
    }
  }

  /**
    The issues of a failed call belong to its model, are not in the log at the start, and none was certain
    before it.
   */
  lemma FailureNew<D(!new), M(!new), S(!new), I(!new)>(steps: Steps<D, M, S, I>, w: Sources<M, I>, models: seq<M>,
      out: D, log: seq<I>, before: Saved<I>, k: nat, segment: seq<I>)
    requires Sourced(steps, w) && k !in before && Pass(steps, models, before, out, log) == Stopped(k, segment)
    ensures k < |models| && OwnIssues(w, models[k], log, segment)
    ensures forall j :: 0 <= j < k ==> Certain(w, models, before, j) !! Elements(segment)
  {
    var n, surveyed := |models|, Surveyed(steps, models, before, out, log);
    var q := PassStoppedAt(steps, models, before, out, log);
    var inConversion := AheadOf(steps, models, before, out, log, n).Stopped?;
    var reports := if inConversion then steps.convert(q.out, q.st, models[k]).reports
        else steps.lifecycle(q.out, q.st, models[k]).reports;
    var m := if inConversion then k else n;
    var ahead := AheadOf(steps, models, before, out, log, m);
    ReportsAddNew(q.log, reports);
    CallsKeepLog(steps.convert, models, before, UpTo(m), surveyed);
    assert log <= surveyed.log <= ahead.log <= q.log;
    ElementsOfPrefix(log, q.log);
    ElementsOfPrefix(ahead.log, q.log);
    forall x | x in segment ensures Belongs(w, models[k], x) && x !in log {
      assert x in Elements(segment);
    }
    forall j | 0 <= j < k ensures Certain(w, models, before, j) !! Elements(segment) {
      AheadHolds(steps, w, models, before, j, m, surveyed);
    }
  }

  /** The issues of a failed call are not those of a model that was skipped before. */
  lemma OthersApart<M, I>(w: Sources<M, I>, models: seq<M>, log: seq<I>, before: Saved<I>, k: nat, segment: seq<I>,
      j: nat)
    requires DistinctModels(w, models) && Apart(w, models, log, before) && k < |models| && k !in before && j in before
    requires OwnIssues(w, models[k], log, segment)
    requires j < k ==> Certain(w, models, before, j) !! Elements(segment)
    ensures Elements(segment) !! Elements(before[j])
  {
    if j > k {
      forall x | x in Elements(segment) ensures x !in Elements(before[j]) {
        if x in Elements(before[j]) {
          assert x in segment && x in before[j];
          BelongsToBoth(w, models, k, j, x);
        }
      }
    }
  }

  /** An issue of two models names neither, and is common to both. */
  lemma BelongsToBoth<M, I>(w: Sources<M, I>, models: seq<M>, i: nat, j: nat, x: I)
    requires DistinctModels(w, models) && i < |models| && j < |models| && i != j
    requires Belongs(w, models[i], x) && Belongs(w, models[j], x)
    ensures w.named(x) == None && x in w.common(models[i]) && x in w.common(models[j])
  {
  }

  lemma {:induction false} FailuresApart<D(!new), M(!new), S(!new), I(!new)>(steps: Steps<D, M, S, I>, w: Sources<M, I>,
      models: seq<M>, out: D, log: seq<I>, order: seq<nat>, saved: Saved<I>)
    requires Sourced(steps, w) && DistinctModels(w, models) && Failures(steps, models, out, log, order, saved)
    ensures Apart(w, models, log, saved)
    decreases |order|
  {
    if order != [] {
      var k := order[|order| - 1];
      FailuresApart(steps, w, models, out, log, order[..|order| - 1], saved - {k});
      FailureApart(steps, w, models, out, log, saved - {k}, k, saved);
    }
  }

  lemma {:induction false} KeptFrom<M, I>(models: seq<M>, saved: Saved<I>, n: nat, m: M) returns (a: nat)
    requires n <= |models| && m in KeptTo(models, saved, n)
    ensures a < n && a !in saved && models[a] == m
  {
    var i := n - 1;
    KeptNext(models, saved, i);
    if m in KeptTo(models, saved, i) {
      a := KeptFrom(models, saved, i, m);
    } else {
      a := i;
    }
  }

  /** A kept model does not report the issues of a skipped model behind it. */
  lemma OwnClear<M, I>(w: Sources<M, I>, models: seq<M>, log: seq<I>, saved: Saved<I>, i: nat, j: nat, reports: seq<I>)
    requires DistinctModels(w, models) && Apart(w, models, log, saved) && i in saved && j < i && j !in saved
    requires forall x :: x in reports ==> Belongs(w, models[j], x)
    ensures Elements(saved[i]) !! Elements(reports)
  {
    forall x | x in saved[i] && Belongs(w, models[j], x) ensures x in w.common(models[j]) {
      BelongsToBoth(w, models, i, j, x);
    }
  }

  /** No issue of a skipped model is in the log at its replay. */
  lemma ReplayClear<D(!new), M(!new), S(!new), I(!new)>(steps: Steps<D, M, S, I>, w: Sources<M, I>, models: seq<M>,
      out: D, log: seq<I>, saved: Saved<I>, i: nat)
    requires Sourced(steps, w) && DistinctModels(w, models) && Apart(w, models, log, saved) && i in saved
    requires AheadOf(steps, models, saved, out, log, i).Running?
    ensures Elements(saved[i]) !! Elements(AheadOf(steps, models, saved, out, log, i).log)
  {
    var surveyed, t := Surveyed(steps, models, saved, out, log), Elements(saved[i]);
    forall x | x in t ensures x !in Elements(surveyed.log) {
      assert x in saved[i];
      if x in steps.survey(KeptModels(models, saved)) {
        assert SurveyNames(steps, w, KeptModels(models, saved), x);
        var m :| m in KeptModels(models, saved) && w.named(x) == Some(w.name(m));
        var a := KeptFrom(models, saved, |models|, m);
        BelongsToBoth(w, models, i, a, x);
      }
    }
    forall j, o, st | 0 <= j < i && j !in saved ensures t !! Elements(steps.convert(o, st, models[j]).reports) {
      OwnClear(w, models, log, saved, i, j, steps.convert(o, st, models[j]).reports);
    }
    StaysClear(steps.convert, models, saved, i, surveyed, t);
  }

  /**
    If models have distinct names and issues name the model that they are about, the log never holds
    an issue twice, whichever calls fail.
   */
  lemma SourcedNeverRepeats<D(!new), M(!new), S(!new), I(!new)>(steps: Steps<D, M, S, I>, w: Sources<M, I>,
      models: seq<M>, out: D, log: seq<I>, order: seq<nat>, saved: Saved<I>)
    requires Sourced(steps, w) && DistinctModels(w, models) && NoDup(log)
    requires Failures(steps, models, out, log, order, saved) && Pass(steps, models, saved, out, log).Running?
    ensures NoDup(Pass(steps, models, saved, out, log).log)
  {
    FailuresApart(steps, w, models, out, log, order, saved);
    var surveyed := Surveyed(steps, models, saved, out, log);
    forall i: nat | i < |models| ensures FreshAt(steps.convert, models, saved, i, surveyed) {
      if i in saved {
        PrefixRuns(steps.convert, models, saved, i, |models|, surveyed);
        ReplayClear(steps, w, models, out, log, saved, i);
      }
    }
    LogRepeatsExactly(steps, models, out, log, order, saved);
  }

  /** Calls that run to their end have run all the way. */
  lemma PrefixRuns<D, M, S, I>(step: (D, S, M) -> Outcome<D, S, I>, models: seq<M>, saved: Saved<I>, i: nat, n: nat,
      p: Progress<D, S, I>)
    requires i <= n <= |models| && Calls(step, models, saved, UpTo(n), p).Running?
    ensures Calls(step, models, saved, UpTo(i), p).Running?
  {
    UpToPrefix(n, i);
    StaysStopped(step, models, saved, UpTo(i), UpTo(n), p);
  }
}
