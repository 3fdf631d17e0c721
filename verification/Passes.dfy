/**
  One pass over the models of a document (convert/model.go, convertModelsPass).

  A pass converts the models in document order, skipping those that failed before, assembles the
  document, and adds the lifecycle routes. It stops at the first call that fails.
 */
module Passes {
  import opened Sequences
  import opened Issues

  /** The outcome of one conversion step: document, pass state, reported issues, and whether it succeeded. */
  datatype Outcome<D, S, I> = Outcome(out: D, st: S, reports: seq<I>, ok: bool)

  /** The outcome of assembling the document, which cannot fail. */
  datatype Assembly<D, S, I> = Assembly(out: D, st: S, reports: seq<I>)

  /**
    The conversion steps, as functions of what they read: the document D, the pass state S, and a
    model M. A step reports issues but does not read the log.
   */
  datatype Steps<!D, !M, !S, I> = Steps(
    start: S,
    survey: seq<M> -> seq<I>,
    eligible: M -> bool,
    convert: (D, S, M) -> Outcome<D, S, I>,
    empty: S -> bool,
    assemble: (D, S) -> Assembly<D, S, I>,
    lifecycle: (D, S, M) -> Outcome<D, S, I>,
    finish: (D, S) -> D)

  /** The issues of each skipped model, by index. */
  type Saved<I> = map<nat, seq<I>>

  /** Where a pass is: still running, or stopped by the failure of a model with the issues of its call. */
  datatype Progress<D, S, I> = Running(out: D, st: S, log: seq<I>) | Stopped(index: nat, segment: seq<I>)

  // ---------------------------------------------------------------------------------------------
  // One pass
  // ---------------------------------------------------------------------------------------------

  /** One call for model i. */
  ghost function Call<D, M, S, I>(step: (D, S, M) -> Outcome<D, S, I>, models: seq<M>, saved: Saved<I>, i: nat,
      p: Progress<D, S, I>): Progress<D, S, I>
    requires i < |models|
  {
    if p.Stopped? then p
    else if i in saved then p.(log := p.log + saved[i])
    else
      var o := step(p.out, p.st, models[i]);
      var log := ReportAll(p.log, o.reports);
      if o.ok then Running(o.out, o.st, log) else Stopped(i, log[|p.log|..])
  }

  ghost predicate Bounded(indices: seq<nat>, n: nat) {
    forall i :: i in indices ==> i < n
  }

  ghost function Calls<D, M, S, I>(step: (D, S, M) -> Outcome<D, S, I>, models: seq<M>, saved: Saved<I>,
      indices: seq<nat>, p: Progress<D, S, I>): Progress<D, S, I>
    requires Bounded(indices, |models|)
  {
    if indices == [] then p
    else
      var init, last := indices[..|indices| - 1], indices[|indices| - 1];
      assert last in indices && forall i :: i in init ==> i in indices;
      Call(step, models, saved, last, Calls(step, models, saved, init, p))
  }

  ghost function CallsTo<D, M, S, I>(step: (D, S, M) -> Outcome<D, S, I>, models: seq<M>, saved: Saved<I>,
      indices: seq<nat>, k: nat, p: Progress<D, S, I>): Progress<D, S, I>
    requires k <= |indices| && Bounded(indices, |models|)
  {
    assert forall i :: i in indices[..k] ==> i in indices;
    Calls(step, models, saved, indices[..k], p)
  }

  /** The first n indices that are not skipped. */
  ghost function Kept<I>(saved: Saved<I>, n: nat): (kept: seq<nat>)
    ensures forall i: nat :: i in kept <==> i < n && i !in saved
  {
    if n == 0 then [] else Kept(saved, n - 1) + if n - 1 in saved then [] else [n - 1]
  }

  /** The models that a pass does not skip. */
  ghost function KeptModels<M, I>(models: seq<M>, saved: Saved<I>): seq<M> {
    KeptTo(models, saved, |models|)
  }

  ghost function KeptTo<M, I>(models: seq<M>, saved: Saved<I>, n: nat): seq<M>
    requires n <= |models|
  {
    At(models, Kept(saved, n))
  }

  lemma KeptNext<M, I>(models: seq<M>, saved: Saved<I>, i: nat)
    requires i < |models|
    ensures KeptTo(models, saved, i + 1) ==
            if i in saved then KeptTo(models, saved, i) else KeptTo(models, saved, i) + [models[i]]
  {
    AtConcat(models, Kept(saved, i), [i]);
  }

  function UpTo(n: nat): (indices: seq<nat>)
    ensures |indices| == n && forall i :: i in indices ==> i < n
  {
    seq(n, i requires 0 <= i < n => i)
  }

  /** The indices of the models with video lifecycle routes, among those kept. */
  ghost function Candidates<M, I>(models: seq<M>, eligible: M -> bool, saved: Saved<I>, n: nat): (indices: seq<nat>)
    requires n <= |models|
    ensures forall i :: i in indices ==> i < n && i !in saved
  {
    if n == 0 then []
    else Candidates(models, eligible, saved, n - 1) + if n - 1 !in saved && eligible(models[n - 1]) then [n - 1] else []
  }

  /** A pass over the models: the document, the pass state and the log at its end, or the failure that stopped it. */
  ghost function Pass<D, M, S, I>(steps: Steps<D, M, S, I>, models: seq<M>, saved: Saved<I>, out: D,
      log: seq<I>): Progress<D, S, I> {
    var surveyed := Running(out, steps.start, ReportAll(log, steps.survey(KeptModels(models, saved))));
    Completed(steps, models, saved, Calls(steps.convert, models, saved, UpTo(|models|), surveyed))
  }

  /** The document with the routes of the models in it. */
  ghost function Assembled<D, M, S, I>(steps: Steps<D, M, S, I>, p: Progress<D, S, I>): (q: Progress<D, S, I>)
    requires p.Running?
    ensures q.Running?
  {
    var a := steps.assemble(p.out, p.st);
    Running(a.out, a.st, ReportAll(p.log, a.reports))
  }

  /** The part of a pass behind the models. */
  ghost function Completed<D, M, S, I>(steps: Steps<D, M, S, I>, models: seq<M>, saved: Saved<I>,
      p: Progress<D, S, I>): Progress<D, S, I> {
    if p.Stopped? then p
    else if steps.empty(p.st) then p.(out := steps.finish(p.out, p.st))
    else
      var q := Calls(steps.lifecycle, models, saved, Candidates(models, steps.eligible, saved, |models|),
          Assembled(steps, p));
      if q.Stopped? then q else q.(out := steps.finish(q.out, q.st))
  }

  // ---------------------------------------------------------------------------------------------
  // What a pass does
  // ---------------------------------------------------------------------------------------------

  /** A pass stops only at a model that it does not skip. */
  lemma {:induction false} CallsStop<D, M, S, I>(step: (D, S, M) -> Outcome<D, S, I>, models: seq<M>,
      saved: Saved<I>, indices: seq<nat>, p: Progress<D, S, I>)
    requires Bounded(indices, |models|)
    requires p.Running? && Calls(step, models, saved, indices, p).Stopped?
    ensures Calls(step, models, saved, indices, p).index < |models|
    ensures Calls(step, models, saved, indices, p).index !in saved
  {
    var init, last := indices[..|indices| - 1], indices[|indices| - 1];
    assert last in indices && forall i :: i in init ==> i in indices;
    if Calls(step, models, saved, init, p).Stopped? {
      CallsStop(step, models, saved, init, p);
    }
  }

  lemma PassStops<D, M, S, I>(steps: Steps<D, M, S, I>, models: seq<M>, saved: Saved<I>, out: D, log: seq<I>)
    requires Pass(steps, models, saved, out, log).Stopped?
    ensures Pass(steps, models, saved, out, log).index < |models|
    ensures Pass(steps, models, saved, out, log).index !in saved
  {
    var surveyed := Running(out, steps.start, ReportAll(log, steps.survey(KeptModels(models, saved))));
    var p := Calls(steps.convert, models, saved, UpTo(|models|), surveyed);
    if p.Stopped? {
      CallsStop(steps.convert, models, saved, UpTo(|models|), surveyed);
    } else {
      CallsStop(steps.lifecycle, models, saved, Candidates(models, steps.eligible, saved, |models|),
          Assembled(steps, p));
    }
  }

  /** Both passes run, with the same document and state. */
  ghost predicate Agree<D, S, I>(p: Progress<D, S, I>, q: Progress<D, S, I>) {
    p.Running? && q.Running? && p.out == q.out && p.st == q.st
  }

  lemma CallsSnoc<D, M, S, I>(step: (D, S, M) -> Outcome<D, S, I>, models: seq<M>, saved: Saved<I>,
      indices: seq<nat>, i: nat, p: Progress<D, S, I>)
    requires i < |models| && Bounded(indices, |models|)
    ensures Bounded(indices + [i], |models|)
    ensures Calls(step, models, saved, indices + [i], p) ==
            Call(step, models, saved, i, Calls(step, models, saved, indices, p))
  {
    assert (indices + [i])[..|indices|] == indices;
  }

  lemma LongerPrefix<T>(a: seq<T>, b: seq<T>, more: seq<T>)
    requires a <= b
    ensures a <= b + more
  {
  }

  lemma {:induction false} KeptGrows<I>(saved: Saved<I>, n: nat, m: nat)
    requires n <= m
    ensures Kept(saved, n) <= Kept(saved, m)
  {
    if n < m {
      KeptGrows(saved, n, m - 1);
      LongerPrefix(Kept(saved, n), Kept(saved, m - 1), if m - 1 in saved then [] else [m - 1]);
    }
  }

  /** Model n of the source is the model at position |Kept(saved, n)| of those kept. */
  lemma KeptAt<M, I>(models: seq<M>, saved: Saved<I>, n: nat, kept: seq<M>)
    requires n < |models| && n !in saved && kept == KeptModels(models, saved)
    ensures |Kept(saved, n)| < |kept| && kept[|Kept(saved, n)|] == models[n]
    ensures |Kept(saved, n + 1)| == |Kept(saved, n)| + 1
  {
    KeptGrows(saved, n + 1, |models|);
    assert Kept(saved, n + 1)[|Kept(saved, n)|] == n;
  }

  /** Calling for one more kept model on both sides keeps the sides in agreement. */
  lemma CallAgrees<D, M, S, I>(step: (D, S, M) -> Outcome<D, S, I>, models: seq<M>, saved: Saved<I>,
      done: seq<nat>, i: nat, p: Progress<D, S, I>,
                               kept: seq<M>, done': seq<nat>, k: nat, q: Progress<D, S, I>)
    requires Bounded(done, |models|) && Bounded(done', |kept|)
    requires i < |models| && i !in saved && k < |kept| && kept[k] == models[i]
    requires Calls(step, models, saved, done + [i], p).Running?
    requires Calls(step, models, saved, done, p).Running? ==>
               Agree(Calls(step, models, saved, done, p), Calls(step, kept, map[], done', q))
    ensures Bounded(done' + [k], |kept|)
    ensures Agree(Calls(step, models, saved, done + [i], p), Calls(step, kept, map[], done' + [k], q))
  {
    CallsSnoc(step, models, saved, done, i, p);
    CallsSnoc(step, kept, map[], done', k, q);
  }

  /** A skipped model changes only the log. */
  lemma SkipAgrees<D, M, S, I>(step: (D, S, M) -> Outcome<D, S, I>, models: seq<M>, saved: Saved<I>,
      done: seq<nat>, i: nat, p: Progress<D, S, I>, q: Progress<D, S, I>)
    requires Bounded(done, |models|) && i < |models| && i in saved
    requires Calls(step, models, saved, done + [i], p).Running?
    ensures Calls(step, models, saved, done, p).Running?
    ensures Agree(Calls(step, models, saved, done, p), q) ==> Agree(Calls(step, models, saved, done + [i], p), q)
  {
    CallsSnoc(step, models, saved, done, i, p);
  }

  lemma CallsRun<D, M, S, I>(step: (D, S, M) -> Outcome<D, S, I>, models: seq<M>, saved: Saved<I>,
      done: seq<nat>, i: nat, p: Progress<D, S, I>)
    requires Bounded(done, |models|) && i < |models|
    requires Calls(step, models, saved, done + [i], p).Running?
    ensures Calls(step, models, saved, done, p).Running?
  {
    CallsSnoc(step, models, saved, done, i, p);
  }

  lemma UpToNext(n: nat)
    ensures UpTo(n + 1) == UpTo(n) + [n]
  {
  }

  lemma KeptCount<I>(saved: Saved<I>, n: nat)
    ensures |Kept(saved, n + 1)| == |Kept(saved, n)| + if n in saved then 0 else 1
  {
  }

  /** The calls of a pass for the first n models agree with those of a pass over the kept models alone. */
  lemma {:induction false} ModelCallsAgree<D, M, S, I>(step: (D, S, M) -> Outcome<D, S, I>, models: seq<M>,
      saved: Saved<I>, n: nat, kept: seq<M>, p: Progress<D, S, I>, q: Progress<D, S, I>)
    requires n <= |models| && Agree(p, q) && kept == KeptModels(models, saved)
    requires Calls(step, models, saved, UpTo(n), p).Running?
    ensures |Kept(saved, n)| <= |kept|
    ensures Agree(Calls(step, models, saved, UpTo(n), p), Calls(step, kept, map[], UpTo(|Kept(saved, n)|), q))
  {
    if n > 0 {
      var i := n - 1;
      var k := |Kept(saved, i)|;
      UpToNext(i);
      CallsRun(step, models, saved, UpTo(i), i, p);
      ModelCallsAgree(step, models, saved, i, kept, p, q);
      if i !in saved {
        KeptAt(models, saved, i, kept);
        UpToNext(k);
        CallAgrees(step, models, saved, UpTo(i), i, p, kept, UpTo(k), k, q);
      } else {
        SkipAgrees(step, models, saved, UpTo(i), i, p, Calls(step, kept, map[], UpTo(k), q));
      }
    }
  }

  lemma CandidatesNext<M, I>(models: seq<M>, eligible: M -> bool, saved: Saved<I>, i: nat)
    requires i < |models|
    ensures Candidates(models, eligible, saved, i + 1) ==
            if i !in saved && eligible(models[i]) then Candidates(models, eligible, saved, i) + [i]
                else Candidates(models, eligible, saved, i)
  {
  }

  lemma {:induction false} LifecycleCallsAgree<D, M, S, I>(step: (D, S, M) -> Outcome<D, S, I>, models: seq<M>,
      eligible: M -> bool, saved: Saved<I>, n: nat, kept: seq<M>, p: Progress<D, S, I>, q: Progress<D, S, I>)
    requires n <= |models| && Agree(p, q) && kept == KeptModels(models, saved)
    requires Calls(step, models, saved, Candidates(models, eligible, saved, n), p).Running?
    ensures |Kept(saved, n)| <= |kept|
    ensures Agree(Calls(step, models, saved, Candidates(models, eligible, saved, n), p),
                  Calls(step, kept, map[], Candidates<M, I>(kept, eligible, map[], |Kept(saved, n)|), q))
  {
    if n > 0 {
      var i := n - 1;
      var k, before := |Kept(saved, i)|, Candidates(models, eligible, saved, i);
      CandidatesNext(models, eligible, saved, i);
      if i in saved {
        LifecycleCallsAgree(step, models, eligible, saved, i, kept, p, q);
        KeptCount(saved, i);
        assert |Kept(saved, n)| == k && Candidates(models, eligible, saved, n) == before;
      } else {
        KeptAt(models, saved, i, kept);
        CandidatesNext<M, I>(kept, eligible, map[], k);
        assert |Kept(saved, n)| == k + 1;
        var before' := Candidates<M, I>(kept, eligible, map[], k);
        if eligible(models[i]) {
          CallsRun(step, models, saved, before, i, p);
          LifecycleCallsAgree(step, models, eligible, saved, i, kept, p, q);
          CallAgrees(step, models, saved, before, i, p, kept, before', k, q);
          assert Candidates(models, eligible, saved, n) == before + [i];
          assert Candidates<M, I>(kept, eligible, map[], k + 1) == before' + [k];
        } else {
          LifecycleCallsAgree(step, models, eligible, saved, i, kept, p, q);
          assert Candidates(models, eligible, saved, n) == before;
          assert Candidates<M, I>(kept, eligible, map[], k + 1) == before';
        }
      }
    }
  }

  /**
    Failure isolation: a pass that runs to its end gives the document of a clean pass, without
    failures, over the source with the skipped models deleted.
   */
  lemma SkippingIsDeleting<D, M, S, I>(steps: Steps<D, M, S, I>, models: seq<M>, saved: Saved<I>, out: D, log: seq<I>)
    requires Pass(steps, models, saved, out, log).Running?
    ensures Agree(Pass(steps, models, saved, out, log), Pass(steps, KeptModels(models, saved), map[], out, log))
  {
    var kept, n := KeptModels(models, saved), |models|;
    var p := Running(out, steps.start, ReportAll(log, steps.survey(kept)));
    var q := Running(out, steps.start, ReportAll(log, steps.survey(KeptModels<M, I>(kept, map[]))));
    ModelCallsAgree(steps.convert, models, saved, n, kept, p, q);
    var p', q' := Calls(steps.convert, models, saved, UpTo(n), p), Calls(steps.convert, kept, map[], UpTo(|kept|), q);
    if !steps.empty(p'.st) {
      LifecycleCallsAgree(steps.lifecycle, models, steps.eligible, saved, n, kept, Assembled(steps, p'),
          Assembled(steps, q'));
    }
  }
}
