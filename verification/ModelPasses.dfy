/**
  The restarting model pass (convert/model.go, convertModels, convertModelsPass, convertModelOnce).

  All models of a document share routes, plugins and the pass state. A model that fails may have
  changed them already, so its failure discards the whole pass: the document is restored, the
  issue log is cut back, and a new pass leaves the model out and only replays its issues.
 */
module ModelPasses {
  import opened Sequences
  import opened Issues
  import opened GoSlices
  import opened Passes
  import opened PassRuns

  /** Once stopped, a pass makes no more calls. */
  lemma {:induction false} StaysStopped<D, M, S, I>(step: (D, S, M) -> Outcome<D, S, I>, models: seq<M>,
      saved: Saved<I>, done: seq<nat>, indices: seq<nat>, p: Progress<D, S, I>)
    requires done <= indices && Bounded(indices, |models|)
    ensures Bounded(done, |models|)
    ensures Calls(step, models, saved, done, p).Stopped? ==>
              Calls(step, models, saved, indices, p) == Calls(step, models, saved, done, p)
  {
    assert forall i :: i in done ==> i in indices;
    if done != indices {
      var init, last := indices[..|indices| - 1], indices[|indices| - 1];
      assert last in indices && forall i :: i in init ==> i in indices;
      StaysStopped(step, models, saved, done, init, p);
    }
  }

  lemma NextCall<D, M, S, I>(step: (D, S, M) -> Outcome<D, S, I>, models: seq<M>, saved: Saved<I>,
      indices: seq<nat>, k: nat, p: Progress<D, S, I>)
    requires k < |indices| && Bounded(indices, |models|)
    ensures indices[k] < |models|
    ensures var q := Call(step, models, saved, indices[k], CallsTo(step, models, saved, indices, k, p));
            CallsTo(step, models, saved, indices, k + 1, p) == q &&
                (q.Stopped? ==> Calls(step, models, saved, indices, p) == q)
  {
    assert indices[k] in indices && forall i :: i in indices[..k] ==> i in indices;
    TakeSnoc(indices, k);
    CallsSnoc(step, models, saved, indices[..k], indices[k], p);
    StaysStopped(step, models, saved, indices[..k + 1], indices, p);
  }

  /** The passes that failed, in order: each stopped at its model and saved the segment of that call. */
  ghost predicate Failures<D, M, S, I>(steps: Steps<D, M, S, I>, models: seq<M>, out: D, log: seq<I>,
      order: seq<nat>, saved: Saved<I>) {
    if order == [] then saved == map[]
    else
      var last := order[|order| - 1];
      last in saved && Failures(steps, models, out, log, order[..|order| - 1], saved - {last}) &&
      Pass(steps, models, saved - {last}, out, log) == Stopped(last, saved[last])
  }

  /** As many models are skipped as passes have failed, and all of them are models of the source. */
  ghost predicate Skips<I>(n: nat, order: seq<nat>, saved: Saved<I>) {
    |order| == |saved| <= n && forall i :: i in saved ==> i < n
  }

  lemma NoFailures<D, M, S, I>(steps: Steps<D, M, S, I>, models: seq<M>, out: D,
      log: seq<I>) returns (order: seq<nat>, saved: Saved<I>)
    ensures Failures(steps, models, out, log, order, saved) && Skips(|models|, order, saved)
    ensures |order| == 0 && saved.Keys == {}
  {
    order, saved := [], map[];
  }

  /** One more pass fails, at a model that was not skipped. */
  lemma FailsAgain<D, M, S, I>(steps: Steps<D, M, S, I>, models: seq<M>, out: D, log: seq<I>, order: seq<nat>,
      saved: Saved<I>, p: Progress<D, S, I>, saved': Saved<I>)
    requires Failures(steps, models, out, log, order, saved)
    requires p == Pass(steps, models, saved, out, log) && p.Stopped? && saved' == saved[p.index := p.segment]
    ensures p.index !in saved && p.index < |models|
    ensures Failures(steps, models, out, log, order + [p.index], saved')
  {
    PassStops(steps, models, saved, out, log);
    AddFailure(steps, models, out, log, order, saved, p.index, p.segment);
  }

  lemma AddFailure<D, M, S, I>(steps: Steps<D, M, S, I>, models: seq<M>, out: D, log: seq<I>, order: seq<nat>,
      saved: Saved<I>, i: nat, segment: seq<I>)
    requires Failures(steps, models, out, log, order, saved) && i !in saved
    requires Pass(steps, models, saved, out, log) == Stopped(i, segment)
    ensures Failures(steps, models, out, log, order + [i], saved[i := segment])
  {
    assert saved[i := segment] - {i} == saved;
    assert (order + [i])[..|order|] == order;
  }

  /** What was saved by the first n failures. */
  ghost function SavedBy<I>(order: seq<nat>, saved: Saved<I>, n: nat): Saved<I>
    requires n <= |order|
  {
    map i | i in saved && i in order[..n] :: saved[i]
  }

  /** Each pass but the last broke at a model of its own, which the later passes skip. */
  ghost predicate EachBreaks<D, M, S, I>(steps: Steps<D, M, S, I>, models: seq<M>, out: D, log: seq<I>,
      order: seq<nat>, saved: Saved<I>, runs: seq<Run<D, S, I>>) {
    NoDup(order) && |runs| == |order| && (forall i :: i in order <==> i in saved) &&
    forall k :: 0 <= k < |order| ==>
      Breaks(steps, models, SavedBy(order, saved, k), out, log, runs[k], order[k], saved[order[k]])
  }

  lemma {:induction false} FailuresSaved<D, M, S, I>(steps: Steps<D, M, S, I>, models: seq<M>, out: D, log: seq<I>,
      order: seq<nat>, saved: Saved<I>)
    requires Failures(steps, models, out, log, order, saved)
    ensures NoDup(order) && forall i :: i in order <==> i in saved
  {
    if order != [] {
      var init, last := order[..|order| - 1], order[|order| - 1];
      FailuresSaved(steps, models, out, log, init, saved - {last});
      assert order == init + [last];
    }
  }

  /** Dropping the last failure does not change what was saved ahead of it. */
  lemma SavedEarlier<I>(init: seq<nat>, last: nat, saved: Saved<I>, k: nat)
    requires k < |init| && last !in init && forall i :: i in init ==> i in saved
    ensures init[k] in saved - {last} && (saved - {last})[init[k]] == saved[init[k]]
    ensures SavedBy(init + [last], saved, k) == SavedBy(init, saved - {last}, k)
  {
    var a, b := SavedBy(init + [last], saved, k), SavedBy(init, saved - {last}, k);
    assert (init + [last])[..k] == init[..k] && init[k] in init;
    forall i ensures i in a <==> i in b {
      assert i in init[..k] ==> i in init;
    }
    assert a.Keys == b.Keys;
  }

  lemma SavedBeforeLast<I>(init: seq<nat>, last: nat, saved: Saved<I>)
    requires last !in init && forall i :: i in saved <==> i in init || i == last
    ensures SavedBy(init + [last], saved, |init|) == saved - {last}
  {
    var a := SavedBy(init + [last], saved, |init|);
    assert (init + [last])[..|init|] == init;
    assert a.Keys == (saved - {last}).Keys;
  }

  lemma {:induction false} FailureBreaks<D, M, S, I>(steps: Steps<D, M, S, I>, models: seq<M>, out: D, log: seq<I>,
      order: seq<nat>, saved: Saved<I>, k: nat)
    returns (run: Run<D, S, I>)
    requires Failures(steps, models, out, log, order, saved) && k < |order|
    ensures order[k] in saved
    ensures Breaks(steps, models, SavedBy(order, saved, k), out, log, run, order[k], saved[order[k]])
  {
    var init, last := order[..|order| - 1], order[|order| - 1];
    FailuresSaved(steps, models, out, log, order, saved);
    assert order == init + [last];
    if k < |init| {
      SavedEarlier(init, last, saved, k);
      run := FailureBreaks(steps, models, out, log, init, saved - {last}, k);
    } else {
      SavedBeforeLast(init, last, saved);
      run := PassTraced(steps, models, saved - {last}, out, log);
    }
  }

  lemma FailuresBreak<D, M, S, I>(steps: Steps<D, M, S, I>, models: seq<M>, out: D, log: seq<I>, order: seq<nat>,
      saved: Saved<I>)
    returns (runs: seq<Run<D, S, I>>)
    requires Failures(steps, models, out, log, order, saved)
    ensures EachBreaks(steps, models, out, log, order, saved, runs)
  {
    FailuresSaved(steps, models, out, log, order, saved);
    assert forall k :: 0 <= k < |order| ==> order[k] in order;
    runs := [];
    for n := 0 to |order|
      invariant |runs| == n
      invariant forall k :: 0 <= k < n ==>
                  Breaks(steps, models, SavedBy(order, saved, k), out, log, runs[k], order[k], saved[order[k]])
    {
      var run := FailureBreaks(steps, models, out, log, order, saved, n);
      runs := runs + [run];
    }
  }

  lemma SkipsMore<I>(n: nat, order: seq<nat>, saved: Saved<I>, i: nat, segment: seq<I>, saved': Saved<I>)
    requires Skips(n, order, saved) && i !in saved && i < n && saved' == saved[i := segment]
    ensures Skips(n, order + [i], saved') && |saved| < |saved'|
  {
    assert saved'.Keys == saved.Keys + {i};
    AtMost(n, saved'.Keys);
  }

  lemma PassFails<D, M, S, I>(steps: Steps<D, M, S, I>, models: seq<M>, out: D, log: seq<I>, order: seq<nat>,
      saved: Saved<I>, p: Progress<D, S, I>, saved': Saved<I>)
    returns (order': seq<nat>)
    requires Failures(steps, models, out, log, order, saved) && Skips(|models|, order, saved)
    requires p == Pass(steps, models, saved, out, log) && p.Stopped? && saved' == saved[p.index := p.segment]
    ensures Failures(steps, models, out, log, order', saved') && Skips(|models|, order', saved')
    ensures |saved| < |saved'| && |order'| == |order| + 1
  {
    FailsAgain(steps, models, out, log, order, saved, p, saved');
    SkipsMore(|models|, order, saved, p.index, p.segment, saved');
    order' := order + [p.index];
  }

  lemma AtMost(n: nat, keys: set<nat>)
    requires forall i :: i in keys ==> i < n
    ensures |keys| <= n
  {
    NoDupLength(UpTo(n));
    forall i | i in keys ensures i in Elements(UpTo(n)) {
      assert UpTo(n)[i] == i;
    }
    SubsetSize(keys, Elements(UpTo(n)));
  }

  /** The skipped models hold these issues, in arrays that are not the buffer of the log. */
  ghost predicate Saves<I>(skipped: map<nat, Slice<I>>, saved: Saved<I>, buffer: array<I>)
    reads set i | i in skipped :: skipped[i].data
  {
    skipped.Keys == saved.Keys &&
    forall i :: i in skipped ==> skipped[i].Valid() && skipped[i].data != buffer && skipped[i].Contents() == saved[i]
  }

  /** The models that are not skipped, and the indices of those among them with lifecycle routes. */
  method VideoLifecycleCandidates<M, I>(models: seq<M>, eligible: M -> bool, skipped: set<nat>, ghost saved: Saved<I>)
    returns (kept: seq<M>, candidates: seq<nat>)
    requires skipped == saved.Keys
    ensures kept == KeptModels(models, saved)
    ensures candidates == Candidates(models, eligible, saved, |models|)
  {
    kept, candidates := [], [];
    for i := 0 to |models|
      invariant kept == KeptTo(models, saved, i)
      invariant candidates == Candidates(models, eligible, saved, i)
    {
      CandidatesNext(models, eligible, saved, i);
      KeptNext(models, saved, i);
      if i !in skipped {
        kept := kept + [models[i]];
        if eligible(models[i]) {
          candidates := candidates + [i];
        }
      }
    }
  }

  /** A run of calls has ended with p: this is what the converter then holds. */
  ghost predicate Ended<D, S, I>(p: Progress<D, S, I>, ok: bool, out: D, st: S, log: seq<I>, saved: Saved<I>,
      saved': Saved<I>) {
    ok == p.Running? &&
    if ok then p == Running(out, st, log) && saved' == saved else saved' == saved[p.index := p.segment]
  }

  class Converter<D, M, S, I(==)> {
    const steps: Steps<D, M, S, I>
    const models: seq<M>
    var out: D
    var issues: Slice<I>

    constructor (steps: Steps<D, M, S, I>, models: seq<M>, out: D, issues: Slice<I>)
      ensures this.steps == steps && this.models == models && this.out == out && this.issues == issues
    {
      this.steps, this.models, this.out, this.issues := steps, models, out, issues;
    }

    method Report(issue: I)
      requires issues.Valid()
      modifies this`issues, issues.data
      ensures issues.Valid() && issues.Contents() == Issues.Report(old(issues.Contents()), issue)
      ensures fresh(issues.data) || issues.data == old(issues.data)
    {
      for k := 0 to issues.len
        invariant issue !in issues.data[..k]
      {
        if issues.data[k] == issue {
          return;
        }
      }
      issues := Append(issues, issue);
    }

    method ReportEach(reports: seq<I>)
      requires issues.Valid()
      modifies this`issues, issues.data
      ensures issues.Valid() && issues.Contents() == ReportAll(old(issues.Contents()), reports)
      ensures fresh(issues.data) || issues.data == old(issues.data)
    {
      assert reports[..0] == [];
      for k := 0 to |reports|
        invariant issues.Valid() && issues.Contents() == ReportAll(old(issues.Contents()), reports[..k])
        invariant fresh(issues.data) || issues.data == old(issues.data)
      {
        Report(reports[k]);
        assert reports[..k + 1][..k] == reports[..k];
      }
      assert reports[..|reports|] == reports;
    }

    /** Converts model i, or replays its issues if it is skipped. A failure saves a copy of the issues of the call. */
    method ConvertModelOnce(step: (D, S, M) -> Outcome<D, S, I>, i: nat, st: S, skipped: map<nat, Slice<I>>,
        ghost saved: Saved<I>)
      returns (ok: bool, st': S, skipped': map<nat, Slice<I>>, ghost saved': Saved<I>)
      requires i < |models| && issues.Valid() && Saves(skipped, saved, issues.data)
      modifies this, issues.data
      ensures issues.Valid() && old(issues.Contents()) <= issues.Contents()
      ensures fresh(issues.data) || issues.data == old(issues.data)
      ensures Saves(skipped', saved', issues.data)
      ensures var p := Call(step, models, saved, i, Running(old(out), st, old(issues.Contents())));
              Ended(p, ok, out, st', issues.Contents(), saved, saved')
    {
      st', skipped', saved' := st, skipped, saved;
      if i in skipped {
        issues := AppendAll(issues, skipped[i]);
        return true, st, skipped, saved;
      }
      var start := issues.len;
      var o := step(out, st, models[i]);
      out, st' := o.out, o.st;
      ReportEach(o.reports);
      ok := o.ok;
      if !ok {
        var segment := Clone(issues, start);
        skipped', saved' := skipped[i := segment], saved[i := segment.Contents()];
      }
    }
  
    /** Makes the calls for some models in order, up to the first that fails. */
    method ConvertEach(step: (D, S, M) -> Outcome<D, S, I>, indices: seq<nat>, st: S,
        skipped: map<nat, Slice<I>>, ghost saved: Saved<I>)
      returns (ok: bool, st': S, skipped': map<nat, Slice<I>>, ghost saved': Saved<I>)
      requires Bounded(indices, |models|) && issues.Valid() && Saves(skipped, saved, issues.data)
      modifies this, issues.data
      ensures issues.Valid() && old(issues.Contents()) <= issues.Contents()
      ensures fresh(issues.data) || issues.data == old(issues.data)
      ensures Saves(skipped', saved', issues.data)
      ensures var p := Calls(step, models, saved, indices, Running(old(out), st, old(issues.Contents())));
              Ended(p, ok, out, st', issues.Contents(), saved, saved')
    {
      ok, st', skipped', saved' := true, st, skipped, saved;
      ghost var p := Running(out, st, issues.Contents());
      assert indices[..0] == [];
      for k := 0 to |indices|
        invariant issues.Valid() && old(issues.Contents()) <= issues.Contents()
        invariant fresh(issues.data) || issues.data == old(issues.data)
        invariant ok && saved' == saved && Saves(skipped', saved', issues.data)
        invariant CallsTo(step, models, saved, indices, k, p) == Running(out, st', issues.Contents())
      {
        NextCall(step, models, saved, indices, k, p);
        assert indices[k] in indices;
        ok, st', skipped', saved' := ConvertModelOnce(step, indices[k], st', skipped', saved');
        if !ok {
          return;
        }
      }
      TakeAll(indices);
    }
  
    /** Converts every model not in skipped; at the first failure it adds that model to skipped and gives up. */
    method ConvertModelsPass(skipped: map<nat, Slice<I>>, ghost saved: Saved<I>)
      returns (ok: bool, skipped': map<nat, Slice<I>>, ghost saved': Saved<I>, ghost st: S)
      requires issues.Valid() && Saves(skipped, saved, issues.data)
      modifies this, issues.data
      ensures issues.Valid() && old(issues.Contents()) <= issues.Contents()
      ensures fresh(issues.data) || issues.data == old(issues.data)
      ensures Saves(skipped', saved', issues.data)
      ensures Ended(Pass(steps, models, saved, old(out), old(issues.Contents())), ok, out, st, issues.Contents(),
              saved, saved')
    {
      ghost var surveyed := Running(out, steps.start,
          ReportAll(issues.Contents(), steps.survey(KeptModels(models, saved))));
      var kept, candidates := VideoLifecycleCandidates(models, steps.eligible, skipped.Keys, saved);
      ReportEach(steps.survey(kept));
      var state: S;
      ok, state, skipped', saved' := ConvertEach(steps.convert, UpTo(|models|), steps.start, skipped, saved);
      st := state;
      if ok {
        ghost var p := Calls(steps.convert, models, saved, UpTo(|models|), surveyed);
        ok, skipped', saved', st := CompletePass(p, candidates, state, skipped', saved');
      }
    }

    /** Assembles the document and adds the lifecycle routes, which can fail too. */
    method CompletePass(ghost p: Progress<D, S, I>, candidates: seq<nat>, state: S, skipped: map<nat, Slice<I>>,
        ghost saved: Saved<I>)
      returns (ok: bool, skipped': map<nat, Slice<I>>, ghost saved': Saved<I>, ghost st: S)
      requires issues.Valid() && Saves(skipped, saved, issues.data)
      requires p == Running(out, state, issues.Contents())
      requires candidates == Candidates(models, steps.eligible, saved, |models|)
      modifies this, issues.data
      ensures issues.Valid() && old(issues.Contents()) <= issues.Contents()
      ensures fresh(issues.data) || issues.data == old(issues.data)
      ensures Saves(skipped', saved', issues.data)
      ensures Ended(Completed(steps, models, saved, p), ok, out, st, issues.Contents(), saved, saved')
    {
      var state' := state;
      if steps.empty(state) {
        ok, skipped', saved' := true, skipped, saved;
      } else {
        ok, state', skipped', saved' := AddLifecycles(p, candidates, state, skipped, saved);
      }
      st := state';
      if ok {
        out := steps.finish(out, state');
      }
    }

    /** Assembles the document and makes the lifecycle calls. */
    method AddLifecycles(ghost p: Progress<D, S, I>, candidates: seq<nat>, state: S, skipped: map<nat, Slice<I>>,
        ghost saved: Saved<I>)
      returns (ok: bool, state': S, skipped': map<nat, Slice<I>>, ghost saved': Saved<I>)
      requires issues.Valid() && Saves(skipped, saved, issues.data)
      requires p == Running(out, state, issues.Contents())
      requires candidates == Candidates(models, steps.eligible, saved, |models|)
      modifies this, issues.data
      ensures issues.Valid() && old(issues.Contents()) <= issues.Contents()
      ensures fresh(issues.data) || issues.data == old(issues.data)
      ensures Saves(skipped', saved', issues.data)
      ensures var q := Calls(steps.lifecycle, models, saved, candidates, Assembled(steps, p));
              Ended(q, ok, out, state', issues.Contents(), saved, saved')
    {
      state' := Assemble(state);
      ok, state', skipped', saved' := ConvertEach(steps.lifecycle, candidates, state', skipped, saved);
    }

    /** Puts the routes of the models into the document, which can report issues. */
    method Assemble(state: S) returns (state': S)
      requires issues.Valid()
      modifies this, issues.data
      ensures issues.Valid() && old(issues.Contents()) <= issues.Contents()
      ensures fresh(issues.data) || issues.data == old(issues.data)
      ensures Running(out, state', issues.Contents()) ==
              Assembled(steps, Running(old(out), state, old(issues.Contents())))
    {
      var assembled := steps.assemble(out, state);
      out, state' := assembled.out, assembled.st;
      ReportEach(assembled.reports);
    }

    /** Makes one pass. After a failure the document and the log are again those of the start. */
    method TryPass(skipped: map<nat, Slice<I>>, ghost saved: Saved<I>)
      returns (done: bool, skipped': map<nat, Slice<I>>, ghost saved': Saved<I>, ghost st: S)
      requires issues.Valid() && Saves(skipped, saved, issues.data)
      modifies this, issues.data
      ensures issues.Valid() && (fresh(issues.data) || issues.data == old(issues.data))
      ensures Saves(skipped', saved', issues.data)
      ensures var p := Pass(steps, models, saved, old(out), old(issues.Contents()));
              done == p.Running? &&
              if done then p == Running(out, st, issues.Contents()) && saved' == saved
              else
                saved' == saved[p.index := p.segment] && out == old(out) &&
                issues.Contents() == old(issues.Contents())
    {
      var start, issueCount := out, issues.len;
      done, skipped', saved', st := ConvertModelsPass(skipped, saved);
      if !done {
        out, issues := start, Slice(issues.data, issueCount);
      }
    }

    /** Converts all models, one pass for each model that fails and a last pass without them. */
    method ConvertModels()
      returns (passes: nat, ghost order: seq<nat>, ghost saved: Saved<I>, ghost st: S,
        ghost runs: seq<Run<D, S, I>>)
      requires issues.Valid()
      modifies this, issues.data
      ensures issues.Valid() && passes <= |models| + 1 && passes == |order| + 1
      ensures Failures(steps, models, old(out), old(issues.Contents()), order, saved)
      ensures Pass(steps, models, saved, old(out), old(issues.Contents())) == Running(out, st, issues.Contents())
      ensures Agree(Pass(steps, models, saved, old(out), old(issues.Contents())),
                    Pass(steps, KeptModels(models, saved), map[], old(out), old(issues.Contents())))
      ensures |runs| == passes && EachBreaks(steps, models, old(out), old(issues.Contents()), order, saved,
              runs[..|order|])
      ensures Completes(steps, models, saved, old(out), old(issues.Contents()), runs[|order|],
              Point(out, st, issues.Contents()))
    {
      ghost var start, log := out, issues.Contents();
      order, saved := NoFailures(steps, models, out, log);
      var skipped: map<nat, Slice<I>>, done := map[], false;
      passes, st := 0, steps.start;
      while !done
        invariant issues.Valid() && (fresh(issues.data) || issues.data == old(issues.data))
        invariant Saves(skipped, saved, issues.data) && Skips(|models|, order, saved) &&
                  Failures(steps, models, start, log, order, saved)
        invariant if done then passes == |order| + 1 &&
                  Pass(steps, models, saved, start, log) == Running(out, st, issues.Contents())
                  else passes == |order| && out == start && issues.Contents() == log
        decreases |models| - |saved|, !done
      {
        ghost var before := saved;
        done, skipped, saved, st := TryPass(skipped, saved);
        passes := passes + 1;
        if !done {
          order := PassFails(steps, models, start, log, order, before, Pass(steps, models, before, start, log), saved);
        }
      }
      SkippingIsDeleting(steps, models, saved, start, log);
      var broken := FailuresBreak(steps, models, start, log, order, saved);
      var run := PassTraced(steps, models, saved, start, log);
      runs := broken + [run];
      assert runs[..|order|] == broken;
    }
  }
}
