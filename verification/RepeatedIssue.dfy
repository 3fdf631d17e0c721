/**
  A document whose log holds one warning twice (convert/model.go, placeSharedID and
  convertModelOnce).

  A model that shares all its ai_models rows and finds no place for its ID is warned about, by its
  name and the name of its first row. Two models of one name can share that row. Here the second of
  them fails, as its auth strategy is unknown, so its warning is replayed. The first one finds a
  place only as long as the model "second" is there, which fails too, in its lifecycle route: it
  names a data store of another type than its vector database. Its conversion does not notice, as
  "first", which lists all capabilities with "*" and so gets no lifecycle route, has written the proxy
  plugin that both share (convert/model.go, the branch on pg in convertModel, and modelVectorDB).
 */
module RepeatedIssue {
  import opened Sequences
  import opened Issues
  import opened ModelPasses
  import opened Passes
  import IssueLogs
  import Rows = AIModelRows

  /** A warning that an ID has no place, and the errors of an unknown auth strategy and an unfit data store. */
  datatype Issue = Unplaced(model: string, row: string) | UnknownStrategy(model: string) | StoreMismatch(model: string)

  function Named(name: string, id: string, values: seq<string>): Rows.Model {
    Rows.Model(name, id, values, [], true, [], [])
  }

  const FIRST := Named("first", "1", ["a"])
  const SECOND := Named("second", "", ["c"])
  const THIRD := Named("third", "3", ["c", "e"])
  const TWIN := Named("twin", "4", ["a", "c"])
  const FAILING_TWIN := Named("twin", "5", ["a"])

  const MODELS := [FIRST, SECOND, THIRD, TWIN, FAILING_TWIN]

  /** What placing the ID of a model reports. */
  ghost function Warnings(rows: seq<Rows.AIModel>, m: Rows.Model): seq<Issue> {
    if m.id != "" && Rows.Place(rows, m).None? then [Unplaced(m.name, Rows.AliasesOf(m)[0])] else []
  }

  /** What the conversion of a model reports. */
  ghost function RowIssues(rows: seq<Rows.AIModel>, m: Rows.Model): seq<Issue> {
    Warnings(rows, m) + if m == FAILING_TWIN then [UnknownStrategy(m.name)] else []
  }

  /** The rows are the document; the failing twin cannot be converted, and the one lifecycle route cannot be added. */
  ghost function WritingRows(): Steps<seq<Rows.AIModel>, Rows.Model, bool, Issue> {
    Steps(
      true, ms => [], m => m == SECOND,
      (rows, st, m) => Outcome(Rows.Written(rows, m), st, RowIssues(rows, m), m != FAILING_TWIN),
      st => false, (rows, st) => Assembly(rows, st, []),
      (rows, st, m: Rows.Model) => Outcome(rows, st, [StoreMismatch(m.name)], false),
      (rows, st) => rows)
  }

  // ---------------------------------------------------------------------------------------------
  // The rows
  // ---------------------------------------------------------------------------------------------

  lemma {:induction false} UniqueKeeps(values: seq<string>)
    requires NoDup(values)
    ensures Rows.Unique(values) == values
  {
    if values != [] {
      var init, last := values[..|values| - 1], values[|values| - 1];
      assert values == init + [last];
      UniqueKeeps(init);
      assert last !in init;
    }
  }

  lemma AliasesAre(m: Rows.Model)
    requires NoDup(m.values) && m.values != []
    ensures Rows.AliasesOf(m) == m.values
  {
    UniqueKeeps(m.values);
  }

  function Row(id: string, name: string, group: Option<string>): Rows.AIModel {
    Rows.AIModel(id, name, [], group)
  }

  const A := Row("1", "a", None)
  const C := Row("", "c", None)
  const E := Row("3", "e", None)

  const ONE := [A]
  const TWO := [A, C]

  /** The rows ahead of the twins with the second model, and without it. */
  const WITH := [A, C, E]
  const WITHOUT := [A, Row("3", "c", Some("c")), Row("", "e", Some("c"))]

  lemma OwnedOne(rows: seq<Rows.AIModel>, a: string)
    ensures Rows.Owned(rows, [a]) == if Rows.HasRow(rows, a) then [] else [a]
  {
    assert [a][..0] == [] && Rows.Owned(rows, []) == [];
  }

  lemma OwnedTwo(rows: seq<Rows.AIModel>, a: string, b: string)
    ensures Rows.Owned(rows, [a, b]) ==
            (if Rows.HasRow(rows, a) then [] else [a]) + if Rows.HasRow(rows, b) then [] else [b]
  {
    assert [a, b][..1] == [a];
    OwnedOne(rows, a);
  }

  /** A model that makes rows adds them, and its ID has a place. */
  lemma MakesRows(rows: seq<Rows.AIModel>, m: Rows.Model, owned: seq<string>)
    requires NoDup(m.values) && m.values != [] && owned == Rows.Owned(rows, m.values) && owned != []
    ensures Rows.Written(rows, m) == rows + Rows.NewRows(m, owned, |owned|) && Warnings(rows, m) == []
  {
    AliasesAre(m);
  }

  /** A model that makes no rows is warned about exactly if all its rows have IDs. */
  lemma SharesRows(rows: seq<Rows.AIModel>, m: Rows.Model)
    requires NoDup(m.values) && m.values != [] && m.id != "" && Rows.UniqueNames(rows)
    ensures Warnings(rows, m) ==
            if forall a :: a in m.values ==> Rows.HasRow(rows, a) && rows[Rows.RowIndex(rows, a)].id != ""
            then [Unplaced(m.name, m.values[0])] else []
  {
    AliasesAre(m);
    Rows.PlaceExact(rows, m);
  }

  lemma FirstRows()
    ensures Rows.Written([], FIRST) == ONE && Warnings([], FIRST) == []
  {
    OwnedOne([], "a");
    MakesRows([], FIRST, ["a"]);
    assert Rows.NewRows(FIRST, ["a"], 1) == ONE;
  }

  lemma SecondRows()
    ensures Rows.Written(ONE, SECOND) == TWO && Warnings(ONE, SECOND) == []
  {
    OwnedOne(ONE, "c");
    MakesRows(ONE, SECOND, ["c"]);
    assert Rows.NewRows(SECOND, ["c"], 1) == [C];
  }

  lemma ThirdRows()
    ensures Rows.Written(TWO, THIRD) == WITH && Warnings(TWO, THIRD) == []
  {
    OwnedTwo(TWO, "c", "e");
    assert TWO[1].name == "c";
    MakesRows(TWO, THIRD, ["e"]);
    assert Rows.NewRows(THIRD, ["e"], 1) == [E];
  }

  lemma NewTwo(m: Rows.Model, a: string, b: string)
    ensures Rows.NewRows(m, [a, b], 2) ==
            [Rows.AIModel(m.id, a, m.labels, Some(a)), Rows.AIModel("", b, m.labels, Some(a))]
  {
  }

  lemma NoOtherRow(name: string)
    requires name != "a"
    ensures !Rows.HasRow(ONE, name)
  {
  }

  lemma ThirdRowsAlone()
    ensures Rows.Written(ONE, THIRD) == WITHOUT && Warnings(ONE, THIRD) == []
  {
    NoOtherRow("c");
    NoOtherRow("e");
    OwnedTwo(ONE, "c", "e");
    MakesRows(ONE, THIRD, ["c", "e"]);
    NewTwo(THIRD, "c", "e");
  }

  lemma RowAt(rows: seq<Rows.AIModel>, i: nat)
    requires Rows.UniqueNames(rows) && i < |rows|
    ensures Rows.HasRow(rows, rows[i].name) && Rows.RowIndex(rows, rows[i].name) == i
  {
  }

  lemma TwinKeepsSilent()
    ensures Warnings(WITH, TWIN) == []
  {
    SharesRows(WITH, TWIN);
    RowAt(WITH, 1);
    assert TWIN.values[1] == "c" && "c" in TWIN.values;
  }

  lemma TwinComplains()
    ensures Warnings(WITHOUT, TWIN) == [Unplaced("twin", "a")]
  {
    SharesRows(WITHOUT, TWIN);
    RowAt(WITHOUT, 0);
    RowAt(WITHOUT, 1);
  }

  /** With the second model the first twin finds a place, without it it does not. */
  lemma TwinWarned()
    ensures Warnings(WITH, TWIN) == []
    ensures Warnings(WITHOUT, TWIN) == [Unplaced("twin", "a")]
  {
    TwinKeepsSilent();
    TwinComplains();
  }

  lemma FailingTwinWarned(rows: seq<Rows.AIModel>)
    requires Rows.UniqueNames(rows) && |rows| > 0 && rows[0] == A
    ensures Warnings(rows, FAILING_TWIN) == [Unplaced("twin", "a")]
  {
    RowAt(rows, 0);
    SharesRows(rows, FAILING_TWIN);
  }

  // ---------------------------------------------------------------------------------------------
  // The passes
  // ---------------------------------------------------------------------------------------------

  /** The outcome of converting a model that leaves the state of the pass alone. */
  ghost predicate Gives<D, M, S, I>(steps: Steps<D, M, S, I>, d: D, m: M, d': D, reports: seq<I>, ok: bool) {
    var o := steps.convert(d, steps.start, m);
    o.ok == ok && o.reports == reports && (ok ==> o.out == d' && o.st == steps.start)
  }

  /** A warning, and the issues of the two models that fail. */
  datatype Reports<I> = Reports(warning: I, refusal: I, mismatch: I)

  ghost predicate Differ<I>(r: Reports<I>) {
    r.warning != r.refusal && r.warning != r.mismatch && r.refusal != r.mismatch
  }

  /**
    What the conversions of five models do: the fifth is warned about and fails, and the fourth gets
    the same warning only if the second is left out, which has a lifecycle route that fails.
   */
  ghost predicate Script<D, M, S, I>(steps: Steps<D, M, S, I>, models: seq<M>, r: Reports<I>, ds: seq<D>, es: seq<D>) {
    |models| == 5 && |ds| == 5 && |es| == 2 && Differ(r) &&
    WithSecond(steps, models, r, ds) && WithoutSecond(steps, models, r, ds, es) &&
    SecondFails(steps, models, r, ds, es)
  }

  ghost predicate WithSecond<D, M, S, I>(steps: Steps<D, M, S, I>, models: seq<M>, r: Reports<I>, ds: seq<D>)
    requires |models| == 5 && |ds| == 5
  {
    Gives(steps, ds[0], models[0], ds[1], [], true) && Gives(steps, ds[1], models[1], ds[2], [], true) &&
    Gives(steps, ds[2], models[2], ds[3], [], true) && Gives(steps, ds[3], models[3], ds[4], [], true) &&
    Gives(steps, ds[4], models[4], ds[4], [r.warning, r.refusal], false)
  }

  ghost predicate WithoutSecond<D, M, S, I>(steps: Steps<D, M, S, I>, models: seq<M>, r: Reports<I>, ds: seq<D>,
      es: seq<D>)
    requires |models| == 5 && |ds| == 5 && |es| == 2
  {
    Gives(steps, ds[1], models[2], es[0], [], true) && Gives(steps, es[0], models[3], es[1], [r.warning], true)
  }

  ghost predicate SecondFails<D, M, S, I>(steps: Steps<D, M, S, I>, models: seq<M>, r: Reports<I>, ds: seq<D>,
      es: seq<D>)
    requires |models| == 5 && |ds| == 5 && |es| == 2
  {
    !steps.empty(steps.start) && Keeps(steps, ds[4]) && Keeps(steps, es[1]) &&
    steps.lifecycle(ds[4], steps.start, models[1]).reports == [r.mismatch] &&
    !steps.lifecycle(ds[4], steps.start, models[1]).ok &&
    forall k :: 0 <= k < 5 ==> (steps.eligible(models[k]) <==> k == 1)
  }

  ghost predicate Keeps<D, M, S, I>(steps: Steps<D, M, S, I>, d: D) {
    steps.assemble(d, steps.start) == Assembly(d, steps.start, [])
  }

  /** The pass ahead of model n, if the survey reports nothing. */
  ghost function CallsAhead<D, M, S, I>(steps: Steps<D, M, S, I>, models: seq<M>, saved: Saved<I>, d: D,
      n: nat): Progress<D, S, I>
    requires n <= |models|
  {
    Calls(steps.convert, models, saved, UpTo(n), Running(d, steps.start, []))
  }

  /** The pass ahead of model n, with the document d and this log. */
  ghost predicate Reaches<D, M, S, I>(steps: Steps<D, M, S, I>, models: seq<M>, saved: Saved<I>, d: D, n: nat, d': D,
      log: seq<I>) {
    n <= |models| && CallsAhead(steps, models, saved, d, n) == Running(d', steps.start, log)
  }

  lemma Converts<D, M, S, I>(steps: Steps<D, M, S, I>, models: seq<M>, saved: Saved<I>, d: D, n: nat, d': D,
      log: seq<I>,
      d'': D, reports: seq<I>)
    requires n < |models| && Reaches(steps, models, saved, d, n, d', log) && n !in saved
    requires Gives(steps, d', models[n], d'', reports, true)
    ensures Reaches(steps, models, saved, d, n + 1, d'', ReportAll(log, reports))
  {
    IssueLogs.CallsUpToNext(steps.convert, models, saved, n, Running(d, steps.start, []));
  }

  lemma Replays<D, M, S, I>(steps: Steps<D, M, S, I>, models: seq<M>, saved: Saved<I>, d: D, n: nat, d': D, log: seq<I>)
    requires n < |models| && Reaches(steps, models, saved, d, n, d', log) && n in saved
    ensures Reaches(steps, models, saved, d, n + 1, d', log + saved[n])
  {
    IssueLogs.CallsUpToNext(steps.convert, models, saved, n, Running(d, steps.start, []));
  }

  lemma ReportsOne<I>(log: seq<I>, x: I)
    requires x !in log
    ensures ReportAll(log, [x]) == log + [x]
  {
    assert [x][..0] == [];
  }

  lemma ReportsTwo<I>(x: I, y: I)
    requires x != y
    ensures ReportAll([], [x, y]) == [x, y]
  {
    assert [x, y][..1] == [x];
    ReportsOne([], x);
  }

  /** With the second model nothing is reported ahead of the fifth. */
  lemma FourConverted<D, M, S, I>(steps: Steps<D, M, S, I>, models: seq<M>, saved: Saved<I>, r: Reports<I>, ds: seq<D>,
      es: seq<D>)
    requires Script(steps, models, r, ds, es) && forall k :: k in saved ==> k == 4
    ensures Reaches(steps, models, saved, ds[0], 4, ds[4], [])
  {
    Converts(steps, models, saved, ds[0], 0, ds[0], [], ds[1], []);
    Converts(steps, models, saved, ds[0], 1, ds[1], [], ds[2], []);
    Converts(steps, models, saved, ds[0], 2, ds[2], [], ds[3], []);
    Converts(steps, models, saved, ds[0], 3, ds[3], [], ds[4], []);
  }

  /** The second and the fifth model are left out, with what they reported. */
  ghost predicate BothSaved<I>(saved: Saved<I>, r: Reports<I>) {
    1 in saved && saved[1] == [r.mismatch] && 4 in saved && saved[4] == [r.warning, r.refusal] &&
    0 !in saved && 2 !in saved && 3 !in saved
  }

  /** Without the second model, the fourth is warned about. */
  lemma ThreeConverted<D, M, S, I>(steps: Steps<D, M, S, I>, models: seq<M>, saved: Saved<I>, r: Reports<I>, ds: seq<D>,
      es: seq<D>)
    requires Script(steps, models, r, ds, es) && BothSaved(saved, r)
    ensures Reaches(steps, models, saved, ds[0], 4, es[1], [r.mismatch, r.warning])
  {
    Converts(steps, models, saved, ds[0], 0, ds[0], [], ds[1], []);
    Replays(steps, models, saved, ds[0], 1, ds[1], []);
    assert [] + saved[1] == [r.mismatch];
    Converts(steps, models, saved, ds[0], 2, ds[1], [r.mismatch], es[0], []);
    Converts(steps, models, saved, ds[0], 3, es[0], [r.mismatch], es[1], [r.warning]);
    ReportsOne([r.mismatch], r.warning);
  }

  /** If only one model is eligible, it is the one candidate, unless it is skipped. */
  lemma {:induction false} OneCandidate<M, I>(models: seq<M>, eligible: M -> bool, saved: Saved<I>, i: nat, n: nat)
    requires n <= |models| && forall k :: 0 <= k < n ==> (eligible(models[k]) <==> k == i)
    ensures Candidates(models, eligible, saved, n) == if i < n && i !in saved then [i] else []
  {
    if n > 0 {
      var m := n - 1;
      OneCandidate(models, eligible, saved, i, m);
      CandidatesNext(models, eligible, saved, m);
    }
  }

  lemma PassIs<D, M, S, I>(steps: Steps<D, M, S, I>, models: seq<M>, saved: Saved<I>, d: D)
    requires steps.survey(KeptModels(models, saved)) == []
    ensures Pass(steps, models, saved, d, []) ==
            Completed(steps, models, saved, CallsAhead(steps, models, saved, d, |models|))
  {
    assert ReportAll<I>([], []) == [];
  }

  /** The first pass stops at the fifth model, and saves its issues. */
  lemma FirstPass<D, M, S, I>(steps: Steps<D, M, S, I>, models: seq<M>, saved: Saved<I>, r: Reports<I>, ds: seq<D>,
      es: seq<D>)
    requires Script(steps, models, r, ds, es) && saved == map[] && steps.survey(KeptModels(models, saved)) == []
    ensures Pass(steps, models, saved, ds[0], []) == Stopped(4, [r.warning, r.refusal])
  {
    ReportsTwo(r.warning, r.refusal);
    FourConverted(steps, models, saved, r, ds, es);
    IssueLogs.CallsUpToNext(steps.convert, models, saved, 4, Running(ds[0], steps.start, []));
    PassIs(steps, models, saved, ds[0]);
  }

  /** The lifecycle calls of a pass with this log. */
  lemma Lifecycle<D, M, S, I>(steps: Steps<D, M, S, I>, models: seq<M>, saved: Saved<I>, d: D, log: seq<I>)
    requires Keeps(steps, d) && !steps.empty(steps.start) && |models| == 5
    requires forall k :: 0 <= k < 5 ==> (steps.eligible(models[k]) <==> k == 1)
    ensures var p := Running(d, steps.start, log);
            Completed(steps, models, saved, p) ==
            if 1 in saved then Running(steps.finish(d, steps.start), steps.start, log)
            else
              var q := Call(steps.lifecycle, models, saved, 1, p);
              if q.Stopped? then q else q.(out := steps.finish(q.out, q.st))
  {
    var p := Running(d, steps.start, log);
    OneCandidate(models, steps.eligible, saved, 1, 5);
    assert ReportAll(log, []) == log;
    assert [1][..0] == [] && Calls(steps.lifecycle, models, saved, [], p) == p;
  }

  /** The second pass replays the issues, and stops at the lifecycle route of the second model. */
  lemma SecondPass<D, M, S, I>(steps: Steps<D, M, S, I>, models: seq<M>, saved: Saved<I>, r: Reports<I>, ds: seq<D>,
      es: seq<D>)
    requires Script(steps, models, r, ds, es) && saved == map[4 := [r.warning, r.refusal]] &&
             steps.survey(KeptModels(models, saved)) == []
    ensures Pass(steps, models, saved, ds[0], []) == Stopped(1, [r.mismatch])
  {
    FiveConverted(steps, models, saved, r, ds, es);
    ReportsOne([r.warning, r.refusal], r.mismatch);
    Lifecycle(steps, models, saved, ds[4], [r.warning, r.refusal]);
    PassIs(steps, models, saved, ds[0]);
  }

  lemma FiveConverted<D, M, S, I>(steps: Steps<D, M, S, I>, models: seq<M>, saved: Saved<I>, r: Reports<I>, ds: seq<D>,
      es: seq<D>)
    requires Script(steps, models, r, ds, es) && saved == map[4 := [r.warning, r.refusal]]
    ensures Reaches(steps, models, saved, ds[0], 5, ds[4], [r.warning, r.refusal])
  {
    FourConverted(steps, models, saved, r, ds, es);
    Replays(steps, models, saved, ds[0], 4, ds[4], []);
    assert [] + saved[4] == [r.warning, r.refusal];
  }

  /** The log in the end. */
  ghost function Repeated<I>(r: Reports<I>): seq<I> {
    [r.mismatch, r.warning, r.warning, r.refusal]
  }

  /** In the last pass the fourth model is warned about, and then the warning is replayed. */
  lemma LastPass<D, M, S, I>(steps: Steps<D, M, S, I>, models: seq<M>, saved: Saved<I>, r: Reports<I>, ds: seq<D>,
      es: seq<D>)
    requires Script(steps, models, r, ds, es) && BothSaved(saved, r) && steps.survey(KeptModels(models, saved)) == []
    ensures Pass(steps, models, saved, ds[0], []).Running? && Pass(steps, models, saved, ds[0], []).log == Repeated(r)
  {
    LastReplay(steps, models, saved, r, ds, es);
    Lifecycle(steps, models, saved, es[1], Repeated(r));
    PassIs(steps, models, saved, ds[0]);
  }

  lemma LastReplay<D, M, S, I>(steps: Steps<D, M, S, I>, models: seq<M>, saved: Saved<I>, r: Reports<I>, ds: seq<D>,
      es: seq<D>)
    requires Script(steps, models, r, ds, es) && BothSaved(saved, r)
    ensures Reaches(steps, models, saved, ds[0], 5, es[1], Repeated(r))
  {
    ThreeConverted(steps, models, saved, r, ds, es);
    Replays(steps, models, saved, ds[0], 4, es[1], [r.mismatch, r.warning]);
    assert [r.mismatch, r.warning] + saved[4] == Repeated(r);
  }

  ghost predicate Silent<D, M(!new), S, I>(steps: Steps<D, M, S, I>) {
    forall ms :: steps.survey(ms) == []
  }

  lemma BothFail<D, M(!new), S, I>(steps: Steps<D, M, S, I>, models: seq<M>, r: Reports<I>, ds: seq<D>, es: seq<D>)
    returns (order: seq<nat>, saved: Saved<I>)
    requires Script(steps, models, r, ds, es) && Silent(steps)
    ensures Failures(steps, models, ds[0], [], order, saved) && BothSaved(saved, r)
  {
    var none: Saved<I>, one: Saved<I> := map[], map[4 := [r.warning, r.refusal]];
    FirstPass(steps, models, none, r, ds, es);
    AddFailure(steps, models, ds[0], [], [], none, 4, [r.warning, r.refusal]);
    assert none[4 := [r.warning, r.refusal]] == one;
    SecondPass(steps, models, one, r, ds, es);
    AddFailure(steps, models, ds[0], [], [] + [4], one, 1, [r.mismatch]);
    order, saved := [] + [4] + [1], one[1 := [r.mismatch]];
  }

  // ---------------------------------------------------------------------------------------------
  // The run
  // ---------------------------------------------------------------------------------------------

  const REPORTS := Reports(Unplaced("twin", "a"), UnknownStrategy("twin"), StoreMismatch("second"))

  lemma OnlyTheTwinFails()
    ensures FIRST != FAILING_TWIN && SECOND != FAILING_TWIN && THIRD != FAILING_TWIN && TWIN != FAILING_TWIN
    ensures FIRST != SECOND && THIRD != SECOND && TWIN != SECOND && FAILING_TWIN != SECOND
  {
    assert FIRST.id[0] != FAILING_TWIN.id[0];
    assert |SECOND.id| != 1;
    assert |THIRD.values| != |FAILING_TWIN.values| && |TWIN.values| != |FAILING_TWIN.values|;
  }

  lemma PlacedRows()
    ensures var rows := Rows.Written(WITH, TWIN); Rows.UniqueNames(rows) && |rows| > 0 && rows[0] == A
  {
    Rows.WrittenNames(WITH, TWIN, "a");
    Rows.WrittenKeeps(WITH, TWIN);
  }

  lemma GivesRows(rows: seq<Rows.AIModel>, m: Rows.Model)
    ensures Gives(WritingRows(), rows, m, Rows.Written(rows, m), RowIssues(rows, m), m != FAILING_TWIN)
  {
  }

  lemma FirstGiven()
    ensures Gives(WritingRows(), [], FIRST, ONE, [], true)
  {
    OnlyTheTwinFails();
    FirstRows();
    GivesRows([], FIRST);
  }

  lemma SecondGiven()
    ensures Gives(WritingRows(), ONE, SECOND, TWO, [], true)
  {
    OnlyTheTwinFails();
    SecondRows();
    GivesRows(ONE, SECOND);
  }

  lemma ThirdGiven()
    ensures Gives(WritingRows(), TWO, THIRD, WITH, [], true)
    ensures Gives(WritingRows(), ONE, THIRD, WITHOUT, [], true)
  {
    OnlyTheTwinFails();
    ThirdRows();
    GivesRows(TWO, THIRD);
    ThirdRowsAlone();
    GivesRows(ONE, THIRD);
  }

  lemma TwinGiven()
    ensures Gives(WritingRows(), WITH, TWIN, Rows.Written(WITH, TWIN), [], true)
    ensures Gives(WritingRows(), WITHOUT, TWIN, Rows.Written(WITHOUT, TWIN), [REPORTS.warning], true)
  {
    OnlyTheTwinFails();
    TwinWarned();
    GivesRows(WITH, TWIN);
    GivesRows(WITHOUT, TWIN);
  }

  lemma FailingTwinGiven(rows: seq<Rows.AIModel>)
    requires Rows.UniqueNames(rows) && |rows| > 0 && rows[0] == A
    ensures Gives(WritingRows(), rows, FAILING_TWIN, rows, [REPORTS.warning, REPORTS.refusal], false)
  {
    FailingTwinWarned(rows);
    GivesRows(rows, FAILING_TWIN);
  }

  /** The documents of the passes with the second model. */
  ghost function Documents(): (ds: seq<seq<Rows.AIModel>>)
    ensures |ds| == 5 && ds[0] == [] && ds[1] == ONE && ds[2] == TWO && ds[3] == WITH &&
            ds[4] == Rows.Written(WITH, TWIN)
  {
    [[], ONE, TWO, WITH, Rows.Written(WITH, TWIN)]
  }

  /** The documents of the last pass behind the second model. */
  ghost function LastDocuments(): (es: seq<seq<Rows.AIModel>>)
    ensures |es| == 2 && es[0] == WITHOUT && es[1] == Rows.Written(WITHOUT, TWIN)
  {
    [WITHOUT, Rows.Written(WITHOUT, TWIN)]
  }

  lemma FollowsWithSecond(models: seq<Rows.Model>, ds: seq<seq<Rows.AIModel>>)
    requires models == MODELS && ds == Documents()
    ensures |models| == 5 && WithSecond(WritingRows(), models, REPORTS, ds)
  {
    FirstGiven();
    SecondGiven();
    ThirdGiven();
    TwinGiven();
    PlacedRows();
    FailingTwinGiven(ds[4]);
  }

  lemma FollowsWithoutSecond(models: seq<Rows.Model>, ds: seq<seq<Rows.AIModel>>, es: seq<seq<Rows.AIModel>>)
    requires models == MODELS && ds == Documents() && es == LastDocuments()
    ensures |models| == 5 && WithoutSecond(WritingRows(), models, REPORTS, ds, es)
  {
    ThirdGiven();
    TwinGiven();
  }

  lemma FollowsLifecycle(models: seq<Rows.Model>, ds: seq<seq<Rows.AIModel>>, es: seq<seq<Rows.AIModel>>)
    requires models == MODELS && |ds| == 5 && |es| == 2
    ensures |models| == 5 && SecondFails(WritingRows(), models, REPORTS, ds, es)
  {
    OnlyTheTwinFails();
  }

  /**
    A run of the converter from an empty log, of which the final log holds one warning twice: the two
    models that are warned about have one name.
   */
  lemma WarnedTwice() returns (order: seq<nat>, saved: Saved<Issue>)
    ensures Failures(WritingRows(), MODELS, [], [], order, saved)
    ensures Pass(WritingRows(), MODELS, saved, [], []).Running?
    ensures Pass(WritingRows(), MODELS, saved, [], []).log == Repeated(REPORTS)
  {
    var ds, es := Documents(), LastDocuments();
    FollowsWithSecond(MODELS, ds);
    FollowsWithoutSecond(MODELS, ds, es);
    FollowsLifecycle(MODELS, ds, es);
    order, saved := BothFail(WritingRows(), MODELS, REPORTS, ds, es);
    LastPass(WritingRows(), MODELS, saved, REPORTS, ds, es);
  }
}
