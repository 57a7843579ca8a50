/** From test outcomes to acceptance criteria: which criteria an attempt demonstrates, and what several
    attempts together say.  `naming` gives the criterion ids that a test's name carries. */
module AcEval {
  import opened Text

  datatype Test = Test(name: string, result: string)

  type Attempt = seq<Test>
  type Naming = string -> seq<string>

  // ---- one attempt ----

  predicate Reported(naming: Naming, attempt: Attempt, ac: string) {
    exists i | 0 <= i < |attempt| :: ac in naming(attempt[i].name)
  }

  predicate Failed(naming: Naming, attempt: Attempt, ac: string) {
    exists i | 0 <= i < |attempt| :: ac in naming(attempt[i].name) && attempt[i].result == "fail"
  }

  /** Each reported criterion with its mark: a single failing test that names it is enough for "fail". */
  function Marks(naming: Naming, acIds: seq<string>, attempt: Attempt): map<string, string> {
    map ac | ac in acIds && Reported(naming, attempt, ac) :: if Failed(naming, attempt, ac) then "fail" else "pass"
  }

  lemma ReportedMore(naming: Naming, attempt: Attempt, t: Test, ac: string)
    ensures Reported(naming, attempt + [t], ac) <==> Reported(naming, attempt, ac) || ac in naming(t.name)
    ensures Failed(naming, attempt + [t], ac)
       <==> Failed(naming, attempt, ac) || (ac in naming(t.name) && t.result == "fail")
  {
    var longer := attempt + [t];
    assert longer[|attempt|] == t && forall i | 0 <= i < |attempt| :: longer[i] == attempt[i];
  }

  /** The marks once one more test has been seen. */
  function Marked(perAc: map<string, string>, acIds: seq<string>, ids: seq<string>, result: string): map<string, string> {
    map ac | ac in acIds && (ac in perAc || ac in ids) :: MarkedOne(perAc, ac, ac in ids, result)
  }

  function MarkedOne(perAc: map<string, string>, ac: string, named: bool, result: string): string
    requires ac in perAc || named
  {
    if (ac in perAc && perAc[ac] == "fail") || (named && result == "fail") then "fail"
    else if named then "pass" else perAc[ac]
  }

  lemma MarkedNext(naming: Naming, acIds: seq<string>, attempt: Attempt, t: Test)
    ensures Marked(Marks(naming, acIds, attempt), acIds, naming(t.name), t.result) == Marks(naming, acIds, attempt + [t])
  {
    var m, m' := Marked(Marks(naming, acIds, attempt), acIds, naming(t.name), t.result), Marks(naming, acIds, attempt + [t]);
    forall ac: string
      ensures (ac in m <==> ac in m') && (ac in m ==> m[ac] == m'[ac])
    {
      ReportedMore(naming, attempt, t, ac);
    }
  }

  /** `attribute_outcomes`. */
  method AttributeOutcomes(naming: Naming, acIds: seq<string>, outcomes: Attempt) returns (perAc: map<string, string>)
    ensures perAc == Marks(naming, acIds, outcomes)
    ensures forall ac :: ac in perAc <==> ac in acIds && exists t | t in outcomes :: ac in naming(t.name)
    ensures forall ac | ac in perAc ::
              if exists t | t in outcomes :: ac in naming(t.name) && t.result == "fail" then perAc[ac] == "fail"
              else perAc[ac] == "pass"
  {
    perAc := map[];
    for i := 0 to |outcomes|
      invariant perAc == Marks(naming, acIds, outcomes[..i])
    {
      MarkedNext(naming, acIds, outcomes[..i], outcomes[i]);
      assert outcomes[..i + 1] == outcomes[..i] + [outcomes[i]];
      perAc := MarkTest(perAc, acIds, naming(outcomes[i].name), outcomes[i].result);
    }
    assert outcomes[..|outcomes|] == outcomes;
  }

  lemma MarkedAt(before: map<string, string>, acIds: seq<string>, ids: seq<string>, ac: string, result: string, x: string)
    ensures var m, m' := Marked(before, acIds, ids, result), Marked(before, acIds, ids + [ac], result);
      if x == ac && ac in acIds then x in m' && m'[x] == MarkedOne(m, ac, true, result)
      else if x in m then x in m' && m'[x] == m[x]
      else x !in m'
  {
    var longer := ids + [ac];
    assert x in longer <==> x in ids || x == ac;
  }

  lemma MarkedStep(before: map<string, string>, acIds: seq<string>, ids: seq<string>, ac: string, result: string)
    ensures var m, m' := Marked(before, acIds, ids, result), Marked(before, acIds, ids + [ac], result);
      m' == if ac in acIds then m[ac := MarkedOne(m, ac, true, result)] else m
  {
    var m, m' := Marked(before, acIds, ids, result), Marked(before, acIds, ids + [ac], result);
    var expected := if ac in acIds then m[ac := MarkedOne(m, ac, true, result)] else m;
    forall x: string
      ensures (x in m' <==> x in expected) && (x in m' ==> m'[x] == expected[x])
    {
      MarkedAt(before, acIds, ids, ac, result, x);
    }
  }

  /** The inner loop: one test's result goes to every criterion it names. */
  method MarkTest(before: map<string, string>, acIds: seq<string>, ids: seq<string>, result: string)
    returns (perAc: map<string, string>)
    requires forall ac | ac in before :: ac in acIds
    ensures perAc == Marked(before, acIds, ids, result)
  {
    perAc := before;
    assert perAc == Marked(before, acIds, ids[..0], result);
    for j := 0 to |ids|
      invariant perAc == Marked(before, acIds, ids[..j], result)
    {
      var ac := ids[j];
      assert ids[..j + 1] == ids[..j] + [ac];
      MarkedStep(before, acIds, ids[..j], ac, result);
      if ac !in acIds { continue; }
      if (ac in perAc && perAc[ac] == "fail") || result == "fail" {
        perAc := perAc[ac := "fail"];
      } else {
        perAc := perAc[ac := "pass"];
      }
    }
    assert ids[..|ids|] == ids;
  }

  /** Only which tests ran matters, not their order. */
  lemma OrderFree(naming: Naming, acIds: seq<string>, a: Attempt, b: Attempt)
    requires forall t :: t in a <==> t in b
    ensures Marks(naming, acIds, a) == Marks(naming, acIds, b)
  {
    forall ac: string
      ensures Reported(naming, a, ac) == Reported(naming, b, ac) && Failed(naming, a, ac) == Failed(naming, b, ac)
    {
      MoreTests(naming, a, b, ac);
      MoreTests(naming, b, a, ac);
    }
  }

  lemma MoreTests(naming: Naming, a: Attempt, b: Attempt, ac: string)
    requires forall t :: t in a ==> t in b
    ensures Reported(naming, a, ac) ==> Reported(naming, b, ac)
    ensures Failed(naming, a, ac) ==> Failed(naming, b, ac)
  {
    forall i | 0 <= i < |a|
      ensures exists j | 0 <= j < |b| :: b[j] == a[i]
    {
      assert a[i] in b;
    }
  }

  /** More tests never turn "fail" into "pass", nor a reported criterion into an unreported one. */
  lemma FailAbsorbs(naming: Naming, acIds: seq<string>, a: Attempt, b: Attempt, ac: string)
    requires (forall t :: t in a ==> t in b) && ac in Marks(naming, acIds, a)
    ensures ac in Marks(naming, acIds, b)
    ensures Marks(naming, acIds, a)[ac] == "fail" ==> Marks(naming, acIds, b)[ac] == "fail"
  {
    MoreTests(naming, a, b, ac);
  }

  // ---- several attempts ----

  datatype Row = NotRun | Ran(runs: nat, passed: nat, flaky: bool, passing: bool, testNames: set<string>)

  datatype Summary = Summary(
    attempts: nat, passing: nat, failing: nat, notRun: nat, flaky: set<string>, solidlyVerified: nat,
    perAc: map<string, Row>, overallPassed: nat, overallTotal: nat)

  predicate Passed(naming: Naming, attempt: Attempt, ac: string) {
    Reported(naming, attempt, ac) && !Failed(naming, attempt, ac)
  }

  /** How many attempts reported a criterion, and how many passed it. */
  function Runs(naming: Naming, attempts: seq<Attempt>, ac: string): nat {
    if attempts == [] then 0
    else Runs(naming, Init(attempts), ac) + if Reported(naming, Last(attempts), ac) then 1 else 0
  }

  function Passes(naming: Naming, attempts: seq<Attempt>, ac: string): nat {
    if attempts == [] then 0
    else Passes(naming, Init(attempts), ac) + if Passed(naming, Last(attempts), ac) then 1 else 0
  }

  lemma {:induction false} CountsMean(naming: Naming, attempts: seq<Attempt>, ac: string)
    ensures Passes(naming, attempts, ac) <= Runs(naming, attempts, ac)
    ensures Runs(naming, attempts, ac) == 0 <==> forall a | a in attempts :: !Reported(naming, a, ac)
    ensures Passes(naming, attempts, ac) == 0 <==> forall a | a in attempts :: !Passed(naming, a, ac)
    ensures Passes(naming, attempts, ac) == Runs(naming, attempts, ac) <==> forall a | a in attempts :: !Failed(naming, a, ac)
  {
    if attempts != [] {
      CountsMean(naming, Init(attempts), ac);
      assert forall a :: a in attempts <==> a in Init(attempts) || a == Last(attempts);
      assert Failed(naming, Last(attempts), ac) ==> Reported(naming, Last(attempts), ac);
    }
  }

  /** The names of the tests that carry a criterion's id, in any attempt. */
  function NamesOf(naming: Naming, attempts: seq<Attempt>, ac: string): set<string> {
    set i, j | 0 <= i < |attempts| && 0 <= j < |attempts[i]| && ac in naming(attempts[i][j].name) :: attempts[i][j].name
  }

  function RowOf(naming: Naming, attempts: seq<Attempt>, ac: string): Row {
    var runs, passed := Runs(naming, attempts, ac), Passes(naming, attempts, ac);
    if runs == 0 then NotRun
    else Ran(runs, passed, 0 < passed < runs, passed == runs, NamesOf(naming, attempts, ac))
  }

  function Rows(naming: Naming, acIds: seq<string>, attempts: seq<Attempt>): map<string, Row> {
    map ac | ac in acIds :: RowOf(naming, attempts, ac)
  }

  datatype Status = Skipped | Passing | Failing

  function StatusOf(row: Row): Status {
    match row
    case NotRun => Skipped
    case Ran(_, _, _, passing, _) => if passing then Passing else Failing
  }

  /** How many of the listed criteria have a given status. */
  function Count(naming: Naming, acIds: seq<string>, attempts: seq<Attempt>, status: Status): nat {
    if acIds == [] then 0
    else
      Count(naming, Init(acIds), attempts, status)
      + if StatusOf(RowOf(naming, attempts, Last(acIds))) == status then 1 else 0
  }

  /** Every listed criterion is counted once. */
  lemma {:induction false} CountsAddUp(naming: Naming, acIds: seq<string>, attempts: seq<Attempt>)
    ensures Count(naming, acIds, attempts, Passing) + Count(naming, acIds, attempts, Failing)
      + Count(naming, acIds, attempts, Skipped) == |acIds|
  {
    if acIds != [] {
      CountsAddUp(naming, Init(acIds), attempts);
    }
  }

  function PassedTests(attempt: Attempt): nat {
    if attempt == [] then 0 else PassedTests(Init(attempt)) + if Last(attempt).result == "pass" then 1 else 0
  }

  function FlakyOf(naming: Naming, acIds: seq<string>, attempts: seq<Attempt>): set<string> {
    set ac | ac in acIds && RowOf(naming, attempts, ac).Ran? && RowOf(naming, attempts, ac).flaky
  }

  function SummaryOf(naming: Naming, acIds: seq<string>, attempts: seq<Attempt>): Summary
    requires attempts != []
  {
    Summary(
      |attempts|,
      Count(naming, acIds, attempts, Passing),
      Count(naming, acIds, attempts, Failing),
      Count(naming, acIds, attempts, Skipped),
      FlakyOf(naming, acIds, attempts),
      Count(naming, acIds, attempts, Passing),
      Rows(naming, acIds, attempts),
      PassedTests(Last(attempts)), |Last(attempts)|)
  }

  /** `execution_summary`; `None` is "not evaluated". */
  method ExecutionSummary(naming: Naming, acIds: seq<string>, attempts: seq<Attempt>) returns (summary: Option<Summary>)
    ensures summary == if attempts == [] then None else Some(SummaryOf(naming, acIds, attempts))
  {
    if attempts == [] {
      return None;
    }
    var perAttempt := MarkEach(naming, acIds, attempts);
    var perAc: map<string, Row> := map[];
    var passing, failing, notRun := 0, 0, 0;
    var solidlyVerified := [];
    for k := 0 to |acIds|
      invariant perAc == Rows(naming, acIds[..k], attempts)
      invariant passing == |solidlyVerified| == Count(naming, acIds[..k], attempts, Passing)
      invariant failing == Count(naming, acIds[..k], attempts, Failing)
      invariant notRun == Count(naming, acIds[..k], attempts, Skipped)
    {
      var ac := acIds[k];
      assert acIds[..k + 1] == acIds[..k] + [ac];
      NextRow(naming, acIds[..k], attempts, ac);
      var row := MakeRow(naming, acIds, attempts, perAttempt, ac);
      perAc := perAc[ac := row];
      if row.NotRun? {
        notRun := notRun + 1;
        continue;
      }
      if row.passing {
        passing := passing + 1;
        solidlyVerified := solidlyVerified + [ac];
      } else {
        failing := failing + 1;
      }
    }
    assert acIds[..|acIds|] == acIds;
    var flaky := set ac | ac in perAc && perAc[ac].Ran? && perAc[ac].flaky;
    assert flaky == FlakyOf(naming, acIds, attempts);
    var overallPassed := CountPassed(Last(attempts));
    return Some(Summary(|attempts|, passing, failing, notRun, flaky, |solidlyVerified|, perAc,
                        overallPassed, |Last(attempts)|));
  }

  lemma NextRow(naming: Naming, acIds: seq<string>, attempts: seq<Attempt>, ac: string)
    ensures Rows(naming, acIds + [ac], attempts) == Rows(naming, acIds, attempts)[ac := RowOf(naming, attempts, ac)]
    ensures forall status ::
      Count(naming, acIds + [ac], attempts, status)
      == Count(naming, acIds, attempts, status) + if StatusOf(RowOf(naming, attempts, ac)) == status then 1 else 0
  {
    assert Init(acIds + [ac]) == acIds;
  }

  method CountPassed(attempt: Attempt) returns (n: nat)
    ensures n == PassedTests(attempt)
  {
    n := 0;
    for i := 0 to |attempt|
      invariant n == PassedTests(attempt[..i])
    {
      assert Init(attempt[..i + 1]) == attempt[..i];
      if attempt[i].result == "pass" {
        n := n + 1;
      }
    }
    assert attempt[..|attempt|] == attempt;
  }

  ghost predicate AllMarks(naming: Naming, acIds: seq<string>, attempts: seq<Attempt>, marks: seq<map<string, string>>) {
    |marks| == |attempts| && forall i | 0 <= i < |attempts| :: marks[i] == Marks(naming, acIds, attempts[i])
  }

  method MarkEach(naming: Naming, acIds: seq<string>, attempts: seq<Attempt>) returns (marks: seq<map<string, string>>)
    ensures AllMarks(naming, acIds, attempts, marks)
  {
    marks := [];
    for i := 0 to |attempts|
      invariant AllMarks(naming, acIds, attempts[..i], marks)
    {
      var results := AttributeOutcomes(naming, acIds, attempts[i]);
      marks := marks + [results];
    }
    assert attempts[..|attempts|] == attempts;
  }

  /** One criterion's row, from the marks of the attempts that reported it. */
  method MakeRow(naming: Naming, acIds: seq<string>, attempts: seq<Attempt>, marks: seq<map<string, string>>, ac: string)
    returns (row: Row)
    requires AllMarks(naming, acIds, attempts, marks) && ac in acIds
    ensures row == RowOf(naming, attempts, ac)
  {
    var runs, passed := 0, 0;
    for i := 0 to |attempts|
      invariant runs == Runs(naming, attempts[..i], ac) && passed == Passes(naming, attempts[..i], ac)
    {
      assert Init(attempts[..i + 1]) == attempts[..i] && Last(attempts[..i + 1]) == attempts[i];
      if ac in marks[i] {
        runs := runs + 1;
        if marks[i][ac] == "pass" {
          passed := passed + 1;
        }
      }
    }
    assert attempts[..|attempts|] == attempts;
    if runs == 0 {
      return NotRun;
    }
    return Ran(runs, passed, 0 < passed < runs, passed == runs, NamesOf(naming, attempts, ac));
  }

  // ---- what the rows mean ----

  /** A criterion passes exactly when some test names it and no attempt ever failed a test that does. */
  lemma PassMeansNoFailure(naming: Naming, attempts: seq<Attempt>, ac: string)
    ensures var row := RowOf(naming, attempts, ac);
      && (row.NotRun? <==> NamesOf(naming, attempts, ac) == {})
      && (row.Ran? && row.passing
          <==> (NamesOf(naming, attempts, ac) != {}
                && forall a, t | a in attempts && t in a && t.name in NamesOf(naming, attempts, ac) :: t.result != "fail"))
  {
    CountsMean(naming, attempts, ac);
    var names := NamesOf(naming, attempts, ac);
    forall a, t | a in attempts && t in a
      ensures t.name in names <==> ac in naming(t.name)
    {
      var i :| 0 <= i < |attempts| && attempts[i] == a;
      var j :| 0 <= j < |attempts[i]| && attempts[i][j] == t;
      if ac in naming(t.name) {
        assert attempts[i][j].name in names;
      }
    }
    forall a | a in attempts
      ensures Reported(naming, a, ac) <==> exists t | t in a :: ac in naming(t.name)
      ensures Failed(naming, a, ac) <==> exists t | t in a :: ac in naming(t.name) && t.result == "fail"
    {
    }
    if names != {} {
      var n :| n in names;
      var i, j :| 0 <= i < |attempts| && 0 <= j < |attempts[i]| && ac in naming(attempts[i][j].name) && attempts[i][j].name == n;
      assert Reported(naming, attempts[i], ac);
    }
  }

  /** A flaky criterion is a failing one that some attempt passed; so no criterion is both flaky and passing. */
  lemma FlakyMeansBoth(naming: Naming, attempts: seq<Attempt>, ac: string)
    ensures var row := RowOf(naming, attempts, ac);
      row.Ran? && row.flaky <==> (row.Ran? && !row.passing && exists a | a in attempts :: Passed(naming, a, ac))
  {
    CountsMean(naming, attempts, ac);
  }

  /** Another attempt never repairs a failing criterion, nor makes a flaky one steady. */
  lemma MoreAttempts(naming: Naming, attempts: seq<Attempt>, more: seq<Attempt>, ac: string)
    requires RowOf(naming, attempts, ac).Ran?
    ensures var before, after := RowOf(naming, attempts, ac), RowOf(naming, attempts + more, ac);
      after.Ran? && (!before.passing ==> !after.passing) && (before.flaky ==> after.flaky)
  {
    CountsMean(naming, attempts, ac);
    CountsMean(naming, attempts + more, ac);
    assert forall a | a in attempts :: a in attempts + more;
  }

  // ---- what the summary counts ----

  /** Some test of some attempt names the criterion; some test that names it failed. */
  predicate Named(naming: Naming, attempts: seq<Attempt>, ac: string) {
    exists a | a in attempts :: exists t | t in a :: ac in naming(t.name)
  }

  predicate Broken(naming: Naming, attempts: seq<Attempt>, ac: string) {
    exists a | a in attempts :: exists t | t in a :: ac in naming(t.name) && t.result == "fail"
  }

  lemma StatusMeans(naming: Naming, attempts: seq<Attempt>, ac: string)
    ensures StatusOf(RowOf(naming, attempts, ac))
         == if !Named(naming, attempts, ac) then Skipped else if Broken(naming, attempts, ac) then Failing else Passing
  {
    CountsMean(naming, attempts, ac);
    forall a: Attempt
      ensures Reported(naming, a, ac) <==> exists t | t in a :: ac in naming(t.name)
      ensures Failed(naming, a, ac) <==> exists t | t in a :: ac in naming(t.name) && t.result == "fail"
    {
    }
    assert Named(naming, attempts, ac) <==> exists a | a in attempts :: Reported(naming, a, ac);
    assert Broken(naming, attempts, ac) <==> exists a | a in attempts :: Failed(naming, a, ac);
  }

  function Where(naming: Naming, acIds: seq<string>, attempts: seq<Attempt>, status: Status): set<nat> {
    set k: nat | k < |acIds| && StatusOf(RowOf(naming, attempts, acIds[k])) == status
  }

  lemma {:induction false} CountIsWhere(naming: Naming, acIds: seq<string>, attempts: seq<Attempt>, status: Status)
    ensures Count(naming, acIds, attempts, status) == |Where(naming, acIds, attempts, status)|
  {
    if acIds != [] {
      var front, n := Init(acIds), |acIds| - 1;
      CountIsWhere(naming, front, attempts, status);
      var before, after := Where(naming, front, attempts, status), Where(naming, acIds, attempts, status);
      assert forall k | 0 <= k < n :: front[k] == acIds[k];
      OneMoreIndex(before, after, n, StatusOf(RowOf(naming, attempts, Last(acIds))) == status);
    }
  }

  lemma OneMoreIndex(before: set<nat>, after: set<nat>, n: nat, more: bool)
    requires forall k | k in before :: k < n
    requires forall k :: k in after <==> k in before || (k == n && more)
    ensures |after| == |before| + if more then 1 else 0
  {
    assert n !in before;
    if more {
      assert after == before + {n};
    } else {
      assert after == before;
    }
  }

  function PassedAt(attempt: Attempt): set<nat> {
    set i: nat | i < |attempt| && attempt[i].result == "pass"
  }

  lemma {:induction false} PassedTestsAre(attempt: Attempt)
    ensures PassedTests(attempt) == |PassedAt(attempt)|
  {
    if attempt != [] {
      var front, n := Init(attempt), |attempt| - 1;
      PassedTestsAre(front);
      assert forall i | 0 <= i < n :: front[i] == attempt[i];
      OneMoreIndex(PassedAt(front), PassedAt(attempt), n, Last(attempt).result == "pass");
    }
  }

  function ReportedIn(naming: Naming, attempts: seq<Attempt>, ac: string): set<nat> {
    set i: nat | i < |attempts| && Reported(naming, attempts[i], ac)
  }

  function PassedIn(naming: Naming, attempts: seq<Attempt>, ac: string): set<nat> {
    set i: nat | i < |attempts| && Passed(naming, attempts[i], ac)
  }

  /** A row counts the attempts that reported the criterion, and those of them in which nothing that names it failed. */
  lemma {:induction false} RunsAre(naming: Naming, attempts: seq<Attempt>, ac: string)
    ensures Runs(naming, attempts, ac) == |ReportedIn(naming, attempts, ac)|
    ensures Passes(naming, attempts, ac) == |PassedIn(naming, attempts, ac)|
  {
    if attempts != [] {
      var front, last, n := Init(attempts), Last(attempts), |attempts| - 1;
      RunsAre(naming, front, ac);
      assert forall i | 0 <= i < n :: front[i] == attempts[i];
      OneMoreIndex(ReportedIn(naming, front, ac), ReportedIn(naming, attempts, ac), n, Reported(naming, last, ac));
      OneMoreIndex(PassedIn(naming, front, ac), PassedIn(naming, attempts, ac), n, Passed(naming, last, ac));
    }
  }

  predicate RowMeans(naming: Naming, attempts: seq<Attempt>, ac: string, row: Row) {
    match row
    case NotRun => !Named(naming, attempts, ac)
    case Ran(runs, passed, flaky, passing, testNames) =>
      && Named(naming, attempts, ac)
      && runs == |ReportedIn(naming, attempts, ac)| && passed == |PassedIn(naming, attempts, ac)|
      && (passing <==> !Broken(naming, attempts, ac))
      && (flaky <==> Broken(naming, attempts, ac) && PassedIn(naming, attempts, ac) != {})
  }

  lemma RowOfMeans(naming: Naming, attempts: seq<Attempt>, ac: string)
    ensures RowMeans(naming, attempts, ac, RowOf(naming, attempts, ac))
  {
    RunsAre(naming, attempts, ac);
    StatusMeans(naming, attempts, ac);
    CountsMean(naming, attempts, ac);
  }

  /** The summary counts the criteria by what the tests that name them did, over all attempts, and the tests that
      passed in the last one. */
  lemma SummaryMeans(naming: Naming, acIds: seq<string>, attempts: seq<Attempt>)
    requires attempts != []
    ensures var summary := SummaryOf(naming, acIds, attempts);
      && summary.passing == |set k: nat | k < |acIds| && Named(naming, attempts, acIds[k]) && !Broken(naming, attempts, acIds[k])|
      && summary.failing == |set k: nat | k < |acIds| && Broken(naming, attempts, acIds[k])|
      && summary.notRun == |set k: nat | k < |acIds| && !Named(naming, attempts, acIds[k])|
      && summary.solidlyVerified == summary.passing && summary.attempts == |attempts|
      && summary.overallTotal == |attempts[|attempts| - 1]|
      && summary.overallPassed == |PassedAt(attempts[|attempts| - 1])|
  {
    CountIsWhere(naming, acIds, attempts, Passing);
    CountIsWhere(naming, acIds, attempts, Failing);
    CountIsWhere(naming, acIds, attempts, Skipped);
    PassedTestsAre(Last(attempts));
    forall k | 0 <= k < |acIds|
      ensures Broken(naming, attempts, acIds[k]) ==> Named(naming, attempts, acIds[k])
      ensures StatusOf(RowOf(naming, attempts, acIds[k]))
           == if !Named(naming, attempts, acIds[k]) then Skipped
              else if Broken(naming, attempts, acIds[k]) then Failing else Passing
    {
      StatusMeans(naming, attempts, acIds[k]);
    }
    assert Where(naming, acIds, attempts, Passing)
        == set k: nat | k < |acIds| && Named(naming, attempts, acIds[k]) && !Broken(naming, attempts, acIds[k]);
    assert Where(naming, acIds, attempts, Failing) == set k: nat | k < |acIds| && Broken(naming, attempts, acIds[k]);
    assert Where(naming, acIds, attempts, Skipped) == set k: nat | k < |acIds| && !Named(naming, attempts, acIds[k]);
  }

  /** Its rows are those of the listed criteria, and its flaky ones the broken ones that some attempt passed. */
  lemma RowsMean(naming: Naming, acIds: seq<string>, attempts: seq<Attempt>)
    requires attempts != []
    ensures var summary := SummaryOf(naming, acIds, attempts);
      && summary.flaky == (set ac | ac in acIds && Broken(naming, attempts, ac) && PassedIn(naming, attempts, ac) != {})
      && (forall ac :: ac in summary.perAc <==> ac in acIds)
      && (forall ac | ac in acIds :: RowMeans(naming, attempts, ac, summary.perAc[ac]))
  {
    forall ac
      ensures RowMeans(naming, attempts, ac, RowOf(naming, attempts, ac))
      ensures RowOf(naming, attempts, ac).Ran? && RowOf(naming, attempts, ac).flaky
         <==> Broken(naming, attempts, ac) && PassedIn(naming, attempts, ac) != {}
    {
      RowOfMeans(naming, attempts, ac);
      BrokenIsNamed(naming, attempts, ac);
    }
  }

  lemma BrokenIsNamed(naming: Naming, attempts: seq<Attempt>, ac: string)
    ensures Broken(naming, attempts, ac) ==> Named(naming, attempts, ac)
  {
    if Broken(naming, attempts, ac) {
      var a :| a in attempts && exists t | t in a :: ac in naming(t.name) && t.result == "fail";
      var t :| t in a && ac in naming(t.name) && t.result == "fail";
    }
  }
}
