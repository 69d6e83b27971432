/** Which migration runs succeed and what they leave behind (packages/db/src/migration-engine.ts),
    stated on the files, the ledger, the tables and the options alone. */
module MigrationOutcome {
  import opened Common
  import opened Sorting
  import opened CatalogDrift
  import opened MigrationEngine

  // ----- File names and their order -----

  /** A name taken apart: version, underscore, title and ending. */
  ghost predicate NamedAs(n: string, version: string, title: string) {
    && n == version + "_" + title + ".sql"
    && |version| == 4 && (forall i :: 0 <= i < 4 ==> '0' <= version[i] <= '9')
    && |title| >= 1
    && (forall i :: 0 <= i < |title| ==>
          var c := title[i]; 'A' <= c <= 'Z' || 'a' <= c <= 'z' || '0' <= c <= '9' || c == '_' || c == '-')
  }

  /** The accepted names are exactly the four-digit versions with a title. */
  lemma NamesFollowPattern(n: string)
    ensures ValidName(n) <==> exists version: string, title: string :: NamedAs(n, version, title)
  {
    if ValidName(n) {
      var title := n[5..|n| - 4];
      assert n == n[..4] + "_" + title + ".sql";
      forall i | 0 <= i < |title| ensures NameChar(title[i]) { assert title[i] == n[5 + i]; }
      assert NamedAs(n, n[..4], title);
    }
    if v: string, t: string :| NamedAs(n, v, t) {
      assert n[4] == '_' && n[|n| - 4..] == ".sql";
      forall i | 5 <= i < |n| - 4 ensures NameChar(n[i]) { assert n[i] == t[i - 5]; }
    }
  }

  /** The versions of a list of files, as the set the engine counts. */
  function Versions(files: seq<MigrationFile>): set<string> {
    set f | f in files && |f.name| >= 4 :: f.name[..4]
  }

  lemma {:induction false} ValidNamesAt(files: seq<MigrationFile>)
    ensures ValidNames(files) <==> forall f :: f in files ==> ValidName(f.name)
  {
    if files != [] {
      ValidNamesAt(files[1..]);
      assert files == [files[0]] + files[1..];
    }
  }

  lemma OneMoreVersion(front: seq<MigrationFile>, f: MigrationFile)
    requires ValidName(f.name) && forall g :: g in front ==> ValidName(g.name)
    ensures Versions(front + [f]) == Versions(front) + {Version(f.name)}
    ensures UniqueVersions(front + [f]) <==> UniqueVersions(front) && Version(f.name) !in Versions(front)
  {
    var files := front + [f];
    assert forall i :: 0 <= i < |front| ==> files[i] == front[i] && front[i] in front;
    if Version(f.name) in Versions(front) {
      var g :| g in front && |g.name| >= 4 && g.name[..4] == Version(f.name);
      var i :| 0 <= i < |front| && front[i] == g;
      assert files[i] == g && files[|front|] == f;
    }
  }

  lemma {:induction false} UniqueVersionsAreCounted(files: seq<MigrationFile>)
    requires forall f :: f in files ==> ValidName(f.name)
    ensures |Versions(files)| <= |files|
    ensures UniqueVersions(files) <==> |Versions(files)| == |files|
  {
    if files != [] {
      var front, f := files[..|files| - 1], files[|files| - 1];
      assert files == front + [f];
      UniqueVersionsAreCounted(front);
      OneMoreVersion(front, f);
    }
  }

  lemma OrderedElements(files: seq<MigrationFile>, f: MigrationFile)
    ensures f in Ordered(files) <==> f in files
  {
    SameElements(Ordered(files), files, f);
  }

  /** The check on names does not depend on the order in which the files are listed: every name
      follows the pattern, and there are as many versions as files. */
  lemma GoodNamesOfFiles(files: seq<MigrationFile>)
    ensures GoodNames(Ordered(files))
      <==> (forall f :: f in files ==> ValidName(f.name)) && |Versions(files)| == |files|
  {
    forall f ensures f in Ordered(files) <==> f in files { OrderedElements(files, f); }
    ValidNamesAt(Ordered(files));
    assert Versions(Ordered(files)) == Versions(files);
    if forall f :: f in files ==> ValidName(f.name) { UniqueVersionsAreCounted(Ordered(files)); }
  }

  /** The number a file name starts with. */
  function VersionNumber(n: string): int
    requires |n| >= 4
  {
    1000 * (n[0] as int - 48) + 100 * (n[1] as int - 48) + 10 * (n[2] as int - 48) + (n[3] as int - 48)
  }

  lemma {:induction false} LexUnfolds(a: string, b: string)
    requires a != [] && b != []
    ensures LexLe(a, b) ==> a[0] < b[0] || (a[0] == b[0] && LexLe(a[1..], b[1..]))
  {
  }

  lemma FourAlike(a: string, b: string)
    requires |a| >= 4 && |b| >= 4
    ensures a[..4] == b[..4] <==> a[0] == b[0] && a[1] == b[1] && a[2] == b[2] && a[3] == b[3]
  {
    assert a[..4] == [a[0], a[1], a[2], a[3]] && b[..4] == [b[0], b[1], b[2], b[3]];
  }

  lemma {:induction false} LexOrderOfVersions(a: string, b: string)
    requires ValidName(a) && ValidName(b) && Version(a) != Version(b) && LexLe(a, b)
    ensures VersionNumber(a) < VersionNumber(b)
  {
    FourAlike(a, b);
    LexUnfolds(a, b);
    LexUnfolds(a[1..], b[1..]);
    LexUnfolds(a[2..], b[2..]);
    LexUnfolds(a[3..], b[3..]);
    assert a[1..][1..] == a[2..] && a[2..][1..] == a[3..];
    assert b[1..][1..] == b[2..] && b[2..][1..] == b[3..];
  }

  /** The files of a checkout, each once, in increasing order of their version numbers. */
  lemma OrderedByVersion(files: seq<MigrationFile>)
    requires GoodNames(Ordered(files))
    ensures multiset(Ordered(files)) == multiset(files)
    ensures forall i :: 0 <= i < |files| ==> |Ordered(files)[i].name| >= 4
    ensures forall i, j :: 0 <= i < j < |files| ==>
      VersionNumber(Ordered(files)[i].name) < VersionNumber(Ordered(files)[j].name)
  {
    var ordered := Ordered(files);
    RowOrder();
    SortSorts(files, NameLe);
    ValidNamesAt(ordered);
    assert forall i :: 0 <= i < |ordered| ==> ordered[i] in ordered;
    forall i, j | 0 <= i < j < |ordered| ensures VersionNumber(ordered[i].name) < VersionNumber(ordered[j].name) {
      assert NameLe(ordered[i], ordered[j]) && Version(ordered[i].name) != Version(ordered[j].name);
      LexOrderOfVersions(ordered[i].name, ordered[j].name);
    }
  }

  // ----- Executing files -----

  /** The schemas before, between and after the files: each file executes on what the one before left. */
  ghost predicate Chain(exec: Exec, files: seq<MigrationFile>, states: seq<Snapshot>) {
    && |states| == |files| + 1
    && forall i :: 0 <= i < |files| ==> exec(files[i].sql, states[i]) == Some(states[i + 1])
  }

  ghost predicate Executes(exec: Exec, from: Snapshot, files: seq<MigrationFile>, to: Snapshot) {
    exists states :: Chain(exec, files, states) && states[0] == from && states[|files|] == to
  }

  lemma {:induction false} ChainIsApplied(exec: Exec, files: seq<MigrationFile>, states: seq<Snapshot>)
    requires Chain(exec, files, states)
    ensures ApplyAll(exec, states[0], files) == Some(states[|files|])
  {
    if files != [] {
      assert Chain(exec, files[..|files| - 1], states[..|files|]);
      ChainIsApplied(exec, files[..|files| - 1], states[..|files|]);
    }
  }

  lemma {:induction false} AppliedIsChain(exec: Exec, from: Snapshot, files: seq<MigrationFile>)
    requires ApplyAll(exec, from, files).Some?
    ensures Executes(exec, from, files, ApplyAll(exec, from, files).value)
  {
    if files == [] {
      assert Chain(exec, files, [from]);
    } else {
      var front, to := files[..|files| - 1], ApplyAll(exec, from, files).value;
      AppliedIsChain(exec, from, front);
      var states :| Chain(exec, front, states) && states[0] == from
        && states[|front|] == ApplyAll(exec, from, front).value;
      assert Chain(exec, files, states + [to]);
    }
  }

  /** Files are applied exactly when each of them executes, one after the other. */
  lemma {:induction false} AppliedOneByOne(exec: Exec, from: Snapshot, files: seq<MigrationFile>, to: Snapshot)
    ensures ApplyAll(exec, from, files) == Some(to) <==> Executes(exec, from, files, to)
  {
    if ApplyAll(exec, from, files) == Some(to) { AppliedIsChain(exec, from, files); }
    if Executes(exec, from, files, to) {
      var states :| Chain(exec, files, states) && states[0] == from && states[|files|] == to;
      ChainIsApplied(exec, files, states);
    }
  }

  // ----- What a successful run reports and leaves -----

  ghost predicate NamesOf(names: seq<string>, files: seq<MigrationFile>) {
    |names| == |files| && forall i :: 0 <= i < |files| ==> names[i] == files[i].name
  }

  /** The new rows of the ledger: one for each file that was not recorded, the adopted ones first. */
  ghost predicate RowsAdded(was: seq<LedgerRow>, ledger: seq<LedgerRow>, ordered: seq<MigrationFile>, adopted: nat) {
    && |was| <= |ledger| == |ordered| && ledger[..|was|] == was
    && forall i :: |was| <= i < |ledger| ==>
         && ledger[i].name == ordered[i].name && ledger[i].checksum == ordered[i].checksum
         && ledger[i].executed == (i >= |was| + adopted)
  }

  /** The report names the adopted files and the ones after them. */
  ghost predicate Reported(ordered: seq<MigrationFile>, recorded: nat, adopted: nat, plan: bool, report: Report) {
    && recorded + adopted <= |ordered| && report.plan == plan
    && report.baselineCandidate == (if adopted == 0 then None else Some(ordered[recorded + adopted - 1].name))
    && NamesOf(report.pending, ordered[recorded + adopted..])
    && NamesOf(report.adopted, if plan then [] else ordered[recorded..recorded + adopted])
    && report.applied == (if plan then [] else report.pending)
  }

  /** The files that were not recorded are: `adopted` of them as they are, the rest executed in order. */
  ghost predicate Written(db: Db, ordered: seq<MigrationFile>, adopted: nat, exec: Exec, db': Db) {
    && |db.ledger| + adopted <= |ordered|
    && RowsAdded(db.ledger, db'.ledger, ordered, adopted)
    && db'.executed == db.executed + ordered[|db.ledger| + adopted..]
    && Executes(exec, db.catalog, ordered[|db.ledger| + adopted..], db'.catalog)
  }

  /** A plan reports and writes nothing; a run reports the same pending files and writes. */
  ghost predicate Done(
      db: Db, ordered: seq<MigrationFile>, adopted: nat, plan: bool, exec: Exec, report: Report, db': Db)
  {
    && Reported(ordered, |db.ledger|, adopted, plan, report)
    && if plan then db' == db else Written(db, ordered, adopted, exec, db')
  }

  ghost predicate Executable(exec: Exec, from: Snapshot, files: seq<MigrationFile>) {
    exists to :: Executes(exec, from, files, to)
  }

  lemma {:induction false} ExecutableMeansApplied(exec: Exec, from: Snapshot, files: seq<MigrationFile>)
    ensures Executable(exec, from, files) <==> ApplyAll(exec, from, files).Some?
  {
    if ApplyAll(exec, from, files).Some? {
      AppliedOneByOne(exec, from, files, ApplyAll(exec, from, files).value);
    }
    if to :| Executes(exec, from, files, to) { AppliedOneByOne(exec, from, files, to); }
  }

  lemma PlannedRowsAdded(was: seq<LedgerRow>, p: Plan)
    requires p.Fits() && p.recorded == |was|
    ensures RowsAdded(was, was + RowsFor(p.Adopted(), false) + RowsFor(p.Pending(), true), p.ordered, p.baseline)
  {
    var ledger := was + RowsFor(p.Adopted(), false) + RowsFor(p.Pending(), true);
    forall i | |was| <= i < |ledger|
      ensures ledger[i].name == p.ordered[i].name && ledger[i].checksum == p.ordered[i].checksum
      ensures ledger[i].executed == (i >= |was| + p.baseline)
    {
      if i < |was| + p.baseline {
        assert ledger[i] == RowsFor(p.Adopted(), false)[i - |was|];
      } else {
        assert ledger[i] == RowsFor(p.Pending(), true)[i - |was| - p.baseline];
      }
    }
  }

  lemma PlanIsReported(p: Plan, o: Options)
    requires p.Fits()
    ensures Reported(p.ordered, p.recorded, p.baseline, o.plan, ReportOf(p, o))
  {
  }

  lemma RunIsWritten(db: Db, p: Plan, exec: Exec, db': Db)
    requires p.Fits() && p.recorded == |db.ledger|
    requires ApplyAll(exec, db.catalog, p.Pending()) == Some(db'.catalog)
    requires db'.ledger == db.ledger + RowsFor(p.Adopted(), false) + RowsFor(p.Pending(), true)
    requires db'.executed == db.executed + p.Pending()
    ensures Written(db, p.ordered, p.baseline, exec, db')
  {
    AppliedOneByOne(exec, db.catalog, p.Pending(), db'.catalog);
    PlannedRowsAdded(db.ledger, p);
  }

  /** A run either fails and leaves the database as it was, or leaves its files done. */
  ghost predicate FailsOrDone(db: Db, files: seq<MigrationFile>, o: Options, exec: Exec, adopted: nat) {
    match Migrate(db, files, o, exec)
    case Err(_) => Transact(db, files, o, exec) == db
    case Ok((report, _)) =>
      Done(db, Ordered(files), adopted, o.plan, exec, report, Transact(db, files, o, exec))
  }

  lemma PlannedRunIsDone(db: Db, files: seq<MigrationFile>, o: Options, exec: Exec)
    requires MakePlan(db, files, o).Ok?
    ensures FailsOrDone(db, files, o, exec, MakePlan(db, files, o).value.baseline)
  {
    var p, r := MakePlan(db, files, o).value, Migrate(db, files, o, exec);
    if r.Ok? {
      PlanIsReported(p, o);
      if !o.plan { RunIsWritten(db, p, exec, r.value.1); }
    }
  }

  lemma PlannedRunSucceeds(db: Db, files: seq<MigrationFile>, o: Options, exec: Exec)
    requires MakePlan(db, files, o).Ok?
    ensures Migrate(db, files, o, exec).Ok?
      <==> o.plan || Executable(exec, db.catalog, MakePlan(db, files, o).value.Pending())
  {
    ExecutableMeansApplied(exec, db.catalog, MakePlan(db, files, o).value.Pending());
  }

  // ----- When a run succeeds -----

  lemma ThroughGiven(o: Options)
    ensures o.Through() <==> o.baselineThrough !in {None, Some("")}
  {
    if o.baselineThrough.Some? && o.baselineThrough.value == "" { assert o.baselineThrough == Some(""); }
  }

  lemma FreshPlan(db: Db, files: seq<MigrationFile>, o: Options)
    requires db.ledger == [] && !HasTables(db.catalog)
    ensures MakePlan(db, files, o).Ok? <==>
      && (o.detectBaseline ==> o.plan && !o.confirmExistingSchema)
      && GoodNames(Ordered(files)) && !o.Through()
    ensures MakePlan(db, files, o).Ok? ==> MakePlan(db, files, o).value == Plan(Ordered(files), 0, 0)
  {
    assert Sort(db.ledger, RowLe) == [];
  }

  /** A database without a ledger and without tables. A run succeeds exactly when the names are good,
      no baseline is asked for, and every file executes; then all of them are executed and recorded. */
  lemma FreshRun(db: Db, files: seq<MigrationFile>, o: Options, exec: Exec)
    requires db.ledger == []
    requires forall row :: row in db.catalog.Rows(Relations) && "kind" in row.fields ==>
      row.fields["kind"] != Text("r") && row.fields["kind"] != Text("p")
    ensures Migrate(db, files, o, exec).Ok? <==>
      && (o.detectBaseline ==> o.plan && !o.confirmExistingSchema)
      && GoodNames(Ordered(files)) && o.baselineThrough in {None, Some("")}
      && (o.plan || Executable(exec, db.catalog, Ordered(files)))
    ensures FailsOrDone(db, files, o, exec, 0)
  {
    ThroughGiven(o);
    assert !HasTables(db.catalog);
    FreshPlan(db, files, o);
    if MakePlan(db, files, o).Ok? {
      PlannedRunSucceeds(db, files, o, exec);
      PlannedRunIsDone(db, files, o, exec);
      assert MakePlan(db, files, o).value.Pending() == Ordered(files);
    }
  }

  /** The ledger agrees in name and checksum with the files before its end. */
  ghost predicate LedgerAgrees(ledger: seq<LedgerRow>, ordered: seq<MigrationFile>) {
    && |ledger| <= |ordered|
    && forall i :: 0 <= i < |ledger| ==>
         ledger[i].name == ordered[i].name && ledger[i].checksum == ordered[i].checksum
  }

  lemma AgreesMeansMatches(ledger: seq<LedgerRow>, ordered: seq<MigrationFile>)
    ensures LedgerAgrees(ledger, ordered) <==> HistoryMatches(ledger, ordered)
  {
    if LedgerAgrees(ledger, ordered) {
      forall i | 0 <= i < |ledger| ensures Records(ledger[i], ordered[i]) { }
    }
    if HistoryMatches(ledger, ordered) {
      forall i | 0 <= i < |ledger|
        ensures ledger[i].name == ordered[i].name && ledger[i].checksum == ordered[i].checksum
      {
        assert Records(ledger[i], ordered[i]);
      }
    }
  }

  lemma LedgeredPlan(db: Db, files: seq<MigrationFile>, o: Options)
    requires db.ledger != [] && Sort(db.ledger, RowLe) == db.ledger
    ensures MakePlan(db, files, o).Ok? <==>
      && (o.detectBaseline ==> o.plan && !o.confirmExistingSchema)
      && GoodNames(Ordered(files)) && HistoryMatches(db.ledger, Ordered(files)) && !o.Through()
    ensures MakePlan(db, files, o).Ok? ==> MakePlan(db, files, o).value == Plan(Ordered(files), |db.ledger|, 0)
  {
  }

  /** A database with a ledger in name order, as every run leaves it. A run succeeds exactly when the
      names are good, the ledger agrees with the files, no baseline is asked for, and every file after
      the recorded ones executes; then exactly those are executed and recorded. */
  lemma LedgeredRun(db: Db, files: seq<MigrationFile>, o: Options, exec: Exec)
    requires db.ledger != [] && InOrder(db.ledger)
    ensures Migrate(db, files, o, exec).Ok? <==>
      && (o.detectBaseline ==> o.plan && !o.confirmExistingSchema)
      && GoodNames(Ordered(files)) && LedgerAgrees(db.ledger, Ordered(files)) && o.baselineThrough in {None, Some("")}
      && (o.plan || Executable(exec, db.catalog, Ordered(files)[|db.ledger|..]))
    ensures FailsOrDone(db, files, o, exec, 0)
  {
    SortIsIdentityOnSorted(db.ledger, RowLe);
    AgreesMeansMatches(db.ledger, Ordered(files));
    ThroughGiven(o);
    LedgeredPlan(db, files, o);
    if MakePlan(db, files, o).Ok? {
      PlannedRunSucceeds(db, files, o, exec);
      PlannedRunIsDone(db, files, o, exec);
    }
  }

  // ----- An existing schema without a ledger -----

  /** The file a baseline argument names, by its version or its full name. */
  ghost predicate NamedBy(f: MigrationFile, v: string) {
    f.name == v || (|f.name| >= 4 && f.name[..4] == v)
  }

  lemma {:induction false} FirstNamed(ordered: seq<MigrationFile>, v: string, from: nat)
    requires from <= |ordered|
    ensures var r := FindVersion(ordered, v, from);
      && (r.Some? ==> NamedBy(ordered[r.value], v))
      && (r.None? ==> forall i :: from <= i < |ordered| ==> !NamedBy(ordered[i], v))
    decreases |ordered| - from
  {
    if from < |ordered| { FirstNamed(ordered, v, from + 1); }
  }

  /** At most one file has a given version or name. */
  lemma NamedOnce(ordered: seq<MigrationFile>, v: string, i: nat, j: nat)
    requires GoodNames(ordered) && i < |ordered| && j < |ordered| && NamedBy(ordered[i], v) && NamedBy(ordered[j], v)
    ensures i == j
  {
    ValidNamesAt(ordered);
    assert ordered[i] in ordered && ordered[j] in ordered;
    assert Version(ordered[i].name) == Version(ordered[j].name);
  }

  /** The leading files up to a named one are accepted as what the schema is. */
  ghost predicate Adoptable(db: Db, ordered: seq<MigrationFile>, o: Options, n: nat) {
    && 0 < n <= |ordered| && o.confirmExistingSchema && o.verify.Some?
    && o.baselineThrough.Some? && o.baselineThrough.value != "" && NamedBy(ordered[n - 1], o.baselineThrough.value)
    && o.verify.value(db.catalog, ordered[..n]) == Accepted
  }

  lemma AdoptingPrefix(db: Db, ordered: seq<MigrationFile>, o: Options, n: nat)
    requires GoodNames(ordered) && !o.detectBaseline
    ensures LegacyPrefix(db.catalog, ordered, o) == Ok(n) <==> Adoptable(db, ordered, o, n)
  {
    if o.Through() {
      var v := o.baselineThrough.value;
      FirstNamed(ordered, v, 0);
      var r := FindVersion(ordered, v, 0);
      if r.Some? && 0 < n <= |ordered| && NamedBy(ordered[n - 1], v) { NamedOnce(ordered, v, r.value, n - 1); }
    }
  }

  lemma AdoptingPlan(db: Db, files: seq<MigrationFile>, o: Options, n: nat)
    requires db.ledger == [] && HasTables(db.catalog)
    requires o.detectBaseline ==> o.plan && !o.confirmExistingSchema && !o.Through()
    ensures MakePlan(db, files, o) == Ok(Plan(Ordered(files), 0, n))
      <==> GoodNames(Ordered(files)) && LegacyPrefix(db.catalog, Ordered(files), o) == Ok(n)
  {
    assert Sort(db.ledger, RowLe) == [];
  }

  /** A database with tables and no ledger. A run that detects nothing succeeds exactly when the names are
      good, the caller confirms a named file up to which the verifier accepts the schema, and every file
      after it executes; then the files up to it are recorded and those after it executed. */
  lemma AdoptingRun(db: Db, files: seq<MigrationFile>, o: Options, exec: Exec, row: Row)
    requires db.ledger == [] && !o.detectBaseline
    requires row in db.catalog.Rows(Relations) && "kind" in row.fields
    requires row.fields["kind"] == Text("r") || row.fields["kind"] == Text("p")
    ensures Migrate(db, files, o, exec).Ok? <==> GoodNames(Ordered(files)) && exists n: nat ::
      Adoptable(db, Ordered(files), o, n) && (o.plan || Executable(exec, db.catalog, Ordered(files)[n..]))
    ensures forall n: nat :: Adoptable(db, Ordered(files), o, n) ==> FailsOrDone(db, files, o, exec, n)
  {
    var i :| 0 <= i < |db.catalog.Rows(Relations)| && db.catalog.Rows(Relations)[i] == row;
    assert IsTable(db.catalog.Rows(Relations)[i]);
    if GoodNames(Ordered(files)) {
      forall n: nat
        ensures Adoptable(db, Ordered(files), o, n) <==> LegacyPrefix(db.catalog, Ordered(files), o) == Ok(n)
      {
        AdoptingPrefix(db, Ordered(files), o, n);
      }
      LegacyRun(db, files, o, exec);
    }
  }

  lemma LegacyRun(db: Db, files: seq<MigrationFile>, o: Options, exec: Exec)
    requires db.ledger == [] && HasTables(db.catalog) && GoodNames(Ordered(files))
    requires o.detectBaseline ==> o.plan && !o.confirmExistingSchema && !o.Through()
    ensures Migrate(db, files, o, exec).Ok? <==> exists n: nat ::
      && LegacyPrefix(db.catalog, Ordered(files), o) == Ok(n) && n <= |Ordered(files)|
      && (o.plan || Executable(exec, db.catalog, Ordered(files)[n..]))
    ensures forall n: nat :: LegacyPrefix(db.catalog, Ordered(files), o) == Ok(n) ==> FailsOrDone(db, files, o, exec, n)
  {
    var prefix := LegacyPrefix(db.catalog, Ordered(files), o);
    if prefix.Ok? {
      var n := prefix.value;
      AdoptingPlan(db, files, o, n);
      PlannedRunSucceeds(db, files, o, exec);
      PlannedRunIsDone(db, files, o, exec);
      assert MakePlan(db, files, o).value.Pending() == Ordered(files)[n..];
    } else if MakePlan(db, files, o).Ok? {
      AdoptingPlan(db, files, o, MakePlan(db, files, o).value.baseline);
      AdoptedPrefixIsPositive(db, files, o);
    }
  }

  /** The length that a detection finds: what the caller's inspection answers, or else the longest
      prefix that the verifier accepts after rejecting every longer one. */
  ghost predicate Detected(db: Db, ordered: seq<MigrationFile>, o: Options, n: nat) {
    && 0 < n <= |ordered|
    && if o.inspect.Some? then o.inspect.value(db.catalog, ordered) == Some(n)
       else
         && o.verify.Some? && o.verify.value(db.catalog, ordered[..n]) == Accepted
         && forall m :: n < m <= |ordered| ==> o.verify.value(db.catalog, ordered[..m]) == Mismatch
  }

  lemma {:induction false} SearchFinds(verify: Verify, catalog: Snapshot, ordered: seq<MigrationFile>, end: nat, n: nat)
    requires 0 < n <= end <= |ordered| && verify(catalog, ordered[..n]) == Accepted
    requires forall m :: n < m <= end ==> verify(catalog, ordered[..m]) == Mismatch
    ensures NewestAccepted(verify, catalog, ordered, end) == Ok(n)
  {
    if n < end {
      assert verify(catalog, ordered[..end]) == Mismatch;
      SearchFinds(verify, catalog, ordered, end - 1, n);
    }
  }

  lemma DetectingPrefix(db: Db, ordered: seq<MigrationFile>, o: Options, n: nat)
    requires o.detectBaseline && !o.confirmExistingSchema
    ensures LegacyPrefix(db.catalog, ordered, o) == Ok(n) <==> Detected(db, ordered, o, n)
  {
    if o.inspect.None? && o.verify.Some? {
      NewestIsLongest(o.verify.value, db.catalog, ordered, |ordered|);
      if Detected(db, ordered, o, n) { SearchFinds(o.verify.value, db.catalog, ordered, |ordered|, n); }
    }
  }

  lemma Refusals(db: Db, files: seq<MigrationFile>, o: Options, exec: Exec)
    ensures o.detectBaseline && !(o.plan && !o.confirmExistingSchema && !o.Through()) ==>
      Migrate(db, files, o, exec) == Err(DetectionIsReadOnly)
    ensures !GoodNames(Ordered(files)) ==> Migrate(db, files, o, exec).Err?
  {
  }

  /** A detection is refused unless it is a plan without adoption arguments. On a database with tables
      and no ledger it then succeeds exactly when the names are good and some length is detected, which
      it reports without writing anything. */
  lemma DetectingRun(db: Db, files: seq<MigrationFile>, o: Options, exec: Exec, row: Row)
    requires db.ledger == [] && o.detectBaseline
    requires row in db.catalog.Rows(Relations) && "kind" in row.fields
    requires row.fields["kind"] == Text("r") || row.fields["kind"] == Text("p")
    ensures Migrate(db, files, o, exec).Ok? <==>
      && o.plan && !o.confirmExistingSchema && o.baselineThrough in {None, Some("")}
      && GoodNames(Ordered(files)) && exists n: nat :: Detected(db, Ordered(files), o, n)
    ensures forall n: nat :: Detected(db, Ordered(files), o, n) ==> FailsOrDone(db, files, o, exec, n)
  {
    var i :| 0 <= i < |db.catalog.Rows(Relations)| && db.catalog.Rows(Relations)[i] == row;
    assert IsTable(db.catalog.Rows(Relations)[i]);
    ThroughGiven(o);
    Refusals(db, files, o, exec);
    if o.plan && !o.confirmExistingSchema && o.baselineThrough in {None, Some("")} && GoodNames(Ordered(files)) {
      forall n: nat ensures Detected(db, Ordered(files), o, n) <==> LegacyPrefix(db.catalog, Ordered(files), o) == Ok(n)
      {
        DetectingPrefix(db, Ordered(files), o, n);
      }
      LegacyRun(db, files, o, exec);
    }
  }

  // ----- Why a run fails -----

  /** The checks that come before the ledger and the tables decide anything. */
  ghost predicate Checked(db: Db, files: seq<MigrationFile>, o: Options) {
    && (o.detectBaseline ==> o.plan && !o.confirmExistingSchema && o.baselineThrough in {None, Some("")})
    && GoodNames(Ordered(files)) && LedgerAgrees(Sort(db.ledger, RowLe), Ordered(files))
  }

  lemma LegacyErrorsAreTheirOwn(catalog: Snapshot, ordered: seq<MigrationFile>, o: Options)
    requires LegacyPrefix(catalog, ordered, o).Err?
    ensures LegacyPrefix(catalog, ordered, o).error in {
      InspectionFailed, InspectionNotAPrefix, NoPrefixMatches, RefusingReplay, UnknownBaseline, SchemaMismatch,
      VerificationFailed}
  {
    if o.verify.Some? { NewestBound(o.verify.value, catalog, ordered, |ordered|); }
  }

  lemma LaterErrors(db: Db, files: seq<MigrationFile>, o: Options)
    ensures BaselineLength(db, Ordered(files), o).Err? ==>
      BaselineLength(db, Ordered(files), o).error !in {DetectionIsReadOnly, BadFileNames, HistoryDiffers}
  {
    if LegacyPrefix(db.catalog, Ordered(files), o).Err? { LegacyErrorsAreTheirOwn(db.catalog, Ordered(files), o); }
  }

  lemma PlanErrors(db: Db, files: seq<MigrationFile>, o: Options)
    ensures var r := MakePlan(db, files, o);
      var readOnly := o.detectBaseline && (!o.plan || o.Through() || o.confirmExistingSchema);
      && (r == Err(DetectionIsReadOnly) <==> readOnly)
      && (r == Err(BadFileNames) <==> !readOnly && !GoodNames(Ordered(files)))
      && (r == Err(HistoryDiffers) <==>
            !readOnly && GoodNames(Ordered(files)) && !HistoryMatches(Sort(db.ledger, RowLe), Ordered(files)))
  {
    LaterErrors(db, files, o);
  }

  lemma PlanErrorIsFinal(db: Db, files: seq<MigrationFile>, o: Options, exec: Exec, e: MigrationError)
    requires e != SqlFailed
    ensures Migrate(db, files, o, exec) == Err(e) <==> MakePlan(db, files, o) == Err(e)
  {
  }

  /** The errors of the first checks, exactly when each is reported. */
  lemma CheckErrors(db: Db, files: seq<MigrationFile>, o: Options, exec: Exec)
    ensures var r, through := Migrate(db, files, o, exec), o.baselineThrough !in {None, Some("")};
      var readOnly := o.detectBaseline && (!o.plan || through || o.confirmExistingSchema);
      && (r == Err(DetectionIsReadOnly) <==> readOnly)
      && (r == Err(BadFileNames) <==> !readOnly && !GoodNames(Ordered(files)))
      && (r == Err(HistoryDiffers) <==>
            !readOnly && GoodNames(Ordered(files)) && !LedgerAgrees(Sort(db.ledger, RowLe), Ordered(files)))
  {
    AgreesMeansMatches(Sort(db.ledger, RowLe), Ordered(files));
    PlanErrors(db, files, o);
    PlanErrorIsFinal(db, files, o, exec, DetectionIsReadOnly);
    PlanErrorIsFinal(db, files, o, exec, BadFileNames);
    PlanErrorIsFinal(db, files, o, exec, HistoryDiffers);
    ThroughGiven(o);
  }

  lemma CheckedPlan(db: Db, files: seq<MigrationFile>, o: Options)
    requires Checked(db, files, o) && (db.ledger != [] || !HasTables(db.catalog))
    ensures MakePlan(db, files, o)
      == if !o.Through() then Ok(Plan(Ordered(files), |db.ledger|, 0))
         else Err(if db.ledger != [] then LedgerAlreadyExists else EmptyDatabaseCannotAdopt)
  {
    AgreesMeansMatches(Sort(db.ledger, RowLe), Ordered(files));
    ThroughGiven(o);
  }

  /** Past the first checks, on a ledger or without tables: each error exactly when it is reported. */
  lemma LedgerErrors(db: Db, files: seq<MigrationFile>, o: Options, exec: Exec)
    requires Checked(db, files, o) && (db.ledger != [] || !HasTables(db.catalog))
    ensures var r, through := Migrate(db, files, o, exec), o.baselineThrough !in {None, Some("")};
      && (r == Err(LedgerAlreadyExists) <==> db.ledger != [] && through)
      && (r == Err(EmptyDatabaseCannotAdopt) <==> db.ledger == [] && through)
      && (r == Err(SqlFailed) <==>
            !through && !o.plan && !Executable(exec, db.catalog, Ordered(files)[|db.ledger|..]))
  {
    ThroughGiven(o);
    CheckedPlan(db, files, o);
    ExecutableMeansApplied(exec, db.catalog, Ordered(files)[|db.ledger|..]);
  }

  lemma LegacyErrorIsFinal(db: Db, files: seq<MigrationFile>, o: Options, exec: Exec, e: MigrationError)
    requires db.ledger == [] && HasTables(db.catalog) && Checked(db, files, o) && e != SqlFailed
    ensures Migrate(db, files, o, exec) == Err(e) <==> LegacyPrefix(db.catalog, Ordered(files), o) == Err(e)
  {
    AgreesMeansMatches(Sort(db.ledger, RowLe), Ordered(files));
  }

  /** A detection by search meets a failing verification before any accepted prefix. */
  ghost predicate SearchFails(verify: Verify, catalog: Snapshot, ordered: seq<MigrationFile>, end: nat)
    requires end <= |ordered|
  {
    exists n :: 0 < n <= end && verify(catalog, ordered[..n]) == Failed
      && forall m :: n < m <= end ==> verify(catalog, ordered[..m]) == Mismatch
  }

  lemma {:induction false} SearchErrors(verify: Verify, catalog: Snapshot, ordered: seq<MigrationFile>, end: nat)
    requires end <= |ordered|
    ensures NewestAccepted(verify, catalog, ordered, end).Err? <==> SearchFails(verify, catalog, ordered, end)
    ensures NewestAccepted(verify, catalog, ordered, end) == Ok(0)
      <==> forall n :: 0 < n <= end ==> verify(catalog, ordered[..n]) == Mismatch
  {
    if end > 0 {
      assert verify(catalog, ordered[..end]) == verify(catalog, ordered[..end]);
      if verify(catalog, ordered[..end]) == Mismatch { SearchErrors(verify, catalog, ordered, end - 1); }
    }
  }

  /** Each error of a detection on tables without a ledger, exactly when it is reported. */
  lemma DetectionErrors(db: Db, files: seq<MigrationFile>, o: Options, exec: Exec)
    requires db.ledger == [] && HasTables(db.catalog) && Checked(db, files, o) && o.detectBaseline
    ensures var r, ordered := Migrate(db, files, o, exec), Ordered(files);
      && (r == Err(InspectionFailed) <==> o.inspect.Some? && o.inspect.value(db.catalog, ordered) == None)
      && (r == Err(InspectionNotAPrefix) <==>
            o.inspect.Some? && exists n: int ::
              o.inspect.value(db.catalog, ordered) == Some(n) && !(1 <= n <= |ordered|))
      && (r == Err(NoPrefixMatches) <==>
            && o.inspect.None? && o.verify.Some?
            && forall n :: 0 < n <= |ordered| ==> o.verify.value(db.catalog, ordered[..n]) == Mismatch)
      && (r == Err(VerificationFailed) <==>
            o.inspect.None? && o.verify.Some? && SearchFails(o.verify.value, db.catalog, ordered, |ordered|))
      && (r == Err(RefusingReplay) <==> o.inspect.None? && o.verify.None?)
  {
    LegacyErrorIsFinal(db, files, o, exec, InspectionFailed);
    LegacyErrorIsFinal(db, files, o, exec, InspectionNotAPrefix);
    LegacyErrorIsFinal(db, files, o, exec, NoPrefixMatches);
    LegacyErrorIsFinal(db, files, o, exec, VerificationFailed);
    LegacyErrorIsFinal(db, files, o, exec, RefusingReplay);
    if o.inspect.None? && o.verify.Some? {
      SearchErrors(o.verify.value, db.catalog, Ordered(files), |Ordered(files)|);
      NewestBound(o.verify.value, db.catalog, Ordered(files), |Ordered(files)|);
    }
  }

  ghost predicate NoneNamed(ordered: seq<MigrationFile>, v: string) {
    forall i :: 0 <= i < |ordered| ==> !NamedBy(ordered[i], v)
  }

  /** The verifier's answer on the files up to the named one. */
  ghost predicate NamedGets(
      verify: Verify, catalog: Snapshot, ordered: seq<MigrationFile>, v: string, verdict: VerifyOutcome)
  {
    exists i :: 0 <= i < |ordered| && NamedBy(ordered[i], v) && verify(catalog, ordered[..i + 1]) == verdict
  }

  lemma {:induction false} NamedVerdict(
      verify: Verify, catalog: Snapshot, ordered: seq<MigrationFile>, v: string, verdict: VerifyOutcome)
    requires GoodNames(ordered)
    ensures FindVersion(ordered, v, 0).None? <==> NoneNamed(ordered, v)
    ensures NamedGets(verify, catalog, ordered, v, verdict)
      <==> FindVersion(ordered, v, 0).Some?
           && verify(catalog, ordered[..FindVersion(ordered, v, 0).value + 1]) == verdict
  {
    FirstNamed(ordered, v, 0);
    var r := FindVersion(ordered, v, 0);
    forall i | 0 <= i < |ordered| && NamedBy(ordered[i], v) ensures r == Some(i) {
      NamedOnce(ordered, v, r.value, i);
    }
  }

  lemma AskedErrors(catalog: Snapshot, ordered: seq<MigrationFile>, o: Options)
    requires GoodNames(ordered) && !o.detectBaseline && o.Through() && o.confirmExistingSchema && o.verify.Some?
    ensures var r, verify, v := LegacyPrefix(catalog, ordered, o), o.verify.value, o.baselineThrough.value;
      && r != Err(RefusingReplay)
      && (r == Err(UnknownBaseline) <==> NoneNamed(ordered, v))
      && (r == Err(SchemaMismatch) <==> NamedGets(verify, catalog, ordered, v, Mismatch))
      && (r == Err(VerificationFailed) <==> NamedGets(verify, catalog, ordered, v, Failed))
  {
    NamedVerdict(o.verify.value, catalog, ordered, o.baselineThrough.value, Mismatch);
    NamedVerdict(o.verify.value, catalog, ordered, o.baselineThrough.value, Failed);
  }

  /** Each error of an adoption on tables without a ledger, exactly when it is reported. */
  lemma AdoptionErrors(db: Db, files: seq<MigrationFile>, o: Options, exec: Exec)
    requires db.ledger == [] && HasTables(db.catalog) && Checked(db, files, o) && !o.detectBaseline
    ensures var r, ordered := Migrate(db, files, o, exec), Ordered(files);
      if o.baselineThrough in {None, Some("")} || !o.confirmExistingSchema || o.verify.None? then
        r == Err(RefusingReplay)
      else
        && r != Err(RefusingReplay)
        && (r == Err(UnknownBaseline) <==> NoneNamed(ordered, o.baselineThrough.value))
        && (r == Err(SchemaMismatch) <==>
              NamedGets(o.verify.value, db.catalog, ordered, o.baselineThrough.value, Mismatch))
        && (r == Err(VerificationFailed) <==>
              NamedGets(o.verify.value, db.catalog, ordered, o.baselineThrough.value, Failed))
  {
    ThroughGiven(o);
    LegacyErrorIsFinal(db, files, o, exec, RefusingReplay);
    if o.Through() && o.confirmExistingSchema && o.verify.Some? {
      LegacyErrorIsFinal(db, files, o, exec, UnknownBaseline);
      LegacyErrorIsFinal(db, files, o, exec, SchemaMismatch);
      LegacyErrorIsFinal(db, files, o, exec, VerificationFailed);
      AskedErrors(db.catalog, Ordered(files), o);
    }
  }

  // ----- After any runs -----

  /** From a fresh database, through any runs that succeeded or failed: a run that writes and succeeds
      leaves a ledger of exactly its files, whatever was recorded before. */
  lemma {:induction false} RunsCatchUp(db: Db, runs: seq<Invocation>, last: Invocation, exec: Exec)
    requires Consistent(db) && !last.options.plan
    requires Migrate(RunAll(db, runs, exec), last.files, last.options, exec).Ok?
    ensures var ledger, ordered := RunAll(db, runs + [last], exec).ledger, Ordered(last.files);
      && |ledger| == |ordered|
      && forall i :: 0 <= i < |ordered| ==>
           ledger[i].name == ordered[i].name && ledger[i].checksum == ordered[i].checksum
  {
    assert (runs + [last])[..|runs|] == runs;
    LedgerOnlyGrows(db, runs, exec);
    SuccessRecordsEverything(RunAll(db, runs, exec), last.files, last.options, exec);
    AgreesMeansMatches(RunAll(db, runs + [last], exec).ledger, Ordered(last.files));
  }
}
