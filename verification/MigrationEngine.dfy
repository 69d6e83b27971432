/** The migration ledger engine (packages/db/src/migration-engine.ts): ordering and
    history checks, baseline selection, plan mode and the apply loop, then the
    safety of the ledger over arbitrary sequences of runs. */
module MigrationEngine {
  import opened Common
  import opened Sorting
  import opened CatalogDrift

  datatype MigrationFile = MigrationFile(name: string, sql: string, checksum: string)

  /** `executed` is the ledger's method column: executed, or adopted as baseline. */
  datatype LedgerRow = LedgerRow(name: string, checksum: string, executed: bool)

  datatype MigrationError =
    | DetectionIsReadOnly
    | BadFileNames
    | HistoryDiffers
    | InspectionFailed
    | InspectionNotAPrefix
    | NoPrefixMatches
    | RefusingReplay
    | UnknownBaseline
    | SchemaMismatch
    | VerificationFailed
    | EmptyDatabaseCannotAdopt
    | LedgerAlreadyExists
    | SqlFailed

  datatype VerifyOutcome = Accepted | Mismatch | Failed

  /** The effect of one migration text on a catalog; None when the SQL fails. */
  type Exec = (string, Snapshot) -> Option<Snapshot>
  type Verify = (Snapshot, seq<MigrationFile>) -> VerifyOutcome
  /** A caller-supplied detection; None when it throws. */
  type Inspect = (Snapshot, seq<MigrationFile>) -> Option<int>

  datatype Options = Options(
    plan: bool, detectBaseline: bool, inspect: Option<Inspect>,
    baselineThrough: Option<string>, confirmExistingSchema: bool, verify: Option<Verify>)
  {
    /** An absent or empty string counts as not given. */
    predicate Through() {
      baselineThrough.Some? && baselineThrough.value != ""
    }
  }

  datatype Report = Report(
    baselineCandidate: Option<string>, adopted: seq<string>, pending: seq<string>, applied: seq<string>, plan: bool)

  /** What a run reads and writes: the schema, the ledger, and (in no table of the
      backend) every file whose SQL was ever executed here, in order. */
  datatype Db = Db(catalog: Snapshot, ledger: seq<LedgerRow>, executed: seq<MigrationFile>)

  // ----- File names -----

  predicate Digit(c: char) { '0' <= c <= '9' }

  predicate NameChar(c: char) {
    'A' <= c <= 'Z' || 'a' <= c <= 'z' || Digit(c) || c == '_' || c == '-'
  }

  /** Four digits, an underscore, one or more name characters, then ".sql". */
  predicate ValidName(n: string) {
    && |n| >= 10
    && (forall i :: 0 <= i < 4 ==> Digit(n[i]))
    && n[4] == '_'
    && (forall i :: 5 <= i < |n| - 4 ==> NameChar(n[i]))
    && n[|n| - 4..] == ".sql"
  }

  function Version(n: string): string {
    if |n| >= 4 then n[..4] else n
  }

  predicate UniqueVersions(files: seq<MigrationFile>) {
    forall i, j :: 0 <= i < j < |files| ==> Version(files[i].name) != Version(files[j].name)
  }

  predicate ValidNames(files: seq<MigrationFile>) {
    files == [] || (ValidName(files[0].name) && ValidNames(files[1..]))
  }

  predicate GoodNames(files: seq<MigrationFile>) {
    UniqueVersions(files) && ValidNames(files)
  }

  predicate NameLe(a: MigrationFile, b: MigrationFile) { LexLe(a.name, b.name) }

  predicate RowLe(a: LedgerRow, b: LedgerRow) { LexLe(a.name, b.name) }

  function Ordered(files: seq<MigrationFile>): seq<MigrationFile> {
    Sort(files, NameLe)
  }

  function Names(files: seq<MigrationFile>): seq<string> {
    seq(|files|, i requires 0 <= i < |files| => files[i].name)
  }

  function RowsFor(files: seq<MigrationFile>, executed: bool): seq<LedgerRow> {
    seq(|files|, i requires 0 <= i < |files| => LedgerRow(files[i].name, files[i].checksum, executed))
  }

  predicate Records(row: LedgerRow, file: MigrationFile) {
    row.name == file.name && row.checksum == file.checksum
  }

  /** The ledger agrees with a leading part of the checkout. */
  predicate HistoryMatches(recorded: seq<LedgerRow>, ordered: seq<MigrationFile>) {
    |recorded| <= |ordered| && forall i :: 0 <= i < |recorded| ==> Records(recorded[i], ordered[i])
  }

  predicate IsTable(row: Row) {
    "kind" in row.fields && (row.fields["kind"] == Text("r") || row.fields["kind"] == Text("p"))
  }

  predicate HasTables(catalog: Snapshot) {
    exists i :: 0 <= i < |catalog.Rows(Relations)| && IsTable(catalog.Rows(Relations)[i])
  }

  // ----- Specification of one run -----

  /** The newest-to-oldest search below `end`; 0 when no prefix is accepted. */
  function NewestAccepted(
      verify: Verify, catalog: Snapshot, ordered: seq<MigrationFile>, end: nat): Result<nat, MigrationError>
    requires end <= |ordered|
  {
    if end == 0 then Ok(0)
    else match verify(catalog, ordered[..end])
      case Accepted => Ok(end)
      case Mismatch => NewestAccepted(verify, catalog, ordered, end - 1)
      case Failed => Err(VerificationFailed)
  }

  /** The position of the file named by a version or a full name. */
  function FindVersion(ordered: seq<MigrationFile>, v: string, from: nat): (r: Option<nat>)
    requires from <= |ordered|
    ensures r.Some? ==> from <= r.value < |ordered|
    decreases |ordered| - from
  {
    if from == |ordered| then None
    else if ordered[from].name == v || Version(ordered[from].name) == v then Some(from)
    else FindVersion(ordered, v, from + 1)
  }

  /** How many leading files an existing database without ledger already contains. */
  function LegacyPrefix(catalog: Snapshot, ordered: seq<MigrationFile>, o: Options): Result<nat, MigrationError> {
    if o.detectBaseline && o.inspect.Some? then
      match o.inspect.value(catalog, ordered)
      case None => Err(InspectionFailed)
      case Some(n) => if 1 <= n <= |ordered| then Ok(n) else Err(InspectionNotAPrefix)
    else if o.detectBaseline && o.verify.Some? then
      match NewestAccepted(o.verify.value, catalog, ordered, |ordered|)
      case Err(e) => Err(e)
      case Ok(n) => if n > 0 then Ok(n) else Err(NoPrefixMatches)
    else if !o.Through() || !o.confirmExistingSchema || o.verify.None? then Err(RefusingReplay)
    else match FindVersion(ordered, o.baselineThrough.value, 0)
      case None => Err(UnknownBaseline)
      case Some(i) =>
        match o.verify.value(catalog, ordered[..i + 1])
        case Accepted => Ok(i + 1)
        case Mismatch => Err(SchemaMismatch)
        case Failed => Err(VerificationFailed)
  }

  /** The number of leading files recorded as baseline by this run. */
  function BaselineLength(db: Db, ordered: seq<MigrationFile>, o: Options): (r: Result<nat, MigrationError>) {
    if db.ledger != [] then if o.Through() then Err(LedgerAlreadyExists) else Ok(0)
    else if HasTables(db.catalog) then LegacyPrefix(db.catalog, ordered, o)
    else if o.Through() then Err(EmptyDatabaseCannotAdopt)
    else Ok(0)
  }

  function ApplyAll(exec: Exec, catalog: Snapshot, files: seq<MigrationFile>): Option<Snapshot> {
    if files == [] then Some(catalog)
    else match ApplyAll(exec, catalog, files[..|files| - 1])
      case None => None
      case Some(c) => exec(files[|files| - 1].sql, c)
  }

  function Lead(ordered: seq<MigrationFile>, n: nat): Option<string>
    requires n <= |ordered|
  {
    if n == 0 then None else Some(ordered[n - 1].name)
  }

  /** Everything a run decides before it writes: the ordered files, how many are
      already recorded, and how many are adopted. */
  datatype Plan = Plan(ordered: seq<MigrationFile>, recorded: nat, baseline: nat) {
    ghost predicate Fits() { recorded + baseline <= |ordered| && (recorded == 0 || baseline == 0) }
    function Adopted(): seq<MigrationFile> requires Fits() { ordered[recorded..recorded + baseline] }
    function Pending(): seq<MigrationFile> requires Fits() { ordered[recorded + baseline..] }
  }

  lemma BaselineFits(db: Db, ordered: seq<MigrationFile>, o: Options)
    requires |db.ledger| <= |ordered|
    ensures BaselineLength(db, ordered, o).Ok? ==>
      |db.ledger| + BaselineLength(db, ordered, o).value <= |ordered|
      && (|db.ledger| == 0 || BaselineLength(db, ordered, o).value == 0)
  {
    if db.ledger == [] && HasTables(db.catalog) {
      if o.detectBaseline && o.verify.Some? {
        NewestBound(o.verify.value, db.catalog, ordered, |ordered|);
      }
    }
  }

  lemma {:induction false} NewestBound(verify: Verify, catalog: Snapshot, ordered: seq<MigrationFile>, end: nat)
    requires end <= |ordered|
    ensures var r := NewestAccepted(verify, catalog, ordered, end);
      (r.Ok? ==> r.value <= end) && (r.Err? ==> r.error == VerificationFailed)
  {
    if end > 0 {
      NewestBound(verify, catalog, ordered, end - 1);
    }
  }

  function MakePlan(db: Db, files: seq<MigrationFile>, o: Options): (r: Result<Plan, MigrationError>)
    ensures r.Ok? ==> r.value.Fits() && r.value.ordered == Ordered(files) && r.value.recorded == |db.ledger|
  {
    if o.detectBaseline && (!o.plan || o.Through() || o.confirmExistingSchema) then Err(DetectionIsReadOnly)
    else if !GoodNames(Ordered(files)) then Err(BadFileNames)
    else if !HistoryMatches(Sort(db.ledger, RowLe), Ordered(files)) then Err(HistoryDiffers)
    else
      BaselineFits(db, Ordered(files), o);
      match BaselineLength(db, Ordered(files), o)
      case Err(e) => Err(e)
      case Ok(n) => Ok(Plan(Ordered(files), |db.ledger|, n))
  }

  function ReportOf(p: Plan, o: Options): Report
    requires p.Fits()
  {
    Report(Lead(p.Adopted(), |p.Adopted()|), if o.plan then [] else Names(p.Adopted()), Names(p.Pending()),
           if o.plan then [] else Names(p.Pending()), o.plan)
  }

  function Migrate(db: Db, files: seq<MigrationFile>, o: Options, exec: Exec): Result<(Report, Db), MigrationError> {
    match MakePlan(db, files, o)
    case Err(e) => Err(e)
    case Ok(p) =>
      if o.plan then Ok((ReportOf(p, o), db))
      else match ApplyAll(exec, db.catalog, p.Pending())
        case None => Err(SqlFailed)
        case Some(c) =>
          Ok((ReportOf(p, o),
              Db(c, db.ledger + RowsFor(p.Adopted(), false) + RowsFor(p.Pending(), true), db.executed + p.Pending())))
  }

  /** A run inside its transaction: a failing run leaves nothing behind. */
  function Transact(db: Db, files: seq<MigrationFile>, o: Options, exec: Exec): Db {
    match Migrate(db, files, o, exec)
    case Err(_) => db
    case Ok((_, db')) => db'
  }

  // ----- The run, step by step -----

  class Target {
    var catalog: Snapshot
    var ledger: seq<LedgerRow>
    var executed: seq<MigrationFile>

    function State(): Db reads this { Db(catalog, ledger, executed) }

    constructor (catalog: Snapshot)
      ensures State() == Db(catalog, [], [])
    {
      this.catalog, ledger, executed := catalog, [], [];
    }

    method CheckHistory(recorded: seq<LedgerRow>, ordered: seq<MigrationFile>) returns (ok: bool)
      ensures ok <==> HistoryMatches(recorded, ordered)
    {
      for i := 0 to |recorded|
        invariant i <= |ordered| && forall j :: 0 <= j < i ==> Records(recorded[j], ordered[j])
      {
        if i >= |ordered| || recorded[i].name != ordered[i].name || recorded[i].checksum != ordered[i].checksum {
          assert i < |ordered| ==> !Records(recorded[i], ordered[i]);
          return false;
        }
      }
      return true;
    }

    /** The descending loop of baseline detection. */
    method SearchNewest(verify: Verify, ordered: seq<MigrationFile>) returns (r: Result<nat, MigrationError>)
      ensures r == NewestAccepted(verify, catalog, ordered, |ordered|)
    {
      var end: nat := |ordered|;
      while end > 0
        invariant end <= |ordered|
        invariant NewestAccepted(verify, catalog, ordered, |ordered|) == NewestAccepted(verify, catalog, ordered, end)
      {
        match verify(catalog, ordered[..end]) {
          case Accepted => return Ok(end);
          case Mismatch => end := end - 1;
          case Failed => return Err(VerificationFailed);
        }
      }
      return Ok(0);
    }

    method ChooseLegacyPrefix(ordered: seq<MigrationFile>, o: Options) returns (r: Result<nat, MigrationError>)
      ensures r == LegacyPrefix(catalog, ordered, o)
    {
      if o.detectBaseline && o.inspect.Some? {
        var count := o.inspect.value(catalog, ordered);
        if count.None? { return Err(InspectionFailed); }
        if count.value < 1 || count.value > |ordered| { return Err(InspectionNotAPrefix); }
        return Ok(count.value);
      }
      if o.detectBaseline && o.verify.Some? {
        var found := SearchNewest(o.verify.value, ordered);
        if found.Err? { return Err(found.error); }
        return if found.value == 0 then Err(NoPrefixMatches) else found;
      }
      if !o.Through() || !o.confirmExistingSchema || o.verify.None? { return Err(RefusingReplay); }
      var end := FindVersion(ordered, o.baselineThrough.value, 0);
      if end.None? { return Err(UnknownBaseline); }
      match o.verify.value(catalog, ordered[..end.value + 1]) {
        case Accepted => return Ok(end.value + 1);
        case Mismatch => return Err(SchemaMismatch);
        case Failed => return Err(VerificationFailed);
      }
    }

    /** Everything before the first write. */
    method Prepare(files: seq<MigrationFile>, o: Options) returns (r: Result<Plan, MigrationError>)
      ensures r == MakePlan(State(), files, o)
    {
      if o.detectBaseline && (!o.plan || o.Through() || o.confirmExistingSchema) { return Err(DetectionIsReadOnly); }
      var ordered := Ordered(files);
      if !GoodNames(ordered) { return Err(BadFileNames); }
      var recorded := Sort(ledger, RowLe);
      var same := CheckHistory(recorded, ordered);
      if !same { return Err(HistoryDiffers); }
      var baseline := 0;
      if |recorded| == 0 {
        assert ledger == [];
        if HasTables(catalog) {
          var prefix := ChooseLegacyPrefix(ordered, o);
          if prefix.Err? { return Err(prefix.error); }
          baseline := prefix.value;
        } else if o.Through() {
          return Err(EmptyDatabaseCannotAdopt);
        }
      } else if o.Through() {
        return Err(LedgerAlreadyExists);
      }
      return Ok(Plan(ordered, |recorded|, baseline));
    }

    method RecordBaseline(adopted: seq<MigrationFile>)
      modifies this`ledger
      ensures ledger == old(ledger) + RowsFor(adopted, false)
    {
      for i := 0 to |adopted|
        invariant ledger == old(ledger) + RowsFor(adopted[..i], false)
      {
        assert RowsFor(adopted[..i + 1], false)
            == RowsFor(adopted[..i], false) + [LedgerRow(adopted[i].name, adopted[i].checksum, false)];
        ledger := ledger + [LedgerRow(adopted[i].name, adopted[i].checksum, false)];
      }
      assert adopted[..|adopted|] == adopted;
    }

    /** Execute and record one pending file after the other; stop at the first failure. */
    method ApplyPending(pending: seq<MigrationFile>, exec: Exec) returns (ok: bool, applied: seq<string>)
      modifies this
      ensures ok <==> ApplyAll(exec, old(catalog), pending).Some?
      ensures ok ==> catalog == ApplyAll(exec, old(catalog), pending).value
      ensures ok ==> ledger == old(ledger) + RowsFor(pending, true)
      ensures ok ==> executed == old(executed) + pending && applied == Names(pending)
    {
      applied := [];
      for i := 0 to |pending|
        invariant ApplyAll(exec, old(catalog), pending[..i]) == Some(catalog)
        invariant ledger == old(ledger) + RowsFor(pending[..i], true)
        invariant executed == old(executed) + pending[..i] && applied == Names(pending[..i])
      {
        assert pending[..i + 1] == pending[..i] + [pending[i]];
        assert RowsFor(pending[..i + 1], true)
            == RowsFor(pending[..i], true) + [LedgerRow(pending[i].name, pending[i].checksum, true)];
        assert Names(pending[..i + 1]) == Names(pending[..i]) + [pending[i].name];
        var result := exec(pending[i].sql, catalog);
        if result.None? {
          FailurePropagates(exec, old(catalog), pending, i + 1);
          return false, applied;
        }
        catalog := result.value;
        ledger := ledger + [LedgerRow(pending[i].name, pending[i].checksum, true)];
        executed := executed + [pending[i]];
        applied := applied + [pending[i].name];
      }
      assert pending[..|pending|] == pending;
      return true, applied;
    }

    method MigrateOnConnection(files: seq<MigrationFile>, o: Options, exec: Exec)
      returns (r: Result<Report, MigrationError>)
      modifies this
      ensures r.Ok? <==> Migrate(old(State()), files, o, exec).Ok?
      ensures r.Ok? ==> (r.value, State()) == Migrate(old(State()), files, o, exec).value
      ensures r.Err? ==> r.error == Migrate(old(State()), files, o, exec).error
    {
      var prepared := Prepare(files, o);
      if prepared.Err? { return Err(prepared.error); }
      var p := prepared.value;
      var adopted, pending := p.Adopted(), p.Pending();
      var candidate := Lead(adopted, |adopted|);
      if o.plan { return Ok(Report(candidate, [], Names(pending), [], true)); }
      RecordBaseline(adopted);
      var ok, applied := ApplyPending(pending, exec);
      if !ok { return Err(SqlFailed); }
      return Ok(Report(candidate, Names(adopted), Names(pending), applied, false));
    }

    /** The caller's transaction around a run. */
    method RunInTransaction(files: seq<MigrationFile>, o: Options, exec: Exec)
      returns (r: Result<Report, MigrationError>)
      modifies this
      ensures State() == Transact(old(State()), files, o, exec)
      ensures r.Ok? <==> Migrate(old(State()), files, o, exec).Ok?
      ensures r.Err? ==> State() == old(State())
    {
      var was := State();
      r := MigrateOnConnection(files, o, exec);
      if r.Err? {
        catalog, ledger, executed := was.catalog, was.ledger, was.executed;
      }
    }
  }

  lemma {:induction false} FailurePropagates(exec: Exec, catalog: Snapshot, files: seq<MigrationFile>, k: nat)
    requires k <= |files| && ApplyAll(exec, catalog, files[..k]).None?
    ensures ApplyAll(exec, catalog, files).None?
    decreases |files|
  {
    if k < |files| {
      assert files[..|files| - 1][..k] == files[..k];
      FailurePropagates(exec, catalog, files[..|files| - 1], k);
    } else {
      assert files[..k] == files;
    }
  }

  // ----- What one run does -----

  /** The newest-to-oldest search returns the longest accepted prefix: everything longer
      was rejected, and a failing verification above it would have stopped the search. */
  lemma {:induction false} NewestIsLongest(verify: Verify, catalog: Snapshot, ordered: seq<MigrationFile>, end: nat)
    requires end <= |ordered|
    ensures var r := NewestAccepted(verify, catalog, ordered, end);
      && (r.Ok? ==> && r.value <= end
                    && (r.value > 0 ==> verify(catalog, ordered[..r.value]) == Accepted)
                    && forall n :: r.value < n <= end ==> verify(catalog, ordered[..n]) == Mismatch)
      && (r.Err? ==> exists n :: 0 < n <= end && verify(catalog, ordered[..n]) == Failed)
  {
    if end > 0 && verify(catalog, ordered[..end]) == Mismatch {
      NewestIsLongest(verify, catalog, ordered, end - 1);
    } else if end > 0 && verify(catalog, ordered[..end]) == Failed {
      assert verify(catalog, ordered[..end]) == Failed;
    }
  }

  /** A prefix is recorded only with the verifier's acceptance, or the caller's inspection
      in plan mode, which writes nothing. */
  lemma AdoptionNeedsAcceptance(db: Db, files: seq<MigrationFile>, o: Options, exec: Exec)
    requires MakePlan(db, files, o).Ok? && !o.plan
    ensures var p := MakePlan(db, files, o).value;
      p.baseline > 0 ==>
        && db.ledger == [] && HasTables(db.catalog)
        && o.confirmExistingSchema && o.verify.Some?
        && o.verify.value(db.catalog, p.Adopted()) == Accepted
  {
    var p := MakePlan(db, files, o).value;
    if p.baseline > 0 {
      assert p.ordered[..p.baseline] == p.Adopted();
    }
  }

  /** The first `n` files count as present: a plan only proposes them, a run records them and
      executes exactly the files after them. */
  ghost predicate StartsAfter(db: Db, ordered: seq<MigrationFile>, plan: bool, report: Report, db': Db, n: nat) {
    && 0 < n <= |ordered|
    && report.baselineCandidate == Some(ordered[n - 1].name)
    && report.pending == Names(ordered[n..])
    && (plan ==> db' == db)
    && (!plan ==> report.adopted == Names(ordered[..n]) && db'.executed == db.executed + ordered[n..])
  }

  /** A database with tables and no ledger is never treated as empty: a run either
      refuses, or adopts at least one file and executes only what follows it. */
  lemma ExistingSchemaIsNotReplayed(db: Db, files: seq<MigrationFile>, o: Options, exec: Exec)
    requires db.ledger == [] && HasTables(db.catalog) && Migrate(db, files, o, exec).Ok?
    ensures exists n: nat ::
      var r := Migrate(db, files, o, exec).value; StartsAfter(db, Ordered(files), o.plan, r.0, r.1, n)
  {
    var p := MakePlan(db, files, o).value;
    AdoptedPrefixIsPositive(db, files, o);
    PlanStartsAfter(db, p, o, Migrate(db, files, o, exec).value.1);
  }

  lemma AdoptedPrefixIsPositive(db: Db, files: seq<MigrationFile>, o: Options)
    requires db.ledger == [] && HasTables(db.catalog) && MakePlan(db, files, o).Ok?
    ensures 0 < MakePlan(db, files, o).value.baseline <= |Ordered(files)|
  {
    LegacyPrefixIsPositive(db.catalog, Ordered(files), o);
  }

  lemma PlanStartsAfter(db: Db, p: Plan, o: Options, db': Db)
    requires p.Fits() && p.recorded == 0 && 0 < p.baseline <= |p.ordered|
    requires if o.plan then db' == db else db'.executed == db.executed + p.Pending()
    ensures StartsAfter(db, p.ordered, o.plan, ReportOf(p, o), db', p.baseline)
  {
    assert p.Adopted() == p.ordered[..p.baseline];
  }

  lemma LegacyPrefixIsPositive(catalog: Snapshot, ordered: seq<MigrationFile>, o: Options)
    ensures LegacyPrefix(catalog, ordered, o).Ok? ==> 0 < LegacyPrefix(catalog, ordered, o).value <= |ordered|
  {
    if o.detectBaseline && o.inspect.None? && o.verify.Some? {
      NewestBound(o.verify.value, catalog, ordered, |ordered|);
    }
  }

  lemma InThreeParts(files: seq<MigrationFile>, i: nat, j: nat)
    requires i <= j <= |files|
    ensures files == files[..i] + files[i..j] + files[j..]
  {
  }

  /** Recorded, adopted and pending files always make up the ordered list. */
  lemma PlanPartitionsFiles(db: Db, files: seq<MigrationFile>, o: Options)
    requires MakePlan(db, files, o).Ok?
    ensures var p := MakePlan(db, files, o).value;
      && Ordered(files) == Ordered(files)[..|db.ledger|] + p.Adopted() + p.Pending()
      && HistoryMatches(Sort(db.ledger, RowLe), Ordered(files)[..|db.ledger|])
  {
    var p := MakePlan(db, files, o).value;
    InThreeParts(p.ordered, p.recorded, p.recorded + p.baseline);
    HistoryOfPrefix(Sort(db.ledger, RowLe), Ordered(files));
  }

  lemma HistoryOfPrefix(recorded: seq<LedgerRow>, ordered: seq<MigrationFile>)
    requires HistoryMatches(recorded, ordered)
    ensures HistoryMatches(recorded, ordered[..|recorded|])
  {
  }

  // ----- The ledger over any sequence of runs -----

  /** In name order, versions pairwise distinct. */
  ghost predicate InOrder(ledger: seq<LedgerRow>) {
    && SortedBy(ledger, RowLe)
    && forall i, j :: 0 <= i < j < |ledger| ==> ledger[i].name != ledger[j].name
  }

  function ExecutedRows(ledger: seq<LedgerRow>): seq<LedgerRow> {
    if ledger == [] then []
    else ExecutedRows(ledger[..|ledger| - 1]) + if ledger[|ledger| - 1].executed then [ledger[|ledger| - 1]] else []
  }

  /** The ledger is ordered, and the executed files are exactly its executed rows. */
  ghost predicate Consistent(db: Db) {
    InOrder(db.ledger) && RowsFor(db.executed, true) == ExecutedRows(db.ledger)
  }

  lemma RowOrder()
    ensures TotalPreorder(RowLe) && TotalPreorder(NameLe)
  {
    LexIsTotalOrder();
  }

  lemma {:induction false} ExecutedRowsAppend(a: seq<LedgerRow>, b: seq<LedgerRow>)
    ensures ExecutedRows(a + b) == ExecutedRows(a) + ExecutedRows(b)
  {
    if b == [] {
      assert a + b == a;
    } else {
      assert (a + b)[..|a + b| - 1] == a + b[..|b| - 1];
      ExecutedRowsAppend(a, b[..|b| - 1]);
    }
  }

  lemma {:induction false} ExecutedRowsUniform(files: seq<MigrationFile>, executed: bool)
    ensures ExecutedRows(RowsFor(files, executed)) == if executed then RowsFor(files, true) else []
  {
    if files != [] {
      var front := files[..|files| - 1];
      ExecutedRowsUniform(front, executed);
      assert RowsFor(files, executed)[..|files| - 1] == RowsFor(front, executed);
    }
  }

  /** The ledger lists exactly these files, with their checksums. */
  ghost predicate LedgerIs(ledger: seq<LedgerRow>, ordered: seq<MigrationFile>) {
    |ledger| == |ordered| && HistoryMatches(ledger, ordered)
  }

  lemma FilesGiveOrder(ledger: seq<LedgerRow>, files: seq<MigrationFile>)
    requires LedgerIs(ledger, Ordered(files)) && UniqueVersions(Ordered(files))
    ensures InOrder(ledger)
  {
    RowOrder();
    SortSorts(files, NameLe);
    var ordered := Ordered(files);
    forall i, j | 0 <= i < j < |ledger| ensures RowLe(ledger[i], ledger[j]) && ledger[i].name != ledger[j].name {
      assert NameLe(ordered[i], ordered[j]) && Version(ordered[i].name) != Version(ordered[j].name);
      assert Records(ledger[i], ordered[i]) && Records(ledger[j], ordered[j]);
    }
  }

  lemma RowsRecordFiles(ledger: seq<LedgerRow>, p: Plan)
    requires p.Fits() && p.recorded == |ledger| && HistoryMatches(ledger, p.ordered)
    ensures LedgerIs(ledger + RowsFor(p.Adopted(), false) + RowsFor(p.Pending(), true), p.ordered)
  {
    var all := ledger + RowsFor(p.Adopted(), false) + RowsFor(p.Pending(), true);
    forall i | 0 <= i < |all| ensures Records(all[i], p.ordered[i]) {
      if i >= |ledger| + p.baseline {
        assert all[i] == RowsFor(p.Pending(), true)[i - |ledger| - p.baseline];
      } else if i >= |ledger| {
        assert all[i] == RowsFor(p.Adopted(), false)[i - |ledger|];
      }
    }
  }

  lemma RowsForAppend(a: seq<MigrationFile>, b: seq<MigrationFile>)
    ensures RowsFor(a + b, true) == RowsFor(a, true) + RowsFor(b, true)
  {
  }

  lemma RowsKeepExecuted(db: Db, adopted: seq<MigrationFile>, pending: seq<MigrationFile>)
    requires RowsFor(db.executed, true) == ExecutedRows(db.ledger)
    ensures RowsFor(db.executed + pending, true)
      == ExecutedRows(db.ledger + RowsFor(adopted, false) + RowsFor(pending, true))
  {
    ExecutedRowsAppend(db.ledger + RowsFor(adopted, false), RowsFor(pending, true));
    ExecutedRowsAppend(db.ledger, RowsFor(adopted, false));
    ExecutedRowsUniform(adopted, false);
    ExecutedRowsUniform(pending, true);
    RowsForAppend(db.executed, pending);
  }

  lemma SuccessStores(db: Db, files: seq<MigrationFile>, o: Options, exec: Exec)
    requires !o.plan && Migrate(db, files, o, exec).Ok?
    ensures MakePlan(db, files, o).Ok?
    ensures var p, db' := MakePlan(db, files, o).value, Migrate(db, files, o, exec).value.1;
      && db'.ledger == db.ledger + RowsFor(p.Adopted(), false) + RowsFor(p.Pending(), true)
      && db'.executed == db.executed + p.Pending()
  {
  }

  /** A successful run that is not a plan: the ledger grows at its end to list every file
      of the checkout, and stays consistent. */
  lemma SuccessRecordsEverything(db: Db, files: seq<MigrationFile>, o: Options, exec: Exec)
    requires Consistent(db) && !o.plan && Migrate(db, files, o, exec).Ok?
    ensures var db' := Migrate(db, files, o, exec).value.1;
      && LedgerIs(db'.ledger, Ordered(files))
      && db.ledger <= db'.ledger && db.executed <= db'.executed
      && Consistent(db')
  {
    SuccessStores(db, files, o, exec);
    var p := MakePlan(db, files, o).value;
    SortIsIdentityOnSorted(db.ledger, RowLe);
    RowsRecordFiles(db.ledger, p);
    RowsKeepExecuted(db, p.Adopted(), p.Pending());
    FilesGiveOrder(db.ledger + RowsFor(p.Adopted(), false) + RowsFor(p.Pending(), true), files);
  }

  datatype Invocation = Invocation(files: seq<MigrationFile>, options: Options)

  /** Any sequence of runs, plans and failures included. */
  function RunAll(db: Db, runs: seq<Invocation>, exec: Exec): Db {
    if runs == [] then db
    else Transact(RunAll(db, runs[..|runs| - 1], exec), runs[|runs| - 1].files, runs[|runs| - 1].options, exec)
  }

  /** Nothing recorded or executed is ever taken back, and the ledger stays consistent,
      whatever file lists and options the runs use. */
  lemma {:induction false} LedgerOnlyGrows(db: Db, runs: seq<Invocation>, exec: Exec)
    requires Consistent(db)
    ensures Consistent(RunAll(db, runs, exec))
    ensures db.ledger <= RunAll(db, runs, exec).ledger
    ensures db.executed <= RunAll(db, runs, exec).executed
  {
    if runs != [] {
      var was := RunAll(db, runs[..|runs| - 1], exec);
      var last := runs[|runs| - 1];
      LedgerOnlyGrows(db, runs[..|runs| - 1], exec);
      if !last.options.plan && Migrate(was, last.files, last.options, exec).Ok? {
        SuccessRecordsEverything(was, last.files, last.options, exec);
      }
    }
  }

  lemma {:induction false} ExecutedRowsAreRows(ledger: seq<LedgerRow>, row: LedgerRow)
    ensures row in ExecutedRows(ledger) <==> row in ledger && row.executed
  {
    if ledger != [] {
      ExecutedRowsAreRows(ledger[..|ledger| - 1], row);
      assert ledger == ledger[..|ledger| - 1] + [ledger[|ledger| - 1]];
    }
  }

  lemma {:induction false} ExecutedRowsInOrder(ledger: seq<LedgerRow>)
    requires InOrder(ledger)
    ensures InOrder(ExecutedRows(ledger))
  {
    if ledger != [] {
      var front, last := ledger[..|ledger| - 1], ledger[|ledger| - 1];
      ExecutedRowsInOrder(front);
      var rows := ExecutedRows(front);
      forall i | 0 <= i < |rows| ensures RowLe(rows[i], last) && rows[i].name != last.name {
        ExecutedRowsAreRows(front, rows[i]);
        var k :| 0 <= k < |front| && front[k] == rows[i];
        assert ledger[k] == rows[i];
      }
    }
  }

  /** No migration is executed twice or out of order, over any sequence of runs. */
  lemma {:induction false} NothingRunsTwice(db: Db, runs: seq<Invocation>, exec: Exec)
    requires Consistent(db)
    ensures var log := RunAll(db, runs, exec).executed;
      forall i, j :: 0 <= i < j < |log| ==> NameLe(log[i], log[j]) && log[i].name != log[j].name
  {
    LedgerOnlyGrows(db, runs, exec);
    var end := RunAll(db, runs, exec);
    ExecutedRowsInOrder(end.ledger);
    var rows := RowsFor(end.executed, true);
    forall i, j | 0 <= i < j < |end.executed|
      ensures NameLe(end.executed[i], end.executed[j]) && end.executed[i].name != end.executed[j].name
    {
      assert RowLe(rows[i], rows[j]) && rows[i].name != rows[j].name;
    }
  }

  /** An adopted file is never executed afterwards, by any later run. */
  lemma {:induction false} AdoptedFilesStayUnexecuted(db: Db, runs: seq<Invocation>, exec: Exec, row: LedgerRow)
    requires Consistent(db) && row in db.ledger && !row.executed
    ensures forall file :: file in RunAll(db, runs, exec).executed ==> file.name != row.name
  {
    LedgerOnlyGrows(db, runs, exec);
    var end := RunAll(db, runs, exec);
    forall file | file in end.executed ensures file.name != row.name {
      var i :| 0 <= i < |end.executed| && end.executed[i] == file;
      assert RowsFor(end.executed, true)[i] in ExecutedRows(end.ledger);
      ExecutedRowsAreRows(end.ledger, RowsFor(end.executed, true)[i]);
      var k :| 0 <= k < |end.ledger| && end.ledger[k] == RowsFor(end.executed, true)[i];
      var m :| 0 <= m < |db.ledger| && db.ledger[m] == row;
      assert end.ledger[m] == row && k != m;
    }
  }

  // ----- Checkouts that only grow at the end -----

  ghost predicate GrowingAtEnd(runs: seq<Invocation>) {
    forall i, j :: 0 <= i <= j < |runs| ==> Ordered(runs[i].files) <= Ordered(runs[j].files)
  }

  lemma PrefixMatches(ledger: seq<LedgerRow>, a: seq<MigrationFile>, b: seq<MigrationFile>)
    requires HistoryMatches(ledger, a) && a <= b
    ensures HistoryMatches(ledger, b)
  {
    forall i | 0 <= i < |ledger| ensures Records(ledger[i], b[i]) {
      assert b[i] == a[i];
    }
  }

  lemma {:induction false} GrowthKeepsHistory(db: Db, runs: seq<Invocation>, exec: Exec, later: seq<MigrationFile>)
    requires Consistent(db) && db.ledger == []
    requires forall i :: 0 <= i < |runs| ==> Ordered(runs[i].files) <= later
    ensures HistoryMatches(RunAll(db, runs, exec).ledger, later)
  {
    if runs != [] {
      var front, last := runs[..|runs| - 1], runs[|runs| - 1];
      var was := RunAll(db, front, exec);
      GrowthKeepsHistory(db, front, exec, later);
      LedgerOnlyGrows(db, front, exec);
      if !last.options.plan && Migrate(was, last.files, last.options, exec).Ok? {
        SuccessRecordsEverything(was, last.files, last.options, exec);
        PrefixMatches(RunAll(db, runs, exec).ledger, Ordered(last.files), later);
      }
    }
  }

  lemma LegacyErrors(catalog: Snapshot, ordered: seq<MigrationFile>, o: Options)
    ensures LegacyPrefix(catalog, ordered, o) != Err(HistoryDiffers)
  {
    if o.verify.Some? {
      NewestBound(o.verify.value, catalog, ordered, |ordered|);
    }
  }

  /** The history error is raised only by an actual mismatch. */
  lemma MatchingHistoryIsPlanned(db: Db, files: seq<MigrationFile>, o: Options)
    requires HistoryMatches(Sort(db.ledger, RowLe), Ordered(files))
    ensures MakePlan(db, files, o) != Err(HistoryDiffers)
  {
    LegacyErrors(db.catalog, Ordered(files), o);
  }

  lemma HistoryErrorMeansMismatch(db: Db, files: seq<MigrationFile>, o: Options, exec: Exec)
    requires HistoryMatches(Sort(db.ledger, RowLe), Ordered(files))
    ensures Migrate(db, files, o, exec) != Err(HistoryDiffers)
  {
    MatchingHistoryIsPlanned(db, files, o);
  }

  /** With file lists that only grow at the end the ledger is at every point a prefix of the
      checkout with matching checksums, and no run is ever refused over its history. */
  lemma {:induction false} GrowingCheckoutsNeverDrift(db: Db, runs: seq<Invocation>, exec: Exec, k: nat)
    requires Consistent(db) && db.ledger == [] && GrowingAtEnd(runs) && k < |runs|
    ensures HistoryMatches(RunAll(db, runs[..k], exec).ledger, Ordered(runs[k].files))
    ensures Migrate(RunAll(db, runs[..k], exec), runs[k].files, runs[k].options, exec) != Err(HistoryDiffers)
  {
    var was := RunAll(db, runs[..k], exec);
    GrowthKeepsHistory(db, runs[..k], exec, Ordered(runs[k].files));
    LedgerOnlyGrows(db, runs[..k], exec);
    NoDrift(was, runs[k], exec);
  }

  lemma NoDrift(db: Db, run: Invocation, exec: Exec)
    requires InOrder(db.ledger) && HistoryMatches(db.ledger, Ordered(run.files))
    ensures Migrate(db, run.files, run.options, exec) != Err(HistoryDiffers)
  {
    SortIsIdentityOnSorted(db.ledger, RowLe);
    HistoryErrorMeansMismatch(db, run.files, run.options, exec);
  }

  // ----- The schema is what the executed files build -----

  lemma {:induction false} ApplyAllAppend(exec: Exec, catalog: Snapshot, a: seq<MigrationFile>, b: seq<MigrationFile>)
    requires ApplyAll(exec, catalog, a).Some?
    ensures ApplyAll(exec, catalog, a + b) == ApplyAll(exec, ApplyAll(exec, catalog, a).value, b)
  {
    if b == [] {
      assert a + b == a;
    } else {
      assert (a + b)[..|a + b| - 1] == a + b[..|b| - 1];
      ApplyAllAppend(exec, catalog, a, b[..|b| - 1]);
    }
  }

  /** Many incremental runs, with failures in between, leave the schema that executing the
      log from scratch on the starting schema builds. */
  lemma {:induction false} RunsRefineOneReplay(db: Db, runs: seq<Invocation>, exec: Exec)
    requires db.executed == []
    ensures var end := RunAll(db, runs, exec); ApplyAll(exec, db.catalog, end.executed) == Some(end.catalog)
  {
    if runs != [] {
      var was := RunAll(db, runs[..|runs| - 1], exec);
      var last := runs[|runs| - 1];
      RunsRefineOneReplay(db, runs[..|runs| - 1], exec);
      if !last.options.plan && Migrate(was, last.files, last.options, exec).Ok? {
        var p := MakePlan(was, last.files, last.options).value;
        ApplyAllAppend(exec, db.catalog, was.executed, p.Pending());
      }
    }
  }
}
