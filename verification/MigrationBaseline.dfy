/** Verification and detection of a legacy baseline against an isolated reference
    (packages/db/src/migration-baseline.ts). The forward scan here and the engine's
    newest-to-oldest search are proved to agree, errors included. */
module MigrationBaseline {
  import opened Common
  import opened Sorting
  import opened CatalogDrift
  import opened MigrationEngine

  /** The catalog a fresh reference holds after executing these files; None when one fails. */
  function Reference(exec: Exec, files: seq<MigrationFile>): Option<Snapshot> {
    ApplyAll(exec, EmptySnapshot, files)
  }

  /** The verdict of `verifyLegacyBaseline`: executed in isolation, compared without touching the target. */
  function VerifyLegacy(exec: Exec): Verify {
    (actual: Snapshot, files: seq<MigrationFile>) =>
      match Reference(exec, files)
      case None => Failed
      case Some(expected) => if DifferenceCount(expected, actual) == 0 then Accepted else Mismatch
  }

  method VerifyLegacyBaseline(exec: Exec, actual: Snapshot, files: seq<MigrationFile>, stable: Row -> string)
    returns (v: VerifyOutcome)
    requires Injective(stable) && files != []
    ensures v == VerifyLegacy(exec)(actual, files)
    ensures v == Accepted <==> Reference(exec, files).Some? && SameCatalog(Reference(exec, files).value, actual)
  {
    var expected := Reference(exec, files);
    if expected.None? { return Failed; }
    var difference := CompareCatalogs(expected.value, actual, files[|files| - 1].name, stable);
    return if difference.differenceCount == 0 then Accepted else Mismatch;
  }

  datatype DetectError = ReferenceFailed | NoCandidate | NoMatch(diagnostics: BaselineDiagnostics)

  ghost predicate Matches(exec: Exec, actual: Snapshot, files: seq<MigrationFile>, n: nat)
    requires n <= |files|
  {
    Reference(exec, files[..n]).Some? && SameCatalog(Reference(exec, files[..n]).value, actual)
  }

  /** The last matching prefix among the first `i` files, 0 when there is none. */
  ghost function LastMatch(exec: Exec, actual: Snapshot, files: seq<MigrationFile>, i: nat): nat
    requires i <= |files|
  {
    if i == 0 then 0 else if Matches(exec, actual, files, i) then i else LastMatch(exec, actual, files, i - 1)
  }

  lemma {:induction false} LastMatchIsLongest(exec: Exec, actual: Snapshot, files: seq<MigrationFile>, i: nat)
    requires i <= |files|
    ensures LastMatch(exec, actual, files, i) <= i
    ensures LastMatch(exec, actual, files, i) > 0 ==> Matches(exec, actual, files, LastMatch(exec, actual, files, i))
    ensures forall n :: LastMatch(exec, actual, files, i) < n <= i ==> !Matches(exec, actual, files, n)
  {
    if i > 0 {
      LastMatchIsLongest(exec, actual, files, i - 1);
    }
  }

  lemma ReferenceStep(exec: Exec, files: seq<MigrationFile>, i: nat)
    requires i < |files| && Reference(exec, files[..i]).Some?
    ensures Reference(exec, files[..i + 1]) == exec(files[i].sql, Reference(exec, files[..i]).value)
  {
    assert files[..i + 1][..i] == files[..i];
  }

  /** How far the catalog after the first `n` files is from the actual one. */
  ghost function Distance(exec: Exec, actual: Snapshot, files: seq<MigrationFile>, n: nat): nat
    requires n <= |files| && Reference(exec, files[..n]).Some?
  {
    DifferenceCount(Reference(exec, files[..n]).value, actual)
  }

  /** One candidate per leading part of the files, each naming its last file and its distance. */
  ghost predicate Measured(exec: Exec, actual: Snapshot, files: seq<MigrationFile>, candidates: seq<CandidateDrift>) {
    candidates == [] ||
    (var n := |candidates|;
     && n <= |files| && Reference(exec, files[..n]).Some?
     && candidates[n - 1].migration == files[n - 1].name
     && candidates[n - 1].differenceCount == Distance(exec, actual, files, n)
     && Measured(exec, actual, files, candidates[..n - 1]))
  }

  lemma {:induction false} MeasuredAt(
      exec: Exec, actual: Snapshot, files: seq<MigrationFile>, candidates: seq<CandidateDrift>, n: nat)
    requires Measured(exec, actual, files, candidates) && n < |candidates|
    ensures n < |files| && Reference(exec, files[..n + 1]).Some?
    ensures candidates[n].migration == files[n].name
    ensures candidates[n].differenceCount == Distance(exec, actual, files, n + 1)
  {
    if n < |candidates| - 1 { MeasuredAt(exec, actual, files, candidates[..|candidates| - 1], n); }
  }

  lemma {:induction false} MeasureOneMore(
      exec: Exec, actual: Snapshot, files: seq<MigrationFile>, candidates: seq<CandidateDrift>, c: CandidateDrift)
    requires Measured(exec, actual, files, candidates) && |candidates| < |files|
    requires Reference(exec, files[..|candidates| + 1]).Some?
    requires c.migration == files[|candidates|].name
    requires c.differenceCount == Distance(exec, actual, files, |candidates| + 1)
    ensures Measured(exec, actual, files, candidates + [c])
  {
    assert (candidates + [c])[..|candidates|] == candidates;
  }

  /** The diagnostics name a file whose leading part is at least as near as any other. */
  ghost predicate NamesNearest(exec: Exec, actual: Snapshot, files: seq<MigrationFile>, d: BaselineDiagnostics) {
    && (exists n :: 0 <= n < |files| && d.comparisonAgainst.migration == files[n].name)
    && forall n :: 1 <= n <= |files| && Reference(exec, files[..n]).Some? ==>
         d.comparisonAgainst.differenceCount <= Distance(exec, actual, files, n)
  }

  lemma {:induction false} NearestBounds(
      exec: Exec, actual: Snapshot, files: seq<MigrationFile>, candidates: seq<CandidateDrift>, best: CandidateDrift,
      n: nat)
    requires Measured(exec, actual, files, candidates) && |candidates| == |files|
    requires forall c :: c in candidates ==> NearerOrSame(best, c)
    requires 1 <= n <= |files| && Reference(exec, files[..n]).Some?
    ensures best.differenceCount <= Distance(exec, actual, files, n)
  {
    MeasuredAt(exec, actual, files, candidates, n - 1);
    assert NearerOrSame(best, candidates[n - 1]);
  }

  lemma {:induction false} CandidateNamesFile(
      exec: Exec, actual: Snapshot, files: seq<MigrationFile>, candidates: seq<CandidateDrift>, best: CandidateDrift)
    requires Measured(exec, actual, files, candidates) && best in candidates
    ensures exists n :: 0 <= n < |files| && best.migration == files[n].name
  {
    var m :| 0 <= m < |candidates| && candidates[m] == best;
    MeasuredAt(exec, actual, files, candidates, m);
  }

  lemma {:induction false} DiagnosisNamesNearest(
      exec: Exec, actual: Snapshot, files: seq<MigrationFile>, candidates: seq<CandidateDrift>)
    requires Measured(exec, actual, files, candidates) && |candidates| == |files|
    ensures Diagnose(candidates).None? <==> files == []
    ensures Diagnose(candidates).Some? ==> NamesNearest(exec, actual, files, Diagnose(candidates).value)
  {
    DiagnosisIsNearest(candidates);
    if Diagnose(candidates).Some? {
      var best := Diagnose(candidates).value.comparisonAgainst;
      CandidateNamesFile(exec, actual, files, candidates, best);
      forall n | 1 <= n <= |files| && Reference(exec, files[..n]).Some?
        ensures best.differenceCount <= Distance(exec, actual, files, n)
      {
        NearestBounds(exec, actual, files, candidates, best, n);
      }
    }
  }

  /** Compare the catalog the first n files build. */
  method ComparePrefix(
      exec: Exec, actual: Snapshot, files: seq<MigrationFile>, n: nat, reference: Snapshot, stable: Row -> string)
    returns (difference: CandidateDrift)
    requires Injective(stable) && 1 <= n <= |files| && Reference(exec, files[..n]) == Some(reference)
    ensures difference.migration == files[n - 1].name
    ensures difference.differenceCount == Distance(exec, actual, files, n)
    ensures difference.differenceCount == 0 <==> Matches(exec, actual, files, n)
  {
    difference := CompareCatalogs(reference, actual, files[n - 1].name, stable);
  }

  /** One pass over the files in one reference database, keeping the last exact match. */
  method ScanPrefixes(exec: Exec, actual: Snapshot, files: seq<MigrationFile>, stable: Row -> string)
    returns (ok: bool, matchedPrefix: nat, candidates: seq<CandidateDrift>)
    requires Injective(stable)
    ensures ok <==> Reference(exec, files).Some?
    ensures ok ==> matchedPrefix == LastMatch(exec, actual, files, |files|)
    ensures ok ==> |candidates| == |files| && Measured(exec, actual, files, candidates)
  {
    var reference := EmptySnapshot;
    matchedPrefix, candidates := 0, [];
    for i := 0 to |files|
      invariant Reference(exec, files[..i]) == Some(reference)
      invariant matchedPrefix == LastMatch(exec, actual, files, i)
      invariant |candidates| == i && Measured(exec, actual, files, candidates)
    {
      ReferenceStep(exec, files, i);
      var executed := exec(files[i].sql, reference);
      if executed.None? {
        FailurePropagates(exec, EmptySnapshot, files, i + 1);
        return false, 0, candidates;
      }
      reference := executed.value;
      var difference := ComparePrefix(exec, actual, files, i + 1, reference, stable);
      if difference.differenceCount == 0 { matchedPrefix := i + 1; }
      MeasureOneMore(exec, actual, files, candidates, difference);
      candidates := candidates + [difference];
    }
    assert files[..|files|] == files;
    return true, matchedPrefix, candidates;
  }

  /** The longest leading part that matches exactly, or a diagnosis that names the nearest. */
  method DetectLegacyBaseline(exec: Exec, actual: Snapshot, files: seq<MigrationFile>, stable: Row -> string)
    returns (r: Result<nat, DetectError>)
    requires Injective(stable)
    ensures r.Ok? <==> Reference(exec, files).Some? && LastMatch(exec, actual, files, |files|) > 0
    ensures r.Ok? ==> r.value == LastMatch(exec, actual, files, |files|)
    ensures r.Err? && r.error.ReferenceFailed? <==> Reference(exec, files).None?
    ensures r.Err? && r.error.NoCandidate? <==> files == []
    ensures r.Err? && r.error.NoMatch? ==> NamesNearest(exec, actual, files, r.error.diagnostics)
  {
    var ok, matchedPrefix, candidates := ScanPrefixes(exec, actual, files, stable);
    if !ok { return Err(ReferenceFailed); }
    if matchedPrefix > 0 { return Ok(matchedPrefix); }
    DiagnosisNamesNearest(exec, actual, files, candidates);
    var diagnostics := Diagnose(candidates);
    return if diagnostics.None? then Err(NoCandidate) else Err(NoMatch(diagnostics.value));
  }

  lemma VerdictIsMatch(exec: Exec, actual: Snapshot, files: seq<MigrationFile>, n: nat)
    requires n <= |files| && Reference(exec, files).Some?
    ensures VerifyLegacy(exec)(actual, files[..n]) == if Matches(exec, actual, files, n) then Accepted else Mismatch
  {
    if Reference(exec, files[..n]).None? {
      FailurePropagates(exec, EmptySnapshot, files, n);
      assert false;
    }
    ZeroDifferenceIsSameCatalog(Reference(exec, files[..n]).value, actual);
  }

  lemma {:induction false} SearchesAgreeBelow(exec: Exec, actual: Snapshot, files: seq<MigrationFile>, end: nat)
    requires end <= |files| && Reference(exec, files).Some?
    ensures NewestAccepted(VerifyLegacy(exec), actual, files, end) == Ok(LastMatch(exec, actual, files, end))
  {
    if end > 0 {
      VerdictIsMatch(exec, actual, files, end);
      SearchesAgreeBelow(exec, actual, files, end - 1);
    }
  }

  /** The newest-to-oldest search and the forward scan find the same longest prefix whose
      catalog matches exactly; either one fails on a failing file exactly when the other does. */
  lemma {:induction false} SearchesAgree(exec: Exec, actual: Snapshot, files: seq<MigrationFile>)
    ensures var r := NewestAccepted(VerifyLegacy(exec), actual, files, |files|);
      && (Reference(exec, files).Some? ==> r == Ok(LastMatch(exec, actual, files, |files|)))
      && (Reference(exec, files).None? ==> r == Err(VerificationFailed))
  {
    assert files[..|files|] == files;
    if Reference(exec, files).Some? {
      SearchesAgreeBelow(exec, actual, files, |files|);
    } else {
      assert files != [];
    }
  }

  /** A read-only detection depends on its options only through the baseline length they give. */
  lemma PlanModeOutcome(db: Db, files: seq<MigrationFile>, o: Options, exec: Exec)
    requires o.plan && !o.Through() && !o.confirmExistingSchema
    ensures Migrate(db, files, o, exec).Ok? <==>
      && GoodNames(Ordered(files)) && HistoryMatches(Sort(db.ledger, RowLe), Ordered(files))
      && BaselineLength(db, Ordered(files), o).Ok?
    ensures Migrate(db, files, o, exec).Ok? ==>
      var p := Plan(Ordered(files), |db.ledger|, BaselineLength(db, Ordered(files), o).value);
      p.Fits() && Migrate(db, files, o, exec).value == (ReportOf(p, o), db)
  {
  }

  /** Detection in plan mode reports the same baseline through either search. */
  lemma DetectionRoutesAgree(exec: Exec, db: Db, files: seq<MigrationFile>, scan: Inspect)
    requires scan(db.catalog, Ordered(files))
      == if Reference(exec, Ordered(files)).Some? && LastMatch(exec, db.catalog, Ordered(files), |Ordered(files)|) > 0
         then Some(LastMatch(exec, db.catalog, Ordered(files), |Ordered(files)|)) else None
    ensures var forward := Migrate(db, files, Options(true, true, Some(scan), None, false, None), exec);
            var backward := Migrate(db, files, Options(true, true, None, None, false, Some(VerifyLegacy(exec))), exec);
      (forward.Ok? <==> backward.Ok?) && (forward.Ok? ==> forward.value == backward.value)
  {
    DetectionLengths(exec, db, Ordered(files), scan);
    PlanModeOutcome(db, files, Options(true, true, Some(scan), None, false, None), exec);
    PlanModeOutcome(db, files, Options(true, true, None, None, false, Some(VerifyLegacy(exec))), exec);
  }

  lemma {:induction false} DetectionLengths(exec: Exec, db: Db, ordered: seq<MigrationFile>, scan: Inspect)
    requires scan(db.catalog, ordered)
      == if Reference(exec, ordered).Some? && LastMatch(exec, db.catalog, ordered, |ordered|) > 0
         then Some(LastMatch(exec, db.catalog, ordered, |ordered|)) else None
    ensures var a := BaselineLength(db, ordered, Options(true, true, Some(scan), None, false, None));
            var b := BaselineLength(db, ordered, Options(true, true, None, None, false, Some(VerifyLegacy(exec))));
      (a.Ok? <==> b.Ok?) && (a.Ok? ==> a.value == b.value)
  {
    SearchesAgree(exec, db.catalog, ordered);
    LastMatchIsLongest(exec, db.catalog, ordered, |ordered|);
  }

  /** Adopting with this verifier means: the schema already is, row for row in every
      catalog group, what executing exactly the adopted files from nothing builds. */
  lemma AdoptedSchemaIsReproduced(exec: Exec, db: Db, files: seq<MigrationFile>, o: Options)
    requires o.verify == Some(VerifyLegacy(exec)) && !o.plan
    requires MakePlan(db, files, o).Ok? && MakePlan(db, files, o).value.baseline > 0
    ensures var p := MakePlan(db, files, o).value;
      Reference(exec, p.Adopted()).Some? && SameCatalog(Reference(exec, p.Adopted()).value, db.catalog)
  {
    AdoptionNeedsAcceptance(db, files, o, exec);
    var p := MakePlan(db, files, o).value;
    assert VerifyLegacy(exec)(db.catalog, p.Adopted()) == Accepted;
    ZeroDifferenceIsSameCatalog(Reference(exec, p.Adopted()).value, db.catalog);
  }
}
