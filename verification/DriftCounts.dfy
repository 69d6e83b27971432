/** What the numbers of a catalog comparison count (packages/db/src/migration-drift.ts), stated on the
    positions of rows and their fields alone. */
module DriftCounts {
  import opened Common
  import opened CatalogDrift

  // ----- When two rows have one key -----

  /** A field of a row; an absent one counts as null. */
  function FieldOf(row: Row, name: string): Value {
    if name in row.fields then row.fields[name] else Null
  }

  /** The field that tells the rows of one table apart. */
  function OwnField(g: CatalogGroup): Option<string> {
    match g
    case Relations => None
    case Columns => Some("column_name")
    case Constraints => Some("constraint_name")
    case Indexes => Some("index_name")
    case Policies => Some("policyname")
    case Triggers => Some("trigger_name")
    case Functions => Some("args")
  }

  lemma KeysByFields(a: Row, b: Row, f: seq<string>)
    ensures KeyOf(a, f) == KeyOf(b, f) <==> forall name :: name in f ==> FieldOf(a, name) == FieldOf(b, name)
  {
    if KeyOf(a, f) == KeyOf(b, f) {
      forall i | 0 <= i < |f| ensures FieldOf(a, f[i]) == FieldOf(b, f[i]) {
        assert KeyOf(a, f).parts[i] == KeyOf(b, f).parts[i];
      }
    }
    if forall name :: name in f ==> FieldOf(a, name) == FieldOf(b, name) {
      forall i | 0 <= i < |f| ensures KeyOf(a, f).parts[i] == KeyOf(b, f).parts[i] {
        assert f[i] in f;
      }
    }
  }

  lemma IdentifyingFields(g: CatalogGroup, name: string)
    ensures name in KeyFields(g) <==> name in {"schema", "name"} || Some(name) == OwnField(g)
  {
    var f := KeyFields(g);
    assert f[0] == "schema" && f[1] == "name";
    assert g != Relations ==> f[2] == OwnField(g).value;
  }

  /** Two rows of a catalog group are versions of one thing exactly when they agree in schema, name and
      the group's own field. */
  lemma SameThing(g: CatalogGroup, a: Row, b: Row)
    ensures KeyOf(a, KeyFields(g)) == KeyOf(b, KeyFields(g)) <==>
      && FieldOf(a, "schema") == FieldOf(b, "schema") && FieldOf(a, "name") == FieldOf(b, "name")
      && (OwnField(g).Some? ==> FieldOf(a, OwnField(g).value) == FieldOf(b, OwnField(g).value))
  {
    KeysByFields(a, b, KeyFields(g));
    forall name ensures name in KeyFields(g) <==> name in {"schema", "name"} || Some(name) == OwnField(g) {
      IdentifyingFields(g, name);
    }
    assert "schema" in KeyFields(g) && "name" in KeyFields(g);
    if OwnField(g).Some? { assert OwnField(g).value in KeyFields(g); }
  }

  // ----- The counts of one group -----

  /** The positions of the rows whose key is one of `ks`. */
  ghost function PositionsIn(rows: seq<Row>, f: seq<string>, ks: set<Key>): set<nat> {
    set i: nat | i < |rows| && KeyOf(rows[i], f) in ks
  }

  lemma {:induction false} RowsInAppends(rows: seq<Row>, row: Row, f: seq<string>, ks: set<Key>)
    ensures RowsIn(rows + [row], f, ks) == RowsIn(rows, f, ks) + if KeyOf(row, f) in ks then [row] else []
  {
    if rows == [] {
      assert [row][1..] == [];
    } else {
      RowsInAppends(rows[1..], row, f, ks);
      assert (rows + [row])[1..] == rows[1..] + [row];
    }
  }

  lemma PositionsAppend(rows: seq<Row>, row: Row, f: seq<string>, ks: set<Key>)
    ensures PositionsIn(rows + [row], f, ks)
      == PositionsIn(rows, f, ks) + if KeyOf(row, f) in ks then {|rows|} else {}
  {
    var all := rows + [row];
    assert all[|rows|] == row && forall i :: 0 <= i < |rows| ==> all[i] == rows[i];
  }

  lemma {:induction false} RowsInArePositions(rows: seq<Row>, f: seq<string>, ks: set<Key>)
    ensures |RowsIn(rows, f, ks)| == |PositionsIn(rows, f, ks)|
  {
    if rows == [] {
      assert PositionsIn(rows, f, ks) == {};
    } else {
      var front, row := rows[..|rows| - 1], rows[|rows| - 1];
      RowsInArePositions(front, f, ks);
      RowsInAppends(front, row, f, ks);
      PositionsAppend(front, row, f, ks);
      assert rows == front + [row];
    }
  }

  /** The positions of the rows of `a` that share their key with no row of `b`. */
  ghost function Alone(a: seq<Row>, b: seq<Row>, f: seq<string>): set<nat> {
    set i: nat | i < |a| && forall j :: 0 <= j < |b| ==> KeyOf(b[j], f) != KeyOf(a[i], f)
  }

  /** Some row with the key occurs more often on one side than on the other. */
  ghost predicate Uneven(a: seq<Row>, b: seq<Row>, f: seq<string>, k: Key) {
    exists row :: KeyOf(row, f) == k && multiset(a)[row] != multiset(b)[row]
  }

  /** The keys on both sides whose rows are uneven. */
  ghost function Altered(a: seq<Row>, b: seq<Row>, f: seq<string>): set<Key> {
    set row |
      row in a && Uneven(a, b, f, KeyOf(row, f)) && (exists other :: other in b && KeyOf(other, f) == KeyOf(row, f))
      :: KeyOf(row, f)
  }

  lemma UnmatchedAreAlone(a: seq<Row>, b: seq<Row>, f: seq<string>)
    ensures Unmatched(a, b, f) == |Alone(a, b, f)|
  {
    var ks := Keys(a, f) - Keys(b, f);
    RowsInArePositions(a, f, ks);
    forall i: nat | i < |a| ensures KeyOf(a[i], f) in ks <==> i in Alone(a, b, f) {
      assert a[i] in a;
      assert forall j :: 0 <= j < |b| ==> b[j] in b;
    }
    assert PositionsIn(a, f, ks) == Alone(a, b, f);
  }

  lemma ChangedAreAltered(a: seq<Row>, b: seq<Row>, f: seq<string>)
    ensures ChangedKeys(a, b, f) == Altered(a, b, f)
  {
    forall k ensures !SameRows(RowsWithKey(a, f, k), RowsWithKey(b, f, k)) <==> Uneven(a, b, f, k) {
      KeyDiffers(a, b, f, k);
    }
  }

  lemma {:induction false} KeyDiffers(a: seq<Row>, b: seq<Row>, f: seq<string>, k: Key)
    ensures !SameRows(RowsWithKey(a, f, k), RowsWithKey(b, f, k)) <==> Uneven(a, b, f, k)
  {
    var x, y := multiset(RowsWithKey(a, f, k)), multiset(RowsWithKey(b, f, k));
    forall row ensures x[row] == (if KeyOf(row, f) == k then multiset(a)[row] else 0)
      && y[row] == (if KeyOf(row, f) == k then multiset(b)[row] else 0)
    {
      RowsWithKeyMultiplicity(a, f, k, row);
      RowsWithKeyMultiplicity(b, f, k, row);
    }
    if x != y {
      var row :| x[row] != y[row];
      assert KeyOf(row, f) == k;
    }
  }

  /** A group counts its missing rows, its unexpected rows, and the keys whose rows changed. */
  lemma GroupCounts(expected: seq<Row>, actual: seq<Row>, f: seq<string>)
    ensures GroupDifference(expected, actual, f)
      == |Alone(expected, actual, f)| + |Alone(actual, expected, f)| + |Altered(expected, actual, f)|
  {
    UnmatchedAreAlone(expected, actual, f);
    UnmatchedAreAlone(actual, expected, f);
    ChangedAreAltered(expected, actual, f);
  }

  // ----- The count of a comparison -----

  /** The difference of one catalog group by its own key fields. */
  ghost function Drift(expected: Snapshot, actual: Snapshot, g: CatalogGroup): nat {
    var a, b, f := expected.Rows(g), actual.Rows(g), KeyFields(g);
    |Alone(a, b, f)| + |Alone(b, a, f)| + |Altered(a, b, f)|
  }

  lemma {:induction false} OverAppends(expected: Snapshot, actual: Snapshot, gs: seq<CatalogGroup>, g: CatalogGroup)
    ensures DifferenceOver(expected, actual, gs + [g], KeyFields)
      == DifferenceOver(expected, actual, gs, KeyFields) + Drift(expected, actual, g)
  {
    assert (gs + [g])[..|gs|] == gs;
    GroupCounts(expected.Rows(g), actual.Rows(g), KeyFields(g));
  }

  /** The reported count adds up the differences of the seven catalog groups. */
  lemma CountAddsUp(expected: Snapshot, actual: Snapshot)
    ensures DifferenceCount(expected, actual)
      == Drift(expected, actual, Relations) + Drift(expected, actual, Columns) + Drift(expected, actual, Constraints)
       + Drift(expected, actual, Indexes) + Drift(expected, actual, Policies) + Drift(expected, actual, Triggers)
       + Drift(expected, actual, Functions)
  {
    var gs := [Relations] + [Columns] + [Constraints] + [Indexes] + [Policies] + [Triggers] + [Functions];
    assert gs == GROUPS;
    assert [] + [Relations] == [Relations];
    OverAppends(expected, actual, [], Relations);
    OverAppends(expected, actual, [Relations], Columns);
    OverAppends(expected, actual, [Relations] + [Columns], Constraints);
    OverAppends(expected, actual, [Relations] + [Columns] + [Constraints], Indexes);
    OverAppends(expected, actual, [Relations] + [Columns] + [Constraints] + [Indexes], Policies);
    OverAppends(expected, actual, [Relations] + [Columns] + [Constraints] + [Indexes] + [Policies], Triggers);
    OverAppends(
      expected, actual, [Relations] + [Columns] + [Constraints] + [Indexes] + [Policies] + [Triggers], Functions);
  }
}
