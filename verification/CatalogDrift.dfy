/** Catalog comparison (packages/db/src/migration-drift.ts). Rows are grouped by
    their identifying fields, groups are compared through sorted serializations,
    and the comparison is proved to decide equality of the two catalogs as
    multisets of rows, group by group. */
module CatalogDrift {
  import opened Common
  import opened Sorting

  /** A column value of a catalog query. */
  datatype Value = Null | Bool(b: bool) | Num(n: int) | Text(s: string)

  datatype Row = Row(fields: map<string, Value>)

  /** The serialized identifying fields; an absent field serializes as null. */
  datatype Key = Key(parts: seq<Value>)

  datatype CatalogGroup = Relations | Columns | Constraints | Indexes | Policies | Triggers | Functions

  const GROUPS: seq<CatalogGroup> := [Relations, Columns, Constraints, Indexes, Policies, Triggers, Functions]

  function KeyFields(g: CatalogGroup): seq<string> {
    match g
    case Relations => ["schema", "name"]
    case Columns => ["schema", "name", "column_name"]
    case Constraints => ["schema", "name", "constraint_name"]
    case Indexes => ["schema", "name", "index_name"]
    case Policies => ["schema", "name", "policyname"]
    case Triggers => ["schema", "name", "trigger_name"]
    case Functions => ["schema", "name", "args"]
  }

  datatype Snapshot = Snapshot(tables: map<CatalogGroup, seq<Row>>)
  {
    function Rows(g: CatalogGroup): seq<Row> {
      if g in tables then tables[g] else []
    }
  }

  const EmptySnapshot := Snapshot(map[])

  function KeyOf(row: Row, fields: seq<string>): Key {
    Key(seq(|fields|, i requires 0 <= i < |fields| => if fields[i] in row.fields then row.fields[fields[i]] else Null))
  }

  // ----- Reference definitions: counts stated on rows, without any grouping -----

  function RowsWithKey(rows: seq<Row>, f: seq<string>, k: Key): seq<Row> {
    if rows == [] then []
    else if KeyOf(rows[0], f) == k then [rows[0]] + RowsWithKey(rows[1..], f, k)
    else RowsWithKey(rows[1..], f, k)
  }

  function Keys(rows: seq<Row>, f: seq<string>): set<Key> {
    set row | row in rows :: KeyOf(row, f)
  }

  /** The rows whose key is one of `ks`. */
  function RowsIn(rows: seq<Row>, f: seq<string>, ks: set<Key>): seq<Row> {
    if rows == [] then []
    else if KeyOf(rows[0], f) in ks then [rows[0]] + RowsIn(rows[1..], f, ks)
    else RowsIn(rows[1..], f, ks)
  }

  predicate SameRows(a: seq<Row>, b: seq<Row>) {
    multiset(a) == multiset(b)
  }

  function Unmatched(a: seq<Row>, b: seq<Row>, f: seq<string>): nat {
    |RowsIn(a, f, Keys(a, f) - Keys(b, f))|
  }

  function ChangedKeys(a: seq<Row>, b: seq<Row>, f: seq<string>): set<Key> {
    set k | k in Keys(a, f) && k in Keys(b, f) && !SameRows(RowsWithKey(a, f, k), RowsWithKey(b, f, k))
  }

  /** Missing rows, unexpected rows and changed keys of one catalog group. */
  function GroupDifference(expected: seq<Row>, actual: seq<Row>, f: seq<string>): nat {
    Unmatched(expected, actual, f) + Unmatched(actual, expected, f) + |ChangedKeys(expected, actual, f)|
  }

  /** Sums over catalog groups, for any choice of identifying fields. */
  function DifferenceOver(
      expected: Snapshot, actual: Snapshot, gs: seq<CatalogGroup>, keys: CatalogGroup -> seq<string>): nat
  {
    if gs == [] then 0
    else
      var g := gs[|gs| - 1];
      DifferenceOver(expected, actual, gs[..|gs| - 1], keys)
      + GroupDifference(expected.Rows(g), actual.Rows(g), keys(g))
  }

  function DifferenceCount(expected: Snapshot, actual: Snapshot): nat {
    DifferenceOver(expected, actual, GROUPS, KeyFields)
  }

  ghost predicate SameIn(a: Snapshot, b: Snapshot, g: CatalogGroup) {
    SameRows(a.Rows(g), b.Rows(g))
  }

  ghost predicate SameCatalog(a: Snapshot, b: Snapshot) {
    forall g: CatalogGroup :: SameIn(a, b, g)
  }

  // ----- Facts about grouping -----

  lemma {:induction false} RowsWithKeyMultiplicity(rows: seq<Row>, f: seq<string>, k: Key, row: Row)
    ensures multiset(RowsWithKey(rows, f, k))[row] == if KeyOf(row, f) == k then multiset(rows)[row] else 0
  {
    if rows != [] {
      RowsWithKeyMultiplicity(rows[1..], f, k, row);
      assert rows == [rows[0]] + rows[1..];
    }
  }

  lemma {:induction false} RowsWithKeyEmpty(rows: seq<Row>, f: seq<string>, k: Key)
    ensures RowsWithKey(rows, f, k) == [] <==> k !in Keys(rows, f)
  {
    if rows != [] {
      RowsWithKeyEmpty(rows[1..], f, k);
      assert rows == [rows[0]] + rows[1..];
      assert Keys(rows, f) == {KeyOf(rows[0], f)} + Keys(rows[1..], f);
    }
  }

  ghost predicate SameByKey(a: seq<Row>, b: seq<Row>, f: seq<string>) {
    forall k :: SameRows(RowsWithKey(a, f, k), RowsWithKey(b, f, k))
  }

  lemma {:induction false} SameRowsImpliesByKey(a: seq<Row>, b: seq<Row>, f: seq<string>, k: Key)
    requires SameRows(a, b)
    ensures SameRows(RowsWithKey(a, f, k), RowsWithKey(b, f, k))
  {
    forall row ensures multiset(RowsWithKey(a, f, k))[row] == multiset(RowsWithKey(b, f, k))[row] {
      RowsWithKeyMultiplicity(a, f, k, row);
      RowsWithKeyMultiplicity(b, f, k, row);
    }
  }

  lemma ByKeyImpliesSameRows(a: seq<Row>, b: seq<Row>, f: seq<string>)
    requires SameByKey(a, b, f)
    ensures SameRows(a, b)
  {
    forall row ensures multiset(a)[row] == multiset(b)[row] {
      var k := KeyOf(row, f);
      assert SameRows(RowsWithKey(a, f, k), RowsWithKey(b, f, k));
      RowsWithKeyMultiplicity(a, f, k, row);
      RowsWithKeyMultiplicity(b, f, k, row);
    }
    assert multiset(a) == multiset(b);
  }

  /** Equality as multisets is equality key by key. */
  lemma SameRowsByKey(a: seq<Row>, b: seq<Row>, f: seq<string>)
    ensures SameRows(a, b) <==> SameByKey(a, b, f)
  {
    if SameRows(a, b) {
      forall k ensures SameRows(RowsWithKey(a, f, k), RowsWithKey(b, f, k)) {
        SameRowsImpliesByKey(a, b, f, k);
      }
    }
    if SameByKey(a, b, f) {
      ByKeyImpliesSameRows(a, b, f);
    }
  }

  lemma {:induction false} RowsInEmpty(rows: seq<Row>, f: seq<string>, ks: set<Key>)
    ensures RowsIn(rows, f, ks) == [] <==> ks !! Keys(rows, f)
  {
    if rows != [] {
      RowsInEmpty(rows[1..], f, ks);
      assert rows == [rows[0]] + rows[1..];
      assert Keys(rows, f) == {KeyOf(rows[0], f)} + Keys(rows[1..], f);
    }
  }

  lemma SameRowsHaveSameKeys(a: seq<Row>, b: seq<Row>, f: seq<string>)
    requires SameRows(a, b)
    ensures Keys(a, f) == Keys(b, f)
  {
    forall row ensures row in a <==> row in b {
      SameElements(a, b, row);
    }
  }

  lemma NoUnmatched(a: seq<Row>, b: seq<Row>, f: seq<string>)
    ensures Unmatched(a, b, f) == 0 <==> Keys(a, f) <= Keys(b, f)
  {
    RowsInEmpty(a, f, Keys(a, f) - Keys(b, f));
  }

  lemma NoChange(a: seq<Row>, b: seq<Row>, f: seq<string>)
    requires Keys(a, f) == Keys(b, f) && ChangedKeys(a, b, f) == {}
    ensures SameByKey(a, b, f)
  {
    forall k ensures SameRows(RowsWithKey(a, f, k), RowsWithKey(b, f, k)) {
      if k in Keys(a, f) {
        assert k !in ChangedKeys(a, b, f);
      } else {
        RowsWithKeyEmpty(a, f, k);
        RowsWithKeyEmpty(b, f, k);
      }
    }
  }

  /** A group differs by nothing exactly when its two row sequences are equal as multisets. */
  lemma GroupDifferenceZero(expected: seq<Row>, actual: seq<Row>, f: seq<string>)
    ensures GroupDifference(expected, actual, f) == 0 <==> SameRows(expected, actual)
  {
    NoUnmatched(expected, actual, f);
    NoUnmatched(actual, expected, f);
    if GroupDifference(expected, actual, f) == 0 {
      NoChange(expected, actual, f);
      ByKeyImpliesSameRows(expected, actual, f);
    }
    if SameRows(expected, actual) {
      SameRowsHaveSameKeys(expected, actual, f);
      SameRowsByKey(expected, actual, f);
      assert ChangedKeys(expected, actual, f) == {};
    }
  }

  lemma {:induction false} DifferenceOverZero(
      expected: Snapshot, actual: Snapshot, gs: seq<CatalogGroup>, keys: CatalogGroup -> seq<string>)
    ensures DifferenceOver(expected, actual, gs, keys) == 0 <==> forall g :: g in gs ==> SameIn(expected, actual, g)
  {
    if gs != [] {
      var g := gs[|gs| - 1];
      DifferenceOverZero(expected, actual, gs[..|gs| - 1], keys);
      GroupDifferenceZero(expected.Rows(g), actual.Rows(g), keys(g));
      assert SameIn(expected, actual, g) <==> GroupDifference(expected.Rows(g), actual.Rows(g), keys(g)) == 0;
      assert gs == gs[..|gs| - 1] + [g];
    }
  }

  lemma AllGroupsListed(g: CatalogGroup)
    ensures g in GROUPS
  {
    var all := GROUPS;
    assert g == all[0] || g == all[1] || g == all[2] || g == all[3] || g == all[4] || g == all[5] || g == all[6];
  }

  /** The reported count is zero exactly when every catalog group holds the same rows,
      counted with multiplicity, on both sides. */
  lemma ZeroDifferenceIsSameCatalog(expected: Snapshot, actual: Snapshot)
    ensures DifferenceCount(expected, actual) == 0 <==> SameCatalog(expected, actual)
  {
    DifferenceOverZero(expected, actual, GROUPS, KeyFields);
    forall g: CatalogGroup ensures g in GROUPS {
      AllGroupsListed(g);
    }
  }

  lemma {:induction false} DifferenceOverSymmetric(
      a: Snapshot, b: Snapshot, gs: seq<CatalogGroup>, keys: CatalogGroup -> seq<string>)
    ensures DifferenceOver(a, b, gs, keys) == DifferenceOver(b, a, gs, keys)
  {
    if gs != [] {
      var g := gs[|gs| - 1];
      DifferenceOverSymmetric(a, b, gs[..|gs| - 1], keys);
      assert ChangedKeys(a.Rows(g), b.Rows(g), keys(g)) == ChangedKeys(b.Rows(g), a.Rows(g), keys(g));
    }
  }

  /** Swapping the two snapshots exchanges missing and unexpected but keeps the count. */
  lemma DifferenceIsSymmetric(a: Snapshot, b: Snapshot)
    ensures DifferenceCount(a, b) == DifferenceCount(b, a)
  {
    DifferenceOverSymmetric(a, b, GROUPS, KeyFields);
  }

  // ----- The algorithm: insertion-ordered groups, sorted serializations -----

  /** A JavaScript Map: its keys in insertion order and what they hold. */
  datatype Groups = Groups(order: seq<Key>, rows: map<Key, seq<Row>>)
  {
    function GetOrEmpty(id: Key): seq<Row> {
      if id in rows then rows[id] else []
    }

    function Set(id: Key, rs: seq<Row>): Groups {
      Groups(if id in rows then order else order + [id], rows[id := rs])
    }
  }

  ghost predicate Distinct<T>(s: seq<T>) {
    forall i, j :: 0 <= i < j < |s| ==> s[i] != s[j]
  }

  /** Every key holds its rows, in order. */
  ghost predicate Indexed(g: Groups, rows: seq<Row>, f: seq<string>) {
    && g.rows.Keys == Keys(rows, f)
    && forall k :: k in g.rows ==> g.rows[k] == RowsWithKey(rows, f, k)
  }

  /** Iteration visits every key once. */
  ghost predicate Iterable(g: Groups) {
    && (forall k :: k in g.order <==> k in g.rows)
    && Distinct(g.order)
  }

  lemma {:induction false} RowsWithKeySnoc(rows: seq<Row>, row: Row, f: seq<string>, k: Key)
    ensures RowsWithKey(rows + [row], f, k)
         == RowsWithKey(rows, f, k) + if KeyOf(row, f) == k then [row] else []
  {
    if rows == [] {
      assert rows + [row] == [row];
    } else {
      RowsWithKeySnoc(rows[1..], row, f, k);
      assert (rows + [row])[1..] == rows[1..] + [row];
    }
  }

  lemma KeysSnoc(rows: seq<Row>, row: Row, f: seq<string>)
    ensures Keys(rows + [row], f) == Keys(rows, f) + {KeyOf(row, f)}
  {
    assert row in rows + [row];
  }

  lemma GroupsStep(g: Groups, rows: seq<Row>, row: Row, f: seq<string>)
    requires Indexed(g, rows, f)
    ensures Indexed(g.Set(KeyOf(row, f), g.GetOrEmpty(KeyOf(row, f)) + [row]), rows + [row], f)
  {
    var id := KeyOf(row, f);
    var g' := g.Set(id, g.GetOrEmpty(id) + [row]);
    KeysSnoc(rows, row, f);
    RowsWithKeyEmpty(rows, f, id);
    forall k | k in g'.rows ensures g'.rows[k] == RowsWithKey(rows + [row], f, k) {
      RowsWithKeySnoc(rows, row, f, k);
    }
  }

  lemma IterableStep(g: Groups, id: Key, rs: seq<Row>)
    requires Iterable(g)
    ensures Iterable(g.Set(id, rs))
  {
  }

  method GroupRows(rows: seq<Row>, f: seq<string>) returns (g: Groups)
    ensures Indexed(g, rows, f) && Iterable(g)
  {
    g := Groups([], map[]);
    for i := 0 to |rows|
      invariant Indexed(g, rows[..i], f) && Iterable(g)
    {
      assert rows[..i + 1] == rows[..i] + [rows[i]];
      GroupsStep(g, rows[..i], rows[i], f);
      var id := KeyOf(rows[i], f);
      IterableStep(g, id, g.GetOrEmpty(id) + [rows[i]]);
      g := g.Set(id, g.GetOrEmpty(id) + [rows[i]]);
    }
    assert rows[..|rows|] == rows;
  }

  function SerializeAll(rows: seq<Row>, stable: Row -> string): seq<string> {
    seq(|rows|, i requires 0 <= i < |rows| => stable(rows[i]))
  }

  lemma {:induction false} SerializeMultiplicity(rows: seq<Row>, stable: Row -> string, row: Row)
    requires Injective(stable)
    ensures multiset(SerializeAll(rows, stable))[stable(row)] == multiset(rows)[row]
  {
    if rows == [] {
      assert SerializeAll(rows, stable) == [];
    } else {
      SerializeMultiplicity(rows[1..], stable, row);
      assert rows == [rows[0]] + rows[1..];
      assert SerializeAll(rows, stable) == [stable(rows[0])] + SerializeAll(rows[1..], stable);
    }
  }

  lemma SerializedFrom(rows: seq<Row>, stable: Row -> string, s: string)
    ensures s in SerializeAll(rows, stable) ==> exists row :: row in rows && s == stable(row)
  {
  }

  lemma SameRowsSerializeAlike(a: seq<Row>, b: seq<Row>, stable: Row -> string, s: string)
    requires Injective(stable) && SameRows(a, b)
    ensures multiset(SerializeAll(a, stable))[s] == multiset(SerializeAll(b, stable))[s]
  {
    SerializedFrom(a, stable, s);
    SerializedFrom(b, stable, s);
    if s in SerializeAll(a, stable) || s in SerializeAll(b, stable) {
      var row :| s == stable(row);
      SerializeMultiplicity(a, stable, row);
      SerializeMultiplicity(b, stable, row);
    }
  }

  lemma SerializationsTellApart(a: seq<Row>, b: seq<Row>, stable: Row -> string)
    requires Injective(stable) && multiset(SerializeAll(a, stable)) == multiset(SerializeAll(b, stable))
    ensures SameRows(a, b)
  {
    forall row ensures multiset(a)[row] == multiset(b)[row] {
      SerializeMultiplicity(a, stable, row);
      SerializeMultiplicity(b, stable, row);
    }
  }

  /** Comparing sorted serializations decides equality of row multisets. */
  lemma SerializationsDecide(a: seq<Row>, b: seq<Row>, stable: Row -> string)
    requires Injective(stable)
    ensures Sort(SerializeAll(a, stable), LexLe) == Sort(SerializeAll(b, stable), LexLe) <==> SameRows(a, b)
  {
    LexIsTotalOrder();
    var sa, sb := SerializeAll(a, stable), SerializeAll(b, stable);
    SortedCopiesDecideMultisets(sa, sb, LexLe);
    if SameRows(a, b) {
      forall s ensures multiset(sa)[s] == multiset(sb)[s] {
        SameRowsSerializeAlike(a, b, stable, s);
      }
    } else if multiset(sa) == multiset(sb) {
      SerializationsTellApart(a, b, stable);
    }
  }

  datatype Change = Missing | Unexpected | Changed

  datatype DriftExample = DriftExample(change: Change, key: Key)

  datatype CatalogDifference = CatalogDifference(
    catalog: CatalogGroup, missing: nat, unexpected: nat, changed: nat,
    examples: seq<DriftExample>, examplesTruncated: bool)

  datatype CandidateDrift = CandidateDrift(migration: string, differenceCount: nat, groups: seq<CatalogDifference>)

  lemma {:induction false} RowsInAddKey(rows: seq<Row>, f: seq<string>, ks: set<Key>, k: Key)
    requires k !in ks
    ensures |RowsIn(rows, f, ks + {k})| == |RowsIn(rows, f, ks)| + |RowsWithKey(rows, f, k)|
  {
    if rows != [] {
      RowsInAddKey(rows[1..], f, ks, k);
    }
  }

  lemma TakeOneMore<T>(order: seq<T>, i: nat)
    requires i < |order| && Distinct(order)
    ensures order[..i + 1] == order[..i] + [order[i]]
    ensures order[i] !in order[..i]
  {
  }

  /** The wanted ones among the first `i` keys, in visiting order. */
  ghost function Hits(order: seq<Key>, i: nat, wanted: set<Key>): set<Key>
    requires i <= |order|
  {
    if i == 0 then {}
    else if order[i - 1] in wanted then Hits(order, i - 1, wanted) + {order[i - 1]}
    else Hits(order, i - 1, wanted)
  }

  lemma {:induction false} HitsArePrefix(order: seq<Key>, i: nat, wanted: set<Key>)
    requires i <= |order|
    ensures forall k :: k in Hits(order, i, wanted) <==> k in wanted && k in order[..i]
  {
    if i > 0 {
      HitsArePrefix(order, i - 1, wanted);
      assert order[..i] == order[..i - 1] + [order[i - 1]];
    }
  }

  lemma HitsCount(order: seq<Key>, i: nat, wanted: set<Key>)
    requires i < |order| && Distinct(order)
    ensures |Hits(order, i + 1, wanted)| == |Hits(order, i, wanted)| + if order[i] in wanted then 1 else 0
  {
    HitsArePrefix(order, i, wanted);
    TakeOneMore(order, i);
  }

  lemma HitsRows(order: seq<Key>, i: nat, wanted: set<Key>, rows: seq<Row>, f: seq<string>)
    requires i < |order| && Distinct(order)
    ensures |RowsIn(rows, f, Hits(order, i + 1, wanted))|
      == |RowsIn(rows, f, Hits(order, i, wanted))|
       + if order[i] in wanted then |RowsWithKey(rows, f, order[i])| else 0
  {
    HitsArePrefix(order, i, wanted);
    TakeOneMore(order, i);
    if order[i] in wanted {
      RowsInAddKey(rows, f, Hits(order, i, wanted), order[i]);
    }
  }

  lemma {:induction false} AllHits(g: Groups, rows: seq<Row>, f: seq<string>, wanted: set<Key>)
    requires Indexed(g, rows, f) && Iterable(g) && wanted <= Keys(rows, f)
    ensures Hits(g.order, |g.order|, wanted) == wanted
  {
    HitsArePrefix(g.order, |g.order|, wanted);
    assert g.order[..|g.order|] == g.order;
    assert forall k :: k in wanted ==> k in g.rows;
  }

  /** What the comparison looks at: the sorted serializations of some rows. */
  function Sorted(rows: seq<Row>, stable: Row -> string): seq<string> {
    Sort(SerializeAll(rows, stable), LexLe)
  }

  /** The two tests of the first pass, in terms of the reference sets. */
  lemma {:induction false} ExpectedTests(
      expected: seq<Row>, actual: seq<Row>, f: seq<string>, before: Groups, after: Groups, stable: Row -> string,
      id: Key)
    requires Injective(stable)
    requires Indexed(before, expected, f) && Indexed(after, actual, f) && id in before.rows
    ensures before.rows[id] == RowsWithKey(expected, f, id)
    ensures id in Keys(expected, f) - Keys(actual, f) <==> id !in after.rows
    ensures id in ChangedKeys(expected, actual, f)
      <==> id in after.rows && Sorted(before.rows[id], stable) != Sorted(after.rows[id], stable)
  {
    if id in after.rows {
      SerializationsDecide(before.rows[id], after.rows[id], stable);
    }
  }

  /** Rows of the first `i` keys of `g` that `other` does not have, and how many such keys. */
  ghost function RowsAbsent(g: Groups, other: Groups, i: nat): nat
    requires i <= |g.order|
  {
    if i == 0 then 0
    else RowsAbsent(g, other, i - 1) + if g.order[i - 1] in other.rows then 0 else |g.GetOrEmpty(g.order[i - 1])|
  }

  ghost function KeysAbsent(g: Groups, other: Groups, i: nat): nat
    requires i <= |g.order|
  {
    if i == 0 then 0 else KeysAbsent(g, other, i - 1) + if g.order[i - 1] in other.rows then 0 else 1
  }

  /** Held on both sides, with different sorted serializations. */
  ghost predicate Modified(g: Groups, other: Groups, stable: Row -> string, k: Key) {
    k in other.rows && Sorted(g.GetOrEmpty(k), stable) != Sorted(other.GetOrEmpty(k), stable)
  }

  ghost function KeysModified(g: Groups, other: Groups, stable: Row -> string, i: nat): nat
    requires i <= |g.order|
  {
    if i == 0 then 0
    else KeysModified(g, other, stable, i - 1) + if Modified(g, other, stable, g.order[i - 1]) then 1 else 0
  }

  /** Each key is visited once, with its rows, and `absent` are those that `other` does not have. */
  ghost predicate Visits(g: Groups, other: Groups, a: seq<Row>, f: seq<string>, absent: set<Key>) {
    && Distinct(g.order)
    && (forall i :: 0 <= i < |g.order| ==>
          && (g.order[i] in absent <==> g.order[i] !in other.rows)
          && g.GetOrEmpty(g.order[i]) == RowsWithKey(a, f, g.order[i]))
  }

  lemma IndexedVisits(g: Groups, other: Groups, a: seq<Row>, b: seq<Row>, f: seq<string>)
    requires Indexed(g, a, f) && Iterable(g) && Indexed(other, b, f)
    ensures Visits(g, other, a, f, Keys(a, f) - Keys(b, f))
  {
    assert forall i :: 0 <= i < |g.order| ==> g.order[i] in g.rows;
  }

  lemma {:induction false} AbsentKeysAreHits(
      g: Groups, other: Groups, i: nat, a: seq<Row>, f: seq<string>, absent: set<Key>)
    requires Visits(g, other, a, f, absent) && i <= |g.order|
    ensures KeysAbsent(g, other, i) == |Hits(g.order, i, absent)|
  {
    if i > 0 {
      AbsentKeysAreHits(g, other, i - 1, a, f, absent);
      HitsCount(g.order, i - 1, absent);
    }
  }

  lemma {:induction false} AbsentRowsAreHits(
      g: Groups, other: Groups, i: nat, a: seq<Row>, f: seq<string>, absent: set<Key>)
    requires Visits(g, other, a, f, absent) && i <= |g.order|
    ensures RowsAbsent(g, other, i) == |RowsIn(a, f, Hits(g.order, i, absent))|
  {
    if i == 0 {
      RowsInEmpty(a, f, {});
    } else {
      AbsentRowsAreHits(g, other, i - 1, a, f, absent);
      HitsRows(g.order, i - 1, absent, a, f);
    }
  }

  lemma {:induction false} AbsentCounts(g: Groups, other: Groups, a: seq<Row>, b: seq<Row>, f: seq<string>)
    requires Indexed(g, a, f) && Iterable(g) && Indexed(other, b, f)
    ensures RowsAbsent(g, other, |g.order|) == Unmatched(a, b, f)
    ensures KeysAbsent(g, other, |g.order|) == |Keys(a, f) - Keys(b, f)|
  {
    var absent := Keys(a, f) - Keys(b, f);
    IndexedVisits(g, other, a, b, f);
    AbsentKeysAreHits(g, other, |g.order|, a, f, absent);
    AbsentRowsAreHits(g, other, |g.order|, a, f, absent);
    AllHits(g, a, f, absent);
  }

  lemma {:induction false} ModifiedAreHits(g: Groups, other: Groups, stable: Row -> string, i: nat, changed: set<Key>)
    requires Distinct(g.order) && i <= |g.order|
    requires forall j :: 0 <= j < |g.order| ==> (g.order[j] in changed <==> Modified(g, other, stable, g.order[j]))
    ensures KeysModified(g, other, stable, i) == |Hits(g.order, i, changed)|
  {
    if i > 0 {
      ModifiedAreHits(g, other, stable, i - 1, changed);
      HitsCount(g.order, i - 1, changed);
    }
  }

  lemma {:induction false} ModifiedCount(
      g: Groups, other: Groups, stable: Row -> string, a: seq<Row>, b: seq<Row>, f: seq<string>)
    requires Injective(stable)
    requires Indexed(g, a, f) && Iterable(g) && Indexed(other, b, f)
    ensures KeysModified(g, other, stable, |g.order|) == |ChangedKeys(a, b, f)|
  {
    var changed := ChangedKeys(a, b, f);
    forall j | 0 <= j < |g.order| ensures g.order[j] in changed <==> Modified(g, other, stable, g.order[j]) {
      assert g.order[j] in g.rows;
      ExpectedTests(a, b, f, g, other, stable, g.order[j]);
    }
    ModifiedAreHits(g, other, stable, |g.order|, changed);
    AllHits(g, a, f, changed);
  }

  /** What an example says of the grouped rows. */
  ghost predicate Observed(d: DriftExample, before: Groups, after: Groups, stable: Row -> string) {
    match d.change
    case Missing => d.key in before.rows && d.key !in after.rows
    case Unexpected => d.key in after.rows && d.key !in before.rows
    case Changed =>
      && d.key in before.rows && d.key in after.rows
      && Sorted(before.GetOrEmpty(d.key), stable) != Sorted(after.GetOrEmpty(d.key), stable)
  }

  ghost predicate AllObserved(ds: seq<DriftExample>, before: Groups, after: Groups, stable: Row -> string) {
    forall i :: 0 <= i < |ds| ==> Observed(ds[i], before, after, stable)
  }

  /** The same, said of the rows themselves. */
  ghost predicate TrueOfRows(d: DriftExample, expected: seq<Row>, actual: seq<Row>, f: seq<string>) {
    match d.change
    case Missing => d.key in Keys(expected, f) - Keys(actual, f)
    case Unexpected => d.key in Keys(actual, f) - Keys(expected, f)
    case Changed => d.key in ChangedKeys(expected, actual, f)
  }

  lemma ObservedIsTrue(
      d: DriftExample, before: Groups, after: Groups, stable: Row -> string, expected: seq<Row>, actual: seq<Row>,
      f: seq<string>)
    requires Injective(stable) && Indexed(before, expected, f) && Indexed(after, actual, f)
    requires Observed(d, before, after, stable)
    ensures TrueOfRows(d, expected, actual, f)
  {
    if d.change == Changed { ExpectedTests(expected, actual, f, before, after, stable, d.key); }
  }

  /** Each example is about another one of the first `i` keys. */
  ghost predicate OnePerKey(ds: seq<DriftExample>, order: seq<Key>, i: nat)
    requires i <= |order|
  {
    && (forall k :: 0 <= k < |ds| ==> ds[k].key in order[..i])
    && forall k, m :: 0 <= k < m < |ds| ==> ds[k].key != ds[m].key
  }

  ghost predicate AllOfKind(ds: seq<DriftExample>, unexpected: bool) {
    forall k :: 0 <= k < |ds| ==> (ds[k].change == Unexpected <==> unexpected)
  }

  lemma OnePerKeyGrows(ds: seq<DriftExample>, order: seq<Key>, i: nat, d: DriftExample)
    requires i < |order| && Distinct(order) && OnePerKey(ds, order, i) && d.key == order[i]
    ensures OnePerKey(ds, order, i + 1) && OnePerKey(ds + [d], order, i + 1)
  {
    TakeOneMore(order, i);
    assert order[..i + 1][i] == order[i];
    var all := ds + [d];
    forall k | 0 <= k < |all| ensures all[k].key in order[..i + 1] && (k < |ds| ==> all[k].key != d.key) {
      if k < |ds| { assert all[k] == ds[k]; }
    }
  }

  /** The notes of the first pass on the first `i` keys. */
  ghost function NotesOnExpected(before: Groups, after: Groups, stable: Row -> string, i: nat): seq<DriftExample>
    requires i <= |before.order|
  {
    if i == 0 then []
    else
      var k := before.order[i - 1];
      NotesOnExpected(before, after, stable, i - 1)
      + if k !in after.rows then [DriftExample(Missing, k)]
        else if Modified(before, after, stable, k) then [DriftExample(Changed, k)] else []
  }

  ghost function NotesOnActual(before: Groups, after: Groups, i: nat): seq<DriftExample>
    requires i <= |after.order|
  {
    if i == 0 then []
    else
      NotesOnActual(before, after, i - 1)
      + if after.order[i - 1] !in before.rows then [DriftExample(Unexpected, after.order[i - 1])] else []
  }

  lemma {:induction false} NotesCount(before: Groups, after: Groups, stable: Row -> string, i: nat)
    requires i <= |before.order|
    ensures |NotesOnExpected(before, after, stable, i)|
      == KeysAbsent(before, after, i) + KeysModified(before, after, stable, i)
    ensures AllOfKind(NotesOnExpected(before, after, stable, i), false)
  {
    if i > 0 { NotesCount(before, after, stable, i - 1); }
  }

  lemma {:induction false} OtherNotesCount(before: Groups, after: Groups, i: nat)
    requires i <= |after.order|
    ensures |NotesOnActual(before, after, i)| == KeysAbsent(after, before, i)
    ensures AllOfKind(NotesOnActual(before, after, i), true)
  {
    if i > 0 { OtherNotesCount(before, after, i - 1); }
  }

  lemma {:induction false} NotesOnePerKey(before: Groups, after: Groups, stable: Row -> string, i: nat)
    requires i <= |before.order| && Distinct(before.order)
    ensures OnePerKey(NotesOnExpected(before, after, stable, i), before.order, i)
  {
    if i > 0 {
      var k := before.order[i - 1];
      NotesOnePerKey(before, after, stable, i - 1);
      OnePerKeyGrows(NotesOnExpected(before, after, stable, i - 1), before.order, i - 1, DriftExample(Missing, k));
      OnePerKeyGrows(NotesOnExpected(before, after, stable, i - 1), before.order, i - 1, DriftExample(Changed, k));
    }
  }

  lemma {:induction false} OtherNotesOnePerKey(before: Groups, after: Groups, i: nat)
    requires i <= |after.order| && Distinct(after.order)
    ensures OnePerKey(NotesOnActual(before, after, i), after.order, i)
  {
    if i > 0 {
      var k := after.order[i - 1];
      OtherNotesOnePerKey(before, after, i - 1);
      OnePerKeyGrows(NotesOnActual(before, after, i - 1), after.order, i - 1, DriftExample(Unexpected, k));
    }
  }

  lemma {:induction false} NotesObserved(before: Groups, after: Groups, stable: Row -> string, i: nat)
    requires i <= |before.order| && Iterable(before)
    ensures AllObserved(NotesOnExpected(before, after, stable, i), before, after, stable)
  {
    if i > 0 {
      NotesObserved(before, after, stable, i - 1);
      assert before.order[i - 1] in before.order;
    }
  }

  lemma {:induction false} OtherNotesObserved(before: Groups, after: Groups, stable: Row -> string, i: nat)
    requires i <= |after.order| && Iterable(after)
    ensures AllObserved(NotesOnActual(before, after, i), before, after, stable)
  {
    if i > 0 {
      OtherNotesObserved(before, after, stable, i - 1);
      assert after.order[i - 1] in after.order;
    }
  }

  /** The first pass: rows whose key is gone, and keys whose rows changed. */
  method PassOverExpected(before: Groups, after: Groups, stable: Row -> string)
    returns (missing: nat, changed: nat, differences: seq<DriftExample>)
    ensures missing == RowsAbsent(before, after, |before.order|)
    ensures changed == KeysModified(before, after, stable, |before.order|)
    ensures differences == NotesOnExpected(before, after, stable, |before.order|)
  {
    missing, changed, differences := 0, 0, [];
    for i := 0 to |before.order|
      invariant missing == RowsAbsent(before, after, i)
      invariant changed == KeysModified(before, after, stable, i)
      invariant differences == NotesOnExpected(before, after, stable, i)
    {
      var id := before.order[i];
      var rows := before.GetOrEmpty(id);
      if id !in after.rows {
        missing := missing + |rows|;
        differences := differences + [DriftExample(Missing, id)];
      } else if Sorted(rows, stable) != Sorted(after.GetOrEmpty(id), stable) {
        changed := changed + 1;
        differences := differences + [DriftExample(Changed, id)];
      }
    }
  }

  /** The second pass: rows whose key was not expected. */
  method PassOverActual(before: Groups, after: Groups) returns (unexpected: nat, differences: seq<DriftExample>)
    ensures unexpected == RowsAbsent(after, before, |after.order|)
    ensures differences == NotesOnActual(before, after, |after.order|)
  {
    unexpected, differences := 0, [];
    for i := 0 to |after.order|
      invariant unexpected == RowsAbsent(after, before, i)
      invariant differences == NotesOnActual(before, after, i)
    {
      var id := after.order[i];
      if id !in before.rows {
        unexpected := unexpected + |after.GetOrEmpty(id)|;
        differences := differences + [DriftExample(Unexpected, id)];
      }
    }
  }

  /** Every example is true of the rows. */
  ghost predicate AllTrue(ds: seq<DriftExample>, expected: seq<Row>, actual: seq<Row>, f: seq<string>) {
    ds == [] || (TrueOfRows(ds[|ds| - 1], expected, actual, f) && AllTrue(ds[..|ds| - 1], expected, actual, f))
  }

  lemma {:induction false} AllObservedAreTrue(
      ds: seq<DriftExample>, before: Groups, after: Groups, stable: Row -> string, expected: seq<Row>,
      actual: seq<Row>, f: seq<string>)
    requires Injective(stable) && Indexed(before, expected, f) && Indexed(after, actual, f)
    requires AllObserved(ds, before, after, stable)
    ensures AllTrue(ds, expected, actual, f)
  {
    if ds != [] {
      AllObservedAreTrue(ds[..|ds| - 1], before, after, stable, expected, actual, f);
      ObservedIsTrue(ds[|ds| - 1], before, after, stable, expected, actual, f);
    }
  }

  lemma {:induction false} FirstAreTrue(
      ds: seq<DriftExample>, n: nat, expected: seq<Row>, actual: seq<Row>, f: seq<string>)
    requires n <= |ds| && AllTrue(ds, expected, actual, f)
    ensures AllTrue(ds[..n], expected, actual, f)
    decreases |ds|
  {
    if n < |ds| {
      FirstAreTrue(ds[..|ds| - 1], n, expected, actual, f);
      assert ds[..|ds| - 1][..n] == ds[..n];
    } else {
      assert ds[..n] == ds;
    }
  }

  /** No difference is noted exactly when the rows are the same. */
  lemma NothingNoted(expected: seq<Row>, actual: seq<Row>, f: seq<string>)
    ensures |Keys(expected, f) - Keys(actual, f)| + |ChangedKeys(expected, actual, f)|
      + |Keys(actual, f) - Keys(expected, f)| == 0
      <==> SameRows(expected, actual)
  {
    NoUnmatched(expected, actual, f);
    NoUnmatched(actual, expected, f);
    GroupDifferenceZero(expected, actual, f);
    NothingFound(Keys(expected, f), Keys(actual, f));
    NothingFound(Keys(actual, f), Keys(expected, f));
  }

  lemma {:induction false} AllTrueJoin(
      a: seq<DriftExample>, b: seq<DriftExample>, expected: seq<Row>, actual: seq<Row>, f: seq<string>)
    requires AllTrue(a, expected, actual, f) && AllTrue(b, expected, actual, f)
    ensures AllTrue(a + b, expected, actual, f)
  {
    if b == [] {
      assert a + b == a;
    } else {
      AllTrueJoin(a, b[..|b| - 1], expected, actual, f);
      assert (a + b)[..|a + b| - 1] == a + b[..|b| - 1];
    }
  }

  /** How many keys differ: those on one side only, and those whose rows changed. */
  function DifferingKeys(expected: seq<Row>, actual: seq<Row>, f: seq<string>): nat {
    |Keys(expected, f) - Keys(actual, f)| + |Keys(actual, f) - Keys(expected, f)| + |ChangedKeys(expected, actual, f)|
  }

  lemma DistinctJoin(a: seq<DriftExample>, b: seq<DriftExample>, first: seq<Key>, second: seq<Key>)
    requires OnePerKey(a, first, |first|) && OnePerKey(b, second, |second|) && AllOfKind(a, false) && AllOfKind(b, true)
    ensures Distinct(a + b)
  {
    var all := a + b;
    forall i, j | 0 <= i < j < |all| ensures all[i] != all[j] {
      if j < |a| {
        assert a[i].key != a[j].key;
      } else if i < |a| {
        assert all[i] == a[i] && all[j] == b[j - |a|];
      } else {
        assert b[i - |a|].key != b[j - |a|].key;
      }
    }
  }

  /** Group both sides, and note every difference. */
  method NoteDifferences(f: seq<string>, expected: seq<Row>, actual: seq<Row>, stable: Row -> string)
    returns (missing: nat, unexpected: nat, changed: nat, differences: seq<DriftExample>)
    requires Injective(stable)
    ensures missing == Unmatched(expected, actual, f) && unexpected == Unmatched(actual, expected, f)
    ensures changed == |ChangedKeys(expected, actual, f)|
    ensures differences == [] <==> SameRows(expected, actual)
    ensures |differences| == DifferingKeys(expected, actual, f) && Distinct(differences)
    ensures AllTrue(differences, expected, actual, f)
  {
    var before := GroupRows(expected, f);
    var after := GroupRows(actual, f);
    var lost, found;
    missing, changed, lost := PassOverExpected(before, after, stable);
    unexpected, found := PassOverActual(before, after);
    NotesCount(before, after, stable, |before.order|);
    OtherNotesCount(before, after, |after.order|);
    NotesObserved(before, after, stable, |before.order|);
    OtherNotesObserved(before, after, stable, |after.order|);
    NotesOnePerKey(before, after, stable, |before.order|);
    OtherNotesOnePerKey(before, after, |after.order|);
    AbsentCounts(before, after, expected, actual, f);
    AbsentCounts(after, before, actual, expected, f);
    ModifiedCount(before, after, stable, expected, actual, f);
    NothingNoted(expected, actual, f);
    AllObservedAreTrue(lost, before, after, stable, expected, actual, f);
    AllObservedAreTrue(found, before, after, stable, expected, actual, f);
    AllTrueJoin(lost, found, expected, actual, f);
    DistinctJoin(lost, found, before.order, after.order);
    differences := lost + found;
  }

  /** The counts are those of the rows. */
  ghost predicate Exact(d: CatalogDifference, expected: seq<Row>, actual: seq<Row>, f: seq<string>) {
    && d.missing == Unmatched(expected, actual, f)
    && d.unexpected == Unmatched(actual, expected, f)
    && d.changed == |ChangedKeys(expected, actual, f)|
  }

  /** One catalog group. Its counts are stated on rows; one example is kept for each key that differs,
      up to five, and each says what is true of the rows. */
  method CompareGroup(
      catalog: CatalogGroup, f: seq<string>, expected: seq<Row>, actual: seq<Row>, stable: Row -> string)
    returns (d: CatalogDifference, differs: bool)
    requires Injective(stable)
    ensures d.catalog == catalog && Exact(d, expected, actual, f)
    ensures differs <==> !SameRows(expected, actual)
    ensures |d.examples| == Min(5, DifferingKeys(expected, actual, f)) && Distinct(d.examples)
    ensures d.examplesTruncated <==> DifferingKeys(expected, actual, f) > 5
    ensures differs <==> d.examples != []
    ensures AllTrue(d.examples, expected, actual, f)
  {
    var missing, unexpected, changed, differences := NoteDifferences(f, expected, actual, stable);
    differs := differences != [];
    FirstAreTrue(differences, Min(5, |differences|), expected, actual, f);
    assert |differences| < 5 ==> differences[..|differences|] == differences;
    d := CatalogDifference(catalog, missing, unexpected, changed,
                           if |differences| < 5 then differences else differences[..5], |differences| > 5);
  }

  lemma NothingFound(a: set<Key>, b: set<Key>)
    ensures |a - b| == 0 <==> a <= b
  {
    if a - b == {} {
      assert forall k :: k in a ==> k in a - b || k in b;
    }
  }

  function Total(d: CatalogDifference): nat {
    d.missing + d.unexpected + d.changed
  }

  function SumOf(groups: seq<CatalogDifference>): nat {
    if groups == [] then 0 else SumOf(groups[..|groups| - 1]) + Total(groups[|groups| - 1])
  }

  function Catalogs(groups: seq<CatalogDifference>): seq<CatalogGroup> {
    if groups == [] then [] else Catalogs(groups[..|groups| - 1]) + [groups[|groups| - 1].catalog]
  }

  lemma {:induction false} SumSnoc(groups: seq<CatalogDifference>, d: CatalogDifference)
    ensures SumOf(groups + [d]) == SumOf(groups) + Total(d)
    ensures Catalogs(groups + [d]) == Catalogs(groups) + [d.catalog]
  {
    assert (groups + [d])[..|groups|] == groups;
  }

  /** The groups that differ, in listing order. */
  ghost function Differing(expected: Snapshot, actual: Snapshot, gs: seq<CatalogGroup>): seq<CatalogGroup> {
    if gs == [] then []
    else
      var g := gs[|gs| - 1];
      Differing(expected, actual, gs[..|gs| - 1]) + if SameIn(expected, actual, g) then [] else [g]
  }

  lemma {:induction false} DifferingAreListed(
      expected: Snapshot, actual: Snapshot, gs: seq<CatalogGroup>, g: CatalogGroup)
    ensures g in Differing(expected, actual, gs) <==> g in gs && !SameIn(expected, actual, g)
  {
    if gs != [] {
      DifferingAreListed(expected, actual, gs[..|gs| - 1], g);
      assert gs == gs[..|gs| - 1] + [gs[|gs| - 1]];
    }
  }

  lemma {:induction false} OneMoreGroup(
      expected: Snapshot, actual: Snapshot, gs: seq<CatalogGroup>, n: nat, keys: CatalogGroup -> seq<string>)
    requires n < |gs|
    ensures DifferenceOver(expected, actual, gs[..n + 1], keys)
         == DifferenceOver(expected, actual, gs[..n], keys)
          + GroupDifference(expected.Rows(gs[n]), actual.Rows(gs[n]), keys(gs[n]))
    ensures Differing(expected, actual, gs[..n + 1])
         == Differing(expected, actual, gs[..n]) + if SameIn(expected, actual, gs[n]) then [] else [gs[n]]
  {
    assert gs[..n + 1][..n] == gs[..n];
  }

  /** Every listed group is exact. */
  ghost predicate AllExact(
      groups: seq<CatalogDifference>, expected: Snapshot, actual: Snapshot, keys: CatalogGroup -> seq<string>)
  {
    groups == [] ||
    (var d := groups[|groups| - 1];
     && Exact(d, expected.Rows(d.catalog), actual.Rows(d.catalog), keys(d.catalog))
     && AllExact(groups[..|groups| - 1], expected, actual, keys))
  }

  /** One more group that differs: listed, its numbers added. */
  lemma {:induction false} ListGroup(
      groups: seq<CatalogDifference>, d: CatalogDifference, expected: Snapshot, actual: Snapshot,
      keys: CatalogGroup -> seq<string>)
    requires AllExact(groups, expected, actual, keys)
    requires Exact(d, expected.Rows(d.catalog), actual.Rows(d.catalog), keys(d.catalog))
    ensures AllExact(groups + [d], expected, actual, keys)
    ensures SumOf(groups + [d])
      == SumOf(groups) + GroupDifference(expected.Rows(d.catalog), actual.Rows(d.catalog), keys(d.catalog))
    ensures Catalogs(groups + [d]) == Catalogs(groups) + [d.catalog]
  {
    SumSnoc(groups, d);
    assert (groups + [d])[..|groups|] == groups;
  }

  /** Compare one catalog group and list it if it differs. */
  method CompareNext(
      groups: seq<CatalogDifference>, g: CatalogGroup, expected: Snapshot, actual: Snapshot,
      keys: CatalogGroup -> seq<string>, stable: Row -> string)
    returns (listed: seq<CatalogDifference>)
    requires Injective(stable) && AllExact(groups, expected, actual, keys)
    ensures AllExact(listed, expected, actual, keys)
    ensures SumOf(listed) == SumOf(groups) + GroupDifference(expected.Rows(g), actual.Rows(g), keys(g))
    ensures Catalogs(listed) == Catalogs(groups) + if SameIn(expected, actual, g) then [] else [g]
  {
    GroupDifferenceZero(expected.Rows(g), actual.Rows(g), keys(g));
    var d, differs := CompareGroup(g, keys(g), expected.Rows(g), actual.Rows(g), stable);
    if !differs { return groups; }
    ListGroup(groups, d, expected, actual, keys);
    return groups + [d];
  }

  /** The group by group pass, for any list of groups and key fields. */
  method CompareGroups(
      expected: Snapshot, actual: Snapshot, all: seq<CatalogGroup>, keys: CatalogGroup -> seq<string>,
      stable: Row -> string)
    returns (groups: seq<CatalogDifference>)
    requires Injective(stable)
    ensures SumOf(groups) == DifferenceOver(expected, actual, all, keys)
    ensures Catalogs(groups) == Differing(expected, actual, all)
    ensures AllExact(groups, expected, actual, keys)
  {
    groups := [];
    for n := 0 to |all|
      invariant SumOf(groups) == DifferenceOver(expected, actual, all[..n], keys)
      invariant Catalogs(groups) == Differing(expected, actual, all[..n])
      invariant AllExact(groups, expected, actual, keys)
    {
      OneMoreGroup(expected, actual, all, n, keys);
      groups := CompareNext(groups, all[n], expected, actual, keys, stable);
    }
    assert all[..|all|] == all;
  }

  /** The comparison of two snapshots. Its count is the row-level reference count,
      and it reports exactly the groups that differ. */
  method CompareCatalogs(expected: Snapshot, actual: Snapshot, migration: string, stable: Row -> string)
    returns (d: CandidateDrift)
    requires Injective(stable)
    ensures d.migration == migration
    ensures d.differenceCount == DifferenceCount(expected, actual)
    ensures d.differenceCount == 0 <==> SameCatalog(expected, actual)
    ensures forall g: CatalogGroup :: g in Catalogs(d.groups) <==> !SameIn(expected, actual, g)
    ensures AllExact(d.groups, expected, actual, KeyFields) && SumOf(d.groups) == d.differenceCount
  {
    var groups := CompareGroups(expected, actual, GROUPS, KeyFields, stable);
    forall g: CatalogGroup ensures g in Catalogs(groups) <==> !SameIn(expected, actual, g) {
      AllGroupsListed(g);
      DifferingAreListed(expected, actual, GROUPS, g);
    }
    ZeroDifferenceIsSameCatalog(expected, actual);
    d := CandidateDrift(migration, SumOf(groups), groups);
  }

  // ----- Diagnostics -----

  datatype BaselineDiagnostics = BaselineDiagnostics(nearest: seq<CandidateDrift>, comparisonAgainst: CandidateDrift)

  /** Fewer differences first; among equals the later migration first. */
  predicate NearerOrSame(a: CandidateDrift, b: CandidateDrift) {
    a.differenceCount < b.differenceCount
    || (a.differenceCount == b.differenceCount && LexLe(b.migration, a.migration))
  }

  function Diagnose(candidates: seq<CandidateDrift>): Option<BaselineDiagnostics> {
    var order := Sort(candidates, NearerOrSame);
    if order == [] then None
    else Some(BaselineDiagnostics(if |order| > 3 then order[..3] else order, order[0]))
  }

  lemma NearerIsPreorder()
    ensures TotalPreorder(NearerOrSame)
  {
    LexIsTotalOrder();
    forall a: CandidateDrift, b: CandidateDrift ensures NearerOrSame(a, b) || NearerOrSame(b, a) {
      LexTotal(a.migration, b.migration);
    }
    forall a, b, c | NearerOrSame(a, b) && NearerOrSame(b, c) ensures NearerOrSame(a, c) {
      if a.differenceCount == b.differenceCount == c.differenceCount {
        LexTransitive(c.migration, b.migration, a.migration);
      }
    }
  }

  /** An arrangement of the candidates, the nearer first. */
  ghost predicate ByNearness(order: seq<CandidateDrift>, candidates: seq<CandidateDrift>) {
    SortedBy(order, NearerOrSame) && multiset(order) == multiset(candidates)
  }

  /** Diagnostics list the first three of the candidates arranged by nearness, compare against the
      first, which no candidate is nearer than, and fail only when there is no candidate at all. */
  lemma DiagnosisIsNearest(candidates: seq<CandidateDrift>)
    ensures Diagnose(candidates).None? <==> candidates == []
    ensures Diagnose(candidates).Some? ==>
      var d := Diagnose(candidates).value;
      && d.comparisonAgainst in candidates
      && (forall c :: c in candidates ==>
            && d.comparisonAgainst.differenceCount <= c.differenceCount
            && (d.comparisonAgainst.differenceCount == c.differenceCount ==>
                  LexLe(c.migration, d.comparisonAgainst.migration)))
      && exists order :: ByNearness(order, candidates)
           && d.nearest == order[..Min(3, |order|)] && |d.nearest| == Min(3, |candidates|)
           && d.comparisonAgainst == d.nearest[0]
  {
    var order := Sort(candidates, NearerOrSame);
    NearerIsPreorder();
    SortSorts(candidates, NearerOrSame);
    assert ByNearness(order, candidates);
    assert order[..Min(3, |order|)] == if |order| > 3 then order[..3] else order;
    if candidates != [] {
      SameElements(order, candidates, order[0]);
      assert order[0] in candidates;
      forall c | c in candidates ensures NearerOrSame(order[0], c) {
        SameElements(order, candidates, c);
        var i :| 0 <= i < |order| && order[i] == c;
        LexTotal(c.migration, c.migration);
      }
    }
  }
}
