/** The verifier's work table as a value: a row per digest with two counters, and the three
    aggregates read from it. */
module WorkTable {
  import opened Base
  import opened RegistryModel

  datatype Side = Expected | Actual

  function RowAt(w: Work, h: string): WorkRow {
    if h in w then w[h] else WorkRow(0, 0)
  }

  /** INSERT ... ON CONFLICT DO UPDATE of one digest. */
  function AddOne(w: Work, h: string, side: Side): Work {
    var row := RowAt(w, h);
    w[h := if side == Expected then WorkRow(row.expected + 1, row.actual) else WorkRow(row.expected, row.actual + 1)]
  }

  /** The table holds exactly the two multisets. */
  ghost predicate Holds(w: Work, expected: multiset<string>, actual: multiset<string>) {
    forall h :: RowAt(w, h) == WorkRow(expected[h], actual[h])
  }

  lemma AddOneHolds(w: Work, h: string, side: Side, expected: multiset<string>, actual: multiset<string>)
    requires Holds(w, expected, actual)
    ensures side == Expected ==> Holds(AddOne(w, h, side), expected + multiset{h}, actual)
    ensures side == Actual ==> Holds(AddOne(w, h, side), expected, actual + multiset{h})
  {
    var w' := AddOne(w, h, side);
    forall x ensures RowAt(w', x) == if x == h then w'[h] else RowAt(w, x) {
    }
  }

  // ----- the aggregates -----

  function Gap(row: WorkRow): nat {
    if row.expected >= row.actual then row.expected - row.actual else row.actual - row.expected
  }

  /** SUM(ABS(expected_count - actual_count)) over the given rows. */
  function SumGaps(w: Work, keys: set<string>): nat
    requires keys <= w.Keys
  {
    if keys == {} then 0
    else
      var h := Least(keys);
      Gap(w[h]) + SumGaps(w, keys - {h})
  }

  function DifferenceCount(w: Work): nat { SumGaps(w, w.Keys) }

  function ActualDistinct(w: Work): nat { |set h | h in w && w[h].actual > 0| }

  function SourceIntersection(w: Work, m: Mappings, group: string): nat {
    |set h | h in w && w[h].actual > 0 && Key(group, h) in m|
  }

  ghost function Members(s: multiset<string>): set<string> { set h | h in s }

  lemma {:induction false} SumGapsMeaning(w: Work, keys: set<string>, e: multiset<string>, a: multiset<string>)
    requires keys <= w.Keys
    requires forall h :: h in keys ==> w[h] == WorkRow(e[h], a[h])
    requires forall h :: h !in keys ==> e[h] == 0 && a[h] == 0
    ensures SumGaps(w, keys) == |e - a| + |a - e|
  {
    if keys == {} {
      assert e == multiset{} && a == multiset{};
    } else {
      var h := Least(keys);
      var e', a' := e[h := 0], a[h := 0];
      SumGapsMeaning(w, keys - {h}, e', a');
      assert e - a == (e' - a')[h := (e - a)[h]];
      assert a - e == (a' - e')[h := (a - e)[h]];
    }
  }

  /** The three aggregates are exact: multiset difference in both directions, number of distinct
      actual digests, and number of those that are source keys of the group. */
  lemma AggregatesExact(w: Work, m: Mappings, group: string, e: multiset<string>, a: multiset<string>)
    requires Holds(w, e, a)
    ensures DifferenceCount(w) == |e - a| + |a - e|
    ensures DifferenceCount(w) == 0 <==> e == a
    ensures ActualDistinct(w) == |Members(a)|
    ensures SourceIntersection(w, m, group) == |Members(a) * KeysIn(m, group)|
  {
    assert forall h :: RowAt(w, h) == WorkRow(e[h], a[h]);
    SumGapsMeaning(w, w.Keys, e, a);
    SameBags(e, a);
    assert (set h | h in w && w[h].actual > 0) == Members(a) by {
      forall h ensures h in w && w[h].actual > 0 <==> h in Members(a) {
        assert RowAt(w, h).actual == a[h];
      }
    }
    assert (set h | h in w && w[h].actual > 0 && Key(group, h) in m) == Members(a) * KeysIn(m, group) by {
      forall h ensures (h in w && w[h].actual > 0 && Key(group, h) in m) <==> h in Members(a) * KeysIn(m, group) {
        assert RowAt(w, h).actual == a[h];
        assert h in KeysIn(m, group) <==> Key(group, h) in m;
      }
    }
  }
}
