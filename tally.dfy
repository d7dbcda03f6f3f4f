/** Per-test-type statistics, the `type_stats[test_type][...] += 1` loop that
    every report generator of the test platform runs over its results. */
module Tally {
  import opened Wrappers
  import opened PyValue

  /** How one test case ended. */
  datatype Outcome = Pass | Fail | Error

  /** `pass_rate`: 0 (printed "0%") when there is nothing to rate, else the
      percentage of passed cases, which the source prints rounded. */
  datatype PassRate = ZeroPercent | Percent(value: real)

  /** The summary block every runner returns. */
  datatype Summary = Summary(total: nat, passed: nat, failed: nat, rate: PassRate)

  /** The summary of `total` cases of which `passed` passed. */
  function MakeSummary(total: nat, passed: nat): (s: Summary)
    requires passed <= total
    ensures s.total == total && s.passed == passed && s.passed + s.failed == s.total
    ensures s.rate == ZeroPercent <==> total == 0
    ensures s.rate.Percent? ==> (0.0 <= s.rate.value <= 100.0
      && (s.rate.value == 100.0 <==> passed == total)
      && (s.rate.value == 0.0 <==> passed == 0))
  {
    Summary(total, passed, total - passed,
            if total > 0 then Percent(passed as real / total as real * 100.0) else ZeroPercent)
  }

  /** Counters kept for one test type. */
  datatype Stat = Stat(total: nat, passed: nat, failed: nat, errors: nat)

  const Zero := Stat(0, 0, 0, 0)

  /** One more result of the given outcome. */
  function Bump(s: Stat, o: Outcome): Stat {
    match o
    case Pass => s.(total := s.total + 1, passed := s.passed + 1)
    case Fail => s.(total := s.total + 1, failed := s.failed + 1)
    case Error => s.(total := s.total + 1, errors := s.errors + 1)
  }

  /** `if t not in stats: stats[t] = zero; stats[t] += outcome`. */
  function Record(table: Dict<Stat>, key: string, o: Outcome): Dict<Stat> {
    Set(table, key, Bump(Get(table, key).GetOr(Zero), o))
  }

  /** The statistics of a sequence of (test type, outcome) results. */
  function ByType(rows: seq<(string, Outcome)>): Dict<Stat>
    decreases |rows|
  {
    if rows == [] then []
    else
      var last := rows[|rows| - 1];
      Record(ByType(rows[..|rows| - 1]), last.0, last.1)
  }

  /** Number of results with the given outcome. */
  function Count(rows: seq<(string, Outcome)>, o: Outcome): (n: nat)
    ensures n <= |rows|
    decreases |rows|
  {
    if rows == [] then 0
    else Count(rows[..|rows| - 1], o) + (if rows[|rows| - 1].1 == o then 1 else 0)
  }

  lemma {:induction false} CountsAddUp(rows: seq<(string, Outcome)>)
    ensures Count(rows, Pass) + Count(rows, Fail) + Count(rows, Error) == |rows|
    decreases |rows|
  {
    if rows != [] { CountsAddUp(rows[..|rows| - 1]); }
  }

  /** A column of the statistics table. */
  datatype Column = Total | Passed | Failed | Errors

  function Col(s: Stat, c: Column): nat {
    match c
    case Total => s.total
    case Passed => s.passed
    case Failed => s.failed
    case Errors => s.errors
  }

  function Sum(table: Dict<Stat>, c: Column): nat {
    if table == [] then 0 else Col(table[0].1, c) + Sum(table[1..], c)
  }

  lemma {:induction false} SumAppend(a: Dict<Stat>, b: Dict<Stat>, c: Column)
    ensures Sum(a + b, c) == Sum(a, c) + Sum(b, c)
  {
    if a != [] {
      assert (a + b)[1..] == a[1..] + b;
      SumAppend(a[1..], b, c);
    } else {
      assert a + b == b;
    }
  }

  /** Overwriting an entry changes a column sum by the difference. */
  lemma {:induction false} SumSet(d: Dict<Stat>, k: string, v: Stat, c: Column)
    ensures Sum(Set(d, k, v), c) + Col(Get(d, k).GetOr(Zero), c) == Sum(d, c) + Col(v, c)
  {
    if d == [] {
    } else if d[0].0 == k {
      assert Set(d, k, v)[1..] == d[1..];
    } else {
      SumSet(d[1..], k, v, c);
      assert Set(d, k, v)[1..] == Set(d[1..], k, v);
    }
  }

  /** What the results contribute to a column. */
  function Expected(rows: seq<(string, Outcome)>, c: Column): nat {
    match c
    case Total => |rows|
    case Passed => Count(rows, Pass)
    case Failed => Count(rows, Fail)
    case Errors => Count(rows, Error)
  }

  /** Per-type totals add up to the number of results, and per-type counts of
      each outcome add up to the number of results with that outcome. */
  lemma {:induction false} ByTypeSums(rows: seq<(string, Outcome)>, c: Column)
    ensures Sum(ByType(rows), c) == Expected(rows, c)
    decreases |rows|
  {
    if rows != [] {
      var init := rows[..|rows| - 1];
      var last := rows[|rows| - 1];
      ByTypeSums(init, c);
      var t := ByType(init);
      SumSet(t, last.0, Bump(Get(t, last.0).GetOr(Zero), last.1), c);
    }
  }

  /** Every type's counters are consistent: outcomes add up to its total. */
  predicate Consistent(table: Dict<Stat>) {
    forall i :: 0 <= i < |table| ==>
      table[i].1.passed + table[i].1.failed + table[i].1.errors == table[i].1.total
  }

  lemma {:induction false} ConsistentSet(d: Dict<Stat>, k: string, v: Stat)
    requires Consistent(d) && v.passed + v.failed + v.errors == v.total
    ensures Consistent(Set(d, k, v))
  {
    if d != [] && d[0].0 != k {
      ConsistentSet(d[1..], k, v);
      assert Set(d, k, v) == [d[0]] + Set(d[1..], k, v);
    }
  }

  /** Every type's counters add up. */
  lemma {:induction false} ByTypeConsistent(rows: seq<(string, Outcome)>)
    ensures Consistent(ByType(rows))
    decreases |rows|
  {
    if rows != [] {
      var init := rows[..|rows| - 1];
      var last := rows[|rows| - 1];
      ByTypeConsistent(init);
      var t := ByType(init);
      var s := Get(t, last.0).GetOr(Zero);
      assert s.passed + s.failed + s.errors == s.total by {
        if HasKey(t, last.0) {
          var i :| 0 <= i < |t| && t[i] == (last.0, s);
        }
      }
      ConsistentSet(t, last.0, Bump(s, last.1));
    }
  }

  /** The test types occurring in the results. */
  function Types(rows: seq<(string, Outcome)>): set<string>
    decreases |rows|
  {
    if rows == [] then {} else Types(rows[..|rows| - 1]) + {rows[|rows| - 1].0}
  }

  lemma {:induction false} TypesOccur(rows: seq<(string, Outcome)>, k: string)
    ensures k in Types(rows) <==> exists i :: 0 <= i < |rows| && rows[i].0 == k
    decreases |rows|
  {
    if rows != [] {
      var init := rows[..|rows| - 1];
      TypesOccur(init, k);
      if exists i :: 0 <= i < |init| && init[i].0 == k {
        var i :| 0 <= i < |init| && init[i].0 == k;
        assert rows[i].0 == k;
      }
      if exists i :: 0 <= i < |rows| && rows[i].0 == k {
        var i :| 0 <= i < |rows| && rows[i].0 == k;
        if i < |init| { assert init[i].0 == k; }
      }
    }
  }

  /** Each test type has exactly one entry, and the types listed are those
      that occur in the results. */
  lemma {:induction false} ByTypeKeys(rows: seq<(string, Outcome)>)
    ensures DistinctKeys(ByType(rows))
    ensures forall k :: HasKey(ByType(rows), k) <==> k in Types(rows)
    decreases |rows|
  {
    if rows != [] {
      var init := rows[..|rows| - 1];
      var last := rows[|rows| - 1];
      ByTypeKeys(init);
      var t := ByType(init);
      SetKeys(t, last.0, Bump(Get(t, last.0).GetOr(Zero), last.1));
    }
  }

  /** Number of results of the given test type. */
  function CountKey(rows: seq<(string, Outcome)>, k: string): (n: nat)
    ensures n <= |rows|
    decreases |rows|
  {
    if rows == [] then 0
    else CountKey(rows[..|rows| - 1], k) + (if rows[|rows| - 1].0 == k then 1 else 0)
  }

  /** A type's total is the number of its results; a type with none has no
      entry. */
  lemma {:induction false} ByTypeTotal(rows: seq<(string, Outcome)>, k: string)
    ensures Get(ByType(rows), k).GetOr(Zero).total == CountKey(rows, k)
    decreases |rows|
  {
    if rows != [] {
      var init := rows[..|rows| - 1];
      var last := rows[|rows| - 1];
      ByTypeTotal(init, k);
      GetSet(ByType(init), last.0, Bump(Get(ByType(init), last.0).GetOr(Zero), last.1), k);
    }
  }

  lemma SetKeys(d: Dict<Stat>, k: string, v: Stat)
    requires DistinctKeys(d)
    ensures DistinctKeys(Set(d, k, v))
    ensures forall k2 :: HasKey(Set(d, k, v), k2) <==> HasKey(d, k2) || k2 == k
  {
    var r := Set(d, k, v);
    if HasKey(d, k) {
      forall k2 ensures HasKey(r, k2) <==> HasKey(d, k2) || k2 == k {
        if HasKey(r, k2) { var i :| 0 <= i < |r| && r[i].0 == k2; assert Keys(r)[i] == Keys(d)[i]; }
        if HasKey(d, k2) { var i :| 0 <= i < |d| && d[i].0 == k2; assert Keys(r)[i] == Keys(d)[i]; }
        if k2 == k { var i :| 0 <= i < |d| && d[i].0 == k; assert Keys(r)[i] == Keys(d)[i]; }
      }
      forall i, j | 0 <= i < j < |r| ensures r[i].0 != r[j].0 {
        assert Keys(r)[i] == Keys(d)[i] && Keys(r)[j] == Keys(d)[j];
      }
    } else {
      forall k2 ensures HasKey(r, k2) <==> HasKey(d, k2) || k2 == k {
        if HasKey(r, k2) { var i :| 0 <= i < |r| && r[i].0 == k2; if i < |d| { assert d[i].0 == k2; } }
        if HasKey(d, k2) { var i :| 0 <= i < |d| && d[i].0 == k2; assert r[i].0 == k2; }
        if k2 == k { assert r[|d|].0 == k; }
      }
    }
  }

  /** The statistics loop: find the type's entry (or append a fresh one) and
      bump its counters, one result at a time. */
  method TallyByType(rows: seq<(string, Outcome)>) returns (table: Dict<Stat>)
    ensures table == ByType(rows)
  {
    table := [];
    var i := 0;
    while i < |rows|
      invariant 0 <= i <= |rows|
      invariant table == ByType(rows[..i])
    {
      var j := FindKey(table, rows[i].0);
      RecordAt(table, j, rows[i].0, rows[i].1);
      if j < |table| {
        table := table[j := (rows[i].0, Bump(table[j].1, rows[i].1))];
      } else {
        table := table + [(rows[i].0, Bump(Zero, rows[i].1))];
      }
      ByTypeStep(rows, i);
      i := i + 1;
    }
    assert rows[..|rows|] == rows;
  }

  /** The index of the first entry with the key, or the length if none. */
  method FindKey(table: Dict<Stat>, key: string) returns (j: nat)
    ensures j <= |table| && (j < |table| ==> table[j].0 == key)
    ensures forall l :: 0 <= l < j ==> table[l].0 != key
  {
    j := 0;
    while j < |table| && table[j].0 != key
      invariant 0 <= j <= |table|
      invariant forall l :: 0 <= l < j ==> table[l].0 != key
    {
      j := j + 1;
    }
  }

  /** Recording at the first entry with the key bumps that entry in place;
      with no such entry it appends a fresh one. */
  lemma RecordAt(table: Dict<Stat>, j: nat, key: string, o: Outcome)
    requires j <= |table| && (j < |table| ==> table[j].0 == key)
    requires forall l :: 0 <= l < j ==> table[l].0 != key
    ensures j < |table| ==> Record(table, key, o) == table[j := (key, Bump(table[j].1, o))]
    ensures j == |table| ==> Record(table, key, o) == table + [(key, Bump(Zero, o))]
  {
    if j < |table| {
      GetSetFirst(table, j, key, Bump(table[j].1, o));
    } else {
      assert !HasKey(table, key);
    }
  }

  lemma ByTypeStep(rows: seq<(string, Outcome)>, i: nat)
    requires i < |rows|
    ensures ByType(rows[..i + 1]) == Record(ByType(rows[..i]), rows[i].0, rows[i].1)
  {
    assert rows[..i + 1][..i] == rows[..i];
  }

  /** Writing a key whose first occurrence is at `j` replaces entry `j`. */
  lemma {:induction false} GetSetFirst(d: Dict<Stat>, j: nat, k: string, v: Stat)
    requires j < |d| && d[j].0 == k
    requires forall l :: 0 <= l < j ==> d[l].0 != k
    ensures Get(d, k) == Some(d[j].1)
    ensures Set(d, k, v) == d[j := (k, v)]
  {
    if j > 0 {
      GetSetFirst(d[1..], j - 1, k, v);
      assert d[1..][j - 1 := (k, v)] == d[j := (k, v)][1..];
    }
  }
}
