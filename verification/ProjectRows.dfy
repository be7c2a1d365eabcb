/** The rows of the project list: how the replies of one refresh become the published list. */
module ProjectRows {
  import opened Wrappers
  import opened Ordering

  /** `key` is the repository's full name as UTF-16 code units, which is what QString compares. */
  datatype Repository = Repository(key: seq<int>, name: string, branch: string)

  datatype Run = Run(id: int, number: int, revision: string, health: string, status: string, created: int, updated: int)

  datatype Row = Row(repository: Repository, latest: Run, details: map<string, string>)

  /** What became of one runs request: a list that may be invalid or empty, or a failure. */
  datatype Answer = RunList(valid: bool, latest: Option<Run>) | Failure(error: string)

  const LOADED_FIELDS := {"duration", "jobsSummary", "artifactSize", "deployStatus"}

  // --- Specification --------------------------------------------------------

  predicate IsValid(a: Answer) {
    a.RunList? && a.valid
  }

  /** The row a reply contributes; a repository without runs contributes none. */
  function RowsOf(repository: Repository, a: Answer): seq<Row> {
    if a.RunList? && a.latest.Some? then [Row(repository, a.latest.value, map[])] else []
  }

  /** The reply to the request for the repository at `index`. */
  datatype Arrival = Arrival(index: nat, repository: Repository, answer: Answer)

  /** The rows in the order in which the replies arrived. */
  function Collected(arrivals: seq<Arrival>): seq<Row> {
    if arrivals == [] then []
    else
      var last := arrivals[|arrivals| - 1];
      Collected(arrivals[..|arrivals| - 1]) + RowsOf(last.repository, last.answer)
  }

  /** Latest execution first; equally late ones by key. */
  predicate RowLess(a: Row, b: Row) {
    if a.latest.updated == b.latest.updated then LexLess(a.repository.key, b.repository.key)
    else a.latest.updated > b.latest.updated
  }

  function IndexOf(rows: seq<Row>, key: seq<int>): (i: nat)
    ensures i <= |rows|
    ensures i < |rows| ==> rows[i].repository.key == key
    ensures forall k :: 0 <= k < i ==> rows[k].repository.key != key
  {
    if rows == [] || rows[0].repository.key == key then 0 else 1 + IndexOf(rows[1..], key)
  }

  /** A refreshed row keeps the details loaded for its predecessor. */
  function Retained(row: Row, previous: seq<Row>): Row {
    var i := IndexOf(previous, row.repository.key);
    if i < |previous|
    then row.(details := row.details + map f | f in LOADED_FIELDS && f in previous[i].details :: previous[i].details[f])
    else row
  }

  function RetainedAll(rows: seq<Row>, previous: seq<Row>): (r: seq<Row>)
    ensures |r| == |rows|
    ensures forall i :: 0 <= i < |rows| ==> r[i] == Retained(rows[i], previous)
  {
    seq(|rows|, i requires 0 <= i < |rows| => Retained(rows[i], previous))
  }

  /** The list a fully valid refresh publishes. */
  function Published(arrivals: seq<Arrival>, previous: seq<Row>): seq<Row> {
    RetainedAll(Sort(Collected(arrivals), RowLess), previous)
  }

  ghost predicate DistinctKeys(arrivals: seq<Arrival>) {
    forall i, j :: 0 <= i < j < |arrivals| ==> arrivals[i].repository.key != arrivals[j].repository.key
  }

  // --- The order of arrival does not matter ---------------------------------

  lemma RowLessIsStrict()
    ensures StrictOrder(RowLess)
  {
    forall x: Row ensures !RowLess(x, x) {
      LexIrreflexive(x.repository.key);
    }
    forall x, y, z | RowLess(x, y) && RowLess(y, z) ensures RowLess(x, z) {
      if x.latest.updated == y.latest.updated == z.latest.updated {
        LexTransitive(x.repository.key, y.repository.key, z.repository.key);
      }
    }
  }

  lemma {:induction false} CollectedConcat(a: seq<Arrival>, b: seq<Arrival>)
    ensures Collected(a + b) == Collected(a) + Collected(b)
  {
    if b == [] {
      assert a + b == a;
    } else {
      var front := b[..|b| - 1];
      assert (a + b)[..|a + b| - 1] == a + front;
      CollectedConcat(a, front);
    }
  }

  lemma CollectedOne(x: Arrival)
    ensures Collected([x]) == RowsOf(x.repository, x.answer)
  {
    assert [x][..0] == [];
  }

  lemma RemoveOne<T>(front: seq<T>, x: T, left: seq<T>, right: seq<T>)
    requires multiset(front + [x]) == multiset(left + [x] + right)
    ensures multiset(front) == multiset(left + right)
  {
    assert multiset(front + [x]) == multiset(front) + multiset{x};
    assert multiset(left + [x] + right) == multiset(left) + multiset{x} + multiset(right);
    assert multiset(left + right) == multiset(left) + multiset(right);
    assert multiset(front) == multiset(front + [x]) - multiset{x};
  }

  lemma {:induction false} CollectedPermuted(a: seq<Arrival>, b: seq<Arrival>)
    requires multiset(a) == multiset(b)
    ensures multiset(Collected(a)) == multiset(Collected(b))
  {
    hide RowsOf;
    SameMembers(a, b);
    if a != [] {
      var x, front := a[|a| - 1], a[..|a| - 1];
      assert a == front + [x] && x in b;
      var j :| 0 <= j < |b| && b[j] == x;
      var left, right := b[..j], b[j + 1..];
      assert b == left + [x] + right;
      RemoveOne(front, x, left, right);
      CollectedPermuted(front, left + right);
      CollectedConcat(left, right);
      CollectedConcat(left + [x], right);
      CollectedConcat(left, [x]);
      CollectedOne(x);
    }
  }

  lemma {:induction false} CollectedFrom(arrivals: seq<Arrival>, row: Row)
    requires row in Collected(arrivals)
    ensures exists i :: 0 <= i < |arrivals| && arrivals[i].repository == row.repository
  {
    if arrivals != [] {
      var front, last := arrivals[..|arrivals| - 1], arrivals[|arrivals| - 1];
      if row in Collected(front) {
        CollectedFrom(front, row);
        var i :| 0 <= i < |front| && front[i].repository == row.repository;
        assert arrivals[i] == front[i];
      } else {
        assert row in RowsOf(last.repository, last.answer);
      }
    }
  }

  /** No two rows of a list have the same key. */
  ghost predicate KeysDiffer(rows: seq<Row>) {
    forall i, j :: 0 <= i < j < |rows| ==> rows[i].repository.key != rows[j].repository.key
  }

  lemma {:induction false} CollectedKeysDiffer(arrivals: seq<Arrival>)
    requires DistinctKeys(arrivals)
    ensures KeysDiffer(Collected(arrivals))
  {
    if arrivals != [] {
      var front, last := arrivals[..|arrivals| - 1], arrivals[|arrivals| - 1];
      CollectedKeysDiffer(front);
      var before := Collected(front);
      forall i | 0 <= i < |before| ensures before[i].repository.key != last.repository.key {
        CollectedFrom(front, before[i]);
        var k :| 0 <= k < |front| && front[k].repository == before[i].repository;
        assert arrivals[k] == front[k];
      }
    }
  }

  lemma KeysComparable(rows: seq<Row>)
    requires KeysDiffer(rows)
    ensures Comparable(rows, RowLess)
  {
    forall i, j | 0 <= i < |rows| && 0 <= j < |rows| && i != j
      ensures RowLess(rows[i], rows[j]) || RowLess(rows[j], rows[i])
    {
      assert rows[if i < j then i else j].repository.key != rows[if i < j then j else i].repository.key;
      LexTotal(rows[i].repository.key, rows[j].repository.key);
    }
  }

  lemma DistinctPermuted(a: seq<Arrival>, b: seq<Arrival>)
    requires multiset(a) == multiset(b) && DistinctKeys(a)
    ensures DistinctKeys(b)
  {
    forall i, j | 0 <= i < j < |b| ensures b[i].repository.key != b[j].repository.key {
      SameMembers(a, b);
      assert b[i] in a && b[j] in a;
      var p :| 0 <= p < |a| && a[p] == b[i];
      var q :| 0 <= q < |a| && a[q] == b[j];
      if p == q {
        Twice(b, i, j);
        CountedOnce(a, p);
      }
    }
  }

  lemma Twice<T>(s: seq<T>, i: nat, j: nat)
    requires i < j < |s| && s[i] == s[j]
    ensures multiset(s)[s[i]] >= 2
  {
    assert s == s[..i] + [s[i]] + s[i + 1..j] + [s[j]] + s[j + 1..];
  }

  lemma OccursOnce<T>(s: seq<T>, p: nat)
    requires p < |s| && forall k :: 0 <= k < |s| && k != p ==> s[k] != s[p]
    ensures multiset(s)[s[p]] == 1
  {
    var left, right := s[..p], s[p + 1..];
    assert s == left + [s[p]] + right;
    assert s[p] !in left && s[p] !in right;
    assert multiset(left + [s[p]] + right) == multiset(left) + multiset{s[p]} + multiset(right);
  }

  lemma CountedOnce(s: seq<Arrival>, p: nat)
    requires DistinctKeys(s) && p < |s|
    ensures multiset(s)[s[p]] == 1
  {
    forall k | 0 <= k < |s| && k != p ensures s[k] != s[p] {
      assert s[if k < p then k else p].repository.key != s[if k < p then p else k].repository.key;
    }
    OccursOnce(s, p);
  }

  /** Whatever the order of arrival, the same replies publish the same list. */
  lemma ArrivalOrderIsIrrelevant(a: seq<Arrival>, b: seq<Arrival>, previous: seq<Row>)
    requires multiset(a) == multiset(b) && DistinctKeys(a)
    ensures Published(a, previous) == Published(b, previous)
  {
    hide RowLess, Collected;
    DistinctPermuted(a, b);
    CollectedKeysDiffer(a);
    CollectedKeysDiffer(b);
    KeysComparable(Collected(a));
    KeysComparable(Collected(b));
    CollectedPermuted(a, b);
    RowLessIsStrict();
    SortIgnoresOrder(Collected(a), Collected(b), RowLess);
  }

  lemma CollectedConcatFront(arrivals: seq<Arrival>, i: nat)
    requires i < |arrivals|
    ensures forall r :: r in RowsOf(arrivals[i].repository, arrivals[i].answer) ==> r in Collected(arrivals)
  {
    var left, x, right := arrivals[..i], arrivals[i], arrivals[i + 1..];
    assert arrivals == left + [x] + right;
    CollectedConcat(left + [x], right);
    CollectedConcat(left, [x]);
    CollectedOne(x);
  }

  /** The reply brought this run as the latest one of its repository. */
  predicate Brings(a: Arrival, row: Row) {
    a.answer.RunList? && a.answer.latest == Some(row.latest) && a.repository == row.repository
  }

  lemma {:induction false} CollectedBrought(arrivals: seq<Arrival>, row: Row)
    requires row in Collected(arrivals)
    ensures row.details == map[] && exists i :: 0 <= i < |arrivals| && Brings(arrivals[i], row)
  {
    if arrivals != [] {
      var front, last := arrivals[..|arrivals| - 1], arrivals[|arrivals| - 1];
      if row in Collected(front) {
        CollectedBrought(front, row);
        var i :| 0 <= i < |front| && Brings(front[i], row);
        assert arrivals[i] == front[i];
      } else {
        assert row in RowsOf(last.repository, last.answer);
        assert Brings(arrivals[|arrivals| - 1], row);
      }
    }
  }

  /**
   * The published list has the latest execution first and equally late ones by key, exactly one row for every reply
   * with runs, and none besides.
   */
  lemma PublishedIsSorted(arrivals: seq<Arrival>, previous: seq<Row>)
    requires DistinctKeys(arrivals)
    ensures var r := Published(arrivals, previous);
      forall i, j :: 0 <= i < j < |r| ==>
        && r[i].repository.key != r[j].repository.key
        && r[i].latest.updated >= r[j].latest.updated
        && (r[i].latest.updated == r[j].latest.updated ==> LexLess(r[i].repository.key, r[j].repository.key))
    ensures forall a :: a in arrivals && a.answer.RunList? && a.answer.latest.Some? ==>
      exists i :: 0 <= i < |Published(arrivals, previous)| && Brings(a, Published(arrivals, previous)[i])
    ensures forall r :: r in Published(arrivals, previous) ==>
      exists i :: 0 <= i < |arrivals| && Brings(arrivals[i], r)
  {
    hide Collected, Retained;
    var rows := Collected(arrivals);
    CollectedKeysDiffer(arrivals);
    KeysComparable(rows);
    RowLessIsStrict();
    SortAscending(rows, RowLess);
    var sorted := Sort(rows, RowLess);
    SameMembers(sorted, rows);
    var r := Published(arrivals, previous);
    forall i, j | 0 <= i < j < |r|
      ensures RowLess(r[i], r[j]) && r[i].repository.key != r[j].repository.key
    {
      assert RowLess(sorted[i], sorted[j]);
      RetainedSameRun(sorted[i], previous);
      RetainedSameRun(sorted[j], previous);
      LexIrreflexive(r[i].repository.key);
      SortedKeysDiffer(rows, sorted, i, j);
    }
    forall a | a in arrivals && a.answer.RunList? && a.answer.latest.Some?
      ensures exists i :: 0 <= i < |r| && Brings(a, r[i])
    {
      var k :| 0 <= k < |arrivals| && arrivals[k] == a;
      CollectedConcatFront(arrivals, k);
      var row := Row(a.repository, a.answer.latest.value, map[]);
      assert row in rows;
      var i :| 0 <= i < |sorted| && sorted[i] == row;
      RetainedSameRun(row, previous);
      assert Brings(a, r[i]);
    }
    forall x | x in r ensures exists i :: 0 <= i < |arrivals| && Brings(arrivals[i], x) {
      var i :| 0 <= i < |r| && r[i] == x;
      assert sorted[i] in rows;
      CollectedBrought(arrivals, sorted[i]);
      var k :| 0 <= k < |arrivals| && Brings(arrivals[k], sorted[i]);
      RetainedSameRun(sorted[i], previous);
      assert Brings(arrivals[k], x);
    }
  }

  lemma RetainedSameRun(row: Row, previous: seq<Row>)
    ensures Retained(row, previous).repository == row.repository && Retained(row, previous).latest == row.latest
  {
  }

  lemma SortedKeysDiffer(rows: seq<Row>, sorted: seq<Row>, i: nat, j: nat)
    requires KeysDiffer(rows) && multiset(sorted) == multiset(rows) && i < j < |sorted|
    ensures sorted[i].repository.key != sorted[j].repository.key
  {
    SameMembers(sorted, rows);
    assert sorted[i] in rows && sorted[j] in rows;
    var p :| 0 <= p < |rows| && rows[p] == sorted[i];
    var q :| 0 <= q < |rows| && rows[q] == sorted[j];
    if p == q {
      Twice(sorted, i, j);
      RowCountedOnce(rows, p);
    } else {
      assert rows[if p < q then p else q].repository.key != rows[if p < q then q else p].repository.key;
    }
  }

  lemma RowCountedOnce(rows: seq<Row>, p: nat)
    requires KeysDiffer(rows) && p < |rows|
    ensures multiset(rows)[rows[p]] == 1
  {
    forall k | 0 <= k < |rows| && k != p ensures rows[k] != rows[p] {
      assert rows[if k < p then k else p].repository.key != rows[if k < p then p else k].repository.key;
    }
    OccursOnce(rows, p);
  }

  /** Of the details of the row with the same key exactly the four loaded ones live on. */
  lemma DetailsSurvive(arrivals: seq<Arrival>, previous: seq<Row>, i: nat, p: nat)
    requires i < |Published(arrivals, previous)| && p < |previous|
    requires forall q :: 0 <= q < |previous| && q != p ==> previous[q].repository.key != previous[p].repository.key
    requires previous[p].repository.key == Published(arrivals, previous)[i].repository.key
    ensures var now, before := Published(arrivals, previous)[i].details, previous[p].details;
      && (forall f :: f in now <==>
            f in before && (f == "duration" || f == "jobsSummary" || f == "artifactSize" || f == "deployStatus"))
      && forall f :: f in now ==> now[f] == before[f]
  {
    hide Collected;
    var rows := Collected(arrivals);
    var sorted := Sort(rows, RowLess);
    SameMembers(sorted, rows);
    assert sorted[i] in rows;
    CollectedBrought(arrivals, sorted[i]);
    RetainedSameRun(sorted[i], previous);
    assert IndexOf(previous, sorted[i].repository.key) == p;
  }

  // --- The loops ------------------------------------------------------------

  method RetainLoadedProjectDetails(rows: seq<Row>, previous: seq<Row>) returns (refreshed: seq<Row>)
    ensures refreshed == RetainedAll(rows, previous)
  {
    refreshed := rows;
    for i := 0 to |rows|
      invariant |refreshed| == |rows|
      invariant forall k :: 0 <= k < |rows| ==> refreshed[k] == if k < i then Retained(rows[k], previous) else rows[k]
    {
      var at := IndexOf(previous, rows[i].repository.key);
      if at < |previous| {
        var kept := map f | f in LOADED_FIELDS && f in previous[at].details :: previous[at].details[f];
        refreshed := refreshed[i := refreshed[i].(details := refreshed[i].details + kept)];
      }
    }
  }

  /** The index of the selected key, or the first row when it is gone. */
  method FindSelected(rows: seq<Row>, key: seq<int>) returns (index: nat)
    ensures (exists i :: 0 <= i < |rows| && rows[i].repository.key == key)
      ==> index < |rows| && rows[index].repository.key == key
    ensures (forall i :: 0 <= i < |rows| ==> rows[i].repository.key != key) ==> index == 0
  {
    index := 0;
    for i := 0 to |rows|
      invariant (exists k :: 0 <= k < i && rows[k].repository.key == key)
        ==> index < |rows| && rows[index].repository.key == key
      invariant (forall k :: 0 <= k < i ==> rows[k].repository.key != key) ==> index == 0
    {
      if rows[i].repository.key == key {
        index := i;
      }
    }
  }
}
