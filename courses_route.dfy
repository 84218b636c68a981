/**
 * The course list endpoint (learnhub/app/api/courses/route.ts): rows from the database are
 * de-duplicated by their id's text, keeping the first row of each id, in order of first
 * appearance. The database query itself is outside the model; its rows are the input.
 */
module CoursesRoute {
  import opened Strings

  /** A database id: the driver may give a number or a string. */
  datatype RowId = NumId(n: int) | StrId(s: string)

  /** A course row: its id and the other columns, uninterpreted. */
  datatype CourseRow = CourseRow(id: RowId, columns: map<string, string>)

  /** `id.toString()`. */
  function IdText(id: RowId): string {
    match id
    case NumId(n) => if n < 0 then "-" + NatToString(-n) else NatToString(n)
    case StrId(s) => s
  }

  function Key(row: CourseRow): string {
    IdText(row.id)
  }

  /** Some row of `rows` has `key`. */
  predicate HasKey(rows: seq<CourseRow>, key: string) {
    exists i :: 0 <= i < |rows| && Key(rows[i]) == key
  }

  /** The rows kept after reading `rows` in order: a row is kept when no earlier row had its key. */
  function Unique(rows: seq<CourseRow>): seq<CourseRow>
    decreases |rows|
  {
    if rows == [] then []
    else
      var u := Unique(rows[..|rows| - 1]);
      if HasKey(u, Key(rows[|rows| - 1])) then u else u + [rows[|rows| - 1]]
  }

  /** Index of the first row with `key`, or `|rows|` when there is none. */
  function FirstIndex(rows: seq<CourseRow>, key: string): (i: nat)
    ensures i <= |rows|
    ensures i < |rows| ==> Key(rows[i]) == key
    ensures forall k :: 0 <= k < i ==> Key(rows[k]) != key
  {
    if rows == [] then 0
    else if Key(rows[0]) == key then 0
    else 1 + FirstIndex(rows[1..], key)
  }

  lemma FirstIndexPrefix(rows: seq<CourseRow>, n: nat, key: string)
    requires n <= |rows| && FirstIndex(rows[..n], key) < n
    ensures FirstIndex(rows, key) == FirstIndex(rows[..n], key)
  {
    var i := FirstIndex(rows[..n], key);
    var j := FirstIndex(rows, key);
    assert rows[..n][i] == rows[i];
  }

  /** The kept rows have exactly the keys of the input. */
  lemma {:induction false} UniqueKeys(rows: seq<CourseRow>, key: string)
    ensures HasKey(Unique(rows), key) <==> HasKey(rows, key)
    decreases |rows|
  {
    if rows != [] {
      var n := |rows| - 1;
      var init := rows[..n];
      UniqueKeys(init, key);
      var u0 := Unique(init);
      var u := Unique(rows);
      if exists i :: 0 <= i < |u| && Key(u[i]) == key {
        var i :| 0 <= i < |u| && Key(u[i]) == key;
        if i < |u0| {
          assert u[i] == u0[i];
          var k :| 0 <= k < |init| && Key(init[k]) == key;
          assert rows[k] == init[k];
        } else {
          assert Key(rows[n]) == key;
        }
      }
      if exists k :: 0 <= k < |rows| && Key(rows[k]) == key {
        var k :| 0 <= k < |rows| && Key(rows[k]) == key;
        if k < n {
          assert init[k] == rows[k];
          var i :| 0 <= i < |u0| && Key(u0[i]) == key;
          assert u[i] == u0[i];
        } else if !exists i :: 0 <= i < |u0| && Key(u0[i]) == Key(rows[n]) {
          assert u[|u0|] == rows[n];
        }
      }
    }
  }

  /** The kept rows have pairwise distinct keys. */
  lemma {:induction false} UniqueDistinct(rows: seq<CourseRow>)
    ensures forall i, j :: 0 <= i < j < |Unique(rows)| ==> Key(Unique(rows)[i]) != Key(Unique(rows)[j])
    decreases |rows|
  {
    if rows != [] {
      UniqueDistinct(rows[..|rows| - 1]);
    }
  }

  /** Every key of the input is the key of a kept row. */
  lemma UniqueCoversAll(rows: seq<CourseRow>)
    ensures forall k :: 0 <= k < |rows| ==> HasKey(Unique(rows), Key(rows[k]))
  {
    forall k | 0 <= k < |rows|
      ensures HasKey(Unique(rows), Key(rows[k]))
    {
      UniqueKeys(rows, Key(rows[k]));
    }
  }

  /** Each kept row is the first row with its key. */
  lemma {:induction false} UniqueKeepsFirst(rows: seq<CourseRow>)
    ensures forall i :: 0 <= i < |Unique(rows)| ==>
      FirstIndex(rows, Key(Unique(rows)[i])) < |rows| && Unique(rows)[i] == rows[FirstIndex(rows, Key(Unique(rows)[i]))]
    decreases |rows|
  {
    if rows != [] {
      var n := |rows| - 1;
      var init := rows[..n];
      var last := rows[n];
      UniqueKeepsFirst(init);
      var u0 := Unique(init);
      var u := Unique(rows);
      forall i | 0 <= i < |u|
        ensures FirstIndex(rows, Key(u[i])) < |rows| && u[i] == rows[FirstIndex(rows, Key(u[i]))]
      {
        if i < |u0| {
          assert u[i] == u0[i];
          FirstIndexPrefix(rows, n, Key(u0[i]));
        } else {
          assert u[i] == last;
          UniqueKeys(init, Key(last));
        }
      }
    }
  }

  /** The kept rows come in the order their keys first appear. */
  lemma {:induction false} UniqueInFirstAppearanceOrder(rows: seq<CourseRow>)
    ensures forall i, j :: 0 <= i < j < |Unique(rows)| ==>
      FirstIndex(rows, Key(Unique(rows)[i])) < FirstIndex(rows, Key(Unique(rows)[j]))
    decreases |rows|
  {
    if rows != [] {
      var n := |rows| - 1;
      var init := rows[..n];
      UniqueInFirstAppearanceOrder(init);
      UniqueKeepsFirst(init);
      UniqueKeepsFirst(rows);
      var u0 := Unique(init);
      var u := Unique(rows);
      forall i | 0 <= i < |u0|
        ensures FirstIndex(rows, Key(u0[i])) == FirstIndex(init, Key(u0[i])) < n
      {
        FirstIndexPrefix(rows, n, Key(u0[i]));
      }
      forall i, j | 0 <= i < j < |u|
        ensures FirstIndex(rows, Key(u[i])) < FirstIndex(rows, Key(u[j]))
      {
        assert u[i] == u0[i];
        if j >= |u0| {
          assert FirstIndex(rows, Key(u[j])) < |rows|;
          assert u[j] == rows[n];
          UniqueKeys(init, Key(rows[n]));
        } else {
          assert u[j] == u0[j];
        }
      }
    }
  }

  /** The route's loop: a map from key to row, filled in order and guarded by `has`, read back in insertion order. */
  method UniqueCourses(rows: seq<CourseRow>) returns (unique: seq<CourseRow>)
    ensures unique == Unique(rows)
  {
    var uniqueCoursesMap: map<string, CourseRow> := map[];
    var insertionOrder: seq<string> := [];
    var i := 0;
    while i < |rows|
      invariant 0 <= i <= |rows|
      invariant |insertionOrder| == |Unique(rows[..i])|
      invariant forall k :: k in uniqueCoursesMap <==> k in insertionOrder
      invariant forall j :: 0 <= j < |insertionOrder| ==>
        insertionOrder[j] == Key(Unique(rows[..i])[j]) && uniqueCoursesMap[insertionOrder[j]] == Unique(rows[..i])[j]
    {
      var courseId := Key(rows[i]);
      assert rows[..i + 1][..i] == rows[..i];
      assert rows[..i + 1][i] == rows[i];
      if courseId !in uniqueCoursesMap {
        uniqueCoursesMap := uniqueCoursesMap[courseId := rows[i]];
        insertionOrder := insertionOrder + [courseId];
      } else {
        var j :| 0 <= j < |insertionOrder| && insertionOrder[j] == courseId;
      }
      i := i + 1;
    }
    assert rows[..i] == rows;
    unique := seq(|insertionOrder|, j requires 0 <= j < |insertionOrder| => uniqueCoursesMap[insertionOrder[j]]);
  }
}
