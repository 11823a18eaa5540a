/** The two table queries the services and repositories issue:
    `query(T).filter(p).first()` and `query(T).filter(p).all()`, over a table
    held as a sequence in insertion order. */
module Query {
  import opened Wrappers

  /** Position of the first row satisfying `p`, or None when no row does. */
  function First<T>(rows: seq<T>, p: T -> bool): (r: Option<nat>)
    ensures r.Some? ==> r.value < |rows| && p(rows[r.value])
    ensures r.Some? ==> forall j :: 0 <= j < r.value ==> !p(rows[j])
    ensures r.None? ==> forall j :: 0 <= j < |rows| ==> !p(rows[j])
  {
    if rows == [] then None
    else if p(rows[0]) then Some(0)
    else
      match First(rows[1..], p)
      case None => None
      case Some(i) => Some(i + 1)
  }

  /** The rows satisfying `p`, in table order. */
  function Filter<T(==,!new)>(rows: seq<T>, p: T -> bool): (r: seq<T>)
    ensures forall x :: x in r <==> x in rows && p(x)
  {
    if rows == [] then []
    else (if p(rows[0]) then [rows[0]] else []) + Filter(rows[1..], p)
  }

  /** Filtering keeps every matching row as often as the table holds it, and
      no other row. */
  lemma {:induction false} FilterMultiset<T(!new)>(rows: seq<T>, p: T -> bool)
    ensures forall x :: p(x) ==> multiset(Filter(rows, p))[x] == multiset(rows)[x]
    ensures forall x :: !p(x) ==> multiset(Filter(rows, p))[x] == 0
  {
    if rows != [] {
      FilterMultiset(rows[1..], p);
      assert rows == [rows[0]] + rows[1..];
    }
  }

  /** Appending a row adds it to the filtered result exactly when it
      satisfies `p`. */
  lemma {:induction false} FilterAppend<T(!new)>(rows: seq<T>, x: T, p: T -> bool)
    ensures Filter(rows + [x], p) == Filter(rows, p) + (if p(x) then [x] else [])
  {
    if rows == [] {
      assert [] + [x] == [x];
    } else {
      assert (rows + [x])[1..] == rows[1..] + [x];
      FilterAppend(rows[1..], x, p);
    }
  }
}
