/**
 * A relational table as the handlers see it: rows keyed by their integer
 * primary key, plus the order in which a query over the whole table returns
 * them.
 */
module Tables {

  datatype Table<T> = Table(order: seq<int>, rows: map<int, T>)

  /** No key occurs twice in `s`. */
  ghost predicate Distinct(s: seq<int>) {
    forall i, j :: 0 <= i < j < |s| ==> s[i] != s[j]
  }

  /** The query order lists every stored key exactly once. */
  ghost predicate WellFormed<T>(t: Table<T>) {
    && Distinct(t.order)
    && (forall k :: k in t.order <==> k in t.rows)
  }

  /**
   * `r` is a subsequence of `s`: its elements occur in `s` in the same
   * order. Matching each element of `r` at its earliest place in `s` finds
   * a subsequence whenever there is one.
   */
  ghost predicate Subsequence(r: seq<int>, s: seq<int>)
    decreases |s|
  {
    if r == [] then true
    else if s == [] then false
    else if r[0] == s[0] then Subsequence(r[1..], s[1..])
    else Subsequence(r, s[1..])
  }

  /** The keys of `s` that are in `ks`, in the order `s` has them. */
  function Keep(s: seq<int>, ks: set<int>): (r: seq<int>)
    ensures forall k :: k in r <==> k in s && k in ks
    ensures Distinct(s) ==> Distinct(r)
    ensures Subsequence(r, s)
    ensures |r| <= |s|
  {
    if s == [] then []
    else if s[0] in ks then [s[0]] + Keep(s[1..], ks)
    else Keep(s[1..], ks)
  }

  /** Appends a row under a key not yet in use. */
  function Insert<T>(t: Table<T>, k: int, v: T): (t': Table<T>)
    requires WellFormed(t) && k !in t.rows
    ensures WellFormed(t')
    ensures t'.rows.Keys == t.rows.Keys + {k} && t'.rows[k] == v
    ensures forall j :: j in t.rows ==> t'.rows[j] == t.rows[j]
    ensures |t'.order| == |t.order| + 1 && t'.order[..|t.order|] == t.order && t'.order[|t.order|] == k
  {
    Table(t.order + [k], t.rows[k := v])
  }

  /** Keeps the rows whose keys are in `ks` and deletes the others. */
  function Restrict<T>(t: Table<T>, ks: set<int>): (t': Table<T>)
    requires WellFormed(t)
    ensures WellFormed(t')
    ensures t'.rows.Keys == t.rows.Keys * ks
    ensures forall k :: k in t'.rows ==> t'.rows[k] == t.rows[k]
    ensures t'.order == Keep(t.order, ks)
  {
    Table(Keep(t.order, ks), map k | k in t.rows && k in ks :: t.rows[k])
  }

  /** `f` applied to the rows named by `ks`, in order. */
  function ProjectKeys<T, U>(ks: seq<int>, rows: map<int, T>, f: T -> U): (r: seq<U>)
    requires forall i :: 0 <= i < |ks| ==> ks[i] in rows
    ensures |r| == |ks|
    ensures forall i :: 0 <= i < |ks| ==> r[i] == f(rows[ks[i]])
  {
    if ks == [] then [] else [f(rows[ks[0]])] + ProjectKeys(ks[1..], rows, f)
  }

  /** `f` applied to every row of the table, in query order. */
  function Project<T, U>(t: Table<T>, f: T -> U): (r: seq<U>)
    requires WellFormed(t)
    ensures |r| == |t.order|
    ensures forall i :: 0 <= i < |t.order| ==> t.order[i] in t.rows && r[i] == f(t.rows[t.order[i]])
  {
    assert forall i :: 0 <= i < |t.order| ==> t.order[i] in t.order;
    ProjectKeys(t.order, t.rows, f)
  }

  /**
   * The rows whose keys are in `ks`, in query order, for a table whose rows
   * carry their own key `key(row)`: each such row exactly once.
   */
  function Select<T>(t: Table<T>, ks: set<int>, key: T -> int): (r: seq<T>)
    requires WellFormed(t)
    requires forall k :: k in t.rows ==> key(t.rows[k]) == k
    ensures forall i :: 0 <= i < |r| ==>
      key(r[i]) in t.rows && key(r[i]) in ks && t.rows[key(r[i])] == r[i]
    ensures forall k :: k in t.rows && k in ks ==> t.rows[k] in r
    ensures forall i, j :: 0 <= i < j < |r| ==> key(r[i]) != key(r[j])
    ensures |r| == |Keep(t.order, ks)|
    ensures forall i :: 0 <= i < |r| ==> key(r[i]) == Keep(t.order, ks)[i]
  {
    var s := Keep(t.order, ks);
    var r := Project(Restrict(t, ks), (row: T) => row);
    assert forall i :: 0 <= i < |s| ==> s[i] in s;
    forall k | k in t.rows && k in ks
      ensures t.rows[k] in r
    {
      assert k in s;
      var i :| 0 <= i < |s| && s[i] == k;
      assert r[i] == t.rows[k];
    }
    r
  }
}
