// A Mongo collection as the handlers see it. Documents are kept in insertion
// order and a document's `_id` is its position in its collection: ids are
// handed out in insertion order and never reused, so findById is indexing,
// and ascending id order is ascending `createdAt` order. Queries return rows:
// a document together with its id.
module Tables {
  import opened Common

  /** A document as a query returns it: its `_id` and its fields. */
  datatype Row<T> = Row(id: Id, doc: T)

  /** Strictly increasing ids: oldest first. */
  ghost predicate Ascending<T>(s: seq<Row<T>>)
  {
    forall i, j :: 0 <= i < j < |s| ==> s[i].id < s[j].id
  }

  /** Strictly decreasing ids: newest first. */
  ghost predicate Descending<T>(s: seq<Row<T>>)
  {
    forall i, j :: 0 <= i < j < |s| ==> s[i].id > s[j].id
  }

  /** Every row is the stored document with that id. */
  ghost predicate RowsOf<T>(r: seq<Row<T>>, s: seq<T>)
  {
    forall k :: 0 <= k < |r| ==> r[k].id < |s| && s[r[k].id] == r[k].doc
  }

  /** find(filter): the documents satisfying p, with their ids, in insertion order. */
  function Where<T(!new)>(s: seq<T>, p: T -> bool): (r: seq<Row<T>>)
    ensures Ascending(r) && RowsOf(r, s)
    ensures forall x :: x in r <==> x.id < |s| && s[x.id] == x.doc && p(x.doc)
  {
    if |s| == 0 then []
    else
      var n := |s| - 1;
      var w := Where(s[..n], p);
      assert forall x :: x in w ==> x.id < n && s[x.id] == x.doc;
      w + (if p(s[n]) then [Row(n, s[n])] else [])
  }

  /** find({ _id: { $in: ... } }): the documents whose id satisfies `keep`, in
      insertion order; an id with no document contributes nothing. */
  function WhereId<T(!new)>(s: seq<T>, keep: Id -> bool): (r: seq<Row<T>>)
    ensures Ascending(r) && RowsOf(r, s)
    ensures forall x :: x in r <==> x.id < |s| && s[x.id] == x.doc && keep(x.id)
  {
    if |s| == 0 then []
    else
      var n := |s| - 1;
      var w := WhereId(s[..n], keep);
      assert forall x :: x in w ==> x.id < n && s[x.id] == x.doc;
      w + (if keep(n) then [Row(n, s[n])] else [])
  }

  /** find(filter) over a collection with deletions: the documents still
      present that satisfy p, with their ids, in insertion order. */
  function Live<T(!new)>(s: seq<Option<T>>, p: T -> bool): (r: seq<Row<T>>)
    ensures Ascending(r)
    ensures forall x :: x in r <==> x.id < |s| && s[x.id] == Some(x.doc) && p(x.doc)
  {
    if |s| == 0 then []
    else
      var n := |s| - 1;
      var w := Live(s[..n], p);
      assert forall x :: x in w ==> x.id < n && s[x.id] == Some(x.doc);
      w + (if s[n].Some? && p(s[n].value) then [Row(n, s[n].value)] else [])
  }

  /** deleteOne of document k: every query loses exactly that document. */
  lemma LiveAfterDelete<T(!new)>(s: seq<Option<T>>, p: T -> bool, k: Id)
    requires k < |s|
    ensures forall x :: x in Live(s[k := None], p) <==> x in Live(s, p) && x.id != k
  {
  }

  /** Number of documents satisfying p (countDocuments). */
  function CountWhere<T>(s: seq<T>, p: T -> bool): (n: nat)
    ensures n <= |s|
    ensures n == 0 <==> forall i :: 0 <= i < |s| ==> !p(s[i])
  {
    if |s| == 0 then 0
    else CountWhere(s[..|s| - 1], p) + (if p(s[|s| - 1]) then 1 else 0)
  }

  /** countDocuments agrees with the length of the matching find. */
  lemma {:induction false} CountIsWhereLength<T(!new)>(s: seq<T>, p: T -> bool)
    ensures CountWhere(s, p) == |Where(s, p)|
  {
    if |s| > 0 {
      CountIsWhereLength(s[..|s| - 1], p);
    }
  }

  /** The documents of a collection a query does not match stay out of it even
      after more documents are appended. */
  lemma {:induction false} WhereAppend<T(!new)>(s: seq<T>, p: T -> bool, d: T)
    ensures Where(s + [d], p) == Where(s, p) + (if p(d) then [Row(|s|, d)] else [])
  {
    assert (s + [d])[..|s|] == s;
  }

  function Reverse<T>(s: seq<T>): (r: seq<T>)
    ensures |r| == |s|
    ensures forall i :: 0 <= i < |s| ==> r[i] == s[|s| - 1 - i]
  {
    if |s| == 0 then [] else Reverse(s[1..]) + [s[0]]
  }

  lemma ReverseSameElements<T>(s: seq<T>)
    ensures forall x :: x in Reverse(s) <==> x in s
  {
    var r := Reverse(s);
    forall x | x in s ensures x in r {
      var i :| 0 <= i < |s| && s[i] == x;
      assert r[|s| - 1 - i] == x;
    }
  }

  /** sort({ createdAt: -1 }) of rows in insertion order. */
  function NewestFirst<T(!new)>(s: seq<Row<T>>): (r: seq<Row<T>>)
    requires Ascending(s)
    ensures Descending(r) && |r| == |s|
    ensures forall x :: x in r <==> x in s
  {
    ReverseSameElements(s);
    Reverse(s)
  }

  /** Sorted by a key, largest first (a Mongo sort with -1). */
  ghost predicate SortedDesc<T>(s: seq<T>, key: T -> int)
  {
    forall i, j :: 0 <= i < j < |s| ==> key(s[i]) >= key(s[j])
  }

  function Insert<T>(x: T, s: seq<T>, key: T -> int): (r: seq<T>)
    requires SortedDesc(s, key)
    ensures SortedDesc(r, key)
    ensures multiset(r) == multiset(s) + multiset{x}
    ensures |r| == |s| + 1
    ensures r[0] == x || (|s| > 0 && r[0] == s[0])
  {
    if |s| == 0 then [x]
    else if key(x) >= key(s[0]) then [x] + s
    else
      var t := Insert(x, s[1..], key);
      assert s == [s[0]] + s[1..];
      assert key(t[0]) <= key(s[0]);
      [s[0]] + t
  }

  /** sort({ key: -1 }): a permutation of the input, largest key first. */
  function SortDesc<T>(s: seq<T>, key: T -> int): (r: seq<T>)
    ensures SortedDesc(r, key)
    ensures multiset(r) == multiset(s)
  {
    if |s| == 0 then []
    else
      assert s == [s[0]] + s[1..];
      Insert(s[0], SortDesc(s[1..], key), key)
  }

  /** sort({ key: -1 }) of a query's rows: the same rows, largest key first,
      each document once. */
  function SortRowsDesc<T(!new)>(w: seq<Row<T>>, key: Row<T> -> int): (r: seq<Row<T>>)
    requires Ascending(w)
    ensures SortedDesc(r, key)
    ensures forall x :: x in r <==> x in w
    ensures forall i, j :: 0 <= i < j < |r| ==> r[i].id != r[j].id
  {
    var r := SortDesc(w, key);
    assert forall x :: x in r <==> x in multiset(r);
    assert forall x :: x in w <==> x in multiset(w);
    DistinctIds(w, r);
    r
  }

  /** Rows with distinct ids keep them distinct in any permutation. */
  lemma DistinctIds<T>(w: seq<Row<T>>, r: seq<Row<T>>)
    requires Ascending(w) && multiset(r) == multiset(w)
    ensures forall i, j :: 0 <= i < j < |r| ==> r[i].id != r[j].id
  {
    forall i, j | 0 <= i < j < |r| ensures r[i].id != r[j].id {
      assert r[i] in multiset(w) && r[j] in multiset(w);
      var a :| 0 <= a < |w| && w[a] == r[i];
      var b :| 0 <= b < |w| && w[b] == r[j];
      CountOnce(w, a);
      CountTwice(r, i, j);
      assert a != b;
    }
  }

  /** Two positions holding the same row make it occur at least twice. */
  lemma CountTwice<T>(r: seq<Row<T>>, i: nat, j: nat)
    requires i < j < |r|
    ensures r[i] == r[j] ==> multiset(r)[r[i]] >= 2
  {
    assert r == r[..j] + r[j..];
    assert r[i] in r[..j] && r[j] in r[j..];
  }

  /** In a list with strictly increasing ids each row occurs once. */
  lemma {:induction false} CountOnce<T>(w: seq<Row<T>>, a: nat)
    requires Ascending(w) && a < |w|
    ensures multiset(w)[w[a]] == 1
  {
    if a == |w| - 1 {
      var front := w[..|w| - 1];
      assert w == front + [w[a]];
      assert w[a] !in front;
    } else {
      var front := w[..|w| - 1];
      assert w == front + [w[|w| - 1]];
      assert front[a] == w[a];
      CountOnce(front, a);
    }
  }
}
