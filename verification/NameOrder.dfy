/** The order of names, and sorting things by their names. */
module NameOrder {
  import opened Common

  /** Lexicographic order, as the source's ordered maps and sorts use it. */
  predicate AtMost(a: string, b: string) {
    a == "" || (b != "" && (a[0] < b[0] || (a[0] == b[0] && AtMost(a[1..], b[1..]))))
  }

  lemma {:induction false} AtMostTotal(a: string, b: string)
    ensures AtMost(a, b) || AtMost(b, a)
  {
    if a != "" && b != "" && a[0] == b[0] {
      AtMostTotal(a[1..], b[1..]);
    }
  }

  lemma {:induction false} AtMostTransitive(a: string, b: string, c: string)
    requires AtMost(a, b) && AtMost(b, c)
    ensures AtMost(a, c)
  {
    if a != "" && a[0] == b[0] == c[0] {
      AtMostTransitive(a[1..], b[1..], c[1..]);
    }
  }

  lemma {:induction false} AtMostAntisymmetric(a: string, b: string)
    requires AtMost(a, b) && AtMost(b, a)
    ensures a == b
  {
    if a != "" {
      AtMostAntisymmetric(a[1..], b[1..]);
      assert a == [a[0]] + a[1..] && b == [b[0]] + b[1..];
    }
  }

  /** Ascending by name. */
  predicate Ordered<T>(items: seq<T>, name: T -> string) {
    forall i, j :: 0 <= i < j < |items| ==> AtMost(name(items[i]), name(items[j]))
  }

  function Insert<T>(items: seq<T>, x: T, name: T -> string): seq<T> {
    if items == [] then [x]
    else if AtMost(name(x), name(items[0])) then [x] + items
    else [items[0]] + Insert(items[1..], x, name)
  }

  /** The items by ascending name; items of one name keep their order. */
  function SortBy<T>(items: seq<T>, name: T -> string): seq<T> {
    if items == [] then [] else Insert(SortBy(items[1..], name), items[0], name)
  }

  lemma {:induction false} InsertCounts<T>(items: seq<T>, x: T, name: T -> string)
    ensures multiset(Insert(items, x, name)) == multiset(items) + multiset{x}
  {
    if items != [] && !AtMost(name(x), name(items[0])) {
      InsertCounts(items[1..], x, name);
      assert items == [items[0]] + items[1..];
    }
  }

  lemma {:induction false} SortCounts<T>(items: seq<T>, name: T -> string)
    ensures multiset(SortBy(items, name)) == multiset(items)
  {
    if items != [] {
      SortCounts(items[1..], name);
      InsertCounts(SortBy(items[1..], name), items[0], name);
      assert items == [items[0]] + items[1..];
    }
  }

  lemma {:induction false} InsertOrdered<T>(items: seq<T>, x: T, name: T -> string)
    requires Ordered(items, name)
    ensures Ordered(Insert(items, x, name), name)
  {
    if items == [] {
    } else if AtMost(name(x), name(items[0])) {
      forall j | 0 <= j < |items| ensures AtMost(name(x), name(items[j])) {
        if j > 0 {
          AtMostTransitive(name(x), name(items[0]), name(items[j]));
        }
      }
    } else {
      AtMostTotal(name(x), name(items[0]));
      InsertOrdered(items[1..], x, name);
      InsertCounts(items[1..], x, name);
      var rest := Insert(items[1..], x, name);
      forall j | 0 <= j < |rest| ensures AtMost(name(items[0]), name(rest[j])) {
        assert rest[j] in multiset(rest);
        assert rest[j] == x || rest[j] in items[1..];
      }
    }
  }

  lemma {:induction false} SortOrdered<T>(items: seq<T>, name: T -> string)
    ensures Ordered(SortBy(items, name), name)
  {
    if items != [] {
      SortOrdered(items[1..], name);
      InsertOrdered(SortBy(items[1..], name), items[0], name);
    }
  }

  lemma {:induction false} OnceCounts<T>(items: seq<T>, x: T)
    requires Distinct(items)
    ensures multiset(items)[x] <= 1
  {
    if items != [] {
      OnceCounts(items[1..], x);
      assert items == [items[0]] + items[1..];
      assert x == items[0] ==> x !in items[1..];
    }
  }

  lemma {:induction false} TwiceCounts<T>(items: seq<T>, i: nat, j: nat)
    requires i < j < |items| && items[i] == items[j]
    ensures multiset(items)[items[i]] >= 2
  {
    var a, b := items[..j], items[j..];
    assert items == a + b && a[i] == items[i] && b[0] == items[i];
    assert multiset(items)[items[i]] == multiset(a)[items[i]] + multiset(b)[items[i]];
    assert items[i] in multiset(a) && items[i] in multiset(b);
  }

  /** A sort loses nothing, adds nothing and repeats nothing. */
  lemma {:induction false} SortKeeps<T>(items: seq<T>, name: T -> string)
    ensures Ordered(SortBy(items, name), name) && |SortBy(items, name)| == |items|
    ensures forall x :: x in SortBy(items, name) <==> x in items
    ensures Distinct(items) ==> Distinct(SortBy(items, name))
  {
    SortOrdered(items, name);
    SortCounts(items, name);
    var sorted := SortBy(items, name);
    assert |sorted| == |multiset(sorted)| == |multiset(items)| == |items|;
    forall x ensures x in sorted <==> x in items {
      assert x in sorted <==> x in multiset(sorted);
      assert x in items <==> x in multiset(items);
    }
    if Distinct(items) {
      forall i, j | 0 <= i < j < |sorted| ensures sorted[i] != sorted[j] {
        OnceCounts(items, sorted[i]);
        if sorted[i] == sorted[j] {
          TwiceCounts(sorted, i, j);
        }
      }
    }
  }

  /** Distinct names. */
  predicate OncePerName<T>(items: seq<T>, name: T -> string) {
    forall i, j :: 0 <= i < j < |items| ==> name(items[i]) != name(items[j])
  }

  /** An ordered sequence is determined by what it holds, so a sort does not depend on the order it is given. */
  lemma {:induction false} OrderedUnique<T>(a: seq<T>, b: seq<T>, name: T -> string)
    requires Ordered(a, name) && Ordered(b, name) && OncePerName(a, name) && OncePerName(b, name)
    requires forall x :: x in a <==> x in b
    ensures a == b
  {
    if a == [] {
      SomeMember(b);
    } else {
      assert a[0] in a && b != [] && b[0] in b;
      LeastFirst(a, b[0], name);
      LeastFirst(b, a[0], name);
      AtMostAntisymmetric(name(a[0]), name(b[0]));
      OneOfName(a, a[0], b[0], name);
      RestMembers(a, name);
      RestMembers(b, name);
      OrderedUnique(a[1..], b[1..], name);
      assert a == [a[0]] + a[1..] && b == [b[0]] + b[1..];
    }
  }

  lemma {:induction false} SomeMember<T>(b: seq<T>)
    ensures b != [] ==> exists x :: x in b
  {
    if b != [] {
      assert b[0] in b;
    }
  }

  lemma {:induction false} LeastFirst<T>(a: seq<T>, x: T, name: T -> string)
    requires Ordered(a, name) && x in a
    ensures AtMost(name(a[0]), name(x))
  {
    var i :| 0 <= i < |a| && a[i] == x;
    AtMostTotal(name(x), name(x));
  }

  lemma {:induction false} OneOfName<T>(items: seq<T>, a: T, b: T, name: T -> string)
    requires OncePerName(items, name) && a in items && b in items && name(a) == name(b)
    ensures a == b
  {
    var i :| 0 <= i < |items| && items[i] == a;
    var j :| 0 <= j < |items| && items[j] == b;
  }

  lemma {:induction false} RestMembers<T>(a: seq<T>, name: T -> string)
    requires OncePerName(a, name) && Ordered(a, name) && a != []
    ensures OncePerName(a[1..], name) && Ordered(a[1..], name) && forall x :: x in a[1..] <==> x in a && x != a[0]
  {
    assert forall i :: 1 <= i < |a| ==> name(a[i]) != name(a[0]);
    assert a == [a[0]] + a[1..];
  }

  /* ---- Names themselves ---- */

  function Self(n: string): string {
    n
  }

  function Sort(names: seq<string>): seq<string> {
    SortBy(names, Self)
  }

  predicate Sorted(names: seq<string>) {
    Ordered(names, Self)
  }
}
