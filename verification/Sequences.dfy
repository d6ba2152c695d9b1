/**
 Sorting, listing and gathering. A query walks a list of slots (or accounts) and appends one
 chunk of fees for each; `Gather` is that walk, and the lemmas below say how its result
 depends on the order, the length and the chunks of the walk.
 */
module Sequences {

  predicate Sorted(s: seq<nat>) {
    forall i, j :: 0 <= i < j < |s| ==> s[i] <= s[j]
  }

  predicate StrictlyDescending(s: seq<nat>) {
    forall i, j :: 0 <= i < j < |s| ==> s[i] > s[j]
  }

  predicate NoDuplicates<T(==)>(s: seq<T>) {
    forall i, j :: 0 <= i < j < |s| ==> s[i] != s[j]
  }

  function Elements<T>(s: seq<T>): set<T> {
    set x | x in s
  }

  /** `order` walks the elements of `s`, each exactly once, in some order. */
  predicate Lists<T(==)>(order: seq<T>, s: set<T>) {
    NoDuplicates(order) && Elements(order) == s
  }

  lemma ListsOneMore<T>(order: seq<T>, s: set<T>, x: T)
    requires Lists(order, s) && x !in s
    ensures Lists(order + [x], s + {x})
  {
    assert forall y :: y in order <==> y in Elements(order);
    assert Elements(order + [x]) == Elements(order) + {x};
  }

  lemma ListsFewer<T>(order: seq<T>, all: set<T>, rest: set<T>, x: T)
    requires x in rest && rest <= all && Lists(order, all - rest)
    ensures Lists(order + [x], all - (rest - {x}))
  {
    ListsOneMore(order, all - rest, x);
    assert all - (rest - {x}) == (all - rest) + {x};
  }

  // ---------------------------------------------------------------- sorting

  function Insert(x: nat, s: seq<nat>): (r: seq<nat>)
    ensures multiset(r) == multiset(s) + multiset{x}
  {
    if s == [] then [x]
    else if x <= s[0] then [x] + s
    else
      assert s == [s[0]] + s[1..];
      [s[0]] + Insert(x, s[1..])
  }

  lemma {:induction false} InsertSorted(x: nat, s: seq<nat>)
    requires Sorted(s)
    ensures Sorted(Insert(x, s))
  {
    if s != [] && x > s[0] {
      InsertSorted(x, s[1..]);
      var r := Insert(x, s[1..]);
      forall j | 0 <= j < |r| ensures s[0] <= r[j] {
        assert r[j] in multiset(r);
        assert r[j] in s[1..] || r[j] == x;
      }
      assert Insert(x, s) == [s[0]] + r;
    }
  }

  function Sort(s: seq<nat>): (r: seq<nat>)
    ensures Sorted(r) && multiset(r) == multiset(s)
  {
    if s == [] then []
    else
      assert s == s[..|s|-1] + [s[|s|-1]];
      InsertSorted(s[|s|-1], Sort(s[..|s|-1]));
      Insert(s[|s|-1], Sort(s[..|s|-1]))
  }

  function Reverse(s: seq<nat>): (r: seq<nat>)
    ensures |r| == |s| && forall i :: 0 <= i < |s| ==> r[i] == s[|s|-1-i]
  {
    seq(|s|, i requires 0 <= i < |s| => s[|s|-1-i])
  }

  lemma SameSize<T>(a: seq<T>, b: seq<T>)
    requires multiset(a) == multiset(b)
    ensures |a| == |b|
    ensures forall x :: x in a <==> x in b
  {
    assert |a| == |multiset(a)| && |b| == |multiset(b)|;
    forall x ensures x in a <==> x in b {
      assert x in a <==> x in multiset(a);
      assert x in b <==> x in multiset(b);
    }
  }

  /** A multiset has one sorted listing. */
  lemma {:induction false} SortedUnique(a: seq<nat>, b: seq<nat>)
    requires Sorted(a) && Sorted(b) && multiset(a) == multiset(b)
    ensures a == b
    decreases |a|
  {
    SameSize(a, b);
    if a != [] {
      SortedHead(a, b);
      SortedHead(b, a);
      assert a == [a[0]] + a[1..] && b == [b[0]] + b[1..];
      assert multiset(a[1..]) == multiset(a) - multiset{a[0]};
      assert multiset(b[1..]) == multiset(b) - multiset{b[0]};
      SortedUnique(a[1..], b[1..]);
    }
  }

  lemma SortedHead(a: seq<nat>, b: seq<nat>)
    requires a != [] && Sorted(b) && b != [] && multiset(a) == multiset(b)
    ensures b[0] <= a[0]
  {
    SameSize(a, b);
    assert a[0] in b;
  }

  lemma SortPermuted(a: seq<nat>, b: seq<nat>)
    requires multiset(a) == multiset(b)
    ensures Sort(a) == Sort(b)
  {
    SortedUnique(Sort(a), Sort(b));
  }

  lemma HasElements<T>(s: seq<T>)
    ensures Elements(s) == {} ==> s == []
  {
    if s != [] {
      assert s[0] in Elements(s);
    }
  }

  /** A set of slots has one strictly descending listing. */
  lemma {:induction false} DescendingUnique(a: seq<nat>, b: seq<nat>)
    requires StrictlyDescending(a) && StrictlyDescending(b) && Elements(a) == Elements(b)
    ensures a == b
    decreases |a|
  {
    if a == [] {
      HasElements(b);
    } else {
      assert a[0] in Elements(a);
      assert a[0] in Elements(b) && b[0] in Elements(a);
      assert Elements(a[1..]) == Elements(a) - {a[0]};
      assert Elements(b[1..]) == Elements(b) - {b[0]};
      DescendingUnique(a[1..], b[1..]);
      assert a == [a[0]] + a[1..] && b == [b[0]] + b[1..];
    }
  }

  lemma ReverseElements(s: seq<nat>)
    ensures Elements(Reverse(s)) == Elements(s)
  {
    var r := Reverse(s);
    forall x ensures x in r <==> x in s {
      if x in s {
        var i :| 0 <= i < |s| && s[i] == x;
        assert r[|s|-1-i] == x;
      }
    }
  }

  lemma ReverseDescends(t: seq<nat>)
    requires Sorted(t) && NoDuplicates(t)
    ensures StrictlyDescending(Reverse(t))
  {
    forall i, j | 0 <= i < j < |t| ensures Reverse(t)[i] > Reverse(t)[j] {
      assert t[|t|-1-j] <= t[|t|-1-i] && t[|t|-1-j] != t[|t|-1-i];
    }
  }

  lemma ReverseSortDescends(s: seq<nat>)
    requires NoDuplicates(s)
    ensures StrictlyDescending(Reverse(Sort(s)))
    ensures Elements(Reverse(Sort(s))) == Elements(s)
  {
    SameSize(s, Sort(s));
    SameMultisetNoDuplicates(s, Sort(s));
    ReverseElements(Sort(s));
    ReverseDescends(Sort(s));
  }

  lemma CountOne<T>(s: seq<T>, x: T)
    requires NoDuplicates(s)
    ensures multiset(s)[x] == if x in s then 1 else 0
  {
    if x in s {
      var i :| 0 <= i < |s| && s[i] == x;
      assert s == s[..i] + [x] + s[i+1..];
      assert x !in s[..i] && x !in s[i+1..];
      assert multiset(s) == multiset(s[..i]) + multiset{x} + multiset(s[i+1..]);
    }
  }

  lemma SameMultisetNoDuplicates<T>(s: seq<T>, t: seq<T>)
    requires multiset(s) == multiset(t) && NoDuplicates(s)
    ensures NoDuplicates(t)
  {
    forall i, j | 0 <= i < j < |t| ensures t[i] != t[j] {
      if t[i] == t[j] {
        assert t == t[..i] + [t[i]] + t[i+1..j] + [t[j]] + t[j+1..];
        assert multiset(t)[t[i]] >= 2;
        CountOne(s, t[i]);
      }
    }
  }

  lemma ListingsPermuted<T>(a: seq<T>, b: seq<T>)
    requires NoDuplicates(a) && NoDuplicates(b) && Elements(a) == Elements(b)
    ensures multiset(a) == multiset(b)
  {
    forall x: T ensures multiset(a)[x] == multiset(b)[x] {
      CountOne(a, x);
      CountOne(b, x);
      assert x in a <==> x in Elements(a);
      assert x in b <==> x in Elements(b);
    }
  }

  lemma {:induction false} ListingSize<T>(a: seq<T>)
    requires NoDuplicates(a)
    ensures |Elements(a)| == |a|
  {
    if a != [] {
      var n := |a| - 1;
      ListingSize(a[..n]);
      assert Elements(a) == Elements(a[..n]) + {a[n]};
    }
  }

  lemma SubsetSize<T>(a: set<T>, b: set<T>)
    requires a <= b
    ensures |a| <= |b|
  {
    assert b == a + (b - a);
    assert |b| == |a| + |b - a|;
  }

  ghost function Listing<T>(s: set<T>): (r: seq<T>)
    ensures Lists(r, s)
  {
    if s == {} then []
    else
      var x :| x in s;
      var r := Listing(s - {x}) + [x];
      assert Elements(r) == Elements(Listing(s - {x})) + {x};
      r
  }

  /** The slots of a set, highest number first. */
  ghost function Descending(s: set<nat>): (r: seq<nat>)
    ensures StrictlyDescending(r) && Elements(r) == s && |r| == |s|
  {
    DescendingExists(s);
    var r: seq<nat> :| StrictlyDescending(r) && Elements(r) == s && |r| == |s|;
    r
  }

  lemma DescendingExists(s: set<nat>)
    ensures exists r: seq<nat> :: StrictlyDescending(r) && Elements(r) == s && |r| == |s|
  {
    var l := Listing(s);
    ReverseSortDescends(l);
    var r := Reverse(Sort(l));
    ListingSize(r);
    assert StrictlyDescending(r) && Elements(r) == s && |r| == |s|;
  }

  /** Sorting and reversing any listing of a set gives its descending listing. */
  lemma SortedReversedListing(order: seq<nat>, s: set<nat>)
    requires Lists(order, s)
    ensures Reverse(Sort(order)) == Descending(s)
  {
    ReverseSortDescends(order);
    DescendingUnique(Reverse(Sort(order)), Descending(s));
  }

  // ---------------------------------------------------------------- gathering

  function Gather<T>(walk: seq<T>, chunk: T -> seq<nat>): seq<nat> {
    if walk == [] then []
    else Gather(walk[..|walk|-1], chunk) + chunk(walk[|walk|-1])
  }

  lemma GatherOne<T>(walk: seq<T>, x: T, chunk: T -> seq<nat>)
    ensures Gather(walk + [x], chunk) == Gather(walk, chunk) + chunk(x)
  {
    assert (walk + [x])[..|walk|] == walk;
  }

  lemma {:induction false} GatherAppend<T>(a: seq<T>, b: seq<T>, chunk: T -> seq<nat>)
    ensures Gather(a + b, chunk) == Gather(a, chunk) + Gather(b, chunk)
  {
    if b == [] {
      assert a + b == a;
    } else {
      var n := |b| - 1;
      assert a + b == (a + b[..n]) + [b[n]];
      GatherOne(a + b[..n], b[n], chunk);
      GatherAppend(a, b[..n], chunk);
    }
  }

  /** A longer walk only appends: what the shorter walk gathered is a prefix. */
  lemma GatherPrefix<T>(walk: seq<T>, k: nat, chunk: T -> seq<nat>)
    requires k <= |walk|
    ensures Gather(walk[..k], chunk) <= Gather(walk, chunk)
  {
    assert walk == walk[..k] + walk[k..];
    GatherAppend(walk[..k], walk[k..], chunk);
  }

  lemma {:induction false} GatherMember<T>(walk: seq<T>, chunk: T -> seq<nat>, x: nat)
    ensures x in Gather(walk, chunk) <==> exists t :: t in walk && x in chunk(t)
  {
    if walk != [] {
      var n := |walk| - 1;
      assert walk == walk[..n] + [walk[n]];
      GatherMember(walk[..n], chunk, x);
    }
  }

  lemma {:induction false} GatherPermuted<T>(a: seq<T>, b: seq<T>, chunk: T -> seq<nat>)
    requires multiset(a) == multiset(b)
    ensures multiset(Gather(a, chunk)) == multiset(Gather(b, chunk))
    decreases |a|
  {
    SameSize(a, b);
    if a != [] {
      var n := |a| - 1;
      var x := a[n];
      assert a == a[..n] + [x];
      assert x in b;
      var i :| 0 <= i < |b| && b[i] == x;
      var c := b[..i] + b[i+1..];
      assert b == b[..i] + [x] + b[i+1..];
      assert multiset(a[..n]) == multiset(a) - multiset{x} == multiset(c);
      GatherPermuted(a[..n], c, chunk);
      GatherMoved(b[..i], x, b[i+1..], chunk);
    }
  }

  lemma GatherMoved<T>(a: seq<T>, x: T, b: seq<T>, chunk: T -> seq<nat>)
    ensures multiset(Gather(a + [x] + b, chunk)) == multiset(Gather(a + b, chunk)) + multiset(chunk(x))
  {
    GatherAppend(a, b, chunk);
    GatherOne(a, x, chunk);
    GatherAppend(a + [x], b, chunk);
  }

  /** If every chunk splits in two, so does everything gathered. */
  lemma {:induction false} GatherSplit<T>(walk: seq<T>, whole: T -> seq<nat>, left: T -> seq<nat>, right: T -> seq<nat>)
    requires forall t :: t in walk ==> multiset(whole(t)) == multiset(left(t)) + multiset(right(t))
    ensures multiset(Gather(walk, whole)) == multiset(Gather(walk, left)) + multiset(Gather(walk, right))
  {
    if walk != [] {
      var n := |walk| - 1;
      forall t | t in walk[..n] ensures t in walk {}
      GatherSplit(walk[..n], whole, left, right);
      assert walk[n] in walk;
    }
  }

  lemma {:induction false} GatherSame<T>(walk: seq<T>, f: T -> seq<nat>, g: T -> seq<nat>)
    requires forall t :: t in walk ==> f(t) == g(t)
    ensures Gather(walk, f) == Gather(walk, g)
  {
    if walk != [] {
      var n := |walk| - 1;
      forall t | t in walk[..n] ensures t in walk {}
      GatherSame(walk[..n], f, g);
      assert walk[n] in walk;
    }
  }

  // ---------------------------------------------------------------- chosen positions

  predicate StrictlyAscending(at: seq<nat>) {
    forall i, j :: 0 <= i < j < |at| ==> at[i] < at[j]
  }

  lemma AscendingOneMore(at: seq<nat>, n: nat)
    requires StrictlyAscending(at) && forall i :: i in at ==> i < n
    ensures StrictlyAscending(at + [n])
  {
    assert forall j :: 0 <= j < |at| ==> at[j] in at;
  }

  lemma TailAscends(a: seq<nat>)
    requires StrictlyAscending(a) && a != []
    ensures StrictlyAscending(a[1..])
    ensures forall i :: i in a ==> a[0] <= i
    ensures forall i :: i in a[1..] <==> i in a && i != a[0]
  {
    assert a == [a[0]] + a[1..];
    assert forall j :: 0 <= j < |a| - 1 ==> a[1..][j] == a[j+1] > a[0];
  }

  /** Positions are listed in ascending order in one way only. */
  lemma {:induction false} AscendingUnique(a: seq<nat>, b: seq<nat>)
    requires StrictlyAscending(a) && StrictlyAscending(b) && forall i :: i in a <==> i in b
    ensures a == b
    decreases |a|
  {
    if a == [] {
      assert Elements(b) == {};
      HasElements(b);
    } else {
      assert a[0] in a && a[0] in b;
      assert b[0] in b;
      TailAscends(a);
      TailAscends(b);
      AscendingUnique(a[1..], b[1..]);
      assert a == [a[0]] + a[1..] && b == [b[0]] + b[1..];
    }
  }
}
