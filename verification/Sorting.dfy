/** Strings in ascending order of their bytes, as sort.Strings leaves them. */
module Sorting {
  predicate Leq(a: string, b: string) {
    a == "" || (b != "" && (a[0] < b[0] || (a[0] == b[0] && Leq(a[1..], b[1..]))))
  }

  lemma {:induction false} LeqIsTotal(a: string, b: string)
    ensures Leq(a, b) || Leq(b, a)
    ensures Leq(a, b) && Leq(b, a) ==> a == b
  {
    if a != "" && b != "" && a[0] == b[0] {
      LeqIsTotal(a[1..], b[1..]);
      assert a == [a[0]] + a[1..] && b == [b[0]] + b[1..];
    }
  }

  lemma {:induction false} LeqTransitive(a: string, b: string, c: string)
    requires Leq(a, b) && Leq(b, c)
    ensures Leq(a, c)
  {
    if a != "" && b != "" && c != "" && a[0] == b[0] == c[0] {
      LeqTransitive(a[1..], b[1..], c[1..]);
    }
  }

  /** Common beginnings do not matter. */
  lemma {:induction false} LeqBehindPrefix(p: string, a: string, b: string)
    ensures Leq(p + a, p + b) <==> Leq(a, b)
  {
    if p == "" {
      assert p + a == a && p + b == b;
    } else {
      assert (p + a)[1..] == p[1..] + a && (p + b)[1..] == p[1..] + b;
      LeqBehindPrefix(p[1..], a, b);
    }
  }

  /** Two strings that differ, behind a common beginning, in a first byte are ordered by it, and a proper
      prefix comes first; with LeqBehindPrefix this says how any two strings compare. */
  lemma LeqByFirstDifference(p: string, x: char, a: string, y: char, b: string)
    requires x < y
    ensures Leq(p + [x] + a, p + [y] + b) && !Leq(p + [y] + b, p + [x] + a)
    ensures Leq(p, p + [x] + a) && !Leq(p + [x] + a, p)
  {
    LeqBehindPrefix(p, [x] + a, [y] + b);
    LeqBehindPrefix(p, [y] + b, [x] + a);
    LeqBehindPrefix(p, "", [x] + a);
    LeqBehindPrefix(p, [x] + a, "");
    assert p + ([x] + a) == p + [x] + a && p + ([y] + b) == p + [y] + b && p + "" == p;
  }

  ghost predicate Ascending(s: seq<string>) {
    forall i, j :: 0 <= i < j < |s| ==> Leq(s[i], s[j])
  }

  function Insert(x: string, s: seq<string>): seq<string> {
    if s == [] || Leq(x, s[0]) then [x] + s else [s[0]] + Insert(x, s[1..])
  }

  function SortStrings(s: seq<string>): seq<string> {
    if s == [] then [] else Insert(s[|s| - 1], SortStrings(s[..|s| - 1]))
  }

  lemma {:induction false} InsertKeeps(x: string, s: seq<string>)
    requires Ascending(s)
    ensures Ascending(Insert(x, s)) && multiset(Insert(x, s)) == multiset(s) + multiset{x}
  {
    if s != [] && !Leq(x, s[0]) {
      InsertKeeps(x, s[1..]);
      assert s == [s[0]] + s[1..];
      LeqIsTotal(x, s[0]);
      HeadFirst(s[0], Insert(x, s[1..]), s[1..], x);
    } else if s != [] {
      forall i | 0 <= i < |s|
        ensures Leq(x, s[i])
      {
        if i > 0 {
          LeqTransitive(x, s[0], s[i]);
        }
      }
    }
  }

  lemma HeadFirst(h: string, t: seq<string>, s: seq<string>, x: string)
    requires Ascending(t) && multiset(t) == multiset(s) + multiset{x}
    requires Leq(h, x) && forall i :: 0 <= i < |s| ==> Leq(h, s[i])
    ensures Ascending([h] + t)
  {
    forall i | 0 <= i < |t|
      ensures Leq(h, t[i])
    {
      assert t[i] in multiset(t);
      assert t[i] == x || t[i] in s;
    }
  }

  lemma {:induction false} SortStringsSorts(s: seq<string>)
    ensures Ascending(SortStrings(s)) && multiset(SortStrings(s)) == multiset(s)
  {
    if s != [] {
      var n := |s| - 1;
      assert s == s[..n] + [s[n]];
      SortStringsSorts(s[..n]);
      InsertKeeps(s[n], SortStrings(s[..n]));
    }
  }

  /** There is only one way to sort: the order the elements came in is forgotten. */
  lemma {:induction false} SortedIsUnique(s: seq<string>, t: seq<string>)
    requires Ascending(s) && Ascending(t) && multiset(s) == multiset(t)
    ensures s == t
  {
    assert |multiset(s)| == |s| && |multiset(t)| == |t|;
    if s != [] {
      HeadIsLeast(s, t);
      HeadIsLeast(t, s);
      LeqIsTotal(s[0], t[0]);
      TailMultiset(s);
      TailMultiset(t);
      SortedIsUnique(s[1..], t[1..]);
      assert s == [s[0]] + s[1..] && t == [t[0]] + t[1..];
    }
  }

  lemma TailMultiset(s: seq<string>)
    requires s != []
    ensures multiset(s[1..]) == multiset(s) - multiset{s[0]}
  {
    assert s == [s[0]] + s[1..];
  }

  lemma HeadIsLeast(s: seq<string>, t: seq<string>)
    requires Ascending(s) && multiset(s) == multiset(t) && s != [] && t != []
    ensures Leq(s[0], t[0])
  {
    assert t[0] in multiset(s);
    var i :| 0 <= i < |s| && s[i] == t[0];
    if i == 0 {
      LeqIsTotal(s[0], s[0]);
    }
  }

  /** The one ascending list of the elements of a set. */
  ghost predicate IsListing(nodes: set<string>, list: seq<string>) {
    Ascending(list) && multiset(list) == multiset(nodes)
  }

  lemma ListingIsUnique(nodes: set<string>, a: seq<string>, b: seq<string>)
    requires IsListing(nodes, a) && IsListing(nodes, b)
    ensures a == b
  {
    SortedIsUnique(a, b);
  }
}
