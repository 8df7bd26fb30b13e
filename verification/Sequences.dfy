/** Vocabulary for lists: what they contain, how often, and whether anything twice. */
module Sequences {
  ghost function Elements<T>(s: seq<T>): set<T> {
    set x | x in s
  }

  ghost predicate Distinct<T>(s: seq<T>) {
    forall i, j :: 0 <= i < j < |s| ==> s[i] != s[j]
  }

  ghost function Count<T>(s: seq<T>, p: T): (c: nat)
    ensures c > 0 <==> p in s
  {
    if s == [] then 0 else (if s[0] == p then 1 else 0) + Count(s[1..], p)
  }

  lemma {:induction false} CountSplit<T>(s: seq<T>, n: nat, p: T)
    requires n <= |s|
    ensures Count(s, p) == Count(s[..n], p) + Count(s[n..], p)
    decreases n
  {
    if n == 0 {
      assert s[..0] == [] && s[0..] == s;
    } else {
      CountSplit(s[1..], n - 1, p);
      assert s[..n][1..] == s[1..][..n - 1] && s[1..][n - 1..] == s[n..];
    }
  }

  lemma CountLast<T>(s: seq<T>, p: T)
    requires s != []
    ensures Count(s, p) == Count(s[..|s| - 1], p) + if s[|s| - 1] == p then 1 else 0
  {
    CountSplit(s, |s| - 1, p);
    assert s[|s| - 1..] == [s[|s| - 1]];
  }

  lemma {:induction false} DistinctSize<T>(s: seq<T>)
    requires Distinct(s)
    ensures |Elements(s)| == |s|
    decreases |s|
  {
    if s != [] {
      var n := |s| - 1;
      DistinctSize(s[..n]);
      assert Elements(s) == Elements(s[..n]) + {s[n]};
      assert s[n] !in s[..n];
    }
  }

  lemma {:induction false} Listed<T>(q: set<T>) returns (s: seq<T>)
    ensures Distinct(s) && Elements(s) == q && |s| == |q|
    decreases |q|
  {
    if q == {} {
      s := [];
    } else {
      var x :| x in q;
      var rest := Listed(q - {x});
      s := rest + [x];
      assert Elements(s) == Elements(rest) + {x};
      assert x !in Elements(rest);
    }
  }
}
