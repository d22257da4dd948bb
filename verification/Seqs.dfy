/** Small facts about sequences that several components share. */
module Seqs {

  datatype Option<+T> = None | Some(value: T)

  function Init<T>(s: seq<T>): seq<T>
    requires s != []
  {
    s[..|s| - 1]
  }

  function Last<T>(s: seq<T>): T
    requires s != []
  {
    s[|s| - 1]
  }

  /** The last `n` elements, or everything when there are fewer. */
  function Newest<T>(s: seq<T>, n: nat): (r: seq<T>)
    ensures |r| == if |s| <= n then |s| else n
  {
    if |s| <= n then s else s[|s| - n..]
  }

  /** Removes the first occurrence of `x`. */
  function RemoveFirst<T(==)>(s: seq<T>, x: T): seq<T> {
    if s == [] then []
    else if s[0] == x then s[1..]
    else [s[0]] + RemoveFirst(s[1..], x)
  }

  ghost predicate NoDup<T(!new)>(s: seq<T>) {
    forall i, j :: 0 <= i < j < |s| ==> s[i] != s[j]
  }

  /** The positions of the elements with a property. */
  ghost function Positions<T>(s: seq<T>, p: T -> bool): set<nat> {
    set i: nat | i < |s| && p(s[i])
  }

  lemma {:induction false} PositionsInit<T>(s: seq<T>, p: T -> bool)
    requires s != []
    ensures |Positions(s, p)| == |Positions(Init(s), p)| + if p(Last(s)) then 1 else 0
  {
    var before, n: nat := Positions(Init(s), p), |s| - 1;
    var last: set<nat> := if p(Last(s)) then {n} else {};
    forall i: nat
      ensures i in Positions(s, p) <==> i in before || i in last
    {
      assert i < n ==> Init(s)[i] == s[i];
    }
    assert Positions(s, p) == before + last && n !in before;
  }

  lemma InitLast<T>(a: seq<T>, b: seq<T>)
    requires b != []
    ensures Init(a + b) == a + Init(b) && Last(a + b) == Last(b)
  {
  }

  lemma {:induction false} RemoveFirstSplit<T>(a: seq<T>, x: T, b: seq<T>)
    requires x !in a
    ensures RemoveFirst(a + [x] + b, x) == a + b
  {
    if a == [] {
      assert a + [x] + b == [x] + b;
      assert ([x] + b)[1..] == b == a + b;
    } else {
      assert (a + [x] + b)[1..] == a[1..] + [x] + b;
      RemoveFirstSplit(a[1..], x, b);
      assert [a[0]] + (a[1..] + b) == a + b;
    }
  }

  lemma {:induction false} RemoveFirstAbsent<T>(s: seq<T>, x: T)
    requires x !in s
    ensures RemoveFirst(s, x) == s
  {
    if s != [] {
      RemoveFirstAbsent(s[1..], x);
    }
  }

  lemma {:induction false} RemoveFirstAt<T>(s: seq<T>, x: T, i: nat)
    requires i < |s| && s[i] == x && x !in s[..i]
    ensures RemoveFirst(s, x) == s[..i] + s[i + 1..]
  {
    assert s == s[..i] + [x] + s[i + 1..];
    RemoveFirstSplit(s[..i], x, s[i + 1..]);
  }

  /** Capping a list twice, the second time after appending, equals capping it once. */
  lemma NewestAppend<T>(s: seq<T>, t: seq<T>, n: nat)
    ensures Newest(Newest(s, n) + t, n) == Newest(s + t, n)
  {
  }

  /** The next key of a map iteration, whose order Go leaves open. */
  method AnyOf<K(==)>(keys: set<K>) returns (k: K)
    requires keys != {}
    ensures k in keys
  {
    k :| k in keys;
  }
}
