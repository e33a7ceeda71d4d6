// Small value types and sequence facts shared by every component.
module Basics {
  datatype Option<+T> = None | Some(value: T)

  /** What can become of one request to the store; the last two are errors. */
  datatype Fate = Answered | ReplyLost | NotRun

  function Max(a: int, b: int): int {
    if a >= b then a else b
  }

  function Min(a: int, b: int): int {
    if a <= b then a else b
  }

  ghost predicate StrictlyAscending(s: seq<int>) {
    forall i, j :: 0 <= i < j < |s| ==> s[i] < s[j]
  }

  ghost function Elements<T>(s: seq<T>): set<T> {
    set x | x in s
  }

  lemma FirstIsMember<T>(s: seq<T>)
    ensures s != [] ==> s[0] in s
  {
  }

  /** A finite set of integers has only one strictly ascending enumeration. */
  lemma {:induction false} AscendingIsUnique(a: seq<int>, b: seq<int>)
    requires StrictlyAscending(a) && StrictlyAscending(b)
    requires forall k :: k in a <==> k in b
    ensures a == b
  {
    FirstIsMember(a);
    FirstIsMember(b);
    if a != [] {
      assert a[0] in b && b[0] in a;
      assert a[0] == b[0];
      forall k ensures k in a[1..] <==> k in b[1..] {
        if k in a[1..] { assert k in a && k > a[0]; }
        if k in b[1..] { assert k in b && k > b[0]; }
      }
      AscendingIsUnique(a[1..], b[1..]);
    }
  }

  lemma Inhabited(keys: set<int>)
    requires keys != {}
    ensures exists k :: k in keys
  {
    assert (forall k :: k !in keys) ==> keys == {};
  }

  ghost predicate IsLeast(k: int, keys: set<int>) {
    k in keys && forall j :: j in keys ==> k <= j
  }

  lemma LeastExists(keys: set<int>)
    requires keys != {}
    ensures exists k :: IsLeast(k, keys)
  {
    Inhabited(keys);
    var x :| x in keys;
    var rest := keys - {x};
    if rest == {} {
      assert keys == {x};
      assert IsLeast(x, keys);
    } else {
      LeastExists(rest);
      var m :| IsLeast(m, rest);
      assert keys == rest + {x};
      assert IsLeast(Min(x, m), keys);
    }
  }

  ghost function Least(keys: set<int>): (k: int)
    requires keys != {}
    ensures IsLeast(k, keys)
  {
    LeastExists(keys);
    var k :| IsLeast(k, keys);
    k
  }

  /** The members of a set in ascending order. */
  ghost function Ascending(keys: set<int>): seq<int>
    decreases |keys|
  {
    if keys == {} then [] else [Least(keys)] + Ascending(keys - {Least(keys)})
  }

  lemma LeastFirst(k: int, rest: seq<int>, keys: set<int>)
    requires IsLeast(k, keys) && StrictlyAscending(rest)
    requires forall x :: x in rest <==> x in keys - {k}
    ensures StrictlyAscending([k] + rest)
    ensures forall x :: x in [k] + rest <==> x in keys
  {
    assert forall i :: 0 <= i < |rest| ==> rest[i] in rest;
  }

  lemma {:induction false} AscendingEnumerates(keys: set<int>)
    ensures StrictlyAscending(Ascending(keys))
    ensures forall k :: k in Ascending(keys) <==> k in keys
    decreases |keys|
  {
    if keys != {} {
      var k := Least(keys);
      AscendingEnumerates(keys - {k});
      LeastFirst(k, Ascending(keys - {k}), keys);
    }
  }

  ghost predicate Distinct<T>(s: seq<T>) {
    forall i, j :: 0 <= i < j < |s| ==> s[i] != s[j]
  }

  lemma DistinctAppend<T>(s: seq<T>, x: T)
    requires Distinct(s) && x !in s
    ensures Distinct(s + [x])
  {
  }

  function Insert(k: int, s: seq<int>): (r: seq<int>)
    requires StrictlyAscending(s) && k !in s
    ensures StrictlyAscending(r)
    ensures forall x :: x in r <==> x == k || x in s
  {
    if s == [] || k < s[0] then [k] + s
    else
      assert s[0] in s;
      var rest := Insert(k, s[1..]);
      assert forall i :: 0 <= i < |rest| ==> rest[i] in rest;
      [s[0]] + rest
  }

  method Sort(s: seq<int>) returns (r: seq<int>)
    requires Distinct(s)
    ensures StrictlyAscending(r)
    ensures forall k :: k in r <==> k in s
  {
    r := [];
    for i := 0 to |s|
      invariant StrictlyAscending(r)
      invariant forall k :: k in r <==> k in s[..i]
    {
      assert s[..i + 1] == s[..i] + [s[i]];
      r := Insert(s[i], r);
    }
    assert s[..|s|] == s;
  }

  function Without<T(==)>(s: seq<T>, x: T): seq<T> {
    if s == [] then []
    else if s[0] == x then Without(s[1..], x)
    else [s[0]] + Without(s[1..], x)
  }

  lemma {:induction false} WithoutOfConcat<T>(a: seq<T>, b: seq<T>, x: T)
    ensures Without(a + b, x) == Without(a, x) + Without(b, x)
  {
    if a == [] {
      assert a + b == b;
    } else {
      assert (a + b)[1..] == a[1..] + b;
      WithoutOfConcat(a[1..], b, x);
    }
  }

  lemma {:induction false} WithoutShrinksIff<T>(s: seq<T>, x: T)
    ensures |Without(s, x)| <= |s|
    ensures |Without(s, x)| != |s| <==> x in s
  {
    if s != [] {
      WithoutShrinksIff(s[1..], x);
    }
  }

  lemma {:induction false} WithoutMembers<T(!new)>(s: seq<T>, x: T)
    ensures forall y :: y in Without(s, x) <==> y in s && y != x
  {
    if s != [] {
      WithoutMembers(s[1..], x);
    }
  }
}
