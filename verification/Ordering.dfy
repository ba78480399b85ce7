/**
 The order in which ready work is taken: oldest first, ties broken by identifier.
 Go visits a map in any order, so the collected keys are sorted before a limit is
 applied; everything here is independent of the order of collection.
 */
module Ordering {

  datatype Key = Key(time: nat, id: string)

  /** Go's `<` on strings. */
  predicate StringLess(a: string, b: string) {
    b != "" && (a == "" || a[0] < b[0] || (a[0] == b[0] && StringLess(a[1..], b[1..])))
  }

  predicate Before(a: Key, b: Key) {
    a.time < b.time || (a.time == b.time && StringLess(a.id, b.id))
  }

  lemma {:induction false} StringLessTotal(a: string, b: string)
    ensures a == b || StringLess(a, b) || StringLess(b, a)
    ensures !(StringLess(a, b) && StringLess(b, a))
    ensures !StringLess(a, a)
  {
    if a != "" && b != "" && a[0] == b[0] {
      StringLessTotal(a[1..], b[1..]);
      assert a == [a[0]] + a[1..] && b == [b[0]] + b[1..];
    }
    if a != "" {
      StringLessTotal(a[1..], a[1..]);
    }
  }

  lemma {:induction false} StringLessTransitive(a: string, b: string, c: string)
    requires StringLess(a, b) && StringLess(b, c)
    ensures StringLess(a, c)
  {
    if a != "" && a[0] == b[0] && b[0] == c[0] {
      StringLessTransitive(a[1..], b[1..], c[1..]);
    }
  }

  lemma BeforeTotal(a: Key, b: Key)
    ensures a == b || Before(a, b) || Before(b, a)
    ensures !(Before(a, b) && Before(b, a))
    ensures !Before(a, a)
  {
    StringLessTotal(a.id, b.id);
    StringLessTotal(a.id, a.id);
  }

  lemma BeforeTransitive(a: Key, b: Key, c: Key)
    requires Before(a, b) && Before(b, c)
    ensures Before(a, c)
  {
    if a.time == b.time == c.time {
      StringLessTransitive(a.id, b.id, c.id);
    }
  }

  ghost predicate Sorted(s: seq<Key>) {
    forall i, j :: 0 <= i < j < |s| ==> Before(s[i], s[j])
  }

  ghost function Elements(s: seq<Key>): set<Key> {
    set k | k in s
  }

  predicate Distinct<T(==)>(s: seq<T>) {
    forall i, j :: 0 <= i < j < |s| ==> s[i] != s[j]
  }

  lemma {:induction false} DistinctSize<T>(s: seq<T>)
    requires Distinct(s)
    ensures |set x | x in s| == |s|
  {
    if s != [] {
      var t := s[..|s| - 1];
      DistinctSize(t);
      assert s == t + [s[|s| - 1]];
      assert (set x | x in s) == (set x | x in t) + {s[|s| - 1]};
    }
  }

  lemma SortedIsDistinct(s: seq<Key>)
    requires Sorted(s)
    ensures Distinct(s)
  {
    forall i, j | 0 <= i < j < |s|
      ensures s[i] != s[j]
    {
      BeforeTotal(s[i], s[j]);
    }
  }

  /** A set has one sorted listing, however its elements were collected. */
  lemma {:induction false} SortedUnique(s: seq<Key>, t: seq<Key>)
    requires Sorted(s) && Sorted(t) && Elements(s) == Elements(t)
    ensures s == t
  {
    assert |s| == 0 <==> |t| == 0 by {
      if |s| > 0 { assert s[0] in Elements(s); }
      if |t| > 0 { assert t[0] in Elements(t); }
    }
    if s != [] {
      var a, b := s[0], t[0];
      assert a in Elements(t) && b in Elements(s);
      BeforeTotal(a, b);
      assert a == b;
      SortedIsDistinct(s);
      SortedIsDistinct(t);
      assert Elements(s[1..]) == Elements(s) - {a} by { TailElements(s); }
      assert Elements(t[1..]) == Elements(t) - {b} by { TailElements(t); }
      SortedUnique(s[1..], t[1..]);
      assert s == [a] + s[1..] && t == [b] + t[1..];
    }
  }

  lemma TailElements(s: seq<Key>)
    requires s != [] && Distinct(s)
    ensures Elements(s[1..]) == Elements(s) - {s[0]}
  {
    assert s == [s[0]] + s[1..];
    assert s[0] !in s[1..];
  }

  ghost predicate IsOldest(k: Key, keys: set<Key>) {
    k in keys && forall x :: x in keys && x != k ==> Before(k, x)
  }

  lemma {:induction false} OldestExists(keys: set<Key>)
    requires keys != {}
    ensures exists k :: IsOldest(k, keys)
    decreases |keys|
  {
    var k;
    var a :| a in keys;
    var rest := keys - {a};
    assert keys == rest + {a};
    if rest == {} {
      k := a;
    } else {
      OldestExists(rest);
      var b :| IsOldest(b, rest);
      BeforeTotal(a, b);
      k := if Before(b, a) then b else a;
      forall x | x in keys && x != k
        ensures Before(k, x)
      {
        if k == a && x != b { BeforeTransitive(a, b, x); }
      }
    }
    assert IsOldest(k, keys);
  }

  ghost function OldestKey(keys: set<Key>): (k: Key)
    requires keys != {}
    ensures IsOldest(k, keys)
  {
    OldestExists(keys);
    var k :| IsOldest(k, keys);
    k
  }

  /** The listing of a set from the oldest key to the newest. */
  ghost function OldestFirst(keys: set<Key>): seq<Key>
    decreases |keys|
  {
    if keys == {} then [] else [OldestKey(keys)] + OldestFirst(keys - {OldestKey(keys)})
  }

  lemma {:induction false} OldestFirstListing(keys: set<Key>)
    ensures var s := OldestFirst(keys); Sorted(s) && Elements(s) == keys && |s| == |keys|
    decreases |keys|
  {
    if keys != {} {
      var k := OldestKey(keys);
      var rest := OldestFirst(keys - {k});
      OldestFirstListing(keys - {k});
      PrependOldest(k, keys, rest);
    }
  }

  lemma PrependOldest(k: Key, keys: set<Key>, rest: seq<Key>)
    requires IsOldest(k, keys) && Sorted(rest) && Elements(rest) == keys - {k}
    ensures Sorted([k] + rest) && Elements([k] + rest) == keys
  {
    var s := [k] + rest;
    assert Elements(s) == {k} + Elements(rest) by {
      forall x | x in rest ensures x in s { var i :| 0 <= i < |rest| && rest[i] == x; assert s[i + 1] == x; }
    }
    forall i, j | 0 <= i < j < |s|
      ensures Before(s[i], s[j])
    {
      assert s[j] == rest[j - 1] && s[j] in Elements(rest);
      if i > 0 { assert s[i] == rest[i - 1]; }
    }
  }

  ghost function Oldest(keys: set<Key>, limit: nat): seq<Key> {
    var s := OldestFirst(keys);
    if |s| > limit then s[..limit] else s
  }

  /** A limited selection is full or complete, and nothing older is passed over. */
  lemma OldestIsFair(keys: set<Key>, limit: nat)
    ensures var s := Oldest(keys, limit);
            && Sorted(s) && Elements(s) <= keys
            && |s| == (if |keys| > limit then limit else |keys|)
            && forall taken, left :: taken in s && left in keys && left !in s ==> Before(taken, left)
  {
    var all := OldestFirst(keys);
    var s := Oldest(keys, limit);
    OldestFirstListing(keys);
    forall taken, left | taken in s && left in keys && left !in s
      ensures Before(taken, left)
    {
      assert left in Elements(all);
      var i :| 0 <= i < |s| && s[i] == taken;
      var j :| 0 <= j < |all| && all[j] == left;
      assert j >= |s|;
    }
  }

  /** Sorts the collected keys; the result depends on their set alone. */
  method SortOldestFirst(keys: seq<Key>) returns (out: seq<Key>)
    requires Distinct(keys)
    ensures out == OldestFirst(Elements(keys))
  {
    out := [];
    for n := 0 to |keys|
      invariant Sorted(out) && Elements(out) == Elements(keys[..n])
    {
      assert keys[n] !in keys[..n] && keys[n] !in Elements(out);
      out := Insert(out, keys[n]);
      assert keys[..n + 1] == keys[..n] + [keys[n]];
    }
    assert keys[..|keys|] == keys;
    OldestFirstListing(Elements(keys));
    SortedUnique(out, OldestFirst(Elements(keys)));
  }

  method Insert(s: seq<Key>, k: Key) returns (out: seq<Key>)
    requires Sorted(s)
    requires k !in s
    ensures Sorted(out) && Elements(out) == Elements(s) + {k}
  {
    var i := 0;
    while i < |s| && Before(s[i], k)
      invariant 0 <= i <= |s|
      invariant forall j :: 0 <= j < i ==> Before(s[j], k)
    {
      i := i + 1;
    }
    out := s[..i] + [k] + s[i..];
    forall j | i <= j < |s|
      ensures Before(k, s[j])
    {
      BeforeTotal(s[i], k);
      if i < j { BeforeTransitive(k, s[i], s[j]); }
    }
    assert s == s[..i] + s[i..];
  }
}
