/** The deterministic key order of the canonical encoder: shorter keys first, then bytewise. */
module CborKeys {
  import opened Bytes

  predicate LexLess(a: Bytes, b: Bytes)
    requires |a| == |b|
  {
    a != [] && (a[0] < b[0] || (a[0] == b[0] && LexLess(a[1..], b[1..])))
  }

  predicate KeyLess(a: Bytes, b: Bytes) {
    |a| < |b| || (|a| == |b| && LexLess(a, b))
  }

  lemma {:induction false} LexTrichotomy(a: Bytes, b: Bytes)
    requires |a| == |b|
    ensures a == b || LexLess(a, b) || LexLess(b, a)
    ensures !LexLess(a, a) && !(LexLess(a, b) && LexLess(b, a))
  {
    if a != [] {
      LexTrichotomy(a[1..], b[1..]);
      assert a == [a[0]] + a[1..] && b == [b[0]] + b[1..];
    }
  }

  lemma {:induction false} LexTransitive(a: Bytes, b: Bytes, c: Bytes)
    requires |a| == |b| == |c| && LexLess(a, b) && LexLess(b, c)
    ensures LexLess(a, c)
  {
    if a[0] == b[0] == c[0] { LexTransitive(a[1..], b[1..], c[1..]); }
  }

  lemma KeyOrder(a: Bytes, b: Bytes)
    ensures a == b || KeyLess(a, b) || KeyLess(b, a)
    ensures !KeyLess(a, a) && !(KeyLess(a, b) && KeyLess(b, a))
  {
    LexTrichotomy(a, a);
    if |a| == |b| { LexTrichotomy(a, b); }
  }

  lemma KeyTransitive(a: Bytes, b: Bytes, c: Bytes)
    requires KeyLess(a, b) && KeyLess(b, c)
    ensures KeyLess(a, c)
  {
    if |a| == |b| == |c| { LexTransitive(a, b, c); }
  }

  predicate Ascending(keys: seq<Bytes>) {
    forall i, j :: 0 <= i < j < |keys| ==> KeyLess(keys[i], keys[j])
  }

  ghost predicate Lists(keys: seq<Bytes>, s: set<Bytes>) {
    Ascending(keys) && forall k :: k in keys <==> k in s
  }

  /** A key set has exactly one ascending listing, whatever order its keys arrived in. */
  lemma {:induction false} ListingUnique(a: seq<Bytes>, b: seq<Bytes>, s: set<Bytes>)
    requires Lists(a, s) && Lists(b, s)
    ensures a == b
    decreases |a|
  {
    assert b != [] ==> b[0] in b;
    if a != [] {
      assert a[0] in a && a[0] in b;
      assert b[0] in a;
      KeyOrder(a[0], b[0]);
      SameHead(a, b);
      ListingTail(a, s);
      ListingTail(b, s);
      ListingUnique(a[1..], b[1..], s - {a[0]});
      assert a == [a[0]] + a[1..] && b == [b[0]] + b[1..];
    }
  }

  lemma SameHead(a: seq<Bytes>, b: seq<Bytes>)
    requires Ascending(a) && Ascending(b) && a != [] && b != [] && a[0] in b && b[0] in a
    ensures a[0] == b[0]
  {
    var i :| 0 <= i < |b| && b[i] == a[0];
    var j :| 0 <= j < |a| && a[j] == b[0];
    KeyOrder(a[0], b[0]);
  }

  lemma ListingTail(a: seq<Bytes>, s: set<Bytes>)
    requires Lists(a, s) && a != []
    ensures Lists(a[1..], s - {a[0]})
  {
    forall k ensures k in a[1..] <==> k in s - {a[0]} {
      KeyOrder(a[0], a[0]);
      if k in a[1..] { var i :| 1 <= i < |a| && a[i] == k; }
    }
  }

  /** Insert a new key at its place. */
  function Insert(keys: seq<Bytes>, key: Bytes): seq<Bytes> {
    if keys == [] || KeyLess(key, keys[0]) then [key] + keys else [keys[0]] + Insert(keys[1..], key)
  }

  lemma {:induction false} InsertLists(keys: seq<Bytes>, key: Bytes, s: set<Bytes>)
    requires Lists(keys, s) && key !in s
    ensures Lists(Insert(keys, key), s + {key})
    decreases |keys|
  {
    if keys == [] {
    } else if KeyLess(key, keys[0]) {
      var result := [key] + keys;
      forall j | 0 < j < |result| ensures KeyLess(key, result[j]) {
        if j > 1 { KeyTransitive(key, keys[0], keys[j - 1]); }
      }
    } else {
      assert keys[0] in keys;
      KeyOrder(key, keys[0]);
      ListingTail(keys, s);
      InsertLists(keys[1..], key, s - {keys[0]});
      var tail := Insert(keys[1..], key);
      forall j | 0 <= j < |tail| ensures KeyLess(keys[0], tail[j]) {
        assert tail[j] in tail;
        if tail[j] != key { var i :| 1 <= i < |keys| && keys[i] == tail[j]; }
      }
      var result := [keys[0]] + tail;
      assert forall k :: k in result <==> k == keys[0] || k in tail;
    }
  }

  /** The ascending listing of a key set. */
  ghost function SortedKeys(s: set<Bytes>): (keys: seq<Bytes>)
    ensures Lists(keys, s) && |keys| == |s|
  {
    if s == {} then [] else
      var k :| k in s;
      var rest := SortedKeys(s - {k});
      InsertLists(rest, k, s - {k});
      assert s - {k} + {k} == s;
      InsertLength(rest, k);
      Insert(rest, k)
  }

  lemma {:induction false} InsertLength(keys: seq<Bytes>, key: Bytes)
    ensures |Insert(keys, key)| == |keys| + 1
    decreases |keys|
  {
    if keys != [] && !KeyLess(key, keys[0]) { InsertLength(keys[1..], key); }
  }

  /** Sort an object's keys, taken in any iteration order. */
  method SortKeys(s: set<Bytes>) returns (keys: seq<Bytes>)
    ensures keys == SortedKeys(s)
  {
    keys := [];
    var rest := s;
    while rest != {}
      invariant rest <= s
      invariant Lists(keys, s - rest)
      decreases rest
    {
      var k :| k in rest;
      InsertLists(keys, k, s - rest);
      assert s - rest + {k} == s - (rest - {k});
      keys := Insert(keys, k);
      rest := rest - {k};
    }
    assert s - rest == s;
    ListingUnique(keys, SortedKeys(s), s);
  }
}
