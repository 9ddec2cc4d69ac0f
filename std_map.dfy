/**
 * A std::map with string keys, as the C++ code uses it (TStringMap and the
 * option map of the command-line checker): a list of entries kept strictly
 * sorted by key, so that iterating over the list is iterating over the map
 * from begin() to end().
 */
module StdMap {
  import opened Wrappers
  import opened Lex

  datatype Entry<V> = Entry(key: string, value: V)

  /** The set of keys present in the map. */
  function Keys<V>(m: seq<Entry<V>>): set<string>
  {
    if m == [] then {} else {m[0].key} + Keys(m[1..])
  }

  ghost predicate AllAbove(x: string, ks: set<string>)
  {
    forall y :: y in ks ==> Less(x, y)
  }

  /** Keys strictly increase from begin() to end(); in particular each key appears once. */
  ghost predicate Valid<V>(m: seq<Entry<V>>)
  {
    m == [] || (AllAbove(m[0].key, Keys(m[1..])) && Valid(m[1..]))
  }

  /** map::find: the value stored under k, or None when find returns end(). */
  function Get<V>(m: seq<Entry<V>>, k: string): (r: Option<V>)
    ensures r.Some? <==> k in Keys(m)
  {
    if m == [] then None
    else if m[0].key == k then Some(m[0].value)
    else Get(m[1..], k)
  }

  /** m[k] = v: overwrites the value of an existing key, otherwise inserts k in key order. */
  function Put<V>(m: seq<Entry<V>>, k: string, v: V): (r: seq<Entry<V>>)
    requires Valid(m)
    ensures Valid(r)
    ensures Keys(r) == Keys(m) + {k}
    ensures Get(r, k) == Some(v)
    ensures forall k' :: k' != k ==> Get(r, k') == Get(m, k')
    ensures |r| == if k in Keys(m) then |m| else |m| + 1
  {
    if m == [] then [Entry(k, v)]
    else if m[0].key == k then
      assert k !in Keys(m[1..]) by { LessIrreflexive(k); }
      [Entry(k, v)] + m[1..]
    else if Less(k, m[0].key) then
      assert k !in Keys(m) by {
        LessIrreflexive(k);
        forall y | y in Keys(m[1..]) ensures y != k {
          if y == k { LessAsymmetric(k, m[0].key); }
        }
      }
      assert AllAbove(k, Keys(m)) by {
        forall y | y in Keys(m) ensures Less(k, y) {
          if y != m[0].key { LessTransitive(k, m[0].key, y); }
        }
      }
      [Entry(k, v)] + m
    else
      LessTotal(k, m[0].key);
      assert m[0].key !in Keys(m[1..]) by { LessIrreflexive(m[0].key); }
      [m[0]] + Put(m[1..], k, v)
  }

  /** map::erase(k); erasing an absent key changes nothing. */
  function Remove<V>(m: seq<Entry<V>>, k: string): (r: seq<Entry<V>>)
    requires Valid(m)
    ensures Valid(r)
    ensures Keys(r) == Keys(m) - {k}
    ensures Get(r, k) == None
    ensures forall k' :: k' != k ==> Get(r, k') == Get(m, k')
    ensures |r| == if k in Keys(m) then |m| - 1 else |m|
  {
    if m == [] then []
    else if m[0].key == k then
      assert k !in Keys(m[1..]) by { LessIrreflexive(k); }
      m[1..]
    else
      assert m[0].key !in Keys(m[1..]) by { LessIrreflexive(m[0].key); }
      [m[0]] + Remove(m[1..], k)
  }

  /** A valid map holds exactly one entry per key. */
  lemma {:induction false} KeysCount<V>(m: seq<Entry<V>>)
    requires Valid(m)
    ensures |Keys(m)| == |m|
  {
    if m != [] {
      KeysCount(m[1..]);
      assert m[0].key !in Keys(m[1..]) by { LessIrreflexive(m[0].key); }
    }
  }

  /** The empty map is exactly the map without keys. */
  lemma {:induction false} EmptyIffNoKeys<V>(m: seq<Entry<V>>)
    ensures m == [] <==> Keys(m) == {}
  {
    if m != [] {
      assert m[0].key in Keys(m);
    }
  }

  /** The i-th entry from begin() is what find returns for its key. */
  lemma {:induction false} GetAt<V>(m: seq<Entry<V>>, i: nat)
    requires Valid(m) && i < |m|
    ensures m[i].key in Keys(m)
    ensures Get(m, m[i].key) == Some(m[i].value)
  {
    if i > 0 {
      GetAt(m[1..], i - 1);
      assert m[1..][i - 1] == m[i];
      LessIrreflexive(m[0].key);
    }
  }

  /** The first entry holds the least key. */
  lemma FirstKeyLeast<V>(m: seq<Entry<V>>)
    requires Valid(m) && m != []
    ensures forall k :: k in Keys(m) ==> k == m[0].key || Less(m[0].key, k)
    ensures m[0].key !in Keys(m[1..])
  {
    LessIrreflexive(m[0].key);
  }

  /** Two maps that agree on every lookup are the same map. */
  lemma {:induction false} SameLookups<V>(a: seq<Entry<V>>, b: seq<Entry<V>>)
    requires Valid(a) && Valid(b)
    requires forall k :: Get(a, k) == Get(b, k)
    ensures a == b
    decreases |a|
  {
    assert Keys(a) == Keys(b) by {
      forall k ensures k in Keys(a) <==> k in Keys(b) {
        assert Get(a, k) == Get(b, k);
      }
    }
    if a == [] {
      EmptyIffNoKeys(b);
    } else if b == [] {
      EmptyIffNoKeys(a);
    } else {
      var x, y := a[0].key, b[0].key;
      FirstKeyLeast(a);
      FirstKeyLeast(b);
      assert x in Keys(b) && y in Keys(a);
      if x != y {
        LessAsymmetric(y, x);
        assert false;
      }
      assert Get(a, x) == Some(a[0].value) && Get(b, x) == Some(b[0].value);
      forall k ensures Get(a[1..], k) == Get(b[1..], k) {
        if k != x {
          assert Get(a, k) == Get(a[1..], k) && Get(b, k) == Get(b[1..], k);
        }
      }
      SameLookups(a[1..], b[1..]);
      assert a == [a[0]] + a[1..] && b == [b[0]] + b[1..];
    }
  }
}
