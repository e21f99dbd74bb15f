/** The order in which a QMap<QString, _> keeps its keys, and so the order of
    QMap::values(): ascending, comparing strings character by character. */
module KeyOrder {

  /** Lexicographic order on strings; a proper prefix comes first. */
  predicate Less(a: string, b: string)
    decreases |a|
  {
    if a == [] then b != []
    else if b == [] then false
    else if a[0] != b[0] then a[0] < b[0]
    else Less(a[1..], b[1..])
  }

  lemma {:induction false} LessIrreflexive(a: string)
    ensures !Less(a, a)
    decreases |a|
  {
    if a != [] {
      LessIrreflexive(a[1..]);
    }
  }

  lemma {:induction false} LessAsymmetric(a: string, b: string)
    requires Less(a, b)
    ensures !Less(b, a)
    decreases |a|
  {
    if a != [] && a[0] == b[0] {
      LessAsymmetric(a[1..], b[1..]);
    }
  }

  lemma {:induction false} LessTransitive(a: string, b: string, c: string)
    requires Less(a, b) && Less(b, c)
    ensures Less(a, c)
    decreases |a|
  {
    if a != [] && a[0] == b[0] && b[0] == c[0] {
      LessTransitive(a[1..], b[1..], c[1..]);
    }
  }

  lemma {:induction false} LessTotal(a: string, b: string)
    ensures a == b || Less(a, b) || Less(b, a)
    decreases |a|
  {
    if a != [] && b != [] && a[0] == b[0] {
      LessTotal(a[1..], b[1..]);
      assert a == [a[0]] + a[1..] && b == [b[0]] + b[1..];
    }
  }

  /** Strictly ascending keys: the key list of a QMap. */
  ghost predicate Sorted(s: seq<string>)
  {
    forall i, j | 0 <= i < j < |s| :: Less(s[i], s[j])
  }

  /** A sorted key list never names a key twice. */
  lemma SortedDistinct(s: seq<string>)
    requires Sorted(s)
    ensures forall i, j | 0 <= i < j < |s| :: s[i] != s[j]
  {
    forall i, j | 0 <= i < j < |s| ensures s[i] != s[j] {
      LessIrreflexive(s[i]);
    }
  }

  function KeySet(s: seq<string>): set<string>
  {
    set k | k in s
  }

  /** A sorted key list names each key once. */
  lemma {:induction false} SortedKeysDistinct(s: seq<string>)
    requires Sorted(s)
    ensures |KeySet(s)| == |s|
    decreases |s|
  {
    if s != [] {
      var t := s[1..];
      SortedTail(s);
      SortedKeysDistinct(t);
      forall j | 0 <= j < |t| ensures t[j] != s[0] {
        LessIrreflexive(s[0]);
        assert Less(s[0], s[j + 1]);
      }
      assert s[0] !in KeySet(t);
      assert KeySet(s) == {s[0]} + KeySet(t) by {
        assert s == [s[0]] + t;
      }
    }
  }

  /** Put a key into its place in an ascending key list (nothing to do if present). */
  function Insert(s: seq<string>, k: string): seq<string>
    decreases |s|
  {
    if s == [] then [k]
    else if k == s[0] then s
    else if Less(k, s[0]) then [k] + s
    else [s[0]] + Insert(s[1..], k)
  }

  lemma SortedCons(h: string, r: seq<string>)
    requires Sorted(r)
    requires forall x | x in r :: Less(h, x)
    ensures Sorted([h] + r)
  {
    var s := [h] + r;
    forall i, j | 0 <= i < j < |s| ensures Less(s[i], s[j]) {
      assert s[j] == r[j - 1];
      if i > 0 {
        assert s[i] == r[i - 1];
      }
    }
  }

  /** The tail of an ascending key list is ascending. */
  lemma SortedTail(s: seq<string>)
    requires Sorted(s) && s != []
    ensures Sorted(s[1..])
  {
    var t := s[1..];
    forall i, j | 0 <= i < j < |t| ensures Less(t[i], t[j]) {
      assert t[i] == s[i + 1] && t[j] == s[j + 1];
    }
  }

  /** A key below the head of an ascending list goes in front. */
  lemma InsertFront(s: seq<string>, k: string)
    requires Sorted(s) && s != [] && Less(k, s[0])
    ensures Sorted([k] + s)
    ensures k !in s
  {
    forall x | x in s ensures Less(k, x) {
      var j :| 0 <= j < |s| && s[j] == x;
      if j > 0 {
        LessTransitive(k, s[0], s[j]);
      }
    }
    SortedCons(k, s);
    LessIrreflexive(k);
  }

  /** Inserting keeps the list ascending, adds exactly the new key, and leaves a
      list that already holds the key as it was. */
  lemma {:induction false} InsertKeepsSorted(s: seq<string>, k: string)
    requires Sorted(s)
    ensures Sorted(Insert(s, k))
    ensures KeySet(Insert(s, k)) == KeySet(s) + {k}
    ensures k in s ==> Insert(s, k) == s
    decreases |s|
  {
    if s == [] {
    } else if k == s[0] {
    } else if Less(k, s[0]) {
      InsertFront(s, k);
      assert KeySet([k] + s) == KeySet(s) + {k};
    } else {
      InsertLater(s, k);
    }
  }

  /** A key above the head of an ascending list goes into the tail. */
  lemma {:induction false} InsertLater(s: seq<string>, k: string)
    requires Sorted(s) && s != [] && k != s[0] && !Less(k, s[0])
    ensures Insert(s, k) == [s[0]] + Insert(s[1..], k)
    ensures Sorted(Insert(s, k))
    ensures KeySet(Insert(s, k)) == KeySet(s) + {k}
    ensures k in s ==> Insert(s, k) == s
    decreases |s|, 0
  {
    LessTotal(k, s[0]);
    var t := s[1..];
    assert s == [s[0]] + t;
    SortedTail(s);
    InsertKeepsSorted(t, k);
    var r := Insert(t, k);
    forall x | x in r ensures Less(s[0], x) {
      assert x in KeySet(r);
      if x != k {
        var j :| 0 <= j < |t| && t[j] == x;
        assert s[j + 1] == x;
      }
    }
    SortedCons(s[0], r);
    assert KeySet([s[0]] + r) == {s[0]} + KeySet(r);
    assert KeySet(s) == {s[0]} + KeySet(t);
  }

  /** The values of a map listed in the order of the given keys (QMap::values()). */
  function ValuesIn<V>(keys: seq<string>, m: map<string, V>): seq<V>
    requires forall k | k in keys :: k in m
  {
    seq(|keys|, i requires 0 <= i < |keys| => m[keys[i]])
  }

  /** Listed in the map's own key order, the values hold one entry per key, and
      every stored value appears. */
  lemma ValuesOnePerKey<V>(keys: seq<string>, m: map<string, V>)
    requires Sorted(keys) && KeySet(keys) == m.Keys
    ensures |ValuesIn(keys, m)| == |m|
    ensures forall v :: v in ValuesIn(keys, m) <==> v in m.Values
  {
    SortedKeysDistinct(keys);
    assert |m.Keys| == |m|;
    var vs := ValuesIn(keys, m);
    forall v | v in m.Values ensures v in vs {
      var k :| k in m && m[k] == v;
      assert k in KeySet(keys);
      var i :| 0 <= i < |keys| && keys[i] == k;
      assert vs[i] == v;
    }
  }
}
