/** The iteration order of `std::map<std::string, V>`: strings compared
    lexicographically by character code (std::char_traits<char>::compare),
    and the sorted key sequence a range-for over such a map visits. */
module KeyOrder {

  /** Strict lexicographic order on strings: a proper prefix comes first,
      otherwise the first differing character decides. */
  predicate LexLess(a: string, b: string)
    decreases |a|
  {
    if |a| == 0 then |b| > 0
    else if |b| == 0 then false
    else if a[0] == b[0] then LexLess(a[1..], b[1..])
    else a[0] < b[0]
  }

  lemma {:induction false} LexLessIrreflexive(a: string)
    ensures !LexLess(a, a)
  {
    if |a| > 0 {
      LexLessIrreflexive(a[1..]);
    }
  }

  lemma {:induction false} LexLessTransitive(a: string, b: string, c: string)
    requires LexLess(a, b) && LexLess(b, c)
    ensures LexLess(a, c)
  {
    if |a| > 0 && |b| > 0 && |c| > 0 && a[0] == b[0] && b[0] == c[0] {
      LexLessTransitive(a[1..], b[1..], c[1..]);
    }
  }

  lemma {:induction false} LexLessTotal(a: string, b: string)
    requires a != b
    ensures LexLess(a, b) || LexLess(b, a)
  {
    if |a| > 0 && |b| > 0 && a[0] == b[0] {
      assert a == [a[0]] + a[1..] && b == [b[0]] + b[1..];
      LexLessTotal(a[1..], b[1..]);
    }
  }

  /** `k` is the first key of `keys` in map order. */
  predicate IsLeast(k: string, keys: set<string>) {
    k in keys && forall j :: j in keys && j != k ==> LexLess(k, j)
  }

  lemma {:induction false} LeastExists(keys: set<string>)
    requires keys != {}
    ensures exists k :: IsLeast(k, keys)
    decreases |keys|
  {
    var x :| x in keys;
    if keys == {x} {
      assert IsLeast(x, keys);
    } else {
      var rest := keys - {x};
      LeastExists(rest);
      var y :| IsLeast(y, rest);
      LexLessTotal(x, y);
      if LexLess(x, y) {
        forall j | j in keys && j != x
          ensures LexLess(x, j)
        {
          if j != y {
            LexLessTransitive(x, y, j);
          }
        }
        assert IsLeast(x, keys);
      } else {
        assert IsLeast(y, keys);
      }
    }
  }

  lemma LeastUnique(keys: set<string>)
    ensures forall a, b :: IsLeast(a, keys) && IsLeast(b, keys) ==> a == b
  {
    forall a, b | IsLeast(a, keys) && IsLeast(b, keys)
      ensures a == b
    {
      if a != b {
        LexLessIrreflexive(a);
        LexLessTransitive(a, b, a);
      }
    }
  }

  predicate StrictlySorted(ks: seq<string>) {
    forall i, j :: 0 <= i < j < |ks| ==> LexLess(ks[i], ks[j])
  }

  /** The keys of a map in the order a range-for over `std::map` visits
      them: every key exactly once, in strictly increasing order. */
  function SortedKeys(keys: set<string>): (ks: seq<string>)
    ensures |ks| == |keys|
    ensures forall i :: 0 <= i < |ks| ==> ks[i] in keys
    ensures forall k :: k in keys ==> k in ks
    ensures StrictlySorted(ks)
    decreases |keys|
  {
    if keys == {} then []
    else
      LeastExists(keys);
      LeastUnique(keys);
      var k :| IsLeast(k, keys);
      [k] + SortedKeys(keys - {k})
  }

  /** The first key in map order leads the enumeration. */
  lemma SortedKeysCons(keys: set<string>, k: string)
    requires IsLeast(k, keys)
    ensures SortedKeys(keys) == [k] + SortedKeys(keys - {k})
  {
    LeastUnique(keys);
  }

  /** The head of a strictly sorted enumeration of `keys` is the least key,
      and its tail enumerates the others. */
  lemma SortedHead(ks: seq<string>, keys: set<string>)
    requires 0 < |ks| && StrictlySorted(ks)
    requires forall i :: 0 <= i < |ks| ==> ks[i] in keys
    requires forall k :: k in keys ==> k in ks
    ensures IsLeast(ks[0], keys)
    ensures StrictlySorted(ks[1..])
    ensures forall i :: 0 <= i < |ks[1..]| ==> ks[1..][i] in keys - {ks[0]}
    ensures forall k :: k in keys - {ks[0]} ==> k in ks[1..]
  {
    var k := ks[0];
    var rest := keys - {k};
    forall j | j in keys && j != k
      ensures LexLess(k, j)
    {
      var i :| 0 <= i < |ks| && ks[i] == j;
      assert i != 0;
    }
    forall i | 0 <= i < |ks[1..]|
      ensures ks[1..][i] in rest
    {
      LexLessIrreflexive(k);
      assert LexLess(ks[0], ks[i + 1]);
    }
    forall j | j in rest
      ensures j in ks[1..]
    {
      var i :| 0 <= i < |ks| && ks[i] == j;
      assert i != 0;
      assert ks[1..][i - 1] == j;
    }
  }

  /** A strictly sorted sequence is the only enumeration of its elements
      in map order. */
  lemma {:induction false} SortedKeysUnique(ks: seq<string>, keys: set<string>)
    requires StrictlySorted(ks)
    requires forall i :: 0 <= i < |ks| ==> ks[i] in keys
    requires forall k :: k in keys ==> k in ks
    ensures SortedKeys(keys) == ks
    decreases |ks|
  {
    if |ks| == 0 {
      assert keys == {};
    } else {
      SortedHead(ks, keys);
      SortedKeysUnique(ks[1..], keys - {ks[0]});
      SortedKeysCons(keys, ks[0]);
      assert ks == [ks[0]] + ks[1..];
    }
  }
}
