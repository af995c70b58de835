/**
 * The order in which `keys.sorted()` lists dictionary keys, modelled as the strict
 * lexicographic order on character codes, and the sorted key list of a key set.
 */
module StringOrder {

  /** `a` sorts strictly before `b`. */
  predicate Less(a: string, b: string)
    decreases |a|
  {
    if |a| == 0 then |b| > 0
    else if |b| == 0 then false
    else if a[0] < b[0] then true
    else a[0] == b[0] && Less(a[1..], b[1..])
  }

  lemma {:induction false} LessIrreflexive(a: string)
    ensures !Less(a, a)
    decreases |a|
  {
    if |a| > 0 {
      LessIrreflexive(a[1..]);
    }
  }

  lemma {:induction false} LessTransitive(a: string, b: string, c: string)
    requires Less(a, b) && Less(b, c)
    ensures Less(a, c)
    decreases |a|
  {
    if |a| > 0 && a[0] == b[0] && b[0] == c[0] {
      LessTransitive(a[1..], b[1..], c[1..]);
    }
  }

  lemma {:induction false} LessTotal(a: string, b: string)
    ensures a == b || Less(a, b) || Less(b, a)
    decreases |a|
  {
    if |a| > 0 && |b| > 0 && a[0] == b[0] {
      LessTotal(a[1..], b[1..]);
      if a[1..] == b[1..] {
        assert a == [a[0]] + a[1..] && b == [b[0]] + b[1..];
      }
    }
  }

  lemma LessAsymmetric(a: string, b: string)
    requires Less(a, b)
    ensures !Less(b, a)
  {
    if Less(b, a) {
      LessTransitive(a, b, a);
      LessIrreflexive(a);
    }
  }

  /** Every element strictly precedes every later one: ascending and free of repeats. */
  predicate StrictlySorted(s: seq<string>)
  {
    forall i, j :: 0 <= i < j < |s| ==> Less(s[i], s[j])
  }

  /** `k` is a member of `keys` preceding every other member. */
  predicate IsLeast(k: string, keys: set<string>)
  {
    k in keys && forall j :: j in keys && j != k ==> Less(k, j)
  }

  lemma {:induction false} LeastExists(keys: set<string>)
    requires keys != {}
    ensures exists k :: IsLeast(k, keys)
    decreases keys
  {
    var x :| x in keys;
    var rest := keys - {x};
    if rest == {} {
      assert keys == {x};
      assert IsLeast(x, keys);
    } else {
      LeastExists(rest);
      var m :| IsLeast(m, rest);
      LessTotal(x, m);
      if Less(x, m) {
        forall j | j in keys && j != x
          ensures Less(x, j)
        {
          if j != m {
            LessTransitive(x, m, j);
          }
        }
        assert IsLeast(x, keys);
      } else {
        assert IsLeast(m, keys);
      }
    }
  }

  lemma LeastUnique(keys: set<string>)
    ensures forall a, b :: IsLeast(a, keys) && IsLeast(b, keys) ==> a == b
  {
    forall a, b | IsLeast(a, keys) && IsLeast(b, keys)
      ensures a == b
    {
      if a != b {
        LessAsymmetric(a, b);
      }
    }
  }

  /** The members of `keys` in ascending order, each exactly once. */
  function SortedKeys(keys: set<string>): (r: seq<string>)
    ensures StrictlySorted(r)
    ensures forall k :: k in keys <==> k in r
    ensures |r| == |keys|
    decreases keys
  {
    if keys == {} then []
    else
      LeastExists(keys);
      LeastUnique(keys);
      var k :| k in keys && IsLeast(k, keys);
      var rest := SortedKeys(keys - {k});
      assert forall j :: 0 <= j < |rest| ==> Less(k, rest[j]);
      [k] + rest
  }

  /** Only one strictly sorted sequence lists a given collection of strings. */
  lemma {:induction false} StrictlySortedUnique(s: seq<string>, t: seq<string>)
    requires StrictlySorted(s) && StrictlySorted(t)
    requires forall k :: k in s <==> k in t
    ensures s == t
    decreases |s|
  {
    if t != [] {
      assert t[0] in t;
    }
    if s != [] {
      assert s[0] in t;
      if t == [] {
        assert false;
      }
      var keys := set k | k in s;
      assert IsLeast(s[0], keys) by {
        forall j | j in keys && j != s[0]
          ensures Less(s[0], j)
        {
          var i :| 0 <= i < |s| && s[i] == j;
        }
      }
      assert IsLeast(t[0], keys) by {
        forall j | j in keys && j != t[0]
          ensures Less(t[0], j)
        {
          var i :| 0 <= i < |t| && t[i] == j;
        }
      }
      LeastUnique(keys);
      TailMembers(s);
      TailMembers(t);
      StrictlySortedUnique(s[1..], t[1..]);
      assert s == [s[0]] + s[1..];
      assert t == [t[0]] + t[1..];
    }
  }

  /** Past the head of a strictly sorted sequence come exactly the other members. */
  lemma TailMembers(s: seq<string>)
    requires StrictlySorted(s) && s != []
    ensures forall k :: k in s[1..] <==> k in s && k != s[0]
  {
    forall k | k in s[1..]
      ensures k != s[0]
    {
      var i :| 1 <= i < |s| && s[i] == k;
      LessIrreflexive(k);
    }
    assert s == [s[0]] + s[1..];
  }

  /** The sorted key list is the one strictly sorted listing of the set. */
  lemma SortedKeysCharacterized(keys: set<string>, s: seq<string>)
    requires StrictlySorted(s)
    requires forall k :: k in keys <==> k in s
    ensures SortedKeys(keys) == s
  {
    StrictlySortedUnique(SortedKeys(keys), s);
  }
}
