/**
  The order in which the key-value store iterates: byte strings compared lexicographically. A
  Go string or byte slice used as a key is a Dafny string with one character per byte.
 */
module ByteOrder {
  predicate Less(a: string, b: string) {
    b != [] && (a == [] || a[0] < b[0] || (a[0] == b[0] && Less(a[1..], b[1..])))
  }

  predicate AtMost(a: string, b: string) {
    a == b || Less(a, b)
  }

  lemma {:induction false} LessIsTransitive(a: string, b: string, c: string)
    requires Less(a, b) && Less(b, c)
    ensures Less(a, c)
  {
    if a != [] && a[0] == b[0] == c[0] {
      LessIsTransitive(a[1..], b[1..], c[1..]);
    }
  }

  lemma {:induction false} LessIsTotal(a: string, b: string)
    ensures Less(a, b) || a == b || Less(b, a)
    ensures !(Less(a, b) && Less(b, a)) && (Less(a, b) ==> a != b)
  {
    if a != [] && b != [] && a[0] == b[0] {
      LessIsTotal(a[1..], b[1..]);
      if a[1..] == b[1..] {
        assert a == [a[0]] + a[1..] && b == [b[0]] + b[1..];
      }
    }
  }

  /** A common prefix does not change the comparison. */
  lemma {:induction false} LessUnderPrefix(p: string, a: string, b: string)
    ensures Less(p + a, p + b) == Less(a, b)
  {
    if p == [] {
      assert p + a == a && p + b == b;
    } else {
      assert (p + a)[1..] == p[1..] + a && (p + b)[1..] == p[1..] + b;
      LessUnderPrefix(p[1..], a, b);
    }
  }

  /** Prefixes of equal length decide first; what follows them matters only on a tie. */
  lemma {:induction false} LessOfPrefixes(a: string, x: string, b: string, y: string)
    requires |a| == |b| && Less(a, b)
    ensures Less(a + x, b + y)
  {
    assert (a + x)[1..] == a[1..] + x && (b + y)[1..] == b[1..] + y;
    if a[0] == b[0] {
      LessOfPrefixes(a[1..], x, b[1..], y);
    }
  }

  // ---------- sets of keys in order ----------

  ghost predicate IsLeast(k: string, keys: set<string>) {
    k in keys && forall x | x in keys :: AtMost(k, x)
  }

  lemma {:induction false} LeastExists(keys: set<string>)
    requires keys != {}
    ensures exists k :: IsLeast(k, keys)
    decreases |keys|
  {
    var x :| x in keys;
    var rest := keys - {x};
    if rest == {} {
      assert keys == {x};
      assert IsLeast(x, keys);
    } else {
      LeastExists(rest);
      var y :| IsLeast(y, rest);
      LessIsTotal(x, y);
      var k := if Less(x, y) then x else y;
      forall z | z in keys ensures AtMost(k, z) {
        if z != x {
          assert z in rest && AtMost(y, z);
          if Less(x, y) && Less(y, z) {
            LessIsTransitive(x, y, z);
          }
        }
      }
      assert IsLeast(k, keys);
    }
  }

  lemma LeastIsUnique(k: string, x: string, keys: set<string>)
    requires IsLeast(k, keys) && IsLeast(x, keys)
    ensures k == x
  {
    LessIsTotal(k, x);
  }

  ghost function Least(keys: set<string>): (k: string)
    requires keys != {}
    ensures IsLeast(k, keys)
  {
    LeastExists(keys);
    var k :| IsLeast(k, keys);
    k
  }

  /** The keys as the store's iterator visits them. */
  ghost function Sorted(keys: set<string>): (s: seq<string>)
    decreases |keys|
  {
    if keys == {} then [] else [Least(keys)] + Sorted(keys - {Least(keys)})
  }

  lemma SortedFromLeast(k: string, keys: set<string>)
    requires IsLeast(k, keys)
    ensures Sorted(keys) == [k] + Sorted(keys - {k})
  {
    LeastIsUnique(k, Least(keys), keys);
  }

  predicate Ascending(s: seq<string>) {
    forall i, j | 0 <= i < j < |s| :: Less(s[i], s[j])
  }

  lemma {:induction false} SortedIsAscending(keys: set<string>)
    ensures Ascending(Sorted(keys))
    ensures forall k :: k in Sorted(keys) <==> k in keys
    ensures |Sorted(keys)| == |keys|
    decreases |keys|
  {
    hide Less;
    if keys != {} {
      var least := Least(keys);
      var rest := Sorted(keys - {least});
      SortedIsAscending(keys - {least});
      forall j | 0 <= j < |rest| ensures Less(least, rest[j]) {
        assert rest[j] in rest;
      }
    }
  }

  /** There is only one way to list a set of keys in ascending order. */
  lemma {:induction false} SortedIsUnique(s: seq<string>, keys: set<string>)
    requires Ascending(s) && forall k :: k in s <==> k in keys
    ensures s == Sorted(keys)
    decreases |s|
  {
    if s == [] {
      assert keys == {};
    } else {
      assert s[0] in keys;
      assert IsLeast(s[0], keys);
      LeastIsUnique(s[0], Least(keys), keys);
      forall k ensures k in s[1..] <==> k in keys - {s[0]} {
        LessIsTotal(s[0], s[0]);
      }
      SortedIsUnique(s[1..], keys - {s[0]});
    }
  }
}
