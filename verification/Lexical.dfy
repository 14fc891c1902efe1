// Byte-wise lexical order on keys, and the one sorted listing of a set of keys.

module Lexical {
  import opened Base

  type Key = Bytes

  predicate Less(a: Key, b: Key) {
    b != [] && (a == [] || a[0] < b[0] || (a[0] == b[0] && Less(a[1..], b[1..])))
  }

  /** The order of sort.Strings and of <= on strings: a proper prefix comes first, otherwise the first byte that differs decides. */
  lemma {:induction false} LessIsLexical(a: Key, b: Key)
    ensures Less(a, b) <==> a < b || exists i :: FirstDifference(a, b, i) && a[i] < b[i]
  {
    if a != [] && b != [] && a[0] == b[0] {
      LessIsLexical(a[1..], b[1..]);
      assert a == [a[0]] + a[1..] && b == [b[0]] + b[1..];
      if i :| FirstDifference(a[1..], b[1..], i) && a[1..][i] < b[1..][i] {
        assert a[..i + 1] == [a[0]] + a[1..][..i] && b[..i + 1] == [b[0]] + b[1..][..i];
        assert FirstDifference(a, b, i + 1);
      }
      if i :| FirstDifference(a, b, i) && a[i] < b[i] {
        assert a[1..][..i - 1] == a[..i][1..] && b[1..][..i - 1] == b[..i][1..];
        assert FirstDifference(a[1..], b[1..], i - 1);
      }
    } else if a != [] && b != [] {
      assert a[..0] == b[..0];
      assert FirstDifference(a, b, 0);
    }
  }

  ghost predicate FirstDifference(a: Key, b: Key, i: int) {
    0 <= i < |a| && i < |b| && a[..i] == b[..i] && a[i] != b[i]
  }

  lemma {:induction false} LessTransitive(a: Key, b: Key, c: Key)
    requires Less(a, b) && Less(b, c)
    ensures Less(a, c)
  {
    if a != [] && a[0] == b[0] && b[0] == c[0] {
      LessTransitive(a[1..], b[1..], c[1..]);
    }
  }

  lemma {:induction false} LessIrreflexive(a: Key)
    ensures !Less(a, a)
  {
    if a != [] {
      LessIrreflexive(a[1..]);
    }
  }

  lemma {:induction false} LessTotal(a: Key, b: Key)
    ensures a == b || Less(a, b) || Less(b, a)
  {
    if a != [] && b != [] && a[0] == b[0] {
      LessTotal(a[1..], b[1..]);
      assert a == [a[0]] + a[1..] && b == [b[0]] + b[1..];
    }
  }

  ghost predicate Increasing(keys: seq<Key>) {
    forall i, j :: 0 <= i < j < |keys| ==> Less(keys[i], keys[j])
  }

  ghost predicate IsLeast(m: Key, ks: set<Key>) {
    m in ks && forall k :: k in ks ==> k == m || Less(m, k)
  }

  lemma {:induction false} LeastExists(ks: set<Key>)
    requires ks != {}
    ensures exists m :: IsLeast(m, ks)
    decreases ks
  {
    var k :| k in ks;
    if ks == {k} {
      assert IsLeast(k, ks);
    } else {
      LeastExists(ks - {k});
      var least :| IsLeast(least, ks - {k});
      LessTotal(k, least);
      var m := if Less(k, least) then k else least;
      forall x | x in ks && x != m
        ensures Less(m, x)
      {
        if x != k && x != least && m == k {
          LessTransitive(k, least, x);
        }
      }
      assert IsLeast(m, ks);
    }
  }

  /** The keys of a set in lexical order. */
  ghost function Sorted(ks: set<Key>): (keys: seq<Key>)
    decreases ks
  {
    if ks == {} then []
    else
      LeastExists(ks);
      var m :| IsLeast(m, ks);
      [m] + Sorted(ks - {m})
  }

  lemma LeastFirst(m: Key, rest: seq<Key>, ks: set<Key>)
    requires IsLeast(m, ks) && Increasing(rest) && Elements(rest) == ks - {m}
    ensures Increasing([m] + rest) && Elements([m] + rest) == ks
  {
    forall j | 0 <= j < |rest|
      ensures Less(m, rest[j])
    {
      assert rest[j] in Elements(rest);
    }
    assert Elements([m] + rest) == {m} + Elements(rest);
  }

  lemma {:induction false} SortedIsListing(ks: set<Key>)
    ensures Increasing(Sorted(ks)) && Elements(Sorted(ks)) == ks && |Sorted(ks)| == |ks|
    decreases ks
  {
    if ks == {} {
    } else {
      LeastExists(ks);
      var m := Sorted(ks)[0];
      assert IsLeast(m, ks) && Sorted(ks) == [m] + Sorted(ks - {m});
      SortedIsListing(ks - {m});
      LeastFirst(m, Sorted(ks - {m}), ks);
    }
  }

  /** An increasing listing of a set is its sorted listing: there is only one. */
  lemma {:induction false} ListingIsSorted(keys: seq<Key>, ks: set<Key>)
    requires Increasing(keys) && Elements(keys) == ks
    ensures keys == Sorted(ks)
    decreases |keys|
  {
    SortedIsListing(ks);
    if keys == [] {
    } else {
      assert keys[0] in Elements(keys);
      LeastExists(ks);
      var m := Sorted(ks)[0];
      assert IsLeast(m, ks);
      var i :| 0 <= i < |keys| && keys[i] == m;
      if i != 0 {
        assert Less(keys[0], m) && Less(m, keys[0]);
        LessTransitive(m, keys[0], m);
        LessIrreflexive(m);
        assert false;
      }
      LessIrreflexive(m);
      forall j | 1 <= j < |keys|
        ensures keys[j] != m
      {
        assert Less(keys[0], keys[j]);
      }
      assert keys == [m] + keys[1..];
      assert Elements(keys[1..]) == ks - {m};
      ListingIsSorted(keys[1..], ks - {m});
      assert Sorted(ks) == [m] + Sorted(ks - {m});
    }
  }
}
