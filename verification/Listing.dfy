// Token-paginated listing (ports/storage/storagetest/reference.go): what one page is, and what a
// walk from page to page yields while the store may change in between.

module Listing {
  import opened Base
  import opened Lexical

  datatype Page = Page(keys: seq<Key>, next: Key)

  predicate After(token: Key, k: Key) {
    token == [] || Less(token, k)
  }

  /** What is left to list: the stored keys with the prefix, strictly after the cursor. */
  ghost function Remaining(stored: set<Key>, prefix: Key, token: Key): set<Key> {
    set k | k in stored && prefix <= k && After(token, k)
  }

  /** One page: the first limit remaining keys, and the last of them as cursor if some are left over. */
  ghost function PageOf(stored: set<Key>, prefix: Key, token: Key, limit: nat): Page
    requires limit > 0
  {
    var keys := Sorted(Remaining(stored, prefix, token));
    if |keys| <= limit then Page(keys, []) else Page(keys[..limit], keys[limit - 1])
  }

  /**
   * The end signal of a page, for any set of stored keys: it is given when nothing is left over,
   * and wrongly given in one case, a page of one that holds the empty key.
   */
  lemma EndSignal(stored: set<Key>, prefix: Key, token: Key, limit: nat)
    requires limit > 0
    ensures var left := Remaining(stored, prefix, token);
            PageOf(stored, prefix, token, limit).next == [] <==> |left| <= limit || (limit == 1 && [] in left)
  {
    var left := Remaining(stored, prefix, token);
    var keys := Sorted(left);
    SortedIsListing(left);
    if |left| > limit {
      if limit > 1 {
        assert Less(keys[0], keys[limit - 1]);
      } else if [] in left {
        assert [] in Elements(keys);
        var i :| 0 <= i < |keys| && keys[i] == [];
        assert i == 0 || Less(keys[0], keys[i]);
      } else {
        assert keys[0] in Elements(keys);
      }
    }
  }

  /** With the empty key stored, a walk can end with keys not listed. */
  lemma EmptyKeyEndsWalkEarly()
    ensures exists stored: set<Key> :: PageOf(stored, [], [], 1).next == []
                                       && exists k :: k in stored && k !in PageOf(stored, [], [], 1).keys
  {
    var stored: set<Key> := {[], [0]};
    var keys: seq<Key> := [[], [0]];
    assert Remaining(stored, [], []) == stored;
    assert Elements(keys) == stored;
    ListingIsSorted(keys, stored);
    assert PageOf(stored, [], [], 1) == Page([[]], []);
    var k: Key := [0];
    assert k in stored && k !in PageOf(stored, [], [], 1).keys;
  }

  // ----- walks -----

  /** One step of a walk: what was stored at that moment, the limit asked for, the page that came back. */
  datatype Visit = Visit(stored: set<Key>, limit: nat, page: Page)

  /** Where the next page starts: empty at first, then the last page's cursor. */
  function Cursor(walk: seq<Visit>): Key {
    if walk == [] then [] else walk[|walk| - 1].page.next
  }

  /**
   * A walk with a fixed prefix: each page is listed from whatever is stored then, with any positive
   * limit, starting at the cursor of the page before. It goes on only after a non-empty cursor.
   */
  ghost predicate IsWalk(prefix: Key, walk: seq<Visit>)
    decreases |walk|
  {
    walk == [] ||
    (var n := |walk| - 1;
     && IsWalk(prefix, walk[..n]) && (n > 0 ==> Cursor(walk[..n]) != [])
     && [] !in walk[n].stored && walk[n].limit > 0
     && walk[n].page == PageOf(walk[n].stored, prefix, Cursor(walk[..n]), walk[n].limit))
  }

  function Yielded(walk: seq<Visit>): seq<Key>
    decreases |walk|
  {
    if walk == [] then [] else Yielded(walk[..|walk| - 1]) + walk[|walk| - 1].page.keys
  }

  ghost predicate PresentThroughout(walk: seq<Visit>, k: Key) {
    forall i :: 0 <= i < |walk| ==> k in walk[i].stored
  }

  /** How far a walk has got: everything yielded is in order up to the cursor, and nothing lasting before it was missed. */
  ghost predicate Progress(walk: seq<Visit>, prefix: Key, yielded: seq<Key>, next: Key) {
    && Increasing(yielded)
    && (next != [] ==> yielded != [] && yielded[|yielded| - 1] == next)
    && (forall k :: PresentThroughout(walk, k) && prefix <= k && (next == [] || !Less(next, k)) ==> k in yielded)
  }

  lemma PageFacts(stored: set<Key>, prefix: Key, token: Key, limit: nat)
    requires limit > 0 && [] !in stored
    ensures var page := PageOf(stored, prefix, token, limit);
            && Increasing(page.keys)
            && (forall k :: k in page.keys ==> k in Remaining(stored, prefix, token))
            && (page.next != [] ==> page.keys != [] && page.keys[|page.keys| - 1] == page.next)
            && (forall k :: k in Remaining(stored, prefix, token) && (page.next == [] || !Less(page.next, k)) ==> k in page.keys)
  {
    var left := Remaining(stored, prefix, token);
    var keys := Sorted(left);
    var page := PageOf(stored, prefix, token, limit);
    SortedIsListing(left);
    EndSignal(stored, prefix, token, limit);
    forall k | k in page.keys
      ensures k in left
    {
      assert k in Elements(keys);
    }
    forall k | k in left && (page.next == [] || !Less(page.next, k))
      ensures k in page.keys
    {
      assert k in Elements(keys);
      var i :| 0 <= i < |keys| && keys[i] == k;
      assert i < |page.keys| && page.keys[i] == k;
    }
  }

  lemma IncreasingJoin(a: seq<Key>, b: seq<Key>)
    requires Increasing(a) && Increasing(b)
    requires a != [] ==> forall k :: k in b ==> Less(a[|a| - 1], k)
    ensures Increasing(a + b)
  {
    forall i, j | 0 <= i < j < |a + b|
      ensures Less((a + b)[i], (a + b)[j])
    {
      if i < |a| <= j {
        assert b[j - |a|] in b;
        if i < |a| - 1 {
          LessTransitive(a[i], a[|a| - 1], b[j - |a|]);
        }
      }
    }
  }

  /** Listing one more page from the cursor is progress. */
  lemma PageProgress(walk: seq<Visit>, v: Visit, prefix: Key, before: seq<Key>, token: Key)
    requires v.limit > 0 && [] !in v.stored && v.page == PageOf(v.stored, prefix, token, v.limit)
    requires if walk == [] then before == [] && token == [] else token != [] && Progress(walk, prefix, before, token)
    ensures Progress(walk + [v], prefix, before + v.page.keys, v.page.next)
  {
    PageFacts(v.stored, prefix, token, v.limit);
    IncreasingJoin(before, v.page.keys);
    forall k | PresentThroughout(walk + [v], k) && prefix <= k && (v.page.next == [] || !Less(v.page.next, k))
      ensures k in before + v.page.keys
    {
      assert k in (walk + [v])[|walk|].stored;
      if After(token, k) {
        assert k in Remaining(v.stored, prefix, token);
      } else {
        forall i | 0 <= i < |walk|
          ensures k in walk[i].stored
        {
          assert (walk + [v])[i] == walk[i];
        }
        assert PresentThroughout(walk, k);
      }
    }
  }

  lemma {:induction false} WalkProgress(prefix: Key, walk: seq<Visit>)
    requires IsWalk(prefix, walk) && walk != []
    ensures Progress(walk, prefix, Yielded(walk), Cursor(walk))
    decreases |walk|
  {
    var n := |walk| - 1;
    if n > 0 {
      WalkProgress(prefix, walk[..n]);
    }
    PageProgress(walk[..n], walk[n], prefix, Yielded(walk[..n]), Cursor(walk[..n]));
    assert walk[..n] + [walk[n]] == walk;
  }

  lemma {:induction false} ListedWasStored(prefix: Key, walk: seq<Visit>, i: nat, k: Key)
    requires IsWalk(prefix, walk) && i < |walk| && k in walk[i].page.keys
    ensures k in walk[i].stored && prefix <= k
    decreases |walk|
  {
    var n := |walk| - 1;
    if i < n {
      ListedWasStored(prefix, walk[..n], i, k);
    } else {
      PageFacts(walk[n].stored, prefix, Cursor(walk[..n]), walk[n].limit);
    }
  }

  /**
   * A walk yields strictly increasing keys, so none twice, whatever is stored and deleted between
   * its pages; each key was stored and had the prefix when it was listed; and when the walk ends it
   * has listed every key with the prefix that was stored throughout.
   */
  lemma WalkIsSound(prefix: Key, walk: seq<Visit>)
    requires IsWalk(prefix, walk) && walk != []
    ensures Increasing(Yielded(walk))
    ensures forall i, k :: 0 <= i < |walk| && k in walk[i].page.keys ==> k in walk[i].stored && prefix <= k
    ensures Cursor(walk) == [] ==> forall k :: PresentThroughout(walk, k) && prefix <= k ==> k in Yielded(walk)
  {
    WalkProgress(prefix, walk);
    forall i, k | 0 <= i < |walk| && k in walk[i].page.keys
      ensures k in walk[i].stored && prefix <= k
    {
      ListedWasStored(prefix, walk, i, k);
    }
  }

  // ----- walks over a store that does not change -----

  ghost predicate Still(walk: seq<Visit>, stored: set<Key>, limit: nat) {
    forall i :: 0 <= i < |walk| ==> walk[i].stored == stored && walk[i].limit == limit
  }

  /** Exactly the keys from position c on come after the key before that position. */
  lemma AfterPosition(keys: seq<Key>, c: nat, i: nat)
    requires Increasing(keys) && 0 < c <= |keys| && i < |keys|
    ensures Less(keys[c - 1], keys[i]) <==> c <= i
  {
    LessIrreflexive(keys[c - 1]);
    if i < c - 1 && Less(keys[c - 1], keys[i]) {
      LessTransitive(keys[i], keys[c - 1], keys[i]);
      LessIrreflexive(keys[i]);
    }
  }

  /** After a cursor taken from the sorted listing, what remains is the rest of that listing. */
  lemma RemainingAfter(stored: set<Key>, prefix: Key, c: nat)
    requires [] !in stored && 0 < c <= |Remaining(stored, prefix, [])|
    ensures |Sorted(Remaining(stored, prefix, []))| == |Remaining(stored, prefix, [])|
    ensures var keys := Sorted(Remaining(stored, prefix, []));
            Sorted(Remaining(stored, prefix, keys[c - 1])) == keys[c..]
  {
    var all := Remaining(stored, prefix, []);
    var keys := Sorted(all);
    SortedIsListing(all);
    var token := keys[c - 1];
    assert token in Elements(keys);
    forall k
      ensures k in Remaining(stored, prefix, token) <==> k in keys[c..]
    {
      assert k in all <==> k in Elements(keys);
      if k in keys {
        var i :| 0 <= i < |keys| && keys[i] == k;
        AfterPosition(keys, c, i);
        if c <= i {
          assert keys[c..][i - c] == k;
        }
      }
    }
    assert Elements(keys[c..]) == Remaining(stored, prefix, token);
    ListingIsSorted(keys[c..], Remaining(stored, prefix, token));
  }

  /** The first c keys have been listed, and the last of them is the cursor while keys are left. */
  ghost predicate Listed(keys: seq<Key>, c: nat, yielded: seq<Key>, next: Key) {
    if |keys| <= c then yielded == keys && next == []
    else c > 0 && yielded == keys[..c] && next == keys[c - 1] && next != []
  }

  lemma ListedGoesOn(keys: seq<Key>, c: nat, limit: nat, page: Page)
    requires limit > 0 && c <= |keys|
    requires page == if |keys[c..]| <= limit then Page(keys[c..], []) else Page(keys[c..][..limit], keys[c..][limit - 1])
    requires |keys[c..]| > limit ==> page.next != []
    ensures Listed(keys, c + limit, keys[..c] + page.keys, page.next)
  {
    if |keys| <= c + limit {
      assert keys[..c] + keys[c..] == keys;
    } else {
      assert keys[..c] + keys[c..][..limit] == keys[..c + limit];
    }
  }

  lemma NextPageListed(stored: set<Key>, prefix: Key, limit: nat, c: nat, before: seq<Key>, token: Key)
    requires limit > 0 && [] !in stored
    requires if c == 0 then before == [] && token == []
             else token != [] && Listed(Sorted(Remaining(stored, prefix, [])), c, before, token)
    ensures var page := PageOf(stored, prefix, token, limit);
            Listed(Sorted(Remaining(stored, prefix, [])), c + limit, before + page.keys, page.next)
  {
    var keys := Sorted(Remaining(stored, prefix, []));
    SortedIsListing(Remaining(stored, prefix, []));
    if c > 0 {
      RemainingAfter(stored, prefix, c);
    }
    assert Sorted(Remaining(stored, prefix, token)) == keys[c..] && before == keys[..c];
    SortedIsListing(Remaining(stored, prefix, token));
    EndSignal(stored, prefix, token, limit);
    ListedGoesOn(keys, c, limit, PageOf(stored, prefix, token, limit));
  }

  /** How many keys p full pages hold. */
  function Capacity(p: nat, limit: nat): nat {
    if p == 0 then 0 else Capacity(p - 1, limit) + limit
  }

  /** p pages have listed the first p * limit keys. */
  lemma {:induction false} StillProgress(stored: set<Key>, limit: nat, prefix: Key, walk: seq<Visit>)
    requires limit > 0 && IsWalk(prefix, walk) && walk != [] && Still(walk, stored, limit)
    ensures Listed(Sorted(Remaining(stored, prefix, [])), Capacity(|walk|, limit), Yielded(walk), Cursor(walk))
    decreases |walk|
  {
    var n := |walk| - 1;
    if n > 0 {
      StillProgress(stored, limit, prefix, walk[..n]);
    }
    NextPageListed(stored, prefix, limit, Capacity(n, limit), Yielded(walk[..n]), Cursor(walk[..n]));
  }

  /** How many pages n keys take: at least one, the last one never empty unless it is the only one. */
  function PageCount(n: nat, limit: nat): nat
    requires limit > 0
  {
    if n <= limit then 1 else 1 + PageCount(n - limit, limit)
  }

  lemma {:induction false} PagesNeeded(n: nat, limit: nat, p: nat)
    requires limit > 0 && p > 0 && (p == 1 || n > Capacity(p - 1, limit))
    ensures p <= PageCount(n, limit)
    ensures n <= Capacity(p, limit) <==> p == PageCount(n, limit)
    decreases p
  {
    if p > 1 {
      PagesNeeded(n - limit, limit, p - 1);
    }
  }

  lemma {:induction false} CapacityIsProduct(p: nat, limit: nat)
    ensures Capacity(p, limit) == p * limit
  {
    if p > 0 {
      CapacityIsProduct(p - 1, limit);
    }
  }

  lemma MulMonotone(a: nat, b: nat, d: nat)
    requires a <= b
    ensures a * d <= b * d
  {
  }

  lemma QuotientIs(q: nat, d: nat, p: nat)
    requires d > 0 && p * d <= q < p * d + d
    ensures q / d == p
  {
    var m := q / d;
    assert m * d <= q < m * d + d;
    if m < p {
      MulMonotone(m + 1, p, d);
    } else if m > p {
      MulMonotone(p + 1, m, d);
    }
  }

  lemma DivideStep(x: nat, d: nat)
    requires d > 0
    ensures (x + d) / d == x / d + 1
  {
    var q := x / d;
    assert q * d <= x < q * d + d;
    assert (q + 1) * d == q * d + d;
    QuotientIs(x + d, d, q + 1);
  }

  /** The count is max(1, ceil(n / limit)). */
  lemma {:induction false} PageCountIsCeiling(n: nat, limit: nat)
    requires limit > 0
    ensures PageCount(n, limit) == if n == 0 then 1 else (n - 1 + limit) / limit
  {
    if n == 0 {
    } else if n <= limit {
      QuotientIs(n - 1, limit, 0);
      DivideStep(n - 1, limit);
    } else {
      PageCountIsCeiling(n - limit, limit);
      DivideStep(n - 1, limit);
    }
  }

  /**
   * Over a store that does not change, a walk ends exactly at its max(1, ceil(n / limit))th page,
   * and has then listed exactly the n matching keys in order.
   */
  lemma StillWalkIsExact(stored: set<Key>, limit: nat, prefix: Key, walk: seq<Visit>)
    requires limit > 0 && IsWalk(prefix, walk) && walk != [] && Still(walk, stored, limit)
    ensures var matching := Remaining(stored, prefix, []);
            && |walk| <= PageCount(|matching|, limit)
            && (Cursor(walk) == [] <==> |walk| == PageCount(|matching|, limit))
            && (Cursor(walk) == [] ==> Yielded(walk) == Sorted(matching))
  {
    SortedIsListing(Remaining(stored, prefix, []));
    StillProgress(stored, limit, prefix, walk);
    if |walk| > 1 {
      StillProgress(stored, limit, prefix, walk[..|walk| - 1]);
    }
    PagesNeeded(|Remaining(stored, prefix, [])|, limit, |walk|);
  }
}
