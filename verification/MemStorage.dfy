// The in-memory object store of ports/storage/storagetest/reference.go.

module MemStorage {
  import opened Base
  import opened Lexical
  import opened Listing

  datatype Object = Object(data: Bytes, contentType: string, metadata: map<string, string>, updatedAt: int)

  datatype ObjectInfo = ObjectInfo(key: Key, size: nat, contentType: string, etag: string,
                                   updatedAt: int, metadata: map<string, string>)

  datatype Error = EmptyKey | NegativeSize | ContextDone | ReadFailed | SizeMismatch | NotFound | BadLimit

  datatype ObjectPage = ObjectPage(objects: seq<ObjectInfo>, nextToken: Key)

  datatype Listed = Listed(page: ObjectPage) | ListFailed(error: Error)

  const OCTET_STREAM := "application/octet-stream"

  function KeysOf(infos: seq<ObjectInfo>): seq<Key> {
    seq(|infos|, i requires 0 <= i < |infos| => infos[i].key)
  }

  /** What List reports of a stored object: everything but its metadata. */
  function Entry(k: Key, o: Object): ObjectInfo {
    ObjectInfo(k, |o.data|, o.contentType, "", o.updatedAt, map[])
  }

  /** The facts of an object that both Stat and List report. */
  ghost predicate Reports(info: ObjectInfo, o: Object) {
    info.size == |o.data| && info.contentType == o.contentType && info.etag == "" && info.updatedAt == o.updatedAt
  }

  /** Puts k at its place in lexical order. */
  method InsertKey(keys: seq<Key>, k: Key) returns (longer: seq<Key>)
    requires Increasing(keys) && k !in keys
    ensures Increasing(longer) && Elements(longer) == Elements(keys) + {k}
  {
    var i := 0;
    while i < |keys| && Less(keys[i], k)
      invariant 0 <= i <= |keys|
      invariant forall j :: 0 <= j < i ==> Less(keys[j], k)
    {
      i := i + 1;
    }
    longer := keys[..i] + [k] + keys[i..];
    forall j | i <= j < |keys|
      ensures Less(k, keys[j])
    {
      LessTotal(keys[i], k);
      if i < j {
        LessTransitive(k, keys[i], keys[j]);
      }
    }
  }

  /** Sorts distinct keys. */
  method SortKeys(keys: seq<Key>) returns (sorted: seq<Key>)
    requires forall i, j :: 0 <= i < j < |keys| ==> keys[i] != keys[j]
    ensures sorted == Sorted(Elements(keys))
  {
    sorted := [];
    var i := 0;
    while i < |keys|
      invariant 0 <= i <= |keys|
      invariant Increasing(sorted) && Elements(sorted) == Elements(keys[..i])
    {
      assert keys[i] !in Elements(keys[..i]);
      sorted := InsertKey(sorted, keys[i]);
      assert keys[..i + 1] == keys[..i] + [keys[i]];
      i := i + 1;
    }
    assert keys[..i] == keys;
    ListingIsSorted(sorted, Elements(keys));
  }

  /** Where the keys after the cursor begin in a sorted listing. */
  lemma CursorSplits(stored: set<Key>, prefix: Key, token: Key, c: nat)
    requires c <= |Sorted(Remaining(stored, prefix, []))|
    requires forall j :: 0 <= j < c ==> !After(token, Sorted(Remaining(stored, prefix, []))[j])
    requires c < |Sorted(Remaining(stored, prefix, []))| ==> After(token, Sorted(Remaining(stored, prefix, []))[c])
    ensures Sorted(Remaining(stored, prefix, token)) == Sorted(Remaining(stored, prefix, []))[c..]
  {
    var all := Remaining(stored, prefix, []);
    var keys := Sorted(all);
    SortedIsListing(all);
    forall k
      ensures k in Remaining(stored, prefix, token) <==> k in keys[c..]
    {
      assert k in all <==> k in Elements(keys);
      LessIrreflexive(k);
      if k in keys {
        var i :| 0 <= i < |keys| && keys[i] == k;
        if c < i && token != [] {
          LessTransitive(token, keys[c], keys[i]);
        }
        if c <= i {
          assert keys[c..][i - c] == k;
        }
      }
    }
    assert Elements(keys[c..]) == Remaining(stored, prefix, token);
    ListingIsSorted(keys[c..], Remaining(stored, prefix, token));
  }

  lemma FilledPage(stored: set<Key>, prefix: Key, token: Key, limit: nat, c: nat, page: seq<Key>)
    requires limit > 0
    requires var keys := Sorted(Remaining(stored, prefix, []));
             && c <= |keys| && (forall j :: 0 <= j < c ==> !After(token, keys[j])) && (c < |keys| ==> After(token, keys[c]))
             && |page| == (if |keys| - c > limit then limit else |keys| - c)
             && (forall j :: 0 <= j < |page| ==> page[j] == keys[c + j])
    ensures PageOf(stored, prefix, token, limit)
            == Page(page, if |Sorted(Remaining(stored, prefix, []))| - c > limit then page[limit - 1] else [])
  {
    var keys := Sorted(Remaining(stored, prefix, []));
    CursorSplits(stored, prefix, token, c);
    assert page == keys[c..][..|page|];
    if |keys| - c <= limit {
      assert keys[c..][..|page|] == keys[c..];
    }
  }

  class MemStorage {
    var objects: map<Key, Object>

    /** The empty key is never stored. */
    ghost predicate Valid()
      reads this
    {
      [] !in objects
    }

    constructor ()
      ensures Valid() && objects == map[]
    {
      objects := map[];
    }

    /** body is what the reader delivers, None when reading it fails. */
    method Put(ctxDone: bool, key: Key, body: Option<Bytes>, size: int, contentType: string,
               metadata: map<string, string>, now: int) returns (err: Option<Error>)
      requires Valid()
      modifies this
      ensures Valid()
      ensures err == None <==> key != [] && size >= 0 && !ctxDone && body.Some? && |body.value| == size
      ensures err.Some? ==> objects == old(objects)
      ensures err == None ==> key in objects && objects == old(objects)[key := objects[key]]
                              && objects[key].data == body.value && objects[key].metadata == metadata
                              && objects[key].contentType == (if contentType == "" then "application/octet-stream" else contentType)
                              && objects[key].updatedAt == now
      ensures key == [] ==> err == Some(EmptyKey)
      ensures key != [] && size < 0 ==> err == Some(NegativeSize)
      ensures key != [] && size >= 0 && ctxDone ==> err == Some(ContextDone)
      ensures key != [] && size >= 0 && !ctxDone && body == None ==> err == Some(ReadFailed)
      ensures key != [] && size >= 0 && !ctxDone && body.Some? && |body.value| != size ==> err == Some(SizeMismatch)
    {
      if key == [] {
        return Some(EmptyKey);
      }
      if size < 0 {
        return Some(NegativeSize);
      }
      if ctxDone {
        return Some(ContextDone);
      }
      if body == None {
        return Some(ReadFailed);
      }
      if |body.value| != size {
        return Some(SizeMismatch);
      }
      var ct := if contentType == "" then OCTET_STREAM else contentType;
      objects := objects[key := Object(body.value, ct, metadata, now)];
      return None;
    }

    /** Deleting is idempotent: an absent key is no error. */
    method Delete(ctxDone: bool, key: Key) returns (err: Option<Error>)
      requires Valid()
      modifies this
      ensures Valid()
      ensures err == if key == [] then Some(EmptyKey) else if ctxDone then Some(ContextDone) else None
      ensures objects == if err == None then old(objects) - {key} else old(objects)
    {
      if key == [] {
        return Some(EmptyKey);
      }
      if ctxDone {
        return Some(ContextDone);
      }
      objects := objects - {key};
      return None;
    }

    method Stat(ctxDone: bool, key: Key) returns (info: ObjectInfo, err: Option<Error>)
      requires Valid()
      ensures err == if key == [] then Some(EmptyKey) else if ctxDone then Some(ContextDone)
                     else if key !in objects then Some(NotFound) else None
      ensures err == None ==> info.key == key && Reports(info, objects[key]) && info.metadata == objects[key].metadata
    {
      info := ObjectInfo([], 0, "", "", 0, map[]);
      if key == [] {
        return info, Some(EmptyKey);
      }
      if ctxDone {
        return info, Some(ContextDone);
      }
      if key !in objects {
        return info, Some(NotFound);
      }
      var o := objects[key];
      return ObjectInfo(key, |o.data|, o.contentType, "", o.updatedAt, o.metadata), None;
    }

    /** The stored keys with the prefix, in the order the map happens to give them. */
    method Collect(prefix: Key) returns (keys: seq<Key>)
      ensures forall i, j :: 0 <= i < j < |keys| ==> keys[i] != keys[j]
      ensures Elements(keys) == Remaining(objects.Keys, prefix, [])
    {
      keys := [];
      var left := objects.Keys;
      while left != {}
        invariant left <= objects.Keys
        invariant forall i, j :: 0 <= i < j < |keys| ==> keys[i] != keys[j]
        invariant Elements(keys) == Remaining(objects.Keys - left, prefix, [])
        decreases left
      {
        var k :| k in left;
        if prefix <= k {
          assert k !in Elements(keys);
          assert Elements(keys + [k]) == Elements(keys) + {k};
          keys := keys + [k];
        }
        left := left - {k};
        assert Elements(keys) == Remaining(objects.Keys - left, prefix, []);
      }
      assert objects.Keys - left == objects.Keys;
    }

    /** Fills one page from sorted keys: skips those not after the cursor, stops at the limit if keys are left. */
    method FillPage(keys: seq<Key>, token: Key, limit: nat) returns (page: seq<ObjectInfo>, more: bool, ghost c: nat)
      requires Increasing(keys) && limit > 0 && forall k :: k in keys ==> k in objects
      ensures c <= |keys| && (forall j :: 0 <= j < c ==> !After(token, keys[j])) && (c < |keys| ==> After(token, keys[c]))
      ensures more <==> |keys| - c > limit
      ensures |page| == if more then limit else |keys| - c
      ensures forall j :: 0 <= j < |page| ==> page[j] == Entry(keys[c + j], objects[keys[c + j]])
    {
      page, c := [], 0;
      var i := 0;
      while i < |keys|
        invariant 0 <= c <= i <= |keys| && |page| == i - c <= limit
        invariant forall j :: 0 <= j < c ==> !After(token, keys[j])
        invariant c < i ==> After(token, keys[c])
        invariant forall j :: 0 <= j < |page| ==> page[j] == Entry(keys[c + j], objects[keys[c + j]])
      {
        var k := keys[i];
        if token != [] && (k == token || Less(k, token)) {
          NotAfter(token, k, keys, c, i);
          c := i + 1;
        } else {
          LessTotal(k, token);
          if |page| == limit {
            return page, true, c;
          }
          var o := objects[k];
          page := page + [ObjectInfo(k, |o.data|, o.contentType, "", o.updatedAt, map[])];
        }
        i := i + 1;
      }
      more := false;
    }

    method List(ctxDone: bool, prefix: Key, token: Key, limit: int) returns (res: Listed)
      requires Valid()
      ensures limit <= 0 ==> res == ListFailed(BadLimit)
      ensures limit > 0 && ctxDone ==> res == ListFailed(ContextDone)
      ensures limit > 0 && !ctxDone ==>
                && res.Listed?
                && PageOf(objects.Keys, prefix, token, limit) == Page(KeysOf(res.page.objects), res.page.nextToken)
                && forall info :: info in res.page.objects ==>
                     info.key in objects && Reports(info, objects[info.key]) && info.metadata == map[]
    {
      if limit <= 0 {
        return ListFailed(BadLimit);
      }
      if ctxDone {
        return ListFailed(ContextDone);
      }
      var keys := Collect(prefix);
      keys := SortKeys(keys);
      ghost var all := Remaining(objects.Keys, prefix, []);
      SortedIsListing(all);
      forall k | k in keys
        ensures k in objects
      {
        assert k in Elements(keys);
      }
      var page, more, c := FillPage(keys, token, limit);
      FilledPage(objects.Keys, prefix, token, limit, c, KeysOf(page));
      var next := if more then page[limit - 1].key else [];
      assert more ==> KeysOf(page)[limit - 1] == next;
      return Listed(ObjectPage(page, next));
    }
  }

  /** A key at or before the cursor comes before all keys after it. */
  lemma NotAfter(token: Key, k: Key, keys: seq<Key>, c: nat, i: nat)
    requires token != [] && (k == token || Less(k, token)) && Increasing(keys) && c <= i < |keys| && keys[i] == k
    requires c < i ==> After(token, keys[c])
    ensures !After(token, k) && c == i
  {
    CursorBehind(token, k);
    if c < i {
      LessTransitive(token, keys[c], k);
    }
  }

  lemma CursorBehind(token: Key, k: Key)
    requires k == token || Less(k, token)
    ensures !Less(token, k)
  {
    LessIrreflexive(token);
    if Less(k, token) && Less(token, k) {
      LessTransitive(token, k, token);
    }
  }

  lemma WalkGoesOn(prefix: Key, walk: seq<Visit>, v: Visit)
    requires IsWalk(prefix, walk) && (walk != [] ==> Cursor(walk) != []) && [] !in v.stored && v.limit > 0
    requires v.page == PageOf(v.stored, prefix, Cursor(walk), v.limit)
    ensures IsWalk(prefix, walk + [v]) && Cursor(walk + [v]) == v.page.next
    ensures Yielded(walk + [v]) == Yielded(walk) + v.page.keys
  {
    assert (walk + [v])[..|walk|] == walk;
  }

  /**
   * Walks page by page until the cursor comes back empty. Over a store left alone it lists exactly
   * the matching keys in order, in max(1, ceil(n / limit)) pages.
   */
  method ListAll(store: MemStorage, prefix: Key, limit: nat) returns (keys: seq<Key>, pages: nat)
    requires store.Valid() && limit > 0
    ensures keys == Sorted(Remaining(store.objects.Keys, prefix, []))
    ensures pages == PageCount(|Remaining(store.objects.Keys, prefix, [])|, limit)
  {
    ghost var stored, walk := store.objects.Keys, [];
    var token: Key := [];
    keys, pages := [], 0;
    while true
      invariant IsWalk(prefix, walk) && Still(walk, stored, limit) && |walk| == pages
      invariant Cursor(walk) == token && Yielded(walk) == keys && (walk != [] ==> token != [])
      invariant walk != [] ==> pages < PageCount(|Remaining(stored, prefix, [])|, limit)
      decreases PageCount(|Remaining(stored, prefix, [])|, limit) - pages
    {
      var res := store.List(false, prefix, token, limit);
      ghost var v := Visit(stored, limit, PageOf(stored, prefix, token, limit));
      WalkGoesOn(prefix, walk, v);
      walk := walk + [v];
      StillWalkIsExact(stored, limit, prefix, walk);
      keys, pages := keys + KeysOf(res.page.objects), pages + 1;
      token := res.page.nextToken;
      if token == [] {
        return;
      }
    }
  }

  // ----- a walk while others put and delete -----

  /** What may happen next: somebody's Put or Delete, or the walker asking for its next page. */
  datatype Move =
    | Store(key: Key, body: Option<Bytes>, size: int, contentType: string, metadata: map<string, string>, now: int, ctxDone: bool)
    | Remove(key: Key, ctxDone: bool)
    | Next(limit: int, ctxDone: bool)

  function Changed(m: Move, objects: map<Key, Object>): map<Key, Object> {
    match m
    case Store(key, body, size, contentType, metadata, now, ctxDone) =>
      if key != [] && !ctxDone && body.Some? && |body.value| == size
      then objects[key := Object(body.value, if contentType == "" then OCTET_STREAM else contentType, metadata, now)]
      else objects
    case Remove(key, ctxDone) => if key != [] && !ctxDone then objects - {key} else objects
    case Next(_, _) => objects
  }

  /** What is stored after the moves. */
  function Left(objects: map<Key, Object>, moves: seq<Move>): map<Key, Object> {
    if moves == [] then objects else Changed(moves[|moves| - 1], Left(objects, moves[..|moves| - 1]))
  }

  /** The walker gets a page: it asks properly, and its walk is not over. */
  predicate Turns(m: Move, walk: seq<Visit>) {
    m.Next? && m.limit > 0 && !m.ctxDone && (walk == [] || Cursor(walk) != [])
  }

  /** The walk that the moves amount to: each page is the one that the keys stored at that moment determine. */
  ghost function Walked(prefix: Key, objects: map<Key, Object>, moves: seq<Move>): seq<Visit> {
    if moves == [] then []
    else
      var n := |moves| - 1;
      var before := Walked(prefix, objects, moves[..n]);
      if Turns(moves[n], before) then
        var stored := Left(objects, moves[..n]).Keys;
        before + [Visit(stored, moves[n].limit, PageOf(stored, prefix, Cursor(before), moves[n].limit))]
      else before
  }

  lemma {:induction false} WalkedIsWalk(prefix: Key, objects: map<Key, Object>, moves: seq<Move>)
    requires [] !in objects
    ensures IsWalk(prefix, Walked(prefix, objects, moves))
    decreases |moves|
  {
    if moves != [] {
      var n := |moves| - 1;
      WalkedIsWalk(prefix, objects, moves[..n]);
      EmptyKeyStaysOut(objects, moves[..n]);
      var before := Walked(prefix, objects, moves[..n]);
      if Turns(moves[n], before) {
        TurnIsWalk(prefix, before, Left(objects, moves[..n]).Keys, moves[n].limit);
      }
    }
  }

  lemma TurnIsWalk(prefix: Key, before: seq<Visit>, stored: set<Key>, limit: nat)
    requires IsWalk(prefix, before) && (before != [] ==> Cursor(before) != []) && [] !in stored && limit > 0
    ensures IsWalk(prefix, before + [Visit(stored, limit, PageOf(stored, prefix, Cursor(before), limit))])
  {
    WalkGoesOn(prefix, before, Visit(stored, limit, PageOf(stored, prefix, Cursor(before), limit)));
  }

  lemma {:induction false} EmptyKeyStaysOut(objects: map<Key, Object>, moves: seq<Move>)
    requires [] !in objects
    ensures [] !in Left(objects, moves)
    decreases |moves|
  {
    if moves != [] {
      EmptyKeyStaysOut(objects, moves[..|moves| - 1]);
    }
  }

  /** The pages listed are those of the walk. */
  ghost predicate PagesOf(pages: seq<ObjectPage>, walk: seq<Visit>) {
    |pages| == |walk| && forall i :: 0 <= i < |pages| ==> walk[i].page == Page(KeysOf(pages[i].objects), pages[i].nextToken)
  }

  lemma PagesGoOn(pages: seq<ObjectPage>, walk: seq<Visit>, page: ObjectPage, v: Visit)
    requires PagesOf(pages, walk) && v.page == Page(KeysOf(page.objects), page.nextToken)
    ensures PagesOf(pages + [page], walk + [v])
  {
  }

  /** One move on the running store. */
  method Perform(m: Move, store: MemStorage, prefix: Key, token: Key, over: bool) returns (page: Option<ObjectPage>)
    requires store.Valid()
    modifies store
    ensures store.Valid() && store.objects == Changed(m, old(store.objects))
    ensures page.Some? <==> m.Next? && m.limit > 0 && !m.ctxDone && !over
    ensures page.Some? ==> PageOf(store.objects.Keys, prefix, token, m.limit)
                           == Page(KeysOf(page.value.objects), page.value.nextToken)
  {
    page := None;
    match m
    case Store(key, body, size, contentType, metadata, now, ctxDone) =>
      var err := store.Put(ctxDone, key, body, size, contentType, metadata, now);
    case Remove(key, ctxDone) =>
      var err := store.Delete(ctxDone, key);
    case Next(limit, ctxDone) =>
      if !over {
        var res := store.List(ctxDone, prefix, token, limit);
        if res.Listed? {
          page := Some(res.page);
        }
      }
  }

  /**
   * A walk over the running store while objects are put and deleted between its pages in any way:
   * it yields strictly increasing keys, each stored when it was listed, and if it comes to its end it
   * has yielded every matching key that was there throughout.
   */
  method WalkAmidChanges(store: MemStorage, prefix: Key, moves: seq<Move>) returns (pages: seq<ObjectPage>)
    requires store.Valid()
    modifies store
    ensures store.Valid() && store.objects == Left(old(store.objects), moves)
    ensures var walk := Walked(prefix, old(store.objects), moves);
            && IsWalk(prefix, walk) && PagesOf(pages, walk) && Increasing(Yielded(walk))
            && (forall i, k :: 0 <= i < |walk| && k in walk[i].page.keys ==> k in walk[i].stored && prefix <= k)
            && (walk != [] && Cursor(walk) == [] ==>
                  forall k :: PresentThroughout(walk, k) && prefix <= k ==> k in Yielded(walk))
  {
    ghost var start := store.objects;
    pages := [];
    ghost var walk := [];
    var token, n := [], 0;
    while n < |moves|
      invariant 0 <= n <= |moves| && store.Valid() && store.objects == Left(start, moves[..n])
      invariant walk == Walked(prefix, start, moves[..n]) && PagesOf(pages, walk) && token == Cursor(walk)
    {
      assert moves[..n + 1][..n] == moves[..n];
      var page := Perform(moves[n], store, prefix, token, pages != [] && token == []);
      if page.Some? {
        ghost var v := Visit(store.objects.Keys, moves[n].limit, PageOf(store.objects.Keys, prefix, token, moves[n].limit));
        PagesGoOn(pages, walk, page.value, v);
        pages, walk, token := pages + [page.value], walk + [v], page.value.nextToken;
      }
      n := n + 1;
    }
    assert moves[..n] == moves;
    WalkedIsWalk(prefix, start, moves);
    if walk != [] {
      WalkIsSound(prefix, walk);
    }
  }
}
