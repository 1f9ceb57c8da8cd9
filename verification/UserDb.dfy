/** The users collection and its cache as the program keeps them, each method tied to an operation of `Users`. */
module UserDb {
  import opened Wrappers
  import opened TtlCache
  import U = Users

  class UserDb {
    var docs: map<int, U.User>
    const cache: Cache<int, U.User>

    ghost function View(): U.Store
      reads this, cache
    {
      U.Store(docs, cache.data)
    }

    ghost predicate Valid()
    {
      cache.ttl == U.TTL
    }

    constructor ()
      ensures Valid() && fresh(cache) && View() == U.Store(map[], map[])
    {
      docs := map[];
      cache := new Cache<int, U.User>(U.TTL);
    }

    method AddUser(id: int, now: int, ok: bool) returns (added: bool)
      requires Valid()
      modifies this, cache
      ensures (added, View()) == U.AddUser(old(View()), id, now, ok)
    {
      var cached := cache.Get(id, now);
      if cached.Some? && !cached.value.blocked && !cached.value.deleted {
        return true;
      }
      if !ok {
        return false;
      }
      docs := docs[id := U.User(false, false)];
      cache.Set(id, U.User(false, false), now);
      added := true;
    }

    method SetUserFlag(id: int, f: U.Flag, value: bool, now: int, ok: bool) returns (done: bool)
      requires Valid()
      modifies this, cache
      ensures (done, View()) == U.SetFlag(old(View()), id, f, value, now, ok)
    {
      if !ok {
        return false;
      }
      var stored := if id in docs then docs[id] else U.User(false, false);
      docs := docs[id := if f == U.Blocked then stored.(blocked := value) else stored.(deleted := value)];
      var cached := cache.Get(id, now);
      var updated := if cached.Some? then cached.value else U.User(false, false);
      match f {
        case Blocked => updated := updated.(blocked := value);
        case Deleted => updated := updated.(deleted := value);
      }
      cache.Set(id, updated, now);
      done := true;
    }

    method RemoveUser(id: int, ok: bool) returns (done: bool)
      requires Valid()
      modifies this, cache
      ensures (done, View()) == U.RemoveUser(old(View()), id, ok)
    {
      if !ok {
        return false;
      }
      docs := docs - {id};
      cache.Delete(id);
      done := true;
    }

    method IsUserExist(id: int, now: int, ok: bool) returns (exists_: Option<bool>)
      requires Valid()
      modifies cache
      ensures (exists_, View()) == U.IsUserExist(old(View()), id, now, ok)
    {
      var cached := cache.Get(id, now);
      if cached.Some? {
        return Some(true);
      }
      if !ok {
        return None;
      }
      if id !in docs {
        return Some(false);
      }
      cache.Set(id, docs[id], now);
      exists_ := Some(true);
    }

    /**
     GetAllUsers, or GetActiveUsers when `activeOnly`: the cursor goes over the collection in some order and may fail
     after giving some of the matching documents.  `read` lists the documents that it gave.
     */
    method GetUsers(activeOnly: bool, now: int, order: seq<int>, failAfter: Option<nat>)
      returns (users: Option<seq<int>>, ghost read: seq<int>)
      requires Valid() && forall id :: id in order <==> id in docs
      requires forall i, j :: 0 <= i < j < |order| ==> order[i] != order[j]
      modifies cache
      ensures forall id :: id in read ==> id in docs && (activeOnly ==> U.ActiveIn(old(View()), id))
      ensures forall i, j :: 0 <= i < j < |read| ==> read[i] != read[j]
      ensures View() == U.Listed(old(View()), read, now)
      ensures users == None || users == Some(read)
      ensures users.Some? ==> forall id :: id in docs && (activeOnly ==> U.ActiveIn(old(View()), id)) ==> id in read
      ensures failAfter == None ==> users.Some?
    {
      var found: seq<int> := [];
      read := [];
      for k := 0 to |order|
        invariant found == read
        invariant forall id :: id in read <==> id in order[..k] && (activeOnly ==> U.Active(docs[id]))
        invariant forall i, j :: 0 <= i < j < |read| ==> read[i] != read[j]
        invariant View() == U.Listed(old(View()), read, now)
      {
        var id := order[k];
        assert order[..k + 1] == order[..k] + [id];
        if activeOnly && (docs[id].blocked || docs[id].deleted) {
          continue;  // not among the documents that match the query
        }
        if failAfter == Some(|found|) {
          return None, read;
        }
        assert (read + [id])[..|read|] == read;
        found, read := found + [id], read + [id];
        cache.Set(id, docs[id], now);
      }
      assert order[..|order|] == order;
      users := Some(found);
    }

    /** One update of many documents. */
    method UpdateMany(ids: seq<int>, f: U.Flag)
      modifies this`docs
      ensures docs == U.MarkDocs(old(docs), ids, f)
    {
      docs := map id | id in docs :: if id in ids then U.With(docs[id], f, true) else docs[id];
    }

    /** Every listed user is marked, chunk by chunk; a chunk whose write fails stops it after the chunks before. */
    method BulkSetFlag(ids: seq<int>, f: U.Flag, writes: nat -> bool) returns (done: bool, ghost marked: nat)
      requires Valid()
      modifies this, cache
      ensures marked <= |ids| && View() == U.Mark(old(View()), ids[..marked], f)
      ensures done <==> marked == |ids|
      ensures !done ==> exists chunk: nat :: marked == chunk * U.CHUNK && !writes(chunk)
    {
      var start, chunk := 0, 0;
      marked := 0;
      MarkNone(old(View()), f);
      assert ids[..0] == [];
      while start < |ids|
        invariant start == chunk * U.CHUNK && marked == if start < |ids| then start else |ids|
        invariant View() == U.Mark(old(View()), ids[..marked], f)
      {
        var end := if start + U.CHUNK < |ids| then start + U.CHUNK else |ids|;
        if !writes(chunk) {
          return false, marked;
        }
        ghost var before := View();
        UpdateMany(ids[start..end], f);
        for i := start to end
          invariant docs == U.MarkDocs(before.docs, ids[start..end], f)
          invariant cache.data == U.Forget(before.cache, ids[start..i])
        {
          assert ids[start..i + 1] == ids[start..i] + [ids[i]];
          cache.Delete(ids[i]);
        }
        MarkMore(old(View()), ids, start, end, f);
        start, chunk, marked := start + U.CHUNK, chunk + 1, end;
      }
      assert ids[..|ids|] == ids;
      done := true;
    }
  }

  lemma MarkNone(s: U.Store, f: U.Flag)
    ensures U.Mark(s, [], f) == s
  {
  }

  /** Marking one part after another is marking both. */
  lemma MarkMore(s: U.Store, ids: seq<int>, start: nat, end: nat, f: U.Flag)
    requires start <= end <= |ids|
    ensures U.Mark(U.Mark(s, ids[..start], f), ids[start..end], f) == U.Mark(s, ids[..end], f)
  {
    assert ids[..end] == ids[..start] + ids[start..end];
    assert forall id :: id in ids[..end] <==> id in ids[..start] || id in ids[start..end];
    var twice, once := U.Mark(U.Mark(s, ids[..start], f), ids[start..end], f), U.Mark(s, ids[..end], f);
    forall id | id in s.docs
      ensures twice.docs[id] == once.docs[id]
    {
      assert id in U.MarkDocs(s.docs, ids[..start], f);
    }
    assert twice.docs == once.docs;
    assert twice.cache == once.cache;
  }
}
