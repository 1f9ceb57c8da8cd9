/**
 The users collection behind a TTL cache (internal/db/users.go) and the bulk marking of unreachable users
 (internal/db/broadcast.go).  A write that fails changes nothing here, except where a lemma says otherwise.
 */
module Users {
  import opened Wrappers
  import opened TtlCache

  const TTL := 1_200_000_000_000  // 20 minutes in nanoseconds
  const CHUNK := 5000             // identifiers per bulk write

  datatype Flag = Blocked | Deleted

  datatype User = User(blocked: bool, deleted: bool)

  const FRESH := User(false, false)

  predicate Active(u: User) {
    !u.blocked && !u.deleted
  }

  function With(u: User, f: Flag, value: bool): User {
    match f
    case Blocked => u.(blocked := value)
    case Deleted => u.(deleted := value)
  }

  function Flagged(u: User, f: Flag): bool {
    match f
    case Blocked => u.blocked
    case Deleted => u.deleted
  }

  function Other(f: Flag): Flag {
    if f == Blocked then Deleted else Blocked
  }

  datatype Store = Store(docs: map<int, User>, cache: map<int, Item<User>>)

  predicate ActiveIn(s: Store, id: int) {
    id in s.docs && Active(s.docs[id])
  }

  function Remember(cache: map<int, Item<User>>, id: int, u: User, now: int): map<int, Item<User>> {
    cache[id := Item(u, now + TTL)]
  }

  // ----- one user -----

  /** Success, and the store afterwards; `ok` is whether a write, if there is one, succeeds. */
  function AddUser(s: Store, id: int, now: int, ok: bool): (bool, Store) {
    var hit, cache := Lookup(s.cache, id, now), Reap(s.cache, id, now);
    if hit.Some? && Active(hit.value) then (true, s.(cache := cache))
    else if !ok then (false, s.(cache := cache))
    else (true, Store(s.docs[id := FRESH], Remember(cache, id, FRESH, now)))
  }

  /** The stored document is updated or created; the cached one starts from what is cached, or from no flags. */
  function SetFlag(s: Store, id: int, f: Flag, value: bool, now: int, ok: bool): (bool, Store) {
    if !ok then (false, s) else
    var hit, cache := Lookup(s.cache, id, now), Reap(s.cache, id, now);
    var stored := if id in s.docs then s.docs[id] else FRESH;
    var cached := if hit.Some? then hit.value else FRESH;
    (true, Store(s.docs[id := With(stored, f, value)], Remember(cache, id, With(cached, f, value), now)))
  }

  function RemoveUser(s: Store, id: int, ok: bool): (bool, Store) {
    if ok then (true, Store(s.docs - {id}, s.cache - {id})) else (false, s)
  }

  /** None when the read fails. */
  function IsUserExist(s: Store, id: int, now: int, ok: bool): (Option<bool>, Store) {
    var hit, cache := Lookup(s.cache, id, now), Reap(s.cache, id, now);
    if hit.Some? then (Some(true), s.(cache := cache))
    else if !ok then (None, s.(cache := cache))
    else if id !in s.docs then (Some(false), s.(cache := cache))
    else (Some(true), s.(cache := Remember(cache, id, s.docs[id], now)))
  }

  // ----- many users -----

  /** A cursor has gone over the documents of `ids`, in that order, and cached each. */
  function Listed(s: Store, ids: seq<int>, now: int): Store
    requires forall id :: id in ids ==> id in s.docs
  {
    if ids == [] then s else
    var n := |ids| - 1;
    var s' := Listed(s, ids[..n], now);
    s'.(cache := Remember(s'.cache, ids[n], s.docs[ids[n]], now))
  }

  /** The flag set on the documents of `ids` that exist. */
  function MarkDocs(docs: map<int, User>, ids: seq<int>, f: Flag): map<int, User> {
    map id | id in docs :: if id in ids then With(docs[id], f, true) else docs[id]
  }

  function Forget(cache: map<int, Item<User>>, ids: seq<int>): map<int, Item<User>> {
    map id | id in cache && id !in ids :: cache[id]
  }

  /** The flag set on the listed users, whose cache entries are then dropped. */
  function Mark(s: Store, ids: seq<int>, f: Flag): Store {
    Store(MarkDocs(s.docs, ids, f), Forget(s.cache, ids))
  }

  // ----- weak coherence -----

  /** A cached user without flags is stored without flags, and a cached user is stored: enough for all readers. */
  ghost predicate Weak(s: Store) {
    forall id :: id in s.cache ==> id in s.docs && (Active(s.cache[id].value) ==> Active(s.docs[id]))
  }

  ghost predicate Coherent(s: Store) {
    forall id :: id in s.cache ==> id in s.docs && s.cache[id].value == s.docs[id]
  }

  datatype Op =
    | Add(id: int, now: int, ok: bool)
    | Set(id: int, f: Flag, value: bool, now: int, ok: bool)
    | Remove(id: int, ok: bool)
    | Exists(id: int, now: int, ok: bool)
    | List(ids: seq<int>, now: int)
    | Bulk(ids: seq<int>, f: Flag)      // the part of a bulk mark that was written
    | Evict(keys: set<int>, now: int)   // the janitor
    | Restore(docs: map<int, User>)     // RestoreFromZip, which leaves the cache alone

  predicate Possible(s: Store, op: Op) {
    op.List? ==> forall id :: id in op.ids ==> id in s.docs
  }

  function Step(s: Store, op: Op): Store
    requires Possible(s, op)
  {
    match op
    case Add(id, now, ok) => AddUser(s, id, now, ok).1
    case Set(id, f, value, now, ok) => SetFlag(s, id, f, value, now, ok).1
    case Remove(id, ok) => RemoveUser(s, id, ok).1
    case Exists(id, now, ok) => IsUserExist(s, id, now, ok).1
    case List(ids, now) => Listed(s, ids, now)
    case Bulk(ids, f) => Mark(s, ids, f)
    case Evict(keys, now) => s.(cache := ReapAll(s.cache, keys, now))
    case Restore(docs) => s.(docs := docs)
  }

  /** The states of a sequential run. */
  ghost predicate Run(states: seq<Store>, ops: seq<Op>) {
    && |states| == |ops| + 1
    && forall i :: 0 <= i < |ops| ==> Possible(states[i], ops[i]) && states[i + 1] == Step(states[i], ops[i])
  }

  lemma {:induction false} ListedCaches(s: Store, ids: seq<int>, now: int)
    requires forall id :: id in ids ==> id in s.docs
    ensures var s' := Listed(s, ids, now);
            && s'.docs == s.docs
            && forall id :: id in s'.cache ==>
                 if id in ids then s'.cache[id].value == s.docs[id] else id in s.cache && s'.cache[id] == s.cache[id]
  {
    if ids != [] {
      ListedCaches(s, ids[..|ids| - 1], now);
    }
  }

  /** What the program does: flags are only ever set, never cleared on their own, and nothing is restored. */
  predicate Usual(op: Op) {
    !op.Restore? && (op.Set? ==> op.value)
  }

  lemma StepKeepsWeak(s: Store, op: Op)
    requires Weak(s) && Possible(s, op) && Usual(op)
    ensures Weak(Step(s, op))
  {
    if op.List? {
      ListedCaches(s, op.ids, op.now);
    }
  }

  lemma {:induction false} RunKeepsWeak(states: seq<Store>, ops: seq<Op>, i: nat)
    requires Run(states, ops) && Weak(states[0]) && i <= |ops|
    requires forall k :: 0 <= k < |ops| ==> Usual(ops[k])
    ensures Weak(states[i])
  {
    if i > 0 {
      RunKeepsWeak(states, ops, i - 1);
      StepKeepsWeak(states[i - 1], ops[i - 1]);
    }
  }

  /** Clearing a flag keeps weak coherence exactly when the other flag is not hidden by the cache. */
  lemma ClearingKeepsWeakExactlyWhen(s: Store, id: int, f: Flag, now: int)
    requires Weak(s)
    ensures Weak(SetFlag(s, id, f, false, now, true).1) <==>
            (id in s.docs && Flagged(s.docs[id], Other(f)) ==>
               Lookup(s.cache, id, now).Some? && Flagged(Lookup(s.cache, id, now).value, Other(f)))
  {
    var s' := SetFlag(s, id, f, false, now, true).1;
    assert id in s'.cache && id in s'.docs;
  }

  /** Setting a flag leaves the cached user equal to the stored one exactly when their other flags agree. */
  lemma SettingKeepsCoherentExactlyWhen(s: Store, id: int, f: Flag, now: int)
    requires Coherent(s)
    ensures Coherent(SetFlag(s, id, f, true, now, true).1) <==>
            (id in s.docs && Flagged(s.docs[id], Other(f)) ==> Lookup(s.cache, id, now).Some?)
  {
    var s' := SetFlag(s, id, f, true, now, true).1;
    assert id in s'.cache && id in s'.docs;
  }

  /** A failed bulk write may have reached some users, and no entry is evicted. */
  lemma HalfWrittenKeepsWeakExactlyWhen(s: Store, reached: seq<int>, f: Flag)
    requires Weak(s)
    ensures Weak(s.(docs := MarkDocs(s.docs, reached, f))) <==>
            forall id :: id in reached && id in s.cache ==> !Active(s.cache[id].value)
  {
    var s' := s.(docs := MarkDocs(s.docs, reached, f));
    if Weak(s') {
      forall id | id in reached && id in s.cache
        ensures !Active(s.cache[id].value)
      {
        assert id in s'.cache && !Active(s'.docs[id]);
      }
    }
  }

  // ----- what weak coherence is enough for -----

  /** A successful AddUser leaves the user stored and active, also when the cache made it skip the write. */
  lemma AddUserActivates(s: Store, id: int, now: int, ok: bool)
    requires Weak(s)
    ensures var (added, s') := AddUser(s, id, now, ok);
            && (added <==> ok || (Lookup(s.cache, id, now).Some? && Active(Lookup(s.cache, id, now).value)))
            && (added ==> ActiveIn(s', id))
            && (!added ==> s'.docs == s.docs)
            && (forall other :: other != id ==> (ActiveIn(s', other) <==> ActiveIn(s, other)))
  {
  }

  /** Existence is answered exactly, from the cache or not. */
  lemma ExistsIsExact(s: Store, id: int, now: int, ok: bool)
    requires Weak(s)
    ensures var r := IsUserExist(s, id, now, ok).0;
            r.Some? ==> (r.value <==> id in s.docs)
  {
  }

  /** Nothing but adding makes a user active who is not. */
  predicate ReAdds(op: Op, id: int) {
    op.Add? && op.id == id
  }

  lemma StepKeepsInactive(s: Store, op: Op, id: int)
    requires Possible(s, op) && Usual(op) && !ReAdds(op, id) && !ActiveIn(s, id)
    ensures !ActiveIn(Step(s, op), id)
  {
    if op.List? {
      ListedCaches(s, op.ids, op.now);
    }
  }

  lemma {:induction false} StaysInactive(states: seq<Store>, ops: seq<Op>, id: int, i: nat)
    requires Run(states, ops) && i <= |ops| && !ActiveIn(states[0], id)
    requires forall k :: 0 <= k < |ops| ==> Usual(ops[k]) && !ReAdds(ops[k], id)
    ensures !ActiveIn(states[i], id)
  {
    if i > 0 {
      StaysInactive(states, ops, id, i - 1);
      StepKeepsInactive(states[i - 1], ops[i - 1], id);
    }
  }

  /**
   After a successful bulk mark every listed user is inactive, uncached, and stays inactive through any operations
   until added again; all other users are active exactly as before.
   */
  lemma MarkedUntilReAdded(s: Store, ids: seq<int>, f: Flag, states: seq<Store>, ops: seq<Op>, i: nat)
    requires Run(states, ops) && i <= |ops| && states[0] == Mark(s, ids, f)
    requires forall k :: 0 <= k < |ops| ==> Usual(ops[k])
    ensures forall id :: id in ids ==> !ActiveIn(states[0], id) && id !in states[0].cache
    ensures forall id :: id !in ids ==> (ActiveIn(states[0], id) <==> ActiveIn(s, id))
    ensures forall id :: id in ids && (forall k :: 0 <= k < |ops| ==> !ReAdds(ops[k], id)) ==> !ActiveIn(states[i], id)
  {
    forall id | id in ids && forall k :: 0 <= k < |ops| ==> !ReAdds(ops[k], id)
      ensures !ActiveIn(states[i], id)
    {
      StaysInactive(states, ops, id, i);
    }
  }

  // ----- what each operation leaves stored -----

  /** A successful AddUser that writes stores and caches a user without flags. */
  lemma AddUserMeaning(s: Store, id: int, now: int, later: int)
    requires !(Lookup(s.cache, id, now).Some? && Active(Lookup(s.cache, id, now).value))
    requires now <= later <= now + 1_200_000_000_000
    ensures var s' := AddUser(s, id, now, true).1;
            s'.docs == s.docs[id := User(false, false)] && Lookup(s'.cache, id, later) == Some(User(false, false))
  {
  }

  /** A flag is written to the document, of a new user if need be, whose other flag stays; and so in the cache. */
  lemma SetFlagMeaning(s: Store, id: int, value: bool, now: int, later: int)
    requires now <= later <= now + 1_200_000_000_000
    ensures var was := if id in s.docs then s.docs[id] else User(false, false);
            var seen := if Lookup(s.cache, id, now).Some? then Lookup(s.cache, id, now).value else User(false, false);
            var b, d := SetFlag(s, id, Blocked, value, now, true), SetFlag(s, id, Deleted, value, now, true);
            && b.0 && b.1.docs == s.docs[id := User(value, was.deleted)]
            && d.0 && d.1.docs == s.docs[id := User(was.blocked, value)]
            && Lookup(b.1.cache, id, later) == Some(User(value, seen.deleted))
            && Lookup(d.1.cache, id, later) == Some(User(seen.blocked, value))
    ensures forall f :: SetFlag(s, id, f, value, now, false) == (false, s)
  {
  }

  /** A removed user is neither stored nor cached, and the others stay; a removal that fails changes nothing. */
  lemma RemoveUserMeaning(s: Store, id: int, other: int)
    ensures var (done, s') := RemoveUser(s, id, true);
            && done && id !in s'.docs && id !in s'.cache
            && (other != id ==>
                  && (other in s'.docs <==> other in s.docs) && (other in s'.docs ==> s'.docs[other] == s.docs[other])
                  && (other in s'.cache <==> other in s.cache)
                  && (other in s'.cache ==> s'.cache[other] == s.cache[other]))
    ensures RemoveUser(s, id, false) == (false, s)
  {
  }

  /** Asking for a user changes no document, caches a stored one that was not cached, and fails only without a hit. */
  lemma IsUserExistMeaning(s: Store, id: int, now: int, later: int, ok: bool)
    requires now <= later <= now + 1_200_000_000_000
    ensures var (r, s') := IsUserExist(s, id, now, ok);
            && s'.docs == s.docs
            && (r == None <==> !ok && Lookup(s.cache, id, now) == None)
            && (ok && id in s.docs && Lookup(s.cache, id, now) == None ==>
                  Lookup(s'.cache, id, later) == Some(s.docs[id]))
  {
  }

  /** Reading many users changes no document and caches each of them for 20 minutes. */
  lemma {:induction false} ListedMeaning(s: Store, ids: seq<int>, now: int, later: int, id: int)
    requires (forall i :: i in ids ==> i in s.docs) && now <= later <= now + 1_200_000_000_000
    ensures var s' := Listed(s, ids, now);
            && s'.docs == s.docs
            && (id in ids ==> Lookup(s'.cache, id, later) == Some(s.docs[id]))
            && (id !in ids ==> Lookup(s'.cache, id, later) == Lookup(s.cache, id, later))
  {
    if ids != [] {
      var n := |ids| - 1;
      assert ids == ids[..n] + [ids[n]];
      ListedMeaning(s, ids[..n], now, later, id);
    }
  }

  /** A bulk mark sets its flag on the listed users that are stored, creates none, and drops their cache entries. */
  lemma MarkMeaning(s: Store, ids: seq<int>, id: int)
    ensures var b, d := Mark(s, ids, Blocked), Mark(s, ids, Deleted);
            && (id in b.docs <==> id in s.docs) && (id in d.docs <==> id in s.docs)
            && (id in s.docs && id in ids ==>
                  b.docs[id] == User(true, s.docs[id].deleted) && d.docs[id] == User(s.docs[id].blocked, true))
            && (id in s.docs && id !in ids ==> b.docs[id] == d.docs[id] == s.docs[id])
            && (id in b.cache <==> id in s.cache && id !in ids) && (id in d.cache <==> id in s.cache && id !in ids)
  {
  }
}
