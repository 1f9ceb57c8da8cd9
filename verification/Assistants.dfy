/**
 Which assistant account serves a chat: a document per chat, fronted by a TTL cache (internal/db/assistant.go), and
 the account choice on top of it (internal/calls/assistant.go).
 */
module Assistants {
  import opened Wrappers
  import opened TtlCache

  const TTL := 1_200_000_000_000  // 20 minutes in nanoseconds

  // A document may lack its number; decoding such a document yields zero.
  type Doc = Option<int>

  datatype Store = Store(docs: map<int, Doc>, cache: map<int, Item<int>>)

  function Num(d: Doc): int {
    if d.Some? then d.value else 0
  }

  /** What the collection says about a chat; -1 when it has no document. */
  function Stored(s: Store, chat: int): int {
    if chat in s.docs then Num(s.docs[chat]) else -1
  }

  function Remember(s: Store, chat: int, num: int, now: int): Store {
    s.(cache := s.cache[chat := Item(num, now + TTL)])
  }

  function GetAssistant(s: Store, chat: int, now: int): (int, Store) {
    var hit := Lookup(s.cache, chat, now);
    var s' := s.(cache := Reap(s.cache, chat, now));
    if hit.Some? then (hit.value, s')
    else if chat !in s.docs then (-1, s')
    else (Num(s.docs[chat]), Remember(s', chat, Num(s.docs[chat]), now))
  }

  function SetAssistant(s: Store, chat: int, num: int, now: int): Store {
    Remember(s.(docs := s.docs[chat := Some(num)]), chat, num, now)
  }

  function RemoveAssistant(s: Store, chat: int): Store {
    Store(s.docs - {chat}, s.cache - {chat})
  }

  /** Does the conditional upsert match no other assignment, so that it writes? */
  predicate Unassigned(s: Store, chat: int) {
    chat !in s.docs || s.docs[chat] == None || s.docs[chat] == Some(-1)
  }

  function AssignAssistant(s: Store, chat: int, proposed: int, now: int): (int, Store) {
    if Unassigned(s, chat) then
      var s' := s.(docs := s.docs[chat := Some(proposed)]);
      if s'.docs == s.docs then GetAssistant(s', chat, now)  // matched, but nothing modified
      else (proposed, Remember(s', chat, proposed, now))
    else GetAssistant(s, chat, now)                          // duplicate key
  }

  function ClearAll(s: Store): Store {
    Store(map[], map[])
  }

  // ----- coherence of the cache -----

  /** Every cached number, expired or not, is the stored one. */
  ghost predicate Coherent(s: Store) {
    forall chat :: chat in s.cache ==> chat in s.docs && s.cache[chat].value == Num(s.docs[chat])
  }

  datatype Op =
    | Get(chat: int, now: int)
    | Set(chat: int, num: int, now: int)
    | Remove(chat: int)
    | Assign(chat: int, proposed: int, now: int)
    | ClearEvery
    | Evict(keys: set<int>, now: int)   // the janitor
    | Restore(docs: map<int, Doc>)      // RestoreFromZip, which leaves the cache alone

  function Step(s: Store, op: Op): Store {
    match op
    case Get(c, now) => GetAssistant(s, c, now).1
    case Set(c, n, now) => SetAssistant(s, c, n, now)
    case Remove(c) => RemoveAssistant(s, c)
    case Assign(c, p, now) => AssignAssistant(s, c, p, now).1
    case ClearEvery => ClearAll(s)
    case Evict(keys, now) => s.(cache := ReapAll(s.cache, keys, now))
    case Restore(docs) => s.(docs := docs)
  }

  function Run(s: Store, ops: seq<Op>): Store
    decreases |ops|
  {
    if ops == [] then s else Run(Step(s, ops[0]), ops[1..])
  }

  lemma {:induction false} RunKeepsCoherent(s: Store, ops: seq<Op>)
    requires Coherent(s) && forall op :: op in ops ==> !op.Restore?
    ensures Coherent(Run(s, ops))
    decreases |ops|
  {
    if ops != [] {
      assert ops[0] in ops;
      RunKeepsCoherent(Step(s, ops[0]), ops[1..]);
    }
  }

  /** Does the conditional upsert change the stored assignment? */
  predicate Assigns(s: Store, chat: int, proposed: int) {
    Unassigned(s, chat) && !(chat in s.docs && s.docs[chat] == Some(proposed))
  }

  /**
   AssignAssistant is a compare-and-set in every state, coherent or not: it only ever writes over an absent
   assignment or -1.  What it returns is what is stored afterwards, except exactly when it changes nothing and a
   live cache entry disagrees with the collection.
   */
  lemma AssignIsCompareAndSet(s: Store, chat: int, proposed: int, now: int)
    ensures var (r, s') := AssignAssistant(s, chat, proposed, now);
            && s'.docs == (if chat !in s.docs || s.docs[chat] in {None, Some(-1)} then s.docs[chat := Some(proposed)]
                           else s.docs)
            && (r == Stored(s', chat) <==>
                  Assigns(s, chat, proposed) || Lookup(s.cache, chat, now) in {None, Some(Stored(s, chat))})
            && (Coherent(s) ==> r == Stored(s', chat))
  {
    if Unassigned(s, chat) {
      var docs := s.docs[chat := Some(proposed)];
      assert chat in docs && docs[chat] == Some(proposed);
      assert docs == s.docs <==> !Assigns(s, chat, proposed);
    }
  }

  /** A run that leads there: a restore replaces the document of a cached assignment. */
  lemma RestoreMisleadsAssign(chat: int, now: int)
    ensures var s := Run(Store(map[], map[]), [Op.Set(chat, 1, now), Op.Restore(map[chat := Some(2)])]);
            var (r, s') := AssignAssistant(s, chat, 0, now);
            r == 1 && Stored(s', chat) == 2
  {
    var ops := [Op.Set(chat, 1, now), Op.Restore(map[chat := Some(2)])];
    var s := Store(map[], map[]);
    assert ops[1..] == [ops[1]] && [ops[1]][1..] == [];
    assert Run(s, ops) == Run(Step(s, ops[0]), [ops[1]]) == Step(Step(s, ops[0]), ops[1]);
  }

  /** An operation that may change the assignment of `chat`. */
  predicate Reassigns(op: Op, chat: int) {
    match op
    case Set(c, _, _) => c == chat
    case Remove(c) => c == chat
    case ClearEvery => true
    case Restore(_) => true
    case _ => false
  }

  /** Until it is set, removed or cleared, an assignment outlives reads, races, expiries and evictions. */
  lemma {:induction false} AssignmentStays(s: Store, ops: seq<Op>, chat: int, num: int)
    requires Coherent(s) && chat in s.docs && s.docs[chat] == Some(num) && num != -1
    requires forall op :: op in ops ==> !Reassigns(op, chat) && !op.Restore?
    ensures var r := Run(s, ops); Coherent(r) && chat in r.docs && r.docs[chat] == Some(num)
    decreases |ops|
  {
    if ops != [] {
      assert ops[0] in ops;
      RunKeepsCoherent(s, ops[..1]);
      assert Run(s, ops[..1]) == Step(s, ops[0]) by {
        assert ops[..1][1..] == [];
      }
      AssignmentStays(Step(s, ops[0]), ops[1..], chat, num);
    }
  }

  /** A stored assignment that has been read or written is answered from the cache for the next 20 minutes. */
  lemma ReadIsCached(s: Store, chat: int, now: int, later: int)
    requires chat in s.docs && Lookup(s.cache, chat, now) == None && now <= later <= now + 1_200_000_000_000
    ensures var (r, s') := GetAssistant(s, chat, now);
            r == Num(s.docs[chat]) && s'.docs == s.docs && Lookup(s'.cache, chat, later) == Some(r)
  {
  }

  lemma SetIsStoredAndCached(s: Store, chat: int, num: int, now: int, later: int)
    requires now <= later <= now + 1_200_000_000_000
    ensures var s' := SetAssistant(s, chat, num, now);
            s'.docs == s.docs[chat := Some(num)] && Lookup(s'.cache, chat, later) == Some(num)
  {
  }

  lemma AssignedIsCached(s: Store, chat: int, proposed: int, now: int, later: int)
    requires Assigns(s, chat, proposed) && now <= later <= now + 1_200_000_000_000
    ensures var (r, s') := AssignAssistant(s, chat, proposed, now);
            r == proposed && Lookup(s'.cache, chat, later) == Some(proposed)
  {
    assert chat in s.docs[chat := Some(proposed)];
  }

  /** Without a document the answer is -1, and that is not cached. */
  lemma AbsentIsNotCached(s: Store, chat: int, now: int, later: int)
    requires chat !in s.docs && Lookup(s.cache, chat, now) == None
    ensures var (r, s') := GetAssistant(s, chat, now);
            r == -1 && s'.docs == s.docs && chat !in s'.cache
  {
  }

  /** What is removed, for one chat or for all, is gone from both. */
  lemma RemovedIsGone(s: Store, chat: int, other: int, now: int)
    ensures Stored(RemoveAssistant(s, chat), chat) == -1 && Lookup(RemoveAssistant(s, chat).cache, chat, now) == None
    ensures other != chat ==>
              var s' := RemoveAssistant(s, chat);
              Stored(s', other) == Stored(s, other) && Lookup(s'.cache, other, now) == Lookup(s.cache, other, now)
    ensures Stored(ClearAll(s), chat) == -1 && Lookup(ClearAll(s).cache, chat, now) == None
  {
  }

  // ----- the account choice -----

  /** `draw` is the random number that may be drawn; None when the generator fails. */
  function GetAccount(s: Store, accounts: nat, chat: int, draw: Option<nat>, now: int): (r: (Option<nat>, Store))
    ensures r.0.None? <==> accounts == 0
    ensures r.0.Some? ==> r.0.value < accounts
    ensures var (current, s') := GetAssistant(s, chat, now); 0 <= current < accounts ==> r == (Some(current), s')
  {
    if accounts == 0 then (None, s) else
    var (current, s') := GetAssistant(s, chat, now);
    if 0 <= current < accounts then (Some(current), s')
    else if draw.None? then
      (Some(0), if current == -1 && chat != 0 then AssignAssistant(s', chat, 0, now).1 else s')
    else
      var n := draw.value % accounts;
      (Some(n), if chat != 0 then AssignAssistant(s', chat, n, now).1 else s')
  }

  lemma GetAccountKeepsCoherent(s: Store, accounts: nat, chat: int, draw: Option<nat>, now: int)
    requires Coherent(s)
    ensures Coherent(GetAccount(s, accounts, chat, draw, now).1)
  {
  }

  /**
   The choice is the stored account if there is one, else what is drawn, else the first; and it is recorded exactly
   when nothing is stored for a real chat.
   */
  lemma AccountChoice(s: Store, accounts: nat, chat: int, draw: Option<nat>, now: int)
    requires Coherent(s) && accounts > 0
    ensures var (r, s') := GetAccount(s, accounts, chat, draw, now);
            var stored := Stored(s, chat);
            && r == Some(if 0 <= stored < accounts then stored else if draw.Some? then draw.value % accounts else 0)
            && s'.docs == if stored == -1 && chat != 0 then s.docs[chat := Some(r.value)] else s.docs
  {
  }

  /**
   The choice is sticky, every later call giving the same account whatever is drawn and whenever it is made,
   exactly when there is one account, or the stored number names an account, or it can be recorded because
   nothing is stored for a real chat.  A stored number beyond the account list makes every call draw again.
   */
  lemma StickyExactlyWhen(s: Store, accounts: nat, chat: int, draw: Option<nat>, now: int)
    requires Coherent(s) && accounts > 0
    ensures var (r, s') := GetAccount(s, accounts, chat, draw, now);
            var stored := Stored(s, chat);
            (forall draw', now' :: GetAccount(s', accounts, chat, draw', now').0 == r) <==>
            accounts == 1 || 0 <= stored < accounts || (stored == -1 && chat != 0)
  {
    var (r, s') := GetAccount(s, accounts, chat, draw, now);
    var stored := Stored(s, chat);
    GetAccountKeepsCoherent(s, accounts, chat, draw, now);
    if accounts > 1 && !(0 <= stored < accounts) && !(stored == -1 && chat != 0) {
      assert Stored(s', chat) == stored;
      assert GetAccount(s', accounts, chat, Some(0), now).0 == Some(0);
      assert 1 % accounts == 1;
      assert GetAccount(s', accounts, chat, Some(1), now).0 == Some(1);
    }
  }
}
