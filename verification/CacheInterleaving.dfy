/**
 Any number of threads use one TTL cache at once.  One step per lock region or clock reading; `writes` is the
 map that the Set, Delete and Clear calls alone would have left behind, with nothing ever evicted.
 */
module CacheInterleaving {
  import opened Wrappers
  import opened TtlCache

  type Tid = nat

  datatype Local<K, V> =
    | Idle
    | GetHolds(key: K, item: Option<Item<V>>, wrote: Option<Item<V>>)
    | GetStale(key: K, wrote: Option<Item<V>>, decided: int)
    | GetDone(result: Option<V>, wrote: Option<Item<V>>, decided: int)
    | EvictTimed(now: int)
    | EvictFound(keys: set<K>, now: int)

  datatype State<K, V> = State(
    data: map<K, Item<V>>, writes: map<K, Item<V>>, clock: int, threads: map<Tid, Local<K, V>>)

  datatype Action<K, V> =
    | Tick(delta: nat)
    | Set(key: K, value: V, ttl: int)
    | Delete(key: K)
    | Clear
    | GetRead(t: Tid, key: K)   // the read lock of Get
    | GetDecide(t: Tid)         // its comparison with the clock
    | GetReap(t: Tid)           // its write lock
    | EvictStart(t: Tid)        // evictExpired reads the clock
    | EvictScan(t: Tid)         // its read lock
    | EvictReap(t: Tid)         // its write lock

  function Entry<K, V>(d: map<K, Item<V>>, key: K): Option<Item<V>> {
    if key in d then Some(d[key]) else None
  }

  function LocalOf<K, V>(s: State<K, V>, t: Tid): Local<K, V> {
    if t in s.threads then s.threads[t] else Idle
  }

  /** A step; an action whose thread is not at that point leaves the state alone. */
  function Step<K, V>(s: State<K, V>, a: Action<K, V>): State<K, V> {
    match a
    case Tick(delta) => s.(clock := s.clock + delta)
    case Set(k, v, ttl) =>
      s.(data := s.data[k := Item(v, s.clock + ttl)], writes := s.writes[k := Item(v, s.clock + ttl)])
    case Delete(k) => s.(data := s.data - {k}, writes := s.writes - {k})
    case Clear => s.(data := map[], writes := map[])
    case GetRead(t, k) =>
      if LocalOf(s, t).Idle? || LocalOf(s, t).GetDone? then
        s.(threads := s.threads[t := GetHolds(k, Entry(s.data, k), Entry(s.writes, k))])
      else s
    case GetDecide(t) =>
      (match LocalOf(s, t)
       case GetHolds(k, item, wrote) =>
         s.(threads := s.threads[t :=
           if item.None? then GetDone(None, wrote, s.clock)
           else if s.clock > item.value.expiration then GetStale(k, wrote, s.clock)
           else GetDone(Some(item.value.value), wrote, s.clock)])
       case _ => s)
    case GetReap(t) =>
      (match LocalOf(s, t)
       case GetStale(k, wrote, decided) =>
         s.(data := Reap(s.data, k, s.clock), threads := s.threads[t := GetDone(None, wrote, decided)])
       case _ => s)
    case EvictStart(t) =>
      if LocalOf(s, t).Idle? || LocalOf(s, t).GetDone? then s.(threads := s.threads[t := EvictTimed(s.clock)]) else s
    case EvictScan(t) =>
      (match LocalOf(s, t)
       case EvictTimed(now) => s.(threads := s.threads[t := EvictFound(ExpiredKeys(s.data, now), now)])
       case _ => s)
    case EvictReap(t) =>
      (match LocalOf(s, t)
       case EvictFound(keys, now) => s.(data := ReapAll(s.data, keys, now), threads := s.threads[t := Idle])
       case _ => s)
  }

  function Run<K, V>(s: State<K, V>, run: seq<Action<K, V>>): State<K, V>
    decreases |run|
  {
    if run == [] then s else Run(Step(s, run[0]), run[1..])
  }

  ghost predicate Initial<K, V>(s: State<K, V>) {
    s.data == map[] && s.writes == map[] && s.threads == map[]
  }

  // ----- what every step keeps -----

  /** The map is the last writes minus entries that have already expired. */
  ghost predicate Agree<K(!new), V>(s: State<K, V>) {
    && (forall k :: k in s.data ==> k in s.writes && s.data[k] == s.writes[k])
    && (forall k :: k in s.writes && k !in s.data ==> s.clock > s.writes[k].expiration)
  }

  /** What a thread holds is consistent with what it read, at the time it read it. */
  ghost predicate LocalOk<K, V>(l: Local<K, V>, clock: int) {
    match l
    case Idle => true
    case GetHolds(k, item, wrote) =>
      item == wrote || (item.None? && wrote.Some? && clock > wrote.value.expiration)
    case GetStale(k, wrote, decided) => decided <= clock && wrote.Some? && decided > wrote.value.expiration
    case GetDone(result, wrote, decided) =>
      decided <= clock &&
      result == if wrote.Some? && decided <= wrote.value.expiration then Some(wrote.value.value) else None
    case EvictTimed(now) => now <= clock
    case EvictFound(keys, now) => now <= clock
  }

  ghost predicate Inv<K(!new), V>(s: State<K, V>) {
    Agree(s) && forall t :: t in s.threads ==> LocalOk(s.threads[t], s.clock)
  }

  lemma StepKeepsInv<K(!new), V>(s: State<K, V>, a: Action<K, V>)
    requires Inv(s)
    ensures Inv(Step(s, a))
  {
    var s' := Step(s, a);
    forall t | t in s'.threads
      ensures LocalOk(s'.threads[t], s'.clock)
    {
      if t in s.threads && s.threads[t] == s'.threads[t] {
        assert LocalOk(s.threads[t], s.clock);
      }
    }
  }

  lemma {:induction false} RunKeepsInv<K(!new), V>(s: State<K, V>, run: seq<Action<K, V>>)
    requires Inv(s)
    ensures Inv(Run(s, run))
    decreases |run|
  {
    if run != [] {
      StepKeepsInv(s, run[0]);
      RunKeepsInv(Step(s, run[0]), run[1..]);
    }
  }

  /**
   In every reachable state eviction is invisible to any read from now on, whatever the later time at which
   it is made: it sees what a cache that never evicts would show.
   */
  lemma EvictionInvisible<K(!new), V>(s: State<K, V>, run: seq<Action<K, V>>, key: K, now: int)
    requires Initial(s)
    requires Run(s, run).clock <= now
    ensures var r := Run(s, run); Lookup(r.data, key, now) == Lookup(r.writes, key, now)
  {
    RunKeepsInv(s, run);
  }

  /** No step of a read or of an eviction removes an entry that is live at the clock. */
  lemma NoLiveEntryDeleted<K(!new), V>(s: State<K, V>, run: seq<Action<K, V>>, a: Action<K, V>, key: K)
    requires Initial(s)
    requires !a.Set? && !a.Delete? && !a.Clear?
    requires var r := Run(s, run); key in r.data && r.clock <= r.data[key].expiration
    ensures var r := Run(s, run); var r' := Step(r, a); key in r'.data && r'.data[key] == r.data[key]
  {
    RunKeepsInv(s, run);
    var r := Run(s, run);
    if a.EvictReap? && LocalOf(r, a.t).EvictFound? {
      assert LocalOk(r.threads[a.t], r.clock);
    }
  }

  /**
   A finished Get answers with the last write it found at its read lock, judged at the time it looked at the clock;
   evictions by other threads never change the answer.
   */
  lemma GetAnswersLastWrite<K(!new), V>(s: State<K, V>, run: seq<Action<K, V>>, t: Tid)
    requires Initial(s)
    requires LocalOf(Run(s, run), t).GetDone?
    ensures var l := LocalOf(Run(s, run), t);
            var live := l.wrote.Some? && l.decided <= l.wrote.value.expiration;
            l.result == if live then Some(l.wrote.value.value) else None
  {
    RunKeepsInv(s, run);
    assert LocalOk(Run(s, run).threads[t], Run(s, run).clock);
  }

  // ----- when a read is linearizable -----

  /** A step by which thread `t` would begin another operation. */
  predicate BeginsAnew<K, V>(a: Action<K, V>, t: Tid) {
    (a.GetRead? || a.EvictStart?) && a.t == t
  }

  ghost predicate Writes<K, V>(a: Action<K, V>, key: K) {
    match a
    case Set(k, _, _) => k == key
    case Delete(k) => k == key
    case Clear => true
    case _ => false
  }

  /** The thread is in a read of `key` that began at `start`, when the last write was `wrote`, or has finished it. */
  ghost predicate Reading<K, V>(l: Local<K, V>, key: K, wrote: Option<Item<V>>, start: int) {
    match l
    case GetHolds(k, _, w) => k == key && w == wrote
    case GetStale(k, w, decided) => k == key && w == wrote && start <= decided
    case GetDone(_, w, decided) => w == wrote && start <= decided
    case _ => false
  }

  lemma {:induction false} KeepsReading<K(!new), V>(
    s: State<K, V>, mid: seq<Action<K, V>>, t: Tid, key: K, wrote: Option<Item<V>>, start: int)
    requires Reading(LocalOf(s, t), key, wrote, start) && start <= s.clock
    requires forall a :: a in mid ==> !BeginsAnew(a, t)
    ensures Reading(LocalOf(Run(s, mid), t), key, wrote, start)
    decreases |mid|
  {
    if mid != [] {
      assert mid[0] in mid;
      KeepsReading(Step(s, mid[0]), mid[1..], t, key, wrote, start);
    }
  }

  lemma {:induction false} Unwritten<K(!new), V>(s: State<K, V>, mid: seq<Action<K, V>>, key: K)
    requires forall a :: a in mid ==> !Writes(a, key)
    ensures Entry(Run(s, mid).writes, key) == Entry(s.writes, key)
    decreases |mid|
  {
    if mid != [] {
      assert mid[0] in mid;
      Unwritten(Step(s, mid[0]), mid[1..], key);
    }
  }

  /** A read of `key` by `t` that starts in a reachable state, and everything that happens until it has its result. */
  ghost predicate WholeRead<K, V>(s: State<K, V>, run: seq<Action<K, V>>, mid: seq<Action<K, V>>, t: Tid, key: K) {
    && Initial(s)
    && (LocalOf(Run(s, run), t).Idle? || LocalOf(Run(s, run), t).GetDone?)
    && (forall a :: a in mid ==> !BeginsAnew(a, t))
    && LocalOf(Run(Step(Run(s, run), GetRead(t, key)), mid), t).GetDone?
  }

  /** What a lookup would answer after `i` of the steps that follow the read lock. */
  function Instant<K, V>(s: State<K, V>, mid: seq<Action<K, V>>, key: K, i: nat): Option<V>
    requires i <= |mid|
  {
    var r := Run(s, mid[..i]);
    Lookup(r.data, key, r.clock)
  }

  /** The answer is that of a lookup at some instant between the read lock and the end. */
  ghost predicate Linearizes<K, V>(s: State<K, V>, mid: seq<Action<K, V>>, key: K, answer: Option<V>) {
    exists i :: 0 <= i <= |mid| && Instant(s, mid, key, i) == answer
  }

  /**
   A hit is what a lookup at the read lock answers; a miss is too, unless the entry was live there and had expired by
   the read's own look at the clock.
   */
  lemma AnswerAtLock<K(!new), V>(s: State<K, V>, run: seq<Action<K, V>>, mid: seq<Action<K, V>>, t: Tid, key: K)
    requires WholeRead(s, run, mid, t, key)
    ensures var r := Run(s, run);
            var l := LocalOf(Run(Step(r, GetRead(t, key)), mid), t);
            var atLock := Lookup(r.data, key, r.clock);
            && (l.result.Some? ==> l.result == atLock)
            && (l.result.None? ==> atLock.None? || r.data[key].expiration < l.decided)
  {
    var r := Run(s, run);
    RunKeepsInv(s, run);
    var r1 := Step(r, GetRead(t, key));
    StepKeepsInv(r, GetRead(t, key));
    RunKeepsInv(r1, mid);
    KeepsReading(r1, mid, t, key, Entry(r.writes, key), r.clock);
    assert LocalOk(Run(r1, mid).threads[t], Run(r1, mid).clock);
  }

  /**
   Over the steps `mid`, from a clock on, an entry that expires at `e` never lapses: it is replaced by each Set of its
   key, and the clock never passes the expiry of the entry of the moment.
   */
  ghost predicate NeverLapses<K, V>(e: int, clock: int, mid: seq<Action<K, V>>, key: K)
    decreases |mid|
  {
    && clock <= e
    && (mid == [] ||
        match mid[0]
        case Tick(delta) => NeverLapses(e, clock + delta, mid[1..], key)
        case Set(k, _, ttl) => NeverLapses(if k == key then clock + ttl else e, clock, mid[1..], key)
        case Delete(k) => k != key && NeverLapses(e, clock, mid[1..], key)
        case Clear => false
        case _ => NeverLapses(e, clock, mid[1..], key))
  }

  ghost predicate AlwaysLive<K, V>(s: State<K, V>, mid: seq<Action<K, V>>, key: K) {
    forall i :: 0 <= i <= |mid| ==> Instant(s, mid, key, i).Some?
  }

  lemma AlwaysLiveStep<K(!new), V>(s: State<K, V>, mid: seq<Action<K, V>>, key: K)
    requires mid != []
    ensures AlwaysLive(s, mid, key) <==>
            Lookup(s.data, key, s.clock).Some? && AlwaysLive(Step(s, mid[0]), mid[1..], key)
  {
    var s' := Step(s, mid[0]);
    assert mid[..0] == [] && Instant(s, mid, key, 0) == Lookup(s.data, key, s.clock);
    forall i | 0 <= i <= |mid| - 1
      ensures Instant(s, mid, key, i + 1) == Instant(s', mid[1..], key, i)
    {
      assert mid[..i + 1][1..] == mid[1..][..i];
    }
    if Lookup(s.data, key, s.clock).Some? && AlwaysLive(s', mid[1..], key) {
      forall i | 0 <= i <= |mid|
        ensures Instant(s, mid, key, i).Some?
      {
        if i > 0 {
          assert Instant(s', mid[1..], key, i - 1).Some?;
        }
      }
    }
  }

  /** The key has a live entry at every instant exactly when its last write does not lapse. */
  lemma {:induction false} AlwaysLiveExactlyWhen<K(!new), V>(s: State<K, V>, mid: seq<Action<K, V>>, key: K)
    requires Inv(s)
    ensures AlwaysLive(s, mid, key) <==> key in s.writes && NeverLapses(s.writes[key].expiration, s.clock, mid, key)
    decreases |mid|
  {
    if mid == [] {
      assert mid[..0] == [] && Instant(s, mid, key, 0) == Lookup(s.data, key, s.clock);
    } else {
      AlwaysLiveStep(s, mid, key);
      StepKeepsInv(s, mid[0]);
      AlwaysLiveExactlyWhen(Step(s, mid[0]), mid[1..], key);
    }
  }

  /**
   A read fails to linearize if and only if the entry at its read lock had expired when the read looked at the clock,
   and the writes that came between never let the key lapse.
   */
  lemma LinearizesExactlyWhen<K(!new), V>(
    s: State<K, V>, run: seq<Action<K, V>>, mid: seq<Action<K, V>>, t: Tid, key: K)
    requires WholeRead(s, run, mid, t, key)
    ensures var r := Run(s, run);
            var r1 := Step(r, GetRead(t, key));
            var l := LocalOf(Run(r1, mid), t);
            !Linearizes(r1, mid, key, l.result) <==>
            && key in r.data && r.data[key].expiration < l.decided
            && NeverLapses(r.data[key].expiration, r.clock, mid, key)
  {
    var r := Run(s, run);
    var r1 := Step(r, GetRead(t, key));
    RunKeepsInv(s, run);
    StepKeepsInv(r, GetRead(t, key));
    AlwaysLiveExactlyWhen(r1, mid, key);
    AnswerExactly(s, run, mid, t, key);
    MissesLinearizeUnlessLive(s, run, mid, t, key);
    if AlwaysLive(r1, mid, key) {
      assert mid[..0] == [] && Instant(r1, mid, key, 0) == Lookup(r.data, key, r.clock);
    }
  }

  /** The answer as a function of the last write at the read lock and of the clock reading. */
  lemma AnswerExactly<K(!new), V>(s: State<K, V>, run: seq<Action<K, V>>, mid: seq<Action<K, V>>, t: Tid, key: K)
    requires WholeRead(s, run, mid, t, key)
    ensures var r := Run(s, run);
            var l := LocalOf(Run(Step(r, GetRead(t, key)), mid), t);
            l.result.None? <==> key !in r.writes || r.writes[key].expiration < l.decided
  {
    var r := Run(s, run);
    RunKeepsInv(s, run);
    var r1 := Step(r, GetRead(t, key));
    StepKeepsInv(r, GetRead(t, key));
    RunKeepsInv(r1, mid);
    KeepsReading(r1, mid, t, key, Entry(r.writes, key), r.clock);
    assert LocalOk(Run(r1, mid).threads[t], Run(r1, mid).clock);
  }

  lemma MissesLinearizeUnlessLive<K(!new), V>(
    s: State<K, V>, run: seq<Action<K, V>>, mid: seq<Action<K, V>>, t: Tid, key: K)
    requires WholeRead(s, run, mid, t, key)
    ensures var r1 := Step(Run(s, run), GetRead(t, key));
            var answer := LocalOf(Run(r1, mid), t).result;
            !Linearizes(r1, mid, key, answer) <==> answer.None? && AlwaysLive(r1, mid, key)
  {
    var r1 := Step(Run(s, run), GetRead(t, key));
    var answer := LocalOf(Run(r1, mid), t).result;
    AnswerAtLock(s, run, mid, t, key);
    assert mid[..0] == [] && Instant(r1, mid, key, 0) == Lookup(r1.data, key, r1.clock);
    if answer.None? && Linearizes(r1, mid, key, answer) {
      var i :| 0 <= i <= |mid| && Instant(r1, mid, key, i) == answer;
      assert Instant(r1, mid, key, i).None?;
    }
  }

  /** So a read linearizes whenever nobody writes its key meanwhile, whatever is evicted. */
  lemma UnwrittenLinearizes<K(!new), V>(
    s: State<K, V>, run: seq<Action<K, V>>, mid: seq<Action<K, V>>, t: Tid, key: K)
    requires WholeRead(s, run, mid, t, key) && forall a :: a in mid ==> !Writes(a, key)
    ensures var r1 := Step(Run(s, run), GetRead(t, key));
            var l := LocalOf(Run(r1, mid), t);
            && Linearizes(r1, mid, key, l.result)
            && l.result == Lookup(Run(s, run).data, key, l.decided)
  {
    var r := Run(s, run);
    var r1 := Step(r, GetRead(t, key));
    var end := Run(r1, mid);
    RunKeepsInv(s, run);
    StepKeepsInv(r, GetRead(t, key));
    RunKeepsInv(r1, mid);
    KeepsReading(r1, mid, t, key, Entry(r.writes, key), r.clock);
    Unwritten(r1, mid, key);
    assert LocalOk(end.threads[t], end.clock);
    AnswerAtLock(s, run, mid, t, key);
    assert mid[..0] == [] && Instant(r1, mid, key, 0) == Lookup(r1.data, key, r1.clock);
    assert mid[..|mid|] == mid && Instant(r1, mid, key, |mid|) == Lookup(end.data, key, end.clock);
  }

  /**
   Reads that fail to linearize do exist: a thread reads an entry at its last live instant, a Set replaces the entry,
   and the clock passes the old expiry.  The read misses beside the new entry.
   */
  lemma MissBesideLiveEntry<K(!new), V>(s: State<K, V>, t: Tid, key: K, value: V)
    requires Initial(s)
    ensures var run := [Set(key, value, 0)];
            var mid := [Set(key, value, 1), Tick(1), GetDecide(t), GetReap(t)];
            var r1 := Step(Run(s, run), GetRead(t, key));
            && WholeRead(s, run, mid, t, key)
            && LocalOf(Run(r1, mid), t).result.None?
            && !Linearizes(r1, mid, key, None)
  {
    var run: seq<Action<K, V>> := [Set(key, value, 0)];
    RunSnoc(s, [], run[0]);
    assert [] + [run[0]] == run;
    StaleInstants(s, t, key, value);
    LinearizesExactlyWhen(s, run, [Set(key, value, 1), Tick(1), GetDecide(t), GetReap(t)], t, key);
  }

  lemma StaleInstants<K(!new), V>(s: State<K, V>, t: Tid, key: K, value: V)
    requires Initial(s)
    ensures var r1 := Step(Step(s, Set(key, value, 0)), GetRead(t, key));
            var mid := [Set(key, value, 1), Tick(1), GetDecide(t), GetReap(t)];
            && LocalOf(Run(r1, mid), t).GetDone? && LocalOf(Run(r1, mid), t).result.None?
            && forall i :: 0 <= i <= 4 ==> Instant(r1, mid, key, i).Some?
  {
    var r1 := Step(Step(s, Set(key, value, 0)), GetRead(t, key));
    FourSteps(r1, Set(key, value, 1), Tick(1), GetDecide(t), GetReap(t));
    StaleSteps(s, t, key, value);
  }

  /** The states of that run. */
  lemma StaleSteps<K(!new), V>(s: State<K, V>, t: Tid, key: K, value: V)
    requires Initial(s)
    ensures var r1 := Step(Step(s, Set(key, value, 0)), GetRead(t, key));
            var r2 := Step(r1, Set(key, value, 1));
            var r3 := Step(r2, Tick(1));
            var r4 := Step(r3, GetDecide(t));
            var r5 := Step(r4, GetReap(t));
            && LocalOf(r5, t).GetDone? && LocalOf(r5, t).result.None?
            && Lookup(r1.data, key, r1.clock).Some? && Lookup(r2.data, key, r2.clock).Some?
            && Lookup(r3.data, key, r3.clock).Some? && Lookup(r4.data, key, r4.clock).Some?
            && Lookup(r5.data, key, r5.clock).Some?
  {
  }

  lemma {:induction false} RunSnoc<K(!new), V>(s: State<K, V>, run: seq<Action<K, V>>, a: Action<K, V>)
    ensures Run(s, run + [a]) == Step(Run(s, run), a)
    decreases |run|
  {
    if run == [] {
      assert ([] + [a])[1..] == [] && ([] + [a])[0] == a;
    } else {
      RunSnoc(Step(s, run[0]), run[1..], a);
      assert (run + [a])[1..] == run[1..] + [a];
    }
  }

  lemma FourSteps<K(!new), V>(s: State<K, V>, a: Action<K, V>, b: Action<K, V>, c: Action<K, V>, d: Action<K, V>)
    ensures var run := [a, b, c, d];
            && Run(s, run[..0]) == s
            && Run(s, run[..1]) == Step(s, a)
            && Run(s, run[..2]) == Step(Step(s, a), b)
            && Run(s, run[..3]) == Step(Step(Step(s, a), b), c)
            && Run(s, run[..4]) == Run(s, run) == Step(Step(Step(Step(s, a), b), c), d)
  {
    var run := [a, b, c, d];
    assert run[..1] == [] + [a] && run[..2] == [a] + [b] && run[..3] == [a, b] + [c];
    assert run == run[..4] == [a, b, c] + [d];
    RunSnoc(s, [], a);
    RunSnoc(s, [a], b);
    RunSnoc(s, [a, b], c);
    RunSnoc(s, [a, b, c], d);
  }

  // ----- operations without interference -----

  /**
   A Set made at one time and a whole Get made `delta` later, with nothing in between: the value is found up to the
   last instant of its lifetime, and after it the read misses and has removed the entry.
   */
  lemma SetThenGet<K(!new), V>(s: State<K, V>, t: Tid, key: K, value: V, ttl: int, delta: nat)
    requires LocalOf(s, t).Idle?
    ensures var s1 := Step(Step(Step(s, Set(key, value, ttl)), Tick(delta)), GetRead(t, key));
            var s2 := Step(Step(s1, GetDecide(t)), GetReap(t));
            && LocalOf(s2, t).GetDone?
            && LocalOf(s2, t).result == (if delta <= ttl then Some(value) else None)
            && (key in s2.data <==> delta <= ttl)
            && (forall k :: k != key ==> Entry(s2.data, k) == Entry(s.data, k))
  {
  }

  /** After a Delete or a Clear a whole Get misses. */
  lemma DeleteThenGet<K(!new), V>(s: State<K, V>, a: Action<K, V>, t: Tid, key: K)
    requires LocalOf(s, t).Idle? && (a == Delete(key) || a == Clear)
    ensures var s2 := Step(Step(Step(s, a), GetRead(t, key)), GetDecide(t));
            && LocalOf(s2, t).GetDone? && LocalOf(s2, t).result == None
            && (forall k :: Entry(s2.data, k) == if k == key || a == Clear then None else Entry(s.data, k))
  {
  }

  /**
   The last region of an eviction, whatever happened since its scan: of the keys it had found, those whose entry has
   by now been rewritten to live on stay, and the expired ones are gone.
   */
  lemma EvictReapMeaning<K(!new), V>(s: State<K, V>, t: Tid, k: K)
    requires LocalOf(s, t).EvictFound?
    ensures var s', l := Step(s, EvictReap(t)), LocalOf(s, t);
            && (k in s'.data <==> k in s.data && !(k in l.keys && s.data[k].expiration < l.now))
            && (k in s'.data ==> s'.data[k] == s.data[k])
            && LocalOf(s', t).Idle? && s'.writes == s.writes
  {
  }

  /** A whole eviction with nothing in between leaves exactly the live entries. */
  lemma EvictionAlone<K(!new), V>(s: State<K, V>, t: Tid, k: K)
    requires LocalOf(s, t).Idle?
    ensures var s' := Step(Step(Step(s, EvictStart(t)), EvictScan(t)), EvictReap(t));
            && (k in s'.data <==> k in s.data && s.clock <= s.data[k].expiration)
            && (k in s'.data ==> s'.data[k] == s.data[k])
  {
  }
}
