/**
 The remove command (internal/bot/remove.go): numbers and ranges are expanded, clamped, deduplicated and sorted in
 descending order, and the tracks are then removed one by one.
 */
module RemoveCommand {
  import opened Wrappers
  import opened Chats
  import ChatCacher

  // One comma-separated part of the arguments, its numbers already read; None where reading failed.
  datatype Part =
    | Range(first: Option<int>, last: Option<int>)
    | Malformed                    // several dashes
    | Single(number: Option<int>)

  /** Does this part ask for position `v`? */
  predicate Asks(p: Part, v: int) {
    match p
    case Range(a, b) => a.Some? && b.Some? && (a.value <= v <= b.value || b.value <= v <= a.value)
    case Malformed => false
    case Single(n) => n == Some(v)
  }

  /** The positions that the command is to delete: those asked for, except the playing track's position 0. */
  ghost function Requested(parts: seq<Part>, length: nat): set<int> {
    set v: int | 1 <= v <= length && Asked(parts, v)
  }

  ghost predicate Asked(parts: seq<Part>, v: int) {
    exists p :: p in parts && Asks(p, v)
  }

  /** What is left of the queue from position `from` on when the positions in `drop` are deleted all at once. */
  function Kept(q: seq<Slot>, drop: set<int>, from: nat): seq<Slot>
    requires from <= |q|
    decreases |q| - from
  {
    if from == |q| then [] else (if from in drop then [] else [q[from]]) + Kept(q, drop, from + 1)
  }

  lemma {:induction false} KeptTail(q: seq<Slot>, drop: set<int>, from: nat)
    requires from <= |q| && forall v :: v in drop ==> v < from || v >= |q|
    ensures Kept(q, drop, from) == q[from..]
    decreases |q| - from
  {
    if from < |q| {
      KeptTail(q, drop, from + 1);
    }
  }

  /** Deleting the last of the positions first leaves the others where they were. */
  lemma {:induction false} KeptWithout(q: seq<Slot>, drop: set<int>, t: nat, from: nat)
    requires from <= t <= |q| && forall v :: v in drop ==> v < t
    ensures from <= |RemoveAt(q, t)|
    ensures Kept(q, drop + {t}, from) == Kept(RemoveAt(q, t), drop, from)
    decreases t - from
  {
    if from < t {
      KeptWithout(q, drop, t, from + 1);
    } else if t < |q| {
      KeptTail(q, drop + {t}, t + 1);
      KeptTail(RemoveAt(q, t), drop, t);
    }
  }

  /**
   What the parts ask for: a number asks for itself, a range for everything between its ends, in either order, both
   included, and a part that could not be read for nothing.
   */
  lemma AsksMeaning(a: int, b: int, v: int)
    ensures Asks(Single(Some(a)), v) <==> v == a
    ensures a <= b ==> (Asks(Range(Some(a), Some(b)), v) <==> a <= v <= b)
    ensures Asks(Range(Some(a), Some(b)), v) <==> Asks(Range(Some(b), Some(a)), v)
    ensures !Asks(Malformed, v) && !Asks(Single(None), v)
    ensures !Asks(Range(None, Some(b)), v) && !Asks(Range(Some(a), None), v)
  {
  }

  /** The playing track is never asked for, nor anything before or beyond the end of the queue. */
  lemma RequestedMeaning(parts: seq<Part>, length: nat, v: int)
    ensures v in Requested(parts, length) <==> 0 < v <= length && exists p :: p in parts && Asks(p, v)
  {
  }

  /** What is left is in order: each track behind those that are left of the ones before it. */
  lemma {:induction false} KeptOrder(q: seq<Slot>, drop: set<int>, from: nat, at: nat)
    requires from <= at < |q| && at !in drop
    ensures var r := Kept(q, drop, from);
            var k := at - from - |set v: int | from <= v < at && v in drop|;
            0 <= k < |r| && r[k] == q[at]
    decreases at - from
  {
    var before := set v: int | from <= v < at && v in drop;
    if from < at {
      KeptOrder(q, drop, from + 1, at);
      var later := set v: int | from + 1 <= v < at && v in drop;
      assert before == if from in drop then later + {from} else later;
    } else {
      assert before == {};
    }
  }
  function RemoveEach(q: seq<Slot>, ts: seq<int>): seq<Slot>
    decreases |ts|
  {
    if ts == [] then q else RemoveEach(RemoveAt(q, ts[0]), ts[1..])
  }

  ghost predicate Descending(ts: seq<int>) {
    forall i, j :: 0 <= i < j < |ts| ==> ts[i] > ts[j]
  }

  /** Removing positions one by one in descending order is deleting them all at once. */
  lemma {:induction false} OneByOneIsAtOnce(q: seq<Slot>, ts: seq<int>)
    requires Descending(ts) && forall t :: t in ts ==> 1 <= t <= |q|
    ensures RemoveEach(q, ts) == Kept(q, set t | t in ts, 0)
    decreases |ts|
  {
    var all := set t | t in ts;
    if ts == [] {
      KeptTail(q, all, 0);
    } else {
      var rest := set t | t in ts[1..];
      assert all == rest + {ts[0]} by {
        assert ts == [ts[0]] + ts[1..];
      }
      forall t | t in ts[1..]
        ensures 1 <= t <= |RemoveAt(q, ts[0])| && t < ts[0]
      {
        assert t in ts;
      }
      KeptWithout(q, rest, ts[0], 0);
      OneByOneIsAtOnce(RemoveAt(q, ts[0]), ts[1..]);
    }
  }

  /** As many tracks go as were dropped, and a position that is not dropped comes first. */
  lemma {:induction false} KeptCounts(q: seq<Slot>, drop: set<int>, from: nat)
    requires from <= |q|
    ensures |Kept(q, drop, from)| + |set v: int | from <= v < |q| && v in drop| == |q| - from
    ensures from < |q| && from !in drop ==> Kept(q, drop, from) != [] && Kept(q, drop, from)[0] == q[from]
    decreases |q| - from
  {
    if from < |q| {
      KeptCounts(q, drop, from + 1);
      var here := set v: int | from <= v < |q| && v in drop;
      var later := set v: int | from + 1 <= v < |q| && v in drop;
      assert here == if from in drop then later + {from} else later;
    } else {
      assert (set v: int | from <= v < |q| && v in drop) == {};
    }
  }

  // ----- the command -----

  method Expand(parts: seq<Part>, length: nat) returns (ts: seq<int>)
    ensures forall v :: 1 <= v <= length ==> (v in ts <==> Asked(parts, v))
  {
    ts := [];
    for i := 0 to |parts|
      invariant forall v :: 1 <= v <= length ==> (v in ts <==> exists k :: 0 <= k < i && Asks(parts[k], v))
    {
      match parts[i] {
        case Malformed =>
          continue;
        case Range(first, last) =>
          if first.Some? && last.Some? {
            var start, end := first.value, last.value;
            if start > end {
              start, end := end, start;
            }
            if start < 1 {
              start := 1;
            }
            if end >= length {
              end := length;
            }
            var more := Count(start, end);
            ts := ts + more;
          }
        case Single(number) =>
          if number.Some? {
            ts := ts + [number.value];
          }
      }
    }
  }

  method Count(start: int, end: int) returns (ts: seq<int>)
    ensures forall v :: v in ts <==> start <= v <= end
  {
    ts := [];
    var i := start;
    while i <= end
      invariant start <= i
      invariant forall v :: v in ts <==> start <= v < i && v <= end
    {
      ts := ts + [i];
      i := i + 1;
    }
  }

  method Distinct(ts: seq<int>, length: nat) returns (r: seq<int>)
    ensures forall i, j :: 0 <= i < j < |r| ==> r[i] != r[j]
    ensures forall v :: v in r <==> v in ts && 0 < v <= length
  {
    r := [];
    var seen: set<int> := {};
    for i := 0 to |ts|
      invariant forall v :: v in seen <==> v in r
      invariant forall i, j :: 0 <= i < j < |r| ==> r[i] != r[j]
      invariant forall v :: v in r <==> v in ts[..i] && 0 < v <= length
    {
      assert ts[..i + 1] == ts[..i] + [ts[i]];
      if 0 < ts[i] <= length && ts[i] !in seen {
        seen := seen + {ts[i]};
        r := r + [ts[i]];
      }
    }
    assert ts[..|ts|] == ts;
  }

  function InsertDescending(ts: seq<int>, t: int): (r: seq<int>)
    requires Descending(ts) && t !in ts
    ensures Descending(r) && forall v :: v in r <==> v == t || v in ts
  {
    if ts == [] || ts[0] < t then [t] + ts else
    assert forall v :: v in ts <==> v == ts[0] || v in ts[1..];
    var rest := InsertDescending(ts[1..], t);
    assert forall k :: 0 <= k < |rest| ==> rest[k] in rest;
    assert forall v :: v in rest ==> v < ts[0];
    [ts[0]] + rest
  }

  method SortDescending(ts: seq<int>) returns (r: seq<int>)
    requires forall i, j :: 0 <= i < j < |ts| ==> ts[i] != ts[j]
    ensures Descending(r) && forall v :: v in r <==> v in ts
  {
    r := [];
    for i := 0 to |ts|
      invariant Descending(r) && forall v :: v in r <==> v in ts[..i]
    {
      assert ts[..i + 1] == ts[..i] + [ts[i]];
      r := InsertDescending(r, ts[i]);
    }
    assert ts[..|ts|] == ts;
  }

  /** The positions to remove, largest first. */
  method Positions(parts: seq<Part>, length: nat) returns (ts: seq<int>)
    ensures Descending(ts) && forall t :: t in ts <==> t in Requested(parts, length)
  {
    var expanded := Expand(parts, length);
    var distinct := Distinct(expanded, length);
    ts := SortDescending(distinct);
  }

  lemma RemoveNext(q: seq<Slot>, ts: seq<int>, i: nat)
    requires i < |ts|
    ensures RemoveEach(q, ts[i..]) == RemoveEach(RemoveAt(q, ts[i]), ts[i + 1..])
  {
    assert ts[i..][1..] == ts[i + 1..];
  }

  method RemovePositions(cache: ChatCacher.ChatCacher, chatID: int, ts: seq<int>)
    requires cache.Valid() && chatID in cache.view
    modifies cache, cache.Repr
    ensures cache.Valid()
    ensures var c := old(cache.view)[chatID];
            cache.view == Put(old(cache.view), chatID, Some(c.(queue := RemoveEach(c.queue, ts))))
  {
    ghost var start := cache.view;
    ghost var c := start[chatID];
    ghost var q := c.queue;
    PutAt(start, chatID);
    for i := 0 to |ts|
      invariant cache.Valid() && fresh(cache.Repr - old(cache.Repr))
      invariant cache.view == Put(start, chatID, Some(c.(queue := q)))
      invariant RemoveEach(q, ts[i..]) == RemoveEach(c.queue, ts)
    {
      RemoveNext(q, ts, i);
      PutPut(start, chatID, Some(c.(queue := q)), Some(c.(queue := RemoveAt(q, ts[i]))));
      var _ := cache.RemoveTrack(chatID, ts[i]);
      q := RemoveAt(q, ts[i]);
    }
  }

  /** What the handler leaves of a chat: the requested positions are deleted all at once. */
  ghost function Removed(o: Option<Chat>, parts: seq<Part>): Option<Chat> {
    if o.None? then o else
    Some(o.value.(queue := Kept(o.value.queue, Requested(parts, |o.value.queue|), 0)))
  }

  /** The handler's effect on the cache; every other chat, and this chat's autoplay state, stay as they are. */
  method RemoveHandler(cache: ChatCacher.ChatCacher, chatID: int, parts: seq<Part>) returns (removed: nat)
    requires cache.Valid()
    modifies cache, cache.Repr
    ensures cache.Valid()
    ensures cache.view == Put(old(cache.view), chatID, Removed(At(old(cache.view), chatID), parts))
    ensures removed == |Requested(parts, |Base(At(old(cache.view), chatID)).queue|)|
  {
    var length := cache.GetQueueLength(chatID);
    PutAt(cache.view, chatID);
    KeptTail([], {}, 0);
    if length == 0 {
      assert Requested(parts, 0) == {};
      return 0;
    }
    var ts := Positions(parts, length);
    OneByOneIsAtOnce(cache.view[chatID].queue, ts);
    DistinctCount(ts);
    assert (set t | t in ts) == Requested(parts, length);
    RemovePositions(cache, chatID, ts);
    removed := |ts|;
  }

  /**
   The number that the handler reports is the number of tracks that went, exactly when the position just behind the
   queue, which is accepted but holds nothing, was not asked for.
   */
  lemma ReportIsRightExactlyWhen(q: seq<Slot>, parts: seq<Part>)
    ensures var drop := Requested(parts, |q|);
            |drop| == |q| - |Kept(q, drop, 0)| <==> q == [] || !Asked(parts, |q|)
  {
    var drop := Requested(parts, |q|);
    var gone := set v: int | 0 <= v < |q| && v in drop;
    KeptCounts(q, drop, 0);
    if q != [] && Asked(parts, |q|) {
      assert drop == gone + {|q|};
    } else {
      assert drop == gone;
    }
  }

  lemma HeadAndRest(ts: seq<int>)
    requires Descending(ts) && ts != []
    ensures (set t | t in ts) == (set t | t in ts[1..]) + {ts[0]}
    ensures ts[0] !in (set t | t in ts[1..]) && Descending(ts[1..])
  {
    assert ts == [ts[0]] + ts[1..];
    forall t | t in ts[1..]
      ensures t < ts[0]
    {
      var k :| 0 <= k < |ts| - 1 && ts[1..][k] == t;
      assert ts[k + 1] == t;
    }
  }

  lemma {:induction false} DistinctCount(ts: seq<int>)
    requires Descending(ts)
    ensures |set t | t in ts| == |ts|
    decreases |ts|
  {
    var all := set t | t in ts;
    if ts != [] {
      var rest := set t | t in ts[1..];
      HeadAndRest(ts);
      DistinctCount(ts[1..]);
    }
  }
}
