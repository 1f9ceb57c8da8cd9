/**
 The janitor that starts one cleaning goroutine when the first cache registers and stops it when the last one
 leaves.  A stop channel is an index into `chans`, which says which channels are open; closing a closed channel
 panics.  Each method runs under the janitor's lock.
 */
module Janitor {
  datatype State = State(caches: seq<nat>, running: bool, stop: nat, chans: seq<bool>, panicked: bool)

  const NEW := State([], false, 0, [], false)

  datatype Op = Register(cache: nat) | Unregister(cache: nat)

  function IndexOf(caches: seq<nat>, c: nat): (i: nat)
    ensures i <= |caches|
    ensures i < |caches| ==> caches[i] == c
    ensures c !in caches[..i]
  {
    if caches == [] || caches[0] == c then 0 else
    var i := IndexOf(caches[1..], c);
    assert caches[..i + 1] == [caches[0]] + caches[1..][..i];
    i + 1
  }

  function Without(caches: seq<nat>, c: nat): seq<nat> {
    var i := IndexOf(caches, c);
    if i < |caches| then caches[..i] + caches[i + 1..] else caches
  }

  function Step(s: State, op: Op): State {
    match op
    case Register(c) =>
      var s' := s.(caches := s.caches + [c]);
      if s.running then s' else s'.(running := true, stop := |s.chans|, chans := s.chans + [true])
    case Unregister(c) =>
      var s' := s.(caches := Without(s.caches, c));
      if s'.caches == [] && s.running then
        if s.stop < |s.chans| && s.chans[s.stop] then s'.(running := false, chans := s.chans[s.stop := false])
        else s'.(panicked := true)
      else s'
  }

  function Run(s: State, ops: seq<Op>): State
    decreases |ops|
  {
    if ops == [] then s else Run(Step(s, ops[0]), ops[1..])
  }

  /** One open stop channel while running, held by the one live goroutine, and none otherwise. */
  ghost predicate Sound(s: State) {
    && !s.panicked
    && (s.running <==> s.caches != [])
    && (s.running ==> s.stop < |s.chans|)
    && (forall i :: 0 <= i < |s.chans| ==> (s.chans[i] <==> s.running && i == s.stop))
  }

  lemma {:induction false} RunIsSound(s: State, ops: seq<Op>)
    requires Sound(s)
    ensures Sound(Run(s, ops))
    decreases |ops|
  {
    if ops != [] {
      RunIsSound(Step(s, ops[0]), ops[1..]);
    }
  }

  /** Over every sequence of registrations and unregistrations no channel is closed twice. */
  lemma NeverPanics(ops: seq<Op>)
    ensures var s := Run(NEW, ops);
            && !s.panicked && (s.running <==> s.caches != [])
            && |set i | 0 <= i < |s.chans| && s.chans[i]| == if s.running then 1 else 0
  {
    RunIsSound(NEW, ops);
    var s := Run(NEW, ops);
    var open := set i | 0 <= i < |s.chans| && s.chans[i];
    assert open == if s.running then {s.stop} else {};
  }

  /** How often a cache is on the list: once more with each registration, once less with each unregistration. */
  function Times(ops: seq<Op>, c: nat, n: nat): nat
    decreases |ops|
  {
    if ops == [] then n else Times(ops[1..], c, TimesAfter(ops[0], c, n))
  }

  function TimesAfter(op: Op, c: nat, n: nat): nat {
    if op == Register(c) then n + 1 else if op == Unregister(c) && n > 0 then n - 1 else n
  }

  /** A tick sweeps a cache until it has been unregistered as often as it was registered. */
  lemma {:induction false} RegisteredCount(s: State, ops: seq<Op>, c: nat)
    ensures multiset(Run(s, ops).caches)[c] == Times(ops, c, multiset(s.caches)[c])
    ensures c in Run(s, ops).caches <==> Times(ops, c, multiset(s.caches)[c]) > 0
    decreases |ops|
  {
    if ops != [] {
      StepCount(s, ops[0], c);
      RegisteredCount(Step(s, ops[0]), ops[1..], c);
    }
  }

  lemma StepCount(s: State, op: Op, c: nat)
    ensures multiset(Step(s, op).caches)[c] == TimesAfter(op, c, multiset(s.caches)[c])
  {
    if op.Unregister? {
      WithoutCount(s.caches, op.cache);
    }
  }

  /** Unregistering others never takes a cache off the list. */
  lemma StaysRegistered(s: State, ops: seq<Op>, c: nat)
    requires c in s.caches && Unregister(c) !in ops
    ensures c in Run(s, ops).caches
  {
    RegisteredCount(s, ops, c);
    TimesGrows(ops, c, multiset(s.caches)[c]);
  }

  lemma {:induction false} TimesGrows(ops: seq<Op>, c: nat, n: nat)
    requires Unregister(c) !in ops
    ensures Times(ops, c, n) >= n
    decreases |ops|
  {
    if ops != [] {
      assert ops[0] in ops;
      TimesGrows(ops[1..], c, TimesAfter(ops[0], c, n));
    }
  }

  lemma WithoutCount(caches: seq<nat>, c: nat)
    ensures multiset(Without(caches, c)) == multiset(caches) - multiset{c}
  {
    var i := IndexOf(caches, c);
    if i < |caches| {
      assert caches == caches[..i] + [c] + caches[i + 1..];
    } else {
      assert caches[..i] == caches;
    }
  }

  /** The registered caches other than `c`, in order. */
  function Others(caches: seq<nat>, c: nat): seq<nat> {
    if caches == [] then [] else (if caches[0] == c then [] else [caches[0]]) + Others(caches[1..], c)
  }

  lemma {:induction false} OthersAppend(a: seq<nat>, b: seq<nat>, c: nat)
    ensures Others(a + b, c) == Others(a, c) + Others(b, c)
    decreases |a|
  {
    if a == [] {
      assert a + b == b;
    } else {
      OthersAppend(a[1..], b, c);
      assert (a + b)[1..] == a[1..] + b && (a + b)[0] == a[0];
      Regroup(if a[0] == c then [] else [a[0]], Others(a[1..], c), Others(b, c));
    }
  }

  lemma Regroup(a: seq<nat>, b: seq<nat>, d: seq<nat>)
    ensures a + (b + d) == a + b + d
  {
  }

  lemma OthersOne(c: nat)
    ensures Others([c], c) == []
  {
  }

  lemma OthersWithout(caches: seq<nat>, c: nat, i: nat)
    requires i < |caches| && caches[i] == c
    ensures Others(caches[..i] + caches[i + 1..], c) == Others(caches, c)
  {
    var a, b := caches[..i], caches[i + 1..];
    OthersOne(c);
    assert caches == a + [c] + b;
    OthersAppend(a + [c], b, c);
    OthersAppend(a, [c], c);
    OthersAppend(a, b, c);
  }

  /** A cache registers behind all others, and neither step disturbs the order of the others. */
  lemma StepKeepsOrder(s: State, op: Op)
    ensures Others(Step(s, op).caches, op.cache) == Others(s.caches, op.cache)
    ensures op.Register? ==> s.caches <= Step(s, op).caches && Step(s, op).caches[|s.caches|..] == [op.cache]
  {
    var c, i := op.cache, IndexOf(s.caches, op.cache);
    if op.Register? {
      OthersAppend(s.caches, [c], c);
      OthersOne(c);
    } else if i < |s.caches| {
      OthersWithout(s.caches, c, i);
    }
  }

  class Janitor {
    var buf: array<nat>
    var len: nat
    var running: bool
    var stop: nat
    var chans: seq<bool>
    var panicked: bool

    ghost predicate Valid()
      reads this
    {
      len <= buf.Length
    }

    ghost function View(): State
      requires Valid()
      reads this, buf
    {
      State(buf[..len], running, stop, chans, panicked)
    }

    constructor ()
      ensures Valid() && fresh(buf) && View() == NEW
    {
      buf := new nat[0];
      len, running, stop, chans, panicked := 0, false, 0, [], false;
    }

    method Register(c: nat)
      requires Valid()
      modifies this, buf
      ensures Valid() && (buf == old(buf) || fresh(buf))
      ensures View() == Step(old(View()), Op.Register(c))
    {
      if len == buf.Length {
        var bigger := new nat[2 * len + 1](_ => 0);
        forall i | 0 <= i < len {
          bigger[i] := buf[i];
        }
        assert bigger[..len] == buf[..len];
        buf := bigger;
      }
      buf[len] := c;
      len := len + 1;
      if !running {
        stop := |chans|;
        chans := chans + [true];
        running := true;
      }
    }

    /** append(caches[:i], caches[i+1:]...) */
    method DeleteAt(i: nat)
      requires Valid() && i < len
      modifies this`len, buf
      ensures Valid() && buf[..len] == old(buf[..len])[..i] + old(buf[..len])[i + 1..]
    {
      forall k | i <= k < len - 1 {
        buf[k] := buf[k + 1];
      }
      len := len - 1;
    }

    method Find(c: nat) returns (i: nat)
      requires Valid()
      ensures i == IndexOf(buf[..len], c)
    {
      ghost var caches := buf[..len];
      i := 0;
      while i < len && buf[i] != c
        invariant 0 <= i <= len && IndexOf(caches, c) == i + IndexOf(caches[i..], c)
      {
        assert caches[i..][0] == buf[i] && caches[i..][1..] == caches[i + 1..];
        i := i + 1;
      }
      assert i < len ==> caches[i..][0] == c;
    }

    /** The first registration of `c` is overwritten in place by the ones behind it. */
    method Unregister(c: nat)
      requires Valid()
      modifies this, buf
      ensures Valid() && buf == old(buf)
      ensures View() == Step(old(View()), Op.Unregister(c))
    {
      var i := Find(c);
      if i < len {
        DeleteAt(i);
      }
      if len == 0 && running {
        if stop < |chans| && chans[stop] {
          chans := chans[stop := false];
          running := false;
        } else {
          panicked := true;
        }
      }
    }

    /** What one tick sweeps: a copy, taken under the lock. */
    method Snapshot() returns (caches: array<nat>)
      requires Valid()
      ensures fresh(caches) && caches[..] == View().caches
    {
      caches := new nat[len](_ => 0);
      forall i | 0 <= i < len {
        caches[i] := buf[i];
      }
    }
  }

  /** A sweep in progress is not disturbed by a cache that unregisters meanwhile. */
  method TickThenUnregister(j: Janitor, c: nat) returns (caches: array<nat>)
    requires j.Valid()
    modifies j, j.buf
    ensures fresh(caches) && caches[..] == old(j.View()).caches
    ensures j.Valid() && j.View() == Step(old(j.View()), Unregister(c))
  {
    caches := j.Snapshot();
    j.Unregister(c);
  }
}
