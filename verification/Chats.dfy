/**
 What one chat's queue, autoplay switch and autoplay history mean, on values: the
 specification that the array-backed `ChatCacher` refines and that the playback
 driver is reasoned about with.  A chat that is absent from the cache is `None`.
 */
module Chats {
  import opened Wrappers

  const AUTOPLAY_USER := "Autoplay"
  const YOUTUBE := "youtube"

  datatype Track = Track(
    trackID: string, user: string, platform: string, duration: int, loop: int, filePath: string)

  // A nil pointer in the queue is the slot None.
  type Slot = Option<Track>

  datatype Chat = Chat(queue: seq<Slot>, autoplay: bool, history: seq<string>)

  const EMPTY := Chat([], false, [])

  function At(m: map<int, Chat>, id: int): Option<Chat> {
    if id in m then Some(m[id]) else None
  }

  function Put(m: map<int, Chat>, id: int, o: Option<Chat>): map<int, Chat> {
    if o.Some? then m[id := o.value] else m - {id}
  }

  lemma PutAt(m: map<int, Chat>, id: int)
    ensures Put(m, id, At(m, id)) == m
  {
  }

  lemma PutPut(m: map<int, Chat>, id: int, a: Option<Chat>, b: Option<Chat>)
    ensures Put(Put(m, id, a), id, b) == Put(m, id, b)
    ensures At(Put(m, id, a), id) == a
  {
  }

  function Base(o: Option<Chat>): Chat {
    if o.Some? then o.value else EMPTY
  }

  // ----- reads -----

  function Playing(o: Option<Chat>): Slot {
    if o.None? || o.value.queue == [] then None else o.value.queue[0]
  }

  function LoopCount(o: Option<Chat>): int {
    if Playing(o).None? then 0 else Playing(o).value.loop
  }

  function LastHistory(o: Option<Chat>): string {
    if o.None? || o.value.history == [] then "" else o.value.history[|o.value.history| - 1]
  }

  predicate Matches(s: Slot, trackID: string) {
    s.Some? && s.value.trackID == trackID
  }

  /** The least position at or after `from` holding `trackID`, or the queue's length. */
  function FindFrom(q: seq<Slot>, trackID: string, from: nat): (i: nat)
    requires from <= |q|
    ensures from <= i <= |q|
    ensures i < |q| ==> Matches(q[i], trackID)
    ensures forall j :: from <= j < i ==> !Matches(q[j], trackID)
    decreases |q| - from
  {
    if from == |q| || Matches(q[from], trackID) then from else FindFrom(q, trackID, from + 1)
  }

  // ----- writes -----

  function AddSong(o: Option<Chat>, s: Slot): Option<Chat> {
    var c := Base(o);
    Some(c.(queue := c.queue + [s],
            history := if s.Some? && s.value.user != AUTOPLAY_USER then [] else c.history))
  }

  function AddSongs(o: Option<Chat>, songs: seq<Slot>): Option<Chat> {
    if songs == [] then o else Some(Base(o).(queue := Base(o).queue + songs))
  }

  function InsertNext(q: seq<Slot>, s: Slot): seq<Slot> {
    if q == [] then [s] else [q[0], s] + q[1..]
  }

  function AddSongToFront(o: Option<Chat>, s: Slot): Option<Chat> {
    Some(Base(o).(queue := InsertNext(Base(o).queue, s)))
  }

  function MoveNext(q: seq<Slot>, trackID: string): seq<Slot> {
    if |q| < 2 then q else
    var i := FindFrom(q, trackID, 1);
    if i == |q| then q else [q[0], q[i]] + q[1..i] + q[i + 1..]
  }

  function MoveTrackToFront(o: Option<Chat>, trackID: string): Option<Chat> {
    if o.None? then o else Some(o.value.(queue := MoveNext(o.value.queue, trackID)))
  }

  function Remember(h: seq<string>, id: string): seq<string> {
    if id == "" || id in h then h else h + [id]
  }

  function RememberAll(h: seq<string>, ids: seq<string>): seq<string>
    decreases |ids|
  {
    if ids == [] then h else RememberAll(Remember(h, ids[0]), ids[1..])
  }

  function AddAutoplayHistory(o: Option<Chat>, ids: seq<string>): Option<Chat> {
    Some(Base(o).(history := RememberAll(Base(o).history, ids)))
  }

  /** The history after the current song `s` has been taken off the queue. */
  function HistoryAfterPop(h: seq<string>, s: Slot): seq<string> {
    if s.Some? && s.value.platform == YOUTUBE then Remember(h, s.value.trackID) else h
  }

  function RemoveCurrentSong(o: Option<Chat>): Option<Chat> {
    if o.None? || o.value.queue == [] then o else
    Some(o.value.(queue := o.value.queue[1..], history := HistoryAfterPop(o.value.history, o.value.queue[0])))
  }

  function RemoveAt(q: seq<Slot>, index: int): seq<Slot> {
    if 0 <= index < |q| then q[..index] + q[index + 1..] else q
  }

  function RemoveTrack(o: Option<Chat>, index: int): Option<Chat> {
    if o.None? then o else Some(o.value.(queue := RemoveAt(o.value.queue, index)))
  }

  function SetAutoplay(o: Option<Chat>, state: bool): Option<Chat> {
    Some(Base(o).(autoplay := state, history := if state then Base(o).history else []))
  }

  function ClearAutoplayHistory(o: Option<Chat>): Option<Chat> {
    if o.None? then o else Some(o.value.(history := []))
  }

  /** A write through the pointer held at position `k`; nil slots and absent positions have no pointer. */
  function SetSlot(o: Option<Chat>, k: nat, t: Track): Option<Chat> {
    if o.None? || k >= |o.value.queue| || o.value.queue[k].None? then o
    else Some(o.value.(queue := o.value.queue[k := Some(t)]))
  }

  function SetLoopCount(o: Option<Chat>, loop: int): Option<Chat> {
    if Playing(o).None? then o else SetSlot(o, 0, Playing(o).value.(loop := loop))
  }

  // ----- what the operations mean -----

  /**
   Both "front" commands leave the playing track alone and conserve the tracks; taking the new
   second track away again gives back the other tracks in the order they had.
   */
  lemma InsertNextMeaning(q: seq<Slot>, s: Slot)
    ensures multiset(InsertNext(q, s)) == multiset(q) + multiset{s}
    ensures q != [] ==> InsertNext(q, s)[0] == q[0] && InsertNext(q, s)[1] == s && RemoveAt(InsertNext(q, s), 1) == q
  {
    if q != [] {
      assert q == [q[0]] + q[1..];
    }
  }

  lemma MoveNextMeaning(q: seq<Slot>, trackID: string)
    ensures multiset(MoveNext(q, trackID)) == multiset(q) && |MoveNext(q, trackID)| == |q|
    ensures q != [] ==> MoveNext(q, trackID)[0] == q[0]
    ensures |q| >= 2 && FindFrom(q, trackID, 1) < |q| ==>
              Matches(MoveNext(q, trackID)[1], trackID) &&
              RemoveAt(MoveNext(q, trackID), 1) == RemoveAt(q, FindFrom(q, trackID, 1))
    ensures |q| < 2 || FindFrom(q, trackID, 1) == |q| ==> MoveNext(q, trackID) == q
  {
    if |q| >= 2 {
      var i := FindFrom(q, trackID, 1);
      if i < |q| {
        RotateConserves(q, i);
      }
    }
  }

  lemma RotateConserves(q: seq<Slot>, i: nat)
    requires 1 <= i < |q|
    ensures var r := [q[0], q[i]] + q[1..i] + q[i + 1..];
            multiset(r) == multiset(q) && |r| == |q| && RemoveAt(r, 1) == RemoveAt(q, i)
  {
    var a, x, b := q[1..i], [q[i]], q[i + 1..];
    assert q == [q[0]] + a + x + b;
    assert [q[0], q[i]] + a + b == [q[0]] + x + a + b;
    assert ([q[0]] + x + a + b)[2..] == a + b;
    assert [q[0]] + a == q[..i];
  }

  /** The autoplay history never holds an empty id or the same id twice. */
  predicate HistoryOk(h: seq<string>) {
    "" !in h && forall i, j :: 0 <= i < j < |h| ==> h[i] != h[j]
  }

  lemma {:induction false} RememberAllKeeps(h: seq<string>, ids: seq<string>)
    requires HistoryOk(h)
    ensures HistoryOk(RememberAll(h, ids))
    ensures h <= RememberAll(h, ids)
    ensures forall x :: x in RememberAll(h, ids) <==> x in h || (x in ids && x != "")
    decreases |ids|
  {
    if ids != [] {
      RememberAllKeeps(Remember(h, ids[0]), ids[1..]);
    }
  }

  /** A user's song empties the autoplay history, one that autoplay adds (or a nil entry) keeps it. */
  lemma AddSongMeaning(o: Option<Chat>, s: Slot)
    ensures var c := Base(o);
            AddSong(o, s) ==
            Some(Chat(c.queue + [s], c.autoplay, if s.Some? && s.value.user != "Autoplay" then [] else c.history))
  {
  }

  /** A batch is appended and forgets nothing; an empty one does not even create the chat. */
  lemma AddSongsMeaning(o: Option<Chat>, songs: seq<Slot>)
    ensures songs == [] ==> AddSongs(o, songs) == o
    ensures songs != [] ==> AddSongs(o, songs) == Some(Chat(Base(o).queue + songs, Base(o).autoplay, Base(o).history))
  {
  }

  /** The switch has the value given, and switching off forgets. */
  lemma SetAutoplayMeaning(o: Option<Chat>, state: bool)
    ensures SetAutoplay(o, state) == Some(Chat(Base(o).queue, state, if state then Base(o).history else []))
  {
  }

  /** Forgetting touches neither the queue nor the switch. */
  lemma ClearAutoplayHistoryMeaning(o: Option<Chat>)
    ensures Base(ClearAutoplayHistory(o)) == Chat(Base(o).queue, Base(o).autoplay, [])
    ensures ClearAutoplayHistory(o).Some? <==> o.Some?
  {
  }

  /** Deleting a position moves up the ones behind it; there is nothing to delete beyond the queue. */
  lemma RemoveAtMeaning(q: seq<Slot>, index: int)
    ensures var r := RemoveAt(q, index);
            if 0 <= index < |q| then
              && |r| == |q| - 1
              && (forall j :: 0 <= j < index ==> r[j] == q[j])
              && (forall j :: index <= j < |r| ==> r[j] == q[j + 1])
            else r == q
  {
  }

  /** Of the playing track the loop count is written and nothing else; without one nothing is. */
  lemma SetLoopCountMeaning(o: Option<Chat>, loop: int)
    ensures var r := SetLoopCount(o, loop);
            if Playing(o).None? then r == o else
            && LoopCount(r) == loop
            && r == Some(o.value.(queue := r.value.queue)) && |r.value.queue| == |o.value.queue|
            && r.value.queue[0] == Some(Playing(o).value.(loop := loop)) && r.value.queue[1..] == o.value.queue[1..]
  {
  }
}
