/** Putting single tracks and batches on a chat's queue and starting them (internal/bot/play.go), on values. */
module Batches {
  import opened Wrappers
  import opened Chats
  import opened World
  import opened Playback
  import Rotation

  // A search result or playlist entry, before it becomes a queued track.
  datatype UrlTrack = UrlTrack(id: string, duration: int, platform: string)

  function NewTrack(t: UrlTrack, user: string): Track {
    Track(t.id, user, t.platform, t.duration, 0, "")
  }

  /** The tracks that are not too long, each as a fresh track. */
  function Accepted(tracks: seq<UrlTrack>, user: string, maxDuration: int): seq<Track> {
    if tracks == [] then [] else
    (if tracks[0].duration > maxDuration then [] else [NewTrack(tracks[0], user)])
      + Accepted(tracks[1..], user, maxDuration)
  }

  /** Exactly the tracks that are not too long are accepted, fresh: not looping and not downloaded. */
  lemma {:induction false} AcceptedMeaning(tracks: seq<UrlTrack>, user: string, maxDuration: int, t: Track)
    ensures t in Accepted(tracks, user, maxDuration) <==>
            t.duration <= maxDuration && t.loop == 0 && t.filePath == "" && t.user == user &&
            UrlTrack(t.trackID, t.duration, t.platform) in tracks
  {
    if tracks != [] {
      AcceptedMeaning(tracks[1..], user, maxDuration, t);
      assert tracks == [tracks[0]] + tracks[1..];
      var rest := Accepted(tracks[1..], user, maxDuration);
      assert [] + rest == rest;
    }
  }

  /** The accepted tracks keep the order of the list, and none is lost or doubled. */
  lemma {:induction false} AcceptedInOrder(a: seq<UrlTrack>, t: UrlTrack, user: string, maxDuration: int)
    ensures Accepted(a + [t], user, maxDuration) ==
            Accepted(a, user, maxDuration) +
            if t.duration <= maxDuration then [Track(t.id, user, t.platform, t.duration, 0, "")] else []
    decreases |a|
  {
    if a == [] {
      assert ([] + [t])[1..] == [];
      assert [] + [t] == [t];
    } else {
      AcceptedInOrder(a[1..], t, user, maxDuration);
      assert (a + [t])[1..] == a[1..] + [t];
    }
  }

  function Slots(ts: seq<Track>): (r: seq<Slot>)
    ensures |r| == |ts| && forall i :: 0 <= i < |ts| ==> r[i] == Some(ts[i])
  {
    if ts == [] then [] else Slots(ts[..|ts| - 1]) + [Some(ts[|ts| - 1])]
  }

  /** Inserting a batch behind the current track, its last track first. */
  function InsertAll(q: seq<Slot>, batch: seq<Track>): seq<Slot>
    decreases |batch|
  {
    if batch == [] then q
    else InsertAll(InsertNext(q, Some(batch[|batch| - 1])), batch[..|batch| - 1])
  }

  lemma Regroup(a: seq<Slot>, t: Slot, b: seq<Slot>)
    ensures a + ([t] + b) == (a + [t]) + b
  {
  }

  lemma {:induction false} InsertAllBehindHead(head: Slot, rest: seq<Slot>, batch: seq<Track>)
    ensures InsertAll([head] + rest, batch) == [head] + (Slots(batch) + rest)
    decreases |batch|
  {
    if batch == [] {
      assert Slots(batch) + rest == rest;
    } else {
      var n := |batch| - 1;
      var t := Some(batch[n]);
      InsertAllBehindHead(head, [t] + rest, batch[..n]);
      assert InsertNext([head] + rest, t) == [head] + ([t] + rest);
      Regroup(Slots(batch[..n]), t, rest);
    }
  }

  /**
   On a queue that plays something the batch ends up behind the current track, in its own order and before the rest.
   On an empty queue the last track of the batch has become the head.
   */
  lemma InsertAllMeaning(q: seq<Slot>, batch: seq<Track>)
    ensures q != [] ==> InsertAll(q, batch) == [q[0]] + (Slots(batch) + q[1..])
    ensures q == [] && batch != [] ==>
              InsertAll(q, batch) == [Some(batch[|batch| - 1])] + Slots(batch[..|batch| - 1])
  {
    if q != [] {
      assert q == [q[0]] + q[1..];
      InsertAllBehindHead(q[0], q[1..], batch);
    } else if batch != [] {
      var last := Some(batch[|batch| - 1]);
      assert [last] == [last] + [];
      InsertAllBehindHead(last, [], batch[..|batch| - 1]);
      assert Slots(batch[..|batch| - 1]) + [] == Slots(batch[..|batch| - 1]);
    }
  }

  function AddBatch(o: Option<Chat>, batch: seq<Track>, force: bool): Option<Chat> {
    if force && batch != [] then Some(Base(o).(queue := InsertAll(Base(o).queue, batch)))
    else AddSongs(o, Slots(batch))
  }

  lemma AddBatchLength(o: Option<Chat>, batch: seq<Track>, force: bool)
    ensures |Base(AddBatch(o, batch, force)).queue| == |Base(o).queue| + |batch|
  {
    InsertAllMeaning(Base(o).queue, batch);
  }

  /** Where the first track of the batch sits when the queue was empty before. */
  function FirstPosition(batch: seq<Track>, force: bool): nat {
    if force && |batch| > 1 then 1 else 0
  }

  /** handleMultipleTracks, once the tracks that are too long have been dropped. */
  function PlayBatch(w: World, cfg: Config, chat: int, s: Session, batch: seq<Track>, force: bool): Session {
    if batch == [] then s else
    var s' := s.(chat := AddBatch(s.chat, batch, force));
    if Base(s.chat).queue != [] then
      if force then PlayNext(w, cfg, chat, s') else s'
    else
      PlayNext(w, cfg, chat, s'.(chat := SetSlot(s'.chat, FirstPosition(batch, force), batch[0].(loop := 1))))
  }

  /** enqueueTrack; the flag says whether the track waits (or has been skipped to) rather than is to be played now. */
  function EnqueueTrack(w: World, cfg: Config, chat: int, s: Session, t: Track, force: bool): (Session, bool) {
    var s' := if force then s.(chat := AddSongToFront(s.chat, Some(t)))
              else if t.user != AUTOPLAY_USER then Note(s.(chat := AddSong(s.chat, Some(t))), Forgot)
              else s.(chat := AddSong(s.chat, Some(t)));
    if |Base(s'.chat).queue| > 1 then (if force then PlayNext(w, cfg, chat, s') else s', true) else (s', false)
  }

  /**
   handleSingleTrack and handleMedia: a track that needs not wait is fetched if it has no file and streamed at once;
   whatever fails takes the head off the queue again.
   */
  function PlaySingle(w: World, cfg: Config, chat: int, s: Session, t: Track, force: bool): Session {
    var (s', waits) := EnqueueTrack(w, cfg, chat, s, t, force);
    if waits then s' else StartSingle(w, cfg, chat, s', t)
  }

  function StartSingle(w: World, cfg: Config, chat: int, s: Session, t: Track): Session {
    var (s', path, failed) := FetchSingle(w, s, t);
    if failed then PopSession(s') else StreamSingle(w, cfg, chat, s', path)
  }

  /** The path to stream, and whether its download failed. */
  function FetchSingle(w: World, s: Session, t: Track): (Session, string, bool) {
    if t.filePath != "" then (s, t.filePath, false) else
    var (path, failed) := w.download(s.tick);
    var s' := s.(tick := s.tick + 1);
    (if failed then s' else s'.(chat := SetSlot(s'.chat, 0, t.(filePath := path))), path, failed)
  }

  function StreamSingle(w: World, cfg: Config, chat: int, s: Session, path: string): Session {
    var s' := StreamSession(w, cfg, chat, s, path);
    if Rotation.PlayMedia(w, cfg.accounts, chat, s.store, s.tick).end.Started? then s' else PopSession(s')
  }

  /**
   A single track on an idle chat: what is streamed is its own file or the one downloaded, and nothing exactly
   when the download fails.  The track stays in the queue exactly when its first attempt started the stream.
   */
  lemma SingleOnIdle(w: World, cfg: Config, chat: int, s: Session, t: Track, force: bool)
    requires Base(s.chat).queue == []
    ensures var s1, r := EnqueueTrack(w, cfg, chat, s, t, force).0, PlaySingle(w, cfg, chat, s, t, force);
            var (s2, path, failed) := FetchSingle(w, s1, t);
            var started := Rotation.PlayMedia(w, cfg.accounts, chat, s2.store, s2.tick).end.Started?;
            && Base(s1.chat).queue == [Some(t)]
            && (failed <==> t.filePath == "" && w.download(s1.tick).1)
            && (!failed ==> path == if t.filePath != "" then t.filePath else w.download(s1.tick).0)
            && (!failed ==> s1.log + [Streamed(path)] <= r.log)
            && Base(r.chat).queue ==
               if !failed && started && w.attempt(s2.tick + 1) == Ok then [Some(t.(filePath := path))] else []
  {
    var s1 := EnqueueTrack(w, cfg, chat, s, t, force).0;
    IdleEnqueue(w, cfg, chat, s, t, force);
    SingleStarts(w, cfg, chat, s1, t);
  }

  lemma SingleStarts(w: World, cfg: Config, chat: int, s: Session, t: Track)
    requires s.chat.Some? && s.chat.value.queue == [Some(t)]
    ensures var r := StartSingle(w, cfg, chat, s, t);
            var (s', path, failed) := FetchSingle(w, s, t);
            var started := Rotation.PlayMedia(w, cfg.accounts, chat, s'.store, s'.tick).end.Started?;
            && (!failed ==> s.log + [Streamed(path)] <= r.log)
            && Base(r.chat).queue ==
               if !failed && started && w.attempt(s'.tick + 1) == Ok then [Some(t.(filePath := path))] else []
  {
    var (s', path, failed) := FetchSingle(w, s, t);
    if !failed {
      assert s'.chat.value.queue == [Some(t.(filePath := path))];
      SingleStream(w, cfg, chat, s', path);
    }
  }

  lemma SingleStream(w: World, cfg: Config, chat: int, s: Session, path: string)
    requires s.chat.Some? && |s.chat.value.queue| == 1
    ensures var started := Rotation.PlayMedia(w, cfg.accounts, chat, s.store, s.tick).end.Started?;
            var r := StreamSingle(w, cfg, chat, s, path);
            && s.log + [Streamed(path)] <= r.log
            && Base(r.chat).queue == if started && w.attempt(s.tick + 1) == Ok then s.chat.value.queue else []
  {
    StreamKeepsChatExactlyWhen(w, cfg, chat, s, path);
  }

  lemma IdleEnqueue(w: World, cfg: Config, chat: int, s: Session, t: Track, force: bool)
    requires Base(s.chat).queue == []
    ensures var (s1, waits) := EnqueueTrack(w, cfg, chat, s, t, force);
            !waits && s1.chat.Some? && s1.chat.value.queue == [Some(t)]
  {
  }

  lemma IdleQueue(o: Option<Chat>, batch: seq<Track>, force: bool)
    requires Base(o).queue == [] && batch != [] && (!force || |batch| == 1)
    ensures AddBatch(o, batch, force).Some? && AddBatch(o, batch, force).value.queue == Slots(batch)
  {
    InsertAllMeaning([], batch);
  }

  lemma StartsAtHead(w: World, cfg: Config, chat: int, s: Session, batch: seq<Track>)
    requires s.chat.Some? && s.chat.value.queue == Slots(batch) && batch != [] && batch[0].loop == 0
    ensures var s' := s.(chat := SetSlot(s.chat, 0, batch[0].(loop := 1)));
            s.log + [Tried(batch[0], Slots(batch))] <= PlayNext(w, cfg, chat, s').log
  {
    var s' := s.(chat := SetSlot(s.chat, 0, batch[0].(loop := 1)));
    PlayNextTriesFirst(w, cfg, chat, s');
    assert Base(s'.chat).queue[0 := Some(batch[0])] == Slots(batch);
  }

  /**
   A batch on an idle chat starts with its first track, the queue being exactly the batch and its loop back at zero,
   exactly when it is not forced or has a single track.
   */
  lemma BatchStartsExactlyWhen(w: World, cfg: Config, chat: int, s: Session, batch: seq<Track>, force: bool)
    requires Base(s.chat).queue == [] && batch != [] && forall t :: t in batch ==> t.loop == 0
    ensures s.log + [Tried(batch[0], Slots(batch))] <= PlayBatch(w, cfg, chat, s, batch, force).log <==>
            !force || |batch| == 1
  {
    if !force || |batch| == 1 {
      IdleQueue(s.chat, batch, force);
      assert batch[0] in batch;
      StartsAtHead(w, cfg, chat, s.(chat := AddBatch(s.chat, batch, force)), batch);
    } else {
      NotFromFirst(w, cfg, chat, s, batch);
    }
  }

  lemma NotFromFirst(w: World, cfg: Config, chat: int, s: Session, batch: seq<Track>)
    requires Base(s.chat).queue == [] && |batch| > 1 && forall t :: t in batch ==> t.loop == 0
    ensures !(s.log + [Tried(batch[0], Slots(batch))] <= PlayBatch(w, cfg, chat, s, batch, true).log)
  {
    assert batch[0] in batch && batch[|batch| - 1] in batch;
    ForcedOnIdleLosesLast(w, cfg, chat, s, batch);
    var r := PlayBatch(w, cfg, chat, s, batch, true);
    if s.log + [Tried(batch[0], Slots(batch))] <= r.log {
      SameNext(s.log, [Tried(batch[0], Slots(batch))], LosesLast(batch), r.log);
    }
  }

  lemma SameNext(log: seq<Ev>, a: seq<Ev>, b: seq<Ev>, r: seq<Ev>)
    requires log + a <= r && log + b <= r && a != [] && b != []
    ensures a[0] == b[0]
  {
    assert (log + a)[|log|] == a[0] && (log + b)[|log|] == b[0];
  }

  /** What a forced batch of several tracks on an idle chat does first. */
  function LosesLast(batch: seq<Track>): seq<Ev>
    requires |batch| > 1
  {
    var t, last := batch[0].(loop := 1), batch[|batch| - 1];
    (if last.platform == YOUTUBE && last.trackID != "" then [Popped(last.trackID)] else [])
      + [Tried(t, [Some(t)] + Slots(batch[1..|batch| - 1]))]
  }

  /**
   A forced batch of several tracks on an idle chat goes wrong: its last track has become the head, is dropped
   without being tried, and the first track starts with one repetition left.
   */
  lemma ForcedOnIdleLosesLast(w: World, cfg: Config, chat: int, s: Session, batch: seq<Track>)
    requires Base(s.chat).queue == [] && |batch| > 1
    requires batch[|batch| - 1].loop == 0
    ensures s.log + LosesLast(batch) <= PlayBatch(w, cfg, chat, s, batch, true).log
  {
    var n := |batch| - 1;
    var t := batch[0].(loop := 1);
    var s' := s.(chat := SetSlot(AddBatch(s.chat, batch, true), 1, t));
    IdleForced(s.chat, batch);
    assert s'.chat.value.queue[1..] == [Some(t)] + Slots(batch[1..n]);
    PlayNextTriesFirst(w, cfg, chat, s');
    PopLog(s', Tried(t, [Some(t)] + Slots(batch[1..n])));
  }

  /** The queue after a forced batch on an idle chat, its first track set to loop. */
  lemma IdleForced(o: Option<Chat>, batch: seq<Track>)
    requires Base(o).queue == [] && |batch| > 1
    ensures var n, t := |batch| - 1, batch[0].(loop := 1);
            && AddBatch(o, batch, true).Some?
            && Base(SetSlot(AddBatch(o, batch, true), 1, t)).queue == [Some(batch[n]), Some(t)] + Slots(batch[1..n])
  {
    InsertAllMeaning([], batch);
  }

  lemma PopLog(s: Session, e: Ev)
    requires Playing(s.chat).Some?
    ensures var t := Playing(s.chat).value;
            PopSession(s).log + [e] ==
            s.log + ((if t.platform == YOUTUBE && t.trackID != "" then [Popped(t.trackID)] else []) + [e])
  {
    var popped := [Popped(Playing(s.chat).value.trackID)];
    assert s.log + popped + [e] == s.log + (popped + [e]);
    assert [] + [e] == [e];
  }

  /** A forced batch while something plays: the queue becomes current, batch, rest. */
  lemma ForcedQueue(o: Option<Chat>, batch: seq<Track>)
    requires Base(o).queue != [] && batch != []
    ensures var q, q' := Base(o).queue, Base(AddBatch(o, batch, true)).queue;
            && q' == [q[0]] + (Slots(batch) + q[1..])
            && q'[1] == Some(batch[0]) && q'[1..] == Slots(batch) + q[1..]
  {
    var q := Base(o).queue;
    InsertAllMeaning(q, batch);
    var rest := Slots(batch) + q[1..];
    assert ([q[0]] + rest)[1..] == rest;
    assert rest[0] == Slots(batch)[0];
  }

  /** Unless the current track still loops, the first track of a forced batch is tried next, the rest behind it. */
  lemma ForcedBatchSkipsTo(w: World, cfg: Config, chat: int, s: Session, batch: seq<Track>)
    requires Base(s.chat).queue != [] && batch != [] && LoopCount(s.chat) <= 0
    ensures PoppedLog(s) + [Tried(batch[0], Slots(batch) + Base(s.chat).queue[1..])]
              <= PlayBatch(w, cfg, chat, s, batch, true).log
  {
    ForcedQueue(s.chat, batch);
    var s' := s.(chat := AddBatch(s.chat, batch, true));
    PopSessionIs(s');
    PlayNextTriesFirst(w, cfg, chat, s');
  }

  lemma UpdateHead(a: Slot, rest: seq<Slot>, b: Slot)
    ensures ([a] + rest)[0 := b] == [b] + rest
  {
  }

  /** While the current track still loops, a forced batch only waits: the current track is tried again. */
  lemma ForcedBatchWaits(w: World, cfg: Config, chat: int, s: Session, batch: seq<Track>)
    requires LoopCount(s.chat) > 0 && batch != []
    ensures var t, q := Playing(s.chat).value.(loop := LoopCount(s.chat) - 1), Base(s.chat).queue;
            s.log + [Tried(t, [Some(t)] + (Slots(batch) + q[1..]))] <= PlayBatch(w, cfg, chat, s, batch, true).log
  {
    var q, s' := Base(s.chat).queue, s.(chat := AddBatch(s.chat, batch, true));
    ForcedQueue(s.chat, batch);
    assert Playing(s'.chat) == Playing(s.chat) == q[0];
    PlayNextTriesFirst(w, cfg, chat, s');
    UpdateHead(q[0], Slots(batch) + q[1..], Some(q[0].value.(loop := LoopCount(s.chat) - 1)));
  }

  /** While the current track still loops, a forced track only waits behind it. */
  lemma ForcedTrackWaits(w: World, cfg: Config, chat: int, s: Session, t: Track)
    requires LoopCount(s.chat) > 0
    ensures var again, q := Playing(s.chat).value.(loop := LoopCount(s.chat) - 1), Base(s.chat).queue;
            var (r, waits) := EnqueueTrack(w, cfg, chat, s, t, true);
            waits && s.log + [Tried(again, [Some(again)] + ([Some(t)] + q[1..]))] <= r.log
  {
    var q, s' := Base(s.chat).queue, s.(chat := AddSongToFront(s.chat, Some(t)));
    assert Base(s'.chat).queue == [q[0]] + ([Some(t)] + q[1..]);
    PlayNextTriesFirst(w, cfg, chat, s');
    UpdateHead(q[0], [Some(t)] + q[1..], Some(q[0].value.(loop := LoopCount(s.chat) - 1)));
  }

  /** A single forced track is tried next under the same condition. */
  lemma ForcedTrackSkipsTo(w: World, cfg: Config, chat: int, s: Session, t: Track)
    requires Base(s.chat).queue != [] && LoopCount(s.chat) <= 0
    ensures var q, (r, waits) := Base(s.chat).queue, EnqueueTrack(w, cfg, chat, s, t, true);
            waits && PoppedLog(s) + [Tried(t, [Some(t)] + q[1..])] <= r.log
  {
    var q := Base(s.chat).queue;
    var s' := s.(chat := AddSongToFront(s.chat, Some(t)));
    assert Base(s'.chat).queue[1..] == [Some(t)] + q[1..];
    PopSessionIs(s');
    PlayNextTriesFirst(w, cfg, chat, s');
  }

  /** A batch that is only added to a queue that plays something changes nothing but the end of the queue. */
  lemma BatchWaits(w: World, cfg: Config, chat: int, s: Session, batch: seq<Track>)
    requires Base(s.chat).queue != [] && batch != []
    ensures var r, c := PlayBatch(w, cfg, chat, s, batch, false), Base(s.chat);
            && r.chat == Some(Chat(c.queue + Slots(batch), c.autoplay, c.history))
            && r.log == s.log && r.store == s.store && r.tick == s.tick
            && Playing(r.chat) == Playing(s.chat)
  {
  }

  /**
   A track that is only added goes to the end of the queue and waits exactly when there was a queue.  A user's track
   empties the autoplay history, one added by autoplay does not.
   */
  lemma AddedTrackWaits(w: World, cfg: Config, chat: int, s: Session, t: Track)
    ensures var (r, waits), c := EnqueueTrack(w, cfg, chat, s, t, false), Base(s.chat);
            && r.chat == Some(Chat(c.queue + [Some(t)], c.autoplay, if t.user == "Autoplay" then c.history else []))
            && (waits <==> c.queue != [])
            && r.store == s.store && r.tick == s.tick
            && r.log == if t.user == "Autoplay" then s.log else s.log + [Forgot]
  {
  }

  /** A forced track on an idle chat is its queue, and is to be played now. */
  lemma ForcedTrackOnIdle(w: World, cfg: Config, chat: int, s: Session, t: Track)
    requires Base(s.chat).queue == []
    ensures var (r, waits), c := EnqueueTrack(w, cfg, chat, s, t, true), Base(s.chat);
            !waits && r == s.(chat := Some(Chat([Some(t)], c.autoplay, c.history)))
  {
  }
}
