/** Whole runs of one chat: every command that touches its queue, in any order and number. */
module Sessions {
  import opened Wrappers
  import opened Chats
  import opened World
  import opened Playback
  import Batches

  datatype Command =
    | Enqueue(s: Slot)               // AddSong
    | EnqueueNext(s: Slot)           // AddSongToFront
    | EnqueueAll(songs: seq<Slot>)   // AddSongs
    | MoveNext(trackID: string)
    | Remove(index: int)
    | Drop                           // RemoveCurrentSong
    | Single(t: Track, force: bool)  // a single track, played at once on an idle chat
    | Batch(ts: seq<Track>, force: bool)
    | Loop(count: int)
    | Autoplay(on: bool)
    | Forget                         // ClearAutoplayHistory
    | Clear                          // the video chat starts or ends
    | End                            // the stop command
    | Next                           // skip, stream end, forced play

  function Step(w: World, cfg: Config, chat: int, s: Session, cmd: Command): Session {
    match cmd
    case Enqueue(t) =>
      var s' := s.(chat := AddSong(s.chat, t));
      if t.Some? && t.value.user != AUTOPLAY_USER then Note(s', Forgot) else s'
    case EnqueueNext(t) => s.(chat := AddSongToFront(s.chat, t))
    case EnqueueAll(ts) => s.(chat := AddSongs(s.chat, ts))
    case MoveNext(id) => s.(chat := MoveTrackToFront(s.chat, id))
    case Remove(i) => s.(chat := RemoveTrack(s.chat, i))
    case Drop => PopSession(s)
    case Single(t, force) => Batches.PlaySingle(w, cfg, chat, s, t, force)
    case Batch(ts, force) => Batches.PlayBatch(w, cfg, chat, s, ts, force)
    case Loop(n) => s.(chat := SetLoopCount(s.chat, n))
    case Autoplay(on) =>
      var s' := s.(chat := SetAutoplay(s.chat, on));
      if on then s' else Note(s', Forgot)
    case Forget => Note(s.(chat := ClearAutoplayHistory(s.chat)), Forgot)
    case Clear => Note(s.(chat := None), Forgot)
    case End => Stop(w, cfg, chat, s)
    case Next => PlayNext(w, cfg, chat, s)
  }

  function Run(w: World, cfg: Config, chat: int, s: Session, cmds: seq<Command>): Session
    decreases |cmds|
  {
    if cmds == [] then s else Run(w, cfg, chat, Step(w, cfg, chat, s, cmds[0]), cmds[1..])
  }

  /** What the commands that add leave of the queue. */
  lemma AddingMeaning(w: World, cfg: Config, chat: int, s: Session, t: Slot, ts: seq<Slot>)
    ensures var q := Base(s.chat).queue;
            && Base(Step(w, cfg, chat, s, Enqueue(t)).chat).queue == q + [t]
            && Base(Step(w, cfg, chat, s, EnqueueAll(ts)).chat).queue == q + ts
            && (q != [] ==> Base(Step(w, cfg, chat, s, EnqueueNext(t)).chat).queue == [q[0], t] + q[1..])
  {
  }

  /** And those that take a track out or let it loop. */
  lemma TakingMeaning(w: World, cfg: Config, chat: int, s: Session, i: nat, n: int)
    ensures var q := Base(s.chat).queue;
            && (i < |q| ==> Base(Step(w, cfg, chat, s, Remove(i)).chat).queue == q[..i] + q[i + 1..])
            && (q != [] ==> Base(Step(w, cfg, chat, s, Drop).chat).queue == q[1..])
            && (q != [] && q[0].Some? ==> LoopCount(Step(w, cfg, chat, s, Loop(n)).chat) == n)
  {
  }

  /** The switch is set, the history forgotten, the chat gone. */
  lemma SwitchingMeaning(w: World, cfg: Config, chat: int, s: Session, on: bool)
    ensures Base(Step(w, cfg, chat, s, Autoplay(on)).chat).autoplay == on
    ensures Base(Step(w, cfg, chat, s, Command.Forget).chat).history == []
    ensures Step(w, cfg, chat, s, Clear).chat == None && Step(w, cfg, chat, s, End).chat == None
  {
  }

  // ----- reading the log -----

  /** The ids picked or popped since the history was last dropped. */
  function Seen(log: seq<Ev>): set<string> {
    if log == [] then {} else SeenAfter(Seen(log[..|log| - 1]), log[|log| - 1])
  }

  function SeenAfter(seen: set<string>, e: Ev): set<string> {
    if e.Forgot? then {}
    else if e.Popped? || e.Picked? then seen + {e.id}
    else seen
  }

  /** How often autoplay has picked since the history was last dropped. */
  function Picks(log: seq<Ev>): nat {
    if log == [] || log[|log| - 1].Forgot? then 0
    else Picks(log[..|log| - 1]) + if log[|log| - 1].Picked? then 1 else 0
  }

  lemma LogSnoc(log: seq<Ev>, e: Ev)
    ensures Seen(log + [e]) == SeenAfter(Seen(log), e)
    ensures Picks(log + [e]) == if e.Forgot? then 0 else if e.Picked? then Picks(log) + 1 else Picks(log)
  {
    assert (log + [e])[..|log|] == log;
  }

  /**
   Autoplay is sound in a log: each pick is of a track that was neither picked nor popped as a YouTube track since
   the history was last dropped, and there are at most `limit` picks between two drops.
   */
  ghost predicate SoundPicks(log: seq<Ev>, limit: nat) {
    forall k :: 0 <= k < |log| && log[k].Picked? ==> PickOk(log, k, limit)
  }

  ghost predicate PickOk(log: seq<Ev>, k: nat, limit: nat)
    requires k < |log| && log[k].Picked?
  {
    log[k].id != "" && log[k].id !in Seen(log[..k]) && Picks(log[..k + 1]) <= limit
  }

  lemma SoundSnoc(log: seq<Ev>, e: Ev, limit: nat)
    requires SoundPicks(log, limit)
    requires e.Picked? ==> e.id != "" && e.id !in Seen(log) && Picks(log) < limit
    ensures SoundPicks(log + [e], limit)
  {
    LogSnoc(log, e);
    var log' := log + [e];
    forall k | 0 <= k < |log'| && log'[k].Picked?
      ensures PickOk(log', k, limit)
    {
      if k < |log| {
        assert PickOk(log, k, limit);
        assert log'[..k] == log[..k] && log'[..k + 1] == log[..k + 1];
      } else {
        assert log'[..k] == log && log'[..k + 1] == log';
      }
    }
  }

  /** What every reachable session satisfies. */
  ghost predicate Inv(cfg: Config, s: Session) {
    && HistoryOk(Base(s.chat).history)
    && (forall id :: id in Seen(s.log) ==> id in Base(s.chat).history)
    && Picks(s.log) <= |Base(s.chat).history|
    && SoundPicks(s.log, cfg.limit)
  }

  lemma ForgotKeeps(cfg: Config, s: Session, o: Option<Chat>)
    requires Inv(cfg, s) && Base(o).history == []
    ensures Inv(cfg, Note(s.(chat := o), Forgot))
  {
    LogSnoc(s.log, Forgot);
    SoundSnoc(s.log, Forgot, cfg.limit);
  }

  lemma PopKeeps(cfg: Config, s: Session)
    requires Inv(cfg, s)
    ensures Inv(cfg, PopSession(s))
  {
    var head := Playing(s.chat);
    if head.Some? && head.value.platform == YOUTUBE && head.value.trackID != "" {
      LogSnoc(s.log, Popped(head.value.trackID));
      SoundSnoc(s.log, Popped(head.value.trackID), cfg.limit);
    }
  }

  lemma StopKeeps(w: World, cfg: Config, chat: int, s: Session)
    requires Inv(cfg, s)
    ensures Inv(cfg, Stop(w, cfg, chat, s))
  {
    ForgotKeeps(cfg, s, None);
  }

  lemma StreamKeeps(w: World, cfg: Config, chat: int, s: Session, path: string)
    requires Inv(cfg, s)
    ensures Inv(cfg, StreamSession(w, cfg, chat, s, path))
  {
    LogSnoc(s.log, Streamed(path));
    SoundSnoc(s.log, Streamed(path), cfg.limit);
    ForgotKeeps(cfg, Note(s, Streamed(path)), None);
  }

  lemma {:induction false} PlayNextKeeps(w: World, cfg: Config, chat: int, s: Session)
    requires Inv(cfg, s)
    ensures Inv(cfg, PlayNext(w, cfg, chat, s))
    decreases Room(cfg, s.chat), Weight(Base(s.chat).queue), 3
  {
    var loop := LoopCount(s.chat);
    if loop > 0 {
      PlayTrackKeeps(w, cfg, chat, s.(chat := SetLoopCount(s.chat, loop - 1)), 0);
    } else {
      PopKeeps(cfg, s);
      ContinueKeeps(w, cfg, chat, PopSession(s));
    }
  }

  lemma {:induction false} ContinueKeeps(w: World, cfg: Config, chat: int, s: Session)
    requires Inv(cfg, s)
    ensures Inv(cfg, Continue(w, cfg, chat, s))
    decreases Room(cfg, s.chat), Weight(Base(s.chat).queue), if Playing(s.chat).Some? then 5 else 2
  {
    if Playing(s.chat).Some? {
      PlayTrackKeeps(w, cfg, chat, s, 0);
    } else if LastHistory(s.chat) != "" && Base(s.chat).autoplay {
      AutoplayKeeps(w, cfg, chat, s, LastHistory(s.chat));
    } else {
      StopKeeps(w, cfg, chat, s);
    }
  }

  lemma PickKeeps(cfg: Config, s: Session, last: string, t: MixTrack)
    requires Inv(cfg, s) && last in Base(s.chat).history && |Base(s.chat).history| < cfg.limit
    requires t.id != "" && t.id != last && t.id !in Base(s.chat).history
    ensures Inv(cfg, AutoplaySession(s, last, t))
  {
    AutoplaySessionShrinks(cfg, s, last, t);
    LogSnoc(s.log, Picked(t.id));
    SoundSnoc(s.log, Picked(t.id), cfg.limit);
  }

  lemma {:induction false} AutoplayKeeps(w: World, cfg: Config, chat: int, s: Session, last: string)
    requires Inv(cfg, s) && last in Base(s.chat).history
    ensures Inv(cfg, HandleAutoplay(w, cfg, chat, s, last))
    decreases Room(cfg, s.chat), Weight(Base(s.chat).queue), 1
  {
    var history := Base(s.chat).history;
    if |history| >= cfg.limit {
      ForgotKeeps(cfg, s, ClearAutoplayHistory(s.chat));
      StopKeeps(w, cfg, chat, Note(s.(chat := ClearAutoplayHistory(s.chat)), Forgot));
    } else {
      var pick := Pick(w, s.tick, last, history);
      if pick.None? {
        StopKeeps(w, cfg, chat, s.(tick := s.tick + 1));
      } else {
        PickKeeps(cfg, s, last, pick.value);
        AutoplaySessionShrinks(cfg, s, last, pick.value);
        PlayTrackKeeps(w, cfg, chat, AutoplaySession(s, last, pick.value), |Base(s.chat).queue|);
      }
    }
  }

  lemma {:induction false} PlayTrackKeeps(w: World, cfg: Config, chat: int, s: Session, k: nat)
    requires HasTrack(s.chat, k) && Inv(cfg, s)
    ensures Inv(cfg, PlayTrack(w, cfg, chat, s, k))
    decreases Room(cfg, s.chat), Weight(Base(s.chat).queue), 4
  {
    var e := Tried(s.chat.value.queue[k].value, s.chat.value.queue);
    LogSnoc(s.log, e);
    SoundSnoc(s.log, e, cfg.limit);
    var s1 := Begin(s, k);
    if w.sends(s.tick) {
      var (s2, failed) := Fetch(w, s1, k);
      if failed {
        PlayNextKeeps(w, cfg, chat, s2);
      } else {
        StreamKeeps(w, cfg, chat, s2, s2.chat.value.queue[k].value.filePath);
      }
    }
  }

  lemma AddKeeps(cfg: Config, s: Session, t: Slot)
    requires Inv(cfg, s)
    ensures var s' := s.(chat := AddSong(s.chat, t));
            Inv(cfg, if t.Some? && t.value.user != AUTOPLAY_USER then Note(s', Forgot) else s')
  {
    ForgotKeeps(cfg, s, Some(AddSong(s.chat, t).value.(history := [])));
  }

  lemma EnqueueKeeps(w: World, cfg: Config, chat: int, s: Session, t: Track, force: bool)
    requires Inv(cfg, s)
    ensures Inv(cfg, Batches.EnqueueTrack(w, cfg, chat, s, t, force).0)
  {
    if force {
      PlayNextKeeps(w, cfg, chat, s.(chat := AddSongToFront(s.chat, Some(t))));
    } else {
      AddKeeps(cfg, s, Some(t));
    }
  }

  lemma SingleKeeps(w: World, cfg: Config, chat: int, s: Session, t: Track, force: bool)
    requires Inv(cfg, s)
    ensures Inv(cfg, Batches.PlaySingle(w, cfg, chat, s, t, force))
  {
    EnqueueKeeps(w, cfg, chat, s, t, force);
    StartKeeps(w, cfg, chat, Batches.EnqueueTrack(w, cfg, chat, s, t, force).0, t);
  }

  lemma StartKeeps(w: World, cfg: Config, chat: int, s: Session, t: Track)
    requires Inv(cfg, s)
    ensures Inv(cfg, Batches.StartSingle(w, cfg, chat, s, t))
  {
    var (s', path, failed) := Batches.FetchSingle(w, s, t);
    assert Inv(cfg, s');
    if failed {
      PopKeeps(cfg, s');
    } else {
      StreamSingleKeeps(w, cfg, chat, s', path);
    }
  }

  lemma StreamSingleKeeps(w: World, cfg: Config, chat: int, s: Session, path: string)
    requires Inv(cfg, s)
    ensures Inv(cfg, Batches.StreamSingle(w, cfg, chat, s, path))
  {
    StreamKeeps(w, cfg, chat, s, path);
    PopKeeps(cfg, StreamSession(w, cfg, chat, s, path));
  }

  lemma BatchKeeps(w: World, cfg: Config, chat: int, s: Session, ts: seq<Track>, force: bool)
    requires Inv(cfg, s)
    ensures Inv(cfg, Batches.PlayBatch(w, cfg, chat, s, ts, force))
  {
    if ts != [] {
      var s' := s.(chat := Batches.AddBatch(s.chat, ts, force));
      assert Base(s'.chat).history == Base(s.chat).history;
      PlayNextKeeps(w, cfg, chat, s');
      PlayNextKeeps(
        w, cfg, chat, s'.(chat := SetSlot(s'.chat, Batches.FirstPosition(ts, force), ts[0].(loop := 1))));
    }
  }

  lemma StepKeeps(w: World, cfg: Config, chat: int, s: Session, cmd: Command)
    requires Inv(cfg, s)
    ensures Inv(cfg, Step(w, cfg, chat, s, cmd))
  {
    match cmd
    case Enqueue(t) => AddKeeps(cfg, s, t);
    case Single(t, force) => SingleKeeps(w, cfg, chat, s, t, force);
    case Batch(ts, force) => BatchKeeps(w, cfg, chat, s, ts, force);
    case Drop => PopKeeps(cfg, s);
    case Autoplay(on) => ForgotKeeps(cfg, s, SetAutoplay(s.chat, false));
    case Forget => ForgotKeeps(cfg, s, ClearAutoplayHistory(s.chat));
    case Clear => ForgotKeeps(cfg, s, None);
    case End => StopKeeps(w, cfg, chat, s);
    case Next => PlayNextKeeps(w, cfg, chat, s);
    case _ =>
  }

  lemma {:induction false} RunKeeps(w: World, cfg: Config, chat: int, s: Session, cmds: seq<Command>)
    requires Inv(cfg, s)
    ensures Inv(cfg, Run(w, cfg, chat, s, cmds))
    decreases |cmds|
  {
    if cmds != [] {
      StepKeeps(w, cfg, chat, s, cmds[0]);
      RunKeeps(w, cfg, chat, Step(w, cfg, chat, s, cmds[0]), cmds[1..]);
    }
  }

  /**
   In every state that a chat can reach the history holds no empty id and no id twice; and over the whole run,
   between two drops of the history, autoplay picks at most AutoPlayLimit tracks and never one that it has picked
   already or that has been popped from the head of the queue as a YouTube track.
   */
  lemma AutoplayNeverRepeats(w: World, cfg: Config, chat: int, s: Session, cmds: seq<Command>)
    requires s.chat.None? && s.log == []
    ensures var r := Run(w, cfg, chat, s, cmds);
            HistoryOk(Base(r.chat).history) && SoundPicks(r.log, cfg.limit)
  {
    RunKeeps(w, cfg, chat, s, cmds);
  }

  /** Read without the running notions: two equal ids with a pick second are always separated by a drop. */
  lemma {:induction false} SeenSince(log: seq<Ev>, i: nat, id: string)
    requires i < |log| && (log[i] == Picked(id) || log[i] == Popped(id))
    requires forall k :: i <= k < |log| ==> log[k] != Forgot
    ensures id in Seen(log)
    decreases |log|
  {
    if i < |log| - 1 {
      SeenSince(log[..|log| - 1], i, id);
    }
  }

  lemma PickedOnceBetweenDrops(w: World, cfg: Config, chat: int, s: Session, cmds: seq<Command>, i: nat, j: nat)
    requires s.chat.None? && s.log == []
    requires var log := Run(w, cfg, chat, s, cmds).log;
             i < j < |log| && log[j].Picked? && (log[i] == Picked(log[j].id) || log[i] == Popped(log[j].id))
    ensures exists k :: i < k < j && Run(w, cfg, chat, s, cmds).log[k] == Forgot
  {
    AutoplayNeverRepeats(w, cfg, chat, s, cmds);
    var log := Run(w, cfg, chat, s, cmds).log;
    assert PickOk(log, j, cfg.limit);
    if forall k :: i < k < j ==> log[k] != Forgot {
      SeenSince(log[..j], i, log[j].id);
    }
  }
}
