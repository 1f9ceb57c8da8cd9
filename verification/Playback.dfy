/**
 The playback driver of one chat (internal/calls/playback.go, internal/calls/autoplay.go), on values.  PlayNext,
 PlayTrack and HandleAutoplay call each other; that the functions below are accepted at all is the proof that they
 terminate, for every queue, loop counts, history and pattern of failures.  One driver at a time per chat.
 */
module Playback {
  import opened Wrappers
  import opened Chats
  import opened World
  import Assistants
  import Rotation

  // What happens in a session, in order.
  datatype Ev =
    | Tried(track: Track, queue: seq<Slot>)  // playTrack begins with this track, the queue being as given
    | Streamed(path: string)                 // a stream of this file is attempted
    | Popped(id: string)                     // a YouTube track leaves the head of the queue
    | Picked(id: string)                     // autoplay chooses a track
    | Forgot                                 // the autoplay history is dropped

  datatype Session = Session(chat: Option<Chat>, store: Assistants.Store, tick: nat, log: seq<Ev>)

  datatype Config = Config(accounts: nat, limit: nat)  // accounts, and AutoPlayLimit

  // ----- measures -----

  function Weight(q: seq<Slot>): nat {
    if q == [] then 0
    else (if q[0].Some? && q[0].value.loop > 0 then q[0].value.loop else 0) + 1 + Weight(q[1..])
  }

  /** How many more ids the history can take before autoplay gives up. */
  function Room(cfg: Config, o: Option<Chat>): nat {
    if |Base(o).history| >= cfg.limit then 0 else cfg.limit - |Base(o).history|
  }

  lemma {:induction false} WeightSplit(q: seq<Slot>, r: seq<Slot>)
    ensures Weight(q + r) == Weight(q) + Weight(r)
    decreases |q|
  {
    if q == [] {
      assert q + r == r;
    } else {
      assert (q + r)[1..] == q[1..] + r;
      WeightSplit(q[1..], r);
    }
  }

  lemma WeightAt(q: seq<Slot>, k: nat, t: Track)
    requires k < |q| && q[k].Some? && q[k].value.loop == t.loop
    ensures Weight(q[k := Some(t)]) == Weight(q)
  {
    var q' := q[k := Some(t)];
    assert q == q[..k] + [q[k]] + q[k + 1..];
    assert q' == q[..k] + [Some(t)] + q[k + 1..];
    WeightSplit(q[..k] + [q[k]], q[k + 1..]);
    WeightSplit(q[..k], [q[k]]);
    WeightSplit(q[..k] + [Some(t)], q[k + 1..]);
    WeightSplit(q[..k], [Some(t)]);
  }

  // ----- the driver -----

  function Note(s: Session, e: Ev): Session {
    s.(log := s.log + [e])
  }

  function Stop(w: World, cfg: Config, chat: int, s: Session): (r: Session)
    ensures s.log <= r.log
  {
    var (_, store) := Assistants.GetAccount(s.store, cfg.accounts, chat, w.draw(s.tick), w.now(s.tick));
    Session(None, store, s.tick + 1, s.log + [Forgot])
  }

  function PopSession(s: Session): (r: Session)
    ensures s.log <= r.log
  {
    var head := Playing(s.chat);
    var s' := s.(chat := RemoveCurrentSong(s.chat));
    if head.Some? && head.value.platform == YOUTUBE && head.value.trackID != "" then
      Note(s', Popped(head.value.trackID))
    else s'
  }

  function PlayNext(w: World, cfg: Config, chat: int, s: Session): (r: Session)
    decreases Room(cfg, s.chat), Weight(Base(s.chat).queue), 3
    ensures s.log <= r.log
  {
    var loop := LoopCount(s.chat);
    if loop > 0 then PlayTrack(w, cfg, chat, s.(chat := SetLoopCount(s.chat, loop - 1)), 0)
    else Continue(w, cfg, chat, PopSession(s))
  }

  /** The rest of PlayNext, once the current track has been taken off the queue. */
  function Continue(w: World, cfg: Config, chat: int, s: Session): (r: Session)
    decreases Room(cfg, s.chat), Weight(Base(s.chat).queue), if Playing(s.chat).Some? then 5 else 2
    ensures s.log <= r.log
  {
    var last := LastHistory(s.chat);
    if Playing(s.chat).Some? then PlayTrack(w, cfg, chat, s, 0)
    else if last != "" && Base(s.chat).autoplay then HandleAutoplay(w, cfg, chat, s, last)
    else Stop(w, cfg, chat, s)
  }

  /** The tracks that a mix yields: entries without an id are dropped. */
  function BuildTrackList(raw: seq<MixTrack>): seq<MixTrack> {
    if raw == [] then [] else (if raw[0].id != "" then [raw[0]] else []) + BuildTrackList(raw[1..])
  }

  function Candidates(results: seq<MixTrack>, last: string, history: seq<string>): seq<MixTrack> {
    if results == [] then [] else
    (if results[0].id == last || results[0].id in history then [] else [results[0]])
      + Candidates(results[1..], last, history)
  }

  lemma CandidatesFrom(results: seq<MixTrack>, i: nat, last: string, history: seq<string>, before: seq<MixTrack>)
    requires i < |results|
    ensures before + Candidates(results[i..], last, history) ==
            (if results[i].id == last || results[i].id in history then before else before + [results[i]])
              + Candidates(results[i + 1..], last, history)
  {
    assert results[i..][1..] == results[i + 1..];
  }

  /** Exactly the mix entries with an id that is neither the last one nor in the history are candidates. */
  lemma {:induction false} CandidatesMeaning(raw: seq<MixTrack>, last: string, history: seq<string>, t: MixTrack)
    ensures t in Candidates(BuildTrackList(raw), last, history) <==>
            t in raw && t.id != "" && t.id != last && t.id !in history
  {
    if raw != [] {
      CandidatesMeaning(raw[1..], last, history, t);
      assert raw == [raw[0]] + raw[1..];
      var rest := BuildTrackList(raw[1..]);
      assert [] + rest == rest && ([raw[0]] + rest)[1..] == rest;
    }
  }

  function AutoplayTrack(t: MixTrack): Track {
    Track(t.id, AUTOPLAY_USER, YOUTUBE, t.duration, 0, "")
  }

  /** The pick, if there is one: a candidate that the shuffle has brought to the front. */
  function Pick(w: World, tick: nat, last: string, history: seq<string>): (r: Option<MixTrack>)
    ensures r.Some? ==> r.value.id != "" && r.value.id != last && r.value.id !in history
  {
    if w.mix(tick).None? then None else
    var candidates := Candidates(BuildTrackList(w.mix(tick).value), last, history);
    if candidates == [] then None else
    var t := candidates[w.shuffle(tick) % |candidates|];
    assert t in candidates;
    CandidatesMeaning(w.mix(tick).value, last, history, t);
    Some(t)
  }

  function AutoplaySession(s: Session, last: string, t: MixTrack): (r: Session)
    ensures s.log <= r.log && HasTrack(r.chat, |Base(s.chat).queue|)
  {
    var c := AddAutoplayHistory(s.chat, [last, t.id]);
    Note(s.(chat := AddSong(c, Some(AutoplayTrack(t))), tick := s.tick + 1), Picked(t.id))
  }

  lemma AutoplaySessionShrinks(cfg: Config, s: Session, last: string, t: MixTrack)
    requires |Base(s.chat).history| < cfg.limit && t.id != "" && t.id != last && t.id !in Base(s.chat).history
    ensures var r := AutoplaySession(s, last, t);
            && Room(cfg, r.chat) < Room(cfg, s.chat)
            && r.chat.value.queue == Base(s.chat).queue + [Some(AutoplayTrack(t))]
            && r.chat.value.history == RememberAll(Base(s.chat).history, [last, t.id])
            && (last in Base(s.chat).history ==> r.chat.value.history == Base(s.chat).history + [t.id])
  {
    var h := Base(s.chat).history;
    assert [last, t.id][1..] == [t.id];
    assert RememberAll(h, [last, t.id]) == RememberAll(Remember(h, last), [t.id]);
    assert RememberAll(Remember(h, last), [t.id]) == Remember(Remember(h, last), t.id);
  }

  function HandleAutoplay(w: World, cfg: Config, chat: int, s: Session, last: string): (r: Session)
    decreases Room(cfg, s.chat), Weight(Base(s.chat).queue), 1
    ensures s.log <= r.log
  {
    var history := Base(s.chat).history;
    if |history| >= cfg.limit then Stop(w, cfg, chat, Note(s.(chat := ClearAutoplayHistory(s.chat)), Forgot))
    else
      var pick := Pick(w, s.tick, last, history);
      if pick.None? then Stop(w, cfg, chat, s.(tick := s.tick + 1))
      else
        AutoplaySessionShrinks(cfg, s, last, pick.value);
        PlayTrack(w, cfg, chat, AutoplaySession(s, last, pick.value), |Base(s.chat).queue|)
  }

  /** What is left of the session after a stream has been attempted: any failed attempt clears the chat. */
  function StreamSession(w: World, cfg: Config, chat: int, s: Session, path: string): (r: Session)
    ensures s.log + [Streamed(path)] <= r.log
  {
    var p := Rotation.PlayMedia(w, cfg.accounts, chat, s.store, s.tick);
    var s' := Note(s.(store := p.store, tick := p.tick), Streamed(path));
    if chat <= 0 && Rotation.AnyFailed(p.tries) then Note(s'.(chat := None), Forgot)
    else s'
  }

  predicate HasTrack(o: Option<Chat>, k: nat) {
    o.Some? && k < |o.value.queue| && o.value.queue[k].Some?
  }

  function Begin(s: Session, k: nat): Session
    requires HasTrack(s.chat, k)
  {
    Note(s.(tick := s.tick + 1), Tried(s.chat.value.queue[k].value, s.chat.value.queue))
  }

  /** prepareTrackDownload: a path that is known is kept, else one is fetched; did that fail? */
  function Fetch(w: World, s: Session, k: nat): (r: (Session, bool))
    requires HasTrack(s.chat, k)
    ensures r.0.log == s.log && r.0.store == s.store && HasTrack(r.0.chat, k)
    ensures var song, path := s.chat.value.queue[k].value, r.0.chat.value.queue[k].value.filePath;
            && r.0.chat == SetSlot(s.chat, k, song.(filePath := path))
            && path == (if song.filePath != "" then song.filePath else w.download(s.tick).0)
            && (r.1 <==> song.filePath == "" && w.download(s.tick).1)
    ensures Weight(r.0.chat.value.queue) == Weight(s.chat.value.queue)
  {
    var song := s.chat.value.queue[k].value;
    if song.filePath != "" then
      assert s.chat.value.queue[k := Some(song)] == s.chat.value.queue;
      (s, false)
    else
      var (path, failed) := w.download(s.tick);
      WeightAt(s.chat.value.queue, k, song.(filePath := path));
      (s.(chat := SetSlot(s.chat, k, song.(filePath := path)), tick := s.tick + 1), failed)
  }

  /** Plays the track at position `k` of the queue. */
  function PlayTrack(w: World, cfg: Config, chat: int, s: Session, k: nat): (r: Session)
    requires HasTrack(s.chat, k)
    decreases Room(cfg, s.chat), Weight(Base(s.chat).queue), 4
    ensures Begin(s, k).log <= r.log
  {
    var s1 := Begin(s, k);
    if !w.sends(s.tick) then s1 else
    var (s2, failed) := Fetch(w, s1, k);
    if failed then PlayNext(w, cfg, chat, s2)
    else StreamSession(w, cfg, chat, s2, s2.chat.value.queue[k].value.filePath)  // even when the path is still empty
  }

  // ----- bounds and frames -----

  function CountTried(log: seq<Ev>): nat {
    if log == [] then 0 else (if log[|log| - 1].Tried? then 1 else 0) + CountTried(log[..|log| - 1])
  }

  lemma TriedSnoc(log: seq<Ev>, e: Ev)
    ensures CountTried(log + [e]) == CountTried(log) + if e.Tried? then 1 else 0
  {
    assert (log + [e])[..|log|] == log;
  }

  /** The most tracks that one PlayNext can go through before it streams, stops or gives up. */
  function Budget(cfg: Config, o: Option<Chat>): nat {
    Weight(Base(o).queue) + Room(cfg, o) + if Base(o).queue == [] then 1 else 0
  }

  lemma StreamTriesNothing(w: World, cfg: Config, chat: int, s: Session, path: string)
    ensures CountTried(StreamSession(w, cfg, chat, s, path).log) == CountTried(s.log)
  {
    TriedSnoc(s.log, Streamed(path));
    TriedSnoc(s.log + [Streamed(path)], Forgot);
  }

  lemma StopTriesNothing(w: World, cfg: Config, chat: int, s: Session)
    ensures CountTried(Stop(w, cfg, chat, s).log) == CountTried(s.log)
  {
    TriedSnoc(s.log, Forgot);
  }

  lemma PopShrinks(cfg: Config, s: Session)
    ensures CountTried(PopSession(s).log) == CountTried(s.log)
    ensures Room(cfg, PopSession(s).chat) <= Room(cfg, s.chat)
    ensures var q := Base(s.chat).queue;
            Base(PopSession(s).chat).queue == if q == [] then q else q[1..]
  {
    if Playing(s.chat).Some? {
      TriedSnoc(s.log, Popped(Playing(s.chat).value.trackID));
    }
  }

  /** One call of PlayNext tries no more tracks than the queue's loops and the room in the history allow. */
  lemma {:induction false} PlayNextBounded(w: World, cfg: Config, chat: int, s: Session)
    ensures CountTried(PlayNext(w, cfg, chat, s).log) <= CountTried(s.log) + Budget(cfg, s.chat)
    decreases Room(cfg, s.chat), Weight(Base(s.chat).queue), 3
  {
    var loop := LoopCount(s.chat);
    if loop > 0 {
      var s' := s.(chat := SetLoopCount(s.chat, loop - 1));
      assert s'.chat.value.queue[1..] == s.chat.value.queue[1..];
      PlayTrackBounded(w, cfg, chat, s', 0);
    } else {
      PopShrinks(cfg, s);
      ContinueBounded(w, cfg, chat, PopSession(s));
    }
  }

  lemma {:induction false} ContinueBounded(w: World, cfg: Config, chat: int, s: Session)
    ensures CountTried(Continue(w, cfg, chat, s).log)
         <= CountTried(s.log) + Weight(Base(s.chat).queue) + 1 + Room(cfg, s.chat)
    decreases Room(cfg, s.chat), Weight(Base(s.chat).queue), if Playing(s.chat).Some? then 5 else 2
  {
    if Playing(s.chat).Some? {
      PlayTrackBounded(w, cfg, chat, s, 0);
    } else if LastHistory(s.chat) != "" && Base(s.chat).autoplay {
      AutoplayBounded(w, cfg, chat, s, LastHistory(s.chat));
    } else {
      StopTriesNothing(w, cfg, chat, s);
    }
  }

  lemma {:induction false} AutoplayBounded(w: World, cfg: Config, chat: int, s: Session, last: string)
    ensures CountTried(HandleAutoplay(w, cfg, chat, s, last).log)
         <= CountTried(s.log) + Weight(Base(s.chat).queue) + 1 + Room(cfg, s.chat)
    decreases Room(cfg, s.chat), Weight(Base(s.chat).queue), 1
  {
    var history := Base(s.chat).history;
    if |history| >= cfg.limit {
      TriedSnoc(s.log, Forgot);
      StopTriesNothing(w, cfg, chat, Note(s.(chat := ClearAutoplayHistory(s.chat)), Forgot));
    } else {
      var pick := Pick(w, s.tick, last, history);
      if pick.None? {
        StopTriesNothing(w, cfg, chat, s.(tick := s.tick + 1));
      } else {
        AutoplaySessionShrinks(cfg, s, last, pick.value);
        var s' := AutoplaySession(s, last, pick.value);
        TriedSnoc(s.log, Picked(pick.value.id));
        WeightSplit(Base(s.chat).queue, [Some(AutoplayTrack(pick.value))]);
        PlayTrackBounded(w, cfg, chat, s', |Base(s.chat).queue|);
      }
    }
  }

  lemma {:induction false} PlayTrackBounded(w: World, cfg: Config, chat: int, s: Session, k: nat)
    requires HasTrack(s.chat, k)
    ensures CountTried(PlayTrack(w, cfg, chat, s, k).log)
         <= CountTried(s.log) + 1 + Weight(s.chat.value.queue) + Room(cfg, s.chat)
    decreases Room(cfg, s.chat), Weight(Base(s.chat).queue), 4
  {
    TriedSnoc(s.log, Tried(s.chat.value.queue[k].value, s.chat.value.queue));
    if w.sends(s.tick) {
      var (s2, failed) := Fetch(w, Begin(s, k), k);
      if failed {
        PlayNextBounded(w, cfg, chat, s2);
      } else {
        StreamTriesNothing(w, cfg, chat, s2, s2.chat.value.queue[k].value.filePath);
      }
    }
  }

  // ----- what a stream leaves, and what it is given -----

  /**
   "A chat that streams has a queue" fails after a retry: every failed attempt has cleared the chat.  A cached chat
   survives a stream, started or not, exactly when it is no group chat or nothing is attempted or the first attempt
   succeeds.
   */
  lemma StreamKeepsChatExactlyWhen(w: World, cfg: Config, chat: int, s: Session, path: string)
    requires s.chat.Some?
    ensures var r := StreamSession(w, cfg, chat, s, path);
            && (r.chat.Some? <==> chat > 0 || cfg.accounts == 0 || w.attempt(s.tick + 1) == Ok)
            && (r.chat.Some? ==> r.chat == s.chat)
            && r.log == s.log + (if r.chat.Some? then [Streamed(path)] else [Streamed(path), Forgot])
            && (w.attempt(s.tick + 1) == Ok && chat <= 0 && cfg.accounts > 0 ==>
                  Rotation.PlayMedia(w, cfg.accounts, chat, s.store, s.tick).end.Started?)
  {
    var p := Rotation.PlayMedia(w, cfg.accounts, chat, s.store, s.tick);
    if chat <= 0 && cfg.accounts > 0 {
      FirstTry(w, cfg, chat, s);
      if w.attempt(s.tick + 1) == Ok {
        Rotation.RotationComplete(w, cfg.accounts, chat, s.store, s.tick);
      } else {
        assert p.tries[0].outcome != Ok;
      }
    }
  }

  lemma FirstTry(w: World, cfg: Config, chat: int, s: Session)
    requires chat <= 0 && cfg.accounts > 0
    ensures var p := Rotation.PlayMedia(w, cfg.accounts, chat, s.store, s.tick);
            p.tries != [] && p.tries[0].outcome == w.attempt(s.tick + 1) &&
            (p.tries[0].outcome == Ok ==> |p.tries| == 1)
  {
    Rotation.PlayMediaIsReference(w, cfg.accounts, chat, s.store, s.tick);
  }

  // A world in which everything succeeds, except that attempts answer `attempts` and downloads give `path`.
  function Plain(attempts: nat -> Outcome, path: string): World {
    World(_ => true, _ => (path, false), _ => None, _ => 0, attempts, _ => None, _ => 0)
  }

  /** One such stream: the first attempt fails, its retry starts, and the chat is gone. */
  lemma StartedWithoutChat(c: Chat, path: string)
    ensures var w := Plain(tick => if tick == 1 then RetryOnce else Ok, path);
            var s := Session(Some(c), Assistants.Store(map[], map[]), 0, []);
            && Rotation.PlayMedia(w, 1, -1, s.store, 0).end == Rotation.Started(0)
            && StreamSession(w, Config(1, 0), -1, s, path).chat.None?
  {
    var w := Plain(tick => if tick == 1 then RetryOnce else Ok, path);
    var s := Session(Some(c), Assistants.Store(map[], map[]), 0, []);
    assert w.attempt(1) == RetryOnce && w.attempt(2) == Ok;
    StreamKeepsChatExactlyWhen(w, Config(1, 0), -1, s, path);
  }

  /** What PlayNext logs first is never a stream. */
  lemma NextStreamsLater(w: World, cfg: Config, chat: int, s: Session) returns (e: Ev)
    ensures !e.Streamed? && s.log + [e] <= PlayNext(w, cfg, chat, s).log
  {
    var r := PlayNext(w, cfg, chat, s);
    if LoopCount(s.chat) > 0 {
      var s' := s.(chat := SetLoopCount(s.chat, LoopCount(s.chat) - 1));
      e := Tried(s'.chat.value.queue[0].value, s'.chat.value.queue);
    } else {
      var s' := PopSession(s);
      if |s'.log| > |s.log| {
        e := Popped(Playing(s.chat).value.trackID);
      } else if Playing(s'.chat).Some? {
        e := Tried(s'.chat.value.queue[0].value, s'.chat.value.queue);
      } else if LastHistory(s'.chat) != "" && Base(s'.chat).autoplay {
        e := AutoplayStreamsLater(w, cfg, chat, s', LastHistory(s'.chat));
      } else {
        e := Forgot;
      }
    }
  }

  lemma AutoplayStreamsLater(w: World, cfg: Config, chat: int, s: Session, last: string) returns (e: Ev)
    ensures !e.Streamed? && s.log + [e] <= HandleAutoplay(w, cfg, chat, s, last).log
  {
    var pick := Pick(w, s.tick, last, Base(s.chat).history);
    if |Base(s.chat).history| >= cfg.limit || pick.None? {
      e := Forgot;
    } else {
      AutoplaySessionShrinks(cfg, s, last, pick.value);
      e := Picked(pick.value.id);
    }
  }

  /**
   playTrack goes on to stream an empty path exactly when its message went out, the track had no path, and the
   download gave none without an error.
   */
  lemma StreamsEmptyPathExactlyWhen(w: World, cfg: Config, chat: int, s: Session, k: nat)
    requires HasTrack(s.chat, k)
    ensures Begin(s, k).log + [Streamed("")] <= PlayTrack(w, cfg, chat, s, k).log <==>
            w.sends(s.tick) && s.chat.value.queue[k].value.filePath == "" && w.download(s.tick + 1) == ("", false)
  {
    var s1, r := Begin(s, k), PlayTrack(w, cfg, chat, s, k);
    if w.sends(s.tick) {
      var (s2, failed) := Fetch(w, s1, k);
      if failed {
        var e := NextStreamsLater(w, cfg, chat, s2);
        NextEvent(s1.log, e, r.log);
      } else {
        NextEvent(s1.log, Streamed(s2.chat.value.queue[k].value.filePath), r.log);
      }
    }
  }

  /**
   What playTrack does, in its four cases: nothing more when its message does not go out; a track with a file is
   streamed from it; one without is downloaded, and streamed unless the download fails; a failed download is skipped.
   */
  lemma PlayTrackMeaning(w: World, cfg: Config, chat: int, s: Session, k: nat)
    requires HasTrack(s.chat, k)
    ensures var c, r := s.chat.value, PlayTrack(w, cfg, chat, s, k);
            var t := c.queue[k].value;
            var tried, (path, failed) := s.log + [Tried(t, c.queue)], w.download(s.tick + 1);
            var c' := c.(queue := c.queue[k := Some(t.(filePath := path))]);
            if !w.sends(s.tick) then r == Session(s.chat, s.store, s.tick + 1, tried)
            else if t.filePath != "" then tried + [Streamed(t.filePath)] <= r.log
            else if !failed then tried + [Streamed(path)] <= r.log
            else r == PlayNext(w, cfg, chat, Session(Some(c'), s.store, s.tick + 2, tried))
  {
  }

  lemma NextEvent(log: seq<Ev>, e: Ev, r: seq<Ev>)
    requires log + [e] <= r
    ensures forall e' :: log + [e'] <= r <==> e' == e
  {
    assert r[|log|] == (log + [e])[|log|] == e;
    forall e' | log + [e'] <= r
      ensures e' == e
    {
      assert (log + [e'])[|log|] == r[|log|];
    }
  }

  /** One such input. */
  lemma StreamsEmptyPath(t: Track)
    requires t.filePath == ""
    ensures var w := Plain(_ => Ok, "");
            var s := Session(Some(Chat([Some(t)], false, [])), Assistants.Store(map[], map[]), 0, []);
            Begin(s, 0).log + [Streamed("")] <= PlayTrack(w, Config(1, 0), -1, s, 0).log
  {
    var s := Session(Some(Chat([Some(t)], false, [])), Assistants.Store(map[], map[]), 0, []);
    StreamsEmptyPathExactlyWhen(Plain(_ => Ok, ""), Config(1, 0), -1, s, 0);
  }

  /** What PlayNext tries first: the current track again while it loops, else the one behind it. */
  lemma PlayNextTriesFirst(w: World, cfg: Config, chat: int, s: Session)
    ensures LoopCount(s.chat) > 0 ==>
              var t := Playing(s.chat).value.(loop := LoopCount(s.chat) - 1);
              s.log + [Tried(t, Base(s.chat).queue[0 := Some(t)])] <= PlayNext(w, cfg, chat, s).log
    ensures var q := Base(s.chat).queue;
            LoopCount(s.chat) <= 0 && |q| > 1 && q[1].Some? ==>
              PopSession(s).log + [Tried(q[1].value, q[1..])] <= PlayNext(w, cfg, chat, s).log
  {
  }

  // ----- when autoplay picks -----

  /** The history that the current song leaves behind when it is taken off the queue. */
  lemma HistoryAfterPopMeaning(h: seq<string>, t: Track)
    ensures HistoryAfterPop(h, None) == h
    ensures HistoryAfterPop(h, Some(t)) ==
            if t.platform == "youtube" && t.trackID != "" && t.trackID !in h then h + [t.trackID] else h
  {
  }

  /** The ids that the current song and autoplay have left, once that song is off the queue. */
  function NextHistory(s: Session): seq<string> {
    if Base(s.chat).queue == [] then Base(s.chat).history
    else HistoryAfterPop(Base(s.chat).history, Base(s.chat).queue[0])
  }

  /** Nothing is left to play: the current song does not loop and there is none behind it. */
  predicate RunsOut(o: Option<Chat>) {
    LoopCount(o) <= 0 && (|Base(o).queue| <= 1 || Base(o).queue[1].None?)
  }

  /** The raw mix has something new: an entry with an id that is neither the last one nor in the history. */
  ghost predicate HasNew(w: World, tick: nat, history: seq<string>) {
    w.mix(tick).Some? && exists m :: m in w.mix(tick).value && IsNew(m, history)
  }

  predicate IsNew(m: MixTrack, history: seq<string>) {
    history != [] && m.id != "" && m.id != history[|history| - 1] && m.id !in history
  }

  /** What a pick looks like in the log: the track is chosen, queued last and tried. */
  ghost predicate PicksAfter(log: seq<Ev>, rest: seq<Slot>, m: MixTrack, r: Session) {
    var t := Track(m.id, "Autoplay", "youtube", m.duration, 0, "");
    log + [Picked(m.id), Tried(t, rest + [Some(t)])] <= r.log
  }

  lemma PickExactlyWhen(w: World, tick: nat, last: string, history: seq<string>)
    ensures Pick(w, tick, last, history).Some? <==>
            w.mix(tick).Some? && exists m :: m in w.mix(tick).value && m.id != "" && m.id != last && m.id !in history
    ensures Pick(w, tick, last, history).Some? ==> Pick(w, tick, last, history).value in w.mix(tick).value
  {
    if w.mix(tick).Some? {
      var raw := w.mix(tick).value;
      var candidates := Candidates(BuildTrackList(raw), last, history);
      forall m: MixTrack
        ensures m in candidates <==> m in raw && m.id != "" && m.id != last && m.id !in history
      {
        CandidatesMeaning(raw, last, history, m);
      }
      if candidates != [] {
        assert candidates[0] in candidates;
        assert candidates[w.shuffle(tick) % |candidates|] in candidates;
      }
    }
  }

  /** The same world, but the shuffle of this consultation puts candidate `k` first. */
  function Shuffled(w: World, k: nat): (r: World)
    ensures r.mix == w.mix && forall tick :: r.shuffle(tick) == k
  {
    w.(shuffle := _ => k)
  }

  /** Every new entry of the mix is picked by some shuffle. */
  lemma AnyNewCanBePicked(w: World, tick: nat, last: string, history: seq<string>, m: MixTrack) returns (k: nat)
    requires w.mix(tick).Some? && m in w.mix(tick).value && m.id != "" && m.id != last && m.id !in history
    ensures Pick(Shuffled(w, k), tick, last, history) == Some(m)
  {
    CandidatesMeaning(w.mix(tick).value, last, history, m);
    var candidates := Candidates(BuildTrackList(w.mix(tick).value), last, history);
    k :| k < |candidates| && candidates[k] == m;
    SmallModulo(k, |candidates|);
  }

  lemma SmallModulo(k: nat, n: nat)
    requires k < n
    ensures k % n == k
  {
  }

  /** HandleAutoplay picks if there is room and something new, and otherwise ends the chat. */
  lemma AutoplayPicks(w: World, cfg: Config, chat: int, s: Session, last: string)
    ensures var r := HandleAutoplay(w, cfg, chat, s, last);
            var pick := Pick(w, s.tick, last, Base(s.chat).history);
            if |Base(s.chat).history| < cfg.limit && pick.Some?
            then PicksAfter(s.log, Base(s.chat).queue, pick.value, r)
            else
              && r.chat == None
              && r.log == s.log + if |Base(s.chat).history| < cfg.limit then [Forgot] else [Forgot, Forgot]
  {
    var pick := Pick(w, s.tick, last, Base(s.chat).history);
    if |Base(s.chat).history| < cfg.limit && pick.Some? {
      AutoplaySessionShrinks(cfg, s, last, pick.value);
      var t, q := AutoplayTrack(pick.value), Base(s.chat).queue;
      var s' := AutoplaySession(s, last, pick.value);
      assert s'.chat.value.queue[|q|] == Some(t);
      assert s.log + [Picked(t.trackID), Tried(t, q + [Some(t)])] == Begin(s', |q|).log;
    }
  }

  /** Stopping drops the chat, but looks up its account, which may assign one. */
  lemma StopMeaning(w: World, cfg: Config, chat: int, s: Session)
    requires Assistants.Coherent(s.store)
    ensures var r, docs := Stop(w, cfg, chat, s), s.store.docs;
            && r.chat == None && r.log == s.log + [Forgot] && Assistants.Coherent(r.store)
            && (forall c :: c != chat ==> Assistants.Stored(r.store, c) == Assistants.Stored(s.store, c))
            && (cfg.accounts > 0 && Rotation.Open(docs, chat) ==> 0 <= Assistants.Stored(r.store, chat) < cfg.accounts)
            && (cfg.accounts == 0 || !Rotation.Open(docs, chat) ==> r.store.docs == docs)
  {
    Assistants.GetAccountKeepsCoherent(s.store, cfg.accounts, chat, w.draw(s.tick), w.now(s.tick));
    if cfg.accounts > 0 {
      Assistants.AccountChoice(s.store, cfg.accounts, chat, w.draw(s.tick), w.now(s.tick));
    }
  }

  /** The log of the session once the current song has been taken off. */
  function PoppedLog(s: Session): seq<Ev> {
    var q := Base(s.chat).queue;
    if q != [] && q[0].Some? && q[0].value.platform == "youtube" && q[0].value.trackID != ""
    then s.log + [Popped(q[0].value.trackID)] else s.log
  }

  lemma PopSessionIs(s: Session)
    ensures var r, q := PopSession(s), Base(s.chat).queue;
            && r.log == PoppedLog(s) && r.store == s.store && r.tick == s.tick
            && Base(r.chat) == Chat(if q == [] then q else q[1..], Base(s.chat).autoplay, NextHistory(s))
            && (s.chat.Some? <==> r.chat.Some?)
  {
  }

  /** Does autoplay take over from the current song? */
  ghost predicate TakesOver(w: World, cfg: Config, s: Session) {
    var h := NextHistory(s);
    && RunsOut(s.chat) && Base(s.chat).autoplay
    && h != [] && h[|h| - 1] != "" && |h| < cfg.limit && HasNew(w, s.tick, h)
  }

  /** Behind the current song, PlayNext picks this entry. */
  ghost predicate Takes(w: World, cfg: Config, chat: int, s: Session, m: MixTrack) {
    var q := Base(s.chat).queue;
    && w.mix(s.tick).Some? && m in w.mix(s.tick).value && IsNew(m, NextHistory(s))
    && PicksAfter(PoppedLog(s), if q == [] then q else q[1..], m, PlayNext(w, cfg, chat, s))
  }

  lemma RunOutPicks(w: World, cfg: Config, chat: int, s: Session)
    requires RunsOut(s.chat)
    ensures var r := PlayNext(w, cfg, chat, s);
            if TakesOver(w, cfg, s) then exists m :: Takes(w, cfg, chat, s, m)
            else r.chat == None && PoppedLog(s) + [Forgot] <= r.log
  {
    PopSessionIs(s);
    var s', h := PopSession(s), NextHistory(s);
    if Base(s'.chat).autoplay && LastHistory(s'.chat) != "" {
      AutoplayPicks(w, cfg, chat, s', LastHistory(s'.chat));
      PickExactlyWhen(w, s.tick, LastHistory(s'.chat), h);
      var pick := Pick(w, s.tick, LastHistory(s'.chat), h);
      if |h| < cfg.limit && pick.Some? {
        assert Takes(w, cfg, chat, s, pick.value);
      }
    }
  }

  /**
   What PlayNext does behind the current song is a pick of something new exactly when nothing is left to play, autoplay
   is on, a track id is remembered, the history is below the limit and the mix has something new.  If nothing is left
   to play and it does not pick, the chat ends.
   */
  lemma PicksExactlyWhen(w: World, cfg: Config, chat: int, s: Session)
    ensures (exists m :: Takes(w, cfg, chat, s, m)) <==> TakesOver(w, cfg, s)
    ensures RunsOut(s.chat) && !TakesOver(w, cfg, s) ==> PlayNext(w, cfg, chat, s).chat == None
  {
    if RunsOut(s.chat) {
      RunOutPicks(w, cfg, chat, s);
      if !TakesOver(w, cfg, s) {
        NoPick(PoppedLog(s), Forgot, PlayNext(w, cfg, chat, s));
      }
    } else {
      PlaysOn(w, cfg, chat, s);
    }
  }

  lemma NoPick(log: seq<Ev>, e: Ev, r: Session)
    requires log + [e] <= r.log && !e.Picked?
    ensures forall rest, m :: !PicksAfter(log, rest, m, r)
  {
    NextEvent(log, e, r.log);
    forall rest, m
      ensures PicksAfter(log, rest, m, r) ==> log + [Picked(m.id)] <= r.log
    {
      var t := Track(m.id, "Autoplay", "youtube", m.duration, 0, "");
      assert log + [Picked(m.id), Tried(t, rest + [Some(t)])] == log + [Picked(m.id)] + [Tried(t, rest + [Some(t)])];
    }
  }

  /** As long as something is left to play, it is played. */
  lemma PlaysOn(w: World, cfg: Config, chat: int, s: Session)
    requires !RunsOut(s.chat)
    ensures forall m :: !Takes(w, cfg, chat, s, m)
  {
    var r, q := PlayNext(w, cfg, chat, s), Base(s.chat).queue;
    PopSessionIs(s);
    PlayNextTriesFirst(w, cfg, chat, s);
    if LoopCount(s.chat) > 0 {
      var t := q[0].value.(loop := LoopCount(s.chat) - 1);
      NextEvent(s.log, Tried(t, q[0 := Some(t)]), r.log);
      if PoppedLog(s) == s.log {
        NoPick(s.log, Tried(t, q[0 := Some(t)]), r);
      } else {
        NotPopped(s.log, Popped(q[0].value.trackID), r);
      }
    } else {
      NoPick(PoppedLog(s), Tried(q[1].value, q[1..]), r);
    }
  }

  lemma NotPopped(log: seq<Ev>, e: Ev, r: Session)
    requires !(log + [e] <= r.log)
    ensures forall rest, m :: !PicksAfter(log + [e], rest, m, r)
  {
  }
}
