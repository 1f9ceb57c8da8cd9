/**
 The driver of one chat as the program runs it, step by step, over the shared music cache and the assistant store.
 Each method is tied to the value-level operation of `Rotation`, `Playback` or `Batches` on its chat, and leaves
 every other chat in the cache as it was.
 */
module TelegramCalls {
  import opened Wrappers
  import opened World
  import opened Playback
  import opened Chats
  import A = Assistants
  import R = Rotation
  import B = Batches
  import AssistantDb
  import ChatCacher

  class TelegramCalls {
    const chatID: int
    const db: AssistantDb.AssistantDb
    const cache: ChatCacher.ChatCacher  // the chats of everyone
    const world: World
    const cfg: Config
    var tick: nat
    ghost var log: seq<Ev>

    ghost predicate Valid()
      reads this, cache, cache.Repr
    {
      && db.Valid() && cache.Valid()
      && this !in cache.Repr && db !in cache.Repr && db.cache !in cache.Repr
    }

    ghost function Mine(): Option<Chat>
      reads cache
    {
      At(cache.view, chatID)
    }

    ghost function View(): Session
      reads this, db, db.cache, cache
    {
      Session(Mine(), db.View(), tick, log)
    }

    constructor (chatID: int, db: AssistantDb.AssistantDb, cache: ChatCacher.ChatCacher, world: World, cfg: Config)
      requires db.Valid() && cache.Valid() && db !in cache.Repr && db.cache !in cache.Repr
      ensures Valid() && this.chatID == chatID && this.db == db && this.cache == cache
      ensures tick == 0 && log == []
    {
      this.chatID, this.db, this.cache, this.world, this.cfg := chatID, db, cache, world, cfg;
      tick, log := 0, [];
    }

    // ----- accounts and rotation -----

    method GetAccount() returns (account: Option<nat>)
      requires Valid()
      modifies this`tick, db, db.cache
      ensures Valid() && tick == old(tick) + 1
      ensures (account, db.View()) ==
              A.GetAccount(old(db.View()), cfg.accounts, chatID, world.draw(old(tick)), world.now(old(tick)))
    {
      var now, draw := world.now(tick), world.draw(tick);
      tick := tick + 1;
      if cfg.accounts == 0 {
        return None;
      }
      var current := db.GetAssistant(chatID, now);
      if 0 <= current < cfg.accounts {
        return Some(current);
      }
      if draw.None? {
        if current == -1 && chatID != 0 {
          var _ := db.AssignAssistant(chatID, 0, now);
        }
        return Some(0);
      }
      var n := draw.value % cfg.accounts;
      if chatID != 0 {
        var _ := db.AssignAssistant(chatID, n, now);
      }
      return Some(n);
    }

    /** One attempt with one account; an attempt in a group that fails has cleared the chat. */
    method PlayMediaWithAssistant() returns (o: Outcome)
      requires Valid()
      modifies this`tick, cache
      ensures Valid() && cache.Repr == old(cache.Repr)
      ensures o == R.Answer(world, chatID, old(tick)) && tick == old(tick) + 1
      ensures cache.view == if chatID <= 0 && o != Ok then Put(old(cache.view), chatID, None) else old(cache.view)
    {
      if chatID > 0 {
        tick := tick + 1;
        return Unknown;
      }
      o := world.attempt(tick);
      tick := tick + 1;
      if o != Ok {
        cache.ClearChat(chatID);
      }
    }

    method NextUntried(tried: set<nat>) returns (i: Option<nat>)
      ensures i == R.NextUntried(cfg.accounts, tried, 0)
    {
      var k := 0;
      while k < cfg.accounts
        invariant 0 <= k <= cfg.accounts
        invariant R.NextUntried(cfg.accounts, tried, 0) == R.NextUntried(cfg.accounts, tried, k)
      {
        if k !in tried {
          return Some(k);
        }
        k := k + 1;
      }
      return None;
    }

    /** An account's attempts: a second one if the first calls for it. */
    method TryAccount(i: nat) returns (o: Outcome, now: int, retried: bool, ghost tries: seq<R.Try>)
      requires Valid()
      modifies this`tick, cache
      ensures Valid() && cache.Repr == old(cache.Repr)
      ensures tries == R.Attempts(world, chatID, i, old(tick)) && o == tries[|tries| - 1].outcome
      ensures retried == (|tries| == 2) && tick == old(tick) + |tries| && now == world.now(tick - 1)
      ensures cache.view == Left(old(cache.view), tries)
    {
      PutPut(cache.view, chatID, None, None);
      now := world.now(tick);
      o := PlayMediaWithAssistant();
      tries, retried := [R.Try(i, o)], o == RetryOnce;
      if retried {
        now := world.now(tick);
        o := PlayMediaWithAssistant();
        tries := [R.Try(i, RetryOnce), R.Try(i, o)];
        assert tries[0].outcome != Ok;
      }
      assert tries[0].outcome == R.Answer(world, chatID, old(tick));
    }

    /** What attempts leave of the cache: the chat is gone if any of them failed in a group. */
    ghost function Left(before: map<int, Chat>, tries: seq<R.Try>): map<int, Chat> {
      if chatID <= 0 && R.AnyFailed(tries) then Put(before, chatID, None) else before
    }

    /** One turn of the rotation: the end, unless the account's last answer was to rotate. */
    method RotateOnce(i: nat, ghost tried: set<nat>, ghost soFar: seq<R.Try>)
      returns (end: Option<R.End>, ghost tries: seq<R.Try>)
      requires Valid() && (chatID <= 0 ==> Mine().None?) && R.NextUntried(cfg.accounts, tried, 0) == Some(i)
      modifies this`tick, cache, db, db.cache
      ensures Valid() && cache.Repr == old(cache.Repr) && cache.view == old(cache.view) && soFar <= tries
      ensures R.RotateAndPlay(world, cfg.accounts, chatID, old(db.View()), old(tick), tried, soFar) ==
              if end.Some? then R.Played(end.value, tries, db.View(), tick)
              else R.RotateAndPlay(world, cfg.accounts, chatID, db.View(), tick, tried + {i}, tries)
    {
      PutAt(cache.view, chatID);
      R.OneTurn(world, cfg.accounts, chatID, db.View(), tick, tried, soFar, i);
      var o, now, _, more := TryAccount(i);
      tries := soFar + more;
      if o == Ok {
        db.SetAssistant(chatID, i, now);
        return Some(R.Started(i)), tries;
      }
      if o != Rotate {
        return Some(R.Failed(o)), tries;
      }
      db.RemoveAssistant(chatID);
      end := None;
    }

    method RotateAndPlay(first: nat, ghost soFar: seq<R.Try>) returns (end: R.End, ghost tries: seq<R.Try>)
      requires Valid() && (chatID <= 0 ==> Mine().None?)
      modifies this`tick, cache, db, db.cache
      ensures Valid() && cache.Repr == old(cache.Repr) && cache.view == old(cache.view) && soFar <= tries
      ensures R.Played(end, tries, db.View(), tick) ==
              R.RotateAndPlay(world, cfg.accounts, chatID, old(db.View()), old(tick), {first}, soFar)
    {
      var tried := {first};
      tries := soFar;
      ghost var target := R.RotateAndPlay(world, cfg.accounts, chatID, db.View(), tick, tried, soFar);
      while true
        invariant Valid() && cache.Repr == old(cache.Repr) && cache.view == old(cache.view) && soFar <= tries
        invariant R.RotateAndPlay(world, cfg.accounts, chatID, db.View(), tick, tried, tries) == target
        decreases |R.Untried(cfg.accounts, tried)|
      {
        var next := NextUntried(tried);
        if next.None? {
          return R.Exhausted, tries;
        }
        R.OneFewer(cfg.accounts, tried, next.value);
        var ended;
        ended, tries := RotateOnce(next.value, tried, tries);
        tried := tried + {next.value};
        if ended.Some? {
          return ended.value, tries;
        }
      }
    }

    method PlayMedia() returns (end: R.End, ghost tries: seq<R.Try>)
      requires Valid()
      modifies this`tick, cache, db, db.cache
      ensures Valid() && cache.Repr == old(cache.Repr)
      ensures R.Played(end, tries, db.View(), tick) ==
              R.PlayMedia(world, cfg.accounts, chatID, old(db.View()), old(tick))
      ensures cache.view == Left(old(cache.view), tries)
    {
      var account := GetAccount();
      if account.None? {
        return R.NoAccount, [];
      }
      end, tries := PlayFirst(account.value);
    }

    /** PlayMedia once the assigned account is known. */
    method PlayFirst(i: nat) returns (end: R.End, ghost tries: seq<R.Try>)
      requires Valid()
      modifies this`tick, cache, db, db.cache
      ensures Valid() && cache.Repr == old(cache.Repr)
      ensures R.Played(end, tries, db.View(), tick) ==
              R.PlayFirst(world, cfg.accounts, chatID, old(db.View()), old(tick), i)
      ensures cache.view == Left(old(cache.view), tries)
    {
      PutPut(cache.view, chatID, None, None);
      var o, now, retried;
      o, now, retried, tries := TryAccount(i);
      if o == Ok {
        db.SetAssistant(chatID, i, now);
        return R.Started(i), tries;
      }
      if o != Rotate {
        return if o == Fatal && !retried then R.FatalMessage else R.Failed(o), tries;
      }
      db.RemoveAssistant(chatID);
      ghost var head := tries[0];
      assert R.AnyFailed(tries);
      end, tries := RotateAndPlay(i, tries);
      assert tries[0] == head;
    }

    // ----- the driver -----

    method Stop()
      requires Valid()
      modifies this, db, db.cache, cache, cache.Repr
      ensures Valid() && fresh(cache.Repr - old(cache.Repr))
      ensures View() == Playback.Stop(world, cfg, chatID, old(View()))
      ensures cache.view == Put(old(cache.view), chatID, View().chat)
    {
      cache.SetAutoplay(chatID, false);
      cache.ClearChat(chatID);
      PutPut(old(cache.view), chatID, SetAutoplay(old(Mine()), false), None);
      log := log + [Forgot];
      var _ := GetAccount();
    }

    /** RemoveCurrentSong, noted in the log. */
    method Pop()
      requires Valid()
      modifies this`log, cache, cache.Repr
      ensures Valid() && fresh(cache.Repr - old(cache.Repr))
      ensures View() == PopSession(old(View()))
      ensures cache.view == Put(old(cache.view), chatID, View().chat)
    {
      PutPut(cache.view, chatID, RemoveCurrentSong(Mine()), None);
      var removed := cache.RemoveCurrentSong(chatID);
      if removed.Some? && removed.value.platform == YOUTUBE && removed.value.trackID != "" {
        log := log + [Popped(removed.value.trackID)];
      }
    }

    /** Does the current track play again?  If so, one repetition is used up. */
    method TakeLoop() returns (again: bool)
      requires Valid()
      modifies cache, cache.Repr
      ensures Valid() && fresh(cache.Repr - old(cache.Repr))
      ensures again == (LoopCount(old(Mine())) > 0)
      ensures Mine() == if again then SetLoopCount(old(Mine()), LoopCount(old(Mine())) - 1) else old(Mine())
      ensures cache.view == Put(old(cache.view), chatID, Mine())
      ensures again ==> HasTrack(Mine(), 0)
    {
      PutAt(cache.view, chatID);
      var loop := cache.GetLoopCount(chatID);
      if loop <= 0 {
        return false;
      }
      PutPut(cache.view, chatID, SetLoopCount(Mine(), loop - 1), None);
      var _ := cache.SetLoopCount(chatID, loop - 1);
      var current := cache.GetPlayingTrack(chatID);
      again := current.Some?;
    }

    method PlayNext()
      requires Valid()
      modifies this, db, db.cache, cache, cache.Repr
      ensures Valid() && fresh(cache.Repr - old(cache.Repr))
      ensures View() == Playback.PlayNext(world, cfg, chatID, old(View()))
      ensures cache.view == Put(old(cache.view), chatID, View().chat)
      decreases Room(cfg, Mine()), Weight(Base(Mine()).queue), 3
    {
      ghost var before := cache.view;
      var again := TakeLoop();
      ghost var between := Mine();
      if again {
        PlayTrack(0);
      } else {
        Skip();
      }
      PutPut(before, chatID, between, Mine());
    }

    method Skip()
      requires Valid()
      modifies this, db, db.cache, cache, cache.Repr
      ensures Valid() && fresh(cache.Repr - old(cache.Repr))
      ensures View() == Playback.Continue(world, cfg, chatID, PopSession(old(View())))
      ensures cache.view == Put(old(cache.view), chatID, View().chat)
      decreases Room(cfg, Mine()), Weight(Base(Mine()).queue), 3, 0
    {
      ghost var before := cache.view;
      Pop();
      ghost var between := Mine();
      Continue();
      PutPut(before, chatID, between, Mine());
    }

    /** PlayNext once the current track has been taken off the queue. */
    method Continue()
      requires Valid()
      modifies this, db, db.cache, cache, cache.Repr
      ensures Valid() && fresh(cache.Repr - old(cache.Repr))
      ensures View() == Playback.Continue(world, cfg, chatID, old(View()))
      ensures cache.view == Put(old(cache.view), chatID, View().chat)
      decreases Room(cfg, Mine()), Weight(Base(Mine()).queue), if Playing(Mine()).Some? then 5 else 2
    {
      var next := cache.GetPlayingTrack(chatID);
      if next.Some? {
        PlayTrack(0);
        return;
      }
      var last := cache.GetLastAutoplayTrackID(chatID);
      var autoplay := cache.GetAutoplay(chatID);
      if last != "" && autoplay {
        HandleAutoplay(last);
      } else {
        Stop();
      }
    }

    method MixTracks(raw: seq<MixTrack>) returns (results: seq<MixTrack>)
      ensures results == BuildTrackList(raw)
    {
      results := [];
      for i := 0 to |raw|
        invariant results + BuildTrackList(raw[i..]) == BuildTrackList(raw)
      {
        assert raw[i..][1..] == raw[i + 1..];
        assert results + ([raw[i]] + BuildTrackList(raw[i + 1..])) == results + [raw[i]] + BuildTrackList(raw[i + 1..]);
        if raw[i].id != "" {
          results := results + [raw[i]];
        }
      }
    }

    method FilterCandidates(results: seq<MixTrack>, last: string, history: seq<string>)
      returns (candidates: seq<MixTrack>)
      ensures candidates == Candidates(results, last, history)
    {
      candidates := [];
      for i := 0 to |results|
        invariant candidates + Candidates(results[i..], last, history) == Candidates(results, last, history)
      {
        CandidatesFrom(results, i, last, history, candidates);
        if results[i].id == last || results[i].id in history {
          continue;
        }
        candidates := candidates + [results[i]];
      }
    }

    method ChooseTrack(last: string, history: seq<string>) returns (pick: Option<MixTrack>)
      ensures pick == Pick(world, tick, last, history)
    {
      var raw := world.mix(tick);
      if raw.None? {
        return None;
      }
      var results := MixTracks(raw.value);
      var candidates := FilterCandidates(results, last, history);
      if candidates == [] {
        return None;
      }
      return Some(candidates[world.shuffle(tick) % |candidates|]);
    }

    method HandleAutoplay(last: string)
      requires Valid()
      modifies this, db, db.cache, cache, cache.Repr
      ensures Valid() && fresh(cache.Repr - old(cache.Repr))
      ensures View() == Playback.HandleAutoplay(world, cfg, chatID, old(View()), last)
      ensures cache.view == Put(old(cache.view), chatID, View().chat)
      decreases Room(cfg, Mine()), Weight(Base(Mine()).queue), 1
    {
      var history := cache.GetAutoplayHistory(chatID);
      if |history| >= cfg.limit {
        EndAutoplay();
        return;
      }
      var pick := ChooseTrack(last, history);
      if pick.None? {
        tick := tick + 1;
        Stop();
        return;
      }
      PlayPick(last, pick.value);
    }

    method PlayPick(last: string, t: MixTrack)
      requires Valid() && |Base(Mine()).history| < cfg.limit
      requires t.id != "" && t.id != last && t.id !in Base(Mine()).history
      modifies this, db, db.cache, cache, cache.Repr
      ensures Valid() && fresh(cache.Repr - old(cache.Repr))
      ensures View() == Playback.PlayTrack(
                world, cfg, chatID, AutoplaySession(old(View()), last, t), |Base(old(Mine())).queue|)
      ensures cache.view == Put(old(cache.view), chatID, View().chat)
      decreases Room(cfg, Mine()), Weight(Base(Mine()).queue), 1, 0
    {
      ghost var before := cache.view;
      var position := QueuePick(last, t);
      ghost var between := Mine();
      PlayTrack(position);
      PutPut(before, chatID, between, Mine());
    }

    /** Autoplay has reached its limit: the history is cleared and playback stops. */
    method EndAutoplay()
      requires Valid()
      modifies this, db, db.cache, cache, cache.Repr
      ensures Valid() && fresh(cache.Repr - old(cache.Repr))
      ensures var s := old(View());
              View() == Playback.Stop(world, cfg, chatID, Note(s.(chat := ClearAutoplayHistory(s.chat)), Forgot))
      ensures cache.view == Put(old(cache.view), chatID, View().chat)
    {
      ghost var before := cache.view;
      cache.ClearAutoplayHistory(chatID);
      PutPut(before, chatID, ClearAutoplayHistory(At(before, chatID)), None);
      log := log + [Forgot];
      Stop();
      PutPut(before, chatID, ClearAutoplayHistory(At(before, chatID)), Mine());
    }

    /** The pick is remembered and queued; the result is its position. */
    method QueuePick(last: string, t: MixTrack) returns (position: nat)
      requires Valid() && |Base(Mine()).history| < cfg.limit
      requires t.id != "" && t.id != last && t.id !in Base(Mine()).history
      modifies this, cache, cache.Repr
      ensures Valid() && fresh(cache.Repr - old(cache.Repr))
      ensures View() == AutoplaySession(old(View()), last, t)
      ensures cache.view == Put(old(cache.view), chatID, View().chat)
      ensures position == |Base(old(Mine())).queue|
      ensures HasTrack(Mine(), position) && Room(cfg, Mine()) < Room(cfg, old(Mine()))
    {
      ghost var s := View();
      AutoplaySessionShrinks(cfg, s, last, t);
      position := AddPick(last, t);
      tick := tick + 1;
      log := log + [Picked(t.id)];
      assert Mine() == AutoplaySession(s, last, t).chat;
    }

    method AddPick(last: string, t: MixTrack) returns (position: nat)
      requires Valid()
      modifies cache, cache.Repr
      ensures Valid() && fresh(cache.Repr - old(cache.Repr))
      ensures Mine() == AddSong(AddAutoplayHistory(old(Mine()), [last, t.id]), Some(AutoplayTrack(t)))
      ensures position == |Base(old(Mine())).queue|
      ensures cache.view == Put(old(cache.view), chatID, Mine())
    {
      ghost var before := cache.view;
      ghost var remembered := AddAutoplayHistory(Mine(), [last, t.id]);
      PutPut(before, chatID, remembered, AddSong(remembered, Some(AutoplayTrack(t))));
      PutPut(before, chatID, AddSong(remembered, Some(AutoplayTrack(t))), None);
      position := cache.GetQueueLength(chatID);
      cache.AddAutoplayHistory(chatID, [last, t.id]);
      var _ := cache.AddSong(chatID, Some(AutoplayTrack(t)));
    }

    /** prepareTrackDownload for the track at position `k`; the path is that of the track afterwards. */
    method PrepareTrackDownload(k: nat) returns (failed: bool, path: string)
      requires Valid() && HasTrack(Mine(), k)
      modifies this`tick, cache, cache.Repr
      ensures Valid() && fresh(cache.Repr - old(cache.Repr))
      ensures (View(), failed) == Fetch(world, old(View()), k)
      ensures cache.view == Put(old(cache.view), chatID, View().chat)
      ensures path == View().chat.value.queue[k].value.filePath
    {
      PutAt(cache.view, chatID);
      var song := cache.ReadTrack(chatID, k);
      if song.value.filePath != "" {
        return false, song.value.filePath;
      }
      var (dlPath, err) := world.download(tick);
      tick := tick + 1;
      PutPut(cache.view, chatID, SetSlot(Mine(), k, song.value.(filePath := dlPath)), None);
      cache.WriteTrack(chatID, k, song.value.(filePath := dlPath));
      return err, dlPath;
    }

    method Announce(k: nat) returns (sent: bool)
      requires Valid() && HasTrack(Mine(), k)
      modifies this`tick, this`log
      ensures View() == Begin(old(View()), k) && sent == world.sends(old(tick))
    {
      sent := world.sends(tick);
      tick := tick + 1;
      log := log + [Tried(cache.view[chatID].queue[k].value, cache.view[chatID].queue)];
    }

    method Stream(path: string) returns (end: R.End)
      requires Valid()
      modifies this, db, db.cache, cache
      ensures Valid() && cache.Repr == old(cache.Repr)
      ensures View() == StreamSession(world, cfg, chatID, old(View()), path)
      ensures end == R.PlayMedia(world, cfg.accounts, chatID, old(db.View()), old(tick)).end
      ensures cache.view == Put(old(cache.view), chatID, View().chat)
    {
      PutAt(cache.view, chatID);
      PutPut(cache.view, chatID, None, None);
      log := log + [Streamed(path)];
      ghost var tries;
      end, tries := PlayMedia();
      if chatID <= 0 && R.AnyFailed(tries) {
        log := log + [Forgot];
      }
    }

    /** Plays the track at position `k`; the position stands for the pointer to it. */
    method PlayTrack(k: nat)
      requires Valid() && HasTrack(Mine(), k)
      modifies this, db, db.cache, cache, cache.Repr
      ensures Valid() && fresh(cache.Repr - old(cache.Repr))
      ensures View() == Playback.PlayTrack(world, cfg, chatID, old(View()), k)
      ensures cache.view == Put(old(cache.view), chatID, View().chat)
      decreases Room(cfg, Mine()), Weight(Base(Mine()).queue), 4
    {
      PutAt(cache.view, chatID);
      var sent := Announce(k);
      if sent {
        Deliver(k);
      }
    }

    /** PlayTrack once its message is out: a failed download skips to the next track. */
    method Deliver(k: nat)
      requires Valid() && HasTrack(Mine(), k)
      modifies this, db, db.cache, cache, cache.Repr
      ensures Valid() && fresh(cache.Repr - old(cache.Repr))
      ensures var (s, failed) := Fetch(world, old(View()), k);
              View() == if failed then Playback.PlayNext(world, cfg, chatID, s)
                        else StreamSession(world, cfg, chatID, s, s.chat.value.queue[k].value.filePath)
      ensures cache.view == Put(old(cache.view), chatID, View().chat)
      decreases Room(cfg, Mine()), Weight(Base(Mine()).queue), 4, 0
    {
      ghost var before := cache.view;
      var failed, path := PrepareTrackDownload(k);
      ghost var between := Mine();
      if failed {
        PlayNext();
      } else {
        var _ := Stream(path);
      }
      PutPut(before, chatID, between, Mine());
    }

    // ----- commands that fill the queue -----

    method EnqueueTrack(t: Track, force: bool) returns (waits: bool)
      requires Valid()
      modifies this, db, db.cache, cache, cache.Repr
      ensures Valid() && fresh(cache.Repr - old(cache.Repr))
      ensures (View(), waits) == B.EnqueueTrack(world, cfg, chatID, old(View()), t, force)
      ensures cache.view == Put(old(cache.view), chatID, View().chat)
    {
      ghost var before := cache.view;
      var length;
      if force {
        length := cache.AddSongToFront(chatID, Some(t));
        PutPut(before, chatID, AddSongToFront(At(before, chatID), Some(t)), None);
      } else {
        length := cache.AddSong(chatID, Some(t));
        PutPut(before, chatID, AddSong(At(before, chatID), Some(t)), None);
        if t.user != AUTOPLAY_USER {
          log := log + [Forgot];
        }
      }
      waits := length > 1;
      if waits && force {
        ghost var between := Mine();
        PlayNext();
        PutPut(before, chatID, between, Mine());
      }
    }

    /** A track that needs not wait is fetched and streamed at once; whatever fails takes the head off the queue. */
    method HandleSingleTrack(song: B.UrlTrack, filePath: string, user: string, maxDuration: int, force: bool)
      requires Valid()
      modifies this, db, db.cache, cache, cache.Repr
      ensures Valid() && fresh(cache.Repr - old(cache.Repr))
      ensures View() == if song.duration > maxDuration then old(View()) else
                B.PlaySingle(world, cfg, chatID, old(View()), B.NewTrack(song, user).(filePath := filePath), force)
      ensures cache.view == Put(old(cache.view), chatID, View().chat)
    {
      ghost var before := cache.view;
      PutAt(before, chatID);
      if song.duration > maxDuration {
        return;
      }
      var t := B.NewTrack(song, user).(filePath := filePath);
      var waits := EnqueueTrack(t, force);
      if waits {
        return;
      }
      ghost var between := Mine();
      StartSingle(t);
      PutPut(before, chatID, between, Mine());
    }

    method StartSingle(t: Track)
      requires Valid()
      modifies this, db, db.cache, cache, cache.Repr
      ensures Valid() && fresh(cache.Repr - old(cache.Repr))
      ensures View() == B.StartSingle(world, cfg, chatID, old(View()), t)
      ensures cache.view == Put(old(cache.view), chatID, View().chat)
    {
      ghost var before := cache.view;
      var path, failed := FetchSingle(t);
      ghost var between := Mine();
      if failed {
        Pop();
      } else {
        StreamSingle(path);
      }
      PutPut(before, chatID, between, Mine());
    }

    method FetchSingle(t: Track) returns (path: string, failed: bool)
      requires Valid()
      modifies this`tick, cache, cache.Repr
      ensures Valid() && fresh(cache.Repr - old(cache.Repr))
      ensures (View(), path, failed) == B.FetchSingle(world, old(View()), t)
      ensures cache.view == Put(old(cache.view), chatID, View().chat)
    {
      PutAt(cache.view, chatID);
      if t.filePath != "" {
        return t.filePath, false;
      }
      var (dlPath, err) := world.download(tick);
      tick := tick + 1;
      path, failed := dlPath, err;
      if !err {
        PutPut(cache.view, chatID, SetSlot(Mine(), 0, t.(filePath := path)), None);
        cache.WriteTrack(chatID, 0, t.(filePath := path));
      }
    }

    method StreamSingle(path: string)
      requires Valid()
      modifies this, db, db.cache, cache, cache.Repr
      ensures Valid() && fresh(cache.Repr - old(cache.Repr))
      ensures View() == B.StreamSingle(world, cfg, chatID, old(View()), path)
      ensures cache.view == Put(old(cache.view), chatID, View().chat)
    {
      ghost var before := cache.view;
      var end := Stream(path);
      ghost var between := Mine();
      if !end.Started? {
        Pop();
        PutPut(before, chatID, between, Mine());
      }
    }

    method AcceptTracks(tracks: seq<B.UrlTrack>, user: string, maxDuration: int) returns (toAdd: seq<Track>)
      ensures toAdd == B.Accepted(tracks, user, maxDuration)
    {
      toAdd := [];
      for i := 0 to |tracks|
        invariant toAdd + B.Accepted(tracks[i..], user, maxDuration) == B.Accepted(tracks, user, maxDuration)
      {
        ghost var rest := B.Accepted(tracks[i + 1..], user, maxDuration);
        assert tracks[i..][1..] == tracks[i + 1..];
        if tracks[i].duration > maxDuration {
          continue;
        }
        var t := B.NewTrack(tracks[i], user);
        assert toAdd + ([t] + rest) == toAdd + [t] + rest;
        toAdd := toAdd + [t];
      }
    }

    /** The whole batch behind the current track: its last track is inserted first. */
    method AddAllToFront(batch: seq<Track>) returns (length: nat)
      requires Valid() && batch != []
      modifies cache, cache.Repr
      ensures Valid() && fresh(cache.Repr - old(cache.Repr))
      ensures cache.view == Put(old(cache.view), chatID, B.AddBatch(old(Mine()), batch, true))
      ensures length == |Base(Mine()).queue|
    {
      ghost var before, start := cache.view, Mine();
      length := 0;
      PutAt(before, chatID);
      var i := |batch|;
      while i > 0
        invariant 0 <= i <= |batch|
        invariant Valid() && fresh(cache.Repr - old(cache.Repr))
        invariant i < |batch| ==> Mine().Some? && length == |Base(Mine()).queue|
        invariant i == |batch| ==> Mine() == start
        invariant Base(Mine()) == Base(start).(queue := Base(Mine()).queue)
        invariant cache.view == Put(before, chatID, Mine())
        invariant B.InsertAll(Base(Mine()).queue, batch[..i]) == B.InsertAll(Base(start).queue, batch[..|batch|])
      {
        i := i - 1;
        assert batch[..i + 1][..i] == batch[..i];
        ghost var between := Mine();
        length := cache.AddSongToFront(chatID, Some(batch[i]));
        PutPut(before, chatID, between, AddSongToFront(between, Some(batch[i])));
        PutPut(before, chatID, AddSongToFront(between, Some(batch[i])), None);
      }
      assert batch[..|batch|] == batch;
    }

    method QueueBatch(batch: seq<Track>, force: bool) returns (length: nat)
      requires Valid() && batch != []
      modifies cache, cache.Repr
      ensures Valid() && fresh(cache.Repr - old(cache.Repr))
      ensures cache.view == Put(old(cache.view), chatID, B.AddBatch(old(Mine()), batch, force))
      ensures Mine() == B.AddBatch(old(Mine()), batch, force) && length == |Base(Mine()).queue|
    {
      PutPut(cache.view, chatID, B.AddBatch(Mine(), batch, force), None);
      if force {
        length := AddAllToFront(batch);
      } else {
        length := cache.AddSongs(chatID, B.Slots(batch));
      }
    }

    /** The "set Loop=1, then PlayNext" that starts a batch with its first track. */
    method StartBatch(batch: seq<Track>, force: bool)
      requires Valid() && batch != []
      modifies this, db, db.cache, cache, cache.Repr
      ensures Valid() && fresh(cache.Repr - old(cache.Repr))
      ensures var s := old(View());
              View() == Playback.PlayNext(world, cfg, chatID,
                s.(chat := SetSlot(s.chat, B.FirstPosition(batch, force), batch[0].(loop := 1))))
      ensures cache.view == Put(old(cache.view), chatID, View().chat)
    {
      ghost var before := cache.view;
      ghost var looping := SetSlot(Mine(), B.FirstPosition(batch, force), batch[0].(loop := 1));
      PutPut(before, chatID, looping, None);
      cache.WriteTrack(chatID, B.FirstPosition(batch, force), batch[0].(loop := 1));
      PlayNext();
      PutPut(before, chatID, looping, Mine());
    }

    method HandleMultipleTracks(tracks: seq<B.UrlTrack>, user: string, maxDuration: int, force: bool)
      requires Valid()
      modifies this, db, db.cache, cache, cache.Repr
      ensures Valid() && fresh(cache.Repr - old(cache.Repr))
      ensures View() == B.PlayBatch(world, cfg, chatID, old(View()), B.Accepted(tracks, user, maxDuration), force)
      ensures cache.view == Put(old(cache.view), chatID, View().chat)
    {
      PutAt(cache.view, chatID);
      var batch := AcceptTracks(tracks, user, maxDuration);
      if batch != [] {
        PlayBatch(batch, force);
      }
    }

    method PlayBatch(batch: seq<Track>, force: bool)
      requires Valid() && batch != []
      modifies this, db, db.cache, cache, cache.Repr
      ensures Valid() && fresh(cache.Repr - old(cache.Repr))
      ensures View() == B.PlayBatch(world, cfg, chatID, old(View()), batch, force)
      ensures cache.view == Put(old(cache.view), chatID, View().chat)
    {
      ghost var before := cache.view;
      B.AddBatchLength(Mine(), batch, force);
      var length := QueueBatch(batch, force);
      ghost var added := Mine();
      if length == |batch| {
        StartBatch(batch, force);
      } else if force {
        PlayNext();
      }
      PutPut(before, chatID, added, Mine());
    }
  }
}
