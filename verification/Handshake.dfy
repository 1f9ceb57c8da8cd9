/**
 How a call that joins a voice chat waits for the connection callback: it registers a one-slot channel for the
 chat, does its network work, waits on the channel with a timeout and removes the chat's entry when it returns.
 Joining a presentation follows the same protocol.  Callbacks read the entry under the lock and later send without
 blocking.  One step per lock region or channel operation; calls and callbacks interleave freely.
 */
module Handshake {
  import opened Wrappers

  datatype Event = Connected | Closed | Failed | TimedOut | Connecting

  // What a call returns; Cancelled is the error of its context.
  datatype Result = Ok | ConnectionFailed | ConnectionTimeout | EarlyError | Cancelled

  // A value for a channel, with the event that a callback made it from.
  datatype Put = Put(event: Event, result: Result)

  // `puts` lists everything ever put into the channel, and `owner` is the call that made it.
  datatype Chan = Chan(owner: nat, buffer: Option<Result>, puts: seq<Put>)

  datatype Phase = Registered | Waiting | Leaving | Returned

  datatype Call = Call(chat: int, ch: nat, phase: Phase, result: Result, received: bool)

  // A callback between its read lock and its send.
  datatype Callback = Callback(ch: nat, put: Put)

  // `displaced` are the calls during which another call for their chat has begun or left, or that have left themselves.
  datatype State = State(
    wait: map<int, nat>, chans: seq<Chan>, calls: map<nat, Call>, callbacks: map<nat, Callback>, displaced: set<nat>)

  const START := State(map[], [], map[], map[], {})

  datatype Action =
    | Begin(call: nat, chat: int)                 // register the channel
    | FailEarly(call: nat)                        // any error before the select
    | ReachSelect(call: nat)
    | Receive(call: nat)
    | GiveUp(call: nat)                           // timeout
    | Cancel(call: nat)                           // the context is cancelled
    | Leave(call: nat)                            // the deferred removal of the entry
    | OnChange(callback: nat, chat: int, event: Event)
    | Send(callback: nat)

  function Terminal(e: Event): Option<Result> {
    match e
    case Connected => Some(Ok)
    case Closed => Some(ConnectionFailed)
    case Failed => Some(ConnectionFailed)
    case TimedOut => Some(ConnectionTimeout)
    case Connecting => None
  }

  /** The calls for a chat that have not returned. */
  function Outstanding(s: State, chat: int): set<nat> {
    set c | c in s.calls && s.calls[c].chat == chat && s.calls[c].phase != Returned
  }

  predicate In(s: State, c: nat, phase: Phase) {
    c in s.calls && s.calls[c].phase == phase
  }

  ghost predicate ChansOk(s: State) {
    && (forall c :: c in s.calls ==> s.calls[c].ch < |s.chans|)
    && (forall b :: b in s.callbacks ==> s.callbacks[b].ch < |s.chans|)
  }

  /** A step; an action that is not possible in the state leaves it alone. */
  function Step(s: State, a: Action): State
    requires ChansOk(s)
  {
    match a
    case Begin(c, chat) =>
      if c in s.calls then s else
      State(s.wait[chat := |s.chans|],
            s.chans + [Chan(c, None, [])],
            s.calls[c := Call(chat, |s.chans|, Registered, EarlyError, false)],
            s.callbacks,
            s.displaced + Outstanding(s, chat))
    case FailEarly(c) =>
      if !In(s, c, Registered) then s else
      s.(calls := s.calls[c := s.calls[c].(phase := Leaving, result := EarlyError)])
    case ReachSelect(c) =>
      if !In(s, c, Registered) then s else s.(calls := s.calls[c := s.calls[c].(phase := Waiting)])
    case Receive(c) =>
      if !In(s, c, Waiting) || s.chans[s.calls[c].ch].buffer.None? then s else
      var ch := s.calls[c].ch;
      s.(calls := s.calls[c := s.calls[c].(phase := Leaving, result := s.chans[ch].buffer.value, received := true)],
         chans := s.chans[ch := s.chans[ch].(buffer := None)])
    case GiveUp(c) =>
      if !In(s, c, Waiting) then s else
      s.(calls := s.calls[c := s.calls[c].(phase := Leaving, result := ConnectionTimeout)])
    case Cancel(c) =>
      if !In(s, c, Waiting) then s else
      s.(calls := s.calls[c := s.calls[c].(phase := Leaving, result := Cancelled)])
    case Leave(c) =>
      if !In(s, c, Leaving) then s else
      s.(calls := s.calls[c := s.calls[c].(phase := Returned)], wait := s.wait - {s.calls[c].chat},
         displaced := s.displaced + Outstanding(s, s.calls[c].chat))
    case OnChange(b, chat, event) =>
      if b in s.callbacks || chat !in s.wait || s.wait[chat] >= |s.chans| || Terminal(event).None? then s else
      s.(callbacks := s.callbacks[b := Callback(s.wait[chat], Put(event, Terminal(event).value))])
    case Send(b) =>
      if b !in s.callbacks then s else
      var Callback(ch, put) := s.callbacks[b];
      var s' := s.(callbacks := s.callbacks - {b});
      if s.chans[ch].buffer.Some? then s' else
      s'.(chans := s.chans[ch := s.chans[ch].(buffer := Some(put.result), puts := s.chans[ch].puts + [put])])
  }

  function Run(s: State, run: seq<Action>): (r: State)
    requires ChansOk(s)
    ensures ChansOk(r)
    decreases |run|
  {
    if run == [] then s else Run(Step(s, run[0]), run[1..])
  }

  // ----- what every step keeps -----

  /** The owner of a chat's entry is an outstanding call for the chat, with that channel. */
  ghost predicate EntryOwned(s: State, chat: int)
    requires chat in s.wait
  {
    && s.wait[chat] < |s.chans|
    && var c := s.chans[s.wait[chat]].owner;
       c in s.calls && s.calls[c].ch == s.wait[chat] && s.calls[c].chat == chat && s.calls[c].phase != Returned
  }

  /** Every entry belongs to a call for that chat that has not returned. */
  ghost predicate EntriesOwned(s: State) {
    forall chat :: chat in s.wait ==> EntryOwned(s, chat)
  }

  /** What an event stands for; an event that is not terminal is never put anywhere. */
  predicate Answers(put: Put) {
    && put.event in {Connected, Closed, Failed, TimedOut}
    && (put.result == Ok <==> put.event == Connected)
    && (put.result == ConnectionFailed <==> put.event in {Closed, Failed})
    && (put.result == ConnectionTimeout <==> put.event == TimedOut)
  }

  /** Every value, put or about to be put into a channel, is the answer to its event. */
  ghost predicate PutsAnswer(s: State) {
    && (forall b :: b in s.callbacks ==> Answers(s.callbacks[b].put))
    && (forall i, put :: 0 <= i < |s.chans| && put in s.chans[i].puts ==> Answers(put))
  }

  /** A channel holds its first value until its call takes it, and a call that received anything received that. */
  ghost predicate CallOk(s: State, c: nat)
    requires c in s.calls && s.calls[c].ch < |s.chans|
  {
    var call, chan := s.calls[c], s.chans[s.calls[c].ch];
    && chan.owner == c
    && (call.phase == Registered || call.phase == Waiting ==> !call.received)
    && (call.phase in {Leaving, Returned} && !call.received ==>
          call.result in {EarlyError, ConnectionTimeout, Cancelled})
    && (if call.received then chan.puts != [] && call.result == chan.puts[0].result
        else chan.buffer == if chan.puts == [] then None else Some(chan.puts[0].result))
  }

  predicate Found(s: State, c: nat)
    requires c in s.calls
  {
    s.calls[c].chat in s.wait && s.wait[s.calls[c].chat] == s.calls[c].ch
  }

  /** Callbacks find the channel of an outstanding call exactly when the call is not displaced. */
  ghost predicate FoundUnlessDisplaced(s: State) {
    forall c :: c in s.calls && s.calls[c].phase != Returned ==> (Found(s, c) <==> c !in s.displaced)
  }

  ghost predicate Inv(s: State) {
    && ChansOk(s)
    && EntriesOwned(s)
    && PutsAnswer(s)
    && (forall c :: c in s.calls ==> CallOk(s, c))
    && FoundUnlessDisplaced(s)
    && (forall c :: c in s.displaced ==> c in s.calls)
  }

  lemma CallStaysOk(s: State, a: Action, c: nat)
    requires ChansOk(s) && c in s.calls && CallOk(s, c)
    requires forall d :: d in s.calls && s.calls[d].ch == s.calls[c].ch ==> d == c
    ensures var s' := Step(s, a); ChansOk(s') && c in s'.calls && CallOk(s', c)
  {
  }

  lemma StepKeepsCalls(s: State, a: Action)
    requires Inv(s)
    ensures ChansOk(Step(s, a))
    ensures forall c :: c in Step(s, a).calls ==> CallOk(Step(s, a), c)
  {
    StepKeepsIdentity(s, a);
    var s' := Step(s, a);
    forall c | c in s'.calls
      ensures CallOk(s', c)
    {
      if c in s.calls {
        assert CallOk(s, c);
        forall d | d in s.calls && s.calls[d].ch == s.calls[c].ch
          ensures d == c
        {
          assert CallOk(s, d);
        }
        CallStaysOk(s, a, c);
      }
    }
  }

  /** Channels are never dropped and keep their owners; no call changes its chat or channel. */
  lemma StepKeepsIdentity(s: State, a: Action)
    requires ChansOk(s)
    ensures var s' := Step(s, a);
            && ChansOk(s') && |s.chans| <= |s'.chans|
            && (forall i :: 0 <= i < |s.chans| ==> s'.chans[i].owner == s.chans[i].owner)
            && (forall c :: c in s.calls ==>
                  c in s'.calls && s'.calls[c].ch == s.calls[c].ch && s'.calls[c].chat == s.calls[c].chat)
  {
  }

  lemma EntryStaysOwned(s: State, a: Action, chat: int)
    requires ChansOk(s) && chat in s.wait && EntryOwned(s, chat)
    requires var s' := Step(s, a); chat in s'.wait && s'.wait[chat] == s.wait[chat]
    ensures EntryOwned(Step(s, a), chat)
  {
    StepKeepsIdentity(s, a);
  }

  lemma StepKeepsEntries(s: State, a: Action)
    requires ChansOk(s) && EntriesOwned(s)
    ensures EntriesOwned(Step(s, a))
  {
    var s' := Step(s, a);
    forall chat | chat in s'.wait
      ensures EntryOwned(s', chat)
    {
      if chat in s.wait && s'.wait[chat] == s.wait[chat] {
        EntryStaysOwned(s, a, chat);
      }
    }
  }

  lemma StepKeepsFound(s: State, a: Action)
    requires Inv(s)
    ensures FoundUnlessDisplaced(Step(s, a))
  {
    var s' := Step(s, a);
    forall c | c in s'.calls && s'.calls[c].phase != Returned
      ensures Found(s', c) <==> c !in s'.displaced
    {
      if c in s.calls {
        assert CallOk(s, c);
        assert s.calls[c].chat == s'.calls[c].chat && s.calls[c].phase != Returned;
        assert Found(s, c) <==> c !in s.displaced;
        if a.Begin? && a.call !in s.calls {
          assert c in Outstanding(s, a.chat) <==> s.calls[c].chat == a.chat;
        } else if a.Leave? && In(s, a.call, Leaving) {
          assert c in Outstanding(s, s.calls[a.call].chat) <==> s.calls[c].chat == s.calls[a.call].chat;
        }
      }
    }
  }

  lemma StepKeepsAnswers(s: State, a: Action)
    requires ChansOk(s) && PutsAnswer(s)
    ensures PutsAnswer(Step(s, a))
  {
    var s' := Step(s, a);
    forall i, put | 0 <= i < |s'.chans| && put in s'.chans[i].puts
      ensures Answers(put)
    {
      if i < |s.chans| && put !in s.chans[i].puts {
        assert a.Send? && put == s.callbacks[a.callback].put;
      }
    }
  }

  lemma StepKeepsInv(s: State, a: Action)
    requires Inv(s)
    ensures Inv(Step(s, a))
  {
    StepKeepsIdentity(s, a);
    StepKeepsCalls(s, a);
    StepKeepsEntries(s, a);
    StepKeepsAnswers(s, a);
    StepKeepsFound(s, a);
  }

  lemma {:induction false} RunKeepsInv(s: State, run: seq<Action>)
    requires Inv(s)
    ensures Inv(Run(s, run))
    decreases |run|
  {
    if run != [] {
      StepKeepsInv(s, run[0]);
      RunKeepsInv(Step(s, run[0]), run[1..]);
    }
  }

  lemma StepGrows(s: State, a: Action, c: nat)
    requires Inv(s) && c in s.calls
    ensures var r := Step(s, a);
            c in r.calls && r.calls[c].ch == s.calls[c].ch && r.calls[c].ch < |r.chans| &&
            s.chans[s.calls[c].ch].puts <= r.chans[s.calls[c].ch].puts
  {
  }

  /** What has been put into a channel, and what a call has received, stays. */
  lemma {:induction false} HistoryGrows(s: State, run: seq<Action>, c: nat)
    requires Inv(s) && c in s.calls
    ensures var r := Run(s, run);
            c in r.calls && r.calls[c].ch == s.calls[c].ch && r.calls[c].ch < |r.chans| &&
            s.chans[s.calls[c].ch].puts <= r.chans[s.calls[c].ch].puts
    decreases |run|
  {
    if run != [] {
      StepKeepsInv(s, run[0]);
      StepGrows(s, run[0], c);
      HistoryGrows(Step(s, run[0]), run[1..], c);
    }
  }

  // ----- the promises -----

  /**
   What a call returns, in every run: if it received anything, the answer to the first event put in its own channel,
   which is nil for Connected, a failure for Closed and Failed and a timeout for TimedOut.  It returns nil exactly
   when it received and that event was Connected, and otherwise it was its own step that ended the wait.
   */
  lemma NilMeansConnectedFirst(run: seq<Action>, c: nat)
    requires In(Run(START, run), c, Returned)
    ensures var r := Run(START, run);
            var call := r.calls[c];
            var chan := r.chans[call.ch];
            && chan.owner == c
            && (forall put :: put in chan.puts ==> put.event != Connecting)
            && (call.received ==>
                  && chan.puts != []
                  && (call.result == Ok <==> chan.puts[0].event == Connected)
                  && (call.result == ConnectionFailed <==> chan.puts[0].event in {Closed, Failed})
                  && (call.result == ConnectionTimeout <==> chan.puts[0].event == TimedOut))
            && (!call.received ==> call.result in {EarlyError, ConnectionTimeout, Cancelled})
  {
    RunKeepsInv(START, run);
    var r := Run(START, run);
    var chan := r.chans[r.calls[c].ch];
    assert CallOk(r, c);
    forall put | put in chan.puts
      ensures Answers(put)
    {
    }
    assert r.calls[c].received ==> Answers(chan.puts[0]);
  }

  /** Once a call is leaving, what it returns is settled. */
  lemma {:induction false} ResultIsSettled(s: State, run: seq<Action>, c: nat)
    requires ChansOk(s) && c in s.calls && s.calls[c].phase in {Leaving, Returned}
    ensures var r := Run(s, run);
            c in r.calls && r.calls[c].phase in {Leaving, Returned} && r.calls[c].result == s.calls[c].result &&
            r.calls[c].received == s.calls[c].received
    decreases |run|
  {
    if run != [] {
      LeavingStays(s, run[0], c);
      ResultIsSettled(Step(s, run[0]), run[1..], c);
    }
  }

  lemma LeavingStays(s: State, a: Action, c: nat)
    requires ChansOk(s) && c in s.calls && s.calls[c].phase in {Leaving, Returned}
    ensures var r := Step(s, a);
            ChansOk(r) && c in r.calls && r.calls[c].phase in {Leaving, Returned} &&
            r.calls[c].result == s.calls[c].result && r.calls[c].received == s.calls[c].received
  {
  }

  /** The steps that end a wait without an event, whatever comes after them. */
  lemma EndsWithoutEvent(s: State, c: nat, run: seq<Action>)
    requires Inv(s) && (In(s, c, Registered) || In(s, c, Waiting))
    ensures In(s, c, Registered) ==>
              var r := Run(Step(s, FailEarly(c)), run);
              c in r.calls && r.calls[c].result == EarlyError && !r.calls[c].received
    ensures In(s, c, Waiting) ==>
              var t, x := Run(Step(s, GiveUp(c)), run), Run(Step(s, Cancel(c)), run);
              && c in t.calls && t.calls[c].result == ConnectionTimeout && !t.calls[c].received
              && c in x.calls && x.calls[c].result == Cancelled && !x.calls[c].received
  {
    assert CallOk(s, c);
    if In(s, c, Registered) {
      ResultIsSettled(Step(s, FailEarly(c)), run, c);
    } else {
      ResultIsSettled(Step(s, GiveUp(c)), run, c);
      ResultIsSettled(Step(s, Cancel(c)), run, c);
    }
  }

  /** A call that waits takes what its channel holds, if it holds anything; the call then leaves. */
  lemma ReceivesWhatIsHeld(run: seq<Action>, c: nat)
    requires In(Run(START, run), c, Waiting)
    ensures var s := Run(START, run);
            var puts := s.chans[s.calls[c].ch].puts;
            var s' := Step(s, Receive(c));
            && (puts == [] ==> s' == s)
            && (puts != [] ==> In(s', c, Leaving) && s'.calls[c].received && s'.calls[c].result == puts[0].result)
  {
    RunKeepsInv(START, run);
    assert CallOk(Run(START, run), c);
  }

  /** A callback for this event comes to hold the channel of the call. */
  ghost predicate Finds(s: State, c: nat, b: nat, event: Event)
    requires ChansOk(s) && c in s.calls
  {
    var s' := Step(s, OnChange(b, s.calls[c].chat, event));
    b in s'.callbacks && s'.callbacks[b].ch == s.calls[c].ch && s'.callbacks[b].put.event == event
  }

  /** An event that is not terminal leads to nothing. */
  lemma ConnectingIsIgnored(s: State, b: nat, chat: int)
    requires ChansOk(s)
    ensures Step(s, OnChange(b, chat, Connecting)) == s
  {
  }

  lemma FindsUnlessDisplaced(s: State, c: nat, b: nat, event: Event)
    requires Inv(s) && c in s.calls && s.calls[c].phase != Returned && b !in s.callbacks && event != Connecting
    ensures Finds(s, c, b, event) <==> c !in s.displaced
  {
    assert Found(s, c) <==> c !in s.displaced;
  }

  /**
   In every reachable state, a terminal event finds the channel of a call that has not returned if and only if no
   other call for its chat has begun or left since the call began.
   */
  lemma EventFindsCallExactlyWhen(run: seq<Action>, c: nat, b: nat, event: Event)
    requires event != Connecting
    requires var r := Run(START, run); c in r.calls && r.calls[c].phase != Returned && b !in r.callbacks
    ensures Finds(Run(START, run), c, b, event) <==> c !in Run(START, run).displaced
  {
    RunKeepsInv(START, run);
    FindsUnlessDisplaced(Run(START, run), c, b, event);
  }

  /** The step in which another call for the chat of `c` begins or leaves. */
  ghost predicate Disturbs(s: State, a: Action, c: nat)
    requires c in s.calls
  {
    || (a.Begin? && a.call !in s.calls && a.chat == s.calls[c].chat)
    || (a.Leave? && a.call != c && In(s, a.call, Leaving) && s.calls[a.call].chat == s.calls[c].chat)
  }

  ghost predicate Disturbed(s: State, run: seq<Action>, c: nat)
    requires ChansOk(s) && c in s.calls
    decreases |run|
  {
    run != [] && (Disturbs(s, run[0], c) || (StepKeepsIdentity(s, run[0]); Disturbed(Step(s, run[0]), run[1..], c)))
  }

  lemma StepDisplaces(s: State, a: Action, c: nat)
    requires ChansOk(s) && c in s.calls
    ensures c in Step(s, a).calls
    ensures Step(s, a).calls[c].phase != Returned ==>
              s.calls[c].phase != Returned &&
              (c in Step(s, a).displaced <==> c in s.displaced || Disturbs(s, a, c))
  {
  }

  lemma {:induction false} RunDisplaces(s: State, run: seq<Action>, c: nat)
    requires ChansOk(s) && c in s.calls
    ensures c in Run(s, run).calls
    ensures Run(s, run).calls[c].phase != Returned ==>
              s.calls[c].phase != Returned &&
              (c in Run(s, run).displaced <==> c in s.displaced || Disturbed(s, run, c))
    decreases |run|
  {
    if run != [] {
      StepDisplaces(s, run[0], c);
      RunDisplaces(Step(s, run[0]), run[1..], c);
    }
  }

  /** The same by the history: an outstanding call is found if and only if nothing has disturbed it since it began. */
  lemma FoundUnlessDisturbed(run: seq<Action>, c: nat, chat: int, after: seq<Action>, b: nat, event: Event)
    requires c !in Run(START, run).calls && event != Connecting
    requires var r := Run(Step(Run(START, run), Begin(c, chat)), after);
             c in r.calls && r.calls[c].phase != Returned && b !in r.callbacks
    ensures var s := Step(Run(START, run), Begin(c, chat));
            Finds(Run(s, after), c, b, event) <==> !Disturbed(s, after, c)
  {
    RunKeepsInv(START, run);
    var s := Step(Run(START, run), Begin(c, chat));
    StepKeepsInv(Run(START, run), Begin(c, chat));
    assert c !in s.displaced by {
      assert c !in Outstanding(Run(START, run), chat);
    }
    RunKeepsInv(s, after);
    RunDisplaces(s, after, c);
    FindsUnlessDisplaced(Run(s, after), c, b, event);
  }

  /** At most `c` is outstanding for the chat, and nothing has come in its way. */
  ghost predicate Alone(s: State, c: nat, chat: int) {
    && c in s.calls && s.calls[c].chat == chat
    && forall d :: d in s.calls && s.calls[d].chat == chat && s.calls[d].phase != Returned ==>
         d == c && c !in s.displaced
  }

  lemma StepKeepsAlone(s: State, a: Action, c: nat, chat: int)
    requires ChansOk(s) && Alone(s, c, chat) && (a.Begin? ==> a.chat != chat)
    ensures Alone(Step(s, a), c, chat)
  {
    StepKeepsIdentity(s, a);
  }

  lemma AloneAfter(s: State, run: seq<Action>, c: nat, chat: int) returns (s': State)
    requires ChansOk(s) && Alone(s, c, chat) && run != [] && forall a :: a in run && a.Begin? ==> a.chat != chat
    ensures ChansOk(s') && Alone(s', c, chat) && Run(s, run) == Run(s', run[1..])
  {
    assert run[0] in run;
    s' := Step(s, run[0]);
    StepKeepsIdentity(s, run[0]);
    StepKeepsAlone(s, run[0], c, chat);
  }

  lemma {:induction false} RunKeepsAlone(s: State, run: seq<Action>, c: nat, chat: int)
    requires ChansOk(s) && Alone(s, c, chat) && forall a :: a in run && a.Begin? ==> a.chat != chat
    ensures Alone(Run(s, run), c, chat)
    decreases |run|
  {
    if run != [] {
      var s' := AloneAfter(s, run, c, chat);
      RunKeepsAlone(s', run[1..], c, chat);
    }
  }

  /**
   Whatever happened before: a call that begins while none is outstanding for its chat is found by every terminal
   event until it returns, as long as no other call for the chat begins.
   */
  lemma LoneCallIsFound(run: seq<Action>, c: nat, chat: int, after: seq<Action>, b: nat, event: Event)
    requires Outstanding(Run(START, run), chat) == {} && c !in Run(START, run).calls
    requires (forall a :: a in after && a.Begin? ==> a.chat != chat) && event != Connecting
    requires var r := Run(Step(Run(START, run), Begin(c, chat)), after);
             c in r.calls && r.calls[c].phase != Returned && b !in r.callbacks
    ensures Finds(Run(Step(Run(START, run), Begin(c, chat)), after), c, b, event)
  {
    var s := Run(START, run);
    RunKeepsInv(START, run);
    StepKeepsInv(s, Begin(c, chat));
    BeginsAlone(s, c, chat);
    RunKeepsInv(Step(s, Begin(c, chat)), after);
    RunKeepsAlone(Step(s, Begin(c, chat)), after, c, chat);
    FindsUnlessDisplaced(Run(Step(s, Begin(c, chat)), after), c, b, event);
  }

  lemma BeginsAlone(s: State, c: nat, chat: int)
    requires Inv(s) && Outstanding(s, chat) == {} && c !in s.calls
    ensures Alone(Step(s, Begin(c, chat)), c, chat)
  {
    assert forall d :: d in s.calls && s.calls[d].chat == chat && s.calls[d].phase != Returned ==>
      d in Outstanding(s, chat);
  }

  /**
   Once such a callback holds a call's channel the event is not lost, however its send and the call's own steps
   interleave with everything else: if nothing reached the channel before it, then its answer stays there until the
   call stops waiting, and if the call receives anything it receives that.
   */
  lemma EventNotLost(run: seq<Action>, c: nat, b: nat, after: seq<Action>)
    requires var r := Run(START, run);
             && c in r.calls && r.calls[c].ch < |r.chans| && r.chans[r.calls[c].ch].puts == []
             && b in r.callbacks && r.callbacks[b].ch == r.calls[c].ch
    ensures var r := Run(START, run);
            var end := Run(Step(r, Send(b)), after);
            var event := r.callbacks[b].put.event;
            && c in end.calls && end.calls[c].ch < |end.chans|
            && (end.calls[c].phase in {Registered, Waiting} ==>
                  end.chans[end.calls[c].ch].buffer == Some(r.callbacks[b].put.result))
            && (end.calls[c].received ==>
                  && (end.calls[c].result == Ok <==> event == Connected)
                  && (end.calls[c].result == ConnectionFailed <==> event in {Closed, Failed})
                  && (end.calls[c].result == ConnectionTimeout <==> event == TimedOut))
  {
    RunKeepsInv(START, run);
    var r := Run(START, run);
    assert CallOk(r, c);
    StepKeepsInv(r, Send(b));
    var r2 := Step(r, Send(b));
    RunKeepsInv(r2, after);
    HistoryGrows(r2, after, c);
    assert CallOk(Run(r2, after), c);
    assert Answers(r.callbacks[b].put);
  }

  /** A callback never blocks: its send completes whatever the channel holds, without touching any call or entry. */
  lemma CallbackCompletes(s: State, b: nat)
    requires ChansOk(s)
    ensures var s' := Step(s, Send(b)); b !in s'.callbacks && s'.calls == s.calls && s'.wait == s.wait
  {
  }

  lemma WaiterIsOutstanding(s: State, chat: int)
    requires Inv(s) && chat in s.wait
    ensures Outstanding(s, chat) != {}
  {
    assert s.chans[s.wait[chat]].owner in Outstanding(s, chat);
  }

  /** Once every call for a chat has returned, no waiter entry remains, overlapping or not. */
  lemma NoWaiterLeft(run: seq<Action>, chat: int)
    requires Outstanding(Run(START, run), chat) == {}
    ensures chat !in Run(START, run).wait
  {
    RunKeepsInv(START, run);
    var r := Run(START, run);
    if chat in r.wait {
      WaiterIsOutstanding(r, chat);
    }
  }

  /**
   Overlap does lose events: a second call for the chat registers, the first one leaves and takes the second
   one's entry with it, and the second one can then only time out.
   */
  lemma OverlapLosesEvents(c1: nat, c2: nat, chat: int)
    requires c1 != c2
    ensures var s1 := Step(Step(START, Begin(c1, chat)), Begin(c2, chat));
            var s2 := Step(Step(s1, FailEarly(c1)), Leave(c1));
            var s3 := Step(s2, ReachSelect(c2));
            && In(s3, c2, Waiting) && c2 in s3.displaced && Outstanding(s3, chat) == {c2}
            && forall b, event :: Step(s3, OnChange(b, chat, event)) == s3
  {
    var s1 := Step(Step(START, Begin(c1, chat)), Begin(c2, chat));
    var s2 := Step(s1, FailEarly(c1));
    assert c2 in Outstanding(s2, chat);
  }
}
