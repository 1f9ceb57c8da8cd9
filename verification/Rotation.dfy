/**
 Starting a stream with whichever assistant account can (internal/calls/playback.go): retry once, evict, rotate,
 and record the account that succeeded.
 */
module Rotation {
  import opened Wrappers
  import opened World
  import opened Assistants

  datatype Try = Try(index: nat, outcome: Outcome)

  datatype End =
    | Started(index: nat)
    | NoAccount
    | FatalMessage               // the user-facing message of a fatal first attempt
    | Failed(kind: Outcome)
    | Exhausted                  // "playback failed after trying all assistants"

  datatype Played = Played(end: End, tries: seq<Try>, store: Store, tick: nat)

  predicate AnyFailed(tries: seq<Try>) {
    exists k :: 0 <= k < |tries| && tries[k].outcome != Ok
  }

  /** Private chats are refused before anything is attempted. */
  function Answer(w: World, chat: int, tick: nat): Outcome {
    if chat > 0 then Unknown else w.attempt(tick)
  }

  // ----- as the program does it -----

  function NextUntried(accounts: nat, tried: set<nat>, from: nat): (r: Option<nat>)
    ensures r.Some? ==> from <= r.value < accounts && r.value !in tried
    ensures forall i :: from <= i < (if r.Some? then r.value else accounts) ==> i in tried
    decreases accounts - from
  {
    if from >= accounts then None
    else if from !in tried then Some(from)
    else NextUntried(accounts, tried, from + 1)
  }

  function Untried(accounts: nat, tried: set<nat>): set<nat> {
    set i: nat | i < accounts && i !in tried
  }

  lemma OneFewer(accounts: nat, tried: set<nat>, i: nat)
    requires i < accounts && i !in tried
    ensures |Untried(accounts, tried + {i})| < |Untried(accounts, tried)|
  {
    assert Untried(accounts, tried + {i}) == Untried(accounts, tried) - {i};
  }

  function RotateAndPlay(
    w: World, accounts: nat, chat: int, s: Store, tick: nat, tried: set<nat>, tries: seq<Try>): Played
    decreases |Untried(accounts, tried)|
  {
    match NextUntried(accounts, tried, 0)
    case None => Played(Exhausted, tries, s, tick)
    case Some(i) =>
      OneFewer(accounts, tried, i);
      var o := Answer(w, chat, tick);
      var tries1 := tries + [Try(i, o)];
      match o
      case Ok => Played(Started(i), tries1, SetAssistant(s, chat, i, w.now(tick)), tick + 1)
      case Rotate => RotateAndPlay(w, accounts, chat, RemoveAssistant(s, chat), tick + 1, tried + {i}, tries1)
      case RetryOnce =>
        var o2 := Answer(w, chat, tick + 1);
        var tries2 := tries1 + [Try(i, o2)];
        if o2.Ok? then Played(Started(i), tries2, SetAssistant(s, chat, i, w.now(tick + 1)), tick + 2)
        else if o2.Rotate? then
          RotateAndPlay(w, accounts, chat, RemoveAssistant(s, chat), tick + 2, tried + {i}, tries2)
        else Played(Failed(o2), tries2, s, tick + 2)
      case _ => Played(Failed(o), tries1, s, tick + 1)
  }

  /** The attempts with the assigned account `i`, and the rotation they may lead to. */
  function PlayFirst(w: World, accounts: nat, chat: int, s: Store, tick: nat, i: nat): Played {
    var o := Answer(w, chat, tick);
    match o
    case Ok => Played(Started(i), [Try(i, o)], SetAssistant(s, chat, i, w.now(tick)), tick + 1)
    case Fatal => Played(FatalMessage, [Try(i, o)], s, tick + 1)
    case Unknown => Played(Failed(o), [Try(i, o)], s, tick + 1)
    case Rotate => RotateAndPlay(w, accounts, chat, RemoveAssistant(s, chat), tick + 1, {i}, [Try(i, o)])
    case RetryOnce =>
      var o2 := Answer(w, chat, tick + 1);
      var tries := [Try(i, o), Try(i, o2)];
      if o2.Ok? then Played(Started(i), tries, SetAssistant(s, chat, i, w.now(tick + 1)), tick + 2)
      else if o2.Rotate? then RotateAndPlay(w, accounts, chat, RemoveAssistant(s, chat), tick + 2, {i}, tries)
      else Played(Failed(o2), tries, s, tick + 2)
  }

  function PlayMedia(w: World, accounts: nat, chat: int, s: Store, tick: nat): Played {
    var (account, s1) := GetAccount(s, accounts, chat, w.draw(tick), w.now(tick));
    if account.None? then Played(NoAccount, [], s1, tick + 1)
    else PlayFirst(w, accounts, chat, s1, tick + 1, account.value)
  }

  // ----- a reference: accounts in a fixed order, each tried once or twice -----

  /** The j-th account in the order "the assigned one, then the others ascending", and its inverse. */
  function Visit(first: nat, j: nat): nat {
    if j == 0 then first else if j - 1 < first then j - 1 else j
  }

  function Rank(first: nat, i: nat): nat {
    if i == first then 0 else if i < first then i + 1 else i
  }

  lemma RankVisit(first: nat, j: nat)
    ensures Rank(first, Visit(first, j)) == j && Visit(first, Rank(first, j)) == j
  {
  }

  function Reference(w: World, accounts: nat, chat: int, first: nat, j: nat, tick: nat): (r: (seq<Try>, End))
    decreases accounts - j
  {
    if j >= accounts then ([], Exhausted) else
    var i, o := Visit(first, j), Answer(w, chat, tick);
    match o
    case Ok => ([Try(i, o)], Started(i))
    case Rotate =>
      var (tries, end) := Reference(w, accounts, chat, first, j + 1, tick + 1);
      ([Try(i, o)] + tries, end)
    case RetryOnce =>
      var o2 := Answer(w, chat, tick + 1);
      if o2.Ok? then ([Try(i, o), Try(i, o2)], Started(i))
      else if o2.Rotate? then
        var (tries, end) := Reference(w, accounts, chat, first, j + 1, tick + 2);
        ([Try(i, o), Try(i, o2)] + tries, end)
      else ([Try(i, o), Try(i, o2)], Failed(o2))
    case _ => ([Try(i, o)], if j == 0 && o.Fatal? then FatalMessage else Failed(o))
  }

  /** The accounts tried after `j` have been visited. */
  ghost predicate Visited(accounts: nat, first: nat, j: nat, tried: set<nat>) {
    forall i :: 0 <= i < accounts ==> (i in tried <==> Rank(first, i) < j)
  }

  lemma NextIsVisit(accounts: nat, first: nat, j: nat, tried: set<nat>)
    requires first < accounts && 1 <= j <= accounts && Visited(accounts, first, j, tried)
    ensures NextUntried(accounts, tried, 0) == if j < accounts then Some(Visit(first, j)) else None
  {
    var r := NextUntried(accounts, tried, 0);
    if j < accounts {
      RankVisit(first, j);
      assert Visit(first, j) !in tried;
      assert Rank(first, r.value) >= j;
      assert forall i :: 0 <= i < Visit(first, j) ==> i in tried;
    }
  }

  /** An account's one or two attempts. */
  function Attempts(w: World, chat: int, i: nat, tick: nat): (tries: seq<Try>)
    ensures 1 <= |tries| <= 2
  {
    var first := Try(i, Answer(w, chat, tick));
    if first.outcome.RetryOnce? then [first, Try(i, Answer(w, chat, tick + 1))] else [first]
  }

  /** One turn of the rotation, by the last answer of the account's attempts. */
  lemma OneTurn(
    w: World, accounts: nat, chat: int, s: Store, tick: nat, tried: set<nat>, tries: seq<Try>, i: nat)
    requires NextUntried(accounts, tried, 0) == Some(i)
    ensures var more := Attempts(w, chat, i, tick);
            var last, tick' := more[|more| - 1].outcome, tick + |more|;
            RotateAndPlay(w, accounts, chat, s, tick, tried, tries) ==
              if last.Ok? then Played(Started(i), tries + more, SetAssistant(s, chat, i, w.now(tick' - 1)), tick')
              else if last.Rotate? then
                RotateAndPlay(w, accounts, chat, RemoveAssistant(s, chat), tick', tried + {i}, tries + more)
              else Played(Failed(last), tries + more, s, tick')
  {
    OneFewer(accounts, tried, i);
    var o := Answer(w, chat, tick);
    assert tries + [Try(i, o)] + [Try(i, Answer(w, chat, tick + 1))]
        == tries + [Try(i, o), Try(i, Answer(w, chat, tick + 1))];
  }

  lemma ReferenceTurn(w: World, accounts: nat, chat: int, first: nat, j: nat, tick: nat)
    requires 1 <= j < accounts
    ensures var i := Visit(first, j);
            var more := Attempts(w, chat, i, tick);
            var last := more[|more| - 1].outcome;
            var (tries, end) := Reference(w, accounts, chat, first, j + 1, tick + |more|);
            Reference(w, accounts, chat, first, j, tick) ==
              if last.Ok? then (more, Started(i))
              else if last.Rotate? then (more + tries, end)
              else (more, Failed(last))
  {
  }

  lemma {:induction false} RotationIsReference(
    w: World, accounts: nat, chat: int, s: Store, tick: nat, tried: set<nat>, tries: seq<Try>, first: nat, j: nat)
    requires first < accounts && 1 <= j <= accounts && Visited(accounts, first, j, tried)
    ensures var p := RotateAndPlay(w, accounts, chat, s, tick, tried, tries);
            p.tries == tries + Reference(w, accounts, chat, first, j, tick).0 &&
            p.end == Reference(w, accounts, chat, first, j, tick).1
    decreases accounts - j
  {
    NextIsVisit(accounts, first, j, tried);
    if j < accounts {
      var i := Visit(first, j);
      var more := Attempts(w, chat, i, tick);
      OneTurn(w, accounts, chat, s, tick, tried, tries, i);
      ReferenceTurn(w, accounts, chat, first, j, tick);
      if more[|more| - 1].outcome.Rotate? {
        VisitedNext(accounts, first, j, tried);
        var s', tick' := RemoveAssistant(s, chat), tick + |more|;
        RotationIsReference(w, accounts, chat, s', tick', tried + {i}, tries + more, first, j + 1);
        Join(tries, more, Reference(w, accounts, chat, first, j + 1, tick').0);
      }
    }
  }

  lemma VisitedNext(accounts: nat, first: nat, j: nat, tried: set<nat>)
    requires Visited(accounts, first, j, tried)
    ensures Visited(accounts, first, j + 1, tried + {Visit(first, j)})
  {
    RankVisit(first, j);
  }

  lemma Join(a: seq<Try>, b: seq<Try>, c: seq<Try>)
    ensures a + b + c == a + (b + c)
  {
  }

  /** The program's loop with its set of tried accounts does what the fixed order does. */
  lemma PlayMediaIsReference(w: World, accounts: nat, chat: int, s: Store, tick: nat)
    requires accounts > 0
    ensures var first := GetAccount(s, accounts, chat, w.draw(tick), w.now(tick)).0.value;
            var p := PlayMedia(w, accounts, chat, s, tick);
            (p.tries, p.end) == Reference(w, accounts, chat, first, 0, tick + 1)
  {
    var (account, s1) := GetAccount(s, accounts, chat, w.draw(tick), w.now(tick));
    var i, t := account.value, tick + 1;
    var o := Answer(w, chat, t);
    var s2 := RemoveAssistant(s1, chat);
    assert Visited(accounts, i, 1, {i});
    if o.Rotate? {
      RotationIsReference(w, accounts, chat, s2, t + 1, {i}, [Try(i, o)], i, 1);
    } else if o.RetryOnce? && Answer(w, chat, t + 1).Rotate? {
      RotationIsReference(w, accounts, chat, s2, t + 2, {i}, [Try(i, o), Try(i, Rotate)], i, 1);
    }
  }

  // ----- what the order implies -----

  /**
   From rank `j` on the attempts go through the accounts in rank order without a gap; only a rotate error leads to
   another account and only a retry error to a second attempt with the same one, which is never followed by a third.
   */
  ghost predicate InOrder(first: nat, j: nat, tries: seq<Try>) {
    && (tries != [] ==> Rank(first, tries[0].index) == j)
    && forall k :: 0 <= k < |tries| - 1 ==> Follows(first, tries, k)
  }

  ghost predicate Follows(first: nat, tries: seq<Try>, k: nat)
    requires k < |tries| - 1
  {
    var a, b := tries[k], tries[k + 1];
    || (a.outcome == Rotate && Rank(first, b.index) == Rank(first, a.index) + 1)
    || (a.outcome == RetryOnce && b.index == a.index && (k > 0 ==> tries[k - 1].index != a.index))
  }

  lemma {:induction false} ReferenceInOrder(w: World, accounts: nat, chat: int, first: nat, j: nat, tick: nat)
    requires first < accounts
    ensures InOrder(first, j, Reference(w, accounts, chat, first, j, tick).0)
    decreases accounts - j
  {
    if j < accounts {
      RankVisit(first, j);
      var i, o := Visit(first, j), Answer(w, chat, tick);
      OwnTriesInOrder(first, i, o, Answer(w, chat, tick + 1));
      if o.Rotate? {
        ReferenceInOrder(w, accounts, chat, first, j + 1, tick + 1);
        InOrderCons(first, j, [Try(i, o)], Reference(w, accounts, chat, first, j + 1, tick + 1).0);
      } else if o.RetryOnce? && Answer(w, chat, tick + 1).Rotate? {
        ReferenceInOrder(w, accounts, chat, first, j + 1, tick + 2);
        InOrderCons(first, j, [Try(i, o), Try(i, Rotate)], Reference(w, accounts, chat, first, j + 1, tick + 2).0);
      } else {
        var tries := Reference(w, accounts, chat, first, j, tick).0;
        assert tries == if o.RetryOnce? then [Try(i, o), Try(i, Answer(w, chat, tick + 1))] else [Try(i, o)];
      }
    }
  }

  lemma OwnTriesInOrder(first: nat, i: nat, o: Outcome, o2: Outcome)
    ensures InOrder(first, Rank(first, i), [Try(i, o)])
    ensures o.RetryOnce? ==> InOrder(first, Rank(first, i), [Try(i, o), Try(i, o2)])
  {
  }

  /** How the last attempt decides the end, when accounts from rank `j` on were left. */
  ghost predicate Ends(accounts: nat, first: nat, j: nat, tries: seq<Try>, end: End) {
    && (tries == [] <==> j >= accounts)
    && |tries| <= 2 * (if j < accounts then accounts - j else 0)
    && (forall k :: 0 <= k < |tries| ==> tries[k].index < accounts)
    && (if tries == [] then end == Exhausted else
        var last := tries[|tries| - 1];
        && (last.outcome == Ok ==> end == Started(last.index))
        && (last.outcome == Rotate ==> end == Exhausted && Rank(first, last.index) == accounts - 1)
        && (last.outcome !in {Ok, Rotate} ==>
              end == if j == 0 && tries == [Try(last.index, Fatal)] then FatalMessage else Failed(last.outcome)))
  }

  lemma EndsCons(accounts: nat, first: nat, j: nat, head: seq<Try>, tail: seq<Try>, end: End)
    requires j < accounts && 1 <= |head| <= 2 && Ends(accounts, first, j + 1, tail, end)
    requires forall k :: 0 <= k < |head| ==> head[k].index < accounts
    requires head[|head| - 1].outcome == Rotate && Rank(first, head[|head| - 1].index) == j
    ensures Ends(accounts, first, j, head + tail, end)
  {
    var all := head + tail;
    if tail == [] {
      assert all[|all| - 1] == head[|head| - 1];
    } else {
      assert all[|all| - 1] == tail[|tail| - 1];
    }
  }

  lemma {:induction false} ReferenceEnds(w: World, accounts: nat, chat: int, first: nat, j: nat, tick: nat)
    requires first < accounts
    ensures Ends(accounts, first, j, Reference(w, accounts, chat, first, j, tick).0,
                 Reference(w, accounts, chat, first, j, tick).1)
    decreases accounts - j
  {
    if j < accounts {
      RankVisit(first, j);
      var i, o := Visit(first, j), Answer(w, chat, tick);
      if o.Rotate? {
        ReferenceEnds(w, accounts, chat, first, j + 1, tick + 1);
        var rest := Reference(w, accounts, chat, first, j + 1, tick + 1);
        EndsCons(accounts, first, j, [Try(i, o)], rest.0, rest.1);
      } else if o.RetryOnce? && Answer(w, chat, tick + 1).Rotate? {
        ReferenceEnds(w, accounts, chat, first, j + 1, tick + 2);
        var rest := Reference(w, accounts, chat, first, j + 1, tick + 2);
        EndsCons(accounts, first, j, [Try(i, o), Try(i, Rotate)], rest.0, rest.1);
      }
    }
  }

  lemma InOrderCons(first: nat, j: nat, head: seq<Try>, tail: seq<Try>)
    requires head != [] && InOrder(first, j, head) && InOrder(first, j + 1, tail)
    requires head[|head| - 1].outcome == Rotate && Rank(first, head[|head| - 1].index) == j
    ensures InOrder(first, j, head + tail)
  {
    var all := head + tail;
    forall k | 0 <= k < |all| - 1
      ensures Follows(first, all, k)
    {
      if k < |head| - 1 {
        assert Follows(first, head, k);
      } else if k >= |head| {
        assert Follows(first, tail, k - |head|);
      }
    }
  }

  lemma {:induction false} RanksAscend(first: nat, j: nat, tries: seq<Try>, a: nat, b: nat)
    requires InOrder(first, j, tries) && a < b < |tries|
    ensures Rank(first, tries[a].index) <= Rank(first, tries[b].index)
    ensures tries[a].index == tries[b].index ==> b == a + 1 && tries[a].outcome == RetryOnce
    decreases b - a
  {
    if b > a + 1 {
      RanksAscend(first, j, tries, a + 1, b);
      assert Follows(first, tries, a + 1);
    }
    assert Follows(first, tries, a);
  }

  /** The last attempt with an account. */
  function LastWith(tries: seq<Try>, i: nat): Option<Outcome> {
    if tries == [] then None
    else if tries[|tries| - 1].index == i then Some(tries[|tries| - 1].outcome)
    else LastWith(tries[..|tries| - 1], i)
  }

  lemma {:induction false} LastWithAt(tries: seq<Try>, k: nat)
    requires k < |tries| && forall m :: k < m < |tries| ==> tries[m].index != tries[k].index
    ensures LastWith(tries, tries[k].index) == Some(tries[k].outcome)
  {
    if k < |tries| - 1 {
      LastWithAt(tries[..|tries| - 1], k);
    }
  }

  /** A gapless climb from rank zero meets every rank up to its last one, and leaves it on a rotate error. */
  lemma {:induction false} ClimbMeets(first: nat, tries: seq<Try>, r: nat) returns (k: nat)
    requires InOrder(first, 0, tries) && tries != [] && r <= Rank(first, tries[|tries| - 1].index)
    ensures k < |tries| && Rank(first, tries[k].index) == r
    ensures forall m :: k < m < |tries| ==> Rank(first, tries[m].index) > r
  {
    k := |tries| - 1;
    while Rank(first, tries[k].index) != r
      invariant k < |tries| && r <= Rank(first, tries[k].index)
      invariant forall m :: k < m < |tries| ==> Rank(first, tries[m].index) > r
      decreases k
    {
      assert tries[0].index == first;
      k := k - 1;
      assert Follows(first, tries, k);
    }
  }

  lemma ExhaustedMeansAllRotated(first: nat, accounts: nat, tries: seq<Try>)
    requires InOrder(first, 0, tries) && tries != []
    requires forall k :: 0 <= k < |tries| ==> tries[k].index < accounts
    requires tries[|tries| - 1].outcome == Rotate && Rank(first, tries[|tries| - 1].index) == accounts - 1
    ensures forall i :: 0 <= i < accounts ==> LastWith(tries, i) == Some(Rotate)
  {
    forall i | 0 <= i < accounts
      ensures LastWith(tries, i) == Some(Rotate)
    {
      RankVisit(first, i);
      assert first < accounts;
      var k := ClimbMeets(first, tries, Rank(first, i));
      RankVisit(first, tries[k].index);
      if k < |tries| - 1 {
        assert Follows(first, tries, k);
      }
      LastWithAt(tries, k);
    }
  }

  function FirstAccount(w: World, accounts: nat, chat: int, s: Store, tick: nat): nat
    requires accounts > 0
  {
    GetAccount(s, accounts, chat, w.draw(tick), w.now(tick)).0.value
  }

  lemma PlayMediaShape(w: World, accounts: nat, chat: int, s: Store, tick: nat)
    requires accounts > 0
    ensures var first, p := FirstAccount(w, accounts, chat, s, tick), PlayMedia(w, accounts, chat, s, tick);
            first < accounts && InOrder(first, 0, p.tries) && Ends(accounts, first, 0, p.tries, p.end)
  {
    PlayMediaIsReference(w, accounts, chat, s, tick);
    var first := FirstAccount(w, accounts, chat, s, tick);
    ReferenceInOrder(w, accounts, chat, first, 0, tick + 1);
    ReferenceEnds(w, accounts, chat, first, 0, tick + 1);
  }

  /**
   Rotation is ordered and bounded: no account is attempted more than twice, and then in succession, so at most
   twice the number of accounts in all; the assigned account comes first and the others follow in ascending order
   without a gap; after a fatal or unknown error, or a success, nothing more is attempted.
   */
  lemma RotationOrdered(w: World, accounts: nat, chat: int, s: Store, tick: nat)
    requires accounts > 0
    ensures var first := FirstAccount(w, accounts, chat, s, tick);
            var tries := PlayMedia(w, accounts, chat, s, tick).tries;
            && 1 <= |tries| <= 2 * accounts && tries[0].index == first && InOrder(first, 0, tries)
            && (forall a, b :: 0 <= a < b < |tries| ==> Rank(first, tries[a].index) <= Rank(first, tries[b].index))
            && (forall a, b :: 0 <= a < b < |tries| && tries[a].index == tries[b].index ==> b == a + 1)
            && (forall k :: 0 <= k < |tries| - 1 ==> tries[k].outcome in {RetryOnce, Rotate})
  {
    PlayMediaShape(w, accounts, chat, s, tick);
    OrderFacts(FirstAccount(w, accounts, chat, s, tick), PlayMedia(w, accounts, chat, s, tick).tries);
  }

  lemma OrderFacts(first: nat, tries: seq<Try>)
    requires tries != [] && InOrder(first, 0, tries)
    ensures tries[0].index == first
    ensures forall a, b :: 0 <= a < b < |tries| ==> Rank(first, tries[a].index) <= Rank(first, tries[b].index)
    ensures forall a, b :: 0 <= a < b < |tries| && tries[a].index == tries[b].index ==> b == a + 1
    ensures forall k :: 0 <= k < |tries| - 1 ==> tries[k].outcome in {RetryOnce, Rotate}
  {
    forall a, b | 0 <= a < b < |tries|
      ensures Rank(first, tries[a].index) <= Rank(first, tries[b].index)
      ensures tries[a].index == tries[b].index ==> b == a + 1
    {
      RanksAscend(first, 0, tries, a, b);
    }
    forall k | 0 <= k < |tries| - 1
      ensures tries[k].outcome in {RetryOnce, Rotate}
    {
      assert Follows(first, tries, k);
    }
  }

  /**
   Rotation is complete: a stream is reported exactly when some attempt succeeded, and by the account of that
   attempt; every assistant is reported as tried exactly when every account's last attempt was a rotate error.  Only
   a fatal first attempt gives the user-facing message, and any other failure is that of the last attempt.
   */
  lemma RotationComplete(w: World, accounts: nat, chat: int, s: Store, tick: nat)
    requires accounts > 0
    ensures var p := PlayMedia(w, accounts, chat, s, tick);
            && (p.end.Started? <==> exists k :: 0 <= k < |p.tries| && p.tries[k].outcome == Ok)
            && (p.end.Started? ==> p.end.index < accounts && Try(p.end.index, Ok) in p.tries)
            && (p.end.Exhausted? <==> forall i :: 0 <= i < accounts ==> LastWith(p.tries, i) == Some(Rotate))
            && p.tries != []
            && (p.end.FatalMessage? <==> p.tries[0].outcome == Fatal)
            && (p.end.Failed? ==> p.end.kind == p.tries[|p.tries| - 1].outcome && p.end.kind !in {Ok, Rotate})
            && !p.end.NoAccount?
  {
    PlayMediaShape(w, accounts, chat, s, tick);
    var p := PlayMedia(w, accounts, chat, s, tick);
    CompleteFacts(FirstAccount(w, accounts, chat, s, tick), accounts, p.tries, p.end);
  }

  lemma CompleteFacts(first: nat, accounts: nat, tries: seq<Try>, end: End)
    requires 0 < accounts && InOrder(first, 0, tries) && Ends(accounts, first, 0, tries, end)
    ensures end.Started? <==> exists k :: 0 <= k < |tries| && tries[k].outcome == Ok
    ensures end.Started? ==> end.index < accounts && Try(end.index, Ok) in tries
    ensures end.Exhausted? <==> forall i :: 0 <= i < accounts ==> LastWith(tries, i) == Some(Rotate)
    ensures tries != [] && !end.NoAccount?
    ensures end.FatalMessage? <==> tries[0].outcome == Fatal
    ensures end.Failed? ==> end.kind == tries[|tries| - 1].outcome && end.kind !in {Ok, Rotate}
  {
    OrderFacts(first, tries);
    var last := |tries| - 1;
    LastWithAt(tries, last);
    assert Try(tries[last].index, tries[last].outcome) in tries;
    if end.Exhausted? {
      ExhaustedMeansAllRotated(first, accounts, tries);
    }
  }

  /** In a group the attempts are answered by the voice chat, one after the other from the tick after the lookup. */
  lemma {:induction false} ReferenceAnswers(w: World, accounts: nat, chat: int, first: nat, j: nat, tick: nat, k: nat)
    requires chat <= 0
    ensures var tries := Reference(w, accounts, chat, first, j, tick).0;
            k < |tries| ==> tries[k].outcome == w.attempt(tick + k)
    decreases accounts - j
  {
    if j < accounts {
      var o := Answer(w, chat, tick);
      if o.Rotate? && k >= 1 {
        ReferenceAnswers(w, accounts, chat, first, j + 1, tick + 1, k - 1);
      } else if o.RetryOnce? && Answer(w, chat, tick + 1).Rotate? && k >= 2 {
        ReferenceAnswers(w, accounts, chat, first, j + 1, tick + 2, k - 2);
      }
    }
  }

  lemma AnswersInTurn(w: World, accounts: nat, chat: int, s: Store, tick: nat, k: nat)
    requires chat <= 0 && k < |PlayMedia(w, accounts, chat, s, tick).tries|
    ensures PlayMedia(w, accounts, chat, s, tick).tries[k].outcome == w.attempt(tick + 1 + k)
  {
    PlayMediaIsReference(w, accounts, chat, s, tick);
    ReferenceAnswers(w, accounts, chat, FirstAccount(w, accounts, chat, s, tick), 0, tick + 1, k);
  }

  /** A private chat is refused once, by whichever account serves it; without accounts nothing is tried at all. */
  lemma PrivateChatRefused(w: World, accounts: nat, chat: int, s: Store, tick: nat)
    ensures accounts == 0 ==>
              var p := PlayMedia(w, 0, chat, s, tick); p.end == NoAccount && p.tries == [] && p.store == s
    ensures accounts > 0 && chat > 0 ==>
              var p := PlayMedia(w, accounts, chat, s, tick);
              p.end == Failed(Unknown) && p.tries == [Try(FirstAccount(w, accounts, chat, s, tick), Unknown)]
  {
  }

  // ----- what is recorded -----

  /** Was some account evicted? */
  ghost predicate Evicts(tries: seq<Try>) {
    exists k :: 0 <= k < |tries| && tries[k].outcome == Rotate
  }

  /**
   The assignments that a run leaves, when the account lookup has left `looked`: the streaming account after a start,
   no assignment of the chat once an account was evicted, and otherwise those.  Other chats keep theirs.
   */
  ghost predicate Leaves(chat: int, looked: map<int, Doc>, p: Played) {
    && Coherent(p.store)
    && p.store.docs ==
       if p.end.Started? then looked[chat := Some(p.end.index)]
       else if Evicts(p.tries) then looked - {chat}
       else looked
  }

  lemma {:induction false} RotationLeaves(
    w: World, accounts: nat, chat: int, s: Store, tick: nat, tried: set<nat>, tries: seq<Try>)
    requires Coherent(s) && chat !in s.docs
    ensures var p := RotateAndPlay(w, accounts, chat, s, tick, tried, tries);
            && Coherent(p.store) && tries <= p.tries
            && p.store.docs == if p.end.Started? then s.docs[chat := Some(p.end.index)] else s.docs
    decreases |Untried(accounts, tried)|
  {
    var next := NextUntried(accounts, tried, 0);
    if next.Some? {
      var i, o := next.value, Answer(w, chat, tick);
      OneFewer(accounts, tried, i);
      var s' := RemoveAssistant(s, chat);
      assert s'.docs == s.docs;
      var tries1 := tries + [Try(i, o)];
      if o.Rotate? {
        RotationLeaves(w, accounts, chat, s', tick + 1, tried + {i}, tries1);
      } else if o.RetryOnce? && Answer(w, chat, tick + 1).Rotate? {
        RotationLeaves(w, accounts, chat, s', tick + 2, tried + {i}, tries1 + [Try(i, Rotate)]);
      }
    }
  }

  lemma FirstLeaves(w: World, accounts: nat, chat: int, s: Store, tick: nat, i: nat)
    requires Coherent(s)
    ensures var p := PlayFirst(w, accounts, chat, s, tick, i);
            Leaves(chat, s.docs, p) && p.tries != [] && p.tries[0].index == i
  {
    var o := Answer(w, chat, tick);
    var s', p := RemoveAssistant(s, chat), PlayFirst(w, accounts, chat, s, tick, i);
    if o.Rotate? {
      RotationLeaves(w, accounts, chat, s', tick + 1, {i}, [Try(i, o)]);
      assert p.tries[0] == [Try(i, o)][0];
    } else if o.RetryOnce? && Answer(w, chat, tick + 1).Rotate? {
      RotationLeaves(w, accounts, chat, s', tick + 2, {i}, [Try(i, o), Try(i, Rotate)]);
      assert p.tries[0] == [Try(i, o), Try(i, Rotate)][0];
      assert p.tries[1] == [Try(i, o), Try(i, Rotate)][1];
    }
  }

  /** Nothing is stored for a real chat. */
  predicate Open(docs: map<int, Doc>, chat: int) {
    chat != 0 && (chat !in docs || docs[chat] == Some(-1))
  }

  /**
   What is stored after a run, in every case: after a started stream, the streaming account; after a failure that
   evicted an account, nothing; after any other failure what was stored before, or the first account tried if nothing
   was stored for a real chat.  No other chat's assignment changes.
   */
  lemma WinnerRecorded(w: World, accounts: nat, chat: int, s: Store, tick: nat)
    requires Coherent(s)
    ensures var p := PlayMedia(w, accounts, chat, s, tick);
            && Coherent(p.store)
            && (p.tries == [] <==> accounts == 0)
            && p.store.docs ==
               if p.end.Started? then s.docs[chat := Some(p.end.index)]
               else if Evicts(p.tries) then s.docs - {chat}
               else if p.tries != [] && Open(s.docs, chat) then s.docs[chat := Some(p.tries[0].index)]
               else s.docs
  {
    var (account, s1) := GetAccount(s, accounts, chat, w.draw(tick), w.now(tick));
    GetAccountKeepsCoherent(s, accounts, chat, w.draw(tick), w.now(tick));
    if account.Some? {
      AccountChoice(s, accounts, chat, w.draw(tick), w.now(tick));
      FirstLeaves(w, accounts, chat, s1, tick + 1, account.value);
    }
  }

  /**
   Control follows the streamer: after account i has started the stream, every later account lookup gives i,
   through any reads, races, expiries and evictions and at any time, until the assignment is set, removed, cleared
   or replaced by a restore.
   */
  lemma ControlFollowsStreamer(
    w: World, accounts: nat, chat: int, s: Store, tick: nat, ops: seq<Op>, draw: Option<nat>, now: int)
    requires Coherent(s) && PlayMedia(w, accounts, chat, s, tick).end.Started?
    requires forall op :: op in ops ==> !Reassigns(op, chat) && !op.Restore?
    ensures var p := PlayMedia(w, accounts, chat, s, tick);
            GetAccount(Run(p.store, ops), accounts, chat, draw, now).0 == Some(p.end.index)
  {
    var p := PlayMedia(w, accounts, chat, s, tick);
    WinnerRecorded(w, accounts, chat, s, tick);
    RotationComplete(w, accounts, chat, s, tick);
    AssignmentStays(p.store, ops, chat, p.end.index);
  }
}
