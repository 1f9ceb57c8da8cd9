/** The cached administrator lists (internal/cache/admins.go). */
module Admins {
  import opened Wrappers
  import opened TtlCache

  const TTL := 3_600_000_000_000  // one hour in nanoseconds

  datatype Sender = User(userId: int) | Chat(chatId: int) | Unknown

  datatype Status = Administrator(rights: int) | Creator | Plain

  datatype Member = Member(sender: Sender, status: Status)

  function MemberID(m: Member): Option<int> {
    match m.sender
    case User(id) => Some(id)
    case Chat(id) => Some(id)
    case Unknown => None
  }

  predicate IsAdministrator(m: Member) {
    m.status.Administrator? || m.status.Creator?
  }

  /** Creators and administrators count as such, plain members do not; users and chats have identifiers. */
  lemma MemberMeaning(sender: Sender, rights: int, id: int)
    ensures IsAdministrator(Member(sender, Creator)) && IsAdministrator(Member(sender, Administrator(rights)))
    ensures !IsAdministrator(Member(sender, Plain))
    ensures MemberID(Member(User(id), Plain)) == Some(id) && MemberID(Member(Chat(id), Plain)) == Some(id)
    ensures MemberID(Member(Unknown, Plain)) == None
  {
  }

  // ----- what one update makes of a list -----

  /** The first position of an identifier; the length if there is none. */
  function Find(ms: seq<Member>, id: int): (i: nat)
    ensures i <= |ms| && (i < |ms| ==> MemberID(ms[i]) == Some(id))
    ensures forall k :: 0 <= k < i ==> MemberID(ms[k]) != Some(id)
  {
    if ms == [] || MemberID(ms[0]) == Some(id) then 0 else
    var i := Find(ms[1..], id);
    assert forall k :: 0 < k < i + 1 ==> ms[k] == ms[1..][k - 1];
    i + 1
  }

  /** Is there anything to store? */
  predicate Changes(ms: seq<Member>, m: Member) {
    MemberID(m).Some? && (IsAdministrator(m) || Find(ms, MemberID(m).value) < |ms|)
  }

  function Updated(ms: seq<Member>, m: Member): seq<Member> {
    if !Changes(ms, m) then ms else
    var i := Find(ms, MemberID(m).value);
    if i == |ms| then ms + [m]
    else if IsAdministrator(m) then ms[..i] + [m] + ms[i + 1..]
    else ms[..i] + ms[i + 1..]
  }

  // ----- what that means -----

  predicate DistinctIDs(ms: seq<Member>) {
    forall i, j :: 0 <= i < j < |ms| && MemberID(ms[i]).Some? ==> MemberID(ms[i]) != MemberID(ms[j])
  }

  /** The list as a map from identifiers. */
  function AsMap(ms: seq<Member>): map<int, Member> {
    if ms == [] then map[] else
    var rest, id := AsMap(ms[..|ms| - 1]), MemberID(ms[|ms| - 1]);
    if id.Some? then rest[id.value := ms[|ms| - 1]] else rest
  }

  /** The members other than `id`, in order. */
  function Others(ms: seq<Member>, id: int): seq<Member> {
    if ms == [] then [] else
    var rest, last := Others(ms[..|ms| - 1], id), ms[|ms| - 1];
    if MemberID(last) == Some(id) then rest else rest + [last]
  }

  lemma {:induction false} InMap(ms: seq<Member>, id: int)
    requires DistinctIDs(ms)
    ensures id in AsMap(ms) <==> Find(ms, id) < |ms|
    ensures Find(ms, id) < |ms| ==> AsMap(ms)[id] == ms[Find(ms, id)]
    decreases |ms|
  {
    if ms != [] {
      var n := |ms| - 1;
      InMap(ms[..n], id);
      FindSnoc(ms[..n], ms[n], id);
      assert ms[..n] + [ms[n]] == ms;
    }
  }

  lemma FindSnoc(ms: seq<Member>, m: Member, id: int)
    ensures Find(ms + [m], id) == if Find(ms, id) < |ms| || MemberID(m) == Some(id) then Find(ms, id) else |ms| + 1
  {
    var i, k := Find(ms, id), Find(ms + [m], id);
    assert forall j :: 0 <= j < |ms| ==> (ms + [m])[j] == ms[j];
    if i < k {
      assert MemberID((ms + [m])[i]) != Some(id);
    }
  }

  lemma {:induction false} OthersAppend(a: seq<Member>, b: seq<Member>, id: int)
    ensures Others(a + b, id) == Others(a, id) + Others(b, id)
    decreases |b|
  {
    if b == [] {
      assert a + b == a;
    } else {
      var n := |b| - 1;
      OthersAppend(a, b[..n], id);
      assert (a + b)[..|a + b| - 1] == a + b[..n];
    }
  }

  lemma OthersOne(m: Member, id: int)
    ensures Others([m], id) == if MemberID(m) == Some(id) then [] else [m]
  {
    assert [m][..0] == [];
  }

  /** An update keeps every other member, in order, whatever the list. */
  lemma OthersStay(ms: seq<Member>, m: Member)
    requires MemberID(m).Some?
    ensures Others(Updated(ms, m), MemberID(m).value) == Others(ms, MemberID(m).value)
  {
    var id := MemberID(m).value;
    var i := Find(ms, id);
    OthersOne(m, id);
    if Changes(ms, m) {
      if i == |ms| {
        OthersAppend(ms, [m], id);
      } else {
        OthersOne(ms[i], id);
        assert ms == ms[..i] + [ms[i]] + ms[i + 1..];
        OthersAppend(ms[..i] + [ms[i]], ms[i + 1..], id);
        OthersAppend(ms[..i], [ms[i]], id);
        OthersAppend(ms[..i] + [m], ms[i + 1..], id);
        OthersAppend(ms[..i], [m], id);
        OthersAppend(ms[..i], ms[i + 1..], id);
      }
    }
  }

  lemma UpdatedDistinct(ms: seq<Member>, m: Member)
    requires DistinctIDs(ms)
    ensures DistinctIDs(Updated(ms, m))
  {
  }

  /** The updated member is found afterwards exactly when an administrator. */
  lemma FoundSelf(ms: seq<Member>, m: Member)
    requires DistinctIDs(ms) && MemberID(m).Some?
    ensures var us := Updated(ms, m);
            var k := Find(us, MemberID(m).value);
            (k < |us| <==> IsAdministrator(m)) && (k < |us| ==> us[k] == m)
  {
    var us, at := Updated(ms, m), Find(ms, MemberID(m).value);
    UpdatedDistinct(ms, m);
    if IsAdministrator(m) {
      assert us[at] == m;
    }
  }

  /** Every other member is found afterwards exactly as before. */
  lemma FoundOther(ms: seq<Member>, m: Member, id: int)
    requires DistinctIDs(ms) && MemberID(m).Some? && MemberID(m) != Some(id)
    ensures var us := Updated(ms, m);
            var i, k := Find(ms, id), Find(us, id);
            (k < |us| <==> i < |ms|) && (k < |us| ==> us[k] == ms[i])
  {
    var us := Updated(ms, m);
    var at, i, k := Find(ms, MemberID(m).value), Find(ms, id), Find(us, id);
    UpdatedDistinct(ms, m);
    if i < |ms| {
      var j := if IsAdministrator(m) || i < at then i else i - 1;
      assert us[j] == ms[i];
    }
    if k < |us| {
      var j := if IsAdministrator(m) || k < at then k else k + 1;
      assert us[k] == ms[j];
    }
  }

  /** On a list of distinct identifiers, an update is an insertion into or a deletion from the map. */
  lemma UpdateIsMapUpdate(ms: seq<Member>, m: Member)
    requires DistinctIDs(ms)
    ensures DistinctIDs(Updated(ms, m))
    ensures AsMap(Updated(ms, m)) ==
            if MemberID(m).None? then AsMap(ms)
            else if IsAdministrator(m) then AsMap(ms)[MemberID(m).value := m]
            else AsMap(ms) - {MemberID(m).value}
  {
    UpdatedDistinct(ms, m);
    if MemberID(m).Some? {
      forall id
        ensures var us := Updated(ms, m);
                (id in AsMap(us) <==> if MemberID(m) == Some(id) then IsAdministrator(m) else id in AsMap(ms)) &&
                (id in AsMap(us) ==> AsMap(us)[id] == if MemberID(m) == Some(id) then m else AsMap(ms)[id])
      {
        if MemberID(m) == Some(id) {
          FoundSelf(ms, m);
        } else {
          FoundOther(ms, m, id);
        }
        InMap(ms, id);
        InMap(Updated(ms, m), id);
      }
    }
  }

  function UpdatedAll(ms: seq<Member>, us: seq<Member>): seq<Member>
    decreases |us|
  {
    if us == [] then ms else Updated(UpdatedAll(ms, us[..|us| - 1]), us[|us| - 1])
  }

  /** The last word on an identifier in a series of updates; None if it is not mentioned. */
  function LastWord(us: seq<Member>, id: int): Option<Member> {
    if us == [] then None
    else if MemberID(us[|us| - 1]) == Some(id) then Some(us[|us| - 1])
    else LastWord(us[..|us| - 1], id)
  }

  /** After any series of updates each identifier is as its last update says, and otherwise as it was. */
  lemma {:induction false} LastUpdateDecides(ms: seq<Member>, us: seq<Member>, id: int)
    requires DistinctIDs(ms)
    ensures DistinctIDs(UpdatedAll(ms, us))
    ensures var before, after, word := AsMap(ms), AsMap(UpdatedAll(ms, us)), LastWord(us, id);
            if word.None? then (id in after <==> id in before) && (id in after ==> after[id] == before[id])
            else (id in after <==> IsAdministrator(word.value)) && (id in after ==> after[id] == word.value)
    decreases |us|
  {
    if us != [] {
      var n := |us| - 1;
      LastUpdateDecides(ms, us[..n], id);
      UpdateIsMapUpdate(UpdatedAll(ms, us[..n]), us[n]);
    }
  }

  /** On any list, a member who is no longer an administrator is gone exactly when he was not listed twice. */
  lemma DemotionRemovesExactlyWhen(ms: seq<Member>, m: Member)
    requires MemberID(m).Some? && !IsAdministrator(m)
    ensures var id := MemberID(m).value;
            Find(Updated(ms, m), id) == |Updated(ms, m)| <==>
            forall i, j :: 0 <= i < j < |ms| && MemberID(ms[i]) == Some(id) ==> MemberID(ms[j]) != Some(id)
  {
    var id, us := MemberID(m).value, Updated(ms, m);
    var at, k := Find(ms, id), Find(us, id);
    if k < |us| {
      assert us[k] == ms[if k < at then k else k + 1];
      assert MemberID(ms[at]) == Some(id) && MemberID(ms[k + 1]) == Some(id);
    } else {
      forall i, j | 0 <= i < j < |ms| && MemberID(ms[i]) == Some(id)
        ensures MemberID(ms[j]) != Some(id)
      {
        assert at <= i;
        assert us[j - 1] == ms[j];
      }
    }
  }

  // ----- the cache -----

  method Replaced(ms: array<Member>, i: nat, m: Member) returns (r: array<Member>)
    requires i < ms.Length
    ensures fresh(r) && r[..] == ms[..i] + [m] + ms[i + 1..]
  {
    r := new Member[ms.Length](k requires 0 <= k < ms.Length reads ms => ms[k]);
    r[i] := m;
  }

  method Dropped(ms: array<Member>, i: nat) returns (r: array<Member>)
    requires i < ms.Length
    ensures fresh(r) && r[..] == ms[..i] + ms[i + 1..]
  {
    r := new Member[ms.Length - 1](k requires 0 <= k < ms.Length - 1 reads ms => ms[if k < i then k else k + 1]);
  }

  method Extended(ms: array<Member>, m: Member) returns (r: array<Member>)
    ensures fresh(r) && r[..] == ms[..] + [m]
  {
    var n := ms.Length;
    r := new Member[n + 1](k requires 0 <= k < n + 1 reads ms => if k < n then ms[k] else m);
  }

  class AdminCache {
    const lists: Cache<int, array<Member>>
    ghost var handed: map<array<Member>, seq<Member>>  // the lists handed out, as they were when handed out

    /** Every list ever handed out still reads as it did then. */
    ghost predicate Valid()
      reads this, handed.Keys
    {
      lists.ttl == TTL && forall a :: a in handed ==> a[..] == handed[a]
    }

    constructor ()
      ensures Valid() && fresh(lists) && lists.data == map[] && handed == map[]
    {
      lists := new Cache<int, array<Member>>(TTL);
      handed := map[];
    }

    /** `fetched` is the answer to the search, or None when it fails. */
    method GetAdmins(chatID: int, forceReload: bool, fetched: Option<seq<Member>>, now: int)
      returns (admins: array?<Member>)
      requires Valid()
      modifies lists, this`handed
      ensures Valid()
      ensures var hit := if forceReload then None else Lookup(old(lists.data), chatID, now);
              var data := if forceReload then old(lists.data) else Reap(old(lists.data), chatID, now);
              if hit.Some? then admins == hit.value && lists.data == data
              else if fetched.None? then admins == null && lists.data == data
              else admins != null && fresh(admins) && admins[..] == fetched.value &&
                   lists.data == data[chatID := Item(admins, now + TTL)]
      ensures handed == if admins == null then old(handed) else old(handed)[admins := admins[..]]
    {
      if !forceReload {
        var cached := lists.Get(chatID, now);
        if cached.Some? {
          handed := handed[cached.value := cached.value[..]];
          return cached.value;
        }
      }
      if fetched.None? {
        return null;
      }
      var list := new Member[|fetched.value|](i requires 0 <= i < |fetched.value| => fetched.value[i]);
      lists.Set(chatID, list, now);
      handed := handed[list := list[..]];
      admins := list;
    }

    method ClearAdminCache(chatID: int)
      requires Valid()
      modifies lists
      ensures Valid()
      ensures lists.data == if chatID == 0 then map[] else old(lists.data) - {chatID}
    {
      if chatID == 0 {
        lists.Clear();
        return;
      }
      lists.Delete(chatID);
    }

    /** The changed list is a new one; the lists handed out are not written. */
    method UpdateAdminCache(chatID: int, member: Option<Member>, now: int)
      requires Valid()
      modifies lists
      ensures Valid()
      ensures var hit := Lookup(old(lists.data), chatID, now);
              if member.None? then lists.data == old(lists.data)
              else if hit.None? then lists.data == Reap(old(lists.data), chatID, now)
              else
                var before := old(hit.value[..]);
                if !Changes(before, member.value) then lists.data == old(lists.data)
                else
                  && chatID in lists.data && fresh(lists.data[chatID].value)
                  && lists.data[chatID].value[..] == Updated(before, member.value)
                  && lists.data == old(lists.data)[chatID := Item(lists.data[chatID].value, now + TTL)]
    {
      if member.None? {
        return;
      }
      var cached := lists.Get(chatID, now);
      if cached.None? {
        return;
      }
      var admins, m := cached.value, member.value;
      var userID := MemberID(m);
      if userID.None? {
        return;
      }
      var n := admins.Length;
      ghost var at := Find(admins[..], userID.value);
      for i := 0 to n
        invariant i <= at && lists.data == old(lists.data)
      {
        if MemberID(admins[i]) != userID {
          continue;
        }
        assert i == at;
        var updated;
        if IsAdministrator(m) {
          updated := Replaced(admins, i, m);
        } else {
          updated := Dropped(admins, i);
        }
        lists.Set(chatID, updated, now);
        return;
      }
      if IsAdministrator(m) {
        var updated := Extended(admins, m);
        lists.Set(chatID, updated, now);
      }
    }

    /** The first record of an administrator. */
    method FindAdmin(admins: array<Member>, userID: int) returns (r: Option<Member>)
      ensures var i := Find(admins[..], userID);
              r == if i < admins.Length then Some(admins[i]) else None
    {
      for i := 0 to admins.Length
        invariant i <= Find(admins[..], userID)
      {
        if MemberID(admins[i]) == Some(userID) {
          return Some(admins[i]);
        }
      }
      return None;
    }
  }
}
