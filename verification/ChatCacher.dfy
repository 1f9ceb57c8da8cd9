/**
 The per-chat music cache as the program runs it: each chat owns a queue kept as a slice, that is
 a window `off .. off + len` into a backing array, which the operations shift and overwrite in
 place.  Every method is tied to the value-level operation of `Chats` on that chat, all other chats
 being unchanged.
 */
module ChatCacher {
  import opened Wrappers
  import opened Chats

  class VCData {
    ghost const chatID: int
    var buf: array<Slot>
    var off: nat
    var len: nat
    var autoplay: bool
    var history: seq<string>
    ghost var queue: seq<Slot>  // what the window holds

    ghost predicate Valid()
      reads this, buf
    {
      && off + len <= buf.Length
      && |queue| == len
      && forall k :: 0 <= k < len ==> queue[k] == buf[off + k]
    }

    ghost function View(): Chat
      reads this
    {
      Chat(queue, autoplay, history)
    }

    constructor (ghost chatID: int)
      ensures Valid() && fresh(buf) && View() == EMPTY && this.chatID == chatID
    {
      this.chatID := chatID;
      buf := new Slot[0];
      off, len, autoplay, history, queue := 0, 0, false, [], [];
    }

    /** The slice's capacity covers `n` more elements, if need be in a larger backing array. */
    method Reserve(n: nat)
      requires Valid()
      modifies this
      ensures Valid() && off + len + n <= buf.Length && (buf == old(buf) || fresh(buf))
      ensures View() == old(View())
    {
      if buf.Length - off - len < n {
        var bigger := new Slot[2 * (len + n)](_ => None);
        forall i | 0 <= i < len {
          bigger[i] := buf[off + i];
        }
        buf, off := bigger, 0;
      }
    }

    method WriteBeyond(songs: seq<Slot>)
      requires Valid() && off + len + |songs| <= buf.Length
      modifies buf
      ensures Valid() && forall k :: off + len <= k < off + len + |songs| ==> buf[k] == songs[k - off - len]
    {
      forall i | 0 <= i < |songs| {
        buf[off + len + i] := songs[i];
      }
    }

    /** append(queue, songs...), with the history dropped when `forget`. */
    method Append(songs: seq<Slot>, forget: bool)
      requires Valid()
      modifies this, buf
      ensures Valid() && (buf == old(buf) || fresh(buf))
      ensures View() == Chat(old(queue) + songs, old(autoplay), if forget then [] else old(history))
    {
      Reserve(|songs|);
      WriteBeyond(songs);
      len, queue, history := len + |songs|, queue + songs, if forget then [] else history;
      assert forall k :: len - |songs| <= k < len ==> queue[k] == songs[k - (len - |songs|)];
    }

    /** copy(queue[dst:], queue[src:hi]): all elements move at once, so the ranges may overlap. */
    method Move(dst: nat, src: nat, hi: nat)
      requires Valid() && src <= hi <= len && dst + (hi - src) <= len
      modifies this`queue, buf
      ensures Valid()
      ensures queue == old(queue)[..dst] + old(queue)[src..hi] + old(queue)[dst + hi - src..]
    {
      forall i | 0 <= i < hi - src {
        buf[off + dst + i] := buf[off + src + i];
      }
      queue := queue[..dst] + queue[src..hi] + queue[dst + hi - src..];
    }

    method Write(k: nat, s: Slot)
      requires Valid() && k < len
      modifies this`queue, buf
      ensures Valid() && queue == old(queue)[k := s]
    {
      buf[off + k] := s;
      queue := queue[k := s];
    }

    method WriteTrack(k: nat, t: Track)
      requires Valid()
      modifies this`queue, buf
      ensures Valid() && Some(View()) == SetSlot(Some(old(View())), k, t)
    {
      if k < len && buf[off + k].Some? {
        Write(k, Some(t));
      }
    }

    method InsertNext(song: Slot)
      requires Valid()
      modifies this, buf
      ensures Valid() && (buf == old(buf) || fresh(buf))
      ensures View() == old(View()).(queue := Chats.InsertNext(old(queue), song))
    {
      if len == 0 {
        Append([song], false);
      } else {
        ghost var q := queue;
        Append([None], false);
        Move(2, 1, len - 1);
        assert queue == (q + [None])[..2] + q[1..];
        Write(1, song);
        assert queue == [q[0], song] + q[1..];
      }
    }

    method IndexFrom1(trackID: string) returns (index: nat)
      requires Valid() && len >= 1
      ensures index == FindFrom(queue, trackID, 1)
    {
      index := 1;
      while index < len && !Matches(buf[off + index], trackID)
        invariant 1 <= index <= len
        invariant FindFrom(queue, trackID, 1) == FindFrom(queue, trackID, index)
      {
        assert queue[index] == buf[off + index];
        index := index + 1;
      }
      assert index < len ==> queue[index] == buf[off + index];
    }

    method MoveNext(trackID: string) returns (moved: bool)
      requires Valid()
      modifies this`queue, buf
      ensures Valid()
      ensures queue == Chats.MoveNext(old(queue), trackID)
      ensures moved == (len >= 2 && FindFrom(old(queue), trackID, 1) < len)
    {
      if len < 2 {
        return false;
      }
      var index := IndexFrom1(trackID);
      if index == len {
        return false;
      }
      Rotate(index);
      return true;
    }

    method Rotate(index: nat)
      requires Valid() && 1 <= index < len
      modifies this`queue, buf
      ensures Valid()
      ensures queue == [old(queue)[0], old(queue)[index]] + old(queue)[1..index] + old(queue)[index + 1..]
    {
      ghost var q := queue;
      var track := buf[off + index];
      assert track == queue[index];
      Move(2, 1, index);
      Write(1, track);
    }

    method RemoveCurrentSong() returns (removed: Slot)
      requires Valid() && len > 0
      modifies this, buf
      ensures Valid() && buf == old(buf)
      ensures Some(View()) == Chats.RemoveCurrentSong(Some(old(View())))
      ensures removed == old(queue)[0]
    {
      removed := buf[off];
      if removed.Some? && removed.value.platform == YOUTUBE && removed.value.trackID != "" {
        if removed.value.trackID !in history {
          history := history + [removed.value.trackID];
        }
      }
      Write(0, None);
      off, len, queue := off + 1, len - 1, queue[1..];
      assert forall k :: 0 <= k < len ==> queue[k] == buf[(off - 1) + (k + 1)];
    }

    method RemoveAt(index: nat)
      requires Valid() && index < len
      modifies this, buf
      ensures Valid() && buf == old(buf)
      ensures View() == old(View()).(queue := Chats.RemoveAt(old(queue), index))
    {
      Move(index, index + 1, len);
      Write(len - 1, None);
      len, queue := len - 1, queue[..len - 1];
      assert queue == Chats.RemoveAt(old(queue), index);
    }
  }

  method ExtendHistory(history: seq<string>, trackIDs: seq<string>) returns (h: seq<string>)
    ensures h == RememberAll(history, trackIDs)
  {
    h := history;
    for i := 0 to |trackIDs|
      invariant RememberAll(h, trackIDs[i..]) == RememberAll(history, trackIDs)
    {
      var id := trackIDs[i];
      assert trackIDs[i..][1..] == trackIDs[i + 1..];
      if id == "" || id in h {
        continue;
      }
      h := h + [id];
    }
  }

  /**
   The data object is the one of chat `id`, holds `value`, and has its backing array to itself: objects and arrays
   belong to one chat each, so no two chats share any.
   */
  ghost predicate Holds(data: VCData, id: int, owner: map<array<Slot>, int>, value: Chat)
    reads data, data.buf
  {
    && data.chatID == id
    && data.buf in owner && owner[data.buf] == id
    && data.Valid() && data.View() == value
  }

  class ChatCacher {
    var chats: map<int, VCData>
    ghost var Repr: set<object>
    ghost var owner: map<array<Slot>, int>  // the chat that each backing array belongs to
    ghost var view: map<int, Chat>  // the chats' contents, as values

    ghost predicate Valid()
      reads this, Repr
    {
      && this !in Repr
      && view.Keys == chats.Keys
      && (forall id {:trigger chats[id]} :: id in chats ==> chats[id] in Repr && chats[id].buf in Repr)
      && (forall id {:trigger chats[id]} :: id in chats ==> Holds(chats[id], id, owner, view[id]))
    }

    constructor ()
      ensures Valid() && fresh(Repr) && view == map[]
    {
      chats, Repr, owner, view := map[], {}, map[], map[];
    }

    /** Brings the ghost fields up to date after the data of one chat has changed. */
    ghost method Note(chatID: int)
      requires this !in Repr && chats.Keys == view.Keys + {chatID}
      requires chats[chatID].Valid() && chats[chatID].chatID == chatID
      requires chats[chatID].buf in owner ==> owner[chats[chatID].buf] == chatID
      requires forall id :: id in chats ==> chats[id] in Repr && (id != chatID ==> chats[id].buf in Repr)
      requires forall id :: id in chats && id != chatID ==> Holds(chats[id], id, owner, view[id])
      modifies this`view, this`Repr, this`owner
      ensures Valid() && view == old(view)[chatID := chats[chatID].View()]
      ensures Repr == old(Repr) + {chats[chatID].buf}
    {
      var data := chats[chatID];
      view, Repr, owner := view[chatID := data.View()], Repr + {data.buf}, owner[data.buf := chatID];
    }

    method GetOrCreate(chatID: int)
      requires Valid()
      modifies this
      ensures Valid() && fresh(Repr - old(Repr)) && chatID in chats
      ensures view == old(view)[chatID := Base(At(old(view), chatID))]
    {
      if chatID !in chats {
        var data := new VCData(chatID);
        chats := chats[chatID := data];
        Repr := Repr + {data};
        Note(chatID);
      }
    }

    method Append(chatID: int, songs: seq<Slot>, forget: bool)
      requires Valid() && chatID in chats
      modifies this, Repr
      ensures Valid() && fresh(Repr - old(Repr)) && chatID in chats
      ensures var c := old(view)[chatID];
              view == old(view)[chatID := Chat(c.queue + songs, c.autoplay, if forget then [] else c.history)]
    {
      chats[chatID].Append(songs, forget);
      Note(chatID);
    }

    method InsertNext(chatID: int, song: Slot)
      requires Valid() && chatID in chats
      modifies this, Repr
      ensures Valid() && fresh(Repr - old(Repr)) && chatID in chats
      ensures view == old(view)[chatID := old(view)[chatID].(queue := Chats.InsertNext(old(view)[chatID].queue, song))]
    {
      chats[chatID].InsertNext(song);
      Note(chatID);
    }

    method Switch(chatID: int, autoplay: bool, history: seq<string>)
      requires Valid() && chatID in chats
      modifies this, Repr
      ensures Valid() && fresh(Repr - old(Repr)) && chatID in chats
      ensures view == old(view)[chatID := Chat(old(view)[chatID].queue, autoplay, history)]
    {
      chats[chatID].autoplay := autoplay;
      chats[chatID].history := history;
      Note(chatID);
    }

    method SwitchHistory(chatID: int, history: seq<string>)
      requires Valid() && chatID in chats
      modifies this, Repr
      ensures Valid() && fresh(Repr - old(Repr)) && chatID in chats
      ensures view == old(view)[chatID := old(view)[chatID].(history := history)]
    {
      Switch(chatID, chats[chatID].autoplay, history);
    }

    method AddSong(chatID: int, song: Slot) returns (n: nat)
      requires Valid()
      modifies this, Repr
      ensures Valid() && fresh(Repr - old(Repr))
      ensures view == Put(old(view), chatID, Chats.AddSong(At(old(view), chatID), song))
      ensures n == |view[chatID].queue|
    {
      GetOrCreate(chatID);
      Append(chatID, [song], song.Some? && song.value.user != AUTOPLAY_USER);
      n := chats[chatID].len;
    }

    method AddSongs(chatID: int, songs: seq<Slot>) returns (n: nat)
      requires Valid()
      modifies this, Repr
      ensures Valid() && fresh(Repr - old(Repr))
      ensures view == Put(old(view), chatID, Chats.AddSongs(At(old(view), chatID), songs))
      ensures n == |Base(At(view, chatID)).queue|
    {
      if songs == [] {
        n := GetQueueLength(chatID);
        PutAt(view, chatID);
        return;
      }
      GetOrCreate(chatID);
      Append(chatID, songs, false);
      n := chats[chatID].len;
    }

    method AddSongToFront(chatID: int, song: Slot) returns (n: nat)
      requires Valid()
      modifies this, Repr
      ensures Valid() && fresh(Repr - old(Repr))
      ensures view == Put(old(view), chatID, Chats.AddSongToFront(At(old(view), chatID), song))
      ensures n == |view[chatID].queue|
    {
      GetOrCreate(chatID);
      InsertNext(chatID, song);
      n := chats[chatID].len;
    }

    method MoveTrackToFront(chatID: int, trackID: string) returns (moved: bool)
      requires Valid()
      modifies this, Repr
      ensures Valid() && fresh(Repr - old(Repr))
      ensures view == Put(old(view), chatID, Chats.MoveTrackToFront(At(old(view), chatID), trackID))
      ensures var q := Base(At(old(view), chatID)).queue;
              moved == (|q| >= 2 && FindFrom(q, trackID, 1) < |q|)
    {
      moved := false;
      if chatID in chats {
        moved := chats[chatID].MoveNext(trackID);
        Note(chatID);
      }
    }

    method GetPlayingTrack(chatID: int) returns (s: Slot)
      requires Valid()
      ensures s == Playing(At(view, chatID))
    {
      if chatID !in chats || chats[chatID].len == 0 {
        return None;
      }
      return chats[chatID].buf[chats[chatID].off];
    }

    method RemoveCurrentSong(chatID: int) returns (removed: Slot)
      requires Valid()
      modifies this, Repr
      ensures Valid() && fresh(Repr - old(Repr))
      ensures view == Put(old(view), chatID, Chats.RemoveCurrentSong(At(old(view), chatID)))
      ensures removed == Playing(At(old(view), chatID))
    {
      if chatID !in chats || chats[chatID].len == 0 {
        return None;
      }
      removed := chats[chatID].RemoveCurrentSong();
      Note(chatID);
    }

    method RemoveTrack(chatID: int, index: int) returns (ok: bool)
      requires Valid()
      modifies this, Repr
      ensures Valid() && fresh(Repr - old(Repr))
      ensures view == Put(old(view), chatID, Chats.RemoveTrack(At(old(view), chatID), index))
      ensures ok == (0 <= index < |Base(At(old(view), chatID)).queue|)
    {
      if chatID !in chats || index < 0 || index >= chats[chatID].len {
        return false;
      }
      chats[chatID].RemoveAt(index);
      Note(chatID);
      return true;
    }

    method GetAutoplay(chatID: int) returns (state: bool)
      requires Valid()
      ensures state == Base(At(view, chatID)).autoplay
    {
      state := chatID in chats && chats[chatID].autoplay;
    }

    method SetAutoplay(chatID: int, state: bool)
      requires Valid()
      modifies this, Repr
      ensures Valid() && fresh(Repr - old(Repr))
      ensures view == Put(old(view), chatID, Chats.SetAutoplay(At(old(view), chatID), state))
    {
      GetOrCreate(chatID);
      Switch(chatID, state, if state then chats[chatID].history else []);
    }

    method GetAutoplayHistory(chatID: int) returns (h: seq<string>)
      requires Valid()
      ensures h == Base(At(view, chatID)).history
    {
      h := if chatID in chats then chats[chatID].history else [];
    }

    method AddAutoplayHistory(chatID: int, trackIDs: seq<string>)
      requires Valid()
      modifies this, Repr
      ensures Valid() && fresh(Repr - old(Repr))
      ensures view == Put(old(view), chatID, Chats.AddAutoplayHistory(At(old(view), chatID), trackIDs))
    {
      GetOrCreate(chatID);
      var history := ExtendHistory(chats[chatID].history, trackIDs);
      SwitchHistory(chatID, history);
    }

    method ClearAutoplayHistory(chatID: int)
      requires Valid()
      modifies this, Repr
      ensures Valid() && fresh(Repr - old(Repr))
      ensures view == Put(old(view), chatID, Chats.ClearAutoplayHistory(At(old(view), chatID)))
    {
      if chatID in chats {
        Switch(chatID, chats[chatID].autoplay, []);
      }
    }

    method GetLastAutoplayTrackID(chatID: int) returns (id: string)
      requires Valid()
      ensures id == LastHistory(At(view, chatID))
    {
      if chatID !in chats || chats[chatID].history == [] {
        return "";
      }
      return chats[chatID].history[|chats[chatID].history| - 1];
    }

    method ClearChat(chatID: int)
      requires Valid()
      modifies this
      ensures Valid() && Repr == old(Repr)
      ensures view == Put(old(view), chatID, None)
    {
      chats, view := chats - {chatID}, view - {chatID};
    }

    method GetQueueLength(chatID: int) returns (n: nat)
      requires Valid()
      ensures n == |Base(At(view, chatID)).queue|
    {
      n := if chatID in chats then chats[chatID].len else 0;
    }

    method GetLoopCount(chatID: int) returns (loop: int)
      requires Valid()
      ensures loop == LoopCount(At(view, chatID))
    {
      var s := GetPlayingTrack(chatID);
      loop := if s.Some? then s.value.loop else 0;
    }

    /** A read through the track pointer at position `k` of the queue. */
    method ReadTrack(chatID: int, k: nat) returns (s: Slot)
      requires Valid() && chatID in view && k < |view[chatID].queue|
      ensures s == view[chatID].queue[k]
    {
      s := chats[chatID].buf[chats[chatID].off + k];
    }

    /** A write through the track pointer at position `k` of the queue. */
    method WriteTrack(chatID: int, k: nat, t: Track)
      requires Valid()
      modifies this, Repr
      ensures Valid() && fresh(Repr - old(Repr))
      ensures view == Put(old(view), chatID, SetSlot(At(old(view), chatID), k, t))
    {
      if chatID in chats {
        chats[chatID].WriteTrack(k, t);
        Note(chatID);
      }
    }

    method SetLoopCount(chatID: int, loop: int) returns (ok: bool)
      requires Valid()
      modifies this, Repr
      ensures Valid() && fresh(Repr - old(Repr))
      ensures view == Put(old(view), chatID, Chats.SetLoopCount(At(old(view), chatID), loop))
      ensures ok == Playing(At(old(view), chatID)).Some?
    {
      var s := GetPlayingTrack(chatID);
      if s.None? {
        return false;
      }
      WriteTrack(chatID, 0, s.value.(loop := loop));
      return true;
    }

    /** A copy of the queue: later changes in place do not reach it. */
    method GetQueue(chatID: int) returns (queue: array<Slot>)
      requires Valid()
      ensures fresh(queue) && queue[..] == Base(At(view, chatID)).queue
    {
      if chatID !in chats {
        queue := new Slot[0];
        return;
      }
      var data := chats[chatID];
      queue := new Slot[data.len](_ => None);
      forall i | 0 <= i < data.len {
        queue[i] := data.buf[data.off + i];
      }
    }
  }
}
