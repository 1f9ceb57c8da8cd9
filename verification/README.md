# A verified model of a Telegram music bot

The bot plays music in Telegram voice chats. This project models its stateful core and proves what that core
promises. It models the following parts.

- **The queue of a chat** (`Chats`, `ChatCacher`). `Chats` gives every operation of the music cache as a function on
  one chat. `ChatCacher` carries the operations out in place, on array-backed slice windows, for a map of chats. Each
  method is tied to the function for its chat and leaves every other chat alone.
- **The playback driver** (`Playback`, `Sessions`, `Batches`, `TelegramCalls`). `PlayNext`, `playTrack` and
  `handleAutoplay` call each other. They terminate under the measure (room left in the autoplay history, loops left in
  the queue), lexicographically. `Sessions` states what holds over whole runs, `Batches` how a track or a batch starts.
  The class `TelegramCalls` runs the driver step by step on the shared in-place cache, refines these functions on its
  chat and leaves every other chat as it was.
- **Assistant accounts** (`Rotation`, `Assistants`, `AssistantDb`): retry once, evict, rotate, record the winner, over
  a document per chat behind a cache, with a conditional upsert.
- **The TTL cache, its janitor and the connection handshake** (`TtlCache`, `CacheInterleaving`, `Janitor`,
  `Handshake`). `TtlCache` is the cache used by one goroutine. `CacheInterleaving` takes each lock region and each
  clock reading of any number of goroutines as one step, and `Handshake` each map access and channel operation.
- **The remove command** (`RemoveCommand`), from parsed numbers and ranges to the queue that is left.
- **The search through a YouTube answer** (`JsonWalk`): an explicit stack against a recursive walk.
- **Backup and restore** (`Backup`): one text line per document, batches of 500 through a reused buffer.
- **Users and administrators** (`Users`, `UserDb`, `Admins`): a store behind a cache that is only weakly coherent, and
  lists that are replaced and never written once handed out.
- **Durations** (`Durations`): three parsers and a printer, with 32-bit and 64-bit wrap-around written out.

What the program cannot decide itself (Telegram, the downloader, the voice chat, clocks, random numbers, whether a
write succeeds) is a parameter: an oracle in `World`, or an argument of the operation.

## Statements that fail, and when they hold

These are promises that one would expect of the program. Each fails for some inputs, and a lemma says exactly when it
holds.

- A forced batch on an idle chat: its last track becomes the head and is dropped without being tried, and its first
  track starts with a repetition left. A batch starts properly exactly when it is not forced or has one track
  (`Batches.BatchStartsExactlyWhen`, `Batches.ForcedOnIdleLosesLast`).
- A chat that streams has a queue: not after a retry or a rotation, since every failed attempt clears the chat
  (`Playback.StreamKeepsChatExactlyWhen`, with an example in `StartedWithoutChat`).
- A download that gives no path is skipped: not when it gives no error either, for then the empty path is announced as
  skipped but goes on to be streamed (`Playback.StreamsEmptyPathExactlyWhen`, with an example in `StreamsEmptyPath`).
- The account of a chat is sticky: not when the stored index lies beyond the account list, for then every lookup
  draws again (`Assistants.StickyExactlyWhen`).
- `AssignAssistant` returns what is stored: unless it changes nothing and a stale live cache entry disagrees
  (`Assistants.AssignIsCompareAndSet`, with a run in `RestoreMisleadsAssign`).
- Cache reads are linearizable: a read fails to be exactly when the entry at its read lock has expired by its look at
  the clock, while the Sets in between never let the key lapse (`CacheInterleaving.LinearizesExactlyWhen`, with a run
  in `MissBesideLiveEntry`). It never fails when nobody writes the key meanwhile (`UnwrittenLinearizes`).
- A connection event reaches its call: exactly when no other call for the chat has begun or left since the call began
  (`Handshake.EventFindsCallExactlyWhen`, with a run in `OverlapLosesEvents`). One call at a time is always reached
  (`LoneCallIsFound`), and what reaches it is not lost (`EventNotLost`).
- A backup restores whole: exactly when every line is shorter than the 16 MiB that the scanner accepts
  (`Backup.RoundTripExactlyWhen`, and for all collections `DatabaseRoundTripExactlyWhen`). The reported number is the stored number unless an insert failed half-way
  (`Backup.ReportedExactlyWhen`).
- The cached user equals the stored one: `setUserFlag` breaks this exactly when the other flag is stored and no live
  entry is cached (`Users.SettingKeepsCoherentExactlyWhen`). The weaker invariant of `Users.Weak` suffices for the
  readers. It fails after a bulk write that failed but had reached cached users
  (`Users.HalfWrittenKeepsWeakExactlyWhen`). It would also fail if a single flag were cleared
  (`Users.ClearingKeepsWeakExactlyWhen`), which never happens: both callers of `setUserFlag` set a flag
  (internal/db/users.go:91-98).
- The remove command reports how many tracks went: exactly when the position just behind the queue was not asked for,
  which is accepted and counted but holds nothing (`RemoveCommand.ReportIsRightExactlyWhen`).
- A demoted administrator leaves the list: exactly when he was not listed twice
  (`Admins.DemotionRemovesExactlyWhen`).
- The duration parsers agree on digit groups: a group of 2^63 or more makes one of them give zero and another drop the
  group (`Durations.ParsersExactly`, `ParsersAgree`). Below 2^31 they always agree.
- The parsers invert the printer: exactly below one day. From a day on the printed days run into the hours, or cannot
  be read (`Durations.ParsersInvertPrinterExactlyWhen`).

Where comments and code disagree, the model follows the code. The comment at internal/db/backup.go:70-72 promises
that types round-trip exactly, but the code asks for the relaxed format (internal/db/backup.go:136). The codec's round
trip is therefore an assumption, `Backup.Inverse`.

## Model

| member | source | states |
|---|---|---|
| Chats.InsertNextMeaning | internal/cache/player_cache.go:76-95 | Inserting at the front conserves every entry, leaves the playing track at position 0, puts the new track at 1, and taking position 1 out again gives the old queue |
| Chats.MoveNextMeaning | internal/cache/player_cache.go:97-129 | Moving a track to the front conserves every entry and the playing track; the first match from position 1 on ends at position 1 and the others keep their order |
| Chats.FindFrom | internal/cache/player_cache.go:111-117 | The result is the first matching position at or after the start, or the length |
| Chats.RememberAllKeeps | internal/cache/player_cache.go:255-268 | Remembering keeps a history free of repeats and of empty ids, only appends, and holds exactly the old ids and the new non-empty ones |
| Chats.AddSongMeaning | internal/cache/player_cache.go:47-59 | A song goes to the end of the queue; a user's song empties the autoplay history, a nil entry or one that autoplay adds keeps it |
| Chats.AddSongsMeaning | internal/cache/player_cache.go:62-74 | A batch goes to the end and forgets nothing; an empty batch does not even create the chat |
| Chats.SetAutoplayMeaning | internal/cache/player_cache.go:223-235 | The switch has the given value, switching off empties the history, and the queue stays |
| Chats.ClearAutoplayHistoryMeaning | internal/cache/player_cache.go:271-279 | The history is empty afterwards; queue and switch stay, and no chat is created |
| Chats.RemoveAtMeaning | internal/cache/player_cache.go:185-202 | Each position before the deleted one stays and each behind it moves up by one; an index outside the queue deletes nothing |
| Chats.SetLoopCountMeaning | internal/cache/player_cache.go:329-340 | The loop count of the playing track, and nothing else of the chat, is written; without a playing track nothing is |
| ChatCacher.VCData.Append | internal/cache/player_cache.go:52 | Appending to the array-backed window leaves the old queue followed by the new songs, reallocating or not |
| ChatCacher.VCData.InsertNext | internal/cache/player_cache.go:85-92 | The three in-place steps leave the queue with the song inserted behind the head |
| ChatCacher.VCData.IndexFrom1 | internal/cache/player_cache.go:111-117 | The index of the first match from position 1 on |
| ChatCacher.VCData.MoveNext | internal/cache/player_cache.go:105-128 | The shifted window is the queue with the first match moved to position 1, and the answer tells whether there was one |
| ChatCacher.VCData.Rotate | internal/cache/player_cache.go:123-126 | The overlapping copy is exactly a rotation of positions 1 to index |
| ChatCacher.VCData.RemoveCurrentSong | internal/cache/player_cache.go:167-179 | The window loses its head in place; a YouTube head goes into the history once |
| ChatCacher.VCData.RemoveAt | internal/cache/player_cache.go:194-199 | The in-place shift deletes one position and nothing else |
| ChatCacher.ExtendHistory | internal/cache/player_cache.go:261-267 | The loop appends each new non-empty id once, as `Chats.RememberAll` says |
| ChatCacher.ChatCacher.GetOrCreate | internal/cache/player_cache.go:37-44 | The chat exists afterwards, empty if it is new; no other chat changes |
| ChatCacher.ChatCacher.AddSong | internal/cache/player_cache.go:47-59 | The chat is as `Chats.AddSong` says and every other chat is unchanged; the new length is returned |
| ChatCacher.ChatCacher.AddSongs | internal/cache/player_cache.go:62-74 | The same for a batch; an empty batch creates nothing |
| ChatCacher.ChatCacher.AddSongToFront | internal/cache/player_cache.go:79-95 | The same for insertion behind the playing track |
| ChatCacher.ChatCacher.MoveTrackToFront | internal/cache/player_cache.go:100-129 | The same for moving a track behind the playing track |
| ChatCacher.ChatCacher.GetPlayingTrack | internal/cache/player_cache.go:132-142 | The head of the queue, or nil |
| ChatCacher.ChatCacher.RemoveCurrentSong | internal/cache/player_cache.go:158-180 | The head is taken off and returned, the history follows; every other chat is unchanged |
| ChatCacher.ChatCacher.RemoveTrack | internal/cache/player_cache.go:185-202 | One position is deleted if it exists; the answer says whether |
| ChatCacher.ChatCacher.GetAutoplay | internal/cache/player_cache.go:214-220 | The switch of the chat, off without a chat |
| ChatCacher.ChatCacher.SetAutoplay | internal/cache/player_cache.go:223-235 | The switch is set; switching off empties the history; nothing else changes |
| ChatCacher.ChatCacher.GetAutoplayHistory | internal/cache/player_cache.go:238-250 | The history of the chat, empty without a chat |
| ChatCacher.ChatCacher.AddAutoplayHistory | internal/cache/player_cache.go:255-268 | Only the history changes, as `Chats.RememberAll` says |
| ChatCacher.ChatCacher.ClearAutoplayHistory | internal/cache/player_cache.go:271-279 | Only the history is emptied |
| ChatCacher.ChatCacher.GetLastAutoplayTrackID | internal/cache/player_cache.go:282-292 | The last id of the history, or the empty text |
| ChatCacher.ChatCacher.ClearChat | internal/cache/player_cache.go:295-300 | The chat is gone and every other chat is unchanged |
| ChatCacher.ChatCacher.GetQueueLength | internal/cache/player_cache.go:303-313 | The length of the queue, zero without a chat |
| ChatCacher.ChatCacher.GetLoopCount | internal/cache/player_cache.go:316-326 | The loop count of the head, zero without one |
| ChatCacher.ChatCacher.SetLoopCount | internal/cache/player_cache.go:329-340 | The loop count of the head, and only that, is written |
| ChatCacher.ChatCacher.ReadTrack | internal/calls/playback.go:192 | A read through the pointer to a queued track |
| ChatCacher.ChatCacher.WriteTrack | internal/calls/playback.go:197 | A write through the pointer to a queued track changes that position and nothing else |
| ChatCacher.ChatCacher.GetQueue | internal/cache/player_cache.go:343-356 | The list handed out is a new one with the contents of the queue |
| Playback.PlayNextBounded | internal/calls/playback.go:206-248 | PlayNext, playTrack and handleAutoplay terminate, and one PlayNext tries at most as many tracks as the loops in the queue and the room left in the history allow |
| Playback.ContinueBounded | internal/calls/playback.go:215-225 | The same bound once the current track has been taken off |
| Playback.PlayTrackBounded | internal/calls/playback.go:234-248 | The same bound from playTrack |
| Playback.AutoplayBounded | internal/calls/autoplay.go:16-64 | The same bound from handleAutoplay |
| Playback.AutoplaySessionShrinks | internal/calls/autoplay.go:47-63 | Each pick strictly uses up room in the history and appends one track |
| Playback.CandidatesMeaning | internal/calls/autoplay.go:30-37 | A track is a candidate exactly when it is in the mix, has an id, is not the last one and is not in the history |
| Playback.Pick | internal/calls/autoplay.go:30-47 | What is picked has an id, is not the last track and is not in the history |
| Playback.PickExactlyWhen | internal/calls/autoplay.go:23-47 | There is a pick if and only if the raw mix has an entry with an id that is neither the last one nor in the history, and it is an entry of the mix |
| Playback.AnyNewCanBePicked | internal/calls/autoplay.go:43-47 | For each such entry of the mix there is a shuffle that picks it |
| Playback.PicksExactlyWhen | internal/calls/playback.go:206-226 | PlayNext goes on behind the current track with a new entry of the raw mix, chosen, queued last and tried, if and only if nothing is left to play, autoplay is on, a track id is remembered, the history is below the limit and the mix has such an entry; if nothing is left and it does not, the chat ends |
| Playback.PlaysOn | internal/calls/playback.go:207-218 | While the current track loops or another one is behind it, autoplay picks nothing |
| Playback.AutoplayPicks | internal/calls/autoplay.go:16-64 | handleAutoplay picks, queues and tries if there is room in the history and something new, and ends the chat otherwise |
| Playback.HistoryAfterPopMeaning | internal/cache/player_cache.go:170-179 | Taking off a YouTube track with a new id appends the id to the history; anything else leaves the history |
| Playback.PopSessionIs | internal/cache/player_cache.go:158-180 | Taking off the current track leaves the rest of the queue, the switch and that history |
| Playback.PlayNextTriesFirst | internal/calls/playback.go:207-218 | A looping track is tried again with one repetition less; otherwise the track behind it is tried, the queue starting with it |
| Playback.PlayTrackMeaning | internal/calls/playback.go:234-248 | The four cases of playTrack: nothing more if its message does not go out; a known file is streamed; otherwise what the download gives is, unless it fails, in which case PlayNext follows |
| Playback.StopMeaning | internal/calls/call.go:700-721 | Stopping drops the chat and changes no assignment, except that looking up the account may assign one where none was stored |
| Playback.Fetch | internal/calls/playback.go:191-204 | The path is the one known or the one downloaded, only the path of the track is written, and it fails exactly when a download was needed and came with an error |
| Playback.StreamsEmptyPathExactlyWhen | internal/calls/playback.go:241-245 | playTrack attempts to stream an empty path if and only if its message went out, the track had no path, and the download gave none without an error |
| Playback.StreamsEmptyPath | internal/calls/playback.go:196-203 | Such a case: one track without a file on the queue, a download that gives nothing |
| Playback.NextStreamsLater | internal/calls/playback.go:206-226 | What PlayNext does first is never a stream, so a skipped track is not streamed |
| Playback.StreamKeepsChatExactlyWhen | internal/calls/playback.go:71-98 | A stream, started or not, leaves a cached chat in the cache, unchanged, if and only if it is a private chat, there is no account or the first attempt succeeds: every failed attempt in a group clears it |
| Playback.StartedWithoutChat | internal/calls/playback.go:125-129 | Such a stream without a chat: the first attempt fails, its retry starts |
| Playback.FirstTry | internal/calls/playback.go:106-115 | The first attempt of a stream is the first answer of the voice chat, and the only one if it succeeds |
| Sessions.RunKeeps | internal/cache/player_cache.go:158-279 | In every state of every run of commands, single tracks and batches included, the history has no repeats and no empty id, and the log of picks is sound |
| Sessions.AddingMeaning | internal/cache/player_cache.go:47-95 | The commands that add put tracks at the end of the queue or behind the playing one |
| Sessions.TakingMeaning | internal/cache/player_cache.go:158-202 | The commands that take out delete the position asked for or the head; the loop command sets the loop count of the playing track |
| Sessions.SwitchingMeaning | internal/cache/player_cache.go:223-300 | The autoplay command sets the switch, forgetting empties the history, and clearing and stopping drop the chat |
| Sessions.AutoplayNeverRepeats | internal/calls/autoplay.go:16-64 | Over any run from an empty chat: between drops of the history at most AutoPlayLimit picks, none of them picked or popped as a YouTube track before |
| Sessions.PickedOnceBetweenDrops | internal/calls/autoplay.go:31-48 | Between two events with the same id, the second a pick, the history was dropped |
| Batches.AcceptedMeaning | internal/bot/play.go:327-339 | A track is accepted exactly when it comes from the list and is within the duration limit |
| Batches.AcceptedInOrder | internal/bot/play.go:327-339 | The accepted tracks keep the order of the list; none is lost or doubled |
| Batches.InsertAllMeaning | internal/bot/play.go:355-357 | Front insertion in reverse puts the batch in order behind the head; on an empty queue the last track becomes the head |
| Batches.AddBatchLength | internal/bot/play.go:353-367 | The queue grows by exactly the batch |
| Batches.BatchStartsExactlyWhen | internal/bot/play.go:353-407 | A batch on an idle chat starts with its first track, queue exactly the batch and loop back at 0, if and only if it is not forced or has one track |
| Batches.ForcedOnIdleLosesLast | internal/bot/play.go:353-407 | What happens otherwise: the last track is dropped without being tried and the first starts with a repetition left |
| Batches.ForcedQueue | internal/bot/play.go:353-357 | A forced batch on a queue gives current, batch, rest |
| Batches.ForcedBatchSkipsTo | internal/bot/play.go:353-363 | Unless the current track loops, the first of a forced batch is tried next with the batch and the rest behind it |
| Batches.ForcedBatchWaits | internal/bot/play.go:353-363 | If the current track loops, it is tried again and the batch waits |
| Batches.ForcedTrackSkipsTo | internal/bot/play.go:418-429 | Unless the current track loops, a forced track is tried next, what was behind the current track following it |
| Batches.ForcedTrackWaits | internal/bot/play.go:418-429 | If the current track loops, it is tried again and the forced track waits behind it |
| Batches.BatchWaits | internal/bot/play.go:365-369 | An unforced batch on a chat that plays goes to the end of the queue; log, store, clock, switch, history and the playing track stay as they are |
| Batches.AddedTrackWaits | internal/bot/play.go:431-449 | An unforced track goes to the end and waits exactly when there was a queue; a user's track empties the history |
| Batches.ForcedTrackOnIdle | internal/bot/play.go:418-429 | A forced track on an idle chat becomes its queue and is to be played now |
| Batches.SingleOnIdle | internal/bot/play.go:272-312 | A single track on an idle chat: what is streamed is its file or its download, nothing exactly when the download fails; the track stays in the queue exactly when its first attempt started the stream |
| TelegramCalls.TelegramCalls.GetAccount | internal/calls/assistant.go:180-234 | The account, the store and the clock are as `Assistants.GetAccount` says |
| TelegramCalls.TelegramCalls.PlayMediaWithAssistant | internal/calls/playback.go:71-98 | One attempt; a failed attempt in a group takes the chat out of the shared cache and no other |
| TelegramCalls.TelegramCalls.TryAccount | internal/calls/playback.go:159-174 | One or two attempts with an account, the answer of the last, and what they leave of the shared cache |
| TelegramCalls.TelegramCalls.NextUntried | internal/calls/assistant.go:236-245 | The least untried index |
| TelegramCalls.TelegramCalls.RotateAndPlay | internal/calls/playback.go:150-189 | The loop over untried accounts has the end, the tries and the store of `Rotation.RotateAndPlay`, and leaves the cache as it was |
| TelegramCalls.TelegramCalls.PlayMedia | internal/calls/playback.go:100-141 | The end, the tries and the store of `Rotation.PlayMedia`; the cache loses this chat exactly if an attempt failed in a group, and no other |
| TelegramCalls.TelegramCalls.Stop | internal/calls/call.go:700-721 | Through the in-place cache: the session is that of `Playback.Stop` and every other chat is unchanged |
| TelegramCalls.TelegramCalls.TakeLoop | internal/calls/playback.go:207-213 | One repetition of the current track is used up in place, if there is one; every other chat is unchanged |
| TelegramCalls.TelegramCalls.Pop | internal/calls/playback.go:215 | The head is taken off in place as `Playback.PopSession` says; every other chat is unchanged |
| TelegramCalls.TelegramCalls.PlayNext | internal/calls/playback.go:206-226 | A whole driver run through the in-place cache refines `Playback.PlayNext` on this chat and leaves every other chat as it was |
| TelegramCalls.TelegramCalls.Continue | internal/calls/playback.go:215-225 | The same for the part after the current track has been taken off |
| TelegramCalls.TelegramCalls.MixTracks | internal/downloader/youtube_search.go:456-464 | Entries without an id are dropped, in order |
| TelegramCalls.TelegramCalls.FilterCandidates | internal/calls/autoplay.go:30-37 | The loop keeps exactly the candidates, in order |
| TelegramCalls.TelegramCalls.ChooseTrack | internal/calls/autoplay.go:23-47 | The pick of `Playback.Pick`: none for a failed or empty answer or without candidates |
| TelegramCalls.TelegramCalls.QueuePick | internal/calls/autoplay.go:47-62 | The pick is remembered and queued in place: the session of `Playback.AutoplaySession`, less room in the history, every other chat unchanged |
| TelegramCalls.TelegramCalls.HandleAutoplay | internal/calls/autoplay.go:16-64 | The run through the in-place cache refines `Playback.HandleAutoplay` on this chat and leaves every other chat as it was |
| TelegramCalls.TelegramCalls.EndAutoplay | internal/calls/autoplay.go:18-21 | At the limit the history is emptied in place and playback stops; every other chat is unchanged |
| TelegramCalls.TelegramCalls.PrepareTrackDownload | internal/calls/playback.go:191-204 | The write through the track pointer gives the session, the path and the failure of `Playback.Fetch`; every other chat is unchanged |
| TelegramCalls.TelegramCalls.Announce | internal/calls/playback.go:235-239 | The try is noted with the queue as the cache holds it; the answer is whether the message goes out |
| TelegramCalls.TelegramCalls.Stream | internal/calls/playback.go:245-248 | The attempt to stream a path gives the session of `Playback.StreamSession` and the end of `Rotation.PlayMedia`; every other chat is unchanged |
| TelegramCalls.TelegramCalls.PlayTrack | internal/calls/playback.go:234-248 | The run through the in-place cache refines `Playback.PlayTrack` on this chat and leaves every other chat as it was |
| TelegramCalls.TelegramCalls.Deliver | internal/calls/playback.go:241-248 | The same once the message is out |
| TelegramCalls.TelegramCalls.EnqueueTrack | internal/bot/play.go:418-449 | The length that the cache returns decides as the queue does: session and answer of `Batches.EnqueueTrack`; every other chat is unchanged |
| TelegramCalls.TelegramCalls.HandleSingleTrack | internal/bot/play.go:272-312 | The run through the in-place cache refines `Batches.PlaySingle` on this chat, nothing for a track that is too long; every other chat is unchanged |
| TelegramCalls.TelegramCalls.AcceptTracks | internal/bot/play.go:327-339 | The loop accepts the tracks of `Batches.Accepted`, in order |
| TelegramCalls.TelegramCalls.AddAllToFront | internal/bot/play.go:354-357 | The backward loop of in-place insertions adds the batch as `Batches.AddBatch` says; every other chat is unchanged |
| TelegramCalls.TelegramCalls.QueueBatch | internal/bot/play.go:353-367 | Either way of adding gives the queue of `Batches.AddBatch` and its length; every other chat is unchanged |
| TelegramCalls.TelegramCalls.StartBatch | internal/bot/play.go:369-372 | The loop count written through the pointer to the first track, then PlayNext; every other chat is unchanged |
| TelegramCalls.TelegramCalls.HandleMultipleTracks | internal/bot/play.go:314-407 | The run through the in-place cache refines `Batches.PlayBatch` on this chat for the accepted tracks and leaves every other chat as it was |
| Rotation.NextUntried | internal/calls/assistant.go:236-245 | The result is untried and every smaller index is tried; without one all are tried |
| Rotation.PlayMediaIsReference | internal/calls/playback.go:100-189 | Retry, eviction and rotation over a set of tried accounts do what a walk over the accounts in one fixed order does |
| Rotation.RotationIsReference | internal/calls/playback.go:150-189 | The same for the loop from any point of the order |
| Rotation.OneTurn | internal/calls/playback.go:151-187 | One turn of the loop is decided by the last answer of the account: record it, evict and go on, or stop |
| Rotation.RotationOrdered | internal/calls/playback.go:117-188 | At most two attempts an account, consecutive, at most 2N in all; the assigned account first, then ascending; nothing follows a success, a fatal or an unknown error |
| Rotation.RotationComplete | internal/calls/playback.go:100-189 | Playback starts exactly when some attempt succeeded, by the account of that attempt; it gives up on all accounts exactly when the last attempt of every account was a rotate error; the user-facing message is given exactly for a fatal first attempt, and any other failure is that of the last attempt |
| Rotation.WinnerRecorded | internal/calls/playback.go:111-148 | What is stored afterwards, in every case: the streaming account after a start; nothing after a failure with a rotate error; after any other failure what was stored before, or the first account tried if nothing was stored for a real chat; other chats keep their assignments |
| Rotation.RotationLeaves | internal/calls/playback.go:150-189 | The loop alone, entered with nothing stored: it leaves the streaming account stored, or nothing |
| Rotation.AnswersInTurn | internal/calls/playback.go:71-98 | In a group the attempts are the consecutive answers of the voice chat |
| Rotation.PrivateChatRefused | internal/calls/playback.go:72-74 | A private chat is refused after one try, which is not retried or rotated; without accounts nothing is tried |
| Rotation.ControlFollowsStreamer | internal/calls/assistant.go:180-218 | After account i has started the stream every account lookup gives i, whatever reads, races, expiries and evictions come between, until the assignment is set, removed, cleared or replaced |
| Assistants.RunKeepsCoherent | internal/db/assistant.go:22-114 | Over any run without a restore, every cached assignment is the stored one |
| Assistants.AssignIsCompareAndSet | internal/db/assistant.go:71-99 | In every state only an absent assignment or -1 is replaced; the returned value is the stored one exactly when the assignment changes or no live cache entry disagrees, and always in a coherent state |
| Assistants.RestoreMisleadsAssign | internal/db/assistant.go:71-99 | A run after which it returns another number than the stored one: a restore has replaced the document of a cached assignment |
| Assistants.AssignmentStays | internal/db/assistant.go:22-114 | An assignment outlives reads, races, expiries and evictions |
| Assistants.ReadIsCached | internal/db/assistant.go:22-44 | A stored assignment that is read is answered from the cache for the next 20 minutes |
| Assistants.SetIsStoredAndCached | internal/db/assistant.go:46-56 | An assignment that is set is stored and answered from the cache for 20 minutes |
| Assistants.AssignedIsCached | internal/db/assistant.go:71-99 | The same for an assignment that the conditional upsert makes |
| Assistants.AbsentIsNotCached | internal/db/assistant.go:22-44 | Without a document the answer is -1, which is not cached |
| Assistants.RemovedIsGone | internal/db/assistant.go:59-114 | What is removed, for one chat or for all, is gone from the collection and from the cache; removing one leaves the others |
| Assistants.GetAccount | internal/calls/assistant.go:180-218 | An index within the account list, none exactly without accounts, and the assigned one if it is valid |
| Assistants.AccountChoice | internal/calls/assistant.go:189-218 | In a coherent state: the stored account if valid, else the drawn one, else the first; recorded exactly when nothing was stored for a real chat |
| Assistants.GetAccountKeepsCoherent | internal/calls/assistant.go:180-218 | Looking up an account keeps the cache coherent |
| Assistants.StickyExactlyWhen | internal/calls/assistant.go:180-218 | Every later lookup gives the same account if and only if there is one account, or the stored index names one, or nothing was stored for a real chat |
| AssistantDb.AssistantDb.GetAssistant | internal/db/assistant.go:22-43 | The cached number, else the stored one, which is then cached; -1 without a document |
| AssistantDb.AssistantDb.SetAssistant | internal/db/assistant.go:46-56 | Store and cache are as `Assistants.SetAssistant` says |
| AssistantDb.AssistantDb.RemoveAssistant | internal/db/assistant.go:59-68 | Document and cache entry are gone |
| AssistantDb.AssistantDb.UpdateIfUnassigned | internal/db/assistant.go:75-88 | The conditional upsert: what it writes, how many documents it changes and when it collides |
| AssistantDb.AssistantDb.AssignAssistant | internal/db/assistant.go:71-99 | The number and the store of `Assistants.AssignAssistant` |
| AssistantDb.AssistantDb.ClearAllAssistants | internal/db/assistant.go:102-114 | Everything is gone, and the count is that of the documents |
| TtlCache.Cache.Get | internal/cache/cache.go:41-64 | The value if it is live; a stale entry is removed |
| TtlCache.Cache.Set | internal/cache/cache.go:67-69 | The entry is replaced, with the default lifetime |
| TtlCache.Cache.SetWithTTL | internal/cache/cache.go:72-79 | The entry is replaced, with the given lifetime |
| TtlCache.Cache.Delete | internal/cache/cache.go:82-86 | The entry is gone, the others stay |
| TtlCache.Cache.Clear | internal/cache/cache.go:89-93 | Nothing is left |
| TtlCache.Cache.EvictExpired | internal/cache/cache.go:108-131 | Collecting keys and deleting them after a second look leaves exactly the live entries |
| TtlCache.LookupMeaning | internal/cache/cache.go:41-64 | An entry is seen up to its last instant and not after it, and so is any other entry |
| TtlCache.ReapMeaning | internal/cache/cache.go:54-60 | A read removes the entry it found expired and no other |
| TtlCache.EvictionMeaning | internal/cache/cache.go:108-131 | The keys found are those of expired entries, and of them the ones still expired are removed, no others |
| CacheInterleaving.StepKeepsInv | internal/cache/cache.go:41-131 | Each lock region and each clock reading keeps: the map is the never-evicted map of last writes without some expired entries |
| CacheInterleaving.RunKeepsInv | internal/cache/cache.go:41-131 | The same over any interleaving |
| CacheInterleaving.EvictionInvisible | internal/cache/cache.go:108-131 | After any interleaving a read at any later time sees what a cache that never evicts would show |
| CacheInterleaving.NoLiveEntryDeleted | internal/cache/cache.go:51-131 | No step of a read or of an eviction deletes a live entry |
| CacheInterleaving.GetAnswersLastWrite | internal/cache/cache.go:41-64 | A finished read answers with the last write at its read lock, judged at its own clock reading |
| CacheInterleaving.AnswerAtLock | internal/cache/cache.go:41-64 | A hit is what a lookup at the read lock answers; a miss too, unless the entry was live there and expired by the clock reading of the read |
| CacheInterleaving.AnswerExactly | internal/cache/cache.go:41-64 | A read misses exactly when its key had no last write at the read lock, or one that had expired by its clock reading |
| CacheInterleaving.AlwaysLiveExactlyWhen | internal/cache/cache.go:41-131 | Over any steps a key has a live entry at every instant exactly when its last write does not lapse: no expiry is passed before the next Set, and no Delete or Clear comes |
| CacheInterleaving.LinearizesExactlyWhen | internal/cache/cache.go:41-64 | For any reachable state, thread and interleaving: a read agrees with no instant from its read lock to its end if and only if the entry at the lock had expired by its clock reading while the Sets in between never let the key lapse |
| CacheInterleaving.UnwrittenLinearizes | internal/cache/cache.go:41-64 | A read whose key nobody writes meanwhile does agree with an instant, and its answer is that of its clock reading, whatever is evicted |
| CacheInterleaving.MissBesideLiveEntry | internal/cache/cache.go:41-64 | From every initial state a run of six steps leads to a read that does not linearize |
| CacheInterleaving.SetThenGet | internal/cache/cache.go:41-80 | A Set and a whole Get some time later, alone: the value up to the last instant of its lifetime, and after it a miss that has removed the entry |
| CacheInterleaving.DeleteThenGet | internal/cache/cache.go:82-94 | After a Delete or a Clear a whole Get misses; Delete leaves the other keys |
| CacheInterleaving.EvictReapMeaning | internal/cache/cache.go:120-131 | The last region of an eviction: an entry whose key was found and that is expired is gone, one rewritten to live on stays |
| CacheInterleaving.EvictionAlone | internal/cache/cache.go:108-131 | A whole eviction with nothing in between leaves exactly the live entries |
| Janitor.RunIsSound | internal/cache/cache.go:191-220 | Over any registrations and unregistrations: running exactly when the list is non-empty, and exactly then one stop channel, the current one, is open |
| Janitor.NeverPanics | internal/cache/cache.go:191-220 | No channel is ever closed twice; the open channels number one or none |
| Janitor.RegisteredCount | internal/cache/cache.go:191-220 | How often a cache is on the list: once more for each registration, once less for each unregistration down to none; it is swept exactly while that is positive |
| Janitor.StepCount | internal/cache/cache.go:207-215 | The same for one operation |
| Janitor.StaysRegistered | internal/cache/cache.go:207-215 | Unregistering others never takes a cache off the list |
| Janitor.StepKeepsOrder | internal/cache/cache.go:191-220 | A cache registers behind all others, and neither registering nor unregistering disturbs the order of the others |
| Janitor.IndexOf | internal/cache/cache.go:210-211 | The first position of the cache, or the length |
| Janitor.Janitor.Register | internal/cache/cache.go:191-201 | The array-backed list and the channels are as `Janitor.Step` says |
| Janitor.Janitor.DeleteAt | internal/cache/cache.go:212 | The in-place append deletes one position |
| Janitor.Janitor.Find | internal/cache/cache.go:210-211 | The loop finds the first position of the cache |
| Janitor.Janitor.Unregister | internal/cache/cache.go:207-220 | The array-backed list and the channels are as `Janitor.Step` says |
| Janitor.Janitor.Snapshot | internal/cache/cache.go:174-175 | A new list with the registered caches |
| Janitor.TickThenUnregister | internal/cache/cache.go:169-180 | The snapshot of a tick still reads as it was after an in-place unregistration |
| Handshake.RunKeepsInv | internal/calls/call.go:65-75 | Over any interleaving of calls, callbacks and sends: entries belong to outstanding calls, every value put in a channel is the answer to its event, and what a call received is the first thing put in its own channel |
| Handshake.NilMeansConnectedFirst | internal/calls/call.go:153-162 | For every run: a call that received returns nil if and only if the first event put in its own channel was Connected, "connection failed" if and only if it was Closed or Failed, "connection timeout" if and only if it was Timeout; no other event is ever put; a call that received nothing returns an error |
| Handshake.ConnectingIsIgnored | internal/calls/call.go:638-640 | An event that is not terminal changes nothing |
| Handshake.ReceivesWhatIsHeld | internal/calls/call.go:153-156 | A waiting call takes the first thing put in its channel, if there is any |
| Handshake.ResultIsSettled | internal/calls/call.go:153-162 | What a call that is leaving will return never changes |
| Handshake.EndsWithoutEvent | internal/calls/call.go:95-162 | An early error, the timeout and a cancelled context end a call with that error, whatever happens afterwards |
| Handshake.EventFindsCallExactlyWhen | internal/calls/call.go:622-628 | In every reachable state a terminal event finds the channel of an outstanding call if and only if no other call for the chat has begun or left since it began |
| Handshake.FoundUnlessDisturbed | internal/calls/call.go:622-628 | The same by the history: after a call has begun, events find it if and only if no later step began or ended another call for the chat |
| Handshake.LoneCallIsFound | internal/calls/call.go:622-628 | Whatever happened before, a call that begins with none outstanding for its chat is found by every terminal event until it returns, as long as no other begins |
| Handshake.EventNotLost | internal/calls/call.go:642-645 | The answer to an event whose callback holds the channel stays there until the call stops waiting, and is what the call receives: nil for Connected, a failure for Closed and Failed, a timeout for Timeout |
| Handshake.CallbackCompletes | internal/calls/call.go:642-645 | A send completes whatever the channel holds and touches no call and no entry |
| Handshake.NoWaiterLeft | internal/calls/call.go:71-75 | Once all calls for a chat have returned no waiter entry is left, overlapping or not |
| Handshake.OverlapLosesEvents | internal/calls/call.go:68-74 | From the start, two overlapping calls: the first takes the entry of the second away, which is left the only one outstanding and reached by no event |
| Handshake.HistoryGrows | internal/calls/call.go:65-75 | A channel, once a call has it, only gains puts, and the call keeps its channel |
| RemoveCommand.OneByOneIsAtOnce | internal/bot/remove.go:96-102 | Removing positions one by one in descending order deletes them all at once |
| RemoveCommand.KeptWithout | internal/bot/remove.go:96-102 | Deleting the largest position first leaves the others in place |
| RemoveCommand.KeptCounts | internal/bot/remove.go:96-102 | As many tracks go as were asked for, and an unrequested position stays |
| RemoveCommand.KeptOrder | internal/bot/remove.go:96-102 | Each track that stays ends up behind exactly those that stay before it |
| RemoveCommand.AsksMeaning | internal/bot/remove.go:44-75 | A number asks for itself, a range for everything from end to end in either order, and what cannot be read for nothing |
| RemoveCommand.RequestedMeaning | internal/bot/remove.go:82-89 | The positions to remove are those asked for from 1 up to the length of the queue, so never the playing track |
| RemoveCommand.Expand | internal/bot/remove.go:44-75 | The expanded list holds a position of the queue exactly when some part asks for it |
| RemoveCommand.Count | internal/bot/remove.go:66-68 | Exactly the positions from start to end, none if start is greater |
| RemoveCommand.Distinct | internal/bot/remove.go:82-89 | Each position in range once, and no other |
| RemoveCommand.SortDescending | internal/bot/remove.go:96-98 | The same positions in strictly descending order |
| RemoveCommand.Positions | internal/bot/remove.go:45-98 | Exactly the requested positions, largest first |
| RemoveCommand.RemovePositions | internal/bot/remove.go:100-102 | The chat loses the positions in turn; nothing else changes |
| RemoveCommand.RemoveHandler | internal/bot/remove.go:33-102 | The queue is the old one restricted to the positions not asked for, in order, position 0 always staying; other chats and the autoplay state are unchanged |
| RemoveCommand.ReportIsRightExactlyWhen | internal/bot/remove.go:104-109 | The reported number is the number of tracks that went, if and only if the position just behind the queue was not asked for |
| JsonWalk.FollowPath | internal/downloader/youtube_search.go:646-668 | The loop reads what the recursive path reads, nil wherever the path breaks |
| JsonWalk.IsLiveNow | internal/downloader/youtube_search.go:336-351 | True exactly when some badge carries the live style |
| JsonWalk.ReadRenderer | internal/downloader/youtube_search.go:306-327 | One track for an eligible renderer, nothing for a live or incomplete one, as `JsonWalk.RendererYields` spells out |
| JsonWalk.RendererYields | internal/downloader/youtube_search.go:306-327 | A renderer with any texts at their places and any other fields yields nothing if it has a live badge or its id, title or length is empty, and otherwise one track with exactly that id, URL, title, thumbnail, duration, views and channel |
| JsonWalk.LiveYieldsNothing | internal/downloader/youtube_search.go:307-309 | A renderer with a live badge yields nothing, whatever else it holds |
| JsonWalk.LiveExactlyWhen | internal/downloader/youtube_search.go:336-351 | A renderer is live exactly when its badges are an array with an object that holds the live style |
| JsonWalk.PushItems | internal/downloader/youtube_search.go:301-303 | Pushed backwards, the items will be popped in order, before what was there |
| JsonWalk.PushFields | internal/downloader/youtube_search.go:329-331 | The children will be popped in some order of the keys, before what was there |
| JsonWalk.PushChildren | internal/downloader/youtube_search.go:299-332 | Replacing a node by its children keeps every completion a walk of the root, and the stack gets smaller in nodes |
| JsonWalk.WalkYieldsAll | internal/downloader/youtube_search.go:293-334 | Whatever order objects are walked in, the same tracks come out, as a multiset |
| JsonWalk.SomeWalk | internal/downloader/youtube_search.go:293-334 | Every node has a walk |
| JsonWalk.WalkSplit | internal/downloader/youtube_search.go:294-297 | Walking a list of nodes splits at any point into the walks of its parts |
| JsonWalk.LeadsItems | internal/downloader/youtube_search.go:300-303 | Replacing an array on the stack by its items keeps every completion a walk of the root |
| JsonWalk.LeadsFields | internal/downloader/youtube_search.go:329-331 | The same for an object and its children in any order |
| JsonWalk.LeadsYield | internal/downloader/youtube_search.go:305-328 | The same for a renderer and its track |
| JsonWalk.ParseResults | internal/downloader/youtube_search.go:293-334 | The explicit stack computes the first tracks of a recursive pre-order walk, as many as there is room for, array order respected; short of the limit it has every eligible renderer; it terminates |
| JsonWalk.LiveNotFound | internal/downloader/youtube_search.go:305-309 | The search of an object that holds a live renderer finds nothing |
| JsonWalk.WrappedYields | internal/downloader/youtube_search.go:305-328 | An object that holds a renderer yields what the renderer does and is walked no further |
| JsonWalk.ListFound | internal/downloader/youtube_search.go:293-334 | A list of renderers below a field: the search finds the tracks they yield, in order, as many as there is room for |
| Backup.ParsedDump | internal/db/backup.go:130-148 | Reading a dump back gives the documents up to the first whose line is too long |
| Backup.ParsedThen | internal/db/backup.go:236-256 | What follows a dump is read after its documents |
| Backup.RoundTripExactlyWhen | internal/db/backup.go:207-262 | Restoring a collection from its dump gives it back, with its count, if and only if every line is shorter than 16 MiB; otherwise the full batches before the first long line are stored and reported |
| Backup.BadLineKeepsFullBatches | internal/db/backup.go:242-245 | If reading fails after k documents, exactly those in full batches of 500 are stored and reported |
| Backup.ReportedExactlyWhen | internal/db/backup.go:219-262 | The reported number is the stored number unless a failing insert had taken documents; success exactly when all was read and no insert failed |
| Backup.OutcomeMeaning | internal/db/backup.go:219-262 | By the inserts of 500 documents each: success exactly when all was read and no insert refused; the first one refused leaves the batches before it and what it took, and the batches before it reported |
| Backup.LinesMeaning | internal/db/backup.go:219-240 | Empty lines are passed over, a carriage return before the newline is dropped, and the last line needs no newline |
| Backup.Load | internal/db/backup.go:219-262 | The scanning loop with its reused buffer has the contents, the count and the success of `Backup.Outcome` |
| Backup.ReadLine | internal/db/backup.go:234-245 | One line of the scanner: a document, an empty line, or the end of what can be read |
| Backup.InsertMany | internal/db/backup.go:222-232 | All documents of the batch, or on failure the first few |
| Backup.InsertLast | internal/db/backup.go:254-261 | The last flush completes the outcome |
| Backup.DatabaseRoundTripExactlyWhen | internal/db/backup.go:73-204 | Restoring an archive into any later state gives back every archived collection, leaves the others alone and reports the numbers of the backup, if and only if every document fits its line; the reports alone tell |
| Backup.RestoresEntry | internal/db/backup.go:188-191 | One entry more restores its collection whole, or reports a failure if a document does not fit |
| Backup.RestoreMeaning | internal/db/backup.go:166-217 | One more entry, whatever it holds: nothing if it is no collection, an empty report if the collection may not be dropped, and otherwise the collection holds exactly the stored documents and no other collection changes |
| Backup.TotalDocuments | internal/db/backup.go:46-52 | The sum over the report |
| Backup.TotalIsAllDocuments | internal/db/backup.go:46-52 | The total over the reports of a backup is the number of documents archived |
| Backup.Database.BackupOneCollection | internal/db/backup.go:116-154 | The text is the dump of all documents in order and the count is theirs |
| Backup.Database.BackupToZip | internal/db/backup.go:73-114 | One entry and one report for each collection |
| Backup.Database.RestoreOneCollection | internal/db/backup.go:207-262 | The collections and the report are those of `Backup.RestoreEntry` |
| Backup.Database.RestoreFromZip | internal/db/backup.go:166-205 | The collections and reports of all matching entries in order; an error exactly when none matches |
| Users.StepKeepsWeak | internal/db/users.go:32-194 | Each operation of the program keeps: a cached user is stored, and stored without flags if cached without flags |
| Users.RunKeepsWeak | internal/db/users.go:32-194 | The same over any sequential run |
| Users.ClearingKeepsWeakExactlyWhen | internal/db/users.go:61-88 | Clearing one flag keeps it if and only if the other flag is not hidden by the cache |
| Users.SettingKeepsCoherentExactlyWhen | internal/db/users.go:74-87 | Setting a flag leaves the cached user equal to the stored one if and only if their other flags agree |
| Users.HalfWrittenKeepsWeakExactlyWhen | internal/db/broadcast.go:114-124 | A bulk write that failed after reaching some users keeps it if and only if none of them is cached without flags |
| Users.AddUserActivates | internal/db/users.go:32-55 | A successful AddUser leaves the user stored and active, also when the cache made it skip the write; no other user is affected |
| Users.ExistsIsExact | internal/db/users.go:115-134 | Existence is answered exactly, from the cache or not |
| Users.StaysInactive | internal/db/users.go:32-194 | An inactive user stays inactive over any run that does not add him |
| Users.MarkedUntilReAdded | internal/db/broadcast.go:96-127 | After a successful bulk mark every listed user is inactive, uncached, and stays inactive until added again; the others are as before |
| Users.AddUserMeaning | internal/db/users.go:32-55 | A write by AddUser stores a user without flags and caches it for 20 minutes |
| Users.SetFlagMeaning | internal/db/users.go:61-88 | Exactly the given flag gets the given value, in the document and in the cached user; a failure changes nothing |
| Users.RemoveUserMeaning | internal/db/users.go:101-112 | A removed user is neither stored nor cached, every other user stays; a failure changes nothing |
| Users.IsUserExistMeaning | internal/db/users.go:115-134 | Asking changes no document, fails only without a cached user, and caches a stored one |
| Users.ListedMeaning | internal/db/users.go:137-194 | Reading many users changes no document and caches each user read, and no other, for 20 minutes |
| Users.MarkMeaning | internal/db/broadcast.go:108-127 | A bulk mark sets exactly its flag on the listed users that are stored, creates none and drops their cache entries |
| UserDb.UserDb.AddUser | internal/db/users.go:32-55 | The answer and the store of `Users.AddUser` |
| UserDb.UserDb.SetUserFlag | internal/db/users.go:61-88 | The answer and the store of `Users.SetFlag` |
| UserDb.UserDb.RemoveUser | internal/db/users.go:101-112 | The answer and the store of `Users.RemoveUser` |
| UserDb.UserDb.IsUserExist | internal/db/users.go:115-134 | The answer and the store of `Users.IsUserExist` |
| UserDb.UserDb.GetUsers | internal/db/users.go:137-194 | The list holds each matching user once and no other, and each document read is cached; a failing cursor has cached what it gave |
| UserDb.UserDb.UpdateMany | internal/db/broadcast.go:114-117 | The flag is set on the listed users that are stored, and on no other |
| UserDb.UserDb.BulkSetFlag | internal/db/broadcast.go:108-127 | Exactly the chunks written are marked and evicted; success exactly when that is all of them |
| UserDb.MarkMore | internal/db/broadcast.go:109-125 | Marking chunk after chunk is marking all of them at once |
| Admins.Find | internal/cache/admins.go:214-218 | The first position of an identifier, or the length |
| Admins.MemberMeaning | internal/cache/admins.go:43-72 | Creators and administrators count as administrators, plain members do not; users and chats have identifiers |
| Admins.Replaced | internal/cache/admins.go:221-223 | A new list with one position replaced |
| Admins.Dropped | internal/cache/admins.go:226-228 | A new list without one position |
| Admins.Extended | internal/cache/admins.go:236-238 | A new list with one member more |
| Admins.UpdateIsMapUpdate | internal/cache/admins.go:195-240 | On distinct identifiers an update is an insertion into or a deletion from the map by identifier, and keeps them distinct |
| Admins.OthersStay | internal/cache/admins.go:195-240 | On any list every other member stays, in order |
| Admins.FoundSelf | internal/cache/admins.go:214-240 | The updated member is found afterwards, with the new record, exactly when an administrator |
| Admins.FoundOther | internal/cache/admins.go:214-240 | Every other member is found afterwards exactly as before |
| Admins.LastUpdateDecides | internal/cache/admins.go:195-240 | After any series of updates each identifier is as its last update says, and otherwise as it was |
| Admins.DemotionRemovesExactlyWhen | internal/cache/admins.go:225-230 | On any list a demoted member is gone if and only if he was not listed twice |
| Admins.InMap | internal/cache/admins.go:139-143 | On distinct identifiers the map gives what a search from the front finds |
| Admins.AdminCache.GetAdmins | internal/cache/admins.go:95-124 | The cached list itself if live, else a new list that is cached; every list handed out before still reads as it did |
| Admins.AdminCache.ClearAdminCache | internal/cache/admins.go:186-193 | One entry or all entries are gone; the lists handed out are untouched |
| Admins.AdminCache.UpdateAdminCache | internal/cache/admins.go:195-241 | A changed list is a new one holding the update; without a change, or a live entry, nothing is stored; the lists handed out are untouched |
| Admins.AdminCache.FindAdmin | internal/cache/admins.go:139-143 | The first record with the identifier, or none, on any list |
| Durations.FromRightIs | internal/downloader/youtube_search.go:607-615 | Right to left with a wrapping 32-bit weight gives the true value, wrapped, for any numbers |
| Durations.Horner64Is | internal/downloader/youtube_search.go:617-628 | Left to right in 64 bits, cut to 32, gives the same |
| Durations.Horner32Is | internal/downloader/arcmusic.go:212-221 | Left to right in 32 bits gives the same |
| Durations.DigitsAre | internal/downloader/youtube_search.go:694-702 | Reading groups by their digits alone is right in the lower 32 bits of the value, however long the groups |
| Durations.Atoi | internal/downloader/youtube_search.go:694-702 | The digits of the text in 64 bits, cut to 32 |
| Durations.SkipsMeaning | internal/downloader/youtube_search.go:694-702 | A character that is no digit is passed over wherever it stands |
| Durations.ParseDuration | internal/downloader/youtube_search.go:607-615 | The backward loop computes `Durations.Duration` |
| Durations.ParseTimeToSeconds | internal/downloader/youtube_search.go:617-628 | The forward loop computes `Durations.Time`, zero if any group cannot be read |
| Durations.AtoiMeaning | internal/downloader/youtube_search.go:617-628 | A group is read with or without a sign exactly when it fits 64 bits; empty ones are not |
| Durations.AtoiRejects | internal/downloader/youtube_search.go:617-628 | A group with any other character is not read |
| Durations.TimeFrom | internal/downloader/youtube_search.go:618-627 | The loop for any way of reading a group: the folded numbers, or zero if some group cannot be read |
| Durations.DurationToSeconds | internal/downloader/arcmusic.go:212-221 | The forward loop computes `Durations.Arc` |
| Durations.ScanMeaning | internal/downloader/arcmusic.go:216-218 | A group is read past blanks and a sign up to the first character that is no digit; one beyond 64 bits gives zero |
| Durations.ParsersExactly | internal/downloader/youtube_search.go:607-628 | On every list of digit groups of any number and length: one parser gives the true value in 32 bits, one the same or zero if a group exceeds 63 bits, one the same with zero for each such group |
| Durations.ParsersAgree | internal/downloader/youtube_search.go:607-628 | The three agree whenever all groups fit 63 bits, hence give the true value whenever it is below 2^31; the first two agree on no other lists except where both give zero |
| Durations.BelowDay | internal/utils/durations.go:83-102 | The printed text of a duration below one day is a list of digit groups with that value |
| Durations.SecToMinMeaning | internal/utils/durations.go:83-102 | The text of any duration: days and hours are printed only from one day and one hour on, and everything behind the first number has two digits |
| Durations.DecMeaning | internal/utils/durations.go:83-102 | Numbers are printed with their value and without a leading zero |
| Durations.ParsersInvertPrinterExactlyWhen | internal/utils/durations.go:83-102 | Each of the three parsers inverts the printer on exactly the durations from 0 up to, but not including, one day |

## Left out

- Tracks are values, and a write through a track pointer is a write at its position in the queue. This is right as
  long as every enqueued track is a new object, as at internal/bot/play.go:278 and internal/bot/play.go:333.
- Two drivers on one chat at the same time: the code does not serialise them, and the model has one driver per chat.
- Database reads and writes of assignments succeed, and the list of accounts is fixed. A failing write of a user
  changes nothing, except in `Users.HalfWrittenKeepsWeakExactlyWhen`.
- The operations on assignments, users and administrators run one after the other. The code does not order a
  database read with the cache fill that follows it.
- The cache keys made by `toKey` and `adminCacheKey` are the identifiers themselves. A sequential cache operation
  reads the clock once.
- Restoring the database does not clear the caches (internal/db/backup.go:166-205). The runs over `Assistants` and
  `Users` exclude it, as it may leave stale entries behind.
- RemoveCommand.RemoveHandler: starts from numbers already read. The splitting of the argument text and the replies
  are not modelled, and the library sort is an insertion sort.
- TelegramCalls.TelegramCalls.Stop: leaving the call itself, and the played-time offset, are not modelled.
- TelegramCalls.TelegramCalls.PlayTrack: ends when the stream has started. The duration read from the file and the
  message with the player controls are not modelled.
- TelegramCalls.TelegramCalls.HandleSingleTrack: the check for a track that is queued already, the messages, and the
  duration read from a Telegram file are not modelled.
- TelegramCalls.TelegramCalls.PlayMedia: the goroutine that leaves other chats after `CHANNELS_TOO_MUCH`, the logger
  message and membership checks are not modelled; joining is part of the attempt.
- Backup.Database.BackupOneCollection: encoding, cursor and archive writing succeed. The bytes of the zip container
  and buffered partial output after a failure are not modelled.
- Admins.AdminCache.GetAdmins: member records are values; the program shares pointers to them.
- Durations.DurationToSeconds: the `Sscanf` of a group skips spaces and tabs before the number; other blanks of the
  library are not modelled.
- Backup.Database.BackupToZip: the order of the collections is the server's listing, an argument.
- The remaining getters of the music cache (`GetUpcomingTrack`, `IsActive`, `GetActiveChats`,
  `GetTrackIfExists`): single reads that would add only easy members.
- `parseLabelDuration`, the mappers of playlist entries, and normalising URLs: regular expressions and field copies.
- Error classification by substring: the error classes are the enumeration `World.Outcome`.
- In the handshake, the bodies of `connectCall` and `joinPresentation` before their select: any early error is one
  step. The list of presentations and the pending connections are not modelled.
- Broadcast scheduling, statistics, settings, permissions and message texts.
