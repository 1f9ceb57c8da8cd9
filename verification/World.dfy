/**
 What the program cannot decide itself, as functions of a counter that moves on with every consultation: Telegram,
 the downloader, the voice-chat library, the clock and the random generator.
 */
module World {
  import opened Wrappers

  // The classes of a group-call error; Ok is a stream that started.
  datatype Outcome = Ok | Fatal | RetryOnce | Rotate | Unknown

  // A track proposed by a YouTube mix; an entry without an id is possible in the raw answer.
  datatype MixTrack = MixTrack(id: string, duration: int)

  datatype World = World(
    sends: nat -> bool,                        // does the status message go out?
    download: nat -> (string, bool),           // the path, and whether an error came with it
    mix: nat -> Option<seq<MixTrack>>,         // None for an error or a nil answer
    shuffle: nat -> nat,                       // which candidate the shuffle puts first
    attempt: nat -> Outcome,                   // joining the chat and starting the stream
    draw: nat -> Option<nat>,                  // a random number
    now: nat -> int)
}
