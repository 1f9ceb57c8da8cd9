/** Backup and restore of the database (internal/db/backup.go): one text line per document, restored in batches. */
module Backup {
  import opened Wrappers

  const BATCH := 500
  const MAX_LINE := 16 * 1024 * 1024  // the scanner's buffer must hold a line and its newline

  // The extended-JSON library: one line per document.
  datatype Codec<!D> = Codec(encode: D -> string, decode: string -> Option<D>)

  // The server's answers: may a collection be dropped, and does its i-th insert fail after taking some documents?
  datatype Server = Server(drops: string -> bool, refuse: string -> nat -> Option<nat>)

  /** What is assumed of the codec: it round-trips, and a document is one non-empty line without a trailing return. */
  ghost predicate Inverse<D(!new)>(c: Codec<D>) {
    forall d :: c.decode(c.encode(d)) == Some(d) && OneLine(c.encode(d))
  }

  predicate OneLine(line: string) {
    line != "" && '\n' !in line && line[|line| - 1] != '\r'
  }

  // ----- the text of a collection -----

  function Dump<D>(docs: seq<D>, c: Codec<D>): string {
    if docs == [] then "" else c.encode(docs[0]) + "\n" + Dump(docs[1..], c)
  }

  /** bufio.ScanLines: where the first line ends. */
  function LineEnd(s: string): (n: nat)
    ensures n <= |s| && '\n' !in s[..n] && (n < |s| ==> s[n] == '\n')
  {
    if s == "" || s[0] == '\n' then 0 else
    var n := LineEnd(s[1..]);
    assert s[..n + 1] == [s[0]] + s[1..][..n];
    n + 1
  }

  function DropReturn(line: string): string {
    if line != "" && line[|line| - 1] == '\r' then line[..|line| - 1] else line
  }

  function FirstLine(s: string): string {
    DropReturn(s[..LineEnd(s)])
  }

  function AfterLine(s: string): (rest: string)
    requires s != ""
    ensures |rest| < |s|
  {
    if LineEnd(s) == |s| then "" else s[LineEnd(s) + 1..]
  }

  /** The documents that can be read before the text ends or a line fails, and whether the text was read to its end. */
  function Parsed<D>(s: string, decode: string -> Option<D>): (seq<D>, bool)
    decreases |s|
  {
    if s == "" then ([], true)
    else if LineEnd(s) >= MAX_LINE then ([], false)
    else if FirstLine(s) == "" then Parsed(AfterLine(s), decode)
    else
      var d := decode(FirstLine(s));
      if d.None? then ([], false) else
      var (more, clean) := Parsed(AfterLine(s), decode);
      ([d.value] + more, clean)
  }

  // ----- what a restore leaves -----

  function Flushes(read: nat, clean: bool): nat {
    if clean then (read + BATCH - 1) / BATCH else read / BATCH
  }

  /** The first of the inserts from `i` on that fails; `n` if none does. */
  function FirstRefused(refuse: nat -> Option<nat>, i: nat, n: nat): (r: nat)
    requires i <= n
    ensures i <= r <= n && (r < n ==> refuse(r).Some?) && forall k :: i <= k < r ==> refuse(k).None?
    decreases n - i
  {
    if i == n || refuse(i).Some? then i else FirstRefused(refuse, i + 1, n)
  }

  /** How many of `n` documents an insert takes. */
  function Taken(refused: Option<nat>, n: nat): (r: nat)
    ensures r <= n
  {
    if refused.Some? && refused.value < n then refused.value else n
  }

  /** The size of batch `i`. */
  function Size(read: nat, i: nat): nat {
    if (i + 1) * BATCH <= read then BATCH else if i * BATCH <= read then read - i * BATCH else 0
  }

  /**
   The documents stored, the number reported and whether it succeeded: everything after a clean reading, otherwise
   the full batches only; a failing insert stops it, having taken part of its batch.
   */
  function Outcome<D>(docs: seq<D>, clean: bool, refuse: nat -> Option<nat>): (seq<D>, nat, bool) {
    var n := Flushes(|docs|, clean);
    var i := FirstRefused(refuse, 0, n);
    if i < n then
      (docs[..i * BATCH + Taken(refuse(i), Size(|docs|, i))], i * BATCH, false)
    else if clean then (docs, |docs|, true)
    else (docs[..n * BATCH], n * BATCH, false)
  }

  // ----- one collection there and back -----

  lemma {:induction false} LineEndAt(line: string, rest: string)
    requires '\n' !in line
    ensures LineEnd(line + "\n" + rest) == |line|
  {
    if line == "" {
      assert (line + "\n" + rest)[0] == '\n';
    } else {
      LineEndAt(line[1..], rest);
      assert (line + "\n" + rest)[1..] == line[1..] + "\n" + rest;
    }
  }

  lemma ParsedLine<D>(line: string, rest: string, decode: string -> Option<D>, d: D)
    requires OneLine(line) && decode(line) == Some(d)
    ensures var (more, clean) := Parsed(rest, decode);
            Parsed(line + "\n" + rest, decode) == if |line| >= MAX_LINE then ([], false) else ([d] + more, clean)
  {
    var s := line + "\n" + rest;
    LineEndAt(line, rest);
    assert s[..|line|] == line && s[|line| + 1..] == rest;
    assert FirstLine(s) == line && AfterLine(s) == rest;
  }

  // The limit counts bytes, so a character of an encoded line stands for one byte.
  predicate Fits<D>(d: D, c: Codec<D>) {
    |c.encode(d)| < MAX_LINE
  }

  /** How many documents come before the first whose line is too long. */
  function Fitting<D>(docs: seq<D>, c: Codec<D>): (k: nat)
    ensures k <= |docs| && (k == |docs| <==> forall i :: 0 <= i < |docs| ==> Fits(docs[i], c))
  {
    if docs == [] || !Fits(docs[0], c) then 0 else
    assert forall i :: 0 <= i < |docs| - 1 ==> docs[1..][i] == docs[i + 1];
    1 + Fitting(docs[1..], c)
  }

  lemma ParsedFirst<D(!new)>(docs: seq<D>, c: Codec<D>)
    requires Inverse(c) && docs != []
    ensures var (more, clean) := Parsed(Dump(docs[1..], c), c.decode);
            Parsed(Dump(docs, c), c.decode) == if Fits(docs[0], c) then ([docs[0]] + more, clean) else ([], false)
  {
    ParsedLine(c.encode(docs[0]), Dump(docs[1..], c), c.decode, docs[0]);
  }

  lemma FittingFirst<D>(docs: seq<D>, c: Codec<D>)
    requires docs != [] && Fits(docs[0], c)
    ensures docs[..Fitting(docs, c)] == [docs[0]] + docs[1..][..Fitting(docs[1..], c)]
  {
  }

  /** Reading a dump back gives the documents up to the first whose line is too long. */
  lemma {:induction false} ParsedDump<D(!new)>(docs: seq<D>, c: Codec<D>)
    requires Inverse(c)
    ensures Parsed(Dump(docs, c), c.decode) == (docs[..Fitting(docs, c)], Fitting(docs, c) == |docs|)
  {
    if docs != [] {
      ParsedFirst(docs, c);
      if Fits(docs[0], c) {
        ParsedDump(docs[1..], c);
        FittingFirst(docs, c);
      }
    }
  }

  lemma {:induction false} NeverRefused(refuse: nat -> Option<nat>, i: nat, n: nat)
    requires i <= n && forall k: nat :: refuse(k) == None
    ensures FirstRefused(refuse, i, n) == n
    decreases n - i
  {
    if i < n {
      NeverRefused(refuse, i + 1, n);
    }
  }

  /** How many of `n` documents make up full batches of 500. */
  function InFull(n: nat): (m: nat)
    ensures m <= n < m + 500 && m % 500 == 0
  {
    n / BATCH * BATCH
  }

  /**
   Restoring a collection from its own dump gives it back whole exactly when every line is under the scanner's
   limit; otherwise the full batches before the first long line are stored, and reported.
   */
  lemma RoundTripExactlyWhen<D(!new)>(docs: seq<D>, c: Codec<D>, refuse: nat -> Option<nat>)
    requires Inverse(c) && forall k: nat :: refuse(k) == None
    ensures var (read, clean) := Parsed(Dump(docs, c), c.decode);
            var k := Fitting(docs, c);
            && (Outcome(read, clean, refuse) == (docs, |docs|, true) <==> forall d :: d in docs ==> Fits(d, c))
            && (k < |docs| ==> Outcome(read, clean, refuse) == (docs[..InFull(k)], InFull(k), false))
  {
    var k := Fitting(docs, c);
    ParsedDump(docs, c);
    NeverRefused(refuse, 0, Flushes(k, k == |docs|));
    if k == |docs| {
      assert docs[..k] == docs;
    } else {
      assert docs[..k][..InFull(k)] == docs[..InFull(k)];
    }
  }

  /** The number reported is the number stored, unless a failing insert had already taken documents of its batch. */
  lemma ReportedExactlyWhen<D>(docs: seq<D>, clean: bool, refuse: nat -> Option<nat>)
    ensures var (stored, reported, ok) := Outcome(docs, clean, refuse);
            var n := Flushes(|docs|, clean);
            var i := FirstRefused(refuse, 0, n);
            && (reported == |stored| <==> i == n || refuse(i) == Some(0))
            && reported <= |stored| && stored <= docs
            && (ok <==> clean && i == n)
  {
  }

  /** A line that cannot be decoded: what was read before it is stored in full batches only, and so reported. */
  lemma BadLineKeepsFullBatches<D(!new)>(docs: seq<D>, bad: string, rest: string, c: Codec<D>,
    refuse: nat -> Option<nat>)
    requires Inverse(c) && forall k: nat :: refuse(k) == None
    requires forall d :: d in docs ==> Fits(d, c)
    requires OneLine(bad) && c.decode(bad) == None
    ensures var (read, clean) := Parsed(Dump(docs, c) + (bad + "\n" + rest), c.decode);
            var k := InFull(|docs|);
            Outcome(read, clean, refuse) == (docs[..k], k, false)
  {
    ParsedBad(docs, bad + "\n" + rest, c) by {
      ParsedBadLine(bad, rest, c.decode);
    }
    NeverRefused(refuse, 0, Flushes(|docs|, false));
  }

  lemma ParsedBad<D(!new)>(docs: seq<D>, tail: string, c: Codec<D>)
    requires Inverse(c) && (forall d :: d in docs ==> Fits(d, c)) && Parsed(tail, c.decode) == ([], false)
    ensures Parsed(Dump(docs, c) + tail, c.decode) == (docs, false)
  {
    ParsedThen(docs, tail, c);
    assert docs + Parsed(tail, c.decode).0 == docs;
  }

  lemma ParsedBadLine<D>(bad: string, rest: string, decode: string -> Option<D>)
    requires OneLine(bad) && decode(bad) == None
    ensures Parsed(bad + "\n" + rest, decode) == ([], false)
  {
    var s := bad + "\n" + rest;
    LineEndAt(bad, rest);
    assert s[..|bad|] == bad;
  }

  lemma Regroup(line: string, more: string, last: string)
    ensures line + "\n" + more + last == line + "\n" + (more + last)
  {
  }

  lemma RegroupDocs<D>(docs: seq<D>, more: seq<D>)
    requires docs != []
    ensures [docs[0]] + (docs[1..] + more) == docs + more
  {
  }

  /** What comes after a dump is read after its documents. */
  lemma {:induction false} ParsedThen<D(!new)>(docs: seq<D>, tail: string, c: Codec<D>)
    requires Inverse(c) && forall d :: d in docs ==> Fits(d, c)
    ensures var (more, clean) := Parsed(tail, c.decode);
            Parsed(Dump(docs, c) + tail, c.decode) == (docs + more, clean)
  {
    if docs == [] {
      assert Dump(docs, c) + tail == tail;
      assert docs + Parsed(tail, c.decode).0 == Parsed(tail, c.decode).0;
    } else {
      var line, rest := c.encode(docs[0]), Dump(docs[1..], c);
      assert Fits(docs[0], c) && OneLine(line);
      ParsedThen(docs[1..], tail, c);
      Regroup(line, rest, tail);
      ParsedLine(line, rest + tail, c.decode, docs[0]);
      RegroupDocs(docs, Parsed(tail, c.decode).0);
    }
  }

  /**
   What is stored and reported, by the inserts of 500 documents each: the last one, after a clean reading only, may be
   shorter.  Success is a clean reading and no insert refused; the first one refused stops the rest.
   */
  lemma OutcomeMeaning<D>(docs: seq<D>, clean: bool, refuse: nat -> Option<nat>)
    ensures var (stored, reported, ok) := Outcome(docs, clean, refuse);
            && (ok <==> clean && forall k: nat :: k * 500 < |docs| ==> refuse(k).None?)
            && (ok ==> stored == docs && reported == |docs|)
            && forall i: nat ::
                 (if clean then i * 500 < |docs| else (i + 1) * 500 <= |docs|) && refuse(i).Some? &&
                 (forall k: nat :: k < i ==> refuse(k).None?) ==>
                   reported == i * 500 && stored == docs[..Least(i * 500 + refuse(i).value, (i + 1) * 500, |docs|)]
  {
    var n := Flushes(|docs|, clean);
    var r := FirstRefused(refuse, 0, n);
    forall k: nat
      ensures k < n <==> if clean then k * 500 < |docs| else (k + 1) * 500 <= |docs|
    {
      FlushAt(|docs|, clean, k);
    }
    forall i: nat | i < n && refuse(i).Some? && forall k: nat :: k < i ==> refuse(k).None?
      ensures i == r
    {
    }
  }

  function Least(a: nat, b: nat, c: nat): nat {
    if a <= b && a <= c then a else if b <= c then b else c
  }

  lemma FlushAt(read: nat, clean: bool, k: nat)
    ensures k < Flushes(read, clean) <==> if clean then k * 500 < read else (k + 1) * 500 <= read
  {
  }

  /** Empty lines are passed over, a return before the newline is dropped, and the last line needs no newline. */
  lemma LinesMeaning<D>(line: string, rest: string, decode: string -> Option<D>, d: D)
    requires OneLine(line) && |line| + 1 < 16_777_216 && decode(line) == Some(d)
    ensures Parsed("\n" + rest, decode) == Parsed(rest, decode) == Parsed("\r\n" + rest, decode)
    ensures Parsed(line + "\n" + rest, decode) == ([d] + Parsed(rest, decode).0, Parsed(rest, decode).1)
    ensures Parsed((line + "\r") + "\n" + rest, decode) == ([d] + Parsed(rest, decode).0, Parsed(rest, decode).1)
    ensures Parsed(line, decode) == ([d], true)
  {
    ParsedLine(line, rest, decode, d);
    BlankLines(rest, decode);
    ReturnLine(line, rest, decode, d);
    LastLine(line, decode, d);
  }

  lemma BlankLines<D>(rest: string, decode: string -> Option<D>)
    ensures Parsed("\n" + rest, decode) == Parsed(rest, decode) == Parsed("\r\n" + rest, decode)
  {
    LineEndAt("", rest);
    LineEndAt("\r", rest);
    assert "" + "\n" + rest == "\n" + rest && "\r" + "\n" + rest == "\r\n" + rest;
    assert ("\n" + rest)[1..] == rest && ("\r\n" + rest)[2..] == rest;
    assert ("\r\n" + rest)[..1] == "\r" && "\r"[..0] == "";
  }

  lemma ReturnLine<D>(line: string, rest: string, decode: string -> Option<D>, d: D)
    requires OneLine(line) && |line| + 1 < 16_777_216 && decode(line) == Some(d)
    ensures Parsed((line + "\r") + "\n" + rest, decode) == ([d] + Parsed(rest, decode).0, Parsed(rest, decode).1)
  {
    var s := (line + "\r") + "\n" + rest;
    LineEndAt(line + "\r", rest);
    assert s[..|line| + 1] == line + "\r" && (line + "\r")[..|line|] == line && s[|line| + 2..] == rest;
    assert FirstLine(s) == line && AfterLine(s) == rest;
  }

  lemma LastLine<D>(line: string, decode: string -> Option<D>, d: D)
    requires OneLine(line) && |line| < 16_777_216 && decode(line) == Some(d)
    ensures Parsed(line, decode) == ([d], true)
  {
    NoLineEnd(line);
    assert line[..|line|] == line;
    assert FirstLine(line) == line && AfterLine(line) == "" && Parsed("", decode).0 == [];
    assert [d] + [] == [d];
  }

  lemma {:induction false} NoLineEnd(line: string)
    requires '\n' !in line
    ensures LineEnd(line) == |line|
  {
    if line != "" {
      NoLineEnd(line[1..]);
    }
  }

  // ----- the database and its archive -----

  datatype Entry = Entry(name: string, content: string)

  datatype Report = Report(collection: string, documents: nat, ok: bool)

  const SUFFIX := ".jsonl"

  predicate HasSuffix(name: string) {
    |name| >= |SUFFIX| && name[|name| - |SUFFIX|..] == SUFFIX
  }

  function TrimSuffix(name: string): string
    requires HasSuffix(name)
  {
    name[..|name| - |SUFFIX|]
  }

  function At<D>(colls: map<string, seq<D>>, name: string): seq<D> {
    if name in colls then colls[name] else []
  }

  /** A dropped collection exists again once it holds a document. */
  function Put<D>(colls: map<string, seq<D>>, name: string, docs: seq<D>): map<string, seq<D>> {
    if docs == [] then colls - {name} else colls[name := docs]
  }

  function RestoreEntry<D>(colls: map<string, seq<D>>, name: string, content: string, c: Codec<D>, server: Server)
    : (map<string, seq<D>>, Report)
  {
    if !server.drops(name) then (colls, Report(name, 0, false)) else
    var (read, clean) := Parsed(content, c.decode);
    var (stored, reported, ok) := Outcome(read, clean, server.refuse(name));
    (Put(colls, name, stored), Report(name, reported, ok))
  }

  /** The entries in order; those that are not collections are passed over. */
  function RestoreAll<D>(colls: map<string, seq<D>>, zip: seq<Entry>, c: Codec<D>, server: Server)
    : (map<string, seq<D>>, seq<Report>)
    decreases |zip|
  {
    if zip == [] then (colls, []) else
    var n := |zip| - 1;
    var (before, reports) := RestoreAll(colls, zip[..n], c, server);
    if !HasSuffix(zip[n].name) then (before, reports) else
    var (after, report) := RestoreEntry(before, TrimSuffix(zip[n].name), zip[n].content, c, server);
    (after, reports + [report])
  }

  function Total(reports: seq<Report>): nat {
    if reports == [] then 0 else Total(reports[..|reports| - 1]) + reports[|reports| - 1].documents
  }

  method TotalDocuments(reports: seq<Report>) returns (total: nat)
    ensures total == Total(reports)
  {
    total := 0;
    for i := 0 to |reports|
      invariant total == Total(reports[..i])
    {
      assert reports[..i + 1][..i] == reports[..i];
      total := total + reports[i].documents;
    }
    assert reports[..|reports|] == reports;
  }

  // ----- the whole database there and back -----

  /** An archive of the collections `names` of `saved`, in that order. */
  function ArchiveOf<D>(saved: map<string, seq<D>>, names: seq<string>, c: Codec<D>): (seq<Entry>, seq<Report>)
    requires forall n :: n in names ==> n in saved
  {
    if names == [] then ([], []) else
    var k := |names| - 1;
    var (zip, reports) := ArchiveOf(saved, names[..k], c);
    (zip + [Entry(names[k] + SUFFIX, Dump(saved[names[k]], c))],
     reports + [Report(names[k], |saved[names[k]]|, true)])
  }

  ghost predicate Willing(server: Server) {
    && (forall name :: server.drops(name))
    && forall name, k: nat :: server.refuse(name)(k) == None
  }

  /** The step of `RestoreAll` on the dump of one more collection: all of it, or a failure is reported. */
  lemma RestoresEntry<D(!new)>(now: map<string, seq<D>>, zip: seq<Entry>, docs: seq<D>, name: string, c: Codec<D>,
    server: Server)
    requires Inverse(c) && Willing(server)
    ensures var (before, reports) := RestoreAll(now, zip, c, server);
            var (colls, again) := RestoreAll(now, zip + [Entry(name + SUFFIX, Dump(docs, c))], c, server);
            && |again| == |reports| + 1 && again[..|reports|] == reports
            && if forall d :: d in docs ==> Fits(d, c)
               then colls == Put(before, name, docs) && again[|reports|] == Report(name, |docs|, true)
               else !again[|reports|].ok
  {
    RoundTripExactlyWhen(docs, c, server.refuse(name));
    var entry := Entry(name + SUFFIX, Dump(docs, c));
    assert HasSuffix(entry.name) && TrimSuffix(entry.name) == name;
    assert (zip + [entry])[..|zip|] == zip;
    if !forall d :: d in docs ==> Fits(d, c) {
      assert Fitting(docs, c) < |docs|;
    }
  }

  /** The collections named are those of `saved`, the others those of `now`. */
  ghost predicate RestoredFrom<D>(colls: map<string, seq<D>>, saved: map<string, seq<D>>, names: seq<string>,
    now: map<string, seq<D>>)
    requires forall n :: n in names ==> n in saved
  {
    forall n :: At(colls, n) == if n in names then saved[n] else At(now, n)
  }

  lemma RestoredNext<D>(colls: map<string, seq<D>>, saved: map<string, seq<D>>, names: seq<string>,
    now: map<string, seq<D>>)
    requires names != [] && forall n :: n in names ==> n in saved
    requires RestoredFrom(colls, saved, names[..|names| - 1], now)
    ensures names[|names| - 1] in saved
    ensures RestoredFrom(Put(colls, names[|names| - 1], saved[names[|names| - 1]]), saved, names, now)
  {
    var last := names[|names| - 1];
    assert names == names[..|names| - 1] + [last];
    forall n
      ensures At(Put(colls, last, saved[last]), n) == if n in names then saved[n] else At(now, n)
    {
      if n != last {
        assert At(Put(colls, last, saved[last]), n) == At(colls, n);
      }
    }
  }

  ghost predicate AllFit<D>(saved: map<string, seq<D>>, names: seq<string>, c: Codec<D>)
    requires forall n :: n in names ==> n in saved
  {
    forall n, d :: n in names && d in saved[n] ==> Fits(d, c)
  }

  /**
   Restoring an archive into a database in any later state gives back every archived collection, leaves the others
   alone and reports what the backup did, if and only if every archived document fits its line; the reports alone
   tell.
   */
  lemma {:induction false} DatabaseRoundTripExactlyWhen<D(!new)>(saved: map<string, seq<D>>, names: seq<string>,
    now: map<string, seq<D>>, c: Codec<D>, server: Server)
    requires Inverse(c) && Willing(server) && forall n :: n in names ==> n in saved
    ensures var (zip, reports) := ArchiveOf(saved, names, c);
            var (colls, again) := RestoreAll(now, zip, c, server);
            && (again == reports <==> AllFit(saved, names, c))
            && (RestoredFrom(colls, saved, names, now) && again == reports <==> AllFit(saved, names, c))
            && |again| == |reports| == |names|
    decreases |names|
  {
    if names != [] {
      var k := |names| - 1;
      var init, name := names[..k], names[k];
      assert name in names && names == init + [name];
      DatabaseRoundTripExactlyWhen(saved, init, now, c, server);
      var (zip, reports) := ArchiveOf(saved, init, c);
      RestoresEntry(now, zip, saved[name], name, c, server);
      var again := RestoreAll(now, ArchiveOf(saved, names, c).0, c, server).1;
      SameReports(again, reports, Report(name, |saved[name]|, true));
      assert AllFit(saved, names, c) <==> AllFit(saved, init, c) && forall d :: d in saved[name] ==> Fits(d, c);
      if AllFit(saved, names, c) {
        RestoredNext(RestoreAll(now, zip, c, server).0, saved, names, now);
      }
    }
  }

  lemma SameReports(again: seq<Report>, reports: seq<Report>, last: Report)
    requires |again| == |reports| + 1
    ensures again == reports + [last] <==> again[..|reports|] == reports && again[|reports|] == last
  {
    assert again == again[..|reports|] + [again[|reports|]];
  }

  /**
   What one more entry of an archive does: nothing at all if it is no collection, an empty report and nothing else if
   the collection may not be dropped, and otherwise exactly the stored documents are what the collection holds.
   */
  lemma RestoreMeaning<D>(now: map<string, seq<D>>, zip: seq<Entry>, e: Entry, c: Codec<D>, server: Server)
    ensures var (before, reports) := RestoreAll(now, zip, c, server);
            var (after, again) := RestoreAll(now, zip + [e], c, server);
            var n: int := |e.name| - 6;
            if n < 0 || e.name[n..] != ".jsonl" then after == before && again == reports
            else
              var (read, clean) := Parsed(e.content, c.decode);
              var (stored, reported, ok) := Outcome(read, clean, server.refuse(e.name[..n]));
              if !server.drops(e.name[..n])
              then after == before && again == reports + [Report(e.name[..n], 0, false)]
              else
                && again == reports + [Report(e.name[..n], reported, ok)]
                && (e.name[..n] in after <==> stored != []) && (stored != [] ==> after[e.name[..n]] == stored)
                && after - {e.name[..n]} == before - {e.name[..n]}
  {
    assert (zip + [e])[..|zip|] == zip;
  }

  /** All documents of the named collections, one collection after the other. */
  function AllDocuments<D>(saved: map<string, seq<D>>, names: seq<string>): seq<D>
    requires forall n :: n in names ==> n in saved
  {
    if names == [] then [] else AllDocuments(saved, names[..|names| - 1]) + saved[names[|names| - 1]]
  }

  lemma TotalSnoc(reports: seq<Report>, r: Report)
    ensures Total(reports + [r]) == Total(reports) + r.documents
  {
    assert (reports + [r])[..|reports|] == reports;
  }

  /** The total over the reports of a backup is the number of documents archived. */
  lemma {:induction false} TotalIsAllDocuments<D>(saved: map<string, seq<D>>, names: seq<string>, c: Codec<D>)
    requires forall n :: n in names ==> n in saved
    ensures Total(ArchiveOf(saved, names, c).1) == |AllDocuments(saved, names)|
    decreases |names|
  {
    if names != [] {
      var k := |names| - 1;
      TotalIsAllDocuments(saved, names[..k], c);
      TotalSnoc(ArchiveOf(saved, names[..k], c).1, Report(names[k], |saved[names[k]]|, true));
    }
  }

  class Database<D(0, !new)> {
    var colls: map<string, seq<D>>
    const codec: Codec<D>

    constructor (codec: Codec<D>)
      ensures colls == map[] && this.codec == codec
    {
      colls := map[];
      this.codec := codec;
    }

    /** The text of one collection, written document by document. */
    method BackupOneCollection(name: string) returns (content: string, count: nat)
      ensures content == Dump(At(colls, name), codec) && count == |At(colls, name)|
    {
      var docs := At(colls, name);
      content, count := "", 0;
      while count < |docs|
        invariant 0 <= count <= |docs| && content + Dump(docs[count..], codec) == Dump(docs, codec)
      {
        assert docs[count..][1..] == docs[count + 1..];
        var line := codec.encode(docs[count]);
        content := content + line;
        content := content + "\n";
        count := count + 1;
      }
    }

    /** `names` is the server's listing of the collections. */
    method BackupToZip(names: seq<string>) returns (zip: seq<Entry>, reports: seq<Report>)
      requires forall n :: n in names <==> n in colls
      ensures (zip, reports) == ArchiveOf(colls, names, codec)
    {
      zip, reports := [], [];
      for i := 0 to |names|
        invariant forall n :: n in names[..i] ==> n in colls
        invariant (zip, reports) == ArchiveOf(colls, names[..i], codec)
      {
        assert names[..i + 1][..i] == names[..i];
        var content, count := BackupOneCollection(names[i]);
        zip := zip + [Entry(names[i] + SUFFIX, content)];
        reports := reports + [Report(names[i], count, true)];
      }
      assert names[..|names|] == names;
    }

    method RestoreOneCollection(name: string, content: string, server: Server) returns (report: Report)
      modifies this`colls
      ensures (colls, report) == RestoreEntry(old(colls), name, content, codec, server)
    {
      if !server.drops(name) {
        return Report(name, 0, false);
      }
      var stored, count, ok := Load(content, codec.decode, server.refuse(name));
      colls := if stored == [] then colls - {name} else colls[name := stored];
      report := Report(name, count, ok);
    }

    /** None when no entry is a collection. */
    method RestoreFromZip(zip: seq<Entry>, server: Server) returns (result: Option<seq<Report>>)
      modifies this`colls
      ensures var (after, reports) := RestoreAll(old(colls), zip, codec, server);
              colls == after && result == if reports == [] then None else Some(reports)
    {
      var found, reports := false, [];
      for i := 0 to |zip|
        invariant (colls, reports) == RestoreAll(old(colls), zip[..i], codec, server)
        invariant found <==> reports != []
      {
        assert zip[..i + 1][..i] == zip[..i];
        if !HasSuffix(zip[i].name) {
          continue;
        }
        found := true;
        var report := RestoreOneCollection(TrimSuffix(zip[i].name), zip[i].content, server);
        reports := reports + [report];
      }
      assert zip[..|zip|] == zip;
      result := if found then Some(reports) else None;
    }
  }

  /** The collection being filled after a drop: documents are inserted batch by batch through one reused buffer. */
  method Load<D(0, !new)>(content: string, decode: string -> Option<D>, refuse: nat -> Option<nat>)
    returns (stored: seq<D>, count: nat, ok: bool)
    ensures (stored, count, ok) == Outcome(Parsed(content, decode).0, Parsed(content, decode).1, refuse)
  {
    ghost var (all, clean) := Parsed(content, decode);
    var batch := new D[BATCH];
    var size, inserts := 0, 0;
    var rest := content;
    stored, count := [], 0;
    Nothing(all, clean, batch[..size]);
    while rest != ""
      invariant 0 <= size < BATCH && count == |stored| && Inserted(count, inserts, refuse)
      invariant Remains(all, clean, stored, batch[..size], Parsed(rest, decode))
      decreases |rest|
    {
      var line;
      line, rest := ReadLine(rest, decode);
      if line == Failed {
        Stopped(stored, batch[..size], all, clean, refuse, inserts);
        return stored, count, false;
      }
      if line == Blank {
        continue;
      }
      Received(all, clean, stored, batch[..size], line.value, Parsed(rest, decode));
      batch[size] := line.value;
      size := size + 1;
      assert batch[..size] == batch[..size - 1] + [line.value];
      if size >= BATCH {
        var docs;
        docs, ok := InsertMany(batch[..size], refuse(inserts));
        if !ok {
          Refused(stored, batch[..size], all, clean, refuse, inserts);
          return stored + docs, count, false;
        }
        Emptied(all, clean, stored, batch[..size], Parsed(rest, decode));
        stored := stored + docs;
        Flushed(count, inserts, refuse);
        count, size, inserts := count + size, 0, inserts + 1;
        assert batch[..size] == [];
      }
    }
    stored, count, ok := InsertLast(stored, batch[..size], refuse, inserts, all, clean);
  }

  /** The last flush. */
  method InsertLast<D(!new)>(before: seq<D>, batch: seq<D>, refuse: nat -> Option<nat>, inserts: nat,
    ghost all: seq<D>, ghost clean: bool)
    returns (stored: seq<D>, count: nat, ok: bool)
    requires Remains(all, clean, before, batch, ([], true)) && Inserted(|before|, inserts, refuse) && |batch| < BATCH
    ensures (stored, count, ok) == Outcome(all, clean, refuse)
  {
    if |batch| > 0 {
      var docs;
      docs, ok := InsertMany(batch, refuse(inserts));
      if !ok {
        Refused(before, batch, all, clean, refuse, inserts);
        return before + docs, |before|, false;
      }
    }
    Ended(before, batch, all, clean, refuse, inserts);
    return before + batch, |before| + |batch|, true;
  }

  /** InsertMany: the documents that are taken, all of them or on failure the first few. */
  method InsertMany<D>(docs: seq<D>, refused: Option<nat>) returns (taken: seq<D>, ok: bool)
    ensures ok == refused.None? && taken == docs[..Taken(refused, |docs|)]
    ensures ok ==> taken == docs
  {
    ok := refused.None?;
    taken := docs[..Taken(refused, |docs|)];
  }

  // One line of an entry: a document, an empty line to pass over, or a line too long or not decodable.
  datatype Line<+D> = Doc(value: D) | Blank | Failed

  method ReadLine<D>(s: string, decode: string -> Option<D>) returns (r: Line<D>, rest: string)
    requires s != ""
    ensures |rest| < |s|
    ensures Parsed(s, decode) == LineThen(r, Parsed(rest, decode))
  {
    rest := AfterLine(s);
    if LineEnd(s) >= MAX_LINE {
      return Failed, rest;
    }
    var line := FirstLine(s);
    if line == "" {
      return Blank, rest;
    }
    var d := decode(line);
    r := if d.None? then Failed else Doc(d.value);
  }

  function LineThen<D>(r: Line<D>, more: (seq<D>, bool)): (seq<D>, bool) {
    match r
    case Doc(d) => ([d] + more.0, more.1)
    case Blank => more
    case Failed => ([], false)
  }

  /** What is stored, what is waiting in the buffer and what is left make up everything that can be read. */
  ghost predicate Remains<D(!new)>(all: seq<D>, clean: bool, stored: seq<D>, waiting: seq<D>, left: (seq<D>, bool)) {
    all == stored + waiting + left.0 && clean == left.1
  }

  /** Only full batches have been inserted so far. */
  ghost predicate Inserted(count: nat, inserts: nat, refuse: nat -> Option<nat>) {
    count == inserts * BATCH && forall k: nat :: k < inserts ==> refuse(k).None?
  }

  lemma Flushed(count: nat, inserts: nat, refuse: nat -> Option<nat>)
    requires Inserted(count, inserts, refuse) && refuse(inserts).None?
    ensures Inserted(count + BATCH, inserts + 1, refuse)
  {
  }

  lemma Nothing<D(!new)>(all: seq<D>, clean: bool, waiting: seq<D>)
    requires waiting == []
    ensures Remains(all, clean, [], waiting, (all, clean))
  {
    assert [] + waiting + all == all;
  }

  lemma Received<D(!new)>(all: seq<D>, clean: bool, stored: seq<D>, waiting: seq<D>, d: D, left: (seq<D>, bool))
    requires Remains(all, clean, stored, waiting, LineThen(Doc(d), left))
    ensures Remains(all, clean, stored, waiting + [d], left)
  {
    assert stored + waiting + ([d] + left.0) == stored + (waiting + [d]) + left.0;
  }

  lemma Emptied<D(!new)>(all: seq<D>, clean: bool, stored: seq<D>, waiting: seq<D>, left: (seq<D>, bool))
    requires Remains(all, clean, stored, waiting, left)
    ensures Remains(all, clean, stored + waiting, [], left)
  {
    assert stored + waiting + left.0 == (stored + waiting) + [] + left.0;
  }

  lemma {:induction false} FirstRefusedIs(refuse: nat -> Option<nat>, i: nat, f: nat, n: nat)
    requires i <= f <= n && (forall k: nat :: i <= k < f ==> refuse(k).None?) && (f < n ==> refuse(f).Some?)
    ensures FirstRefused(refuse, i, n) == f
    decreases f - i
  {
    if i < f {
      FirstRefusedIs(refuse, i + 1, f, n);
    }
  }

  /** The outcome when reading stops short: what is waiting is lost. */
  lemma Stopped<D(!new)>(stored: seq<D>, waiting: seq<D>, all: seq<D>, clean: bool, refuse: nat -> Option<nat>,
    inserts: nat)
    requires Remains(all, clean, stored, waiting, ([], false)) && Inserted(|stored|, inserts, refuse)
    requires |waiting| < BATCH
    ensures Outcome(all, clean, refuse) == (stored, |stored|, false)
  {
    assert all == stored + waiting && inserts == |all| / BATCH;
    FirstRefusedIs(refuse, 0, inserts, inserts);
    assert all[..|stored|] == stored;
  }

  /** The outcome when an insert fails. */
  lemma Refused<D(!new)>(stored: seq<D>, waiting: seq<D>, all: seq<D>, clean: bool, refuse: nat -> Option<nat>,
    inserts: nat)
    requires Inserted(|stored|, inserts, refuse) && refuse(inserts).Some?
    requires 0 < |waiting| <= BATCH && stored + waiting <= all
    requires |waiting| == BATCH || (stored + waiting == all && clean)
    ensures Outcome(all, clean, refuse)
         == (stored + waiting[..Taken(refuse(inserts), |waiting|)], |stored|, false)
  {
    FirstRefusedIs(refuse, 0, inserts, Flushes(|all|, clean));
    var taken := Taken(refuse(inserts), |waiting|);
    assert (stored + waiting)[..|stored| + taken] == stored + waiting[..taken];
    assert all[..|stored| + taken] == (stored + waiting)[..|stored| + taken];
  }

  /** The outcome when everything has been inserted. */
  lemma Ended<D(!new)>(stored: seq<D>, waiting: seq<D>, all: seq<D>, clean: bool, refuse: nat -> Option<nat>,
    inserts: nat)
    requires Remains(all, clean, stored, waiting, ([], true)) && Inserted(|stored|, inserts, refuse)
    requires |waiting| < BATCH && (waiting != [] ==> refuse(inserts).None?)
    ensures Outcome(all, clean, refuse) == (stored + waiting, |stored| + |waiting|, true)
  {
    assert all == stored + waiting;
    var n := if waiting == [] then inserts else inserts + 1;
    assert n == Flushes(|all|, clean);
    FirstRefusedIs(refuse, 0, n, n);
  }
}
