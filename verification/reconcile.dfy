/**
 * The steps the cleanup scripts share for one song: listing the sidecar files
 * next to it, probing the `.lrc` files for timings until the first timed one,
 * looking up and saving synced lyrics, and deleting the `.txt` files. Each step
 * is a method on the remote host proved against a function that says what it
 * calls and how the host's files end up.
 */
module Reconcile {
  import opened Wrappers
  import opened JsStrings
  import opened SidecarPaths
  import opened ShellQuoting
  import opened Catalog
  import opened LrcLib
  import opened RemoteHost

  function ProbeCalls(paths: seq<string>): seq<Call>
  {
    seq(|paths|, i requires 0 <= i < |paths| => Probe(paths[i]))
  }

  function RemoveCalls(paths: seq<string>): seq<Call>
  {
    seq(|paths|, i requires 0 <= i < |paths| => Remove(paths[i]))
  }

  lemma LogAssoc(a: seq<Call>, b: seq<Call>, c: seq<Call>)
    ensures a + (b + c) == (a + b) + c
  {
  }

  /** The paths of the `rm -f` calls in a log, in order. */
  function RemovedPaths(calls: seq<Call>): seq<string>
  {
    if calls == [] then []
    else (if calls[0].Remove? then [calls[0].path] else []) + RemovedPaths(calls[1..])
  }

  lemma {:induction false} RemovedPathsAppend(a: seq<Call>, b: seq<Call>)
    ensures RemovedPaths(a + b) == RemovedPaths(a) + RemovedPaths(b)
    decreases |a|
  {
    if a == [] {
      assert a + b == b;
    } else {
      assert (a + b)[0] == a[0];
      assert (a + b)[1..] == a[1..] + b;
      RemovedPathsAppend(a[1..], b);
      var head := if a[0].Remove? then [a[0].path] else [];
      calc {
        RemovedPaths(a + b);
        head + RemovedPaths(a[1..] + b);
        head + (RemovedPaths(a[1..]) + RemovedPaths(b));
        (head + RemovedPaths(a[1..])) + RemovedPaths(b);
      }
    }
  }

  lemma {:induction false} RemovedPathsNone(calls: seq<Call>)
    requires forall c :: c in calls ==> !c.Remove?
    ensures RemovedPaths(calls) == []
    decreases |calls|
  {
    if calls != [] {
      assert calls[0] in calls;
      assert forall c :: c in calls[1..] ==> c in calls;
      RemovedPathsNone(calls[1..]);
    }
  }

  lemma {:induction false} RemovedPathsOfRemoveCalls(paths: seq<string>)
    ensures RemovedPaths(RemoveCalls(paths)) == paths
    decreases |paths|
  {
    if paths != [] {
      assert RemoveCalls(paths)[1..] == RemoveCalls(paths[1..]);
      RemovedPathsOfRemoveCalls(paths[1..]);
    }
  }

  lemma {:induction false} RemovedPathsOfProbeCalls(paths: seq<string>)
    ensures RemovedPaths(ProbeCalls(paths)) == []
    decreases |paths|
  {
    if paths != [] {
      assert ProbeCalls(paths)[1..] == ProbeCalls(paths[1..]);
      RemovedPathsOfProbeCalls(paths[1..]);
    }
  }

  /** The sidecar lists the listing step finds next to a song, given the host's files at that moment. */
  function SidecarsOf(o: Oracle, files: map<string, string>, songPath: string): LyricFiles
  {
    var q := ListingQuery(o.roots, songPath);
    ParseListing(ListingOf(o, files, q.0, q.1))
  }

  /**
   * The song's listing command runs and reaches `find` as written: a literal
   * directory that does not start with white space, a literal wildcard-free
   * stem, and no matching file whose path holds a line break.
   */
  predicate FindsIntact(o: Oracle, files: map<string, string>, songPath: string) {
    var q := ListingQuery(o.roots, songPath);
    && Succeeds(o, q.0) && Literal(q.0) && Literal(q.1) && GlobFree(q.1)
    && q.0 != [] && !IsJsWhitespace(q.0[0])
    && forall p :: p in files && FindSelects(q.0, q.1, p) ==> '\n' !in p
  }

  /**
   * For a song whose query reaches `find` intact, the sidecars found are the
   * host's current `.txt` and `.lrc` files the listing selects, in ascending
   * order: a file is found exactly when it is on the host now and matches.
   */
  lemma SidecarsSpec(o: Oracle, files: map<string, string>, songPath: string)
    requires FindsIntact(o, files, songPath)
    ensures var q := ListingQuery(o.roots, songPath);
            var sel := FindSelected(files, q.0, q.1);
            SidecarsOf(o, files, songPath) == LyricFiles(Filter(IsTxt, sel), Filter(IsLrc, sel))
    ensures var q := ListingQuery(o.roots, songPath);
            forall p :: (p in SidecarsOf(o, files, songPath).txtFiles <==> p in files && FindSelects(q.0, q.1, p) && IsTxt(p))
                     && (p in SidecarsOf(o, files, songPath).lrcFiles <==> p in files && FindSelects(q.0, q.1, p) && IsLrc(p))
  {
    var q := ListingQuery(o.roots, songPath);
    var sel := FindSelected(files, q.0, q.1);
    ListingOfFiles(o, files, q.0, q.1);
    FilterKeeps(IsTxt, sel);
    FilterKeeps(IsLrc, sel);
  }

  /** A file no longer on the host is not found again, as a `.txt` or as an `.lrc`. */
  lemma DeletedNotFound(o: Oracle, files: map<string, string>, songPath: string, gone: string)
    requires FindsIntact(o, files, songPath)
    requires gone !in files
    ensures gone !in SidecarsOf(o, files, songPath).txtFiles && gone !in SidecarsOf(o, files, songPath).lrcFiles
  {
    SidecarsSpec(o, files, songPath);
  }

  /** Some call in the log is the lrclib search. */
  predicate Searched(calls: seq<Call>) {
    exists i :: 0 <= i < |calls| && calls[i].Search?
  }

  lemma SearchedAppend(a: seq<Call>, b: seq<Call>)
    ensures Searched(a + b) <==> Searched(a) || Searched(b)
  {
    if Searched(a + b) {
      var i :| 0 <= i < |a + b| && (a + b)[i].Search?;
      if i >= |a| {
        assert b[i - |a|] == (a + b)[i];
      }
    }
    if Searched(a) {
      var i :| 0 <= i < |a| && a[i].Search?;
      assert (a + b)[i] == a[i];
    }
    if Searched(b) {
      var i :| 0 <= i < |b| && b[i].Search?;
      assert (a + b)[|a| + i] == b[i];
    }
  }

  /** `findLyricFiles`: one `find` call; its output parsed into the two lists. */
  method FindLyricFiles(host: Host, songPath: string) returns (lyricFiles: LyricFiles)
    modifies host`log
    ensures var q := ListingQuery(host.oracle.roots, songPath);
            && lyricFiles == ParseListing(ListingOf(host.oracle, host.files, q.0, q.1))
            && host.log == old(host.log) + [List(q.0, q.1)]
  {
    var q := ListingQuery(host.oracle.roots, songPath);
    var stdout := host.List(q.0, q.1);
    lyricFiles := ParseListing(stdout);
  }

  /** What the timing probe loop did: whether it found timings, and which files it probed. */
  datatype Scan = Scan(timed: bool, probed: seq<string>)

  /**
   * The probe loop over the `.lrc` files: in listing order, stopping at the
   * first file with timings.
   */
  function ScanForTimed(o: Oracle, files: map<string, string>, lrcFiles: seq<string>): (s: Scan)
    ensures |s.probed| <= |lrcFiles| && s.probed == lrcFiles[..|s.probed|]
    ensures !s.timed ==> s.probed == lrcFiles
    decreases |lrcFiles|
  {
    if lrcFiles == [] then Scan(false, [])
    else if ProbeOf(o, files, lrcFiles[0]) then Scan(true, [lrcFiles[0]])
    else
      var rest := ScanForTimed(o, files, lrcFiles[1..]);
      assert lrcFiles == [lrcFiles[0]] + lrcFiles[1..];
      Scan(rest.timed, [lrcFiles[0]] + rest.probed)
  }

  /** The scan reports timings exactly when some listed `.lrc` file has them. */
  lemma {:induction false} ScanFindsTimed(o: Oracle, files: map<string, string>, lrcFiles: seq<string>)
    ensures ScanForTimed(o, files, lrcFiles).timed <==> exists k :: 0 <= k < |lrcFiles| && ProbeOf(o, files, lrcFiles[k])
    decreases |lrcFiles|
  {
    if lrcFiles != [] && !ProbeOf(o, files, lrcFiles[0]) {
      ScanFindsTimed(o, files, lrcFiles[1..]);
      assert forall k :: 1 <= k < |lrcFiles| ==> lrcFiles[k] == lrcFiles[1..][k - 1];
    }
  }

  /**
   * The scan ends at the first timed file: everything before it was probed and
   * found untimed, and nothing after it is probed.
   */
  lemma {:induction false} ScanStopsAt(o: Oracle, files: map<string, string>, lrcFiles: seq<string>, i: nat)
    requires i < |lrcFiles| && ProbeOf(o, files, lrcFiles[i])
    requires forall k :: 0 <= k < i ==> !ProbeOf(o, files, lrcFiles[k])
    ensures ScanForTimed(o, files, lrcFiles) == Scan(true, lrcFiles[..i + 1])
    decreases i
  {
    if i == 0 {
      assert lrcFiles[..1] == [lrcFiles[0]];
    } else {
      assert !ProbeOf(o, files, lrcFiles[0]);
      var tail := lrcFiles[1..];
      assert forall k :: 0 <= k < i - 1 ==> tail[k] == lrcFiles[k + 1];
      ScanStopsAt(o, files, tail, i - 1);
      assert ScanForTimed(o, files, lrcFiles) == Scan(true, [lrcFiles[0]] + tail[..i]);
      assert lrcFiles[..i + 1] == [lrcFiles[0]] + tail[..i];
    }
  }

  /** The loop `for (const lrcFile of lrcFiles) if (await hasTimings(lrcFile)) { ...; break; }`. */
  method FindTimedLrc(host: Host, lrcFiles: seq<string>) returns (timed: bool)
    modifies host`log
    ensures var s := ScanForTimed(host.oracle, host.files, lrcFiles);
            timed == s.timed && host.log == old(host.log) + ProbeCalls(s.probed)
  {
    timed := false;
    var i := 0;
    while i < |lrcFiles|
      invariant 0 <= i <= |lrcFiles|
      invariant forall k :: 0 <= k < i ==> !ProbeOf(host.oracle, host.files, lrcFiles[k])
      invariant host.log == old(host.log) + ProbeCalls(lrcFiles[..i])
    {
      var t := host.Probe(lrcFiles[i]);
      assert ProbeCalls(lrcFiles[..i + 1]) == ProbeCalls(lrcFiles[..i]) + [Probe(lrcFiles[i])];
      if t {
        ScanStopsAt(host.oracle, host.files, lrcFiles, i);
        timed := true;
        return;
      }
      i := i + 1;
    }
    assert lrcFiles[..i] == lrcFiles;
    ScanFindsTimed(host.oracle, host.files, lrcFiles);
  }

  /** The paths whose `rm -f` command succeeds. */
  function Removable(o: Oracle): string -> bool
  {
    p => Succeeds(o, p)
  }

  /** The files and the success count after the deletion loop. */
  datatype Deletion = Deletion(files: map<string, string>, deleted: nat)

  /**
   * `deleteTxtFile` on each path in order, counting the calls that reported
   * success: a path is gone exactly when its command succeeded, and no other
   * path changes.
   */
  function DeleteEach(o: Oracle, files: map<string, string>, txtFiles: seq<string>): (d: Deletion)
    ensures d.deleted <= |txtFiles|
    decreases |txtFiles|
  {
    if txtFiles == [] then Deletion(files, 0)
    else
      var rest := DeleteEach(o, AfterRemove(o, files, txtFiles[0]), txtFiles[1..]);
      Deletion(rest.files, rest.deleted + if Succeeds(o, txtFiles[0]) then 1 else 0)
  }

  /**
   * The effect of the deletions: a listed path is gone exactly when its command
   * succeeded, every other path is untouched, and the count is the number of
   * listed paths whose command succeeded (a path listed twice counts twice):
   * full or zero exactly when every command or no command succeeded.
   */
  lemma {:induction false} DeleteEachEffect(o: Oracle, files: map<string, string>, txtFiles: seq<string>)
    ensures var d := DeleteEach(o, files, txtFiles);
            && (forall p :: p !in txtFiles ==> Same(d.files, files, p))
            && (forall p :: p in txtFiles && Succeeds(o, p) ==> p !in d.files)
            && (forall p :: p in txtFiles && !Succeeds(o, p) ==> Same(d.files, files, p))
            && (d.deleted == |txtFiles| <==> forall p :: p in txtFiles ==> Succeeds(o, p))
            && (d.deleted == 0 <==> forall p :: p in txtFiles ==> !Succeeds(o, p))
            && d.deleted == |Filter(Removable(o), txtFiles)|
    decreases |txtFiles|
  {
    if txtFiles != [] {
      var f1 := AfterRemove(o, files, txtFiles[0]);
      DeleteEachEffect(o, f1, txtFiles[1..]);
      assert forall p :: p in txtFiles <==> p == txtFiles[0] || p in txtFiles[1..];
    }
  }

  /** The deletion loop of `processSong`. */
  method DeleteTxtFiles(host: Host, txtFiles: seq<string>) returns (deleted: nat)
    modifies host
    ensures var d := DeleteEach(host.oracle, old(host.files), txtFiles);
            host.files == d.files && deleted == d.deleted
    ensures host.log == old(host.log) + RemoveCalls(txtFiles)
  {
    deleted := 0;
    var i := 0;
    while i < |txtFiles|
      invariant 0 <= i <= |txtFiles|
      invariant var rest := DeleteEach(host.oracle, host.files, txtFiles[i..]);
                DeleteEach(host.oracle, old(host.files), txtFiles) == Deletion(rest.files, deleted + rest.deleted)
      invariant host.log == old(host.log) + RemoveCalls(txtFiles[..i])
    {
      assert txtFiles[i..][1..] == txtFiles[i + 1..];
      var ok := host.Remove(txtFiles[i]);
      if ok {
        deleted := deleted + 1;
      }
      assert RemoveCalls(txtFiles[..i + 1]) == RemoveCalls(txtFiles[..i]) + [Remove(txtFiles[i])];
      i := i + 1;
    }
    assert txtFiles[..i] == txtFiles;
  }

  /** What saving these lyrics leaves in the target, or none when the save fails. */
  function SaveOutcome(o: Oracle, target: string, lyrics: string): Option<string>
  {
    EchoOutcome(o, target, EscapeQuotes(lyrics))
  }

  /**
   * `saveLrcFile`: the lyrics are quoted for the remote shell and echoed into
   * `<directory>/<stem>.lrc`. It reports success exactly when the command ran,
   * and only the target can change. Literal lyrics reach the file exactly,
   * followed by `echo`'s newline; lyrics with an odd number of single quotes
   * are never saved.
   */
  method SaveLrcFile(host: Host, songPath: string, lrcContent: string) returns (ok: bool)
    modifies host
    ensures var target := LrcTarget(host.oracle.roots, songPath);
            var outcome := SaveOutcome(host.oracle, target, lrcContent);
            && ok == outcome.Some?
            && host.files == (if ok then old(host.files)[target := outcome.value] else old(host.files))
            && host.log == old(host.log) + [Write(target, EscapeQuotes(lrcContent))]
    ensures var target := LrcTarget(host.oracle.roots, songPath);
            Succeeds(host.oracle, target) && EchoesAsIs(lrcContent) && Literal(target) ==>
              ok && host.files == old(host.files)[target := lrcContent + "\n"]
    ensures var target := LrcTarget(host.oracle.roots, songPath);
            Plain(lrcContent) && '"' !in lrcContent && multiset(lrcContent)[Quote] % 2 == 1 && Literal(target) ==>
              !ok && host.files == old(host.files)
  {
    var lrcPath := LrcTarget(host.oracle.roots, songPath);
    var escaped := EscapeQuotes(lrcContent);
    ok := host.Write(lrcPath, escaped);
    if Succeeds(host.oracle, lrcPath) && EchoesAsIs(lrcContent) && Literal(lrcPath) {
      LiteralLyricsWritten(host.oracle, old(host.files), lrcPath, lrcContent);
    }
    if Plain(lrcContent) && '"' !in lrcContent && multiset(lrcContent)[Quote] % 2 == 1 && Literal(lrcPath) {
      OddQuotesNotWritten(host.oracle, old(host.files), lrcPath, lrcContent);
    }
  }

  /** What the lookup-and-save step did. */
  datatype Download = Download(calls: seq<Call>, files: map<string, string>, saved: bool)

  /** The lookup gives synced lyrics, and saving them succeeds. */
  predicate Saves(o: Oracle, params: seq<Param>, target: string)
  {
    var hit := SearchLrcLib(ReplyOf(o, params));
    hit.Some? && SaveOutcome(o, target, hit.value.syncedLyrics.value).Some?
  }

  /**
   * Search lrclib with the song's query; when an entry with synced lyrics comes
   * back, write them to the song's `.lrc` target. Only the target can change,
   * and it changes exactly when the file was saved.
   */
  function LookupAndSave(o: Oracle, files: map<string, string>, params: seq<Param>, target: string): Download
  {
    var hit := SearchLrcLib(ReplyOf(o, params));
    if hit.None? then Download([Search(params)], files, false)
    else
      var lyrics := hit.value.syncedLyrics.value;
      var outcome := SaveOutcome(o, target, lyrics);
      Download([Search(params), Write(target, EscapeQuotes(lyrics))],
               if outcome.Some? then files[target := outcome.value] else files,
               outcome.Some?)
  }

  lemma LookupAndSaveEffect(o: Oracle, files: map<string, string>, params: seq<Param>, target: string)
    ensures var d := LookupAndSave(o, files, params, target);
            var hit := SearchLrcLib(ReplyOf(o, params));
            && (d.saved <==> Saves(o, params, target))
            && (forall p :: p != target ==> Same(d.files, files, p))
            && (d.saved ==> target in d.files && d.files[target] == SaveOutcome(o, target, hit.value.syncedLyrics.value).value)
            && (hit.Some? && Succeeds(o, target) && EchoesAsIs(hit.value.syncedLyrics.value) && Literal(target) ==>
                  d.saved && d.files[target] == hit.value.syncedLyrics.value + "\n")
            && (!d.saved ==> d.files == files)
            && 1 <= |d.calls| <= 2 && d.calls[0] == Search(params)
            && (forall c :: c in d.calls ==> !c.Remove?)
  {
    var hit := SearchLrcLib(ReplyOf(o, params));
    if hit.Some? && Succeeds(o, target) && EchoesAsIs(hit.value.syncedLyrics.value) && Literal(target) {
      LiteralLyricsWritten(o, files, target, hit.value.syncedLyrics.value);
    }
  }

  /** `searchLrcLib`, then `saveLrcFile` when the result has synced lyrics. */
  method DownloadSynced(host: Host, song: Item, songPath: string) returns (saved: bool)
    requires song.path == Some(songPath)
    modifies host
    ensures var d := LookupAndSave(host.oracle, old(host.files), SearchParams(song), LrcTarget(host.oracle.roots, songPath));
            saved == d.saved && host.files == d.files && host.log == old(host.log) + d.calls
  {
    ghost var files0, log0 := host.files, host.log;
    ghost var d := LookupAndSave(host.oracle, files0, SearchParams(song), LrcTarget(host.oracle.roots, songPath));
    var reply := host.Search(SearchParams(song));
    var lrcLibResult := SearchLrcLib(reply);
    saved := false;
    if lrcLibResult.Some? && Truthy(lrcLibResult.value.syncedLyrics) {
      var lyrics := lrcLibResult.value.syncedLyrics.value;
      assert d.calls == [Search(SearchParams(song)), Write(LrcTarget(host.oracle.roots, songPath), EscapeQuotes(lyrics))];
      saved := SaveLrcFile(host, songPath, lyrics);
      assert host.log == log0 + d.calls;
    } else {
      assert d == Download([Search(SearchParams(song))], files0, false);
    }
  }

}
