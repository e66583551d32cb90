/**
 * cleanup-lyrics.js, the first variant: each library's songs come from one
 * request with no pagination; a song with `.txt` files has them deleted when
 * one of its `.lrc` files is timed and counted as skipped otherwise. This
 * variant never looks lyrics up and never writes a file.
 */
module CleanupJs {
  import opened Wrappers
  import opened JsStrings
  import opened SidecarPaths
  import opened Catalog
  import opened RemoteHost
  import opened Reconcile
  import opened Tally

  /**
   * One pass of the loop body of `processLibrary` for one song, as a step of
   * the library fold: `deleted` and `skipped` are what it adds to `deletedCount`
   * and `skippedCount`. A song without a path makes the path rewrite throw,
   * which the loop's `catch` swallows; a song without `.txt` files is left
   * after the listing.
   */
  function JsSong(o: Oracle, files: map<string, string>, song: Item): SongRun
  {
    if song.path.None? then SongRun([], files, SongResult(0, 0, 0))
    else
      var q := ListingQuery(o.roots, song.path.value);
      var sidecars := SidecarsOf(o, files, song.path.value);
      if |sidecars.txtFiles| == 0 then SongRun([List(q.0, q.1)], files, SongResult(0, 0, 0))
      else
        var rest := JsAfterListing(o, files, sidecars.txtFiles, sidecars.lrcFiles);
        SongRun([List(q.0, q.1)] + rest.calls, rest.files, rest.result)
  }

  /** Probe the `.lrc` files; delete the `.txt` files if one is timed, else count them as skipped. */
  function JsAfterListing(o: Oracle, files: map<string, string>, txt: seq<string>, lrc: seq<string>): SongRun
  {
    var scan := ScanForTimed(o, files, lrc);
    if scan.timed then
      var del := DeleteEach(o, files, txt);
      SongRun(ProbeCalls(scan.probed) + RemoveCalls(txt), del.files, SongResult(del.deleted, 0, 0))
    else
      SongRun(ProbeCalls(scan.probed), files, SongResult(0, 0, |txt|))
  }

  function JsStep(o: Oracle): Step
  {
    (files, song) => JsSong(o, files, song)
  }

  /** The loop body of `processLibrary` after `processedCount++`. */
  method ReconcileSong(host: Host, song: Item) returns (deleted: nat, skipped: nat)
    modifies host
    ensures var run := JsSong(host.oracle, old(host.files), song);
            && deleted == run.result.deleted && skipped == run.result.skipped
            && host.files == run.files && host.log == old(host.log) + run.calls
  {
    ghost var o, files0, log0 := host.oracle, host.files, host.log;
    deleted, skipped := 0, 0;
    if song.path.None? {
      NoTxtNoProbe(o, files0, song);
      return;
    }
    var songPath := song.path.value;
    var lyricFiles := FindLyricFiles(host, songPath);
    assert lyricFiles == SidecarsOf(o, files0, songPath);
    if |lyricFiles.txtFiles| == 0 {
      NoTxtNoProbe(o, files0, song);
      return;
    }
    JsWithTxt(o, files0, song);
    ghost var q := ListingQuery(o.roots, songPath);
    ghost var rest := JsAfterListing(o, files0, lyricFiles.txtFiles, lyricFiles.lrcFiles);
    deleted, skipped := ReconcileTxt(host, lyricFiles.txtFiles, lyricFiles.lrcFiles);
    LogAssoc(log0, [List(q.0, q.1)], rest.calls);
  }

  /** The loop body once `.txt` files were listed: probe, then delete or count as skipped. */
  method ReconcileTxt(host: Host, txtFiles: seq<string>, lrcFiles: seq<string>) returns (deleted: nat, skipped: nat)
    modifies host
    ensures var run := JsAfterListing(host.oracle, old(host.files), txtFiles, lrcFiles);
            && deleted == run.result.deleted && skipped == run.result.skipped
            && host.files == run.files && host.log == old(host.log) + run.calls
  {
    ghost var o, files0, log0 := host.oracle, host.files, host.log;
    ghost var scan := ScanForTimed(o, files0, lrcFiles);
    deleted, skipped := 0, 0;
    var hasTimedLrc := FindTimedLrc(host, lrcFiles);
    if hasTimedLrc {
      deleted := DeleteTxtFiles(host, txtFiles);
      LogAssoc(log0, ProbeCalls(scan.probed), RemoveCalls(txtFiles));
    } else {
      skipped := |txtFiles|;
    }
  }

  /** The counters `processLibrary` reports. */
  datatype Counters = Counters(processed: nat, deleted: nat, skipped: nat)

  /**
   * `processLibrary` of cleanup-lyrics.js: one request for the songs (a failure
   * is thrown), then every song in order, `processedCount` first.
   */
  method ProcessLibrary(host: Host, reply: PageReply) returns (r: Result<Counters, int>)
    modifies host
    ensures reply.HttpError? ==>
              r == Failure(reply.status) && host.files == old(host.files) && host.log == old(host.log)
    ensures reply.Page? ==>
              var run := RunSongs(JsStep(host.oracle), old(host.files), reply.items);
              && r == Success(Counters(|reply.items|, run.totals.deleted, run.totals.skipped))
              && host.files == run.files && host.log == old(host.log) + run.calls
  {
    var songs := SinglePageSongs(reply);
    if songs.Failure? {
      return Failure(songs.error);
    }
    var list := songs.value;
    var processedCount: nat, deletedCount: nat, skippedCount: nat := 0, 0, 0;
    ghost var step := JsStep(host.oracle);
    ghost var whole := RunSongs(step, host.files, list);
    assert list[0..] == list;
    var i := 0;
    while i < |list|
      invariant 0 <= i <= |list|
      invariant processedCount == i
      invariant var rest := RunSongs(step, host.files, list[i..]);
                && whole.files == rest.files
                && old(host.log) + whole.calls == host.log + rest.calls
                && whole.totals.deleted == deletedCount + rest.totals.deleted
                && whole.totals.skipped == skippedCount + rest.totals.skipped
    {
      processedCount := processedCount + 1;
      ghost var filesBefore := host.files;
      ghost var logBefore := host.log;
      ghost var first := step(filesBefore, list[i]);
      ghost var later := RunSongs(step, first.files, list[i + 1..]);
      assert list[i..][1..] == list[i + 1..];
      assert RunSongs(step, filesBefore, list[i..]) ==
             LibraryRun(first.calls + later.calls, later.files, AddResult(later.totals, first.result));
      assert first == JsSong(host.oracle, filesBefore, list[i]);
      var deleted, skipped := ReconcileSong(host, list[i]);
      assert deleted == first.result.deleted && skipped == first.result.skipped;
      assert host.files == first.files && host.log == logBefore + first.calls;
      LogAssoc(logBefore, first.calls, later.calls);
      assert old(host.log) + whole.calls == host.log + later.calls;
      deletedCount := deletedCount + deleted;
      skippedCount := skippedCount + skipped;
      i := i + 1;
      assert RunSongs(step, host.files, list[i..]) == later;
    }
    assert list[i..] == [];
    assert RunSongs(step, host.files, list[i..]) == LibraryRun([], host.files, Totals(0, 0, 0));
    assert host.log + [] == host.log;
    assert whole.totals.deleted == deletedCount && whole.totals.skipped == skippedCount;
    r := Success(Counters(processedCount, deletedCount, skippedCount));
  }

  /**
   * A song with no `.txt` file costs at most the listing call: it is left
   * before any timing probe, and nothing changes.
   */
  lemma NoTxtNoProbe(o: Oracle, files: map<string, string>, song: Item)
    requires song.path.Some? ==> SidecarsOf(o, files, song.path.value).txtFiles == []
    ensures var run := JsSong(o, files, song);
            && run.files == files && run.result == SongResult(0, 0, 0)
            && (song.path.None? ==> run.calls == [])
            && (song.path.Some? ==> var q := ListingQuery(o.roots, song.path.value); run.calls == [List(q.0, q.1)])
  {
  }

  /** With `.txt` files listed, the run is the listing call followed by `JsAfterListing`. */
  lemma JsWithTxt(o: Oracle, files: map<string, string>, song: Item)
    requires song.path.Some? && SidecarsOf(o, files, song.path.value).txtFiles != []
    ensures var q := ListingQuery(o.roots, song.path.value);
            var sidecars := SidecarsOf(o, files, song.path.value);
            var rest := JsAfterListing(o, files, sidecars.txtFiles, sidecars.lrcFiles);
            JsSong(o, files, song) == SongRun([List(q.0, q.1)] + rest.calls, rest.files, rest.result)
  {
  }

  /**
   * With `.txt` files listed: every one of them is delete-attempted once, in
   * order, exactly when some `.lrc` file is timed, and `deleted` counts the
   * listed paths whose command succeeded; otherwise all of them are counted as
   * skipped and none is touched.
   */
  lemma DeleteIffTimed(o: Oracle, files: map<string, string>, txt: seq<string>, lrc: seq<string>)
    ensures var run := JsAfterListing(o, files, txt, lrc);
            var timed := exists k :: 0 <= k < |lrc| && ProbeOf(o, files, lrc[k]);
            && RemovedPaths(run.calls) == (if timed then txt else [])
            && run.result.skipped == (if timed then 0 else |txt|)
            && run.result.deleted <= |txt|
            && (timed ==> run.result.deleted == |Filter(Removable(o), txt)|)
            && (timed ==> forall p :: p in txt && Succeeds(o, p) ==> p !in run.files)
            && (!timed ==> run.files == files && run.result.deleted == 0)
  {
    var scan := ScanForTimed(o, files, lrc);
    ScanFindsTimed(o, files, lrc);
    RemovedPathsOfProbeCalls(scan.probed);
    if scan.timed {
      RemovedPathsAppend(ProbeCalls(scan.probed), RemoveCalls(txt));
      RemovedPathsOfRemoveCalls(txt);
      DeleteEachEffect(o, files, txt);
    }
  }

  /** No call in the log is a lookup or a write. */
  predicate NoLookup(calls: seq<Call>) {
    forall i :: 0 <= i < |calls| ==> !calls[i].Search? && !calls[i].Write?
  }

  /** `after` only lacks entries of `before`; nothing was added or rewritten. */
  predicate OnlyRemoved(after: map<string, string>, before: map<string, string>) {
    forall p :: p in after ==> p in before && after[p] == before[p]
  }

  lemma NeverDownloadsAfterListing(o: Oracle, files: map<string, string>, txt: seq<string>, lrc: seq<string>)
    ensures var run := JsAfterListing(o, files, txt, lrc);
            run.result.downloaded == 0 && NoLookup(run.calls) && OnlyRemoved(run.files, files)
  {
    var scan := ScanForTimed(o, files, lrc);
    var probes := ProbeCalls(scan.probed);
    if scan.timed {
      DeleteEachEffect(o, files, txt);
      var calls := probes + RemoveCalls(txt);
      assert forall i :: |probes| <= i < |calls| ==> calls[i] == Remove(txt[i - |probes|]);
    }
  }

  /** This variant never looks lyrics up or writes a file: files only disappear. */
  lemma NeverDownloads(o: Oracle, files: map<string, string>, song: Item)
    ensures var run := JsSong(o, files, song);
            run.result.downloaded == 0 && NoLookup(run.calls) && OnlyRemoved(run.files, files)
  {
    if song.path.None? || SidecarsOf(o, files, song.path.value).txtFiles == [] {
      NoTxtNoProbe(o, files, song);
      if song.path.Some? {
        ListingFirst(ListingQuery(o.roots, song.path.value), SongRun([], files, SongResult(0, 0, 0)), files);
      }
    } else {
      JsWithTxt(o, files, song);
      var sidecars := SidecarsOf(o, files, song.path.value);
      var rest := JsAfterListing(o, files, sidecars.txtFiles, sidecars.lrcFiles);
      NeverDownloadsAfterListing(o, files, sidecars.txtFiles, sidecars.lrcFiles);
      ListingFirst(ListingQuery(o.roots, song.path.value), rest, files);
    }
  }

  /** A listing call in front of a run without lookups adds no lookup. */
  lemma ListingFirst(q: (string, string), rest: SongRun, files: map<string, string>)
    requires rest.result.downloaded == 0 && NoLookup(rest.calls) && OnlyRemoved(rest.files, files)
    ensures var run := SongRun([List(q.0, q.1)] + rest.calls, rest.files, rest.result);
            run.result.downloaded == 0 && NoLookup(run.calls) && OnlyRemoved(run.files, files)
  {
    var all := [List(q.0, q.1)] + rest.calls;
    assert forall i :: 1 <= i < |all| ==> all[i] == rest.calls[i - 1];
  }

  /** The `.txt` files listed for one song; none for a song without a path. */
  function TxtOf(o: Oracle, files: map<string, string>, song: Item): nat
  {
    if song.path.Some? then |SidecarsOf(o, files, song.path.value).txtFiles| else 0
  }

  /**
   * The `.txt` files listed for the songs, counted over the whole library, each
   * song's listing taken on the files the songs before it left.
   */
  function TxtTotal(o: Oracle, files: map<string, string>, songs: seq<Item>): nat
    decreases |songs|
  {
    if songs == [] then 0
    else TxtOf(o, files, songs[0]) + TxtTotal(o, JsSong(o, files, songs[0]).files, songs[1..])
  }

  /** One song adds at most its listed `.txt` files to `deletedCount + skippedCount`. */
  lemma SongCountsBounded(o: Oracle, files: map<string, string>, song: Item)
    ensures var run := JsSong(o, files, song);
            run.result.deleted + run.result.skipped <= TxtOf(o, files, song) && run.result.downloaded == 0
  {
    if song.path.None? || SidecarsOf(o, files, song.path.value).txtFiles == [] {
      NoTxtNoProbe(o, files, song);
    } else {
      JsWithTxt(o, files, song);
      var sidecars := SidecarsOf(o, files, song.path.value);
      DeleteIffTimed(o, files, sidecars.txtFiles, sidecars.lrcFiles);
    }
  }

  /**
   * At the end of a library, `deletedCount + skippedCount` is at most the
   * number of listed `.txt` files, and nothing was downloaded.
   */
  lemma {:induction false} CountsBounded(o: Oracle, files: map<string, string>, songs: seq<Item>)
    ensures var run := RunSongs(JsStep(o), files, songs);
            run.totals.deleted + run.totals.skipped <= TxtTotal(o, files, songs) && run.totals.downloaded == 0
    decreases |songs|
  {
    if songs != [] {
      var first := JsStep(o)(files, songs[0]);
      SongCountsBounded(o, files, songs[0]);
      CountsBounded(o, first.files, songs[1..]);
    }
  }
}
