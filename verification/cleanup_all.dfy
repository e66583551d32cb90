/**
 * `processSong` and `processLibrary` of cleanup-lyrics-all.ts: every song of
 * every music library is reconciled. A song with any sidecar file and no timed
 * `.lrc` gets a lookup and possibly a download, and its `.txt` files are deleted
 * whatever the lookup gave.
 */
module CleanupAll {
  import opened Wrappers
  import opened JsStrings
  import opened SidecarPaths
  import opened ShellQuoting
  import opened Catalog
  import opened LrcLib
  import opened RemoteHost
  import opened Reconcile
  import opened Tally

  /**
   * What `processSong` does to one song. A song without a path makes the path
   * rewrite throw, which the song's own `catch` turns into the zero result.
   */
  function SongOutcome(o: Oracle, files: map<string, string>, song: Item): SongRun
  {
    if song.path.None? then SongRun([], files, SongResult(0, 0, 0))
    else
      var q := ListingQuery(o.roots, song.path.value);
      var sidecars := SidecarsOf(o, files, song.path.value);
      if |sidecars.txtFiles| == 0 && |sidecars.lrcFiles| == 0 then SongRun([List(q.0, q.1)], files, SongResult(0, 0, 0))
      else
        var run := AfterListing(o, files, SearchParams(song), LrcTarget(o.roots, song.path.value), sidecars.txtFiles, sidecars.lrcFiles);
        SongRun([List(q.0, q.1)] + run.calls, run.files, run.result)
  }

  /**
   * The rest of `processSong` once some sidecar file was found: probe the `.lrc`
   * files, look up and save when none is timed, then delete the `.txt` files.
   */
  function AfterListing(o: Oracle, files: map<string, string>, params: seq<Param>, target: string,
                        txt: seq<string>, lrc: seq<string>): SongRun
  {
    var scan := ScanForTimed(o, files, lrc);
    var dl := if !scan.timed && (|txt| > 0 || |lrc| > 0)
              then LookupAndSave(o, files, params, target)
              else Download([], files, false);
    var del := if |txt| > 0 then DeleteEach(o, dl.files, txt) else Deletion(dl.files, 0);
    // the `else if` repeats the condition it follows, so it never sets `skipped`
    var skipped := if |txt| > 0 then 0 else if |txt| > 0 then |txt| else 0;
    SongRun(ProbeCalls(scan.probed) + dl.calls + (if |txt| > 0 then RemoveCalls(txt) else []),
            del.files,
            SongResult(del.deleted, if dl.saved then 1 else 0, skipped))
  }

  method ProcessSong(host: Host, song: Item) returns (result: SongResult)
    modifies host
    ensures var run := SongOutcome(host.oracle, old(host.files), song);
            result == run.result && host.files == run.files && host.log == old(host.log) + run.calls
  {
    result := SongResult(0, 0, 0);
    if song.path.None? {
      return;
    }
    var songPath := song.path.value;
    ghost var o, files0, log0 := host.oracle, host.files, host.log;
    var lyricFiles := FindLyricFiles(host, songPath);
    assert lyricFiles == SidecarsOf(o, files0, songPath);
    if |lyricFiles.txtFiles| == 0 && |lyricFiles.lrcFiles| == 0 {
      assert lyricFiles == LyricFiles([], []);
      NoSidecarsNoWork(o, files0, song);
      return;
    }
    WithSidecars(o, files0, song);
    ghost var q := ListingQuery(o.roots, songPath);
    assert host.log == log0 + [List(q.0, q.1)];
    ghost var rest := AfterListing(o, files0, SearchParams(song), LrcTarget(o.roots, songPath), lyricFiles.txtFiles, lyricFiles.lrcFiles);
    result := ReconcileListed(host, song, songPath, lyricFiles.txtFiles, lyricFiles.lrcFiles);
    LogAssoc(log0, [List(q.0, q.1)], rest.calls);
  }

  /** The rest of `processSong`, once the listing found some sidecar file. */
  method ReconcileListed(host: Host, song: Item, songPath: string, txtFiles: seq<string>, lrcFiles: seq<string>)
      returns (result: SongResult)
    requires song.path == Some(songPath)
    modifies host
    ensures var run := AfterListing(host.oracle, old(host.files), SearchParams(song), LrcTarget(host.oracle.roots, songPath), txtFiles, lrcFiles);
            result == run.result && host.files == run.files && host.log == old(host.log) + run.calls
  {
    ghost var o, files0, log0 := host.oracle, host.files, host.log;
    ghost var params, target := SearchParams(song), LrcTarget(host.oracle.roots, songPath);
    ghost var scan := ScanForTimed(o, files0, lrcFiles);
    ghost var dl := if !scan.timed && (|txtFiles| > 0 || |lrcFiles| > 0) then LookupAndSave(o, files0, params, target)
                    else Download([], files0, false);
    ghost var del := if |txtFiles| > 0 then DeleteEach(o, dl.files, txtFiles) else Deletion(dl.files, 0);
    ghost var removes := if |txtFiles| > 0 then RemoveCalls(txtFiles) else [];
    result := SongResult(0, 0, 0);
    var hasTimedLrc := FindTimedLrc(host, lrcFiles);
    ghost var logProbed := host.log;
    assert logProbed == log0 + ProbeCalls(scan.probed);
    if !hasTimedLrc && (|txtFiles| > 0 || |lrcFiles| > 0) {
      var saved := DownloadSynced(host, song, songPath);
      if saved {
        hasTimedLrc := true;
        result := result.(downloaded := 1);
      }
    }
    assert host.files == dl.files && host.log == logProbed + dl.calls;
    ghost var logDownloaded := host.log;
    var txtCount: nat := |txtFiles|;
    if |txtFiles| > 0 {
      var deleted := DeleteTxtFiles(host, txtFiles);
      result := result.(deleted := deleted);
    } else if |txtFiles| > 0 {
      result := result.(skipped := txtCount);
    }
    assert host.files == del.files && host.log == logDownloaded + removes;
    LogAssoc(log0, ProbeCalls(scan.probed), dl.calls);
    LogAssoc(log0, ProbeCalls(scan.probed) + dl.calls, removes);
  }

  /**
   * A song without a path makes no remote call; a song with no sidecar file
   * costs one listing call. Either way nothing changes and the result is zero.
   */
  lemma NoSidecarsNoWork(o: Oracle, files: map<string, string>, song: Item)
    requires song.path.None? || SidecarsOf(o, files, song.path.value) == LyricFiles([], [])
    ensures var run := SongOutcome(o, files, song);
            && run.files == files && run.result == SongResult(0, 0, 0)
            && (song.path.None? ==> run.calls == [])
            && (song.path.Some? ==> run.calls == [List(ListingQuery(o.roots, song.path.value).0, ListingQuery(o.roots, song.path.value).1)])
  {
  }

  /** With some sidecar file found, the run is the listing call followed by `AfterListing`. */
  lemma WithSidecars(o: Oracle, files: map<string, string>, song: Item)
    requires song.path.Some?
    requires SidecarsOf(o, files, song.path.value) != LyricFiles([], [])
    ensures var songPath := song.path.value;
            var q := ListingQuery(o.roots, songPath);
            var sidecars := SidecarsOf(o, files, songPath);
            var rest := AfterListing(o, files, SearchParams(song), LrcTarget(o.roots, songPath), sidecars.txtFiles, sidecars.lrcFiles);
            SongOutcome(o, files, song) == SongRun([List(q.0, q.1)] + rest.calls, rest.files, rest.result)
  {
  }

  /** The calls of `AfterListing`, split into its three stages. */
  lemma AfterListingCalls(o: Oracle, files: map<string, string>, params: seq<Param>, target: string,
                          txt: seq<string>, lrc: seq<string>)
    requires |txt| > 0 || |lrc| > 0
    ensures var scan := ScanForTimed(o, files, lrc);
            var dl := if !scan.timed then LookupAndSave(o, files, params, target) else Download([], files, false);
            AfterListing(o, files, params, target, txt, lrc).calls ==
              ProbeCalls(scan.probed) + dl.calls + (if |txt| > 0 then RemoveCalls(txt) else [])
  {
  }

  /**
   * Once sidecars were found, the lookup runs exactly when none of the `.lrc`
   * files is timed; `downloaded` is 1 exactly when, on top of that, the lookup
   * gave synced lyrics and the write succeeded, and 0 otherwise.
   */
  lemma LookupAndDownload(o: Oracle, files: map<string, string>, params: seq<Param>, target: string,
                          txt: seq<string>, lrc: seq<string>)
    requires |txt| > 0 || |lrc| > 0
    ensures var run := AfterListing(o, files, params, target, txt, lrc);
            var untimed := forall k :: 0 <= k < |lrc| ==> !ProbeOf(o, files, lrc[k]);
            && (Searched(run.calls) <==> untimed)
            && (run.result.downloaded == 1 <==>
                  untimed && Saves(o, params, target))
            && run.result.downloaded <= 1
  {
    var scan := ScanForTimed(o, files, lrc);
    var dl := if !scan.timed then LookupAndSave(o, files, params, target) else Download([], files, false);
    ScanFindsTimed(o, files, lrc);
    var removes := if |txt| > 0 then RemoveCalls(txt) else [];
    AfterListingCalls(o, files, params, target, txt, lrc);
    SearchedAppend(ProbeCalls(scan.probed) + dl.calls, removes);
    SearchedAppend(ProbeCalls(scan.probed), dl.calls);
    assert !Searched(ProbeCalls(scan.probed));
    assert !Searched(removes);
    if !scan.timed {
      assert dl.calls[0].Search?;
    }
  }

  /**
   * Every `.txt` file listed for the song is delete-attempted once, in listing
   * order, whether or not a timed `.lrc` exists or a download happened; `deleted`
   * counts the listed paths whose command succeeded and `skipped` stays 0.
   */
  lemma DeletesEveryTxt(o: Oracle, files: map<string, string>, params: seq<Param>, target: string,
                        txt: seq<string>, lrc: seq<string>)
    requires |txt| > 0 || |lrc| > 0
    ensures var run := AfterListing(o, files, params, target, txt, lrc);
            && RemovedPaths(run.calls) == txt
            && run.result.deleted <= |txt|
            && run.result.deleted == |Filter(Removable(o), txt)|
            && run.result.skipped == 0
  {
    var scan := ScanForTimed(o, files, lrc);
    var dl := if !scan.timed then LookupAndSave(o, files, params, target) else Download([], files, false);
    var removes := if |txt| > 0 then RemoveCalls(txt) else [];
    AfterListingCalls(o, files, params, target, txt, lrc);
    RemovedPathsAppend(ProbeCalls(scan.probed) + dl.calls, removes);
    RemovedPathsAppend(ProbeCalls(scan.probed), dl.calls);
    RemovedPathsOfProbeCalls(scan.probed);
    RemovedPathsNone(dl.calls);
    RemovedPathsOfRemoveCalls(txt);
    if |txt| > 0 {
      DeleteEachEffect(o, dl.files, txt);
    }
  }

  /**
   * Only the `.lrc` target and the listed `.txt` files can change; a `.txt`
   * file whose deletion succeeded is gone, and a downloaded `.lrc` holds what
   * the save left: the synced lyrics followed by a newline when neither they
   * nor the target hold a character the shells alter.
   */
  lemma SongFrame(o: Oracle, files: map<string, string>, params: seq<Param>, target: string,
                  txt: seq<string>, lrc: seq<string>)
    requires |txt| > 0 || |lrc| > 0
    requires target !in txt
    ensures var run := AfterListing(o, files, params, target, txt, lrc);
            var hit := SearchLrcLib(ReplyOf(o, params));
            && (forall p :: p !in txt && p != target ==> Same(run.files, files, p))
            && (forall p :: p in txt && Succeeds(o, p) ==> p !in run.files)
            && (run.result.downloaded == 1 ==>
                  target in run.files &&
                  run.files[target] == SaveOutcome(o, target, hit.value.syncedLyrics.value).value)
            && (run.result.downloaded == 1 && EchoesAsIs(hit.value.syncedLyrics.value) && Literal(target) ==>
                  run.files[target] == hit.value.syncedLyrics.value + "\n")
  {
    var scan := ScanForTimed(o, files, lrc);
    var dl := if !scan.timed then LookupAndSave(o, files, params, target) else Download([], files, false);
    var hit := SearchLrcLib(ReplyOf(o, params));
    if !scan.timed {
      LookupAndSaveEffect(o, files, params, target);
    }
    if |txt| > 0 {
      DeleteEachEffect(o, dl.files, txt);
    }
  }

  /** The `.lrc` target is never among the listed `.txt` files, so deleting them cannot undo a download. */
  lemma TargetNotListedTxt(o: Oracle, files: map<string, string>, songPath: string)
    ensures LrcTarget(o.roots, songPath) !in SidecarsOf(o, files, songPath).txtFiles
  {
    var target := LrcTarget(o.roots, songPath);
    if target in SidecarsOf(o, files, songPath).txtFiles {
      var q := ListingQuery(o.roots, songPath);
      ParseListingSplits(ListingOf(o, files, q.0, q.1));
      LrcTargetBesideSong(o.roots, songPath);
      EndsWithSameLength(target, ".txt", ".lrc");
    }
  }

  /**
   * A `.txt` file one song deletes is gone before the next song is listed, so
   * a later song that shares its directory and stem (`x.mp3` and `x.flac`
   * beside `x.txt`) does not find it again and the library counts it once.
   */
  lemma DeletedTxtNotRelisted(o: Oracle, files: map<string, string>, song: Item, p: string, later: string)
    requires song.path.Some?
    requires p in SidecarsOf(o, files, song.path.value).txtFiles && Succeeds(o, p)
    requires FindsIntact(o, SongOutcome(o, files, song).files, later)
    ensures p !in SidecarsOf(o, SongOutcome(o, files, song).files, later).txtFiles
  {
    var songPath := song.path.value;
    var sidecars := SidecarsOf(o, files, songPath);
    TargetNotListedTxt(o, files, songPath);
    SongFrame(o, files, SearchParams(song), LrcTarget(o.roots, songPath), sidecars.txtFiles, sidecars.lrcFiles);
    DeletedNotFound(o, SongOutcome(o, files, song).files, later, p);
  }

  /** `processSong` of this script as the step of the library fold. */
  function SongStep(o: Oracle): Step
  {
    (files, song) => SongOutcome(o, files, song)
  }

  /**
   * `processLibrary`: enumerate the library's songs, then process them in order,
   * adding each song's result to the totals. A failed page is thrown before any
   * song is processed.
   */
  method ProcessLibrary(host: Host, pages: seq<PageReply>) returns (r: Result<Totals, int>)
    modifies host
    ensures Enumerate(pages, 0).songs.Failure? ==>
              r == Failure(Enumerate(pages, 0).songs.error) && host.files == old(host.files) && host.log == old(host.log)
    ensures Enumerate(pages, 0).songs.Success? ==>
              var run := RunSongs(SongStep(host.oracle), old(host.files), Enumerate(pages, 0).songs.value);
              r == Success(run.totals) && host.files == run.files && host.log == old(host.log) + run.calls
  {
    var songs, _ := GetAllSongs(pages);
    if songs.Failure? {
      return Failure(songs.error);
    }
    var totals := ProcessSongs(host, songs.value);
    r := Success(totals);
  }

  /** The loop of `processLibrary`: every song in order, its result added to the totals. */
  method ProcessSongs(host: Host, songs: seq<Item>) returns (totals: Totals)
    modifies host
    ensures var run := RunSongs(SongStep(host.oracle), old(host.files), songs);
            totals == run.totals && host.files == run.files && host.log == old(host.log) + run.calls
  {
    var totalDeleted: nat, totalDownloaded: nat, totalSkipped: nat := 0, 0, 0;
    ghost var step := SongStep(host.oracle);
    ghost var whole := RunSongs(step, host.files, songs);
    assert songs[0..] == songs;
    var i := 0;
    while i < |songs|
      invariant 0 <= i <= |songs|
      invariant var rest := RunSongs(step, host.files, songs[i..]);
                && whole.files == rest.files
                && old(host.log) + whole.calls == host.log + rest.calls
                && whole.totals.deleted == totalDeleted + rest.totals.deleted
                && whole.totals.downloaded == totalDownloaded + rest.totals.downloaded
                && whole.totals.skipped == totalSkipped + rest.totals.skipped
    {
      ghost var filesBefore, logBefore := host.files, host.log;
      ghost var first := step(filesBefore, songs[i]);
      ghost var later := RunSongs(step, first.files, songs[i + 1..]);
      RunSongsUnroll(step, filesBefore, songs, i);
      assert first == SongOutcome(host.oracle, filesBefore, songs[i]);
      var result := ProcessSong(host, songs[i]);
      assert result == first.result && host.files == first.files && host.log == logBefore + first.calls;
      LogAssoc(logBefore, first.calls, later.calls);
      totalDeleted := totalDeleted + result.deleted;
      totalDownloaded := totalDownloaded + result.downloaded;
      totalSkipped := totalSkipped + result.skipped;
      i := i + 1;
    }
    assert songs[i..] == [];
    assert host.log + [] == host.log;
    totals := Totals(totalDeleted, totalDownloaded, totalSkipped);
  }


  /** `skipped` of one song is always 0: the branch that would set it is never taken. */
  lemma SongSkipsNothing(o: Oracle, files: map<string, string>, song: Item)
    ensures SongOutcome(o, files, song).result.skipped == 0
  {
  }

  /** So the library's skipped total stays 0. */
  lemma {:induction false} NothingSkipped(o: Oracle, files: map<string, string>, songs: seq<Item>)
    ensures RunSongs(SongStep(o), files, songs).totals.skipped == 0
    decreases |songs|
  {
    if songs != [] {
      var first := SongStep(o)(files, songs[0]);
      SongSkipsNothing(o, files, songs[0]);
      NothingSkipped(o, first.files, songs[1..]);
    }
  }
}
