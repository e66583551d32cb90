/**
 * cleanup-lyrics.ts, the single-song variant: `run` picks the first song of
 * the first music library, and `processSong` probes its `.lrc` files, looks up
 * synced lyrics whenever none is timed (even when no sidecar file was found at
 * all), and deletes the `.txt` files only once a timed `.lrc` exists.
 */
module CleanupSingle {
  import opened Wrappers
  import opened SidecarPaths
  import opened ShellQuoting
  import opened Catalog
  import opened LrcLib
  import opened RemoteHost
  import opened Reconcile

  /** The calls `processSong` makes, the files after it, and its final `hasTimedLrc` flag. */
  datatype SingleRun = SingleRun(calls: seq<Call>, files: map<string, string>, hasTimedLrc: bool)

  /**
   * What `processSong` does to one song. A song without a path makes the path
   * rewrite throw, which the song's `catch` swallows before any remote call.
   */
  function SingleSong(o: Oracle, files: map<string, string>, song: Item): SingleRun
  {
    if song.path.None? then SingleRun([], files, false)
    else
      var q := ListingQuery(o.roots, song.path.value);
      var sidecars := SidecarsOf(o, files, song.path.value);
      var rest := SingleAfterListing(o, files, SearchParams(song), LrcTarget(o.roots, song.path.value),
                                     sidecars.txtFiles, sidecars.lrcFiles);
      SingleRun([List(q.0, q.1)] + rest.calls, rest.files, rest.hasTimedLrc)
  }

  /**
   * The rest of `processSong` after the listing: probe the `.lrc` files, look up
   * and save when none is timed, then delete the `.txt` files if a timed `.lrc`
   * was found or saved.
   */
  function SingleAfterListing(o: Oracle, files: map<string, string>, params: seq<Param>, target: string,
                              txt: seq<string>, lrc: seq<string>): SingleRun
  {
    var scan := ScanForTimed(o, files, lrc);
    var dl := if !scan.timed then LookupAndSave(o, files, params, target) else Download([], files, false);
    var timed := scan.timed || dl.saved;
    var del := if timed && |txt| > 0 then DeleteEach(o, dl.files, txt) else Deletion(dl.files, 0);
    SingleRun(ProbeCalls(scan.probed) + dl.calls + (if timed && |txt| > 0 then RemoveCalls(txt) else []),
              del.files, timed)
  }

  /** `processSong` of cleanup-lyrics.ts. */
  method ProcessSong(host: Host, song: Item)
    modifies host
    ensures var run := SingleSong(host.oracle, old(host.files), song);
            host.files == run.files && host.log == old(host.log) + run.calls
  {
    if song.path.None? {
      return;
    }
    var songPath := song.path.value;
    ghost var o, files0, log0 := host.oracle, host.files, host.log;
    var lyricFiles := FindLyricFiles(host, songPath);
    assert lyricFiles == SidecarsOf(o, files0, songPath);
    ghost var q := ListingQuery(o.roots, songPath);
    ghost var rest := SingleAfterListing(o, files0, SearchParams(song), LrcTarget(o.roots, songPath),
                                         lyricFiles.txtFiles, lyricFiles.lrcFiles);
    ReconcileFound(host, song, songPath, lyricFiles.txtFiles, lyricFiles.lrcFiles);
    LogAssoc(log0, [List(q.0, q.1)], rest.calls);
  }

  /** The rest of `processSong` once the listing is in. */
  method ReconcileFound(host: Host, song: Item, songPath: string, txtFiles: seq<string>, lrcFiles: seq<string>)
    requires song.path == Some(songPath)
    modifies host
    ensures var run := SingleAfterListing(host.oracle, old(host.files), SearchParams(song), LrcTarget(host.oracle.roots, songPath),
                                          txtFiles, lrcFiles);
            host.files == run.files && host.log == old(host.log) + run.calls
  {
    ghost var o, files0, log0 := host.oracle, host.files, host.log;
    ghost var params, target := SearchParams(song), LrcTarget(host.oracle.roots, songPath);
    ghost var scan := ScanForTimed(o, files0, lrcFiles);
    ghost var dl := if !scan.timed then LookupAndSave(o, files0, params, target) else Download([], files0, false);
    var hasTimedLrc := FindTimedLrc(host, lrcFiles);
    ghost var logProbed := host.log;
    if !hasTimedLrc {
      var saved := DownloadSynced(host, song, songPath);
      if saved {
        hasTimedLrc := true;
      }
    }
    assert hasTimedLrc == (scan.timed || dl.saved);
    assert host.files == dl.files && host.log == logProbed + dl.calls;
    ghost var logDownloaded := host.log;
    ghost var removes := if hasTimedLrc && |txtFiles| > 0 then RemoveCalls(txtFiles) else [];
    if hasTimedLrc && |txtFiles| > 0 {
      var _ := DeleteTxtFiles(host, txtFiles);
    }
    assert host.log == logDownloaded + removes;
    LogAssoc(log0, ProbeCalls(scan.probed), dl.calls);
    LogAssoc(log0, ProbeCalls(scan.probed) + dl.calls, removes);
  }

  /** The calls of `SingleAfterListing`, split into its three stages. */
  lemma SingleCalls(o: Oracle, files: map<string, string>, params: seq<Param>, target: string,
                    txt: seq<string>, lrc: seq<string>)
    ensures var scan := ScanForTimed(o, files, lrc);
            var dl := if !scan.timed then LookupAndSave(o, files, params, target) else Download([], files, false);
            var run := SingleAfterListing(o, files, params, target, txt, lrc);
            && run.hasTimedLrc == (scan.timed || dl.saved)
            && run.calls == ProbeCalls(scan.probed) + dl.calls
                            + (if run.hasTimedLrc && |txt| > 0 then RemoveCalls(txt) else [])
  {
  }

  /**
   * The lookup runs exactly when none of the `.lrc` files is timed, whatever
   * the listing found; `hasTimedLrc` ends true exactly when some `.lrc` file is
   * timed or the lookup gave synced lyrics that were saved.
   */
  lemma LookupIffUntimed(o: Oracle, files: map<string, string>, params: seq<Param>, target: string,
                         txt: seq<string>, lrc: seq<string>)
    ensures var run := SingleAfterListing(o, files, params, target, txt, lrc);
            var untimed := forall k :: 0 <= k < |lrc| ==> !ProbeOf(o, files, lrc[k]);
            && (Searched(run.calls) <==> untimed)
            && (run.hasTimedLrc <==>
                  !untimed || Saves(o, params, target))
  {
    var scan := ScanForTimed(o, files, lrc);
    var dl := if !scan.timed then LookupAndSave(o, files, params, target) else Download([], files, false);
    ScanFindsTimed(o, files, lrc);
    var run := SingleAfterListing(o, files, params, target, txt, lrc);
    var removes := if run.hasTimedLrc && |txt| > 0 then RemoveCalls(txt) else [];
    SingleCalls(o, files, params, target, txt, lrc);
    SearchedAppend(ProbeCalls(scan.probed) + dl.calls, removes);
    SearchedAppend(ProbeCalls(scan.probed), dl.calls);
    assert !Searched(ProbeCalls(scan.probed));
    assert !Searched(removes);
    if !scan.timed {
      assert dl.calls[0].Search?;
    }
  }

  /** A song whose listing found nothing still gets the lookup. */
  lemma NoEarlyExit(o: Oracle, files: map<string, string>, song: Item)
    requires song.path.Some? && SidecarsOf(o, files, song.path.value) == LyricFiles([], [])
    ensures Searched(SingleSong(o, files, song).calls)
  {
    var p := song.path.value;
    var q := ListingQuery(o.roots, p);
    var rest := SingleAfterListing(o, files, SearchParams(song), LrcTarget(o.roots, p), [], []);
    LookupIffUntimed(o, files, SearchParams(song), LrcTarget(o.roots, p), [], []);
    SearchedAppend([List(q.0, q.1)], rest.calls);
  }

  /**
   * The `.txt` files are delete-attempted, each once and in order, exactly when
   * `hasTimedLrc` holds, failed deletions included; otherwise none is attempted
   * and, with no timed `.lrc` and nothing saved, no file changes at all.
   */
  lemma DeletesOnlyWhenTimed(o: Oracle, files: map<string, string>, params: seq<Param>, target: string,
                             txt: seq<string>, lrc: seq<string>)
    ensures var run := SingleAfterListing(o, files, params, target, txt, lrc);
            && RemovedPaths(run.calls) == (if run.hasTimedLrc then txt else [])
            && (!run.hasTimedLrc ==> run.files == files)
  {
    var scan := ScanForTimed(o, files, lrc);
    var dl := if !scan.timed then LookupAndSave(o, files, params, target) else Download([], files, false);
    var run := SingleAfterListing(o, files, params, target, txt, lrc);
    var removes := if run.hasTimedLrc && |txt| > 0 then RemoveCalls(txt) else [];
    SingleCalls(o, files, params, target, txt, lrc);
    RemovedPathsAppend(ProbeCalls(scan.probed) + dl.calls, removes);
    RemovedPathsAppend(ProbeCalls(scan.probed), dl.calls);
    RemovedPathsOfProbeCalls(scan.probed);
    RemovedPathsNone(dl.calls);
    RemovedPathsOfRemoveCalls(txt);
    RemovedPathsNone([]);
  }

  /**
   * Synced lyrics with an odd number of single quotes are never saved, so when
   * no `.lrc` file is timed `hasTimedLrc` stays false, no `.txt` file is
   * delete-attempted and no file changes.
   */
  lemma OddQuotesKeepTxt(o: Oracle, files: map<string, string>, params: seq<Param>, target: string,
                         txt: seq<string>, lrc: seq<string>)
    requires forall k :: 0 <= k < |lrc| ==> !ProbeOf(o, files, lrc[k])
    requires Literal(target)
    requires var hit := SearchLrcLib(ReplyOf(o, params));
             hit.Some? &&
             var lyrics := hit.value.syncedLyrics.value;
             Plain(lyrics) && '"' !in lyrics && multiset(lyrics)[Quote] % 2 == 1
    ensures var run := SingleAfterListing(o, files, params, target, txt, lrc);
            !run.hasTimedLrc && RemovedPaths(run.calls) == [] && run.files == files
  {
    var hit := SearchLrcLib(ReplyOf(o, params));
    OddQuotesNotWritten(o, files, target, hit.value.syncedLyrics.value);
    LookupIffUntimed(o, files, params, target, txt, lrc);
    DeletesOnlyWhenTimed(o, files, params, target, txt, lrc);
  }

  /**
   * With a timed `.lrc`, a `.txt` file whose deletion succeeded is gone and one
   * whose deletion failed is untouched; the failure does not stop the others.
   */
  lemma DeletionFailuresIsolated(o: Oracle, files: map<string, string>, params: seq<Param>, target: string,
                                 txt: seq<string>, lrc: seq<string>)
    requires target !in txt
    ensures var run := SingleAfterListing(o, files, params, target, txt, lrc);
            run.hasTimedLrc ==>
              && (forall p :: p in txt && Succeeds(o, p) ==> p !in run.files)
              && (forall p :: p in txt && !Succeeds(o, p) ==> Same(run.files, files, p))
  {
    var scan := ScanForTimed(o, files, lrc);
    var dl := if !scan.timed then LookupAndSave(o, files, params, target) else Download([], files, false);
    if |txt| > 0 {
      DeleteEachEffect(o, dl.files, txt);
    }
  }

  /**
   * What `run` gets to: an unreachable host, a failed request, no music
   * library, an empty library, or the song it processes.
   */
  datatype Selection = Unreachable | Failed(status: int) | NoLibraries | NoSongs | First(library: Item, song: Item)

  /**
   * The selection of `run`: the music libraries among the views, the first of
   * them, and the first song the one-item request for it returns. A failed
   * request is thrown and ends the run.
   */
  function SelectFirstSong(views: PageReply, firstSongReply: PageReply): (s: Selection)
    ensures s.First? <==>
              && views.Page? && MusicLibraries(views).value != []
              && firstSongReply.Page? && firstSongReply.items != []
    ensures s.First? ==>
              s.library == MusicLibraries(views).value[0] && s.library in views.items
              && IsMusicLibrary(s.library) && s.song == firstSongReply.items[0]
    ensures s == NoLibraries <==> views.Page? && forall v :: v in views.items ==> !IsMusicLibrary(v)
    ensures s == NoSongs <==>
              views.Page? && MusicLibraries(views).value != [] && firstSongReply == Page([])
  {
    match MusicLibraries(views)
    case Failure(status) => Failed(status)
    case Success(libraries) =>
      if |libraries| == 0 then NoLibraries
      else
        match FirstSong(firstSongReply)
        case Failure(status) => Failed(status)
        case Success(first) =>
          if first.None? then NoSongs else First(libraries[0], first.value)
  }

  /**
   * `run`: the ssh connection test comes first, and a host that does not answer
   * ends the run before any request. Otherwise only the first song of the
   * first music library is processed; with no library, no song or a failed
   * request nothing is processed.
   */
  method Run(host: Host, views: PageReply, firstSongReply: PageReply) returns (s: Selection)
    modifies host
    ensures s == if host.oracle.reachable then SelectFirstSong(views, firstSongReply) else Unreachable
    ensures s.First? ==>
              var run := SingleSong(host.oracle, old(host.files), s.song);
              host.files == run.files && host.log == old(host.log) + [ConnectionTest] + run.calls
    ensures !s.First? ==> host.files == old(host.files) && host.log == old(host.log) + [ConnectionTest]
  {
    var reachable := host.TestConnection();
    if !reachable {
      return Unreachable;
    }
    var libraries := MusicLibraries(views);
    if libraries.Failure? {
      return Failed(libraries.error);
    }
    if |libraries.value| == 0 {
      return NoLibraries;
    }
    var firstLibrary := libraries.value[0];
    var firstSong := FirstSong(firstSongReply);
    if firstSong.Failure? {
      return Failed(firstSong.error);
    }
    if firstSong.value.None? {
      return NoSongs;
    }
    ProcessSong(host, firstSong.value.value);
    s := First(firstLibrary, firstSong.value.value);
  }
}
