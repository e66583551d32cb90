# Lyrics sidecar reconciliation and session broadcast, in Dafny

This project models the core of jellyfin-notifier-webhook, a set of
maintenance scripts and helpers for a Jellyfin media server.

**Lyrics cleanup.** Three scripts reconcile the lyric sidecar files stored
next to the songs of the server's music libraries. The library lives on a
separate host reached over ssh. For each song, a script:

1. rewrites the song's server path (`/downloads/...`) into the host path;
2. lists the `.txt` and `.lrc` files named after the song (`find`);
3. probes the `.lrc` files one by one, checking whether any of their first
   20 lines holds a `[mm:ss.xx]` time tag;
4. when none is timed, searches lrclib for synced lyrics and writes them to
   `<dir>/<stem>.lrc`;
5. deletes the plain `.txt` lyrics.

The three scripts differ in this flow:

- `cleanup-lyrics-all.ts` pages through every song of every music library.
  It returns early from a song with no sidecar file. It deletes the `.txt`
  files whatever the lookup gave, and it keeps totals.
- `cleanup-lyrics.ts` processes only the first song of the first library.
  It looks lyrics up even when no sidecar exists, and deletes `.txt` files
  only once a timed `.lrc` exists.
- `cleanup-lyrics.js` fetches a library's songs in one request. It never
  looks anything up. It deletes or skips `.txt` files depending on the probe.

**Session broadcast.** `sendMessageToAllActiveSessions` sends one message to
every session of the server, except sessions without an id and sessions of
the notifier's own devices.

**Statistics.** Two scripts tally the tags, or the actors and directors, of
all movies and series. Each prints the counts in ascending order, followed by
a short summary.

## How it is modelled

**The remote side.** The ssh host and the lrclib service form one
`RemoteHost.Host` object:

- its files are a `map` from path to content;
- every remote call is appended to a `log`;
- `find` lists the host's current files that match the song's directory and
  stem (`RemoteHost.ListingOf`), in ascending path order (`PathOrder`), so a
  file deleted for one song is not found for the next;
- `echo` writes the lyrics when the shells leave them alone, and the command
  fails when the quotes of the local command line do not close
  (`ShellQuoting`, `RemoteHost.EchoOutcome`);
- what the shells make of other commands, the probes' failures and the
  lrclib replies come from a fixed `Oracle`;
- the path rewrite takes its roots as a `Mount` parameter; all three scripts
  use the same `Downloads` mount.

**The scripts.** Each script step is a method on the host. Each method is
proved against a pure function that says which calls it makes and what the
files become. Libraries are folds over songs (`Tally.RunSongs`); the paginated
enumeration is `Catalog.Enumerate`.

**The statistics.** The statistics scripts fill a `Frequency.CountMap` class,
which stands for the JavaScript `Map`. It has a ghost history `seen` and the
invariant "the map holds `Tally(seen)`". Its entries are copied into an array
and sorted in place by count.

**Broadcasting.** The broadcast sends through a `SessionChannel` object. The
channel records every send and rejects the session ids it is given.

## Findings

| source | as written | input that shows it | evidently intended | confidence | as-written member | corrected member |
|---|---|---|---|---|---|---|
| cleanup-lyrics-all.ts:263-265 | the single quotes of the lyrics are escaped for one shell, but the command is parsed twice, first inside local double quotes, so `'"'"'` closes those double quotes (cleanup-lyrics.ts:257-259 does the same) | the lyric line `[00:01.00]I'm here`: the local command line ends inside a quote and the save fails | the escaped text reaches one shell unaltered (ssh given the command as an argument, not through a local shell), which gets the lyrics back as they are | not executed; high | RemoteHost.ApostropheLineNotWritten | ShellQuoting.SingleQuotedRoundTrip |

## Model

| member | source | states |
|---|---|---|
| JsStrings.IndexOfFromSpec | cleanup-lyrics-all.ts:170-176 | the search behind `replace` returns the first occurrence at or after the start, or -1 exactly when there is none |
| JsStrings.ReplaceFirstOfPrefix | cleanup-lyrics-all.ts:170-176 | replacing the first occurrence of a prefix swaps that prefix and keeps the rest |
| JsStrings.LastIndexOfSpec | cleanup-lyrics-all.ts:257-259 | `lastIndexOf` is -1 exactly when the character is absent; otherwise the character is there and nowhere after it |
| JsStrings.SubstringSpec | cleanup-lyrics-all.ts:257-259 | `substring` gives the slice for in-range bounds; a negative end swaps to a prefix; a negative start is clamped to 0 |
| JsStrings.TrimStart | cleanup-lyrics-all.ts:189-192 | the removed head is all whitespace, and what is left does not start with whitespace |
| JsStrings.TrimEnd | cleanup-lyrics-all.ts:189-192 | the removed tail is all whitespace, and what is left does not end with whitespace |
| JsStrings.JoinSplit | cleanup-lyrics-all.ts:189-192 | splitting on the separator loses nothing: joining the pieces gives the string back |
| JsStrings.SplitPiecesLackSeparator | cleanup-lyrics-all.ts:189-192 | no piece of a split contains the separator |
| JsStrings.SplitFirstSeparator | cleanup-lyrics-all.ts:189-192 | the text before the first separator is the first piece, and the rest is split on its own |
| JsStrings.FilterKeeps | amplify/function/helpers/sendMessageToAllActiveSessions.ts:19-25 | `filter` keeps, in order, every element that passes, as often as it occurs, and drops every element that fails |
| JsStrings.FilterKeepsAll | src/test-list-all-tags.ts:51-53 | the filter keeps the whole list exactly when every element passes |
| SidecarPaths.ConvertIsReplace | cleanup-lyrics-all.ts:170-176 | a path that starts with the server root has that root replaced by the host root; any other path is unchanged |
| SidecarPaths.ConvertIdempotent | cleanup-lyrics-all.ts:170-176 | with the scripts' roots, rewriting an already rewritten path changes nothing |
| SidecarPaths.ConvertIgnoresSeparator | cleanup-lyrics-all.ts:170-176 | the prefix test is textual, so a sibling directory `/downloadsX` is rewritten too |
| SidecarPaths.SplitAtLastSlashParts | cleanup-lyrics-all.ts:257-258 | the directory and the file name rejoin with `/` to form the path; without a `/` the directory is empty; the name holds no `/` |
| SidecarPaths.StemOfParts | cleanup-lyrics-all.ts:259 | the stem is the name before its last `.`, and a name without `.` has an empty stem |
| SidecarPaths.LrcTargetBesideSong | cleanup-lyrics-all.ts:255-260 | the saved `.lrc` sits in the directory that `find` searches and has the same stem as the song |
| SidecarPaths.LrcTargetOfBareName | cleanup-lyrics-all.ts:257-260 | a host path with no `/` and no `.` gets the target `/.lrc` |
| SidecarPaths.ListedPathsLines | cleanup-lyrics-all.ts:189-192 | exactly the non-empty output lines are listed, and none of them holds a line break |
| SidecarPaths.ParseListingSplits | cleanup-lyrics-all.ts:178-202 | a failed probe gives two empty lists; otherwise `.txt` and `.lrc` hold, in order, exactly the listed paths with that ending |
| SidecarPaths.ListingDisjoint | cleanup-lyrics-all.ts:194-197 | no listed path is both a `.txt` and an `.lrc` sidecar |
| SidecarPaths.TrimTrailingNewline | cleanup-lyrics-all.ts:189-192 | the line break that ends `find` output is removed by `trim` |
| SidecarPaths.ParseListingOfPair | cleanup-lyrics-all.ts:178-202 | a two-line listing yields one `.txt` and one `.lrc` sidecar |
| JsStrings.SplitJoin | cleanup-lyrics-all.ts:189-192 | pieces without the separator come back unchanged from joining and splitting |
| JsStrings.FilterAll | cleanup-lyrics-all.ts:192 | a filter every element passes keeps the list as it is |
| ShellQuoting.EscapeLength | cleanup-lyrics-all.ts:263 | each single quote grows by four characters, and every other character is kept once |
| ShellQuoting.EscapeExample | cleanup-lyrics-all.ts:263 | `it's` is sent as `it'"'"'s` |
| ShellQuoting.EscapeQuoteFree | cleanup-lyrics-all.ts:263 | lyrics without a single quote are sent unchanged |
| ShellQuoting.SingleQuotedRoundTrip | cleanup-lyrics-all.ts:263-265 | what the escaping is designed for: a shell that parses `'<escaped lyrics>'` once gets exactly the lyrics back, whatever they hold |
| ShellQuoting.EscapedQuotesToggle | cleanup-lyrics-all.ts:263-265 | inside the double quotes of the local command line, each escaped quote moves the parse between the double-quoted and the unquoted state, so an odd count of quotes ends in the other state |
| ShellQuoting.LocalQuotesClose | cleanup-lyrics-all.ts:263-265 | for lyrics without `"` and a target without quotes, the local command line's quotes close exactly when the lyrics hold an even number of single quotes |
| PathOrder.Ascending | cleanup-lyrics-all.ts:185 | the listed paths are the members of the selected set, each once, in ascending order |
| PathOrder.LeastExists | cleanup-lyrics-all.ts:185 | every non-empty set of paths has a least member, so the ascending listing is defined |
| SidecarPaths.LineMatchesFromIff | cleanup-lyrics-all.ts:206 | the line scan matches exactly when a `[dd:dd.dd]` tag starts at or after the given position |
| SidecarPaths.AnyLineMatchesIff | cleanup-lyrics-all.ts:206-211 | the match count is positive exactly when some line holds a tag |
| SidecarPaths.Head | cleanup-lyrics-all.ts:206 | `head -20` keeps at most 20 lines |
| SidecarPaths.HasTimingsIff | cleanup-lyrics-all.ts:204-215 | a file has timings exactly when one of its first 20 lines holds a `[dd:dd.dd]` tag |
| SidecarPaths.TagOnSecondLine | cleanup-lyrics-all.ts:204-215 | a tag on the line after a metadata line is found |
| Catalog.MusicLibraries | cleanup-lyrics-all.ts:95-120 | a failed request is an error; otherwise exactly the `music` views are kept, in order and with their multiplicity |
| Catalog.GetAllSongs | cleanup-lyrics-all.ts:122-168 | the paging loop computes the enumeration `Enumerate(pages, 0)`: the songs and the offsets it requested |
| Catalog.EnumerateRequests | cleanup-lyrics-all.ts:126-158 | requests go to offsets 0, 1000, 2000 and so on; every page but the last was full; the last was short or failed |
| Catalog.EnumerateResult | cleanup-lyrics-all.ts:129-166 | the result is all requested pages in order; if the last request failed, the enumeration fails with its status |
| Catalog.FullPagesCostOneMoreRequest | cleanup-lyrics-all.ts:154-158 | when every page is exactly full, every page is returned, plus one extra request answered by an empty page |
| Catalog.FirstSong | cleanup-lyrics.ts:122-151 | a failed request is an error; otherwise the first item, or none for an empty page |
| Catalog.SinglePageSongs | cleanup-lyrics.js:87-117 | one request: a failure is thrown, and a page is returned as it is |
| Catalog.SinglePageOfServer | cleanup-lyrics.js:87-117 | the one request with `Limit` 10000 returns the first 10000 items the server holds; it returns them all exactly when there are no more, so later songs are never processed |
| Catalog.FirstSongOfServer | cleanup-lyrics.ts:122-151 | the one-item request gives the first item the server holds, and none exactly when the library is empty |
| LrcLib.ArtistFallback | cleanup-lyrics-all.ts:219 | the artist is the first artist if non-empty, else the album artist if non-empty, else empty; it is empty exactly when neither exists |
| LrcLib.RoundTicks | cleanup-lyrics-all.ts:221 | the duration is the nearest whole second, with halves rounded up |
| LrcLib.RoundTicksUnique | cleanup-lyrics-all.ts:221 | only one whole number satisfies the rounding bracket |
| LrcLib.DecimalRoundTrip | cleanup-lyrics-all.ts:228 | the duration's decimal text reads back as the same integer |
| LrcLib.SearchParamsContents | cleanup-lyrics-all.ts:217-229 | the query has track and artist always, the album only when it is non-empty, and the duration only when the rounded value is non-zero |
| LrcLib.FirstSynced | cleanup-lyrics-all.ts:248 | `find` stops at the first result with synced lyrics, and every earlier result has none |
| LrcLib.SearchLrcLib | cleanup-lyrics-all.ts:237-252 | a returned entry is the first result with synced lyrics |
| LrcLib.SearchFindsSynced | cleanup-lyrics-all.ts:237-252 | an entry comes back exactly when the reply is a list holding some entry with synced lyrics; errors, non-OK statuses and empty lists give nothing |
| RemoteHost.Host.constructor | cleanup-lyrics-all.ts:178-284 | a run starts with the given files and an empty call log |
| RemoteHost.Host.List | cleanup-lyrics-all.ts:185-188 | the `find` call is logged; a failed command gives nothing; a literal query lists the host's current files under the directory named after the stem with a `.txt` or `.lrc` ending, in ascending order |
| RemoteHost.ListedFindOutput | cleanup-lyrics-all.ts:185-192 | trimming, splitting and filtering what `find` prints gives back the printed paths, in order |
| RemoteHost.ListingOfFiles | cleanup-lyrics-all.ts:184-192 | for a literal query, the paths read back are exactly the host's current files the `find` expression selects, each once, in ascending order |
| RemoteHost.Host.Probe | cleanup-lyrics-all.ts:204-215 | the probe is logged and is true exactly when the file exists, the command succeeds and the file has timings |
| RemoteHost.Host.TestConnection | cleanup-lyrics.ts:336-339 | the connection test is logged and succeeds exactly when the host answers ssh |
| RemoteHost.Host.Search | cleanup-lyrics-all.ts:231-235 | the lookup is logged and returns the service's reply for the query |
| RemoteHost.Host.Write | cleanup-lyrics-all.ts:265-272 | the call is logged; it fails when ssh fails or the local command line's quotes do not close, and then nothing changes; a literal payload and target leave the payload plus a newline |
| RemoteHost.LiteralLyricsWritten | cleanup-lyrics-all.ts:263-272 | lyrics and a target the shells leave alone are written as they are, followed by a newline |
| RemoteHost.OddQuotesNotWritten | cleanup-lyrics-all.ts:263-272 | lyrics with an odd number of single quotes (no `"`, `\`, `$` or backquote) make the command fail and write nothing |
| RemoteHost.ApostropheLineNotWritten | cleanup-lyrics-all.ts:263-272 | the lyric line `[00:01.00]I'm here` is not saved: the files are unchanged |
| RemoteHost.Host.Remove | cleanup-lyrics-all.ts:275-284 | on success the path is gone; on failure nothing changes; the call is logged |
| Reconcile.FindLyricFiles | cleanup-lyrics-all.ts:178-202 | one `find` call in the song's directory for its stem, parsed into the two sidecar lists |
| Reconcile.ScanForTimed | cleanup-lyrics-all.ts:301-307 | the probed files are a prefix of the `.lrc` list, and the whole list when none was timed |
| Reconcile.ScanFindsTimed | cleanup-lyrics-all.ts:301-307 | the scan reports timings exactly when some listed `.lrc` file has them |
| Reconcile.ScanStopsAt | cleanup-lyrics-all.ts:302-306 | the scan stops at the first timed file, and no later file is probed |
| Reconcile.FindTimedLrc | cleanup-lyrics-all.ts:301-307 | the probe loop returns the scan's verdict and logs one probe per scanned file, in order |
| Reconcile.DeleteEach | cleanup-lyrics-all.ts:324-328 | the count of successful deletions is at most the number of files |
| Reconcile.DeleteEachEffect | cleanup-lyrics-all.ts:275-284 | a listed path is gone exactly when its `rm` succeeded; other paths are untouched; the count is the number of listed paths whose `rm` succeeded, so it is full or zero exactly when all or none succeeded |
| Reconcile.DeleteTxtFiles | cleanup-lyrics-all.ts:323-331 | one `rm -f` per listed file, in order; files and count as `DeleteEach` says |
| Reconcile.SaveLrcFile | cleanup-lyrics-all.ts:255-273 | the escaped lyrics are echoed into the song's `.lrc` target and nothing else changes; literal lyrics are saved followed by a newline; lyrics with an odd number of single quotes are not saved |
| Reconcile.LookupAndSaveEffect | cleanup-lyrics-all.ts:310-320 | saved exactly when the search gave synced lyrics and the echo command succeeded; only the target can change, to what the echo leaves (the lyrics and a newline when literal); the search is always the first call; nothing is deleted |
| Reconcile.SidecarsSpec | cleanup-lyrics-all.ts:178-198 | for a query that reaches `find` intact, a path is found as `.txt` (or `.lrc`) exactly when it is on the host now, lies under the directory, is named after the stem and has that ending |
| Reconcile.DeletedNotFound | cleanup-lyrics-all.ts:178-198 | a file no longer on the host is not found again |
| Reconcile.DownloadSynced | cleanup-lyrics-all.ts:310-320 | the lookup-then-save step does what `LookupAndSave` says to the files and the log |
| Reconcile.RemovedPathsOfRemoveCalls | cleanup-lyrics-all.ts:324-328 | the deletions logged by the delete loop are exactly the listed paths |
| Tally.RunSongsAppend | cleanup-lyrics-all.ts:352-370 | processing `a` and then `b` is processing `a + b`: the logs concatenate and the totals add |
| Tally.TotalsNeverDecrease | cleanup-lyrics-all.ts:356-358 | the totals after any prefix of the songs never exceed the final totals |
| CleanupAll.ProcessSong | cleanup-lyrics-all.ts:286-340 | `processSong` does what `SongOutcome` says: result, files and calls |
| CleanupAll.ReconcileListed | cleanup-lyrics-all.ts:300-334 | once sidecars are found: probe, look up when none is timed, then delete the `.txt` files |
| CleanupAll.NoSidecarsNoWork | cleanup-lyrics-all.ts:293-298 | a song with no path makes no call; a song with no sidecar costs only the listing; neither changes anything, and both yield zero |
| CleanupAll.WithSidecars | cleanup-lyrics-all.ts:294-334 | with some sidecar found, the run is the listing followed by the rest of the song's processing |
| CleanupAll.AfterListingCalls | cleanup-lyrics-all.ts:300-331 | the calls are the probes, then the lookup (if any), then the deletions (if any `.txt` file) |
| CleanupAll.LookupAndDownload | cleanup-lyrics-all.ts:309-320 | the lookup runs exactly when no `.lrc` is timed; `downloaded` is 1 exactly when it also gave synced lyrics that were saved |
| CleanupAll.DeletesEveryTxt | cleanup-lyrics-all.ts:322-334 | every listed `.txt` is delete-attempted once, in order, whatever the lookup gave; `deleted` is the number of them whose deletion succeeded; `skipped` stays 0 |
| CleanupAll.SongFrame | cleanup-lyrics-all.ts:310-331 | only the target and the listed `.txt` files can change; a successfully deleted `.txt` is gone; a download holds what the echo left, the synced lyrics and a newline when they are literal |
| CleanupAll.DeletedTxtNotRelisted | cleanup-lyrics-all.ts:286-334 | a `.txt` file one song deleted is not found by a later song of the same directory and stem, so the library counts it once |
| CleanupAll.TargetNotListedTxt | cleanup-lyrics-all.ts:185-197 | the `.lrc` target is never one of the listed `.txt` files |
| CleanupAll.ProcessLibrary | cleanup-lyrics-all.ts:342-377 | a failed page is thrown before any song is touched; otherwise every enumerated song is processed in order and the totals are summed |
| CleanupAll.ProcessSongs | cleanup-lyrics-all.ts:352-370 | the song loop is the fold of `processSong` over the songs |
| CleanupAll.SongSkipsNothing | cleanup-lyrics-all.ts:323-334 | the `skipped` branch is dead: one song's skipped count is always 0 |
| CleanupAll.NothingSkipped | cleanup-lyrics-all.ts:358 | so the library's skipped total is always 0 |
| CleanupSingle.ProcessSong | cleanup-lyrics.ts:284-330 | `processSong` does what `SingleSong` says to the files and the log |
| CleanupSingle.ReconcileFound | cleanup-lyrics.ts:293-326 | after the listing: probe, look up when none is timed, delete only when a timed `.lrc` exists |
| CleanupSingle.SingleCalls | cleanup-lyrics.ts:293-321 | `hasTimedLrc` is "a probe found timings or the lookup saved"; the calls are probes, lookup, then deletions only under `hasTimedLrc` |
| CleanupSingle.LookupIffUntimed | cleanup-lyrics.ts:303-314 | the lookup runs exactly when no `.lrc` is timed; `hasTimedLrc` holds exactly when one is timed or synced lyrics were saved |
| CleanupSingle.NoEarlyExit | cleanup-lyrics.ts:289-306 | a song with no sidecar still gets a lookup |
| CleanupSingle.DeletesOnlyWhenTimed | cleanup-lyrics.ts:316-326 | the `.txt` files are delete-attempted, once each and in order, exactly under `hasTimedLrc`; otherwise no file changes |
| CleanupSingle.OddQuotesKeepTxt | cleanup-lyrics.ts:257-321 | with no timed `.lrc` and lyrics holding an odd number of single quotes, the save fails, `hasTimedLrc` stays false and every `.txt` file is kept |
| CleanupSingle.DeletionFailuresIsolated | cleanup-lyrics.ts:317-321 | a failed deletion leaves that file alone and does not stop the others |
| CleanupSingle.SelectFirstSong | cleanup-lyrics.ts:332-360 | the first song of the first music library is chosen; no library, no song and a failed request are told apart |
| CleanupSingle.Run | cleanup-lyrics.ts:332-367 | the ssh connection test comes first, and an unreachable host ends the run with nothing else called; otherwise only the selected song is processed, and without one nothing changes and nothing else is called |
| CleanupJs.ReconcileSong | cleanup-lyrics.js:186-225 | one loop pass does what `JsSong` says: deleted and skipped counts, files and calls |
| CleanupJs.ReconcileTxt | cleanup-lyrics.js:200-222 | after the listing found `.txt` files: probe, then delete or count as skipped |
| CleanupJs.ProcessLibrary | cleanup-lyrics.js:178-232 | one request; a failure is thrown; otherwise every song is processed and counted, and deleted and skipped are summed |
| CleanupJs.NoTxtNoProbe | cleanup-lyrics.js:194-198 | a song with no `.txt` file costs at most the listing call and changes nothing |
| CleanupJs.JsWithTxt | cleanup-lyrics.js:194-222 | with `.txt` files found, the run is the listing followed by probe and delete-or-skip |
| CleanupJs.DeleteIffTimed | cleanup-lyrics.js:200-222 | the `.txt` files are deleted, once each and in order, exactly when some `.lrc` is timed, and `deletedCount` is the number whose deletion succeeded; otherwise all are counted as skipped and none is touched |
| CleanupJs.NeverDownloads | cleanup-lyrics.js:178-232 | this variant never looks lyrics up or writes a file; files only disappear |
| CleanupJs.CountsBounded | cleanup-lyrics.js:183-218 | deleted plus skipped never exceeds the number of listed `.txt` files, and nothing is downloaded |
| SessionBroadcast.PlanSpec | amplify/function/helpers/sendMessageToAllActiveSessions.ts:19-29 | exactly the eligible sessions are messaged, in list order, each with the caller's text and its own non-empty id |
| SessionBroadcast.NoIdNoMessage | amplify/function/helpers/sendMessageToAllActiveSessions.ts:21 | a session without an id is never messaged |
| SessionBroadcast.FirstRejected | amplify/function/helpers/sendMessageToAllActiveSessions.ts:27 | the index of the first rejected send is within the plan |
| SessionBroadcast.FirstRejectedSpec | amplify/function/helpers/sendMessageToAllActiveSessions.ts:27 | every send before that index succeeds, and the send at it is rejected |
| SessionBroadcast.SessionChannel.Send | amplify/function/helpers/sendMessageToAllActiveSessions.ts:27 | every send is recorded; it fails exactly for a rejected session |
| SessionBroadcast.SendMessageToAll | amplify/function/helpers/sendMessageToAllActiveSessions.ts:14-31 | sends go out in plan order up to and including the first rejection, which fails the call; without a rejection the result is the number of eligible sessions |
| SessionBroadcast.AllDelivered | amplify/function/helpers/sendMessageToAllActiveSessions.ts:28-30 | with no rejection, the count returned is the number of eligible sessions |
| SessionBroadcast.TestCases | src/__tests__/sendMessageToAllActiveSessions.test.ts:48-112 | six sessions, three on the notifier's devices, give three sends; an empty list gives none; a session without an id is skipped |
| Frequency.FirstOrderSpec | src/test-list-all-tags.ts:41 | a `Map`'s iteration order lists each key of the input once, and no other |
| Frequency.TallySpec | src/test-list-all-tags.ts:25-41 | the entries list each distinct key once with its number of occurrences, and their number is the map's size |
| Frequency.CountsOfSnoc | src/test-list-all-tags.ts:32 | counting one more occurrence raises that key's count by one and leaves the others |
| Frequency.FirstOrderSnoc | src/test-list-all-tags.ts:32 | a new key is appended to the iteration order, and a known key keeps its place |
| Frequency.TallySum | src/test-list-all-tags.ts:28-41 | the counts add up to the number of occurrences |
| Frequency.TallySnocOld | src/test-list-all-tags.ts:32 | another occurrence of a known key raises its entry in place |
| Frequency.TallySnocNew | src/test-list-all-tags.ts:32 | the first occurrence of a key adds the entry `(key, 1)` at the end |
| Frequency.CountMap.constructor | src/test-list-all-tags.ts:25 | a new map is empty and has counted nothing |
| Frequency.CountMap.Increment | src/test-list-all-tags.ts:32 | `set(k, (get(k) or 0) + 1)`: the count goes up by one, a new key is inserted last, and the map still holds the tally of everything counted |
| Frequency.CountMap.Entries | src/test-list-all-tags.ts:41 | `Array.from(m.entries())` is the tally of everything counted, in insertion order |
| Frequency.SortByCount | src/test-list-all-tags.ts:41 | the entries are reordered in place into non-decreasing count, as a permutation, and stably: entries with equal counts keep their order |
| Frequency.InsertInto | src/test-list-all-tags.ts:41 | one insertion step extends the sorted prefix by one element, as a stable permutation |
| Frequency.SortedStableUnique | src/test-list-all-tags.ts:41 | two lists sorted by count that keep the same order within each count are equal, so every stable sort by count gives the same list |
| Frequency.SwapKeepsStable | src/test-list-all-tags.ts:41 | swapping two neighbours with different counts keeps the order within every count |
| TagStats.AllTagsSpec | src/test-list-all-tags.ts:28-35 | a tag is counted exactly when some item carries it; nothing is counted exactly when every item is untagged |
| TagStats.CountTags | src/test-list-all-tags.ts:25-35 | the nested loops leave the map holding the tally of every tag occurrence, item after item |
| TagStats.CountEach | src/test-list-all-tags.ts:30-33 | the inner loop counts each tag of the item, in order |
| TagStats.Statistics | src/test-list-all-tags.ts:21-56 | no report without items; otherwise the tally stably sorted by count (a permutation), the number of distinct tags, of items, and of untagged items |
| TagStats.ReportSpec | src/test-list-all-tags.ts:41-53 | every listed entry is a tag with its total count and every tag is listed; counts add up; all items are untagged exactly when no tag occurs |
| TagStats.RepeatsCount | src/test-list-all-tags.ts:30-33 | a tag repeated within one item counts twice |
| PeopleStats.NamesOfSpec | src/test-list-all-actors-and-directors.ts:30-35 | a name is counted exactly when some person with that name has the role Actor or Director |
| PeopleStats.AllNamesSpec | src/test-list-all-actors-and-directors.ts:28-37 | a name is counted exactly when it is counted for some item |
| PeopleStats.CountPeople | src/test-list-all-actors-and-directors.ts:25-37 | the nested loops leave the map holding the tally of every counted name, item after item |
| PeopleStats.CountCredited | src/test-list-all-actors-and-directors.ts:30-35 | the inner loop counts each actor's and director's name, in order, and skips everyone else |
| PeopleStats.Statistics | src/test-list-all-actors-and-directors.ts:21-58 | no report without items; otherwise the tally stably sorted by count (a permutation), the number of distinct names, of items, and of items without people |
| PeopleStats.ReportSpec | src/test-list-all-actors-and-directors.ts:43-51 | every listed entry is a credited name with its total count, and every such name is listed; counts add up |
| PeopleStats.ActorAndDirector | src/test-list-all-actors-and-directors.ts:31-33 | counting is by name alone: the same person as actor and director of one item counts twice |
| PeopleStats.OtherRolesOnly | src/test-list-all-actors-and-directors.ts:29-31 | an item with only other roles adds no name and still counts as an item with people |
| PeopleStats.UnpeopledAddsNothing | src/test-list-all-actors-and-directors.ts:53-55 | if every item lacks people, no name is counted |

## Left out

- Authentication, HTTP requests, JSON decoding and URL percent-encoding are replaced by the replies the server and lrclib give.
- The `find` listing is derived from the host's files only for a literal directory and a literal stem without `*`, `?` or `[`; any other query's output is an oracle answer per directory and stem. The model lists the selected paths in ascending order, where `find` uses directory order. It does not list a directory named like a sidecar, or the starting point itself.
- `find -name` matches the whole name, and a directory given with a trailing `/` doubles the slash in printed paths; the model selects by prefix, stem and ending and assumes a directory without a trailing `/`.
- The shells are modelled through their quote states for text without `\`, `$` and backquotes. Word splitting, escapes, substitutions and `echo` options are not modelled. A command the shells would alter in other ways gets its outcome from the oracle.
- RemoteHost.Host.Write: the content written is stated for literal lyrics and targets, and the failure for lyrics with an odd number of single quotes and no `"`. With an even number of quotes the local shell unquotes the lyrics' quotes, and the remote `echo` receives altered text; that outcome comes from the oracle.
- Reconcile.SaveLrcFile and CleanupAll.SongFrame: saving promises the lyrics back only when they are literal. The quoting round trip of ShellQuoting.SingleQuotedRoundTrip holds for one shell, but the command passes through two.
- The probe and delete commands carry their path in single quotes inside double quotes too. A path holding a quote is treated like any other path there, and the shell injection it would allow is not modelled.
- `Math.round` is modelled on integer ticks; floating point is not modelled.
- Console logging, progress messages, the 100 ms throttling delay and `process.exit` are left out.
- The `run` functions of cleanup-lyrics-all.ts and cleanup-lyrics.js are left out: their ssh connection test and their loop over libraries. One library's processing is modelled.
- The music-library filter of cleanup-lyrics.js is the same as the modelled `Catalog.MusicLibraries`.
- The remote host's answers are fixed for a run. The model does not capture files changing behind the script's back, or concurrency.
- `sendSessionMessage` internals and session listing are left out. The session API is a channel that rejects a given set of ids.
- Frequency.SortByCount is an insertion sort. `Array.prototype.sort` is stable (ECMAScript 2019), and by Frequency.SortedStableUnique any stable sort by count yields the same list, so the in-place algorithm is not the engine's.
- PeopleStats.UnpeopledAddsNothing: stated in one direction only, because the script counts as "without people" only items whose `People` is missing or empty. An item listing only writers or producers adds no name, yet is not counted (PeopleStats.OtherRolesOnly).
- The request parameters of the statistics scripts (item types, sort order, fields) are left out; their `Items` reply is the input.
- The device-cleanup and debug scripts under src/ are not part of this model.
