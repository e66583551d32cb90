/**
 * The per-library tallies of the lyrics scripts: the songs are processed one
 * after the other, each on the host's files as the previous song left them, and
 * each song's result is added to running totals. The fold is generic in the
 * per-song step, so that its laws hold for every script variant.
 */
module Tally {
  import opened Catalog
  import opened RemoteHost

  /**
   * One song's `{ deleted, downloaded, skipped }` result, as `processSong` of
   * cleanup-lyrics-all.ts returns it and as cleanup-lyrics.js adds it to its counters.
   */
  datatype SongResult = SongResult(deleted: nat, downloaded: nat, skipped: nat)

  /** The calls one song makes, the files after it, and its result. */
  datatype SongRun = SongRun(calls: seq<Call>, files: map<string, string>, result: SongResult)

  /** The running totals of a library run. */
  datatype Totals = Totals(deleted: nat, downloaded: nat, skipped: nat)

  function AddResult(t: Totals, r: SongResult): Totals
  {
    Totals(t.deleted + r.deleted, t.downloaded + r.downloaded, t.skipped + r.skipped)
  }

  function Sum(a: Totals, b: Totals): Totals
  {
    Totals(a.deleted + b.deleted, a.downloaded + b.downloaded, a.skipped + b.skipped)
  }

  /** Every count of `a` is at most the same count of `b`. */
  predicate AtMost(a: Totals, b: Totals)
  {
    a.deleted <= b.deleted && a.downloaded <= b.downloaded && a.skipped <= b.skipped
  }

  datatype LibraryRun = LibraryRun(calls: seq<Call>, files: map<string, string>, totals: Totals)

  /** One song's processing as a function of the files before it. */
  type Step = (map<string, string>, Item) -> SongRun

  /** The songs processed one after the other, each on the files the previous one left. */
  function RunSongs(step: Step, files: map<string, string>, songs: seq<Item>): LibraryRun
    decreases |songs|
  {
    if songs == [] then LibraryRun([], files, Totals(0, 0, 0))
    else
      var first := step(files, songs[0]);
      var rest := RunSongs(step, first.files, songs[1..]);
      LibraryRun(first.calls + rest.calls, rest.files, AddResult(rest.totals, first.result))
  }

  /** The fold over `songs[i..]` is song `i`'s run followed by the fold over the songs after it. */
  lemma RunSongsUnroll(step: Step, files: map<string, string>, songs: seq<Item>, i: nat)
    requires i < |songs|
    ensures var first := step(files, songs[i]);
            var later := RunSongs(step, first.files, songs[i + 1..]);
            RunSongs(step, files, songs[i..]) ==
              LibraryRun(first.calls + later.calls, later.files, AddResult(later.totals, first.result))
  {
    assert songs[i..][1..] == songs[i + 1..];
  }

  /** Processing `a` and then `b` is processing `a + b`: the totals add up. */
  lemma {:induction false} RunSongsAppend(step: Step, files: map<string, string>, a: seq<Item>, b: seq<Item>)
    ensures var ra := RunSongs(step, files, a);
            var rb := RunSongs(step, ra.files, b);
            RunSongs(step, files, a + b) == LibraryRun(ra.calls + rb.calls, rb.files, Sum(ra.totals, rb.totals))
    decreases |a|
  {
    if a == [] {
      assert a + b == b;
    } else {
      assert (a + b)[0] == a[0];
      assert (a + b)[1..] == a[1..] + b;
      var first := step(files, a[0]);
      RunSongsAppend(step, first.files, a[1..], b);
    }
  }

  /** The totals after the first `n` songs never exceed the final totals. */
  lemma TotalsNeverDecrease(step: Step, files: map<string, string>, songs: seq<Item>, n: nat)
    requires n <= |songs|
    ensures AtMost(RunSongs(step, files, songs[..n]).totals, RunSongs(step, files, songs).totals)
  {
    assert songs == songs[..n] + songs[n..];
    RunSongsAppend(step, files, songs[..n], songs[n..]);
  }
}
