/**
 * The pure helpers the three lyrics-cleanup scripts share (each script carries
 * its own identical copy): the media-server-to-host path rewrite, the split of a
 * song path into directory, file name and stem, the parse of the `find` listing
 * into `.txt` and `.lrc` sidecars, and the "has timings" test on the first 20
 * lines of an `.lrc` file.
 */
module SidecarPaths {
  import opened Wrappers
  import opened JsStrings

  /** The library root as the media server reports it, and where the host really keeps it. */
  datatype Mount = Mount(serverRoot: string, hostRoot: string)

  /** The roots the three scripts rewrite with. */
  const Downloads := Mount("/downloads", "/home/umbrel/umbrel/home/Downloads")

  /**
   * `convertJellyfinPathToSystemPath`: a path that textually starts with the
   * server root has that prefix replaced by the host root; any other path is
   * returned unchanged. There is no separator check after the prefix.
   */
  function ConvertPath(m: Mount, p: string): string
  {
    if StartsWith(p, m.serverRoot) then m.hostRoot + p[|m.serverRoot|..] else p
  }

  /** The rewrite is the script's `replace` of the first occurrence of the server root. */
  lemma ConvertIsReplace(m: Mount, p: string)
    ensures ConvertPath(m, p) == if StartsWith(p, m.serverRoot) then ReplaceFirst(p, m.serverRoot, m.hostRoot) else p
  {
    if StartsWith(p, m.serverRoot) {
      ReplaceFirstOfPrefix(p, m.serverRoot, m.hostRoot);
    }
  }

  /** With the scripts' roots, rewriting an already rewritten path changes nothing. */
  lemma ConvertIdempotent(p: string)
    ensures ConvertPath(Downloads, ConvertPath(Downloads, p)) == ConvertPath(Downloads, p)
  {
    if StartsWith(p, Downloads.serverRoot) {
      var r := ConvertPath(Downloads, p);
      assert r[..|Downloads.serverRoot|] != Downloads.serverRoot by {
        assert r[1] == Downloads.hostRoot[1] == 'h' && Downloads.serverRoot[1] == 'd';
      }
    }
  }

  /** The prefix test is textual: a sibling directory such as `/downloadsX` is rewritten too. */
  lemma ConvertIgnoresSeparator()
    ensures ConvertPath(Downloads, "/downloadsX/a.mp3") == Downloads.hostRoot + "X/a.mp3"
  {
    assert StartsWith("/downloadsX/a.mp3", Downloads.serverRoot);
    assert "/downloadsX/a.mp3"[|Downloads.serverRoot|..] == "X/a.mp3";
  }

  /** A song path split as `substring`/`lastIndexOf` split it. */
  datatype PathParts = PathParts(directory: string, filename: string, stem: string)

  /**
   * The directory is everything before the last `/` (empty when there is none)
   * and the file name everything after it.
   */
  function SplitAtLastSlash(p: string): (string, string)
  {
    var slash := LastIndexOf(p, '/');
    (Substring(p, 0, slash), SubstringFrom(p, slash + 1))
  }

  lemma SplitAtLastSlashParts(p: string)
    ensures var r := SplitAtLastSlash(p);
            && ('/' in p ==> p == r.0 + "/" + r.1)
            && ('/' !in p ==> r.0 == "" && r.1 == p)
            && '/' !in r.1
  {
    var slash := LastIndexOf(p, '/');
    LastIndexOfSpec(p, '/');
    SubstringSpec(p, 0, slash);
    SubstringSpec(p, slash + 1, |p|);
    if slash >= 0 {
      assert p == p[..slash] + "/" + p[slash + 1..];
    }
  }

  /**
   * The file name up to its last `.`; empty when the name has no `.`, since
   * `substring(0, -1)` is "".
   */
  function StemOf(filename: string): string
  {
    var dot := LastIndexOf(filename, '.');
    Substring(filename, 0, dot)
  }

  lemma StemOfParts(filename: string)
    ensures var stem := StemOf(filename);
            && ('.' in filename ==>
                  && |stem| < |filename|
                  && filename == stem + "." + filename[|stem| + 1..]
                  && '.' !in filename[|stem| + 1..])
            && ('.' !in filename ==> stem == "")
  {
    var dot := LastIndexOf(filename, '.');
    LastIndexOfSpec(filename, '.');
    SubstringSpec(filename, 0, dot);
    if dot >= 0 {
      assert filename == filename[..dot] + "." + filename[dot + 1..];
    }
  }

  function SplitPath(p: string): PathParts
  {
    var (directory, filename) := SplitAtLastSlash(p);
    PathParts(directory, filename, StemOf(filename))
  }

  /** The directory and name stem the `find` probe for a song uses. */
  function ListingQuery(m: Mount, songPath: string): (string, string)
  {
    var parts := SplitPath(ConvertPath(m, songPath));
    (parts.directory, parts.stem)
  }

  /** The `.lrc` file `saveLrcFile` writes for a song. */
  function LrcTarget(m: Mount, songPath: string): string
  {
    var parts := SplitPath(ConvertPath(m, songPath));
    parts.directory + "/" + parts.stem + ".lrc"
  }

  /**
   * The target sits in the directory the listing searches and is named after
   * the same stem: directory + "/" + stem + ".lrc".
   */
  lemma LrcTargetBesideSong(m: Mount, songPath: string)
    ensures var q := ListingQuery(m, songPath);
            LrcTarget(m, songPath) == q.0 + "/" + q.1 + ".lrc"
    ensures EndsWith(LrcTarget(m, songPath), ".lrc")
  {
    var parts := SplitPath(ConvertPath(m, songPath));
    var r := parts.directory + "/" + parts.stem + ".lrc";
    assert r[|r| - 4..] == ".lrc";
  }

  /** A song without a `/` or a `.` in its host path gets the target "/.lrc". */
  lemma LrcTargetOfBareName()
    ensures LrcTarget(Downloads, "song") == "/.lrc"
  {
    assert !StartsWith("song", Downloads.serverRoot);
    assert '/' !in "song" && '.' !in "song";
    SplitAtLastSlashParts("song");
    StemOfParts("song");
  }

  /** The sidecars one `find` run reported, split by extension. */
  datatype LyricFiles = LyricFiles(txtFiles: seq<string>, lrcFiles: seq<string>)

  predicate NonEmpty(f: string) { |f| > 0 }
  predicate IsTxt(f: string) { EndsWith(f, ".txt") }
  predicate IsLrc(f: string) { EndsWith(f, ".lrc") }

  /** The non-empty lines of the trimmed `find` output. */
  function ListedPaths(stdout: string): seq<string>
  {
    Filter(NonEmpty, Split(Trim(stdout), '\n'))
  }

  /** Exactly the non-empty lines are listed, and none of them holds a line break. */
  lemma ListedPathsLines(stdout: string)
    ensures forall f :: f in ListedPaths(stdout) ==> f != "" && '\n' !in f
    ensures forall f :: f in Split(Trim(stdout), '\n') && f != "" ==> f in ListedPaths(stdout)
  {
    var lines := Split(Trim(stdout), '\n');
    FilterKeeps(NonEmpty, lines);
    SplitPiecesLackSeparator(Trim(stdout), '\n');
  }

  /**
   * `findLyricFiles` after the remote call: a failed probe yields two empty lists;
   * otherwise the `.txt` and the `.lrc` paths among the listed ones.
   */
  function ParseListing(stdout: Option<string>): LyricFiles
  {
    match stdout
    case None => LyricFiles([], [])
    case Some(out) =>
      var files := ListedPaths(out);
      LyricFiles(Filter(IsTxt, files), Filter(IsLrc, files))
  }

  /**
   * A failed probe yields two empty lists; otherwise `.txt` and `.lrc` keep, in
   * order, exactly the listed paths ending in that extension.
   */
  lemma ParseListingSplits(stdout: Option<string>)
    ensures var r := ParseListing(stdout);
            && (stdout.None? ==> r == LyricFiles([], []))
            && (stdout.Some? ==> IsSubsequence(r.txtFiles, ListedPaths(stdout.value))
                                 && IsSubsequence(r.lrcFiles, ListedPaths(stdout.value)))
            && (stdout.Some? ==>
                  forall f :: f in r.txtFiles <==> f in ListedPaths(stdout.value) && EndsWith(f, ".txt"))
            && (stdout.Some? ==>
                  forall f :: f in r.lrcFiles <==> f in ListedPaths(stdout.value) && EndsWith(f, ".lrc"))
  {
    if stdout.Some? {
      FilterKeeps(IsTxt, ListedPaths(stdout.value));
      FilterKeeps(IsLrc, ListedPaths(stdout.value));
    }
  }

  /** No listed path is both a `.txt` and an `.lrc` sidecar. */
  lemma ListingDisjoint(stdout: Option<string>)
    ensures forall f :: f in ParseListing(stdout).txtFiles ==> f !in ParseListing(stdout).lrcFiles
  {
    ParseListingSplits(stdout);
    forall f | f in ParseListing(stdout).txtFiles
      ensures f !in ParseListing(stdout).lrcFiles
    {
      EndsWithSameLength(f, ".txt", ".lrc");
    }
  }

  /** `find` ends its output with a line break, which `trim` removes. */
  lemma TrimTrailingNewline(t: string)
    requires t != [] && !IsJsWhitespace(t[0]) && !IsJsWhitespace(t[|t| - 1])
    ensures Trim(t + ['\n']) == t
  {
    var out := t + ['\n'];
    assert TrimStart(out) == out;
    assert out[..|out| - 1] == t;
  }

  /** A typical listing: one sidecar of each kind on its own line, trailing newline trimmed. */
  lemma ParseListingOfPair(a: string, b: string)
    requires IsTxt(a) && IsLrc(b) && '\n' !in a && '\n' !in b
    requires !IsJsWhitespace(a[0]) && !IsJsWhitespace(b[|b| - 1])
    ensures ParseListing(Some(a + ['\n'] + b + ['\n'])) == LyricFiles([a], [b])
  {
    ListedPathsOfPair(a, b);
    assert !IsTxt(b) by { EndsWithSameLength(b, ".txt", ".lrc"); }
    assert !IsLrc(a) by { EndsWithSameLength(a, ".txt", ".lrc"); }
    FilterPair(IsTxt, a, b);
    FilterPair(IsLrc, a, b);
  }

  lemma ListedPathsOfPair(a: string, b: string)
    requires a != [] && b != [] && '\n' !in a && '\n' !in b
    requires !IsJsWhitespace(a[0]) && !IsJsWhitespace(b[|b| - 1])
    ensures ListedPaths(a + ['\n'] + b + ['\n']) == [a, b]
  {
    var t := a + ['\n'] + b;
    assert t[0] == a[0] && t[|t| - 1] == b[|b| - 1];
    calc {
      ListedPaths(t + ['\n']);
      Filter(NonEmpty, Split(Trim(t + ['\n']), '\n'));
      { TrimTrailingNewline(t); }
      Filter(NonEmpty, Split(t, '\n'));
      { SplitNoSeparator(b, '\n'); SplitFirstSeparator(a, b, '\n'); }
      Filter(NonEmpty, [a, b]);
      { FilterPair(NonEmpty, a, b); }
      [a, b];
    }
  }

  predicate IsDigit(c: char) {
    '0' <= c <= '9'
  }

  /** `line` holds `[dd:dd.dd]` (the pattern `\[[0-9]{2}:[0-9]{2}\.[0-9]{2}\]`) at position `i`. */
  predicate TimeTagAt(line: string, i: nat) {
    && i + 10 <= |line|
    && line[i] == '[' && IsDigit(line[i + 1]) && IsDigit(line[i + 2])
    && line[i + 3] == ':' && IsDigit(line[i + 4]) && IsDigit(line[i + 5])
    && line[i + 6] == '.' && IsDigit(line[i + 7]) && IsDigit(line[i + 8])
    && line[i + 9] == ']'
  }

  /** `grep -E` on one line, scanning start positions from `from` onwards. */
  function LineMatchesFrom(line: string, from: nat): bool
    decreases |line| - from
  {
    if from + 10 > |line| then false
    else TimeTagAt(line, from) || LineMatchesFrom(line, from + 1)
  }

  /** The scan finds a tag exactly when one starts at or after `from`. */
  lemma {:induction false} LineMatchesFromIff(line: string, from: nat)
    ensures LineMatchesFrom(line, from) <==> exists i :: from <= i && TimeTagAt(line, i)
    decreases |line| - from
  {
    if from + 10 <= |line| {
      LineMatchesFromIff(line, from + 1);
    }
  }

  /** The number of lines `head -20` passes on. */
  const HeadLines: nat := 20

  /** Some line among `lines` matches (the `grep | wc -l` count is positive). */
  function AnyLineMatches(lines: seq<string>): bool
  {
    if lines == [] then false
    else LineMatchesFrom(lines[0], 0) || AnyLineMatches(lines[1..])
  }

  lemma {:induction false} AnyLineMatchesIff(lines: seq<string>)
    ensures AnyLineMatches(lines) <==> exists k, i :: 0 <= k < |lines| && TimeTagAt(lines[k], i)
  {
    if lines != [] {
      LineMatchesFromIff(lines[0], 0);
      AnyLineMatchesIff(lines[1..]);
      if exists k, i :: 0 <= k < |lines| && TimeTagAt(lines[k], i) {
        var k, i :| 0 <= k < |lines| && TimeTagAt(lines[k], i);
        if k > 0 {
          assert TimeTagAt(lines[1..][k - 1], i);
        }
      }
      if AnyLineMatches(lines[1..]) {
        var k, i :| 0 <= k < |lines[1..]| && TimeTagAt(lines[1..][k], i);
        assert TimeTagAt(lines[k + 1], i);
      }
    }
  }

  /** The first `HeadLines` lines of a file's content. */
  function Head(content: string): (r: seq<string>)
    ensures |r| <= HeadLines
  {
    var lines := Split(content, '\n');
    if |lines| <= HeadLines then lines else lines[..HeadLines]
  }

  /**
   * `hasTimings` on a readable file: true iff one of the first 20 lines holds
   * `[dd:dd.dd]`; an unreadable file is handled by the caller as "no timings".
   */
  predicate HasTimings(content: string) {
    AnyLineMatches(Head(content))
  }

  /**
   * "Has timings" in one statement: some line among the first 20 (or fewer, when
   * the file is shorter) contains a `[dd:dd.dd]` tag.
   */
  lemma HasTimingsIff(content: string)
    ensures var lines := Split(content, '\n');
            HasTimings(content) <==>
              exists k, i :: 0 <= k < |lines| && k < HeadLines && TimeTagAt(lines[k], i)
  {
    var lines := Split(content, '\n');
    var h := Head(content);
    AnyLineMatchesIff(h);
    assert forall k :: 0 <= k < |h| ==> h[k] == lines[k];
    assert |h| == if |lines| <= HeadLines then |lines| else HeadLines;
  }

  /** A tag on the second of two lines is found. */
  lemma TagOnSecondLine(a: string, b: string, i: nat)
    requires '\n' !in a && '\n' !in b && TimeTagAt(b, i)
    ensures HasTimings(a + ['\n'] + b)
  {
    var c := a + ['\n'] + b;
    SplitNoSeparator(b, '\n');
    SplitFirstSeparator(a, b, '\n');
    assert Head(c) == [a, b];
    AnyLineMatchesIff([a, b]);
    assert TimeTagAt([a, b][1], i);
  }

}
