/**
 * The remote side of the lyrics scripts: the music host reached over ssh (its
 * files, the `find` listing, the timing probe, `echo > file`, `rm -f`) and the
 * lrclib search service. Their answers come from an oracle fixed for a run; the
 * host's files are a map from path to content that writes and deletions update,
 * and every remote call is appended to a log, so that the order and the targets
 * of the calls can be stated.
 */
module RemoteHost {
  import opened Wrappers
  import opened JsStrings
  import opened SidecarPaths
  import opened ShellQuoting
  import opened PathOrder
  import opened LrcLib

  /** One remote call, with the arguments that matter. */
  datatype Call =
    | ConnectionTest
    | List(directory: string, stem: string)
    | Probe(path: string)
    | Search(params: seq<Param>)
    | Write(path: string, payload: string)
    | Remove(path: string)

  /**
   * What a run depends on besides the host's files: the roots the script
   * rewrites song paths with (`Downloads` in all three scripts), the `find`
   * output for each directory and stem the shells alter (absent when the
   * command fails), the paths whose ssh commands fail, the lrclib reply for each query (absent
   * when the request throws), and, for each path and payload whose `echo`
   * command the shells would alter, the content the command leaves (absent
   * when it fails), and whether the host answers ssh at all.
   */
  datatype Oracle = Oracle(
    roots: Mount,
    listings: map<(string, string), string>,
    failing: set<string>,
    replies: map<seq<Param>, LookupReply>,
    echoed: map<(string, string), string>,
    reachable: bool)

  /** Characters `find -name` reads as wildcards. */
  predicate GlobFree(s: string) {
    forall ch :: ch in s ==> ch != '*' && ch != '?' && ch != '['
  }

  /**
   * `find '<directory>' -name '<stem>.*' \( -name '*.txt' -o -name '*.lrc' \)`
   * prints this path: it lies in the tree under the directory, and its name
   * starts with the stem and a dot and ends in `.txt` or `.lrc`.
   */
  predicate FindSelects(directory: string, stem: string, path: string) {
    && directory != ""
    && StartsWith(path, directory + "/")
    && StartsWith(SplitAtLastSlash(path).1, stem + ".")
    && (IsTxt(path) || IsLrc(path))
  }

  /** The paths of the host's files `find` prints for a directory and stem, in ascending order. */
  function FindSelected(files: map<string, string>, directory: string, stem: string): seq<string>
  {
    Ascending(set p | p in files && FindSelects(directory, stem, p))
  }

  /** `find` prints each path on a line of its own. */
  function FindOutput(paths: seq<string>): string
  {
    if paths == [] then [] else paths[0] + "\n" + FindOutput(paths[1..])
  }

  /**
   * The output of the listing command, or none when ssh fails. A literal
   * directory and a literal, wildcard-free stem reach `find` intact, and its
   * output follows from the host's files as they are now; `2>/dev/null || true`
   * turns a missing directory into an empty listing. The shells alter any
   * other query, and the oracle says what it prints.
   */
  function ListingOf(o: Oracle, files: map<string, string>, directory: string, stem: string): Option<string>
  {
    if !Succeeds(o, directory) then None
    else if Literal(directory) && Literal(stem) && GlobFree(stem) then Some(FindOutput(FindSelected(files, directory, stem)))
    else if (directory, stem) in o.listings then Some(o.listings[(directory, stem)])
    else None
  }

  /** The `find` output is the paths joined by line breaks, with one more after the last. */
  lemma {:induction false} FindOutputJoin(paths: seq<string>)
    requires paths != []
    ensures FindOutput(paths) == Join(paths, '\n') + "\n"
    decreases |paths|
  {
    if |paths| > 1 {
      FindOutputJoin(paths[1..]);
    }
  }

  /**
   * Reading back what `find` prints gives the printed paths, in order, when no
   * path holds a line break and the output neither starts nor ends with white
   * space (`trim` would take it).
   */
  lemma ListedFindOutput(paths: seq<string>)
    requires forall k :: 0 <= k < |paths| ==> paths[k] != [] && '\n' !in paths[k]
    requires paths != [] ==> !IsJsWhitespace(paths[0][0]) && !IsJsWhitespace(Last(paths[|paths| - 1]))
    ensures ListedPaths(FindOutput(paths)) == paths
  {
    if paths == [] {
      NothingListed();
    } else {
      ListedJoined(paths);
      SplitJoin(paths, '\n');
      FilterAll(NonEmpty, paths);
    }
  }

  /** `trim` takes only the final line break: the lines read back are those of the join. */
  lemma ListedJoined(paths: seq<string>)
    requires paths != [] && paths[0] != [] && paths[|paths| - 1] != []
    requires !IsJsWhitespace(paths[0][0]) && !IsJsWhitespace(Last(paths[|paths| - 1]))
    ensures ListedPaths(FindOutput(paths)) == Filter(NonEmpty, Split(Join(paths, '\n'), '\n'))
  {
    var t := Join(paths, '\n');
    FindOutputJoin(paths);
    JoinOuterChars(paths);
    TrimTrailingNewline(t);
    ListedUntrimmed(t);
  }

  /** An empty output lists nothing. */
  lemma NothingListed()
    ensures ListedPaths([]) == []
  {
    assert Trim([]) == [];
    assert Split([], '\n') == [""];
    assert Filter(NonEmpty, [""]) == [];
  }

  lemma ListedUntrimmed(t: string)
    requires Trim(t + "\n") == t
    ensures ListedPaths(t + "\n") == Filter(NonEmpty, Split(t, '\n'))
  {
  }

  lemma JoinOuterChars(paths: seq<string>)
    requires paths != [] && paths[0] != [] && paths[|paths| - 1] != []
    ensures var t := Join(paths, '\n');
            t != [] && t[0] == paths[0][0] && t[|t| - 1] == Last(paths[|paths| - 1])
  {
    var t := Join(paths, '\n');
    JoinEnds(paths, '\n');
    assert t[..|paths[0]|][0] == t[0];
    var l := paths[|paths| - 1];
    assert t[|t| - |l|..][|l| - 1] == t[|t| - 1];
  }

  /** Every selected path is a line `find` prints and `trim` leaves alone. */
  lemma SelectedPrintable(files: map<string, string>, directory: string, stem: string)
    requires forall p :: p in files && FindSelects(directory, stem, p) ==> '\n' !in p
    requires directory != [] && !IsJsWhitespace(directory[0])
    ensures var sel := FindSelected(files, directory, stem);
            forall k :: 0 <= k < |sel| ==>
              && sel[k] != [] && '\n' !in sel[k]
              && !IsJsWhitespace(sel[k][0]) && !IsJsWhitespace(Last(sel[k]))
  {
    var selected := set p | p in files && FindSelects(directory, stem, p);
    var sel := Ascending(selected);
    assert InOrder(sel, selected);
    forall k | 0 <= k < |sel|
      ensures sel[k] != [] && '\n' !in sel[k]
      ensures !IsJsWhitespace(sel[k][0]) && !IsJsWhitespace(Last(sel[k]))
    {
      assert sel[k] in selected;
      SelectedShape(directory, stem, sel[k]);
    }
  }

  /** A selected path starts with the directory and ends with the `t` or `c` of its extension. */
  lemma SelectedShape(directory: string, stem: string, p: string)
    requires FindSelects(directory, stem, p)
    ensures p != [] && p[0] == directory[0] && (Last(p) == 't' || Last(p) == 'c')
  {
    assert p[..|directory + "/"|] == directory + "/";
    if IsTxt(p) {
      assert p[|p| - 4..] == ".txt";
      assert p[|p| - 4..][3] == Last(p);
    } else {
      assert p[|p| - 4..] == ".lrc";
      assert p[|p| - 4..][3] == Last(p);
    }
  }

  function Last(s: string): char
    requires s != []
  {
    s[|s| - 1]
  }

  /**
   * For a literal query on a directory that does not start with white space,
   * and files whose selected paths hold no line break, the paths read back from
   * the listing are the selected files of the host as they are now, each once,
   * in ascending order: a file deleted earlier is not listed.
   */
  lemma ListingOfFiles(o: Oracle, files: map<string, string>, directory: string, stem: string)
    requires Succeeds(o, directory) && Literal(directory) && Literal(stem) && GlobFree(stem)
    requires directory != [] && !IsJsWhitespace(directory[0])
    requires forall p :: p in files && FindSelects(directory, stem, p) ==> '\n' !in p
    ensures ListingOf(o, files, directory, stem).Some?
    ensures ListedPaths(ListingOf(o, files, directory, stem).value) == FindSelected(files, directory, stem)
    ensures forall p :: p in FindSelected(files, directory, stem) <==> p in files && FindSelects(directory, stem, p)
  {
    var sel := FindSelected(files, directory, stem);
    SelectedPrintable(files, directory, stem);
    assert InOrder(sel, set p | p in files && FindSelects(directory, stem, p));
    ListedFindOutput(sel);
  }

  /** A command on this path succeeds. */
  predicate Succeeds(o: Oracle, path: string) {
    path !in o.failing
  }

  /**
   * `hasTimings`: a failing command reads as "no timings", and so does a missing
   * file (`head` prints nothing, `wc -l` counts 0).
   */
  predicate ProbeOf(o: Oracle, files: map<string, string>, path: string) {
    Succeeds(o, path) && path in files && HasTimings(files[path])
  }

  function ReplyOf(o: Oracle, params: seq<Param>): LookupReply
  {
    if params in o.replies then o.replies[params] else NetworkError
  }

  /**
   * What `ssh <user>@<host> "echo '<payload>' > '<path>'"` leaves in the file,
   * or none when the command fails. It fails when ssh fails on the path, and
   * when the local shell's quotes do not close (the command line is then a
   * syntax error). When the payload and the path are literal, the remote shell
   * receives the command intact and the file holds the payload and `echo`'s
   * newline. Any other command is altered by one of the shells in ways not
   * modelled here, and the oracle says what it leaves.
   */
  function EchoOutcome(o: Oracle, path: string, payload: string): Option<string>
  {
    var argument := EchoArgument(path, payload);
    if !Succeeds(o, path) then None
    else if Plain(argument) && Unquote(Bare, argument).mode != Bare then None
    else if EchoesAsIs(payload) && Literal(path) then Some(payload + "\n")
    else if (path, payload) in o.echoed then Some(o.echoed[(path, payload)])
    else None
  }

  /** The files after the `echo` command. */
  function AfterWrite(o: Oracle, files: map<string, string>, path: string, payload: string): map<string, string>
  {
    var outcome := EchoOutcome(o, path, payload);
    if outcome.Some? then files[path := outcome.value] else files
  }

  /**
   * Lyrics and a path that no shell alters are written exactly, followed by a
   * newline, whenever ssh reaches the path.
   */
  lemma LiteralLyricsWritten(o: Oracle, files: map<string, string>, path: string, lyrics: string)
    requires Succeeds(o, path) && EchoesAsIs(lyrics) && Literal(path)
    ensures EchoOutcome(o, path, EscapeQuotes(lyrics)) == Some(lyrics + "\n")
    ensures AfterWrite(o, files, path, EscapeQuotes(lyrics)) == files[path := lyrics + "\n"]
  {
    EscapeQuoteFree(lyrics);
    assert Quote !in lyrics && multiset(lyrics)[Quote] == 0;
    LocalQuotesClose(lyrics, path);
  }

  /**
   * Lyrics with an odd number of single quotes are never written: the escaped
   * quotes leave the local command line inside a quote, and nothing changes.
   */
  lemma OddQuotesNotWritten(o: Oracle, files: map<string, string>, path: string, lyrics: string)
    requires Plain(lyrics) && '"' !in lyrics && multiset(lyrics)[Quote] % 2 == 1
    requires Literal(path)
    ensures EchoOutcome(o, path, EscapeQuotes(lyrics)).None?
    ensures AfterWrite(o, files, path, EscapeQuotes(lyrics)) == files
  {
    LocalQuotesClose(lyrics, path);
    EscapeKeepsPlain(lyrics);
    PlainEchoArgument(path, EscapeQuotes(lyrics));
  }

  lemma PlainEchoArgument(path: string, payload: string)
    requires Plain(path) && Plain(payload)
    ensures Plain(EchoArgument(path, payload))
  {
  }

  /** A synced line such as `[00:01.00]I'm here` is never written. */
  lemma ApostropheLineNotWritten(o: Oracle, files: map<string, string>, path: string)
    requires Literal(path)
    ensures AfterWrite(o, files, path, EscapeQuotes("[00:01.00]I'm here")) == files
  {
    ExampleLineParts();
    OneQuoteNotWritten(o, files, path, "[00:01.00]I", "m here");
  }

  lemma OneQuoteNotWritten(o: Oracle, files: map<string, string>, path: string, before: string, after: string)
    requires Literal(path) && Literal(before) && Literal(after)
    ensures AfterWrite(o, files, path, EscapeQuotes(before + [Quote] + after)) == files
  {
    OneQuoteBetween(before, after);
    OddQuotesNotWritten(o, files, path, before + [Quote] + after);
  }

  lemma ExampleLineParts()
    ensures Literal("[00:01.00]I") && Literal("m here")
    ensures "[00:01.00]I'm here" == "[00:01.00]I" + [Quote] + "m here"
  {
  }

  lemma OneQuoteBetween(before: string, after: string)
    requires Literal(before) && Literal(after)
    ensures var lyrics := before + [Quote] + after;
            Plain(lyrics) && '"' !in lyrics && multiset(lyrics)[Quote] == 1
  {
    var lyrics := before + [Quote] + after;
    assert forall ch :: ch in lyrics ==> ch in before || ch == Quote || ch in after;
    assert Quote !in before && Quote !in after;
    assert multiset(lyrics) == multiset(before) + multiset{Quote} + multiset(after);
  }

  /** The files after `rm -f '<path>'`. */
  function AfterRemove(o: Oracle, files: map<string, string>, path: string): map<string, string>
  {
    if Succeeds(o, path) then files - {path} else files
  }

  /** The path holds the same thing (or is absent) in both maps. */
  predicate Same(f: map<string, string>, g: map<string, string>, path: string) {
    (path in f <==> path in g) && (path in f ==> f[path] == g[path])
  }

  class Host {
    const oracle: Oracle
    var files: map<string, string>
    var log: seq<Call>

    constructor (oracle: Oracle, files: map<string, string>)
      ensures this.oracle == oracle && this.files == files && log == []
    {
      this.oracle := oracle;
      this.files := files;
      log := [];
    }

    /** `ssh <user>@<host> "echo 'SSH connection successful'"`: whether the host answers. */
    method TestConnection() returns (ok: bool)
      modifies this`log
      ensures ok == oracle.reachable
      ensures log == old(log) + [ConnectionTest]
    {
      ok := oracle.reachable;
      log := log + [ConnectionTest];
    }

    /** `find '<directory>' -name '<stem>.*' ...`: its output, or none when ssh fails. */
    method List(directory: string, stem: string) returns (stdout: Option<string>)
      modifies this`log
      ensures stdout == ListingOf(oracle, files, directory, stem)
      ensures log == old(log) + [Call.List(directory, stem)]
    {
      stdout := ListingOf(oracle, files, directory, stem);
      log := log + [Call.List(directory, stem)];
    }

    /** `head -20 '<path>' | grep -E '<tag>' | wc -l` is positive. */
    method Probe(path: string) returns (timed: bool)
      modifies this`log
      ensures timed == ProbeOf(oracle, files, path)
      ensures log == old(log) + [Call.Probe(path)]
    {
      timed := ProbeOf(oracle, files, path);
      log := log + [Call.Probe(path)];
    }

    /** The lrclib search request. */
    method Search(params: seq<Param>) returns (reply: LookupReply)
      modifies this`log
      ensures reply == ReplyOf(oracle, params)
      ensures log == old(log) + [Call.Search(params)]
    {
      reply := ReplyOf(oracle, params);
      log := log + [Call.Search(params)];
    }

    /** The `echo` command: whether `exec` resolved, and the file it leaves. */
    method Write(path: string, payload: string) returns (ok: bool)
      modifies this
      ensures ok == EchoOutcome(oracle, path, payload).Some?
      ensures files == AfterWrite(oracle, old(files), path, payload)
      ensures log == old(log) + [Call.Write(path, payload)]
    {
      var outcome := EchoOutcome(oracle, path, payload);
      ok := outcome.Some?;
      if ok {
        files := files[path := outcome.value];
      }
      log := log + [Call.Write(path, payload)];
    }

    method Remove(path: string) returns (ok: bool)
      modifies this
      ensures ok == Succeeds(oracle, path)
      ensures files == AfterRemove(oracle, old(files), path)
      ensures log == old(log) + [Call.Remove(path)]
    {
      ok := Succeeds(oracle, path);
      if ok {
        files := files - {path};
      }
      log := log + [Call.Remove(path)];
    }
  }
}
