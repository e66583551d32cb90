/**
 * `searchLrcLib`: the query the scripts send to the lrclib search endpoint for a
 * song (artist fallback, album only when known, duration in whole seconds only
 * when non-zero) and the choice among the results (the first one that carries
 * synced lyrics). The HTTP request and the JSON decoding are replaced by the
 * reply the service gives; percent-encoding of the parameters is not modelled.
 */
module LrcLib {
  import opened Wrappers
  import opened Catalog

  /** One query parameter, as a key and its (unencoded) value. */
  type Param = (string, string)

  /** A JavaScript string value is truthy when it is present and non-empty. */
  predicate Truthy(s: Option<string>) {
    s.Some? && s.value != ""
  }

  /** `song.Artists?.[0]`: undefined when there is no artist list or it is empty. */
  function FirstArtist(song: Item): Option<string>
  {
    if song.artists.Some? && |song.artists.value| > 0 then Some(song.artists.value[0]) else None
  }

  /** `song.Artists?.[0] || song.AlbumArtist || ''`. */
  function ArtistName(song: Item): string
  {
    if Truthy(FirstArtist(song)) then FirstArtist(song).value
    else if Truthy(song.albumArtist) then song.albumArtist.value
    else ""
  }

  /**
   * The artist sent is the first artist when that is non-empty, otherwise the
   * album artist when that is non-empty, otherwise empty; it is empty exactly
   * when neither is available.
   */
  lemma ArtistFallback(song: Item)
    ensures Truthy(FirstArtist(song)) ==> ArtistName(song) == song.artists.value[0]
    ensures !Truthy(FirstArtist(song)) && Truthy(song.albumArtist) ==> ArtistName(song) == song.albumArtist.value
    ensures ArtistName(song) == "" <==> !Truthy(FirstArtist(song)) && !Truthy(song.albumArtist)
  {
  }

  /** `song.Album || ''`. */
  function AlbumName(song: Item): string
  {
    if Truthy(song.album) then song.album.value else ""
  }

  /** Media-server ticks per second: durations are 100-nanosecond ticks. */
  const TicksPerSecond: nat := 10_000_000

  /**
   * `Math.round(ticks / 10000000)` done on integers: the nearest whole second,
   * halves rounded up (towards positive infinity, as `Math.round` does).
   */
  function RoundTicks(ticks: int): (seconds: int)
    ensures seconds * TicksPerSecond - TicksPerSecond / 2 <= ticks < seconds * TicksPerSecond + TicksPerSecond / 2
  {
    (ticks + TicksPerSecond / 2) / TicksPerSecond
  }

  /** Rounding is determined by its bracket: no other whole number satisfies it. */
  lemma RoundTicksUnique(ticks: int, s: int)
    requires s * TicksPerSecond - TicksPerSecond / 2 <= ticks < s * TicksPerSecond + TicksPerSecond / 2
    ensures s == RoundTicks(ticks)
  {
  }

  /** `song.RunTimeTicks ? Math.round(...) : undefined`: absent and zero ticks give no duration. */
  function Duration(song: Item): Option<int>
  {
    match song.runTimeTicks
    case Some(t) => if t != 0 then Some(RoundTicks(t)) else None
    case None => None
  }

  function DigitChar(d: nat): char
    requires d < 10
  {
    "0123456789"[d]
  }

  /** The decimal digits of a natural number, without leading zeros. */
  function NatDigits(n: nat): (s: string)
    ensures |s| >= 1
    ensures forall k :: 0 <= k < |s| ==> '0' <= s[k] <= '9'
  {
    if n < 10 then [DigitChar(n)] else NatDigits(n / 10) + [DigitChar(n % 10)]
  }

  /** `n.toString()` for an integer. */
  function DecimalString(n: int): (s: string)
    ensures s != [] && (s[0] == '-' || '0' <= s[0] <= '9')
    ensures forall k :: 1 <= k < |s| ==> '0' <= s[k] <= '9'
  {
    if n < 0 then "-" + NatDigits(-n) else NatDigits(n)
  }

  /** Reads a string of decimal digits back. */
  function ParseNat(s: string): nat
    requires forall k :: 0 <= k < |s| ==> '0' <= s[k] <= '9'
  {
    if s == [] then 0 else ParseNat(s[..|s| - 1]) * 10 + (s[|s| - 1] as int - '0' as int)
  }

  /** Reads an optionally signed decimal integer back. */
  function ParseDecimal(s: string): int
    requires s != [] && (s[0] == '-' || '0' <= s[0] <= '9')
    requires forall k :: 1 <= k < |s| ==> '0' <= s[k] <= '9'
  {
    if s[0] == '-' then -(ParseNat(s[1..]) as int) else ParseNat(s)
  }

  lemma {:induction false} ParseNatDigits(n: nat)
    ensures ParseNat(NatDigits(n)) == n
  {
    if n >= 10 {
      ParseNatDigits(n / 10);
      var s := NatDigits(n);
      assert s[..|s| - 1] == NatDigits(n / 10);
      DigitCharValue(n % 10);
    } else {
      DigitCharValue(n);
    }
  }

  lemma DigitCharValue(d: nat)
    requires d < 10
    ensures DigitChar(d) as int - '0' as int == d
  {
  }

  /** The duration parameter's value reads back as the rounded number of seconds. */
  lemma DecimalRoundTrip(n: int)
    ensures ParseDecimal(DecimalString(n)) == n
  {
    if n < 0 {
      ParseNatDigits(-n);
      assert DecimalString(n)[1..] == NatDigits(-n);
    } else {
      ParseNatDigits(n);
    }
  }

  /**
   * The search query: `track_name` and `artist_name` always, `album_name` only
   * for a non-empty album, `duration` only when the rounded duration is non-zero.
   */
  function SearchParams(song: Item): seq<Param>
  {
    [("track_name", song.name), ("artist_name", ArtistName(song))]
    + (if AlbumName(song) != "" then [("album_name", AlbumName(song))] else [])
    + (match Duration(song)
       case Some(d) => if d != 0 then [("duration", DecimalString(d))] else []
       case None => [])
  }

  /** The value of the first parameter named `key`, if any. */
  function ParamValue(params: seq<Param>, key: string): Option<string>
  {
    if params == [] then None
    else if params[0].0 == key then Some(params[0].1)
    else ParamValue(params[1..], key)
  }

  lemma {:induction false} ParamValueAppend(a: seq<Param>, b: seq<Param>, key: string)
    ensures ParamValue(a + b, key) == if ParamValue(a, key).Some? then ParamValue(a, key) else ParamValue(b, key)
  {
    if a != [] {
      assert (a + b)[1..] == a[1..] + b;
      ParamValueAppend(a[1..], b, key);
    } else {
      assert a + b == b;
    }
  }

  /** What the query carries, parameter by parameter. */
  lemma SearchParamsContents(song: Item)
    ensures var p := SearchParams(song);
      && 2 <= |p| <= 4
      && ParamValue(p, "track_name") == Some(song.name)
      && ParamValue(p, "artist_name") == Some(ArtistName(song))
      && ParamValue(p, "album_name") == (if Truthy(song.album) then Some(song.album.value) else None)
      && ParamValue(p, "duration") ==
           (match song.runTimeTicks
            case Some(t) => if RoundTicks(t) != 0 then Some(DecimalString(RoundTicks(t))) else None
            case None => None)
  {
    var head: seq<Param> := [("track_name", song.name), ("artist_name", ArtistName(song))];
    var albumPart: seq<Param> := if AlbumName(song) != "" then [("album_name", AlbumName(song))] else [];
    var durationPart: seq<Param> :=
      match Duration(song)
      case Some(d) => if d != 0 then [("duration", DecimalString(d))] else []
      case None => [];
    assert SearchParams(song) == head + albumPart + durationPart;
    forall key: string
      ensures ParamValue(SearchParams(song), key) ==
        if key == "track_name" then Some(song.name)
        else if key == "artist_name" then Some(ArtistName(song))
        else if ParamValue(albumPart, key).Some? then ParamValue(albumPart, key)
        else ParamValue(durationPart, key)
    {
      ParamValueAppend(head + albumPart, durationPart, key);
      ParamValueAppend(head, albumPart, key);
      assert head[1..][1..] == [];
    }
    if albumPart != [] { assert albumPart[1..] == []; }
    if durationPart != [] { assert durationPart[1..] == []; }
    assert ParamValue(albumPart, "duration") == None;
    match song.runTimeTicks {
      case Some(t) =>
        if t == 0 {
          assert RoundTicks(t) == 0;
        } else if RoundTicks(t) != 0 {
          assert durationPart == [("duration", DecimalString(RoundTicks(t)))];
        }
      case None =>
    }
  }

  /** One search result; only the fields the scripts read or print. */
  datatype LrcEntry = LrcEntry(
    id: int,
    trackName: string,
    artistName: string,
    plainLyrics: Option<string>,
    syncedLyrics: Option<string>)

  /** The service's answer: a network failure, a non-OK status, or the decoded result list. */
  datatype LookupReply = NetworkError | NotOk(status: int) | Results(entries: seq<LrcEntry>)

  /** `r.syncedLyrics` is truthy. */
  predicate HasSynced(e: LrcEntry) {
    Truthy(e.syncedLyrics)
  }

  /** The position `results.find(r => r.syncedLyrics)` stops at; `|entries|` when none. */
  function FirstSynced(entries: seq<LrcEntry>): (i: nat)
    ensures i <= |entries|
    ensures forall j :: 0 <= j < i ==> !HasSynced(entries[j])
    ensures i < |entries| ==> HasSynced(entries[i])
  {
    if entries == [] then 0
    else if HasSynced(entries[0]) then 0
    else 1 + FirstSynced(entries[1..])
  }

  /**
   * `searchLrcLib` after the request: a failure, a non-OK status, an empty list
   * or a list without synced lyrics all give nothing; otherwise the first entry
   * with synced lyrics, in the service's order.
   */
  function SearchLrcLib(reply: LookupReply): (r: Option<LrcEntry>)
    ensures r.Some? ==>
              && HasSynced(r.value) && reply.Results?
              && var i := FirstSynced(reply.entries);
              && i < |reply.entries| && r.value == reply.entries[i]
  {
    match reply
    case NetworkError => None
    case NotOk(_) => None
    case Results(entries) =>
      if |entries| == 0 then None
      else
        var i := FirstSynced(entries);
        if i < |entries| then Some(entries[i]) else None
  }

  /** An entry comes back exactly when the reply is a list holding some entry with synced lyrics. */
  lemma SearchFindsSynced(reply: LookupReply)
    ensures SearchLrcLib(reply).Some? <==> reply.Results? && exists e :: e in reply.entries && HasSynced(e)
  {
    if reply.Results? && SearchLrcLib(reply).None? {
      var i := FirstSynced(reply.entries);
      forall e | e in reply.entries
        ensures !HasSynced(e)
      {
        var j :| 0 <= j < |reply.entries| && reply.entries[j] == e;
      }
    }
  }
}
