/**
 * What the lyrics scripts read from the media server's item listing: the
 * music-library filter on the user's views, the paginated enumeration of a
 * library's audio items (`getAllSongs` in cleanup-lyrics-all.ts), the single
 * request of cleanup-lyrics.js, and the first-song request of cleanup-lyrics.ts.
 * HTTP and JSON decoding are replaced by the replies the server gives.
 */
module Catalog {
  import opened Wrappers
  import opened JsStrings

  /** A media-server item as the scripts read it; optional JSON fields are `Option`s. */
  datatype Item = Item(
    id: string,
    name: string,
    path: Option<string>,
    album: Option<string>,
    albumArtist: Option<string>,
    artists: Option<seq<string>>,
    runTimeTicks: Option<int>,
    collectionType: Option<string>)

  /** The server's reply to one items request: a page of items, or a non-OK HTTP status. */
  datatype PageReply = Page(items: seq<Item>) | HttpError(status: int)

  predicate IsMusicLibrary(view: Item) {
    view.collectionType == Some("music")
  }

  /**
   * `getMusicLibraries`: a failed views request is an error; otherwise the views
   * whose `CollectionType` is "music", in their original order.
   */
  function MusicLibraries(reply: PageReply): (r: Result<seq<Item>, int>)
    ensures reply.HttpError? <==> r.Failure?
    ensures reply.Page? ==> IsSubsequence(r.value, reply.items)
    ensures reply.Page? ==>
              forall v :: multiset(r.value)[v] == if IsMusicLibrary(v) then multiset(reply.items)[v] else 0
  {
    match reply
    case HttpError(status) => Failure(status)
    case Page(views) =>
      FilterKeeps(IsMusicLibrary, views);
      Success(Filter(IsMusicLibrary, views))
  }

  /** The page size of the paginated enumeration. */
  const PageLimit: nat := 1000

  /**
   * The server's answer to the request at offset `startIndex`: the oracle holds
   * one reply per request in order; past its end the library has no more items.
   */
  function PageAt(pages: seq<PageReply>, startIndex: nat): PageReply
  {
    var k := startIndex / PageLimit;
    if k < |pages| then pages[k] else Page([])
  }

  /** The outcome of an enumeration: the songs (or the failing status) and the offsets requested. */
  datatype Enumeration = Enumeration(songs: Result<seq<Item>, int>, offsets: seq<nat>)

  /** Put the items of earlier pages and their offsets in front of an enumeration. */
  function Prepend(items: seq<Item>, offsets: seq<nat>, e: Enumeration): Enumeration
  {
    Enumeration(if e.songs.Success? then Success(items + e.songs.value) else e.songs, offsets + e.offsets)
  }

  lemma PrependNothing(e: Enumeration)
    ensures Prepend([], [], e) == e
  {
    assert [] + e.offsets == e.offsets;
    if e.songs.Success? {
      assert [] + e.songs.value == e.songs.value;
    }
  }

  lemma PrependTwice(a: seq<Item>, o: seq<nat>, b: seq<Item>, p: seq<nat>, e: Enumeration)
    ensures Prepend(a, o, Prepend(b, p, e)) == Prepend(a + b, o + p, e)
  {
    assert o + (p + e.offsets) == (o + p) + e.offsets;
    if e.songs.Success? {
      assert a + (b + e.songs.value) == (a + b) + e.songs.value;
    }
  }

  /**
   * The enumeration from request number `k` on: request the page at offset
   * `k * PageLimit`; a failed page aborts the whole enumeration, a short page ends
   * it, a full one is followed by the next request.
   */
  function Enumerate(pages: seq<PageReply>, k: nat): (e: Enumeration)
    decreases |pages| - k
  {
    var page := PageAt(pages, k * PageLimit);
    match page
    case HttpError(status) => Enumeration(Failure(status), [k * PageLimit])
    case Page(items) =>
      if |items| < PageLimit then Enumeration(Success(items), [k * PageLimit])
      else
        assert k < |pages|;
        Prepend(items, [k * PageLimit], Enumerate(pages, k + 1))
  }

  /**
   * `getAllSongs` in cleanup-lyrics-all.ts: a `while (true)` loop that requests
   * the page at `startIndex`, appends its items, stops after a short page and
   * otherwise advances `startIndex` by the page size; a failed page is thrown.
   */
  method GetAllSongs(pages: seq<PageReply>) returns (songs: Result<seq<Item>, int>, offsets: seq<nat>)
    ensures Enumeration(songs, offsets) == Enumerate(pages, 0)
  {
    var allSongs: seq<Item> := [];
    var startIndex: nat := 0;
    offsets := [];
    PrependNothing(Enumerate(pages, 0));
    while true
      invariant startIndex == |offsets| * PageLimit
      invariant |offsets| <= |pages|
      invariant Enumerate(pages, 0) == Prepend(allSongs, offsets, Enumerate(pages, |offsets|))
      decreases |pages| - |offsets|
    {
      ghost var k := |offsets|;
      assert startIndex / PageLimit == k;
      var reply := PageAt(pages, startIndex);
      offsets := offsets + [startIndex];
      match reply {
        case HttpError(status) =>
          songs := Failure(status);
          return;
        case Page(items) =>
          ghost var before := allSongs;
          allSongs := allSongs + items;
          if |items| < PageLimit {
            songs := Success(allSongs);
            return;
          }
          assert Enumerate(pages, k) == Prepend(items, [k * PageLimit], Enumerate(pages, k + 1));
          PrependTwice(before, offsets[..k], items, [k * PageLimit], Enumerate(pages, k + 1));
          assert offsets[..k] + [k * PageLimit] == offsets;
          startIndex := startIndex + PageLimit;
      }
    }
  }

  /** The items of the replies to requests `k` up to, not including, `n`. */
  function PagesItems(pages: seq<PageReply>, k: nat, n: nat): seq<Item>
    decreases n - k
  {
    if n <= k then []
    else (match PageAt(pages, k * PageLimit) case Page(items) => items case HttpError(_) => [])
         + PagesItems(pages, k + 1, n)
  }

  /**
   * Requests go to offsets `k * 1000`, `(k + 1) * 1000`, ... in order; every page
   * but the last one requested was full, and the last one was short or failed.
   */
  lemma {:induction false} EnumerateRequests(pages: seq<PageReply>, k: nat)
    ensures var e := Enumerate(pages, k);
      && |e.offsets| >= 1
      && (forall i :: 0 <= i < |e.offsets| ==> e.offsets[i] == (k + i) * PageLimit)
      && (forall i :: k <= i < k + |e.offsets| - 1 ==>
            PageAt(pages, i * PageLimit).Page? && |PageAt(pages, i * PageLimit).items| >= PageLimit)
      && (var last := PageAt(pages, (k + |e.offsets| - 1) * PageLimit);
          last.HttpError? || |last.items| < PageLimit)
    decreases |pages| - k
  {
    var page := PageAt(pages, k * PageLimit);
    if page.Page? && |page.items| >= PageLimit {
      assert k < |pages|;
      EnumerateRequests(pages, k + 1);
    }
  }

  /**
   * The result is the in-order concatenation of every page requested, unless the
   * last request failed, in which case the enumeration fails with its status and
   * returns nothing.
   */
  lemma {:induction false} EnumerateResult(pages: seq<PageReply>, k: nat)
    ensures var e := Enumerate(pages, k);
      && |e.offsets| >= 1
      && var last := PageAt(pages, (k + |e.offsets| - 1) * PageLimit);
      && (e.songs.Failure? <==> last.HttpError?)
      && (e.songs.Failure? ==> e.songs.error == last.status)
      && (e.songs.Success? ==> e.songs.value == PagesItems(pages, k, k + |e.offsets|))
    decreases |pages| - k
  {
    var page := PageAt(pages, k * PageLimit);
    if page.Page? && |page.items| >= PageLimit {
      assert k < |pages|;
      EnumerateResult(pages, k + 1);
      var rest := Enumerate(pages, k + 1);
      assert (k + 1) * PageLimit / PageLimit == k + 1;
      assert k + 1 + |rest.offsets| - 1 == k + |Enumerate(pages, k).offsets| - 1;
    } else {
      assert PagesItems(pages, k + 1, k + 1) == [];
    }
  }

  /**
   * When every page the server holds is exactly full, the enumeration returns
   * them all and pays one extra request, answered by an empty page.
   */
  lemma {:induction false} FullPagesCostOneMoreRequest(pages: seq<PageReply>, k: nat)
    requires k <= |pages|
    requires forall i :: 0 <= i < |pages| ==> pages[i].Page? && |pages[i].items| == PageLimit
    ensures |Enumerate(pages, k).offsets| == |pages| - k + 1
    ensures Enumerate(pages, k).songs.Success?
    decreases |pages| - k
  {
    assert k * PageLimit / PageLimit == k;
    if k < |pages| {
      FullPagesCostOneMoreRequest(pages, k + 1);
    }
  }

  /** The number of songs `getFirstSong` asks for, and the single-request limit of cleanup-lyrics.js. */
  const FirstSongLimit: nat := 1
  const SinglePageLimit: nat := 10000

  /**
   * `getFirstSong` in cleanup-lyrics.ts, after its one request with `Limit` 1: a
   * failed request is thrown; otherwise the first item, or none for an empty page.
   */
  function FirstSong(reply: PageReply): (r: Result<Option<Item>, int>)
    ensures r.Failure? <==> reply.HttpError?
    ensures r.Success? && r.value.Some? ==> reply.items != [] && r.value.value == reply.items[0]
    ensures r.Success? && r.value.None? ==> reply.items == []
  {
    match reply
    case HttpError(status) => Failure(status)
    case Page(items) => if |items| > 0 then Success(Some(items[0])) else Success(None)
  }

  /**
   * `getAllSongs` in cleanup-lyrics.js: one request with `Limit` 10000 and no
   * pagination; the page is returned as it is, a failure is thrown.
   */
  function SinglePageSongs(reply: PageReply): (r: Result<seq<Item>, int>)
    ensures r.Failure? <==> reply.HttpError?
    ensures r.Success? ==> r.value == reply.items
  {
    match reply
    case HttpError(status) => Failure(status)
    case Page(items) => Success(items)
  }

  /** The position `n` capped at the end of a list of length `len`. */
  function Cap(n: nat, len: nat): (r: nat)
    ensures r <= len && (r == n || r == len)
  {
    if n < len then n else len
  }

  /**
   * A server holding `held` answers a request with `StartIndex` and `Limit`
   * with the items from that index on, at most `limit` of them.
   */
  function ServerPage(held: seq<Item>, startIndex: nat, limit: nat): PageReply
  {
    var from := Cap(startIndex, |held|);
    Page(held[from..Cap(from + limit, |held|)])
  }

  /**
   * The one request of cleanup-lyrics.js returns the first 10000 items the
   * server holds: everything only when it holds no more, and the songs past
   * that limit are never processed.
   */
  lemma SinglePageOfServer(held: seq<Item>)
    ensures var r := SinglePageSongs(ServerPage(held, 0, SinglePageLimit));
            && r.Success?
            && r.value == held[..Cap(SinglePageLimit, |held|)]
            && (r.value == held <==> |held| <= SinglePageLimit)
  {
    var r := SinglePageSongs(ServerPage(held, 0, SinglePageLimit));
    if |held| > SinglePageLimit {
      assert |r.value| == SinglePageLimit;
    }
  }

  /**
   * The one-item request of `getFirstSong` gives the first item the server
   * holds, and none exactly when it holds nothing.
   */
  lemma FirstSongOfServer(held: seq<Item>)
    ensures var r := FirstSong(ServerPage(held, 0, FirstSongLimit));
            && r.Success?
            && (r.value.None? <==> held == [])
            && (r.value.Some? ==> r.value.value == held[0])
  {
  }
}
