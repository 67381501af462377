/** The API client (class FourChan): getjson serves a document from the disk
    cache when the day's copy is there and otherwise fetches it from the API
    host and caches it. The HTTP transport is a parameter (`network`, the
    answer the host gives for each URL) and so is JSON decoding (`decode`,
    None when json.loads would raise). */
module Client {
  import opened Wrappers
  import opened Dates
  import opened CacheKey
  import opened Cache

  const ApiRoot := "https://a.4cdn.org/"

  /** What one HTTP request gives: the response body, or the exception
      urllib raised. */
  datatype FetchOutcome = Fetched(body: Bytes) | TransportError(reason: string)

  /** What getjson hands its caller: None after a failed fetch, the decoded
      document, the decode error json.loads raises, or the OSError open raises
      when the file found by the existence check is gone by the time it is
      read (neither error is caught). */
  datatype Reply<J> = NoDocument | Document(doc: J) | Malformed | Unreadable

  function Decoded<J>(decode: Bytes -> Option<J>, body: Bytes): (r: Reply<J>)
    ensures r != NoDocument && r != Unreadable
    ensures r == Malformed <==> decode(body) == None
    ensures r.Document? ==> decode(body) == Some(r.doc)
  {
    match decode(body)
    case Some(doc) => Document(doc)
    case None => Malformed
  }

  class FourChan {
    const cache: FileCache
    /** Every URL requested from the network so far, in order. */
    ghost var requested: seq<string>

    constructor (cachedir: string, disk: map<string, Bytes>)
      ensures fresh(cache) && cache.basepath == cachedir && cache.files == disk
      ensures requested == []
    {
      cache := new FileCache(cachedir, disk);
      requested := [];
    }

    /** The cache file a logical path maps to on `today`. */
    function KeyOf(path: string, today: Date): string
      reads this
    {
      MakePath(cache.basepath, path, today)
    }

    /** getjson. Each of exists, retrieve and store reads the clock again, so
        `checked` is the date when the cache is consulted and `used` the date
        when the file is then read or written (the same date unless midnight
        passes during the call). A hit reads the cache and never touches the
        network; a miss requests ApiRoot + path exactly once, and caches the
        body unless the request failed, in which case nothing is stored and
        None is returned. */
    method GetJson<J>(path: string, checked: Date, used: Date, network: string -> FetchOutcome,
                      decode: Bytes -> Option<J>)
      returns (r: Reply<J>)
      modifies this, cache
      ensures KeyOf(path, checked) in old(cache.files) ==>
        && requested == old(requested)
        && cache.files == old(cache.files)
        && r == (if KeyOf(path, used) in old(cache.files)
                 then Decoded(decode, old(cache.files)[KeyOf(path, used)])
                 else Unreadable)
      ensures KeyOf(path, checked) !in old(cache.files) ==>
        && requested == old(requested) + [ApiRoot + path]
        && match network(ApiRoot + path)
           case TransportError(_) => cache.files == old(cache.files) && r == NoDocument
           case Fetched(body) =>
             cache.files == old(cache.files)[KeyOf(path, used) := body] && r == Decoded(decode, body)
      // a call that produced something leaves the copy for `used` in the
      // cache, so the next call for the same path that day is a hit
      ensures r.Document? || r.Malformed? ==> KeyOf(path, used) in cache.files
      ensures r.NoDocument? || r.Unreadable? ==> cache.files == old(cache.files)
    {
      var hit := cache.Exists(path, checked);
      var body: Bytes;
      if !hit {
        var url := ApiRoot + path;
        requested := requested + [url];
        var outcome := network(url);
        if outcome.TransportError? {
          return NoDocument;
        }
        body := outcome.body;
        var _ := cache.Store(path, used, body);
      } else {
        var data := cache.Retrieve(path, used);
        if data.None? {
          return Unreadable;
        }
        body := data.value;
      }
      r := Decoded(decode, body);
    }

    /** Within one day a hit decodes exactly the cached bytes. */
    method SameDayHit<J>(path: string, today: Date, network: string -> FetchOutcome, decode: Bytes -> Option<J>)
      returns (r: Reply<J>)
      requires KeyOf(path, today) in cache.files
      modifies this, cache
      ensures r == Decoded(decode, old(cache.files)[KeyOf(path, today)])
      ensures requested == old(requested) && cache.files == old(cache.files)
    {
      r := GetJson(path, today, today, network, decode);
    }

    /** A hit checked just before midnight reads the next day's file, which
        is not there yet: open raises instead of the cached copy being read. */
    method MidnightHit<J>(path: string, before: Date, after: Date, network: string -> FetchOutcome,
                          decode: Bytes -> Option<J>)
      returns (r: Reply<J>)
      requires KeyOf(path, before) in cache.files && KeyOf(path, after) !in cache.files
      modifies this, cache
      ensures r == Unreadable
      ensures requested == old(requested) && cache.files == old(cache.files)
    {
      r := GetJson(path, before, after, network, decode);
    }

    /** Two getjson calls for one path on one day: whatever the network
        answers, at most the first reaches it, and once the first has
        produced a document the second is served from the cache. */
    method SameDayTwice<J>(path: string, today: Date, network1: string -> FetchOutcome,
                           network2: string -> FetchOutcome, decode: Bytes -> Option<J>)
      returns (first: Reply<J>, second: Reply<J>)
      modifies this, cache
      ensures first != NoDocument ==> second == first
      ensures first != NoDocument ==>
        requested == old(requested) || requested == old(requested) + [ApiRoot + path]
      ensures first == NoDocument ==>
        requested == old(requested) + [ApiRoot + path, ApiRoot + path]
    {
      first := GetJson(path, today, today, network1, decode);
      second := GetJson(path, today, today, network2, decode);
    }
  }
}
