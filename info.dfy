/**
 * Content classification (tea/info.py): whether a URL names a video, a playlist or a channel,
 * from the extractor's answer when there is one and from the URL's shape otherwise, with a
 * per-URL cache. The extractor is an oracle: its outcome for the call is a parameter.
 */
module Info {
  import opened Wrappers
  import opened Text
  import opened Urls
  import opened Security

  /** The info dictionary, reduced to its `_type` entry (absent, or a string) and the rest. */
  datatype InfoDict = InfoDict(kind: Option<string>, fields: map<string, string>)

  const EmptyInfo := InfoDict(None, map[])

  /** What one `extract_info` call does: raise, return `None`, or return an info dictionary. */
  datatype Extraction = Raised | NullInfo | Extracted(info: InfoDict)

  /** A content type with its info dictionary: what `get_info` returns. */
  type Classified = (string, InfoDict)

  /** `_is_channel_url`: the URL holds one of the channel path markers. */
  predicate IsChannelUrl(url: string) {
    Contains(url, "/@") || Contains(url, "/channel/") || Contains(url, "/c/") || Contains(url, "/user/")
  }

  /** A URL keeps looking like a channel whatever is added before or after it. */
  lemma IsChannelUrlExtends(a: string, url: string, b: string)
    requires IsChannelUrl(url)
    ensures IsChannelUrl(a + url + b)
  {
    forall p | p in ["/@", "/channel/", "/c/", "/user/"] && Contains(url, p)
      ensures Contains(a + url + b, p)
    {
      ContainsAppendLeft(a, url, p);
      ContainsAppendRight(a + url, b, p);
    }
    if Contains(url, "/@") {
      assert "/@" in ["/@", "/channel/", "/c/", "/user/"];
    } else if Contains(url, "/channel/") {
      assert "/channel/" in ["/@", "/channel/", "/c/", "/user/"];
    } else if Contains(url, "/c/") {
      assert "/c/" in ["/@", "/channel/", "/c/", "/user/"];
    } else {
      assert "/user/" in ["/@", "/channel/", "/c/", "/user/"];
    }
  }

  /** `_guess_from_url`; `None` when `urlparse` raises for an unbalanced '[' or ']' in the
    * network location, which the caller does not catch. The query parameter `list` is found
    * as `parse_qs` finds it, after '+' and `%XX` decoding of the field names. */
  function GuessFromUrl(url: string): (r: Option<Classified>)
    ensures r.Some? ==> r.value.1 == EmptyInfo
    ensures r.Some? <==> UrlSplit(url).Some?
  {
    match UrlSplit(url)
    case None => None
    case Some(parts) =>
      if IsChannelUrl(url) then Some(("channel", EmptyInfo))
      else if HasQueryParam(parts.query, "list") then Some(("playlist", EmptyInfo))
      else Some(("video", EmptyInfo))
  }

  /** The guess checks the channel markers first, then a non-blank `list` query parameter, and
    * otherwise calls the URL a video. */
  lemma GuessOrder(url: string)
    requires UrlSplit(url).Some?
    ensures GuessFromUrl(url).value.0 == "channel" <==> IsChannelUrl(url)
    ensures GuessFromUrl(url).value.0 == "playlist" <==>
      !IsChannelUrl(url) && HasQueryParam(UrlSplit(url).value.query, "list")
    ensures GuessFromUrl(url).value.0 == "video" <==>
      !IsChannelUrl(url) && !HasQueryParam(UrlSplit(url).value.query, "list")
  {
  }

  /** `_extract_with_ytdlp` given the extractor's outcome. */
  function ExtractWithYtdlp(url: string, outcome: Extraction): (r: Option<Classified>)
    ensures outcome.Extracted? ==> r.Some? && r.value.1 == outcome.info
  {
    match outcome
    case Raised => GuessFromUrl(url)
    case NullInfo => GuessFromUrl(url)
    case Extracted(info) =>
      var contentType := info.kind.GetOr("video");
      if contentType == "playlist" then
        if IsChannelUrl(url) then Some(("channel", info)) else Some(("playlist", info))
      else Some((contentType, info))
  }

  /** When the extractor fails or finds nothing, the answer is the URL-shape guess. */
  lemma ExtractFallsBack(url: string, outcome: Extraction)
    requires !outcome.Extracted?
    ensures ExtractWithYtdlp(url, outcome) == GuessFromUrl(url)
  {
  }

  /** A playlist answer is re-tagged as a channel exactly for channel-like URLs; any other
    * `_type` is passed through unchanged, so it need not be one of the three kinds. */
  lemma ExtractTypes(url: string, info: InfoDict)
    ensures info.kind == Some("playlist") ==>
      ExtractWithYtdlp(url, Extracted(info)).value.0 == (if IsChannelUrl(url) then "channel" else "playlist")
    ensures info.kind.None? ==> ExtractWithYtdlp(url, Extracted(info)).value.0 == "video"
    ensures info.kind.Some? && info.kind.value != "playlist" ==>
      ExtractWithYtdlp(url, Extracted(info)).value.0 == info.kind.value
  {
  }

  lemma ExtractKeepsOtherType()
    ensures ExtractWithYtdlp("https://youtu.be/x", Extracted(InfoDict(Some("url"), map[]))).value.0 == "url"
  {
  }

  /** `InfoExtractor` with its per-URL cache. */
  class InfoExtractor {
    var cache: map<string, Classified>

    constructor()
      ensures cache == map[]
    {
      cache := map[];
    }

    /** `get_info`; `outcome` is what the extractor would do if it is called. `None` is the
      * `ValueError` of the fallback guess, which leaves the cache as it was. */
    method GetInfo(url: string, useCache: bool, outcome: Extraction) returns (r: Option<Classified>)
      modifies this
      ensures useCache && url in old(cache) ==> r == Some(old(cache)[url]) && cache == old(cache)
      ensures !(useCache && url in old(cache)) ==> r == ExtractWithYtdlp(url, outcome)
      ensures !useCache ==> cache == old(cache)
      ensures useCache && url !in old(cache) ==>
        cache == if r.Some? then old(cache)[url := r.value] else old(cache)
    {
      if useCache && url in cache {
        return Some(cache[url]);
      }
      r := ExtractWithYtdlp(url, outcome);
      if r.None? {
        return;
      }
      if useCache {
        cache := cache[url := r.value];
      }
    }

    /** With the cache on, a second lookup returns the first answer, whatever the extractor
      * would do the second time. */
    method GetInfoTwice(url: string, first: Extraction, second: Extraction)
      returns (r1: Option<Classified>, r2: Option<Classified>)
      modifies this
      ensures r1.Some? ==> r2 == r1
      ensures url in old(cache) ==> r1 == Some(old(cache)[url])
    {
      r1 := GetInfo(url, true, first);
      r2 := GetInfo(url, true, second);
    }

    /** `get_content_type`: the first half of the cached `get_info`. */
    method GetContentType(url: string, outcome: Extraction) returns (contentType: Option<string>)
      modifies this
      ensures url in old(cache) ==> contentType == Some(old(cache)[url].0)
      ensures url !in old(cache) ==> contentType == ContentTypeOf(ExtractWithYtdlp(url, outcome))
    {
      var r := GetInfo(url, true, outcome);
      contentType := ContentTypeOf(r);
    }

    /** `clear_cache`. */
    method ClearCache()
      modifies this
      ensures cache == map[]
    {
      cache := map[];
    }
  }

  function ContentTypeOf(r: Option<Classified>): Option<string> {
    if r.Some? then Some(r.value.0) else None
  }

  /** `is_youtube_url`; an exception inside counts as `False`. */
  function IsYoutubeUrl(url: string): (r: bool)
    ensures r <==> (url != [] && UrlSplit(url).Some?
      && UrlSplit(url).value.scheme in {"http", "https"} && Lower(UrlSplit(url).value.netloc) in YoutubeDomains)
  {
    if url == [] then false
    else
      match UrlSplit(url)
      case None => false
      case Some(parts) => parts.scheme in {"http", "https"} && Lower(parts.netloc) in YoutubeDomains
  }

  /** Every URL `validate_url` accepts is a YouTube URL. */
  lemma ValidUrlIsYoutube(url: string)
    requires ValidateUrl(url)
    ensures IsYoutubeUrl(url)
  {
  }
}
