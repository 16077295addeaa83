/**
 * The YouTube search service (tea/search.py): the blank-query guard, the vetting of the AI's
 * rewritten query, the duration filter over the extractor's entries, the fallback relevance
 * score and the stable ranking by it, and the duration display. The extractor, the HTTP call
 * and the clock are parameters.
 */
module Search {
  import opened Wrappers
  import opened Text
  import opened Security
  import opened Sorting
  import FilenameCleaner
  import Clock
  import opened Seqs

  /** The longest rewritten query the service accepts from the AI. */
  const QueryLimit := 200

  /** Seconds that must pass between two AI requests. */
  const MinRequestInterval: real := 3.0

  // ---------------------------------------------------------------------------
  // _validate_ai_output

  /** `_validate_ai_output`: the filename cleaner's vetting with a limit of 200 characters. */
  predicate ValidateAiOutput(output: string) {
    FilenameCleaner.ValidateAiOutput(output, QueryLimit)
  }

  /** An answer passes exactly when it is non-empty, free of the dangerous patterns, at most
    * 200 characters long and holds an ASCII letter or digit. */
  lemma ValidateAiOutputCases(output: string)
    ensures ValidateAiOutput(output) <==> (output != [] && !FilenameCleaner.HasDangerousPattern(output)
      && |output| <= QueryLimit && FilenameCleaner.HasAsciiAlnum(output))
  {
    FilenameCleaner.ValidateAiOutputCases(output, QueryLimit);
  }

  /** A rewritten query holds none of the dangerous patterns, in any letter case. */
  lemma ValidQuerySafe(output: string, q: string)
    requires ValidateAiOutput(output)
    requires Lower(q) in ["../", "..\\", "<script", "javascript:", "data:", "\U{0}", "\U{1B}"]
    ensures !Contains(output, q)
  {
    FilenameCleaner.ValidAiOutputSafe(output, QueryLimit, q);
  }

  /** What the filename cleaner accepts, the search accepts; the two differ only in length. */
  lemma QueryLimitWider(output: string)
    ensures FilenameCleaner.ValidateAiOutput(output, FilenameCleaner.MaxTitleLength) ==> ValidateAiOutput(output)
    ensures ValidateAiOutput(output) && |output| <= FilenameCleaner.MaxTitleLength ==>
      FilenameCleaner.ValidateAiOutput(output, FilenameCleaner.MaxTitleLength)
  {
    FilenameCleaner.ValidateAiOutputCases(output, FilenameCleaner.MaxTitleLength);
  }

  // ---------------------------------------------------------------------------
  // _youtube_search

  /** One entry of the extractor's flat search answer; `None` is a key the entry lacks. */
  datatype RawEntry = RawEntry(
    url: Option<string>, webpageUrl: Option<string>, title: Option<string>,
    duration: Option<int>, viewCount: Option<int>,
    uploader: Option<string>, channel: Option<string>, id: Option<string>)

  /** The result dictionary built from an entry. */
  datatype SearchResult = SearchResult(
    url: string, title: string, duration: int, viewCount: int, uploader: string, id: string)

  /** What the extractor's call does: raise, return a falsy answer, or return its entries
    * (`None` for a falsy entry). An answer without `entries` has no entries. */
  datatype SearchOutcome = SearchRaised | NoAnswer | Answer(entries: seq<Option<RawEntry>>)

  /** The result dictionary, with the defaults of the `get` calls. */
  function ToResult(e: RawEntry): SearchResult {
    SearchResult(
      e.url.GetOr(e.webpageUrl.GetOr("")), e.title.GetOr("Unknown"),
      e.duration.GetOr(0), e.viewCount.GetOr(0),
      e.uploader.GetOr(e.channel.GetOr("Unknown")), e.id.GetOr(""))
  }

  /** A result is kept when its URL is non-empty and valid and its duration is unknown (0) or
    * within the configured bounds. */
  predicate Keep(r: SearchResult, minDuration: int, maxDuration: int) {
    r.url != [] && ValidateUrl(r.url) && (r.duration == 0 || minDuration <= r.duration <= maxDuration)
  }

  /** The result an entry contributes: one when it is present and kept, none otherwise. */
  function Kept(e: Option<RawEntry>, minDuration: int, maxDuration: int): seq<SearchResult> {
    if e.Some? && Keep(ToResult(e.value), minDuration, maxDuration) then [ToResult(e.value)] else []
  }

  /** The kept results of the entries, in entry order. */
  function Filtered(entries: seq<Option<RawEntry>>, minDuration: int, maxDuration: int): seq<SearchResult>
    decreases |entries|
  {
    if entries == [] then []
    else Filtered(entries[..|entries| - 1], minDuration, maxDuration) + Kept(entries[|entries| - 1], minDuration, maxDuration)
  }

  /** The results of a whole search: none when the extractor raises or answers nothing. */
  function SearchResults(outcome: SearchOutcome, minDuration: int, maxDuration: int): seq<SearchResult> {
    if outcome.Answer? then Filtered(outcome.entries, minDuration, maxDuration) else []
  }

  /** Filtering distributes over concatenation, so kept entries stay in their order. */
  lemma {:induction false} FilteredAppend(a: seq<Option<RawEntry>>, b: seq<Option<RawEntry>>, lo: int, hi: int)
    ensures Filtered(a + b, lo, hi) == Filtered(a, lo, hi) + Filtered(b, lo, hi)
    decreases |b|
  {
    if b == [] {
      assert a + b == a;
    } else {
      InitAppend(a, b);
      FilteredAppend(a, b[..|b| - 1], lo, hi);
    }
  }

  /** A single entry is kept exactly when it is present and passes the filter. */
  lemma FilteredSingle(e: Option<RawEntry>, lo: int, hi: int)
    ensures Filtered([e], lo, hi) == if e.Some? && Keep(ToResult(e.value), lo, hi) then [ToResult(e.value)] else []
  {
    assert [e][..0] == [];
  }

  /** A result is in the filtered list iff some present entry yields it and passes the filter. */
  lemma {:induction false} FilteredMembers(entries: seq<Option<RawEntry>>, lo: int, hi: int)
    ensures forall r :: r in Filtered(entries, lo, hi) <==>
      exists i :: 0 <= i < |entries| && entries[i].Some? && ToResult(entries[i].value) == r && Keep(r, lo, hi)
    decreases |entries|
  {
    if entries != [] {
      var p, e := entries[..|entries| - 1], entries[|entries| - 1];
      FilteredMembers(p, lo, hi);
      assert entries == p + [e];
      forall r ensures r in Filtered(entries, lo, hi) <==>
        exists i :: 0 <= i < |entries| && entries[i].Some? && ToResult(entries[i].value) == r && Keep(r, lo, hi)
      {
        FilteredMemberStep(p, e, r, lo, hi);
      }
    }
  }

  lemma KeptMember(e: Option<RawEntry>, r: SearchResult, lo: int, hi: int)
    requires r in Kept(e, lo, hi)
    ensures e.Some? && ToResult(e.value) == r && Keep(r, lo, hi)
  {
  }

  /** One step of `FilteredMembers`: the entry `e` added after the entries `p`. */
  lemma FilteredMemberStep(p: seq<Option<RawEntry>>, e: Option<RawEntry>, r: SearchResult, lo: int, hi: int)
    requires r in Filtered(p, lo, hi) <==>
      exists i :: 0 <= i < |p| && p[i].Some? && ToResult(p[i].value) == r && Keep(r, lo, hi)
    ensures var entries := p + [e]; r in Filtered(entries, lo, hi) <==>
      exists i :: 0 <= i < |entries| && entries[i].Some? && ToResult(entries[i].value) == r && Keep(r, lo, hi)
  {
    var entries := p + [e];
    FilteredSnoc(p, e, lo, hi);
    if r in Filtered(entries, lo, hi) {
      if r in Filtered(p, lo, hi) {
        var i :| 0 <= i < |p| && p[i].Some? && ToResult(p[i].value) == r && Keep(r, lo, hi);
        assert entries[i] == p[i];
      } else {
        KeptMember(e, r, lo, hi);
        assert entries[|p|] == e;
      }
    } else {
      forall i | 0 <= i < |entries| && entries[i].Some? && ToResult(entries[i].value) == r
        ensures !Keep(r, lo, hi)
      {
        if i < |p| {
          assert p[i] == entries[i];
        } else {
          assert entries[i] == e;
        }
      }
    }
  }

  lemma FilteredSnoc(p: seq<Option<RawEntry>>, e: Option<RawEntry>, lo: int, hi: int)
    ensures Filtered(p + [e], lo, hi) == Filtered(p, lo, hi) + Kept(e, lo, hi)
  {
    assert (p + [e])[..|p|] == p;
  }

  /** The filtering loop of `_youtube_search`. */
  method FilterEntries(entries: seq<Option<RawEntry>>, minDuration: int, maxDuration: int)
    returns (results: seq<SearchResult>)
    ensures results == Filtered(entries, minDuration, maxDuration)
  {
    results := [];
    for i := 0 to |entries|
      invariant results == Filtered(entries[..i], minDuration, maxDuration)
    {
      PrefixGrow(entries, i);
      var entry := entries[i];
      if entry.None? {
        continue;
      }
      var result := ToResult(entry.value);
      if result.url != [] && ValidateUrl(result.url) {
        if result.duration == 0 {
          results := results + [result];
        } else if minDuration <= result.duration <= maxDuration {
          results := results + [result];
        }
      }
    }
    Snoc(entries, |entries|);
  }

  /** `_youtube_search` given the extractor's outcome. */
  method YoutubeSearch(outcome: SearchOutcome, minDuration: int, maxDuration: int)
    returns (results: seq<SearchResult>)
    ensures results == SearchResults(outcome, minDuration, maxDuration)
    ensures forall r :: r in results ==> Keep(r, minDuration, maxDuration)
  {
    if !outcome.Answer? {
      return [];
    }
    results := FilterEntries(outcome.entries, minDuration, maxDuration);
    FilteredMembers(outcome.entries, minDuration, maxDuration);
  }

  // ---------------------------------------------------------------------------
  // _rank_results (the branch without fuzzy matching)

  const MusicKeywords: seq<string> := ["official", "audio", "video", "lyrics", "hd", "remastered"]

  /** The set of whitespace-separated words (`set(s.split())`). */
  function WordSet(s: string): set<string> {
    set w | w in Tokens(s, ' ')
  }

  /** How many of the keywords occur in the title. */
  function KeywordHits(title: string, keywords: seq<string>): (n: nat)
    ensures n <= |keywords|
    ensures n == 0 <==> forall k :: k in keywords ==> !Contains(title, k)
  {
    if keywords == [] then 0
    else
      assert forall k :: k in keywords <==> k == keywords[0] || k in keywords[1..];
      (if Contains(title, keywords[0]) then 1 else 0) + KeywordHits(title, keywords[1..])
  }

  /** The view bonus: `min(20, logTerm(views))` for a positive count, where `logTerm(v)` stands for
    * `int(log10(v + 1) * 2)`, and nothing otherwise. */
  function ViewBonus(viewCount: int, logTerm: int -> nat): (b: int)
    ensures 0 <= b <= 20
    ensures viewCount <= 0 ==> b == 0
  {
    if viewCount > 0 then (if logTerm(viewCount) < 20 then logTerm(viewCount) else 20) else 0
  }

  /** The relevance score of one result against the query. */
  function Score(query: string, r: SearchResult, logTerm: int -> nat): (score: int)
    ensures 0 <= score <= 80 + 20 * |WordSet(Lower(query))| + 5 * |MusicKeywords| + 20
    ensures Contains(Lower(r.title), Lower(query)) ==> score >= 80
    ensures WordSet(Lower(query)) * WordSet(Lower(r.title)) != {} ==> score >= 20
  {
    var queryLower := Lower(query);
    var titleLower := Lower(r.title);
    var shared := WordSet(queryLower) * WordSet(titleLower);
    assert |shared| <= |WordSet(queryLower)| by { SubsetCard(shared, WordSet(queryLower)); }
    (if Contains(titleLower, queryLower) then 80 else 0)
      + 20 * |shared|
      + 5 * KeywordHits(titleLower, MusicKeywords)
      + ViewBonus(r.viewCount, logTerm)
  }

  lemma SubsetCard<T>(a: set<T>, b: set<T>)
    requires a <= b
    ensures |a| <= |b|
  {
    if a != {} {
      var x :| x in a;
      SubsetCard(a - {x}, b - {x});
    }
  }

  /** The score as a key. */
  function ScoreKey(query: string, logTerm: int -> nat): SearchResult -> int {
    r => Score(query, r, logTerm)
  }

  /** The ranked list: `sorted(..., reverse=True)` by score. */
  function Rank(query: string, results: seq<SearchResult>, logTerm: int -> nat): seq<SearchResult> {
    SortBy(results, Negated(ScoreKey(query, logTerm)))
  }

  /** The results with the given score, in order. */
  function WithScore(s: seq<SearchResult>, query: string, logTerm: int -> nat, score: int): seq<SearchResult> {
    WithKey(s, Negated(ScoreKey(query, logTerm)), -score)
  }

  /** Ranking permutes the results into non-increasing score and keeps the input order among
    * results with equal scores. */
  lemma RankCorrect(query: string, results: seq<SearchResult>, logTerm: int -> nat)
    ensures multiset(Rank(query, results, logTerm)) == multiset(results)
    ensures forall i, j :: 0 <= i < j < |results| ==>
      Score(query, Rank(query, results, logTerm)[i], logTerm) >= Score(query, Rank(query, results, logTerm)[j], logTerm)
    ensures forall score :: WithScore(Rank(query, results, logTerm), query, logTerm, score) == WithScore(results, query, logTerm, score)
  {
    var key := Negated(ScoreKey(query, logTerm));
    SortByCorrect(results, key);
    var ranked := SortBy(results, key);
    forall i, j | 0 <= i < j < |results| ensures Score(query, ranked[i], logTerm) >= Score(query, ranked[j], logTerm) {
      assert key(ranked[i]) <= key(ranked[j]);
    }
  }

  /** `_rank_results`: score each result (as a tagged pair, the temporary `_relevance_score`),
    * sort the pairs by descending score, then drop the scores. */
  method RankResults(query: string, results: seq<SearchResult>, logTerm: int -> nat)
    returns (ranked: seq<SearchResult>)
    ensures ranked == Rank(query, results, logTerm)
  {
    if results == [] {
      return results;
    }
    var scored := ScoreAll(query, results, logTerm);
    var sortedPairs := SortBy(scored, Negated(Second()));
    ranked := DropScores(sortedPairs);
    TaggedSort(results, ScoreKey(query, logTerm));
  }

  /** The scoring loop of `_rank_results`: each result with its `_relevance_score`. */
  method ScoreAll(query: string, results: seq<SearchResult>, logTerm: int -> nat)
    returns (scored: seq<(SearchResult, int)>)
    ensures scored == Tag(results, ScoreKey(query, logTerm))
  {
    scored := [];
    for i := 0 to |results|
      invariant scored == Tag(results[..i], ScoreKey(query, logTerm))
    {
      TagSnoc(results, ScoreKey(query, logTerm), i);
      scored := scored + [(results[i], Score(query, results[i], logTerm))];
    }
    assert results[..|results|] == results;
  }

  /** The loop that pops the scores again. */
  method DropScores(pairs: seq<(SearchResult, int)>) returns (r: seq<SearchResult>)
    ensures r == Firsts(pairs)
  {
    r := [];
    for i := 0 to |pairs|
      invariant |r| == i
      invariant forall k :: 0 <= k < i ==> r[k] == pairs[k].0
    {
      r := r + [pairs[i].0];
    }
  }

  // ---------------------------------------------------------------------------
  // _format_duration

  /** `_format_duration`, with Python's floor division and remainder. */
  function FormatDuration(seconds: int): (r: string)
    ensures seconds == 0 ==> r == "Unknown"
    ensures seconds > 0 ==> r == Clock.FormatTime(seconds)
    ensures seconds < 0 ==> r == Clock.FormatTime(seconds % 3600)
  {
    if seconds == 0 then "Unknown"
    else
      var hours := seconds / 3600;
      var minutes := (seconds % 3600) / 60;
      var secs := seconds % 60;
      DurationPieces(seconds);
      Clock.ClockString(if hours > 0 then hours else 0, minutes, secs)
  }

  lemma DurationPieces(seconds: int)
    ensures 0 <= (seconds % 3600) / 60 < 60 && 0 <= seconds % 60 < 60
    ensures (seconds % 3600) / 3600 == 0 && (seconds % 3600) % 3600 == seconds % 3600
    ensures (seconds % 3600) % 60 == seconds % 60
    ensures seconds < 0 ==> seconds / 3600 < 0
  {
    var r := seconds % 3600;
    assert seconds == (seconds / 3600) * 3600 + r;
    assert seconds == ((seconds / 3600) * 60 + r / 60) * 60 + r % 60;
  }

  /** A positive duration reads back as its number of seconds. */
  lemma FormatDurationRoundTrip(seconds: int)
    requires seconds > 0
    ensures Clock.TimeToSeconds(FormatDuration(seconds)) == seconds
  {
    Clock.TimeRoundTrip(seconds);
  }

  // ---------------------------------------------------------------------------
  // The service

  /** The pause before an AI request made at `now` when the last accepted one was at `last`. */
  function RequestDelay(now: real, last: real): (d: real)
    ensures d >= 0.0 && now + d >= last + MinRequestInterval
    ensures now - last >= MinRequestInterval ==> d == 0.0
  {
    if now - last < MinRequestInterval then MinRequestInterval - (now - last) else 0.0
  }

  /** The query the AI rewrite yields: the stripped answer when it passes the vetting. */
  function Rewritten(response: Option<string>): (r: Option<string>)
    ensures r.Some? ==> ValidateAiOutput(r.value) && r.value != []
  {
    if response.Some? && ValidateAiOutput(Strip(response.value)) then
      ValidateAiOutputCases(Strip(response.value));
      Some(Strip(response.value))
    else None
  }

  /** Ranking keeps only results that pass the filter when it is given only such results. */
  lemma RankKeeps(query: string, results: seq<SearchResult>, logTerm: int -> nat, lo: int, hi: int)
    requires forall r :: r in results ==> Keep(r, lo, hi)
    ensures forall r :: r in Rank(query, results, logTerm) ==> Keep(r, lo, hi)
  {
    RankCorrect(query, results, logTerm);
    forall r | r in Rank(query, results, logTerm) ensures r in results {
      assert r in multiset(Rank(query, results, logTerm));
    }
  }

  /** `YouTubeSearchService`, with the configuration values it reads. */
  class SearchService {
    const apiKey: string
    const searchUseAi: bool
    const minDuration: int
    const maxDuration: int
    var lastRequestTime: real
    /** The pauses taken before AI requests, in order. */
    ghost var sleeps: seq<real>

    constructor(apiKey: string, searchUseAi: bool, minDuration: int, maxDuration: int)
      ensures this.apiKey == apiKey && this.searchUseAi == searchUseAi
      ensures this.minDuration == minDuration && this.maxDuration == maxDuration
      ensures lastRequestTime == 0.0 && sleeps == []
    {
      this.apiKey := apiKey;
      this.searchUseAi := searchUseAi;
      this.minDuration := minDuration;
      this.maxDuration := maxDuration;
      lastRequestTime := 0.0;
      sleeps := [];
    }

    /** `_enhance_query_with_ai`: `now` is the clock before the request, `response` the stripped
      * content of the first choice (`None` when the call or its parsing fails) and `finished`
      * the clock when it is vetted. */
    method EnhanceQuery(query: string, response: Option<string>, now: real, finished: real)
      returns (enhanced: Option<string>)
      modifies this
      ensures apiKey == [] ==> enhanced == None && lastRequestTime == old(lastRequestTime) && sleeps == old(sleeps)
      ensures apiKey != [] ==> enhanced == Rewritten(response)
      ensures apiKey != [] ==> (sleeps == old(sleeps) +
        (if now - old(lastRequestTime) < MinRequestInterval then [RequestDelay(now, old(lastRequestTime))] else []))
      ensures lastRequestTime == if enhanced.Some? then finished else old(lastRequestTime)
    {
      if apiKey == [] {
        return None;
      }
      var sinceLast := now - lastRequestTime;
      if sinceLast < MinRequestInterval {
        sleeps := sleeps + [MinRequestInterval - sinceLast];
      }
      enhanced := Rewritten(response);
      if enhanced.Some? {
        lastRequestTime := finished;
      }
    }

    /** `search_songs`: `search` is what the extractor answers for a query; the ranking uses the
      * user's query, the search the rewritten one when there is one. */
    method SearchSongs(query: string, useAi: bool, response: Option<string>, now: real, finished: real,
        search: string -> SearchOutcome, logTerm: int -> nat)
      returns (results: seq<SearchResult>, ghost searched: string)
      modifies this
      ensures Strip(query) == [] ==> results == [] && lastRequestTime == old(lastRequestTime) && sleeps == old(sleeps)
      ensures Strip(query) != [] ==> (searched ==
        if useAi && searchUseAi && apiKey != [] && Rewritten(response).Some? then Rewritten(response).value else query)
      ensures Strip(query) != [] ==>
        results == Rank(query, SearchResults(search(searched), minDuration, maxDuration), logTerm)
      ensures forall r :: r in results ==> Keep(r, minDuration, maxDuration)
      ensures Strip(query) != [] && !(useAi && searchUseAi && apiKey != []) ==>
        lastRequestTime == old(lastRequestTime) && sleeps == old(sleeps)
      ensures Strip(query) != [] && useAi && searchUseAi && apiKey != [] ==>
        sleeps == old(sleeps) +
          (if now - old(lastRequestTime) < MinRequestInterval then [RequestDelay(now, old(lastRequestTime))] else [])
      ensures Strip(query) != [] && useAi && searchUseAi && apiKey != [] ==>
        lastRequestTime == if Rewritten(response).Some? then finished else old(lastRequestTime)
    {
      searched := query;
      if query == [] || Strip(query) == [] {
        return [], searched;
      }
      var enhanced := Some(query);
      if useAi && searchUseAi && apiKey != [] {
        enhanced := EnhanceQuery(query, response, now, finished);
      }
      var searchQuery := if enhanced.Some? && enhanced.value != [] then enhanced.value else query;
      searched := searchQuery;
      var found := YoutubeSearch(search(searchQuery), minDuration, maxDuration);
      results := found;
      if found != [] {
        results := RankResults(query, found, logTerm);
        RankKeeps(query, found, logTerm, minDuration, maxDuration);
      }
    }
  }
}
