/**
 * The title cleaner (tea/ai/filename_cleaner.py): the vetting of a model's answer, the daily
 * and per-interval request limits, the regular-expression fallback and the order in which
 * `clean_title` tries them. The HTTP call is an oracle: its answer is a parameter. The clock
 * and the calendar day are parameters too. The junk-phrase and emoji removal and the `\w`
 * class of the fallback are parameters of `RegexClean`, which is verified for any of them.
 */
module FilenameCleaner {
  import opened Wrappers
  import opened Text

  const MaxDailyRequests: nat := 50
  const MinRequestInterval: real := 3.0
  const MaxTitleLength: nat := 100

  // ---------------------------------------------------------------------------
  // Vetting the model's answer (shared with the search module, which allows 200 characters)

  /** One of the dangerous patterns occurs, ignoring ASCII case. */
  predicate HasDangerousPattern(output: string) {
    var l := Lower(output);
    Contains(l, "../") || Contains(l, "..\\") || Contains(l, "<script") || Contains(l, "javascript:")
    || Contains(l, "data:") || Contains(l, "\U{0}") || Contains(l, "\U{1B}")
  }

  predicate HasAsciiAlnum(s: string) {
    exists i :: 0 <= i < |s| && IsAsciiAlnum(s[i])
  }

  /** `_validate_ai_output` with the length limit as a parameter. */
  function ValidateAiOutput(output: string, limit: nat): (r: bool)
    ensures r ==> output != [] && |output| <= limit
  {
    if output == [] then false
    else if HasDangerousPattern(output) then false
    else if |output| > limit then false
    else HasAsciiAlnum(output)
  }

  /** Lower-casing commutes with slicing. */
  lemma LowerSlice(s: string, i: nat, j: nat)
    requires i <= j <= |s|
    ensures Lower(s[i..j]) == Lower(s)[i..j]
  {
    var a, b := Lower(s[i..j]), Lower(s)[i..j];
    assert |a| == |b|;
    forall k | 0 <= k < |a| ensures a[k] == b[k] {
      assert s[i..j][k] == s[i + k];
      LowerAt(s, s[i..j], i, k);
    }
  }

  lemma LowerAt(s: string, t: string, i: nat, k: nat)
    requires i + |t| <= |s| && k < |t|
    requires t[k] == s[i + k]
    ensures Lower(t)[k] == Lower(s)[i + k]
  {
  }

  /** An occurrence of `p` is an occurrence of its lower-case form in the lower-cased text. */
  lemma ContainsLower(s: string, p: string)
    requires Contains(s, p)
    ensures Contains(Lower(s), Lower(p))
  {
    var i := ContainsWitness(s, p);
    LowerSlice(s, i, i + |p|);
    var l := Lower(s);
    assert |Lower(p)| == |p| && i + |p| <= |l|;
    assert l[i..i + |p|] == Lower(p);
    ContainsAt(l, Lower(p), i);
  }

  /** An accepted answer is non-empty, within the limit, has an ASCII letter or digit, and
    * holds no dangerous pattern in any mix of upper and lower case. */
  lemma ValidAiOutputSafe(output: string, limit: nat, q: string)
    requires ValidateAiOutput(output, limit)
    requires Lower(q) in ["../", "..\\", "<script", "javascript:", "data:", "\U{0}", "\U{1B}"]
    ensures output != [] && |output| <= limit && HasAsciiAlnum(output)
    ensures !Contains(output, q)
  {
    if Contains(output, q) {
      ContainsLower(output, q);
      assert false;
    }
  }

  /** The vetting rejects exactly the listed cases. */
  lemma ValidateAiOutputCases(output: string, limit: nat)
    ensures ValidateAiOutput(output, limit) <==>
      output != [] && !HasDangerousPattern(output) && |output| <= limit && HasAsciiAlnum(output)
  {
  }

  // ---------------------------------------------------------------------------
  // The rate limiter

  /** `request_history.get(today, 0)`. */
  function Count(history: map<string, nat>, today: string): nat {
    if today in history then history[today] else 0
  }

  /** `get_remaining_requests`. */
  function Remaining(history: map<string, nat>, today: string): (r: nat)
    ensures r <= MaxDailyRequests
    ensures r == 0 <==> Count(history, today) >= MaxDailyRequests
  {
    if Count(history, today) >= MaxDailyRequests then 0 else MaxDailyRequests - Count(history, today)
  }

  /** `_can_make_request`. */
  predicate CanRequest(history: map<string, nat>, lastRequestTime: real, today: string, now: real) {
    Count(history, today) < MaxDailyRequests && !(now - lastRequestTime < MinRequestInterval)
  }

  /** The counter update of `_record_request`. */
  function Recorded(history: map<string, nat>, today: string): (r: map<string, nat>)
    ensures Count(r, today) == Count(history, today) + 1
    ensures forall day :: day != today ==> Count(r, day) == Count(history, day)
  {
    history[today := Count(history, today) + 1]
  }

  /** A request is allowed only while some of today's quota remains. */
  lemma CanRequestNeedsQuota(history: map<string, nat>, lastRequestTime: real, today: string, now: real)
    ensures CanRequest(history, lastRequestTime, today, now) ==> Remaining(history, today) > 0
    ensures Remaining(history, today) > 0 && now >= lastRequestTime + MinRequestInterval ==> CanRequest(history, lastRequestTime, today, now)
  {
  }

  /** Each recorded request uses up one of today's remaining requests and no other day's. */
  lemma RecordUsesOne(history: map<string, nat>, today: string, day: string)
    ensures Remaining(Recorded(history, today), today) == if Remaining(history, today) == 0 then 0 else Remaining(history, today) - 1
    ensures day != today ==> Remaining(Recorded(history, today), day) == Remaining(history, day)
  {
  }

  /** After a request is recorded at `now`, none is allowed again before `now + 3.0`. */
  lemma RecordBlocksInterval(history: map<string, nat>, today: string, now: real, later: real)
    requires later < now + MinRequestInterval
    ensures !CanRequest(Recorded(history, today), now, today, later)
  {
  }

  /** Recording `n` requests on one day. */
  function RecordedTimes(history: map<string, nat>, today: string, n: nat): map<string, nat> {
    if n == 0 then history else Recorded(RecordedTimes(history, today, n - 1), today)
  }

  /** From a fresh history, fifty requests on one day exhaust that day: no fifty-first. */
  lemma {:induction false} FiftyExhaust(today: string, n: nat, lastRequestTime: real, now: real)
    ensures Count(RecordedTimes(map[], today, n), today) == n
    ensures Remaining(RecordedTimes(map[], today, n), today) == if n >= MaxDailyRequests then 0 else MaxDailyRequests - n
    ensures n >= MaxDailyRequests ==> !CanRequest(RecordedTimes(map[], today, n), lastRequestTime, today, now)
  {
    if n > 0 {
      FiftyExhaust(today, n - 1, lastRequestTime, now);
    }
  }

  /** What a model answer amounts to: the stripped content, when it passes the vetting. */
  function AiAnswer(response: Option<string>): (r: Option<string>)
    ensures r.Some? ==> response.Some? && ValidateAiOutput(r.value, MaxTitleLength) && r.value == Strip(response.value)
    ensures response.Some? && ValidateAiOutput(Strip(response.value), MaxTitleLength) ==> r.Some?
  {
    if response.Some? && ValidateAiOutput(Strip(response.value), MaxTitleLength) then Some(Strip(response.value)) else None
  }

  // ---------------------------------------------------------------------------
  // The regular-expression fallback

  /** `re.sub(r'[^\w\s\-]', ' ', s)` for a given `\w`. */
  function KeepChars(s: string, isWord: char -> bool): (r: string)
    ensures |r| == |s|
    ensures forall i :: 0 <= i < |s| ==> r[i] == if isWord(s[i]) || IsSpace(s[i]) || s[i] == '-' then s[i] else ' '
  {
    if s == [] then [] else [if isWord(s[0]) || IsSpace(s[0]) || s[0] == '-' then s[0] else ' '] + KeepChars(s[1..], isWord)
  }

  /** `re.sub(r'\s+', ' ', s)`: each run of whitespace becomes one space. */
  function Collapse(s: string): (r: string)
    ensures |r| <= |s|
    ensures s != [] && !IsSpace(s[0]) ==> r != [] && r[0] == s[0]
    ensures s != [] ==> r != []
    decreases |s|
  {
    if s == [] then []
    else if IsSpace(s[0]) then [' '] + Collapse(LStrip(s[1..]))
    else [s[0]] + Collapse(s[1..])
  }

  /** The only whitespace is single spaces. */
  predicate SingleSpaced(s: string) {
    (forall i :: 0 <= i < |s| ==> IsSpace(s[i]) ==> s[i] == ' ')
    && (forall i :: 0 <= i < |s| - 1 ==> !(s[i] == ' ' && s[i + 1] == ' '))
  }

  /** Every character is a word character, a space or '-'. */
  predicate WordSpaceDash(s: string, isWord: char -> bool) {
    forall i :: 0 <= i < |s| ==> isWord(s[i]) || s[i] == ' ' || s[i] == '-'
  }

  /** Putting one character in front keeps the single-spaced shape when it is not other
    * whitespace and, if a space, is not followed by one. */
  lemma SingleSpacedCons(c: char, x: string)
    requires SingleSpaced(x) && (IsSpace(c) ==> c == ' ')
    requires c == ' ' ==> x == [] || x[0] != ' '
    ensures SingleSpaced([c] + x)
  {
    var r := [c] + x;
    assert forall i :: 1 <= i < |r| ==> r[i] == x[i - 1];
  }

  lemma {:induction false} CollapseSpaced(s: string)
    ensures SingleSpaced(Collapse(s))
    decreases |s|
  {
    if s != [] {
      if IsSpace(s[0]) {
        var t := LStrip(s[1..]);
        CollapseSpaced(t);
        SingleSpacedCons(' ', Collapse(t));
      } else {
        CollapseSpaced(s[1..]);
        SingleSpacedCons(s[0], Collapse(s[1..]));
      }
    }
  }

  /** Collapsing brings in no character but the space, and keeps no whitespace but it. */
  lemma {:induction false} CollapseChars(s: string)
    ensures forall c :: c in Collapse(s) ==> c == ' ' || (c in s && !IsSpace(c))
    decreases |s|
  {
    if s != [] {
      var rest := s[1..];
      SliceChars(s, 1, |s|);
      if IsSpace(s[0]) {
        var t := LStrip(rest);
        CollapseChars(t);
        SliceChars(rest, |rest| - |t|, |rest|);
        assert Collapse(s) == [' '] + Collapse(t);
      } else {
        CollapseChars(rest);
        assert Collapse(s) == [s[0]] + Collapse(rest);
      }
    }
  }

  /** Collapsing keeps characters other than whitespace only when the text already had them, so
    * the kept-character shape survives it. */
  lemma CollapseKeepsShape(s: string, isWord: char -> bool)
    requires forall i :: 0 <= i < |s| ==> isWord(s[i]) || IsSpace(s[i]) || s[i] == '-'
    ensures WordSpaceDash(Collapse(s), isWord) && SingleSpaced(Collapse(s))
  {
    CollapseSpaced(s);
    CollapseChars(s);
    var r := Collapse(s);
    forall i | 0 <= i < |r| ensures isWord(r[i]) || r[i] == ' ' || r[i] == '-' {
      assert r[i] in r;
      if r[i] != ' ' {
        var k :| 0 <= k < |s| && s[k] == r[i];
      }
    }
  }

  /** Both shapes hold for every slice. */
  lemma ShapeSlice(s: string, i: nat, j: nat, isWord: char -> bool)
    requires i <= j <= |s| && SingleSpaced(s) && WordSpaceDash(s, isWord)
    ensures SingleSpaced(s[i..j]) && WordSpaceDash(s[i..j], isWord)
  {
    var t := s[i..j];
    assert forall k :: 0 <= k < |t| ==> t[k] == s[i + k];
  }

  /** The character filter, the whitespace collapse, `strip()` and `[:100]`, in that order. */
  function Normalize(t: string, isWord: char -> bool): (r: string)
    ensures |r| <= MaxTitleLength && SingleSpaced(r) && WordSpaceDash(r, isWord)
  {
    NormalizeShape(t, isWord);
    Take(Strip(Collapse(KeepChars(t, isWord))), MaxTitleLength)
  }

  lemma NormalizeShape(t: string, isWord: char -> bool)
    ensures var r := Take(Strip(Collapse(KeepChars(t, isWord))), MaxTitleLength);
      SingleSpaced(r) && WordSpaceDash(r, isWord)
  {
    var kept := KeepChars(t, isWord);
    CollapseKeepsShape(kept, isWord);
    var stripped := Strip(Collapse(kept));
    StripShape(Collapse(kept), isWord);
    ShapeSlice(stripped, 0, |Take(stripped, MaxTitleLength)|, isWord);
  }

  /** `strip()` keeps both shapes. */
  lemma StripShape(s: string, isWord: char -> bool)
    requires SingleSpaced(s) && WordSpaceDash(s, isWord)
    ensures SingleSpaced(Strip(s)) && WordSpaceDash(Strip(s), isWord)
  {
    var l := LStrip(s);
    assert l == s[|s| - |l|..|s|];
    ShapeSlice(s, |s| - |l|, |s|, isWord);
    var r := RStrip(l);
    assert r == l[0..|r|];
    ShapeSlice(l, 0, |r|, isWord);
  }

  /** `_regex_clean`: `removeJunk` stands for the junk-phrase, "feat."/"ft." and emoji
    * substitutions, `isWord` for `\w`. The result is never empty, at most 100 characters, its
    * only whitespace is single spaces, and unless it is the fallback 'Untitled' every character
    * is a word character, a space or '-'. */
  function RegexClean(title: string, removeJunk: string -> string, isWord: char -> bool): (r: string)
    ensures r != [] && |r| <= MaxTitleLength && SingleSpaced(r)
    ensures r == "Untitled" || WordSpaceDash(r, isWord)
  {
    UntitledShape();
    if title == [] then "Untitled"
    else
      var cut := Normalize(removeJunk(title), isWord);
      if cut == [] then "Untitled" else cut
  }

  /** "Untitled" itself has the single-spaced shape. */
  lemma UntitledShape()
    ensures SingleSpaced("Untitled")
  {
  }

  // ---------------------------------------------------------------------------
  // The cleaner object

  /** `FilenameCleaner`: the key and the rate-limiter state. */
  class Cleaner {
    var apiKey: string
    var requestHistory: map<string, nat>
    var lastRequestTime: real

    /** The body of `__init__` once the key has passed its check (see `NewCleaner`). */
    constructor(apiKey: string)
      ensures this.apiKey == Strip(apiKey) && requestHistory == map[] && lastRequestTime == 0.0
    {
      this.apiKey := Strip(apiKey);
      requestHistory := map[];
      lastRequestTime := 0.0;
    }

    /** `_can_make_request` at calendar day `today` and clock reading `now`. */
    predicate CanMakeRequest(today: string, now: real)
      reads this
    {
      CanRequest(requestHistory, lastRequestTime, today, now)
    }

    /** `_record_request`. */
    method RecordRequest(today: string, now: real)
      modifies this
      ensures requestHistory == Recorded(old(requestHistory), today)
      ensures lastRequestTime == now && apiKey == old(apiKey)
    {
      requestHistory := requestHistory[today := Count(requestHistory, today) + 1];
      lastRequestTime := now;
    }

    /** `get_remaining_requests`: always between 0 and 50. */
    function GetRemainingRequests(today: string): (r: nat)
      reads this
      ensures r <= MaxDailyRequests
      ensures r == 0 <==> Count(requestHistory, today) >= MaxDailyRequests
    {
      Remaining(requestHistory, today)
    }

    /** `_ai_clean`; `response` is the content of the model's first choice, `None` when the call
      * fails in any way. A request is recorded only for an answer that passes the vetting. */
    method AiClean(title: string, response: Option<string>, today: string, now: real) returns (r: Option<string>)
      modifies this
      ensures r == if old(CanMakeRequest(today, now)) then AiAnswer(response) else None
      ensures r.Some? ==> requestHistory == Recorded(old(requestHistory), today) && lastRequestTime == now
      ensures r.None? ==> requestHistory == old(requestHistory) && lastRequestTime == old(lastRequestTime)
      ensures apiKey == old(apiKey)
    {
      if !CanMakeRequest(today, now) {
        return None;
      }
      if response.None? {
        return None;
      }
      var cleaned := Strip(response.value);
      if ValidateAiOutput(cleaned, MaxTitleLength) {
        RecordRequest(today, now);
        return Some(cleaned);
      }
      return None;
    }

    /** `clean_title`: 'Untitled' for an empty title, else the model's answer when it has one,
      * else the regular-expression fallback. */
    method CleanTitle(title: string, response: Option<string>, today: string, now: real,
                      removeJunk: string -> string, isWord: char -> bool) returns (r: string)
      modifies this
      ensures title == [] ==> r == "Untitled" && requestHistory == old(requestHistory) && lastRequestTime == old(lastRequestTime)
      ensures title != [] && old(CanMakeRequest(today, now)) && AiAnswer(response).Some? ==>
                requestHistory == Recorded(old(requestHistory), today) && lastRequestTime == now
      ensures title != [] && !(old(CanMakeRequest(today, now)) && AiAnswer(response).Some?) ==>
                requestHistory == old(requestHistory) && lastRequestTime == old(lastRequestTime)
      ensures apiKey == old(apiKey)
      ensures title != [] && old(CanMakeRequest(today, now)) && AiAnswer(response).Some? ==> r == AiAnswer(response).value
      ensures title != [] && !(old(CanMakeRequest(today, now)) && AiAnswer(response).Some?) ==> r == RegexClean(title, removeJunk, isWord)
      ensures r != [] && |r| <= MaxTitleLength
    {
      if title == [] {
        return "Untitled";
      }
      var ai := AiClean(title, response, today, now);
      if ai.Some? && ai.value != [] {
        return ai.value;
      }
      r := RegexClean(title, removeJunk, isWord);
    }
  }

  /** `FilenameCleaner(api_key)`: `ValueError` (here `null`) for an empty key; otherwise a
    * cleaner holding the stripped key, so a blank key is accepted and stored as ''. */
  method NewCleaner(apiKey: string) returns (c: Cleaner?)
    ensures c == null <==> apiKey == []
    ensures c != null ==> fresh(c) && c.apiKey == Strip(apiKey) && c.requestHistory == map[] && c.lastRequestTime == 0.0
  {
    if apiKey == [] {
      return null;
    }
    c := new Cleaner(apiKey);
  }
}
