/**
 * Clip boundaries for video splitting (tea/timestamps.py): conversion between `M:SS`/`H:MM:SS`
 * strings and seconds, chapter lists read from a video description, typed timestamp lists, and
 * the clip filter applied to a JSON clip file. Regular-expression searches are parameters.
 */
module Timestamps {
  import opened Wrappers
  import opened Text
  import opened Sorting
  import opened Security
  import opened Clock
  import opened Seqs

  /** One clip: start and end as timestamp strings, and a title. */
  datatype Clip = Clip(start: string, end: string, title: string)

  /** The pattern groups of a string that splits at ':' into two digit pieces. */
  lemma GroupsOfTwo(t: string, a: string, b: string)
    requires Split(t, ':') == [a, b] && AllDigits(a) && AllDigits(b) && 1 <= |a| <= 2 && |b| == 2
    ensures TimestampGroups(t) == Some((RunValue(a), RunValue(b), None))
  {
    var parts := Split(t, ':');
    assert parts[0] == a && parts[1] == b && |parts| == 2;
  }

  /** The pattern groups of a string that splits at ':' into three digit pieces; the first
    * may have at most two digits. */
  lemma GroupsOfThree(t: string, a: string, b: string, c: string)
    requires Split(t, ':') == [a, b, c] && AllDigits(a) && AllDigits(b) && AllDigits(c)
    requires 1 <= |a| && |b| == 2 && |c| == 2
    ensures |a| <= 2 ==> TimestampGroups(t) == Some((RunValue(a), RunValue(b), Some(RunValue(c))))
    ensures |a| > 2 ==> TimestampGroups(t) == None
  {
    var parts := Split(t, ':');
    assert parts[0] == a && parts[1] == b && parts[2] == c && |parts| == 3;
  }

  lemma NumeralDigits(s: string)
    requires Numeral(s)
    ensures AllDigits(s) && |s| >= 1
  {
  }

  /** The regular expression groups `validate_timestamp` sees in a clock string without hours. */
  lemma MinuteClockGroups(m: nat, sec: nat)
    requires m < 60 && sec < 60
    ensures TimestampGroups(ClockString(0, m, sec)) == Some((m, sec, None))
  {
    var mi, ss := NatToString(m), Pad2(sec);
    assert AllDigits(ss) && |ss| == 2 && RunValue(ss) == sec by {
      NumeralOfPad2(sec);
      NumeralDigits(ss);
      RunValuePad2(sec);
    }
    assert AllDigits(mi) && 1 <= |mi| <= 2 && RunValue(mi) == m by {
      NumeralOfNat(m);
      NumeralDigits(mi);
      NatToStringLength(m);
      RunValueOfNat(m);
    }
    assert Split(ClockString(0, m, sec), ':') == [mi, ss] by {
      MinutePieces(m, sec);
    }
    GroupsOfTwo(ClockString(0, m, sec), mi, ss);
  }

  /** The groups in a clock string with hours: none once the hours have three digits. */
  lemma HourClockGroups(h: nat, m: nat, sec: nat)
    requires h > 0 && m < 60 && sec < 60
    ensures h < 100 ==> TimestampGroups(ClockString(h, m, sec)) == Some((h, m, Some(sec)))
    ensures h >= 100 ==> TimestampGroups(ClockString(h, m, sec)) == None
  {
    var hs, ms, ss := NatToString(h), Pad2(m), Pad2(sec);
    assert AllDigits(ms) && |ms| == 2 && RunValue(ms) == m by {
      NumeralOfPad2(m);
      NumeralDigits(ms);
      RunValuePad2(m);
    }
    assert AllDigits(ss) && |ss| == 2 && RunValue(ss) == sec by {
      NumeralOfPad2(sec);
      NumeralDigits(ss);
      RunValuePad2(sec);
    }
    assert AllDigits(hs) && 1 <= |hs| && (|hs| <= 2 <==> h < 100) && RunValue(hs) == h by {
      NumeralOfNat(h);
      NumeralDigits(hs);
      NatToStringLength(h);
      RunValueOfNat(h);
    }
    assert Split(ClockString(h, m, sec), ':') == [hs, ms, ss] by {
      HourPieces(h, m, sec);
    }
    GroupsOfThree(ClockString(h, m, sec), hs, ms, ss);
  }

  /** Both validators on a stripped string whose pattern does not match. */
  lemma ValidatorsOnNoMatch(t: string)
    requires TimestampGroups(Strip(t)) == None
    ensures !ValidateTimestamp(t) && !ValidateTimestampIntended(t)
  {
  }

  /** Both validators on a stripped string with two groups. */
  lemma ValidatorsOnPair(t: string, x: nat, y: nat)
    requires |t| > 0 && TimestampGroups(Strip(t)) == Some((x, y, None))
    ensures ValidateTimestamp(t) <==> x <= 59 && y <= 59
    ensures ValidateTimestampIntended(t) <==> x <= 59 && y <= 59
  {
  }

  /** Both validators on a stripped string with three groups. */
  lemma ValidatorsOnTriple(t: string, x: nat, y: nat, z: nat)
    requires |t| > 0 && TimestampGroups(Strip(t)) == Some((x, y, Some(z)))
    ensures ValidateTimestamp(t) <==> z <= 23 && x <= 59 && y <= 59
    ensures ValidateTimestampIntended(t) <==> x <= 23 && y <= 59 && z <= 59
  {
  }

  /** On a clock string the validator as written reads the hours as minutes and the seconds
    * as hours. */
  lemma ValidatorOnClock(h: nat, m: nat, sec: nat)
    requires m < 60 && sec < 60
    ensures ValidateTimestamp(ClockString(h, m, sec)) <==> h == 0 || (h <= 59 && sec <= 23)
  {
    var t := ClockString(h, m, sec);
    if h == 0 {
      assert TimestampGroups(Strip(t)) == Some((m, sec, None)) by {
        ClockStripped(h, m, sec);
        MinuteClockGroups(m, sec);
      }
      ValidatorsOnPair(t, m, sec);
    } else if h < 100 {
      assert TimestampGroups(Strip(t)) == Some((h, m, Some(sec))) by {
        ClockStripped(h, m, sec);
        HourClockGroups(h, m, sec);
      }
      ValidatorsOnTriple(t, h, m, sec);
    } else {
      assert TimestampGroups(Strip(t)) == None by {
        ClockStripped(h, m, sec);
        HourClockGroups(h, m, sec);
      }
      ValidatorsOnNoMatch(t);
    }
  }

  lemma IntendedValidatorOnClock(h: nat, m: nat, sec: nat)
    requires m < 60 && sec < 60
    ensures ValidateTimestampIntended(ClockString(h, m, sec)) <==> h <= 23
  {
    var t := ClockString(h, m, sec);
    if h == 0 {
      assert TimestampGroups(Strip(t)) == Some((m, sec, None)) by {
        ClockStripped(h, m, sec);
        MinuteClockGroups(m, sec);
      }
      ValidatorsOnPair(t, m, sec);
    } else if h < 100 {
      assert TimestampGroups(Strip(t)) == Some((h, m, Some(sec))) by {
        ClockStripped(h, m, sec);
        HourClockGroups(h, m, sec);
      }
      ValidatorsOnTriple(t, h, m, sec);
    } else {
      assert TimestampGroups(Strip(t)) == None by {
        ClockStripped(h, m, sec);
        HourClockGroups(h, m, sec);
      }
      ValidatorsOnNoMatch(t);
    }
  }

  /** The validator as written accepts a formatted time below an hour, but from one hour on only
    * when the hours are at most 59 and the seconds at most 23. */
  lemma ValidatorOnFormattedTime(s: nat)
    ensures ValidateTimestamp(FormatTime(s)) <==> s < 3600 || (s / 3600 <= 59 && s % 60 <= 23)
  {
    ClockArithmetic(s);
    ValidatorOnClock(s / 3600, (s % 3600) / 60, s % 60);
  }

  /** From one hour up to 60 hours, every formatted time whose seconds exceed 23 is rejected;
    * `FormatTimeExample` shows one such time. */
  lemma ValidatorRejectsFormattedTime(s: nat)
    requires 3600 <= s < 60 * 3600 && s % 60 > 23
    ensures !ValidateTimestamp(FormatTime(s))
  {
    ValidatorOnFormattedTime(s);
  }

  /** `format_time(5445)` is "1:30:45": 5445 meets the requirement above. */
  lemma FormatTimeExample()
    ensures FormatTime(5445) == "1:30:45"
  {
    FormatTimeOfExample();
    ClockStringExample();
  }

  lemma FormatTimeOfExample()
    ensures FormatTime(5445) == ClockString(1, 30, 45)
  {
    assert 5445 / 3600 == 1 && (5445 % 3600) / 60 == 30 && 5445 % 60 == 45;
  }

  lemma ClockStringExample()
    ensures ClockString(1, 30, 45) == "1:30:45"
  {
    assert NatToString(1) == "1" && Pad2(30) == "30" && Pad2(45) == "45" by {
      TwoDigits(3, 0);
      TwoDigits(4, 5);
    }
    assert "1" + [':'] + ("30" + [':'] + "45") == "1:30:45";
  }

  lemma TwoDigits(d: nat, e: nat)
    requires 1 <= d < 10 && e < 10
    ensures Pad2(10 * d + e) == [DigitChar(d), DigitChar(e)]
  {
    var n := 10 * d + e;
    assert n / 10 == d && n % 10 == e;
    assert NatToString(n) == NatToString(d) + [DigitChar(e)];
  }

  /** The corrected validator accepts exactly the formatted times below 24 hours. */
  lemma IntendedValidatorOnFormattedTime(s: nat)
    ensures ValidateTimestampIntended(FormatTime(s)) <==> s < 86400
  {
    ClockArithmetic(s);
    IntendedValidatorOnClock(s / 3600, (s % 3600) / 60, s % 60);
  }

  // ---------------------------------------------------------------------------
  // parse_description_timestamps

  /** A chapter found in a description line: its seconds, its time string and its title. */
  datatype Chapter = Chapter(time: int, timeStr: string, title: string)

  function TimeOf(c: Chapter): int { c.time }

  /** `re.search(patterns[k], line)` for the four description patterns (k = 0..3), as the
    * text of group 1 and group 2. */
  type DescriptionSearch = (nat, string) -> Option<(string, string)>

  const DescriptionPatternCount: nat := 4

  /** A chapter is consistent: its time string reads back as its seconds, it does not start after
    * the video ends, and its title is cut to 100 characters. */
  predicate ChapterOk(c: Chapter, duration: int) {
    TimeToSeconds(c.timeStr) == c.time && c.time <= duration && |c.title| <= 100
  }

  predicate TitleRejected(title: string) {
    var l := Lower(title);
    |title| < 2 || StartsWith(l, "http") || StartsWith(l, "www") || StartsWith(l, "channel")
  }

  /** The body of the pattern loop for pattern `k`: `None` where the source continues with the
    * next pattern. */
  function PatternChapter(search: DescriptionSearch, k: nat, line: string, duration: int): (r: Option<Chapter>)
    ensures r.Some? ==> ChapterOk(r.value, duration)
  {
    match search(k, line)
    case None => None
    case Some((group1, group2)) =>
      var timeStr := Strip(group1);
      var title := Strip(group2);
      if TitleRejected(title) then None
      else
        match PartsToSeconds(Split(timeStr, ':'))
        case None => None
        case Some(seconds) =>
          if seconds > duration then None
          else
            ChapterOfPieces(group1, seconds, title, duration);
            Some(Chapter(seconds, timeStr, Take(title, 100)))
  }

  lemma ChapterOfPieces(group1: string, seconds: int, title: string, duration: int)
    requires PartsToSeconds(Split(Strip(group1), ':')) == Some(seconds) && seconds <= duration
    ensures ChapterOk(Chapter(seconds, Strip(group1), Take(title, 100)), duration)
  {
    StripIdempotent(group1);
    TimeToSecondsOf(Strip(group1), seconds);
  }

  /** The first of patterns `k`, `k + 1`, ... that yields a chapter. */
  function FirstPatternChapter(search: DescriptionSearch, k: nat, line: string, duration: int): (r: Option<Chapter>)
    ensures r.Some? ==> ChapterOk(r.value, duration)
    decreases DescriptionPatternCount - k
  {
    if k >= DescriptionPatternCount then None
    else
      match PatternChapter(search, k, line, duration)
      case Some(c) => Some(c)
      case None => FirstPatternChapter(search, k + 1, line, duration)
  }

  /** The chapters of the first lines, in line order. */
  function LineChapters(search: DescriptionSearch, lines: seq<string>, duration: int): (r: seq<Chapter>)
    ensures |r| <= |lines|
    ensures forall i :: 0 <= i < |r| ==> ChapterOk(r[i], duration)
  {
    if lines == [] then []
    else
      var prev := LineChapters(search, lines[..|lines| - 1], duration);
      var line := Strip(lines[|lines| - 1]);
      if |line| < 5 then prev
      else
        match FirstPatternChapter(search, 0, line, duration)
        case None => prev
        case Some(c) => prev + [c]
  }

  function Times(s: seq<Chapter>): set<int> {
    set i | 0 <= i < |s| :: s[i].time
  }

  predicate StrictlyIncreasing(s: seq<Chapter>) {
    forall i, j :: 0 <= i < j < |s| ==> s[i].time < s[j].time
  }

  /** The first chapter of each time, in order (the `seen_times` loop). */
  function FirstPerTime(s: seq<Chapter>): (r: seq<Chapter>)
    ensures |r| <= |s|
    ensures forall c :: c in r ==> c in s
  {
    if s == [] then []
    else
      var prev := FirstPerTime(s[..|s| - 1]);
      if s[|s| - 1].time in Times(s[..|s| - 1]) then prev else prev + [s[|s| - 1]]
  }

  lemma TimesSnoc(p: seq<Chapter>, x: Chapter)
    ensures Times(p + [x]) == Times(p) + {x.time}
  {
    var s := p + [x];
    forall t | t in Times(s) ensures t in Times(p) + {x.time} {
      var i :| 0 <= i < |s| && s[i].time == t;
      if i < |p| { assert p[i] == s[i]; }
    }
    forall t | t in Times(p) ensures t in Times(s) {
      var i :| 0 <= i < |p| && p[i].time == t;
      assert s[i] == p[i];
    }
    assert s[|p|] == x;
  }

  /** Keeping the first chapter of each time loses no time. */
  lemma {:induction false} FirstPerTimeTimes(s: seq<Chapter>)
    ensures Times(FirstPerTime(s)) == Times(s)
    decreases |s|
  {
    if s != [] {
      var p, x := s[..|s| - 1], s[|s| - 1];
      assert s == p + [x];
      FirstPerTimeTimes(p);
      TimesSnoc(p, x);
      if x.time !in Times(p) {
        TimesSnoc(FirstPerTime(p), x);
      }
    }
  }

  /** After a sort by time, the first chapter of each time leaves the times strictly increasing. */
  lemma {:induction false} FirstPerTimeIncreasing(s: seq<Chapter>)
    requires SortedBy(s, TimeOf)
    ensures StrictlyIncreasing(FirstPerTime(s))
    decreases |s|
  {
    if s != [] {
      var p, x := s[..|s| - 1], s[|s| - 1];
      assert SortedBy(p, TimeOf);
      FirstPerTimeIncreasing(p);
      var prev := FirstPerTime(p);
      if x.time !in Times(p) {
        forall i | 0 <= i < |prev| ensures prev[i].time < x.time {
          assert prev[i] in p;
          var j :| 0 <= j < |p| && p[j] == prev[i];
          assert TimeOf(s[j]) <= TimeOf(s[|s| - 1]);
        }
        var r := prev + [x];
        assert forall i :: 0 <= i < |prev| ==> r[i] == prev[i];
      }
    }
  }

  /** The pairing loop: each chapter ends where the next begins, the last at the video's end. */
  function PairEnds(u: seq<Chapter>, duration: int): (r: seq<Clip>)
    ensures |r| == |u|
  {
    seq(|u|, i requires 0 <= i < |u| =>
      Clip(u[i].timeStr, FormatTime(EndTime(u, i, duration)), u[i].title))
  }

  /** Where clip `i` ends: the next chapter's start, or the video's end for the last one. */
  function EndTime(u: seq<Chapter>, i: nat, duration: int): int {
    if i + 1 < |u| then u[i + 1].time else duration
  }

  /** What `parse_description_timestamps` returns. */
  function DescriptionClips(description: string, duration: int, search: DescriptionSearch): seq<Clip> {
    var found := LineChapters(search, Split(description, '\n'), duration);
    if found == [] then [] else PairEnds(FirstPerTime(SortBy(found, TimeOf)), duration)
  }

  /** Clips paired from strictly increasing consistent chapters. */
  lemma PairEndsProperties(u: seq<Chapter>, duration: int)
    requires StrictlyIncreasing(u) && forall i :: 0 <= i < |u| ==> ChapterOk(u[i], duration)
    ensures var r := PairEnds(u, duration);
      && (forall i, j :: 0 <= i < j < |r| ==> TimeToSeconds(r[i].start) < TimeToSeconds(r[j].start))
      && (forall i :: 0 <= i < |r| ==> TimeToSeconds(r[i].start) <= duration && |r[i].title| <= 100)
      && (forall i :: 0 <= i < |r| - 1 ==> r[i].end == FormatTime(TimeToSeconds(r[i + 1].start)))
      && (r != [] ==> r[|r| - 1].end == FormatTime(duration))
  {
    var r := PairEnds(u, duration);
    forall i | 0 <= i < |r| ensures TimeToSeconds(r[i].start) == u[i].time && r[i].title == u[i].title {
      assert ChapterOk(u[i], duration);
    }
    forall i | 0 <= i < |r| - 1 ensures r[i].end == FormatTime(TimeToSeconds(r[i + 1].start)) {
      assert EndTime(u, i, duration) == u[i + 1].time;
    }
  }

  lemma ChaptersOkWithin(u: seq<Chapter>, s: seq<Chapter>, duration: int)
    requires forall c :: c in u ==> c in s
    requires forall i :: 0 <= i < |s| ==> ChapterOk(s[i], duration)
    ensures forall i :: 0 <= i < |u| ==> ChapterOk(u[i], duration)
  {
    forall i | 0 <= i < |u| ensures ChapterOk(u[i], duration) {
      assert u[i] in s;
      var j :| 0 <= j < |s| && s[j] == u[i];
    }
  }

  lemma SortedWithin(s: seq<Chapter>)
    ensures forall c :: c in SortBy(s, TimeOf) ==> c in s
  {
    forall c | c in SortBy(s, TimeOf) ensures c in s {
      assert c in multiset(SortBy(s, TimeOf));
    }
  }

  /** The chapter list properties: start times strictly increase and read back as the chapter
    * seconds, none lies past the end, titles are cut to 100, each clip ends where the next one
    * starts, and the last one ends at the video's end. */
  lemma DescriptionClipsProperties(description: string, duration: int, search: DescriptionSearch)
    ensures var r := DescriptionClips(description, duration, search);
      && (forall i, j :: 0 <= i < j < |r| ==> TimeToSeconds(r[i].start) < TimeToSeconds(r[j].start))
      && (forall i :: 0 <= i < |r| ==> TimeToSeconds(r[i].start) <= duration && |r[i].title| <= 100)
      && (forall i :: 0 <= i < |r| - 1 ==> r[i].end == FormatTime(TimeToSeconds(r[i + 1].start)))
      && (r != [] ==> r[|r| - 1].end == FormatTime(duration))
  {
    var found := LineChapters(search, Split(description, '\n'), duration);
    if found != [] {
      var sorted := SortBy(found, TimeOf);
      var u := FirstPerTime(sorted);
      assert StrictlyIncreasing(u) by {
        SortByCorrect(found, TimeOf);
        FirstPerTimeIncreasing(sorted);
      }
      assert forall i :: 0 <= i < |u| ==> ChapterOk(u[i], duration) by {
        SortedWithin(found);
        ChaptersOkWithin(sorted, found, duration);
        ChaptersOkWithin(u, sorted, duration);
      }
      PairEndsProperties(u, duration);
    }
  }

  /** One more line for the line loop. */
  lemma LineChaptersNext(search: DescriptionSearch, lines: seq<string>, n: nat, duration: int)
    requires n < |lines|
    ensures var line := Strip(lines[n]);
      LineChapters(search, lines[..n + 1], duration) ==
        if |line| < 5 then LineChapters(search, lines[..n], duration)
        else match FirstPatternChapter(search, 0, line, duration)
          case None => LineChapters(search, lines[..n], duration)
          case Some(c) => LineChapters(search, lines[..n], duration) + [c]
  {
    assert lines[..n + 1][..n] == lines[..n];
    assert lines[..n + 1][n] == lines[n];
  }

  /** One more chapter for the `seen_times` loop. */
  lemma FirstPerTimeNext(s: seq<Chapter>, i: nat)
    requires i < |s|
    ensures Times(s[..i + 1]) == Times(s[..i]) + {s[i].time}
    ensures s[i].time in Times(s[..i]) ==> Times(s[..i + 1]) == Times(s[..i])
    ensures FirstPerTime(s[..i + 1]) ==
      if s[i].time in Times(s[..i]) then FirstPerTime(s[..i]) else FirstPerTime(s[..i]) + [s[i]]
  {
    assert s[..i + 1] == s[..i] + [s[i]];
    TimesSnoc(s[..i], s[i]);
  }

  /** The pattern loop for one line: stops at the first pattern that yields a chapter. */
  method LineChapter(search: DescriptionSearch, line: string, duration: int) returns (chapter: Option<Chapter>)
    ensures chapter == FirstPatternChapter(search, 0, line, duration)
  {
    var k := 0;
    chapter := None;
    while k < DescriptionPatternCount && chapter.None?
      invariant 0 <= k <= DescriptionPatternCount
      invariant chapter.None? ==> FirstPatternChapter(search, 0, line, duration) == FirstPatternChapter(search, k, line, duration)
      invariant chapter.Some? ==> chapter == FirstPatternChapter(search, 0, line, duration)
    {
      chapter := PatternChapter(search, k, line, duration);
      k := k + 1;
    }
  }

  /** The line loop of `parse_description_timestamps`: the first pattern that yields a chapter
    * adds it. */
  method ScanDescriptionLines(lines: seq<string>, duration: int, search: DescriptionSearch)
    returns (timestamps: seq<Chapter>)
    ensures timestamps == LineChapters(search, lines, duration)
  {
    timestamps := [];
    var n := 0;
    while n < |lines|
      invariant 0 <= n <= |lines|
      invariant timestamps == LineChapters(search, lines[..n], duration)
    {
      LineChaptersNext(search, lines, n, duration);
      var line := Strip(lines[n]);
      if |line| >= 5 {
        var chapter := LineChapter(search, line, duration);
        if chapter.Some? {
          timestamps := timestamps + [chapter.value];
        }
      }
      n := n + 1;
    }
    assert lines[..|lines|] == lines;
  }

  /** The `seen_times` loop: keeps the first chapter of each time. */
  method DropRepeatedTimes(timestamps: seq<Chapter>) returns (unique: seq<Chapter>)
    ensures unique == FirstPerTime(timestamps)
  {
    var seenTimes: set<int> := {};
    unique := [];
    var i := 0;
    while i < |timestamps|
      invariant 0 <= i <= |timestamps|
      invariant unique == FirstPerTime(timestamps[..i])
      invariant seenTimes == Times(timestamps[..i])
    {
      FirstPerTimeNext(timestamps, i);
      if timestamps[i].time !in seenTimes {
        seenTimes := seenTimes + {timestamps[i].time};
        unique := unique + [timestamps[i]];
      }
      i := i + 1;
    }
    assert timestamps[..|timestamps|] == timestamps;
  }

  /** The pairing loop: clip `i` starts at chapter `i` and ends at the next chapter. */
  method PairChapters(unique: seq<Chapter>, duration: int) returns (result: seq<Clip>)
    ensures result == PairEnds(unique, duration)
  {
    result := [];
    var i := 0;
    while i < |unique|
      invariant 0 <= i <= |unique|
      invariant result == PairEnds(unique, duration)[..i]
    {
      var endTime := if i + 1 < |unique| then unique[i + 1].time else duration;
      PairEndsNext(unique, i, duration);
      result := result + [Clip(unique[i].timeStr, FormatTime(endTime), unique[i].title)];
      i := i + 1;
    }
    assert PairEnds(unique, duration)[..|unique|] == PairEnds(unique, duration);
  }

  /** One more clip for the pairing loop. */
  lemma PairEndsNext(u: seq<Chapter>, i: nat, duration: int)
    requires i < |u|
    ensures PairEnds(u, duration)[..i + 1] == PairEnds(u, duration)[..i] + [Clip(u[i].timeStr, FormatTime(EndTime(u, i, duration)), u[i].title)]
  {
    var r := PairEnds(u, duration);
    assert r[..i + 1] == r[..i] + [r[i]];
  }

  /** `parse_description_timestamps`, with the description split into lines. */
  method ParseDescriptionTimestamps(description: string, duration: int, search: DescriptionSearch)
    returns (result: seq<Clip>)
    ensures result == DescriptionClips(description, duration, search)
  {
    var timestamps := ScanDescriptionLines(Split(description, '\n'), duration, search);
    if timestamps == [] {
      return [];
    }
    timestamps := SortBy(timestamps, TimeOf);
    var unique := DropRepeatedTimes(timestamps);
    result := PairChapters(unique, duration);
  }

  // ---------------------------------------------------------------------------
  // parse_timestamp_list

  /** `re.search` with the range pattern on one part: the start, the end, and the rest of the
    * part (group 3, empty when nothing follows). */
  type RangeSearch = string -> Option<(string, string, string)>

  /** `re.search` with the line pattern on one line: the timestamp and the title. */
  type LineSearch = string -> Option<(string, string)>

  /** `re.search` for a bare timestamp: the first one in a line. */
  type TimeSearch = string -> Option<string>

  /** The list is read as ranges iff it has a '-' and either a ',' or no line break. */
  predicate RangeMode(text: string) {
    '-' in text && (',' in text || '\n' !in text)
  }

  /** `re.split(r',|\n', text)`. */
  function RangeParts(text: string): seq<string> {
    Split(ReplaceChar(text, '\n', ','), ',')
  }

  /** The title of the `n`-th range entry: the stripped rest, or "Clip n" when there is none. */
  function RangeTitle(rest: string, n: nat): string {
    if rest != [] then Strip(rest) else "Clip " + NatToString(n)
  }

  /** The entry a stripped part yields when `n - 1` entries precede it. */
  function RangeEntry(part: string, n: nat, search: RangeSearch): Option<Clip> {
    if part == [] then None
    else
      match search(part)
      case None => None
      case Some((start, end, rest)) => Some(Clip(start, end, RangeTitle(rest, n)))
  }

  /** The range entries of the parts, in part order. */
  function RangeClips(parts: seq<string>, search: RangeSearch): (r: seq<Clip>)
    ensures |r| <= |parts|
  {
    if parts == [] then []
    else
      var prev := RangeClips(parts[..|parts| - 1], search);
      match RangeEntry(Strip(parts[|parts| - 1]), |prev| + 1, search)
      case None => prev
      case Some(c) => prev + [c]
  }

  /** Every element of `s` satisfies `ok` at its own position. */
  predicate AllAt<T>(s: seq<T>, ok: (T, nat) -> bool) {
    forall i :: 0 <= i < |s| ==> ok(s[i], i)
  }

  lemma AllAtAppend<T>(s: seq<T>, x: T, ok: (T, nat) -> bool)
    requires AllAt(s, ok) && ok(x, |s|)
    ensures AllAt(s + [x], ok)
  {
    var r := s + [x];
    forall i | 0 <= i < |r| ensures ok(r[i], i) {
      if i < |s| {
        assert r[i] == s[i];
      }
    }
  }

  /** A range entry's title is its own stripped text or numbers the entry by its position. */
  predicate TitledOrNumbered(c: Clip, i: nat) {
    Trimmed(c.title) || c.title == "Clip " + NatToString(i + 1)
  }

  lemma RangeEntryTitled(part: string, n: nat, search: RangeSearch)
    requires n >= 1 && RangeEntry(part, n, search).Some?
    ensures TitledOrNumbered(RangeEntry(part, n, search).value, n - 1)
  {
    RangeTitleShape(search(part).value.2, n);
  }

  /** Every clip is titled or numbered by its own position. */
  predicate AllTitled(r: seq<Clip>) {
    forall i :: 0 <= i < |r| ==> TitledOrNumbered(r[i], i)
  }

  lemma AllTitledAppend(r: seq<Clip>, c: Clip)
    requires AllTitled(r) && TitledOrNumbered(c, |r|)
    ensures AllTitled(r + [c])
  {
    var t := r + [c];
    forall i | 0 <= i < |t| ensures TitledOrNumbered(t[i], i) {
      if i < |r| {
        assert t[i] == r[i];
      }
    }
  }

  /** Every range entry is titled by its rest or numbered by its position. */
  lemma {:induction false} RangeClipsTitles(parts: seq<string>, search: RangeSearch)
    ensures AllTitled(RangeClips(parts, search))
    decreases |parts|
  {
    if parts != [] {
      var p, last := parts[..|parts| - 1], parts[|parts| - 1];
      assert parts == p + [last];
      RangeClipsTitles(p, search);
      RangeClipsTitledStep(p, last, search);
    }
  }

  /** One more part keeps the entries titled or numbered. */
  lemma RangeClipsTitledStep(p: seq<string>, last: string, search: RangeSearch)
    requires AllTitled(RangeClips(p, search))
    ensures AllTitled(RangeClips(p + [last], search))
  {
    var parts := p + [last];
    assert parts[..|parts| - 1] == p && parts[|parts| - 1] == last;
    var prev := RangeClips(p, search);
    var part := Strip(last);
    var e := RangeEntry(part, |prev| + 1, search);
    if e.Some? {
      RangeEntryTitled(part, |prev| + 1, search);
      AllTitledAppend(prev, e.value);
      assert RangeClips(parts, search) == prev + [e.value];
    } else {
      assert RangeClips(parts, search) == prev;
    }
  }

  lemma RangeTitleShape(rest: string, n: nat)
    ensures Trimmed(RangeTitle(rest, n)) || RangeTitle(rest, n) == "Clip " + NatToString(n)
  {
  }

  /** `[l.strip() for l in lines if l.strip()]`. */
  function NonBlank(lines: seq<string>): (r: seq<string>)
    ensures |r| <= |lines|
    ensures forall k :: 0 <= k < |r| ==> r[k] != [] && Trimmed(r[k])
  {
    if lines == [] then []
    else (if Strip(lines[0]) != [] then [Strip(lines[0])] else []) + NonBlank(lines[1..])
  }

  /** The lines of line mode: `text.strip().split('\n')`, stripped, blank ones dropped. */
  function ListLines(text: string): seq<string> {
    NonBlank(Split(Strip(text), '\n'))
  }

  /** Where the entry of line `i` ends: the first timestamp on the next line, or for the last
    * line the video duration when one is given. */
  function LineEnd(lines: seq<string>, i: nat, duration: Option<string>, timeSearch: TimeSearch): Option<string>
    requires i < |lines|
  {
    if i + 1 < |lines| then timeSearch(lines[i + 1])
    else if duration.Some? && duration.value != [] then duration
    else None
  }

  /** The entry of line `i`, if the line matches and it has a non-empty end. */
  function LineEntry(lines: seq<string>, i: nat, duration: Option<string>, lineSearch: LineSearch,
                     timeSearch: TimeSearch): Option<Clip>
    requires i < |lines|
  {
    match lineSearch(lines[i])
    case None => None
    case Some((start, title)) =>
      match LineEnd(lines, i, duration, timeSearch)
      case None => None
      case Some(end) => if end != [] then Some(Clip(start, end, Strip(title))) else None
  }

  /** Line `i` yields an entry exactly when it matches and the next line has a timestamp, or it
    * is the last line and a duration is given; the entry ends there. */
  lemma LineEntryEnds(lines: seq<string>, i: nat, duration: Option<string>, lineSearch: LineSearch,
                      timeSearch: TimeSearch)
    requires i < |lines|
    ensures LineEntry(lines, i, duration, lineSearch, timeSearch).Some? ==>
      var c := LineEntry(lines, i, duration, lineSearch, timeSearch).value;
      lineSearch(lines[i]).Some? && c.start == lineSearch(lines[i]).value.0
      && c.title == Strip(lineSearch(lines[i]).value.1) && c.end != []
      && (i + 1 < |lines| ==> timeSearch(lines[i + 1]) == Some(c.end))
      && (i + 1 == |lines| ==> duration == Some(c.end))
    ensures lineSearch(lines[i]).Some? && i + 1 < |lines| && timeSearch(lines[i + 1]).Some? ==>
      (timeSearch(lines[i + 1]).value != [] ==> LineEntry(lines, i, duration, lineSearch, timeSearch).Some?)
    ensures lineSearch(lines[i]).Some? && i + 1 == |lines| && duration.Some? && duration.value != [] ==>
      LineEntry(lines, i, duration, lineSearch, timeSearch).Some?
  {
  }

  /** The entries of lines `0 .. n - 1`, in line order. */
  function LineClips(lines: seq<string>, n: nat, duration: Option<string>, lineSearch: LineSearch,
                     timeSearch: TimeSearch): (r: seq<Clip>)
    requires n <= |lines|
    ensures |r| <= n
  {
    if n == 0 then []
    else
      var prev := LineClips(lines, n - 1, duration, lineSearch, timeSearch);
      match LineEntry(lines, n - 1, duration, lineSearch, timeSearch)
      case None => prev
      case Some(c) => prev + [c]
  }

  /** What `parse_timestamp_list` returns. */
  function TimestampListClips(text: string, duration: Option<string>, rangeSearch: RangeSearch,
                              lineSearch: LineSearch, timeSearch: TimeSearch): seq<Clip> {
    if RangeMode(text) then RangeClips(RangeParts(text), rangeSearch)
    else
      var lines := ListLines(text);
      LineClips(lines, |lines|, duration, lineSearch, timeSearch)
  }

  lemma RangeClipsNext(parts: seq<string>, n: nat, search: RangeSearch, e: Option<Clip>)
    requires n < |parts|
    requires e == RangeEntry(Strip(parts[n]), |RangeClips(parts[..n], search)| + 1, search)
    ensures RangeClips(parts[..n + 1], search) ==
      match e
      case None => RangeClips(parts[..n], search)
      case Some(c) => RangeClips(parts[..n], search) + [c]
  {
    PrefixGrow(parts, n);
  }

  /** `parse_timestamp_list`, with the three regular-expression searches as parameters. */
  method ParseTimestampList(text: string, duration: Option<string>, rangeSearch: RangeSearch,
                            lineSearch: LineSearch, timeSearch: TimeSearch)
    returns (timestamps: seq<Clip>)
    ensures timestamps == TimestampListClips(text, duration, rangeSearch, lineSearch, timeSearch)
  {
    if RangeMode(text) {
      timestamps := RangeEntries(RangeParts(text), rangeSearch);
    } else {
      timestamps := LineEntries(ListLines(text), duration, lineSearch, timeSearch);
    }
  }

  /** The range-mode loop of `parse_timestamp_list`. */
  method RangeEntries(parts: seq<string>, search: RangeSearch) returns (timestamps: seq<Clip>)
    ensures timestamps == RangeClips(parts, search)
  {
    timestamps := [];
    for n := 0 to |parts|
      invariant timestamps == RangeClips(parts[..n], search)
    {
      var entry := RangeEntryOf(Strip(parts[n]), |timestamps| + 1, search);
      RangeClipsNext(parts, n, search, entry);
      if entry.Some? {
        timestamps := timestamps + [entry.value];
      }
    }
    assert parts[..|parts|] == parts;
  }

  /** One pass of the range loop: a non-blank part the pattern matches gives an entry titled by
    * its rest, or numbered `n` when nothing follows the end. */
  method RangeEntryOf(part: string, n: nat, search: RangeSearch) returns (entry: Option<Clip>)
    ensures entry == RangeEntry(part, n, search)
  {
    entry := None;
    if part != [] {
      var found := search(part);
      if found.Some? {
        var (start, end, rest) := found.value;
        var title := if rest != [] then Strip(rest) else "Clip " + NatToString(n);
        entry := Some(Clip(start, end, title));
      }
    }
  }

  /** The line-mode loop of `parse_timestamp_list`. */
  method LineEntries(lines: seq<string>, duration: Option<string>, lineSearch: LineSearch,
                     timeSearch: TimeSearch) returns (timestamps: seq<Clip>)
    ensures timestamps == LineClips(lines, |lines|, duration, lineSearch, timeSearch)
  {
    timestamps := [];
    for i := 0 to |lines|
      invariant timestamps == LineClips(lines, i, duration, lineSearch, timeSearch)
    {
      var entry := LineEntryAt(lines, i, duration, lineSearch, timeSearch);
      if entry.Some? {
        timestamps := timestamps + [entry.value];
      }
    }
  }

  /** One pass of the line loop: the entry of line `i`, ending where the next line or the
    * duration says. */
  method LineEntryAt(lines: seq<string>, i: nat, duration: Option<string>, lineSearch: LineSearch,
                     timeSearch: TimeSearch) returns (entry: Option<Clip>)
    requires i < |lines|
    ensures entry == LineEntry(lines, i, duration, lineSearch, timeSearch)
  {
    entry := None;
    var found := lineSearch(lines[i]);
    if found.None? {
      return;
    }
    var start, title := found.value.0, found.value.1;
    var end: Option<string> := None;
    if i + 1 < |lines| {
      end := timeSearch(lines[i + 1]);
    } else if duration.Some? && duration.value != [] {
      end := duration;
    }
    assert end == LineEnd(lines, i, duration, timeSearch);
    if end.Some? && end.value != [] {
      entry := Some(Clip(start, end.value, Strip(title)));
    }
  }

  // ---------------------------------------------------------------------------
  // load_from_json

  /** One element of the clip list: an object, with `str()` applied to the values present, or
    * any other JSON value. For the latter, `raises` says whether the loop's `'start' in clip`
    * test or the `clip['start']` that follows it raises: it does for a number, null or a bool,
    * and for a string or list holding both "start" and "end"; any other such element is
    * skipped. */
  datatype RawClip = RawClip(start: Option<string>, end: Option<string>, title: Option<string>)
                   | NonObject(raises: bool)

  /** The JSON document: an object with an iterable "clips" value (the elements it yields), an
    * object whose "clips" value cannot be iterated (a number, null or a bool), a bare list, or
    * anything else. */
  datatype ClipDocument = ClipsObject(clips: seq<RawClip>) | ClipsNotIterable | ClipsList(items: seq<RawClip>) | OtherDocument

  /** An element on which the clip loop raises, so that the whole load returns []. */
  predicate Raises(clip: RawClip) {
    clip.NonObject? && clip.raises
  }

  /** Some element of `clips` makes the clip loop raise. */
  predicate AnyRaises(clips: seq<RawClip>) {
    exists k :: 0 <= k < |clips| && Raises(clips[k])
  }

  /** The filter step for clip number `i` (counted from 1): both ends present and passing
    * `validate_timestamp` once stripped. */
  function FilteredClip(clip: RawClip, i: nat): Option<Clip> {
    if clip.RawClip? && clip.start.Some? && clip.end.Some? then
      var start := Strip(clip.start.value);
      var end := Strip(clip.end.value);
      if !ValidateTimestamp(start) || !ValidateTimestamp(end) then None
      else Some(Clip(start, end, SanitizeClipTitle(clip.title.GetOr("Clip " + NatToString(i)))))
    else None
  }

  /** The clips kept from the first clips of the list, in order. */
  function FilterClips(clips: seq<RawClip>): (r: seq<Clip>)
    ensures |r| <= |clips|
  {
    if clips == [] then []
    else
      var prev := FilterClips(clips[..|clips| - 1]);
      match FilteredClip(clips[|clips| - 1], |clips|)
      case None => prev
      case Some(c) => prev + [c]
  }

  /** A clip is kept exactly when it is an object with a start and an end that both pass the
    * validator once stripped; its title then comes from the sanitiser. */
  lemma FilteredClipKept(clip: RawClip, i: nat)
    ensures FilteredClip(clip, i).Some? <==>
      clip.RawClip? && clip.start.Some? && clip.end.Some? && ValidateTimestamp(Strip(clip.start.value)) && ValidateTimestamp(Strip(clip.end.value))
    ensures FilteredClip(clip, i).Some? ==>
      var c := FilteredClip(clip, i).value;
      LoadedClipOk(c) && (forall ch :: ch in c.title ==> !IsFilenameUnsafe(ch) && ch >= ' ')
      && c.start == Strip(clip.start.value) && c.end == Strip(clip.end.value)
  {
  }

  /** Whether `validate_timestamp` as written accepts `format_time(s)`: below one hour always,
    * from one hour on only with at most 59 hours and at most 23 seconds. */
  predicate FormattedPasses(s: nat) {
    s < 3600 || (s / 3600 <= 59 && s % 60 <= 23)
  }

  /** A clip whose ends were written by `format_time` is kept exactly when both ends pass the
    * validator as written, so a clip file written from the processor's own times loses the
    * clips whose hour form ends in more than 23 seconds. */
  lemma FormattedClipKept(s: nat, e: nat, title: Option<string>, i: nat)
    ensures FilteredClip(RawClip(Some(FormatTime(s)), Some(FormatTime(e)), title), i).Some? <==>
      FormattedPasses(s) && FormattedPasses(e)
  {
    StrippedFormattedPasses(s);
    StrippedFormattedPasses(e);
    FilteredClipKept(RawClip(Some(FormatTime(s)), Some(FormatTime(e)), title), i);
  }

  /** The validator as written accepts a formatted time, stripped as the loader strips it,
    * exactly as `FormattedPasses` says. */
  lemma StrippedFormattedPasses(s: nat)
    ensures ValidateTimestamp(Strip(FormatTime(s))) <==> FormattedPasses(s)
  {
    ValidatorsOnStripped(FormatTime(s));
    FormattedAccepted(s);
  }

  /** Both validators strip their argument first, so stripping it beforehand changes nothing. */
  lemma ValidatorsOnStripped(t: string)
    ensures ValidateTimestamp(Strip(t)) == ValidateTimestamp(t)
    ensures ValidateTimestampIntended(Strip(t)) == ValidateTimestampIntended(t)
  {
    StripIdempotent(t);
    if Strip(t) == [] {
      EmptyHasNoGroups();
    }
  }

  /** The empty string does not match the timestamp pattern. */
  lemma EmptyHasNoGroups()
    ensures TimestampGroups([]).None?
  {
    SplitNone([], ':');
  }

  /** The validator as written accepts `format_time(s)` exactly as `FormattedPasses` says. */
  lemma FormattedAccepted(s: nat)
    ensures ValidateTimestamp(FormatTime(s)) <==> FormattedPasses(s)
  {
    ValidatorOnFormattedTime(s);
  }

  /** The clip from 1:30:45 to 1:31:00, both written by `format_time`, is dropped. */
  lemma FormattedClipDropped()
    ensures FilteredClip(RawClip(Some(FormatTime(5445)), Some(FormatTime(5460)), None), 1).None?
  {
    assert !FormattedPasses(5445);
    FormattedClipKept(5445, 5460, None, 1);
  }

  /** The filter step with the corrected validator of the timestamp finding. */
  function FilteredClipIntended(clip: RawClip, i: nat): Option<Clip> {
    if clip.RawClip? && clip.start.Some? && clip.end.Some? then
      var start := Strip(clip.start.value);
      var end := Strip(clip.end.value);
      if !ValidateTimestampIntended(start) || !ValidateTimestampIntended(end) then None
      else Some(Clip(start, end, SanitizeClipTitle(clip.title.GetOr("Clip " + NatToString(i)))))
    else None
  }

  /** With the corrected validator, a clip whose ends were written by `format_time` is kept
    * exactly when both lie below 24 hours. */
  lemma FormattedClipKeptIntended(s: nat, e: nat, title: Option<string>, i: nat)
    ensures FilteredClipIntended(RawClip(Some(FormatTime(s)), Some(FormatTime(e)), title), i).Some? <==>
      s < 86400 && e < 86400
  {
    ValidatorsOnStripped(FormatTime(s));
    ValidatorsOnStripped(FormatTime(e));
    IntendedValidatorOnFormattedTime(s);
    IntendedValidatorOnFormattedTime(e);
  }

  /** A loaded clip has valid timestamps and a non-empty title of at most 100 characters. */
  predicate LoadedClipOk(c: Clip) {
    ValidateTimestamp(c.start) && ValidateTimestamp(c.end) && c.title != [] && |c.title| <= 100
  }

  /** Every loaded clip has valid timestamps and a non-empty title of at most 100 characters. */
  lemma {:induction false} FilterClipsValid(clips: seq<RawClip>)
    ensures forall k :: 0 <= k < |FilterClips(clips)| ==> LoadedClipOk(FilterClips(clips)[k])
    decreases |clips|
  {
    if clips != [] {
      FilterClipsValid(clips[..|clips| - 1]);
      var prev := FilterClips(clips[..|clips| - 1]);
      var c := FilteredClip(clips[|clips| - 1], |clips|);
      if c.Some? {
        FilteredClipKept(clips[|clips| - 1], |clips|);
        AllAtAppend(prev, c.value, (x, i) => LoadedClipOk(x));
      }
    }
  }

  lemma FilterClipsNext(clips: seq<RawClip>, n: nat)
    requires n < |clips|
    ensures FilterClips(clips[..n + 1]) ==
      match FilteredClip(clips[n], n + 1)
      case None => FilterClips(clips[..n])
      case Some(c) => FilterClips(clips[..n]) + [c]
  {
    assert clips[..n + 1][..n] == clips[..n];
    assert clips[..n + 1][n] == clips[n];
  }

  lemma AnyRaisesNext(clips: seq<RawClip>, n: nat)
    requires n < |clips|
    ensures AnyRaises(clips[..n + 1]) <==> AnyRaises(clips[..n]) || Raises(clips[n])
  {
    assert forall k :: 0 <= k < n ==> clips[..n + 1][k] == clips[..n][k];
    if Raises(clips[n]) {
      assert clips[..n + 1][n] == clips[n];
    }
  }

  /** The clip loop of `load_from_json`, together with its `except Exception` handler: [] when
    * an element raises, and otherwise the kept clips in order. */
  method LoadClips(clips: seq<RawClip>) returns (timestamps: seq<Clip>)
    ensures timestamps == if AnyRaises(clips) then [] else FilterClips(clips)
  {
    timestamps := [];
    for i := 0 to |clips|
      invariant !AnyRaises(clips[..i])
      invariant timestamps == FilterClips(clips[..i])
    {
      AnyRaisesNext(clips, i);
      if Raises(clips[i]) {
        return [];
      }
      FilterClipsNext(clips, i);
      var kept := LoadClip(clips[i], i + 1);
      if kept.Some? {
        timestamps := timestamps + [kept.value];
      }
    }
    assert clips[..|clips|] == clips;
  }

  /** One non-raising pass of the clip loop: clip number `i` kept with stripped ends and a sanitised title. */
  method LoadClip(clip: RawClip, i: nat) returns (kept: Option<Clip>)
    ensures kept == FilteredClip(clip, i)
  {
    kept := None;
    if clip.RawClip? && clip.start.Some? && clip.end.Some? {
      var start := Strip(clip.start.value);
      var end := Strip(clip.end.value);
      if ValidateTimestamp(start) && ValidateTimestamp(end) {
        var title := SanitizeClipTitle(clip.title.GetOr("Clip " + NatToString(i)));
        kept := Some(Clip(start, end, title));
      }
    }
  }

  /** `load_from_json`: the path must pass `validate_file_path` with the ".json" extension and
    * name an existing regular file; the document must be a clip list or an object holding one,
    * and no element of it may raise. */
  method LoadFromJson(filepath: string, exists_: bool, isFile: bool, document: ClipDocument)
    returns (timestamps: seq<Clip>)
    ensures (ValidateFilePath(filepath, [".json"]).Rejected? || !exists_ || !isFile ||
             document.OtherDocument? || document.ClipsNotIterable?) ==> timestamps == []
    ensures ValidateFilePath(filepath, [".json"]).Accepted? && exists_ && isFile && document.ClipsObject? ==>
              timestamps == if AnyRaises(document.clips) then [] else FilterClips(document.clips)
    ensures ValidateFilePath(filepath, [".json"]).Accepted? && exists_ && isFile && document.ClipsList? ==>
              timestamps == if AnyRaises(document.items) then [] else FilterClips(document.items)
  {
    if ValidateFilePath(filepath, [".json"]).Rejected? || !exists_ || !isFile {
      return [];
    }
    match document
    case ClipsObject(clips) =>
      timestamps := LoadClips(clips);
    case ClipsNotIterable =>
      timestamps := [];
    case ClipsList(items) =>
      timestamps := LoadClips(items);
    case OtherDocument =>
      timestamps := [];
  }
}
