/**
 * Clock strings (tea/timestamps.py): `time_to_seconds` reads `M:SS` or `H:MM:SS` as a number
 * of seconds, `format_time` writes seconds back in that form, and the two are inverse.
 */
module Clock {
  import opened Wrappers
  import opened Text

  // ---------------------------------------------------------------------------
  // time_to_seconds and format_time

  /** `m * 60 + s` when both pieces are integers. */
  function Combine2(m: Option<int>, s: Option<int>): Option<int> {
    if m.Some? && s.Some? then Some(m.value * 60 + s.value) else None
  }

  /** `h * 3600 + m * 60 + s` when all three pieces are integers. */
  function Combine3(h: Option<int>, m: Option<int>, s: Option<int>): Option<int> {
    if h.Some? && m.Some? && s.Some? then Some(h.value * 3600 + m.value * 60 + s.value) else None
  }

  /** The value of `M:S` or `H:M:S` pieces; `None` for another count or a piece `int()` rejects. */
  function PartsToSeconds(parts: seq<string>): (r: Option<int>)
    ensures r.Some? ==> |parts| == 2 || |parts| == 3
  {
    if |parts| == 2 then Combine2(PyInt(parts[0]), PyInt(parts[1]))
    else if |parts| == 3 then Combine3(PyInt(parts[0]), PyInt(parts[1]), PyInt(parts[2]))
    else None
  }

  /** `time_to_seconds`: 0 when the string is not two or three integer pieces. */
  function TimeToSeconds(timestamp: string): (r: int)
    ensures r != 0 ==> PartsToSeconds(Split(Strip(timestamp), ':')).Some?
  {
    PartsToSeconds(Split(Strip(timestamp), ':')).GetOr(0)
  }

  lemma TimeToSecondsOf(timestamp: string, n: int)
    requires PartsToSeconds(Split(Strip(timestamp), ':')) == Some(n)
    ensures TimeToSeconds(timestamp) == n
  {
  }

  /** `f"{h}:{m:02d}:{s:02d}"` when there are hours, `f"{m}:{s:02d}"` otherwise. */
  function ClockString(h: nat, m: nat, sec: nat): (r: string)
    requires m < 60 && sec < 60
    ensures |r| >= 4
  {
    if h > 0 then NatToString(h) + [':'] + (Pad2(m) + [':'] + Pad2(sec)) else NatToString(m) + [':'] + Pad2(sec)
  }

  /** `format_time` on whole seconds: negative input counts as 0. */
  function FormatTime(seconds: int): string {
    var s := if seconds < 0 then 0 else seconds;
    ClockArithmetic(s);
    ClockString(s / 3600, (s % 3600) / 60, s % 60)
  }

  /** A negative number of seconds is written as zero seconds. */
  lemma FormatTimeClamps(seconds: int)
    requires seconds < 0
    ensures FormatTime(seconds) == FormatTime(0)
  {
  }

  lemma ClockArithmetic(s: nat)
    ensures (s / 3600) * 3600 + ((s % 3600) / 60) * 60 + s % 60 == s
    ensures (s % 3600) / 60 < 60 && s % 60 < 60
    ensures s / 3600 > 0 <==> s >= 3600
    ensures s / 3600 < 24 <==> s < 86400
  {
    var q := s / 3600;
    var r := s % 3600;
    assert s == q * 3600 + r;
    assert r == (r / 60) * 60 + r % 60;
    assert s == (q * 60 + r / 60) * 60 + r % 60;
    assert s % 60 == r % 60;
  }

  /** A non-empty run of decimal digits. */
  predicate Numeral(s: string) { s != [] && forall c :: c in s ==> IsDigit(c) }

  lemma NumeralOfNat(n: nat)
    ensures Numeral(NatToString(n))
  {
  }

  lemma NumeralOfPad2(n: nat)
    requires n < 100
    ensures Numeral(Pad2(n))
  {
    var p := Pad2(n);
    assert forall c :: c in p ==> c == p[0] || c == p[1];
  }

  /** A numeral, a colon and a string ending in a digit: stripping changes nothing and
    * splitting detaches the numeral. */
  lemma JoinOnto(a: string, t: string)
    requires Numeral(a) && t != [] && IsDigit(t[|t| - 1])
    ensures Strip(a + [':'] + t) == a + [':'] + t
    ensures Split(a + [':'] + t, ':') == [a] + Split(t, ':')
  {
    assert ':' !in a;
    SplitCons(a, ':', t);
    JoinOntoEdges(a, t);
  }

  lemma JoinOntoEdges(a: string, t: string)
    requires Numeral(a) && t != [] && IsDigit(t[|t| - 1])
    ensures Strip(a + [':'] + t) == a + [':'] + t
  {
    var r := a + [':'] + t;
    assert IsDigit(r[0]) by {
      assert a[0] in a;
    }
    assert r[|r| - 1] == t[|t| - 1];
    StripDigitEdges(r);
  }

  lemma JoinTwo(a: string, b: string)
    requires Numeral(a) && Numeral(b)
    ensures Strip(a + [':'] + b) == a + [':'] + b
    ensures Split(a + [':'] + b, ':') == [a, b]
  {
    assert b[|b| - 1] in b;
    assert ':' !in b;
    SplitNone(b, ':');
    JoinOnto(a, b);
    PairDisplay(a, b);
  }

  lemma PairDisplay(a: string, b: string)
    ensures [a] + [b] == [a, b]
  {
  }

  lemma TripleDisplay(a: string, b: string, c: string)
    ensures [a] + [b, c] == [a, b, c]
  {
  }

  lemma JoinThree(a: string, b: string, c: string)
    requires Numeral(a) && Numeral(b) && Numeral(c)
    ensures Strip(a + [':'] + (b + [':'] + c)) == a + [':'] + (b + [':'] + c)
    ensures Split(a + [':'] + (b + [':'] + c), ':') == [a, b, c]
  {
    var t := b + [':'] + c;
    assert IsDigit(t[|t| - 1]) by {
      assert t[|t| - 1] == c[|c| - 1];
      assert c[|c| - 1] in c;
    }
    var sb := Split(t, ':');
    assert sb == [b, c] by { JoinTwo(b, c); }
    JoinOnto(a, t);
    TripleDisplay(a, b, c);
  }

  /** What `strip().split(':')` sees in a clock string. */
  lemma ClockPieces(h: nat, m: nat, sec: nat)
    requires m < 60 && sec < 60
    ensures Strip(ClockString(h, m, sec)) == ClockString(h, m, sec)
    ensures h > 0 ==> Split(ClockString(h, m, sec), ':') == [NatToString(h), Pad2(m), Pad2(sec)]
    ensures h == 0 ==> Split(ClockString(h, m, sec), ':') == [NatToString(m), Pad2(sec)]
  {
    if h > 0 {
      HourPieces(h, m, sec);
    } else {
      MinutePieces(m, sec);
    }
  }

  lemma HourPieces(h: nat, m: nat, sec: nat)
    requires h > 0 && m < 60 && sec < 60
    ensures Strip(ClockString(h, m, sec)) == ClockString(h, m, sec)
    ensures Split(ClockString(h, m, sec), ':') == [NatToString(h), Pad2(m), Pad2(sec)]
  {
    var hs, ms, ss := NatToString(h), Pad2(m), Pad2(sec);
    assert ClockString(h, m, sec) == hs + [':'] + (ms + [':'] + ss);
    NumeralOfNat(h);
    NumeralOfPad2(m);
    NumeralOfPad2(sec);
    JoinThree(hs, ms, ss);
  }

  lemma MinutePieces(m: nat, sec: nat)
    requires m < 60 && sec < 60
    ensures Strip(ClockString(0, m, sec)) == ClockString(0, m, sec)
    ensures Split(ClockString(0, m, sec), ':') == [NatToString(m), Pad2(sec)]
  {
    var ms, ss := NatToString(m), Pad2(sec);
    assert ClockString(0, m, sec) == ms + [':'] + ss;
    NumeralOfNat(m);
    NumeralOfPad2(sec);
    JoinTwo(ms, ss);
  }

  lemma ClockStripped(h: nat, m: nat, sec: nat)
    requires m < 60 && sec < 60
    ensures Strip(ClockString(h, m, sec)) == ClockString(h, m, sec)
  {
    if h > 0 {
      HourPieces(h, m, sec);
    } else {
      MinutePieces(m, sec);
    }
  }

  lemma PartsOfTwo(p: seq<string>)
    requires |p| == 2
    ensures PartsToSeconds(p) == Combine2(PyInt(p[0]), PyInt(p[1]))
  {
  }

  lemma PartsOfThree(p: seq<string>)
    requires |p| == 3
    ensures PartsToSeconds(p) == Combine3(PyInt(p[0]), PyInt(p[1]), PyInt(p[2]))
  {
  }

  lemma PairSeconds(a: string, b: string, x: int, y: int)
    requires PyInt(a) == Some(x) && PyInt(b) == Some(y)
    ensures PartsToSeconds([a, b]) == Some(x * 60 + y)
  {
    var p := [a, b];
    assert p[0] == a && p[1] == b;
    PartsOfTwo(p);
    CombineTwo(PyInt(a), PyInt(b), x, y);
  }

  lemma CombineTwo(u: Option<int>, v: Option<int>, x: int, y: int)
    requires u == Some(x) && v == Some(y)
    ensures Combine2(u, v) == Some(x * 60 + y)
  {
  }

  lemma CombineThree(u: Option<int>, v: Option<int>, w: Option<int>, x: int, y: int, z: int)
    requires u == Some(x) && v == Some(y) && w == Some(z)
    ensures Combine3(u, v, w) == Some(x * 3600 + y * 60 + z)
  {
  }

  lemma TripleSeconds(a: string, b: string, c: string, x: int, y: int, z: int)
    requires PyInt(a) == Some(x) && PyInt(b) == Some(y) && PyInt(c) == Some(z)
    ensures PartsToSeconds([a, b, c]) == Some(x * 3600 + y * 60 + z)
  {
    var p := [a, b, c];
    assert p[0] == a && p[1] == b && p[2] == c;
    PartsOfThree(p);
    CombineThree(PyInt(a), PyInt(b), PyInt(c), x, y, z);
  }

  lemma ClockRoundTrip(h: nat, m: nat, sec: nat)
    requires m < 60 && sec < 60
    ensures TimeToSeconds(ClockString(h, m, sec)) == h * 3600 + m * 60 + sec
  {
    if h > 0 {
      HourRoundTrip(h, m, sec);
    } else {
      MinuteRoundTrip(m, sec);
    }
  }

  lemma HourRoundTrip(h: nat, m: nat, sec: nat)
    requires h > 0 && m < 60 && sec < 60
    ensures TimeToSeconds(ClockString(h, m, sec)) == h * 3600 + m * 60 + sec
  {
    var cs := ClockString(h, m, sec);
    var hs, ms, ss := NatToString(h), Pad2(m), Pad2(sec);
    assert Split(Strip(cs), ':') == [hs, ms, ss] by {
      HourPieces(h, m, sec);
    }
    assert PartsToSeconds([hs, ms, ss]) == Some(h * 3600 + m * 60 + sec) by {
      PyIntOfNat(h);
      PyIntOfPad2(m);
      PyIntOfPad2(sec);
      TripleSeconds(hs, ms, ss, h, m, sec);
    }
  }

  lemma MinuteRoundTrip(m: nat, sec: nat)
    requires m < 60 && sec < 60
    ensures TimeToSeconds(ClockString(0, m, sec)) == m * 60 + sec
  {
    var cs := ClockString(0, m, sec);
    var ms, ss := NatToString(m), Pad2(sec);
    assert Split(Strip(cs), ':') == [ms, ss] by {
      MinutePieces(m, sec);
    }
    assert PartsToSeconds([ms, ss]) == Some(m * 60 + sec) by {
      PyIntOfNat(m);
      PyIntOfPad2(sec);
      PairSeconds(ms, ss, m, sec);
    }
  }

  /** `format_time` writes no surrounding whitespace. */
  lemma FormatTimeStripped(s: nat)
    ensures Strip(FormatTime(s)) == FormatTime(s)
  {
    var h, m, sec := s / 3600, (s % 3600) / 60, s % 60;
    ClockArithmetic(s);
    var t := ClockString(h, m, sec);
    assert FormatTime(s) == t;
    ClockStripped(h, m, sec);
  }

  /** `time_to_seconds(format_time(s)) == s` for every whole number of seconds. */
  lemma TimeRoundTrip(s: nat)
    ensures TimeToSeconds(FormatTime(s)) == s
  {
    ClockArithmetic(s);
    ClockRoundTrip(s / 3600, (s % 3600) / 60, s % 60);
  }
}
