/**
 * The Python `str` operations the program relies on, written out on `seq<char>`:
 * whitespace and stripping, ASCII case mapping, prefix and substring tests,
 * left-to-right non-overlapping `replace`, `split`, slicing, decimal rendering
 * and the `int(str)` conversion.
 */
module Text {
  import opened Wrappers

  // ---------------------------------------------------------------------------
  // Characters

  /** Python's `str.isspace()`, also the set matched by `\s` in a `str` pattern. */
  predicate IsSpace(c: char) {
    ('\t' <= c <= '\r') || ('\U{1C}' <= c <= '\U{1F}') || c == ' ' || c == '\U{85}'
    || c == '\U{A0}' || c == '\U{1680}' || ('\U{2000}' <= c <= '\U{200A}') || c == '\U{2028}'
    || c == '\U{2029}' || c == '\U{202F}' || c == '\U{205F}' || c == '\U{3000}'
  }

  predicate IsDigit(c: char) { '0' <= c <= '9' }

  predicate IsAsciiLetter(c: char) { ('a' <= c <= 'z') || ('A' <= c <= 'Z') }

  predicate IsAsciiAlnum(c: char) { IsAsciiLetter(c) || IsDigit(c) }

  function LowerChar(c: char): (r: char)
    ensures !('A' <= r <= 'Z')
    ensures IsAsciiLetter(c) <==> IsAsciiLetter(r)
  {
    if 'A' <= c <= 'Z' then (c as int + 32) as char else c
  }

  function UpperChar(c: char): char {
    if 'a' <= c <= 'z' then (c as int - 32) as char else c
  }

  // ---------------------------------------------------------------------------
  // Whole-string transforms

  /** `s.lower()`, restricted to ASCII letters. */
  function Lower(s: string): (r: string)
    ensures |r| == |s|
    ensures forall i :: 0 <= i < |s| ==> r[i] == LowerChar(s[i])
  {
    if s == [] then [] else [LowerChar(s[0])] + Lower(s[1..])
  }

  lemma {:induction false} LowerIdempotent(s: string)
    ensures Lower(Lower(s)) == Lower(s)
  {
    var l := Lower(s);
    assert forall i :: 0 <= i < |l| ==> LowerChar(l[i]) == l[i];
  }

  /** A string without ASCII capitals is its own lower-case form. */
  lemma LowerKeeps(s: string)
    requires forall c :: c in s ==> !('A' <= c <= 'Z')
    ensures Lower(s) == s
  {
    assert forall i :: 0 <= i < |s| ==> s[i] in s;
  }

  /** `s.title()` on ASCII letters: a letter is upper-cased after a non-letter (or at the start)
    * and lower-cased after a letter; other characters are kept. */
  function Title(s: string): (r: string)
    ensures |r| == |s|
  {
    TitleFrom(s, false)
  }

  function TitleFrom(s: string, afterLetter: bool): (r: string)
    ensures |r| == |s|
  {
    if s == [] then []
    else [if afterLetter then LowerChar(s[0]) else UpperChar(s[0])] + TitleFrom(s[1..], IsAsciiLetter(s[0]))
  }

  function LStrip(s: string): (r: string)
    ensures |r| <= |s| && r == s[|s| - |r|..]
    ensures r == [] || !IsSpace(r[0])
  {
    if s != [] && IsSpace(s[0]) then LStrip(s[1..]) else s
  }

  function RStrip(s: string): (r: string)
    ensures |r| <= |s| && r == s[..|r|]
    ensures r == [] || !IsSpace(r[|r| - 1])
  {
    if s != [] && IsSpace(s[|s| - 1]) then RStrip(s[..|s| - 1]) else s
  }

  /** `s.strip()`: drops leading and trailing whitespace and nothing else. */
  function Strip(s: string): (r: string)
    ensures |r| <= |s|
    ensures r == [] || (!IsSpace(r[0]) && !IsSpace(r[|r| - 1]))
    ensures forall c :: c in r ==> c in s
  {
    StripSlice(s);
    RStrip(LStrip(s))
  }

  /** Both strip steps cut a slice out of the string. */
  lemma StripSlice(s: string)
    ensures var k := |s| - |LStrip(s)|; k + |RStrip(LStrip(s))| <= |s| && RStrip(LStrip(s)) == s[k..k + |RStrip(LStrip(s))|]
    ensures forall c :: c in RStrip(LStrip(s)) ==> c in s
  {
    SliceTwice(s, LStrip(s), RStrip(LStrip(s)));
  }

  /** A prefix of a suffix is a slice. */
  lemma SliceTwice(s: string, l: string, r: string)
    requires |l| <= |s| && l == s[|s| - |l|..]
    requires |r| <= |l| && r == l[..|r|]
    ensures var k := |s| - |l|; k + |r| <= |s| && r == s[k..k + |r|]
    ensures forall c :: c in r ==> c in s
  {
    var k := |s| - |l|;
    assert s[k..][..|r|] == s[k..k + |r|];
    SliceChars(s, k, k + |r|);
  }

  /** Every character of a slice occurs in the whole. */
  lemma SliceChars(s: string, i: nat, j: nat)
    requires i <= j <= |s|
    ensures forall c :: c in s[i..j] ==> c in s
  {
    forall c | c in s[i..j] ensures c in s {
      var k :| i <= k < j && s[k] == c;
    }
  }

  /** A string with no whitespace at either end is its own `strip()`. */
  lemma StripNoEdges(s: string)
    requires s == [] || (!IsSpace(s[0]) && !IsSpace(s[|s| - 1]))
    ensures Strip(s) == s
  {
  }

  /** A string that begins and ends with a decimal digit is its own `strip()`. */
  lemma StripDigitEdges(s: string)
    requires s != [] && IsDigit(s[0]) && IsDigit(s[|s| - 1])
    ensures Strip(s) == s
  {
    StripNoEdges(s);
  }

  /** `s.strip(c)` for a single character `c`. */
  function StripChar(s: string, c: char): (r: string)
    ensures |r| <= |s|
    ensures r == [] || (r[0] != c && r[|r| - 1] != c)
    ensures forall x :: x in r ==> x in s
  {
    if s != [] && s[0] == c then StripChar(s[1..], c)
    else if s != [] && s[|s| - 1] == c then StripChar(s[..|s| - 1], c)
    else s
  }

  /** `s.strip().strip('"').strip("'")`: the unquoting step shared by the path helpers. */
  function Unquote(s: string): (r: string)
    ensures |r| <= |s|
    ensures forall x :: x in r ==> x in s
  {
    StripChar(StripChar(Strip(s), '"'), '\'')
  }

  /** A string that neither starts nor ends with whitespace or a quote is its own unquoting. */
  lemma UnquotePlain(t: string)
    requires t != [] && !IsSpace(t[0]) && !IsSpace(t[|t| - 1])
    requires t[0] != '"' && t[0] != '\'' && t[|t| - 1] != '"' && t[|t| - 1] != '\''
    ensures Unquote(t) == t
  {
    StripNoEdges(t);
  }

  /** `s[:n]`. */
  function Take(s: string, n: nat): (r: string)
    ensures |r| == if |s| <= n then |s| else n
    ensures r == s[..|r|]
    ensures forall c :: c in r ==> c in s
  {
    if |s| <= n then s else s[..n]
  }

  /** Every character of `s` that is not `c`, in order (`s.replace(c, '')`). */
  function RemoveChar(s: string, c: char): (r: string)
    ensures c !in r
    ensures |r| <= |s|
    ensures forall x :: x in r ==> x in s
    ensures c !in s ==> r == s
  {
    if s == [] then [] else (if s[0] == c then [] else [s[0]]) + RemoveChar(s[1..], c)
  }

  /** `s.replace(a, b)` for single characters. */
  function ReplaceChar(s: string, a: char, b: char): (r: string)
    ensures |r| == |s|
    ensures forall i :: 0 <= i < |s| ==> r[i] == if s[i] == a then b else s[i]
  {
    if s == [] then [] else [if s[0] == a then b else s[0]] + ReplaceChar(s[1..], a, b)
  }

  /** No whitespace at either end: what `strip()` returns. */
  predicate Trimmed(s: string) {
    s == [] || (!IsSpace(s[0]) && !IsSpace(s[|s| - 1]))
  }

  // ---------------------------------------------------------------------------
  // Prefixes, substrings, replacement

  predicate StartsWith(s: string, p: string) {
    |p| <= |s| && s[..|p|] == p
  }

  lemma FirstCharMismatch(s: string, p: string)
    requires s != [] && p != [] && s[0] != p[0]
    ensures !StartsWith(s, p)
  {
  }

  /** `p in s` for strings. */
  predicate Contains(s: string, p: string)
    decreases |s|
  {
    StartsWith(s, p) || (s != [] && Contains(s[1..], p))
  }

  lemma ContainsAt(s: string, p: string, i: nat)
    requires i + |p| <= |s| && s[i..i + |p|] == p
    ensures Contains(s, p)
    decreases i
  {
    if i > 0 {
      assert s[1..][i - 1..i - 1 + |p|] == p;
      ContainsAt(s[1..], p, i - 1);
    }
  }

  lemma ContainsWitness(s: string, p: string) returns (i: nat)
    requires Contains(s, p)
    ensures i + |p| <= |s| && s[i..i + |p|] == p
    decreases |s|
  {
    if StartsWith(s, p) {
      i := 0;
    } else {
      var j := ContainsWitness(s[1..], p);
      i := j + 1;
      assert s[i..i + |p|] == s[1..][j..j + |p|];
    }
  }

  lemma ContainsAppendRight(a: string, b: string, p: string)
    requires Contains(a, p)
    ensures Contains(a + b, p)
  {
    var i := ContainsWitness(a, p);
    assert (a + b)[i..i + |p|] == a[i..i + |p|];
    ContainsAt(a + b, p, i);
  }

  lemma ContainsAppendLeft(a: string, b: string, p: string)
    requires Contains(b, p)
    ensures Contains(a + b, p)
  {
    var i := ContainsWitness(b, p);
    assert (a + b)[|a| + i..|a| + i + |p|] == b[i..i + |p|];
    ContainsAt(a + b, p, |a| + i);
  }

  /** A one-character pattern is contained exactly when that character occurs. */
  lemma ContainsSingle(s: string, c: char)
    ensures Contains(s, [c]) <==> c in s
  {
    if c in s {
      var i :| 0 <= i < |s| && s[i] == c;
      assert s[i..i + 1] == [c];
      ContainsAt(s, [c], i);
    }
    if Contains(s, [c]) {
      var i := ContainsWitness(s, [c]);
      assert s[i] == c;
    }
  }

  /** `s.replace(pat, rep)`: Python's left-to-right, non-overlapping replacement. */
  function Replace(s: string, pat: string, rep: string): (r: string)
    requires |pat| > 0
    decreases |s|
  {
    if |s| < |pat| then s
    else if StartsWith(s, pat) then rep + Replace(s[|pat|..], pat, rep)
    else [s[0]] + Replace(s[1..], pat, rep)
  }

  /** Deleting occurrences never lengthens a string nor introduces new characters. */
  lemma {:induction false} ReplaceEmptyShrinks(s: string, pat: string)
    requires |pat| > 0
    ensures |Replace(s, pat, "")| <= |s|
    ensures forall x :: x in Replace(s, pat, "") ==> x in s
    decreases |s|
  {
    if |s| < |pat| {
    } else if StartsWith(s, pat) {
      ReplaceEmptyShrinks(s[|pat|..], pat);
    } else {
      ReplaceEmptyShrinks(s[1..], pat);
    }
  }

  /** Replacing an absent pattern changes nothing. */
  lemma {:induction false} ReplaceAbsent(s: string, pat: string, rep: string)
    requires |pat| > 0 && !Contains(s, pat)
    ensures Replace(s, pat, rep) == s
    decreases |s|
  {
    if |s| >= |pat| {
      ReplaceAbsent(s[1..], pat, rep);
    }
  }

  /** Deleting a pattern that occurs makes the string strictly shorter. */
  lemma {:induction false} ReplaceEmptyShrinksStrictly(s: string, pat: string)
    requires |pat| > 0 && Contains(s, pat)
    ensures |Replace(s, pat, "")| < |s|
    decreases |s|
  {
    var i := ContainsWitness(s, pat);
    if StartsWith(s, pat) {
      ReplaceEmptyShrinks(s[|pat|..], pat);
    } else {
      ReplaceEmptyShrinksStrictly(s[1..], pat);
    }
  }

  // ---------------------------------------------------------------------------
  // Splitting

  function IndexOf(s: string, c: char): (i: nat)
    requires c in s
    ensures i < |s| && s[i] == c && c !in s[..i]
  {
    if s[0] == c then 0 else 1 + IndexOf(s[1..], c)
  }

  /** `s.rfind(c)` when `c` occurs. */
  function LastIndexOf(s: string, c: char): (i: nat)
    requires c in s
    ensures i < |s| && s[i] == c && c !in s[i + 1..]
  {
    if s[|s| - 1] == c then |s| - 1
    else
      var i := LastIndexOf(s[..|s| - 1], c);
      assert s[i + 1..] == s[..|s| - 1][i + 1..] + [s[|s| - 1]];
      i
  }

  /** `IndexOf` finds the first occurrence. */
  lemma IndexOfFirst(s: string, c: char, i: nat)
    requires i < |s| && s[i] == c && c !in s[..i]
    ensures IndexOf(s, c) == i
  {
  }

  /** `s.split(sep)` for a one-character separator: always at least one piece. */
  function Split(s: string, sep: char): (r: seq<string>)
    ensures |r| > 0
    ensures forall k :: 0 <= k < |r| ==> sep !in r[k]
    decreases |s|
  {
    if sep !in s then [s]
    else
      var i := IndexOf(s, sep);
      [s[..i]] + Split(s[i + 1..], sep)
  }

  lemma SplitNone(s: string, sep: char)
    requires sep !in s
    ensures Split(s, sep) == [s]
  {
  }

  lemma SplitCons(a: string, sep: char, b: string)
    requires sep !in a
    ensures Split(a + [sep] + b, sep) == [a] + Split(b, sep)
  {
    var s := a + [sep] + b;
    assert s[..|a|] == a;
    assert s[|a|] == sep;
    var i := IndexOf(s, sep);
    assert s[..i] == a;
    assert s[i + 1..] == b;
  }

  function TotalLength(ps: seq<string>): nat {
    if ps == [] then 0 else |ps[0]| + TotalLength(ps[1..])
  }

  /** The pieces of a split and the separators between them make up the whole string. */
  lemma {:induction false} SplitLength(s: string, sep: char)
    ensures |s| == TotalLength(Split(s, sep)) + |Split(s, sep)| - 1
    decreases |s|
  {
    if sep in s {
      var i := IndexOf(s, sep);
      SplitLength(s[i + 1..], sep);
      var rest := Split(s[i + 1..], sep);
      assert Split(s, sep) == [s[..i]] + rest;
      assert ([s[..i]] + rest)[1..] == rest;
    }
  }

  predicate IsSep(c: char, extra: char) { IsSpace(c) || c == extra }

  /** Splits `s` on maximal runs of characters that are whitespace or `extra`, dropping empty
    * pieces (`s.split()` when `extra` is a space; the comma variant of the URL list parser). */
  function Tokens(s: string, extra: char): (r: seq<string>)
    ensures forall k :: 0 <= k < |r| ==> r[k] != [] && forall c :: c in r[k] ==> !IsSep(c, extra)
    decreases |s|
  {
    if s == [] then []
    else if IsSep(s[0], extra) then Tokens(s[1..], extra)
    else
      var n := WordLength(s, extra);
      [s[..n]] + Tokens(s[n..], extra)
  }

  function WordLength(s: string, extra: char): (n: nat)
    requires s != [] && !IsSep(s[0], extra)
    ensures 0 < n <= |s|
    ensures forall c :: c in s[..n] ==> !IsSep(c, extra)
    ensures n < |s| ==> IsSep(s[n], extra)
    decreases |s|
  {
    if |s| == 1 || IsSep(s[1], extra) then 1
    else
      var m := WordLength(s[1..], extra);
      assert s[..m + 1] == [s[0]] + s[1..][..m];
      m + 1
  }

  // ---------------------------------------------------------------------------
  // Decimal numbers

  function DigitChar(d: nat): (c: char)
    requires d < 10
    ensures IsDigit(c)
  {
    ('0' as int + d) as char
  }

  /** `str(n)` for a natural number. */
  function NatToString(n: nat): (r: string)
    ensures |r| > 0 && forall c :: c in r ==> IsDigit(c)
    decreases n
  {
    if n < 10 then [DigitChar(n)] else NatToString(n / 10) + [DigitChar(n % 10)]
  }

  /** `str(i)` for an integer. */
  function IntToString(i: int): (r: string)
    ensures |r| > 0
  {
    if i < 0 then "-" + NatToString(-i) else NatToString(i)
  }

  /** `f"{n:02d}"` for a natural number below 100. */
  function Pad2(n: nat): (r: string)
    requires n < 100
    ensures |r| == 2 && IsDigit(r[0]) && IsDigit(r[1])
  {
    [DigitChar(n / 10), DigitChar(n % 10)]
  }

  /** A run of decimal digits in which single `_` may stand between two digits. */
  predicate IsDigitRun(t: string) {
    |t| > 0 && IsDigit(t[0]) && IsDigit(t[|t| - 1]) &&
    forall i :: 0 < i < |t| - 1 ==> IsDigit(t[i]) || (t[i] == '_' && IsDigit(t[i - 1]) && IsDigit(t[i + 1]))
  }

  /** The value of a digit run read in base 10, underscores ignored. */
  function RunValue(t: string): nat
    decreases |t|
  {
    if t == [] then 0
    else if IsDigit(t[|t| - 1]) then 10 * RunValue(t[..|t| - 1]) + (t[|t| - 1] as int - '0' as int)
    else RunValue(t[..|t| - 1])
  }

  /** Python's `int(s)` for a `str` in base 10: surrounding whitespace, one optional sign,
    * then a digit run; anything else raises `ValueError`, here `None`. */
  function PyInt(s: string): (r: Option<int>)
  {
    var t := Strip(s);
    if |t| > 0 && (t[0] == '-' || t[0] == '+') then
      if IsDigitRun(t[1..]) then
        Some(if t[0] == '-' then -(RunValue(t[1..]) as int) else RunValue(t[1..]))
      else None
    else if IsDigitRun(t) then Some(RunValue(t))
    else None
  }

  lemma {:induction false} RunValueOfNat(n: nat)
    ensures IsDigitRun(NatToString(n)) && RunValue(NatToString(n)) == n
    decreases n
  {
    var s := NatToString(n);
    if n >= 10 {
      RunValueOfNat(n / 10);
      var p := NatToString(n / 10);
      assert s[..|s| - 1] == p;
    }
  }

  /** `int()` of an unsigned digit run is its value. */
  lemma PyIntOfDigitRun(s: string)
    requires IsDigitRun(s)
    ensures PyInt(s) == Some(RunValue(s))
  {
    assert Strip(s) == s by {
      StripNoEdges(s);
    }
  }

  /** `int(str(n)) == n`. */
  lemma PyIntOfNat(n: nat)
    ensures PyInt(NatToString(n)) == Some(n)
  {
    RunValueOfNat(n);
    PyIntOfDigitRun(NatToString(n));
  }

  /** `f"{n:02d}"` is a digit run worth `n`. */
  lemma RunValuePad2(n: nat)
    requires n < 100
    ensures IsDigitRun(Pad2(n)) && RunValue(Pad2(n)) == n
  {
    var s := Pad2(n);
    assert s[..1] == [DigitChar(n / 10)] && [DigitChar(n / 10)][..0] == [];
    assert RunValue([DigitChar(n / 10)]) == n / 10;
  }

  /** `int(f"{n:02d}") == n`. */
  lemma PyIntOfPad2(n: nat)
    requires n < 100
    ensures PyInt(Pad2(n)) == Some(n)
  {
    RunValuePad2(n);
    PyIntOfDigitRun(Pad2(n));
  }

  /** The number of decimal digits of `n`, for the ranges the formatters care about. */
  lemma NatToStringLength(n: nat)
    ensures n < 10 ==> |NatToString(n)| == 1
    ensures 10 <= n < 100 ==> |NatToString(n)| == 2
    ensures 100 <= n ==> |NatToString(n)| >= 3
    decreases n
  {
    if n >= 10 {
      NatToStringLength(n / 10);
    }
  }

  lemma StripIdempotent(s: string)
    ensures Strip(Strip(s)) == Strip(s)
  {
    StripNoEdges(Strip(s));
  }
}
