/**
 * The parts of CPython's `urllib.parse` that the program reads: `urlparse(url)` split into
 * scheme, network location (the authority component of section 3.2 of RFC 3986), path,
 * query and fragment, and the `parse_qs(query)` test for one parameter name.
 */
module Urls {
  import opened Wrappers
  import opened Text

  datatype SplitResult = SplitResult(scheme: string, netloc: string, path: string, query: string, fragment: string)

  /** Characters `urlsplit` removes from the front of a URL (C0 controls and space). */
  predicate IsC0OrSpace(c: char) { c <= ' ' }

  /** Characters `urlsplit` deletes anywhere in a URL. */
  predicate IsUnsafeUrlChar(c: char) { c == '\t' || c == '\r' || c == '\n' }

  predicate IsSchemeChar(c: char) { IsAsciiAlnum(c) || c == '+' || c == '-' || c == '.' }

  function LStripC0(s: string): (r: string)
    ensures |r| <= |s| && r == s[|s| - |r|..]
    ensures r == [] || !IsC0OrSpace(r[0])
  {
    if s != [] && IsC0OrSpace(s[0]) then LStripC0(s[1..]) else s
  }

  function RemoveUnsafe(s: string): (r: string)
    ensures forall c :: c in r ==> c in s && !IsUnsafeUrlChar(c)
    ensures |r| <= |s|
  {
    if s == [] then [] else (if IsUnsafeUrlChar(s[0]) then [] else [s[0]]) + RemoveUnsafe(s[1..])
  }

  predicate AllSchemeChars(s: string) { forall c :: c in s ==> IsSchemeChar(c) }

  /** The scheme step: a non-empty prefix before the first ':' that starts with an ASCII letter
    * and holds only scheme characters is the (lower-cased) scheme; otherwise there is none. */
  function SplitScheme(u: string): (r: (string, string))
  {
    if ':' in u then
      var i := IndexOf(u, ':');
      if i > 0 && IsAsciiLetter(u[0]) && AllSchemeChars(u[..i]) then (Lower(u[..i]), u[i + 1..])
      else ("", u)
    else ("", u)
  }

  /** The first index of one of `/?#`, or the length when there is none. */
  function AuthorityEnd(s: string): (n: nat)
    ensures n <= |s|
    ensures forall k :: 0 <= k < n ==> s[k] != '/' && s[k] != '?' && s[k] != '#'
    ensures n < |s| ==> s[n] == '/' || s[n] == '?' || s[n] == '#'
  {
    if s == [] || s[0] == '/' || s[0] == '?' || s[0] == '#' then 0 else 1 + AuthorityEnd(s[1..])
  }

  /** The network-location step: after `//`, everything up to the first of `/?#`. */
  function SplitNetloc(rest: string): (r: (string, string))
    ensures forall c :: c in r.0 ==> c != '/' && c != '?' && c != '#'
  {
    if StartsWith(rest, "//") then
      var n := AuthorityEnd(rest[2..]);
      (rest[2..][..n], rest[2..][n..])
    else ("", rest)
  }

  /** The path, query and fragment of what follows the network location. */
  function SplitTail(rest: string): (r: (string, string, string))
  {
    var (beforeFragment, fragment) :=
      if '#' in rest then var i := IndexOf(rest, '#'); (rest[..i], rest[i + 1..]) else (rest, "");
    if '?' in beforeFragment then
      var i := IndexOf(beforeFragment, '?');
      (beforeFragment[..i], beforeFragment[i + 1..], fragment)
    else (beforeFragment, "", fragment)
  }

  predicate UnbalancedBrackets(netloc: string) {
    ('[' in netloc && ']' !in netloc) || (']' in netloc && '[' !in netloc)
  }

  /** `urlparse(url)`; `None` when it raises `ValueError("Invalid IPv6 URL")` for an unbalanced
    * '[' or ']' in the network location. That is the only `ValueError` of `urlsplit` modelled
    * here: the check of a non-ASCII network location under NFKC normalisation and the check of
    * the text inside brackets are not, and for such URLs the result is a split. */
  function UrlSplit(url: string): (r: Option<SplitResult>)
    ensures r.Some? ==> forall c :: c in r.value.netloc ==> c != '/' && c != '?' && c != '#'
    ensures r.Some? ==> AllSchemeChars(r.value.scheme)
  {
    var u := RemoveUnsafe(LStripC0(url));
    var (scheme, rest) := SplitScheme(u);
    assert AllSchemeChars(scheme) by {
      if ':' in u {
        var i := IndexOf(u, ':');
        forall c | c in Lower(u[..i]) && AllSchemeChars(u[..i]) ensures IsSchemeChar(c) {
          var k :| 0 <= k < |Lower(u[..i])| && Lower(u[..i])[k] == c;
          assert u[..i][k] in u[..i];
        }
      }
    }
    var (netloc, rest2) := SplitNetloc(rest);
    if UnbalancedBrackets(netloc) then None
    else
      var (path, query, fragment) := SplitTail(rest2);
      Some(SplitResult(scheme, netloc, path, query, fragment))
  }

  predicate IsHexDigit(c: char) { IsDigit(c) || ('a' <= c <= 'f') || ('A' <= c <= 'F') }

  function HexValue(c: char): (v: nat)
    requires IsHexDigit(c)
    ensures v < 16
  {
    if IsDigit(c) then c as int - '0' as int
    else if 'a' <= c <= 'f' then c as int - 'a' as int + 10
    else c as int - 'A' as int + 10
  }

  /** The character a decoded byte stands for: itself below 0x80, U+FFFD from 0x80 on. */
  function ByteChar(b: nat): (c: char)
    requires b < 256
    ensures b < 0x80 ==> c as int == b
    ensures b >= 0x80 ==> c as int >= 0x80
  {
    if b < 0x80 then b as char else '\U{FFFD}'
  }

  /** `unquote(s)`: each `%` followed by two hex digits becomes the byte they spell, and any
    * other `%` stays as it is. The UTF-8 decoding of bytes from 0x80 on is not modelled: each
    * such byte gives U+FFFD. The source yields other characters from U+0080 on for them, so a
    * comparison of the result with an ASCII name comes out the same. */
  function PercentDecode(s: string): (r: string)
    ensures |r| <= |s|
    ensures '%' !in s ==> r == s
  {
    if s == [] then []
    else if s[0] == '%' && |s| >= 3 && IsHexDigit(s[1]) && IsHexDigit(s[2]) then
      [ByteChar(16 * HexValue(s[1]) + HexValue(s[2]))] + PercentDecode(s[3..])
    else [s[0]] + PercentDecode(s[1..])
  }

  /** The name half of a field as `parse_qsl` reads it: '+' becomes a space, then `unquote`. */
  function UnquotePlus(s: string): (r: string)
    ensures |r| <= |s|
  {
    PercentDecode(ReplaceChar(s, '+', ' '))
  }

  /** Without '+' only the `%XX` decoding is left. */
  lemma UnquotePlusNoPlus(s: string)
    requires '+' !in s
    ensures UnquotePlus(s) == PercentDecode(s)
  {
    assert ReplaceChar(s, '+', ' ') == s;
  }

  /** A name with neither '%' nor '+' reads as itself. */
  lemma UnquotePlusPlain(s: string)
    requires '%' !in s && '+' !in s
    ensures UnquotePlus(s) == s
  {
    UnquotePlusNoPlus(s);
  }

  /** One escape step of the decoding. */
  lemma PercentDecodeEscape(x: char, y: char, rest: string)
    requires IsHexDigit(x) && IsHexDigit(y)
    ensures PercentDecode(['%', x, y] + rest) == [ByteChar(16 * HexValue(x) + HexValue(y))] + PercentDecode(rest)
  {
    assert (['%', x, y] + rest)[3..] == rest;
  }

  /** "%6Cist" decodes to "list". */
  lemma PercentDecodeExample()
    ensures PercentDecode("%6Cist") == "list"
  {
    PercentDecodeEscape('6', 'C', "ist");
    assert HexValue('6') == 6 && HexValue('C') == 12;
    assert ByteChar(108) == 'l';
    assert ['%', '6', 'C'] + "ist" == "%6Cist";
  }

  /** An escape reads as the character it encodes: "%6Cist" is the name "list". */
  lemma UnquotePlusEscape()
    ensures UnquotePlus("%6Cist") == "list"
  {
    UnquotePlusNoPlus("%6Cist");
    PercentDecodeExample();
  }

  /** Whether one `&`-separated field of a query is `name=value` with a non-empty value:
    * the fields `parse_qs` keeps (it drops fields without `=` and blank values). The name is
    * compared after '+' and `%XX` decoding. */
  predicate FieldIs(field: string, name: string) {
    '=' in field && UnquotePlus(field[..IndexOf(field, '=')]) == name && IndexOf(field, '=') + 1 < |field|
  }

  /** A field spelled `key=value` names `name` exactly when the key decodes to `name` and the
    * value is not empty. */
  lemma FieldIsOf(key: string, value: string, name: string)
    requires '=' !in key
    ensures FieldIs(key + "=" + value, name) <==> UnquotePlus(key) == name && value != []
  {
    var f := key + "=" + value;
    assert f[|key|] == '=' && f[..|key|] == key;
    IndexOfFirst(f, '=', |key|);
  }

  /** `name in parse_qs(query)`. */
  predicate HasQueryParam(query: string, name: string) {
    exists k :: 0 <= k < |Split(query, '&')| && FieldIs(Split(query, '&')[k], name)
  }

  lemma {:induction false} RemoveUnsafeAppend(a: string, b: string)
    ensures RemoveUnsafe(a + b) == RemoveUnsafe(a) + RemoveUnsafe(b)
    decreases |a|
  {
    if a != [] {
      assert (a + b)[0] == a[0] && (a + b)[1..] == a[1..] + b;
      RemoveUnsafeAppend(a[1..], b);
      var h := if IsUnsafeUrlChar(a[0]) then [] else [a[0]];
      assert RemoveUnsafe(a + b) == h + RemoveUnsafe(a[1..] + b);
      assert h + (RemoveUnsafe(a[1..]) + RemoveUnsafe(b)) == (h + RemoveUnsafe(a[1..])) + RemoveUnsafe(b);
    } else {
      assert a + b == b;
    }
  }

  lemma {:induction false} RemoveUnsafeKeeps(a: string)
    requires forall c :: c in a ==> !IsUnsafeUrlChar(c)
    ensures RemoveUnsafe(a) == a
    decreases |a|
  {
    if a != [] {
      assert a[0] in a;
      assert forall c :: c in a[1..] ==> c in a;
      RemoveUnsafeKeeps(a[1..]);
    }
  }

  lemma {:induction false} AuthorityEndAppend(a: string, b: string)
    requires forall c :: c in a ==> c != '/' && c != '?' && c != '#'
    requires b == [] || b[0] == '/' || b[0] == '?' || b[0] == '#'
    ensures AuthorityEnd(a + b) == |a|
    decreases |a|
  {
    if a != [] {
      assert a[0] in a;
      assert (a + b)[1..] == a[1..] + b;
      assert forall c :: c in a[1..] ==> c in a;
      AuthorityEndAppend(a[1..], b);
    }
  }

  /** The scheme step on `scheme:w` recognises `scheme`. */
  lemma SplitSchemeOf(scheme: string, w: string)
    requires scheme != [] && IsAsciiLetter(scheme[0]) && AllSchemeChars(scheme) && Lower(scheme) == scheme
    ensures SplitScheme(scheme + [':'] + w) == (scheme, w)
  {
    var u := scheme + [':'] + w;
    assert ':' !in scheme;
    assert u[..|scheme|] == scheme;
    assert u[|scheme|] == ':';
    IndexOfFirst(u, ':', |scheme|);
    assert u[0] == scheme[0];
    assert u[|scheme| + 1..] == w;
  }

  /** The clean-up steps of `urlsplit` leave a prefix alone that starts with a visible character
    * and holds no unsafe one. */
  lemma CleanKeepsHead(head: string, rest: string)
    requires head != [] && !IsC0OrSpace(head[0])
    requires forall c :: c in head ==> !IsUnsafeUrlChar(c)
    ensures RemoveUnsafe(LStripC0(head + rest)) == head + RemoveUnsafe(rest)
  {
    assert (head + rest)[0] == head[0];
    RemoveUnsafeKeeps(head);
    RemoveUnsafeAppend(head, rest);
  }

  lemma CleanAuthorityUrl(scheme: string, host: string, rest: string)
    requires scheme != [] && IsAsciiLetter(scheme[0]) && AllSchemeChars(scheme)
    requires forall c :: c in host ==> !IsUnsafeUrlChar(c)
    ensures RemoveUnsafe(LStripC0(scheme + [':'] + "//" + host + rest)) == scheme + [':'] + "//" + host + RemoveUnsafe(rest)
  {
    var head := scheme + [':'] + "//" + host;
    assert head[0] == scheme[0];
    HeadIsSafe(scheme, host);
    CleanKeepsHead(head, rest);
  }

  lemma HeadIsSafe(scheme: string, host: string)
    requires AllSchemeChars(scheme)
    requires forall c :: c in host ==> !IsUnsafeUrlChar(c)
    ensures forall c :: c in scheme + [':'] + "//" + host ==> !IsUnsafeUrlChar(c)
  {
    forall c | c in scheme + [':'] + "//" + host ensures !IsUnsafeUrlChar(c) {
      if c in scheme { assert IsSchemeChar(c); }
    }
  }

  /** Deleting unsafe characters keeps a safe first character first. */
  lemma RemoveUnsafeHead(rest: string)
    requires rest != [] && !IsUnsafeUrlChar(rest[0])
    ensures RemoveUnsafe(rest) != [] && RemoveUnsafe(rest)[0] == rest[0]
  {
  }

  /** A URL of the form `scheme://host` followed by a path, query or fragment (or nothing)
    * splits into that scheme and that host. */
  lemma UrlSplitOfAuthority(scheme: string, host: string, rest: string)
    requires scheme != [] && IsAsciiLetter(scheme[0]) && AllSchemeChars(scheme) && Lower(scheme) == scheme
    requires forall c :: c in host ==> c != '/' && c != '?' && c != '#' && c != '[' && c != ']' && !IsUnsafeUrlChar(c)
    requires rest == [] || rest[0] == '/' || rest[0] == '?' || rest[0] == '#'
    ensures UrlSplit(scheme + [':'] + "//" + host + rest).Some?
    ensures UrlSplit(scheme + [':'] + "//" + host + rest).value.scheme == scheme
    ensures UrlSplit(scheme + [':'] + "//" + host + rest).value.netloc == host
  {
    var url := scheme + [':'] + "//" + host + rest;
    var w := "//" + (host + RemoveUnsafe(rest));
    SchemeOfAuthorityUrl(scheme, host, rest);
    NetlocOfAuthorityUrl(host, rest);
    UrlSplitSteps(url, scheme, w, host);
  }

  lemma SchemeOfAuthorityUrl(scheme: string, host: string, rest: string)
    requires scheme != [] && IsAsciiLetter(scheme[0]) && AllSchemeChars(scheme) && Lower(scheme) == scheme
    requires forall c :: c in host ==> !IsUnsafeUrlChar(c)
    ensures SplitScheme(RemoveUnsafe(LStripC0(scheme + [':'] + "//" + host + rest))) == (scheme, "//" + (host + RemoveUnsafe(rest)))
  {
    CleanedAuthorityUrl(scheme, host, rest);
    SplitSchemeOf(scheme, "//" + (host + RemoveUnsafe(rest)));
  }

  lemma NetlocOfAuthorityUrl(host: string, rest: string)
    requires forall c :: c in host ==> c != '/' && c != '?' && c != '#'
    requires rest == [] || rest[0] == '/' || rest[0] == '?' || rest[0] == '#'
    ensures SplitNetloc("//" + (host + RemoveUnsafe(rest))).0 == host
  {
    if rest != [] {
      RemoveUnsafeHead(rest);
    }
    NetlocOf(host, RemoveUnsafe(rest));
  }

  lemma CleanedAuthorityUrl(scheme: string, host: string, rest: string)
    requires scheme != [] && IsAsciiLetter(scheme[0]) && AllSchemeChars(scheme)
    requires forall c :: c in host ==> !IsUnsafeUrlChar(c)
    ensures RemoveUnsafe(LStripC0(scheme + [':'] + "//" + host + rest)) == scheme + [':'] + ("//" + (host + RemoveUnsafe(rest)))
  {
    CleanAuthorityUrl(scheme, host, rest);
    Regroup(scheme + [':'], "//", host, RemoveUnsafe(rest));
  }

  /** `urlparse` put together from its scheme and network-location steps. */
  lemma UrlSplitSteps(url: string, scheme: string, w: string, host: string)
    requires SplitScheme(RemoveUnsafe(LStripC0(url))) == (scheme, w)
    requires SplitNetloc(w).0 == host && !UnbalancedBrackets(host)
    ensures UrlSplit(url).Some? && UrlSplit(url).value.scheme == scheme && UrlSplit(url).value.netloc == host
  {
  }

  lemma Regroup(a: string, b: string, c: string, d: string)
    ensures a + b + c + d == a + (b + (c + d))
  {
  }

  lemma NetlocOf(host: string, tail: string)
    requires forall c :: c in host ==> c != '/' && c != '?' && c != '#'
    requires tail == [] || tail[0] == '/' || tail[0] == '?' || tail[0] == '#'
    ensures SplitNetloc("//" + (host + tail)).0 == host
  {
    var w := "//" + (host + tail);
    assert StartsWith(w, "//") && w[2..] == host + tail;
    AuthorityEndAppend(host, tail);
    assert (host + tail)[..|host|] == host;
  }
}
