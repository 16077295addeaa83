/**
 * Validators and sanitisers applied to user input before it reaches the file system, the
 * downloader or ffmpeg (tea/utils/security.py).
 */
module Security {
  import opened Wrappers
  import opened Text
  import opened Urls

  const YoutubeDomains: set<string> := {"youtube.com", "www.youtube.com", "m.youtube.com", "youtu.be"}

  const AllowedQualities: set<string> := {"best", "720p", "480p", "360p", "audio", "5", "4", "3", "2", "1"}

  // ---------------------------------------------------------------------------
  // validate_file_path

  datatype PathError = EmptyPath | NullByte | Traversal | ExtensionNotAllowed

  datatype PathCheck = Accepted(path: string) | Rejected(error: PathError)

  /** The extension `os.path.splitext` reports on a POSIX path: from the last '.' of the last
    * component, provided something other than dots precedes it in that component. */
  function Extension(p: string): (r: string)
    ensures r == [] || (r[0] == '.' && '/' !in r)
    ensures |r| <= |p| && r == p[|p| - |r|..]
  {
    var b := if '/' in p then p[LastIndexOf(p, '/') + 1..] else p;
    assert '/' !in b;
    if '.' in b then
      var d := LastIndexOf(b, '.');
      if exists k :: 0 <= k < d && b[k] != '.' then
        assert b[d..] == p[|p| - |b[d..]|..];
        b[d..]
      else []
    else []
  }

  /** The string checks of `validate_file_path` (an empty `allowed` list disables the extension
    * check); on success the unquoted path, which the source then makes absolute. */
  function ValidateFilePath(filepath: string, allowed: seq<string>): (r: PathCheck)
    ensures filepath == [] ==> r == Rejected(EmptyPath)
    ensures r.Accepted? ==> |r.path| <= |filepath| && forall c :: c in r.path ==> c in filepath
    ensures r.Accepted? ==> '\0' !in r.path && !Contains(r.path, "../") && !Contains(r.path, "..\\")
    ensures r.Accepted? && allowed != [] ==> Lower(Extension(r.path)) in allowed
    ensures filepath != [] && '\0' in Unquote(filepath) ==> r == Rejected(NullByte)
  {
    if filepath == [] then Rejected(EmptyPath)
    else
      var p := Unquote(filepath);
      if '\0' in p then Rejected(NullByte)
      else if Contains(p, "../") || Contains(p, "..\\") then Rejected(Traversal)
      else if allowed != [] && Lower(Extension(p)) !in allowed then Rejected(ExtensionNotAllowed)
      else Accepted(p)
  }

  // ---------------------------------------------------------------------------
  // sanitize_path

  /** `sanitize_path`: drop NUL characters, unquote, and delete `../` then `..\` in one pass each. */
  function SanitizePath(path: string): (r: string)
    ensures path == [] ==> r == []
    ensures '\0' !in r
    ensures |r| <= |path|
    ensures forall c :: c in r ==> c in path
  {
    if path == [] then []
    else
      var p := Unquote(RemoveChar(path, '\0'));
      ReplaceEmptyShrinks(p, "../");
      ReplaceEmptyShrinks(Replace(p, "../", ""), "..\\");
      Replace(Replace(p, "../", ""), "..\\", "")
  }

  /** One pass of deletion can join the pieces around a deleted `../` into a new one. */
  lemma SanitizePathLeavesTraversal()
    ensures SanitizePath("..././") == "../"
  {
    var p := "..././";
    UnquoteDotsIdentity();
    FirstPassJoins();
    SecondPassKeeps();
  }

  lemma UnquoteDotsIdentity()
    ensures Unquote(RemoveChar("..././", '\0')) == "..././"
  {
    NoNulInDots();
    UnquotePlain("..././");
  }

  lemma NoNulInDots()
    ensures RemoveChar("..././", '\0') == "..././"
  {
    var p := "..././";
    assert p[0] != '\0' && p[1] != '\0' && p[2] != '\0' && p[3] != '\0' && p[4] != '\0' && p[5] != '\0';
  }

  lemma FirstPassJoins()
    ensures Replace("..././", "../", "") == "../"
  {
    var p := "..././";
    assert Replace("./", "../", "") == "./";
    assert Replace(".././", "../", "") == "./" by {
      assert StartsWith(".././", "../") && ".././"[3..] == "./";
    }
    assert !StartsWith(p, "../") && p[1..] == ".././";
  }

  lemma SecondPassKeeps()
    ensures Replace("../", "..\\", "") == "../"
  {
    assert Replace("./", "..\\", "") == "./";
    assert "../"[..3][2] != "..\\"[2];
    assert "../"[1..] == "./";
  }

  /** One pass of both deletions shortens a string that holds either pattern. */
  lemma TraversalPassShrinks(p: string)
    requires Contains(p, "../") || Contains(p, "..\\")
    ensures |Replace(Replace(p, "../", ""), "..\\", "")| < |p|
  {
    var q := Replace(p, "../", "");
    ReplaceEmptyShrinks(p, "../");
    ReplaceEmptyShrinks(q, "..\\");
    if Contains(p, "../") {
      ReplaceEmptyShrinksStrictly(p, "../");
    } else {
      ReplaceAbsent(p, "../", "");
      ReplaceEmptyShrinksStrictly(q, "..\\");
    }
  }

  /** Repeats both deletions until neither pattern is left. */
  function RemoveTraversal(p: string): (r: string)
    ensures !Contains(r, "../") && !Contains(r, "..\\")
    ensures |r| <= |p|
    ensures forall c :: c in r ==> c in p
    decreases |p|
  {
    if Contains(p, "../") || Contains(p, "..\\") then
      var q := Replace(Replace(p, "../", ""), "..\\", "");
      TraversalPassShrinks(p);
      ReplaceEmptyShrinks(p, "../");
      ReplaceEmptyShrinks(Replace(p, "../", ""), "..\\");
      RemoveTraversal(q)
    else p
  }

  /** `sanitize_path` as its comment describes it: no traversal sequence survives. */
  function SanitizePathIntended(path: string): (r: string)
    ensures path == [] ==> r == []
    ensures '\0' !in r && !Contains(r, "../") && !Contains(r, "..\\")
    ensures |r| <= |path|
    ensures forall c :: c in r ==> c in path
  {
    if path == [] then [] else RemoveTraversal(Unquote(RemoveChar(path, '\0')))
  }

  // ---------------------------------------------------------------------------
  // sanitize_metadata and sanitize_clip_title

  /** The characters `sanitize_metadata` deletes, in the order it deletes them. */
  const MetadataStripped: seq<char> := ['\0', '$', '`', '\\', '\n', '\r', '\U{1B}']

  /** Deletes every occurrence of each character of `cs`, one character after the other. */
  function RemoveAll(s: string, cs: seq<char>): (r: string)
    ensures forall c :: c in cs ==> c !in r
    ensures forall c :: c in r ==> c in s
    ensures |r| <= |s|
    ensures (forall c :: c in cs ==> c !in s) ==> r == s
    decreases |cs|
  {
    if cs == [] then s else RemoveAll(RemoveChar(s, cs[0]), cs[1..])
  }

  function SanitizeMetadata(value: string): (r: string)
    ensures value == [] ==> r == []
    ensures forall c :: c in MetadataStripped ==> c !in r
    ensures |r| <= 200 && |r| <= |value|
    ensures forall c :: c in r ==> c in value
    ensures (forall c :: c in MetadataStripped ==> c !in value) ==> r == Take(value, 200)
  {
    if value == [] then [] else Take(RemoveAll(value, MetadataStripped), 200)
  }

  lemma SanitizeMetadataIdempotent(value: string)
    ensures SanitizeMetadata(SanitizeMetadata(value)) == SanitizeMetadata(value)
  {
  }

  /** Characters `sanitize_clip_title` turns into '_'. */
  predicate IsFilenameUnsafe(c: char) {
    c == '<' || c == '>' || c == ':' || c == '"' || c == '/' || c == '\\' || c == '|' || c == '?'
    || c == '*' || c == '&'
  }

  function ReplaceUnsafe(s: string): (r: string)
    ensures |r| == |s|
    ensures forall i :: 0 <= i < |s| ==> r[i] == if IsFilenameUnsafe(s[i]) then '_' else s[i]
    ensures forall c :: c in r ==> !IsFilenameUnsafe(c)
    ensures (forall c :: c in s ==> !IsFilenameUnsafe(c)) ==> r == s
  {
    if s == [] then [] else [if IsFilenameUnsafe(s[0]) then '_' else s[0]] + ReplaceUnsafe(s[1..])
  }

  function DropControl(s: string): (r: string)
    ensures forall c :: c in r ==> c in s && c >= ' '
    ensures |r| <= |s|
  {
    if s == [] then []
    else
      (if s[0] >= ' ' then [s[0]] else []) + DropControl(s[1..])
  }

  /** The transform chain of `sanitize_clip_title` before its fallback to "Untitled". */
  function ClipTitleChain(title: string): (r: string)
    ensures |r| <= 100
    ensures forall c :: c in r ==> !IsFilenameUnsafe(c) && c >= ' '
  {
    var t := Strip(DropControl(ReplaceUnsafe(SanitizeMetadata(title))));
    SafeAfterReplace(SanitizeMetadata(title));
    Take(t, 100)
  }

  /** After the replacement and the control-character pass, and a strip, no unsafe character is left. */
  lemma SafeAfterReplace(m: string)
    ensures forall c :: c in Strip(DropControl(ReplaceUnsafe(m))) ==> !IsFilenameUnsafe(c) && c >= ' '
  {
    var u := ReplaceUnsafe(m);
    var d := DropControl(u);
    assert forall c :: c in d ==> !IsFilenameUnsafe(c) && c >= ' ';
  }

  lemma {:induction false} DropControlKeeps(s: string)
    requires forall c :: c in s ==> c >= ' '
    ensures DropControl(s) == s
  {
    if s != [] {
      assert s[0] in s;
      assert forall c :: c in s[1..] ==> c in s;
      DropControlKeeps(s[1..]);
    }
  }

  /** The fallback clip title. */
  const Untitled: string := "Untitled"

  lemma UntitledIsSafe()
    ensures forall c :: c in Untitled ==> !IsFilenameUnsafe(c) && c >= ' '
  {
    forall c | c in Untitled ensures !IsFilenameUnsafe(c) && c >= ' ' {
      assert 'A' <= c <= 'z';
    }
  }

  function SanitizeClipTitle(title: string): (r: string)
    ensures r != [] && |r| <= 100
    ensures forall c :: c in r ==> !IsFilenameUnsafe(c) && c >= ' '
    ensures title == [] ==> r == Untitled
  {
    UntitledIsSafe();
    if title == [] then Untitled
    else
      var t := ClipTitleChain(title);
      if t == [] then Untitled else t
  }

  /** A title that is already short, trimmed and free of every character the sanitiser touches
    * comes back unchanged. */
  lemma SanitizeClipTitleKeepsSafe(title: string)
    requires title != [] && |title| <= 100
    requires !IsSpace(title[0]) && !IsSpace(title[|title| - 1])
    requires forall c :: c in title ==> !IsFilenameUnsafe(c) && c >= ' ' && c !in MetadataStripped
    ensures SanitizeClipTitle(title) == title
  {
    calc {
      ClipTitleChain(title);
      Take(Strip(DropControl(ReplaceUnsafe(SanitizeMetadata(title)))), 100);
      { SanitizeMetadataKeeps(title); }
      Take(Strip(DropControl(ReplaceUnsafe(title))), 100);
      { ReplaceUnsafeKeeps(title); }
      Take(Strip(DropControl(title)), 100);
      { DropControlKeeps(title); }
      Take(Strip(title), 100);
      { StripNoEdges(title); }
      Take(title, 100);
    }
  }

  lemma SanitizeMetadataKeeps(title: string)
    requires |title| <= 200 && forall c :: c in title ==> c !in MetadataStripped
    ensures SanitizeMetadata(title) == title
  {
  }

  lemma ReplaceUnsafeKeeps(title: string)
    requires forall c :: c in title ==> !IsFilenameUnsafe(c)
    ensures ReplaceUnsafe(title) == title
  {
  }

  // ---------------------------------------------------------------------------
  // validate_timestamp

  predicate AllDigits(s: string) { forall c :: c in s ==> IsDigit(c) }

  /** Whether `:`-separated pieces have the shape of `TIMESTAMP_PATTERN`: one or two digits,
    * two digits, and optionally two more digits. The digits are ASCII: the other Unicode
    * decimal digits that `\d` matches in a str pattern are not modelled. */
  predicate TimestampShape(parts: seq<string>) {
    (|parts| == 2 || |parts| == 3) && 1 <= |parts[0]| <= 2 && AllDigits(parts[0])
    && |parts[1]| == 2 && AllDigits(parts[1])
    && (|parts| == 3 ==> |parts[2]| == 2 && AllDigits(parts[2]))
  }

  /** The groups of `TIMESTAMP_PATTERN` read as numbers; `None` when it does not match. */
  function TimestampGroups(t: string): (r: Option<(nat, nat, Option<nat>)>)
    ensures r.Some? <==> TimestampShape(Split(t, ':'))
  {
    var parts := Split(t, ':');
    if TimestampShape(parts) then
      Some((RunValue(parts[0]), RunValue(parts[1]), if |parts| == 3 then Some(RunValue(parts[2])) else None))
    else None
  }

  /** A string the pattern matches has between 4 and 8 characters. */
  lemma TimestampGroupsLength(t: string)
    requires TimestampGroups(t).Some?
    ensures 4 <= |t| <= 8
  {
    var parts := Split(t, ':');
    SplitLength(t, ':');
    assert TotalLength(parts) == |parts[0]| + TotalLength(parts[1..]);
    assert TotalLength(parts[1..]) == |parts[1]| + TotalLength(parts[2..]);
    if |parts| == 3 {
      assert TotalLength(parts[2..]) == |parts[2]| + TotalLength(parts[3..]);
    }
  }

  /** `validate_timestamp`: the first group is checked against 59 as minutes, the second
    * against 59 as seconds, the optional third against 23 as hours. */
  function ValidateTimestamp(timestamp: string): (r: bool)
    ensures r ==> TimestampGroups(Strip(timestamp)).Some?
  {
    if timestamp == [] then false
    else
      match TimestampGroups(Strip(timestamp))
      case None => false
      case Some((first, second, third)) => third.GetOr(0) <= 23 && first <= 59 && second <= 59
  }

  /** An accepted timestamp has 4 to 8 characters once stripped. */
  lemma ValidTimestampLength(timestamp: string)
    requires ValidateTimestamp(timestamp)
    ensures 4 <= |Strip(timestamp)| <= 8
  {
    TimestampGroupsLength(Strip(timestamp));
  }

  /** `validate_timestamp` as its docstring and pattern comment describe it (MM:SS or
    * HH:MM:SS): with three groups the first is the hours and the last the seconds. */
  function ValidateTimestampIntended(timestamp: string): (r: bool)
    ensures r ==> TimestampGroups(Strip(timestamp)).Some?
  {
    if timestamp == [] then false
    else
      match TimestampGroups(Strip(timestamp))
      case None => false
      case Some((first, second, third)) =>
        match third
        case None => first <= 59 && second <= 59
        case Some(last) => first <= 23 && second <= 59 && last <= 59
  }

  // ---------------------------------------------------------------------------
  // validate_url

  predicate HasDangerousScheme(url: string) {
    var l := Lower(url);
    StartsWith(l, "javascript:") || StartsWith(l, "data:") || StartsWith(l, "vbscript:") || StartsWith(l, "file:")
  }

  predicate ValidateUrl(url: string) {
    if url == [] then false
    else if StartsWith(url, "//") then false
    else if HasDangerousScheme(url) then false
    else
      match UrlSplit(url)
      case None => false
      case Some(parts) =>
        parts.scheme in {"http", "https"} && parts.netloc != [] && Lower(parts.netloc) in YoutubeDomains
  }

  /** What an accepted URL is: non-empty, not protocol-relative, without a dangerous scheme,
    * and split into an http(s) scheme and a YouTube host. */
  lemma ValidateUrlMeans(url: string)
    requires ValidateUrl(url)
    ensures url != [] && !StartsWith(url, "//") && !HasDangerousScheme(url)
    ensures UrlSplit(url).Some? && UrlSplit(url).value.scheme in {"http", "https"}
    ensures Lower(UrlSplit(url).value.netloc) in YoutubeDomains
  {
  }

  lemma HttpSchemeFacts(scheme: string)
    requires scheme == "http" || scheme == "https"
    ensures scheme != [] && scheme[0] == 'h' && IsAsciiLetter(scheme[0])
    ensures AllSchemeChars(scheme) && Lower(scheme) == scheme
  {
    if scheme == "http" {
      SchemeLetters("http");
    } else {
      SchemeLetters("https");
    }
  }

  lemma SchemeLetters(scheme: string)
    requires scheme != [] && forall i :: 0 <= i < |scheme| ==> 'a' <= scheme[i] <= 'z'
    ensures IsAsciiLetter(scheme[0]) && AllSchemeChars(scheme) && Lower(scheme) == scheme
  {
    LowerKeeps(scheme);
  }

  /** A host name of lower-case letters and dots is its own lower-case form and holds no
    * character that ends or breaks a network location. */
  predicate HostSafe(domain: string) {
    domain != [] && Lower(domain) == domain
    && forall c :: c in domain ==> c != '/' && c != '?' && c != '#' && c != '[' && c != ']' && !IsUnsafeUrlChar(c)
  }

  lemma HostFacts(domain: string)
    requires domain != [] && forall i :: 0 <= i < |domain| ==> domain[i] == '.' || 'a' <= domain[i] <= 'z'
    ensures HostSafe(domain)
  {
    LowerKeeps(domain);
  }

  lemma YoutubeDomainFacts(domain: string)
    requires domain in YoutubeDomains
    ensures HostSafe(domain)
  {
    if domain == "youtube.com" {
      HostFacts("youtube.com");
    } else if domain == "www.youtube.com" {
      HostFacts("www.youtube.com");
    } else if domain == "m.youtube.com" {
      HostFacts("m.youtube.com");
    } else {
      assert domain == "youtu.be";
      HostFacts("youtu.be");
    }
  }

  /** Every `http` or `https` URL whose host is one of the accepted domains, followed by a path,
    * a query, a fragment or nothing, is accepted. */
  lemma ValidateUrlAcceptsYoutube(scheme: string, domain: string, rest: string)
    requires scheme == "http" || scheme == "https"
    requires domain in YoutubeDomains
    requires rest == [] || rest[0] == '/' || rest[0] == '?' || rest[0] == '#'
    ensures ValidateUrl(scheme + "://" + domain + rest)
  {
    HttpSchemeFacts(scheme);
    YoutubeDomainFacts(domain);
    AcceptsAuthorityUrl(scheme, domain, rest);
  }

  lemma AcceptsAuthorityUrl(scheme: string, domain: string, rest: string)
    requires scheme == "http" || scheme == "https"
    requires scheme[0] == 'h' && IsAsciiLetter(scheme[0]) && AllSchemeChars(scheme) && Lower(scheme) == scheme
    requires HostSafe(domain) && domain in YoutubeDomains
    requires rest == [] || rest[0] == '/' || rest[0] == '?' || rest[0] == '#'
    ensures ValidateUrl(scheme + "://" + domain + rest)
  {
    var url := scheme + "://" + domain + rest;
    SchemeSeparator(scheme, domain, rest);
    UrlSplitOfAuthority(scheme, domain, rest);
    assert url[0] == 'h';
    NoBadPrefix(url);
    ValidateUrlOfParts(url, UrlSplit(url).value);
  }

  lemma SchemeSeparator(scheme: string, domain: string, rest: string)
    ensures scheme + "://" + domain + rest == scheme + [':'] + "//" + domain + rest
  {
    assert "://" == [':'] + "//";
  }

  /** The acceptance conditions of `validate_url`, read backwards. */
  lemma ValidateUrlOfParts(url: string, parts: SplitResult)
    requires url != [] && !StartsWith(url, "//") && !HasDangerousScheme(url)
    requires UrlSplit(url) == Some(parts) && parts.scheme in {"http", "https"}
    requires parts.netloc != [] && Lower(parts.netloc) in YoutubeDomains
    ensures ValidateUrl(url)
  {
  }

  /** A URL starting with `h` is neither scheme-relative nor one of the refused schemes. */
  lemma NoBadPrefix(url: string)
    requires url != [] && url[0] == 'h'
    ensures !StartsWith(url, "//") && !HasDangerousScheme(url)
  {
    assert Lower(url)[0] == 'h';
    FirstCharMismatch(url, "//");
    FirstCharMismatch(Lower(url), "javascript:");
    FirstCharMismatch(Lower(url), "data:");
    FirstCharMismatch(Lower(url), "vbscript:");
    FirstCharMismatch(Lower(url), "file:");
  }

  // ---------------------------------------------------------------------------
  // Settings

  function ValidateConcurrentWorkers(value: string): (r: bool)
    ensures r ==> exists c :: c in value && IsDigit(c)
  {
    match PyInt(value)
    case None => false
    case Some(n) => 1 <= n <= 5
  }

  /** A decimal worker count is accepted exactly when it lies between 1 and 5. */
  lemma ConcurrentWorkersOfNat(n: nat)
    ensures ValidateConcurrentWorkers(NatToString(n)) <==> 1 <= n <= 5
  {
    PyIntOfNat(n);
  }

  function ValidateQuality(quality: string): (r: bool)
    ensures r <==> quality in {"1", "2", "3", "4", "5"} || quality in {"best", "720p", "480p", "360p", "audio"}
  {
    quality in AllowedQualities
  }

  function ValidateChoice(choice: string, validChoices: seq<string>): (r: bool)
    ensures r <==> exists i :: 0 <= i < |validChoices| && validChoices[i] == choice
  {
    choice in validChoices
  }
}
