/** The command-line front end's URL handling: the duplicate check against the history before a
  * download, the parser of a comma- or whitespace-separated URL list, and the line filter of a
  * URL file. Menus, prompts and printing are not modelled; the user's answers to the duplicate
  * prompt are a sequence consumed in order. */
module Cli {
  import opened Wrappers
  import opened Text
  import opened Seqs
  import History
  import Config
  import Security

  // ---------------------------------------------------------------------------
  // _handle_duplicates

  const DuplicateKey: string := "duplicate_action"

  /** The policy `_handle_duplicates` reads once, before its loop: the configured
    * `duplicate_action` compared with 'download' and 'skip'; anything else asks. */
  datatype Policy = DownloadAgain | SkipKnown | Ask

  function PolicyOf(v: Config.Value): (p: Policy)
    ensures p == DownloadAgain <==> v == Config.VStr("download")
    ensures p == SkipKnown <==> v == Config.VStr("skip")
  {
    if v == Config.VStr("download") then DownloadAgain
    else if v == Config.VStr("skip") then SkipKnown
    else Ask
  }

  /** The configured policy, 'ask' when the key is unset. */
  function ConfiguredPolicy(config: map<string, Config.Value>): Policy {
    PolicyOf(Config.Lookup(config, DuplicateKey, Config.VStr("ask")))
  }

  /** What an answer to the prompt does. */
  datatype Action = Again | RemoveThenAgain | StoreDownload | StoreSkip | Skip

  /** The stripped answer: '1' downloads again, '3' removes from the history and downloads, '4'
    * stores 'download' and downloads, '5' stores 'skip' and skips; anything else, the empty
    * answer included, skips. */
  function Decide(choice: string): (a: Action)
    ensures a == Again <==> choice == "1"
    ensures a == RemoveThenAgain <==> choice == "3"
    ensures a == StoreDownload <==> choice == "4"
    ensures a == StoreSkip <==> choice == "5"
  {
    if choice == "1" then Again
    else if choice == "3" then RemoveThenAgain
    else if choice == "4" then StoreDownload
    else if choice == "5" then StoreSkip
    else Skip
  }

  /** The answers as the prompt reads them, stripped. */
  function Choices(answers: seq<string>): (r: seq<string>)
    ensures |r| == |answers| && forall i :: 0 <= i < |answers| ==> r[i] == Strip(answers[i])
  {
    seq(|answers|, i requires 0 <= i < |answers| => Strip(answers[i]))
  }

  /** Where the duplicate check stands: the URLs kept so far, the history and the configuration
    * as the answers left them, how many answers were read, and whether reading one failed
    * (`input` raising at the end of the input). */
  datatype Run = Run(kept: seq<string>, history: seq<History.Partition>, config: map<string, Config.Value>,
    used: nat, raised: bool)

  /** Whether the history already holds the URL (`is_downloaded` returning a truthy entry). */
  predicate Known(h: seq<History.Partition>, url: string) {
    History.FirstWithUrl(History.Flatten(h), url).Some?
  }

  /** One URL of the loop: a new URL is kept; a known one is kept under 'download', dropped
    * under 'skip', and otherwise decided by the next answer. */
  function Step(r: Run, url: string, policy: Policy, choices: seq<string>): Run {
    if !Known(r.history, url) then r.(kept := r.kept + [url])
    else
      match policy
      case DownloadAgain => r.(kept := r.kept + [url])
      case SkipKnown => r
      case Ask => Prompt(r, url, choices)
  }

  /** The prompt for a known URL: the next answer decides, and a missing answer raises. */
  function Prompt(r: Run, url: string, choices: seq<string>): Run {
    if r.used >= |choices| then r.(raised := true)
    else
      var next := r.(used := r.used + 1);
      match Decide(choices[r.used])
      case Again => next.(kept := r.kept + [url])
      case RemoveThenAgain => next.(kept := r.kept + [url], history := History.RemoveUrl(r.history, url))
      case StoreDownload => next.(kept := r.kept + [url], config := r.config[DuplicateKey := Config.VStr("download")])
      case StoreSkip => next.(config := r.config[DuplicateKey := Config.VStr("skip")])
      case Skip => next
  }

  /** The loop over `urls` with the policy fixed before it; a raised run stays raised. */
  function Handle(urls: seq<string>, policy: Policy, h: seq<History.Partition>,
      config: map<string, Config.Value>, choices: seq<string>): Run
    decreases |urls|
  {
    if urls == [] then Run([], h, config, 0, false)
    else
      var prev := Handle(urls[..|urls| - 1], policy, h, config, choices);
      if prev.raised then prev else Step(prev, urls[|urls| - 1], policy, choices)
  }

  /** The run after one more URL. */
  lemma HandleNext(urls: seq<string>, i: nat, policy: Policy, h: seq<History.Partition>,
      config: map<string, Config.Value>, choices: seq<string>)
    requires i < |urls|
    ensures var prev := Handle(urls[..i], policy, h, config, choices);
      Handle(urls[..i + 1], policy, h, config, choices) == if prev.raised then prev else Step(prev, urls[i], policy, choices)
  {
    PrefixGrow(urls, i);
  }

  /** `is_downloaded` finds the URL exactly when some entry of the history has it. */
  lemma KnownMentions(h: seq<History.Partition>, url: string)
    ensures Known(h, url) <==> History.Mentions(History.Flatten(h), url)
  {
    var es := History.Flatten(h);
    if History.Mentions(es, url) {
      var k :| 0 <= k < |es| && es[k].url == url;
    }
  }

  /** The URLs kept by one step. */
  lemma StepKept(r: Run, url: string, policy: Policy, choices: seq<string>)
    ensures var s := Step(r, url, policy, choices); s.kept == r.kept + [url] || s.kept == r.kept
    ensures !Known(r.history, url) ==> Step(r, url, policy, choices) == r.(kept := r.kept + [url])
  {
  }

  /** The history after one step. */
  lemma StepHistory(r: Run, url: string, policy: Policy, choices: seq<string>)
    ensures var s := Step(r, url, policy, choices); s.history == r.history || s.history == History.RemoveUrl(r.history, url)
  {
  }

  /** Both configuration values `_handle_duplicates` stores pass `set`'s check. */
  lemma StoredPoliciesValid()
    ensures Config.KeyCheck(DuplicateKey, Config.VStr("download")).Ok?
    ensures Config.KeyCheck(DuplicateKey, Config.VStr("skip")).Ok?
  {
  }

  /** `_handle_duplicates`: `None` when reading an answer raises. Each history removal is
    * written with outcome `historySaved`; configuration changes go through `set`. */
  method HandleDuplicates(history: History.HistoryManager, config: Config.ConfigManager, urls: seq<string>,
      answers: seq<string>, historySaved: bool)
    returns (result: Option<seq<string>>)
    requires history.Valid()
    modifies history, config
    ensures history.Valid()
    ensures var r := Handle(urls, ConfiguredPolicy(old(config.config)), old(history.history), old(config.config), Choices(answers));
      history.history == r.history && config.config == r.config
      && (if r.raised then result.None? else result == Some(r.kept))
  {
    var action := config.Get(DuplicateKey, Config.VStr("ask"));
    ghost var policy, h0, c0, choices := PolicyOf(action), history.history, config.config, Choices(answers);
    var kept: seq<string> := [];
    var used: nat := 0;
    for i := 0 to |urls|
      invariant history.Valid()
      invariant Handle(urls[..i], policy, h0, c0, choices) == Run(kept, history.history, config.config, used, false)
    {
      HandleNext(urls, i, policy, h0, c0, choices);
      var raised;
      kept, used, raised := CheckUrl(history, config, urls[i], action, answers, historySaved, kept, used);
      if raised {
        HandleRaised(urls, i + 1, policy, h0, c0, choices);
        return None;
      }
    }
    Snoc(urls, |urls|);
    return Some(kept);
  }

  /** The body of the loop of `_handle_duplicates` for one URL; `raised` when the answer it
    * needs is missing. */
  method CheckUrl(history: History.HistoryManager, config: Config.ConfigManager, url: string, action: Config.Value,
      answers: seq<string>, historySaved: bool, kept: seq<string>, used: nat)
    returns (kept': seq<string>, used': nat, raised: bool)
    requires history.Valid()
    modifies history, config
    ensures history.Valid()
    ensures Step(Run(kept, old(history.history), old(config.config), used, false), url, PolicyOf(action), Choices(answers))
      == Run(kept', history.history, config.config, used', raised)
  {
    kept', used', raised := kept, used, false;
    var found, entry := history.IsDownloaded(url);
    if !found || action == Config.VStr("download") {
      kept' := kept + [url];
      return;
    }
    if action == Config.VStr("skip") {
      return;
    }
    kept', used', raised := AskUser(history, config, url, answers, historySaved, kept, used);
  }

  /** The prompt for a URL the history holds, under the policy 'ask'. */
  method AskUser(history: History.HistoryManager, config: Config.ConfigManager, url: string,
      answers: seq<string>, historySaved: bool, kept: seq<string>, used: nat)
    returns (kept': seq<string>, used': nat, raised: bool)
    requires history.Valid()
    modifies history, config
    ensures history.Valid()
    ensures Prompt(Run(kept, old(history.history), old(config.config), used, false), url, Choices(answers))
      == Run(kept', history.history, config.config, used', raised)
  {
    kept', used', raised := kept, used, false;
    if used >= |answers| {
      raised := true;
      return;
    }
    var choice := ReadChoice(answers, used);
    used' := used + 1;
    match Decide(choice)
    case Again =>
      kept' := kept + [url];
    case RemoveThenAgain =>
      var _ := history.Remove(url, historySaved);
      kept' := kept + [url];
    case StoreDownload =>
      StoredPoliciesValid();
      var _ := config.Set(DuplicateKey, Config.VStr("download"));
      kept' := kept + [url];
    case StoreSkip =>
      StoredPoliciesValid();
      var _ := config.Set(DuplicateKey, Config.VStr("skip"));
    case Skip =>
  }

  /** `input(...).strip()` for the answer at `used`. */
  method ReadChoice(answers: seq<string>, used: nat) returns (choice: string)
    requires used < |answers|
    ensures choice == Choices(answers)[used]
  {
    choice := Strip(answers[used]);
  }

  /** Once an answer is missing the whole call raises. */
  lemma {:induction false} HandleRaised(urls: seq<string>, n: nat, policy: Policy, h: seq<History.Partition>,
      config: map<string, Config.Value>, choices: seq<string>)
    requires n <= |urls| && Handle(urls[..n], policy, h, config, choices).raised
    ensures Handle(urls, policy, h, config, choices) == Handle(urls[..n], policy, h, config, choices)
    decreases |urls| - n
  {
    if n < |urls| {
      HandleNext(urls, n, policy, h, config, choices);
      HandleRaised(urls, n + 1, policy, h, config, choices);
    } else {
      Snoc(urls, n);
    }
  }

  /** The URLs kept are the input with some left out, in their order. */
  lemma {:induction false} KeptInOrder(urls: seq<string>, policy: Policy, h: seq<History.Partition>,
      config: map<string, Config.Value>, choices: seq<string>)
    ensures IsSubseq(Handle(urls, policy, h, config, choices).kept, urls)
    decreases |urls|
  {
    if urls != [] {
      var p, u := urls[..|urls| - 1], urls[|urls| - 1];
      KeptInOrder(p, policy, h, config, choices);
      assert urls == p + [u];
      var prev := Handle(p, policy, h, config, choices);
      StepKept(prev, u, policy, choices);
      if !prev.raised && Step(prev, u, policy, choices).kept == prev.kept + [u] {
        SubseqKeep(prev.kept, p, u);
      } else {
        SubseqSkip(prev.kept, p, u);
      }
    }
  }

  /** While the check runs, the history holds no URL it did not hold at the start. */
  lemma {:induction false} HistoryOnlyShrinks(urls: seq<string>, policy: Policy, h: seq<History.Partition>,
      config: map<string, Config.Value>, choices: seq<string>, x: string)
    ensures Known(Handle(urls, policy, h, config, choices).history, x) ==> Known(h, x)
    decreases |urls|
  {
    if urls != [] {
      var p, u := urls[..|urls| - 1], urls[|urls| - 1];
      HistoryOnlyShrinks(p, policy, h, config, choices, x);
      var prev := Handle(p, policy, h, config, choices);
      StepHistory(prev, u, policy, choices);
      History.RemoveUrlMentions(prev.history, u, x);
      KnownMentions(prev.history, x);
      KnownMentions(History.RemoveUrl(prev.history, u), x);
    }
  }

  /** A URL the history did not hold at the start is kept, whatever the policy and the answers,
    * unless the call raises. */
  lemma {:induction false} NewUrlsKept(urls: seq<string>, policy: Policy, h: seq<History.Partition>,
      config: map<string, Config.Value>, choices: seq<string>, i: nat)
    requires i < |urls| && !Known(h, urls[i])
    requires !Handle(urls, policy, h, config, choices).raised
    ensures urls[i] in Handle(urls, policy, h, config, choices).kept
    decreases |urls|
  {
    var p, u := urls[..|urls| - 1], urls[|urls| - 1];
    var prev := Handle(p, policy, h, config, choices);
    assert !prev.raised && Handle(urls, policy, h, config, choices) == Step(prev, u, policy, choices);
    if i < |p| {
      assert p[i] == urls[i];
      NewUrlsKept(p, policy, h, config, choices, i);
      StepKeeps(prev, u, policy, choices, urls[i]);
    } else {
      HistoryOnlyShrinks(p, policy, h, config, choices, u);
      StepKeeps(prev, u, policy, choices, u);
    }
  }

  /** A step keeps what was kept, and keeps its URL when the history does not hold it. */
  lemma StepKeeps(r: Run, url: string, policy: Policy, choices: seq<string>, x: string)
    requires x in r.kept || (x == url && !Known(r.history, url))
    ensures x in Step(r, url, policy, choices).kept
  {
    StepKept(r, url, policy, choices);
  }

  /** The URLs the history does not hold, in order. */
  function NotKnown(urls: seq<string>, h: seq<History.Partition>): seq<string>
    decreases |urls|
  {
    if urls == [] then []
    else
      var u := urls[|urls| - 1];
      NotKnown(urls[..|urls| - 1], h) + (if Known(h, u) then [] else [u])
  }

  /** Under 'download' every URL is kept and nothing else changes or is asked. */
  lemma {:induction false} DownloadKeepsAll(urls: seq<string>, h: seq<History.Partition>,
      config: map<string, Config.Value>, choices: seq<string>)
    ensures Handle(urls, DownloadAgain, h, config, choices) == Run(urls, h, config, 0, false)
    decreases |urls|
  {
    if urls != [] {
      DownloadKeepsAll(urls[..|urls| - 1], h, config, choices);
      assert urls == urls[..|urls| - 1] + [urls[|urls| - 1]];
    }
  }

  /** Under 'skip' exactly the new URLs are kept and nothing else changes or is asked. */
  lemma {:induction false} SkipDropsDuplicates(urls: seq<string>, h: seq<History.Partition>,
      config: map<string, Config.Value>, choices: seq<string>)
    ensures Handle(urls, SkipKnown, h, config, choices) == Run(NotKnown(urls, h), h, config, 0, false)
    ensures forall u :: u in NotKnown(urls, h) ==> u in urls && !Known(h, u)
    decreases |urls|
  {
    if urls != [] {
      var p := urls[..|urls| - 1];
      SkipDropsDuplicates(p, h, config, choices);
      assert forall u :: u in p ==> u in urls;
    }
  }

  /** Under 'ask', a URL the history holds is decided by one answer: kept for '1', '3' and '4';
    * removed from the history first for '3'; the policy stored as 'download' for '4' and as
    * 'skip' for '5'; dropped with nothing changed for any other answer. */
  lemma AskDecides(url: string, h: seq<History.Partition>, config: map<string, Config.Value>, answer: string)
    requires Known(h, url)
    ensures var r := Handle([url], Ask, h, config, Choices([answer]));
      var c := Strip(answer);
      && !r.raised && r.used == 1
      && (r.kept == [url] <==> c == "1" || c == "3" || c == "4")
      && (r.kept == [] <==> !(c == "1" || c == "3" || c == "4"))
      && r.history == (if c == "3" then History.RemoveUrl(h, url) else h)
      && r.config == (if c == "4" then config[DuplicateKey := Config.VStr("download")]
                      else if c == "5" then config[DuplicateKey := Config.VStr("skip")] else config)
  {
    assert [url][..0] == [];
    assert Choices([answer])[0] == Strip(answer);
  }

  /** With no answer left for a duplicate under 'ask', the call raises. */
  lemma AskWithoutAnswer(url: string, h: seq<History.Partition>, config: map<string, Config.Value>)
    requires Known(h, url)
    ensures Handle([url], Ask, h, config, []).raised
  {
    assert [url][..0] == [];
  }

  /** The policy is read once: answering '4' to the first of two duplicates stores 'download',
    * yet the second duplicate is still asked about, and answering '5' to it drops it. */
  lemma PolicyReadOnce(url: string, h: seq<History.Partition>, config: map<string, Config.Value>)
    requires Known(h, url)
    ensures var r := Handle([url, url], Ask, h, config, ["4", "5"]);
      r.kept == [url] && r.used == 2 && r.config == config[DuplicateKey := Config.VStr("skip")]
  {
    var choices := ["4", "5"];
    assert [url, url][..1] == [url] && [url][..0] == [];
    assert Decide(choices[0]) == StoreDownload && Decide(choices[1]) == StoreSkip;
    var start := Run([], h, config, 0, false);
    assert Handle([], Ask, h, config, choices) == start;
    var first := Run([url], h, config[DuplicateKey := Config.VStr("download")], 1, false);
    assert Prompt(start, url, choices) == first;
    assert Handle([url], Ask, h, config, choices) == first;
  }

  // ---------------------------------------------------------------------------
  // parse_multiple_urls

  /** The tokens that pass `validate_url`, in order. */
  function ValidOnly(tokens: seq<string>): seq<string>
    decreases |tokens|
  {
    if tokens == [] then []
    else
      var t := tokens[|tokens| - 1];
      ValidOnly(tokens[..|tokens| - 1]) + (if Security.ValidateUrl(t) then [t] else [])
  }

  /** What `parse_multiple_urls` returns: no URL for empty input, else the valid pieces of the
    * stripped input split on runs of commas and whitespace. */
  function ParsedUrls(input: string): seq<string> {
    if input == [] then [] else ValidOnly(Tokens(Strip(input), ','))
  }

  lemma ValidOnlySnoc(p: seq<string>, t: string)
    ensures ValidOnly(p + [t]) == ValidOnly(p) + (if Security.ValidateUrl(t) then [t] else [])
  {
    assert (p + [t])[..|p|] == p;
  }

  /** The kept tokens are the valid ones, in their order. */
  lemma ValidOnlyCorrect(tokens: seq<string>)
    ensures IsSubseq(ValidOnly(tokens), tokens)
    ensures forall u :: u in ValidOnly(tokens) <==> u in tokens && Security.ValidateUrl(u)
  {
    ValidOnlyInOrder(tokens);
    ValidOnlyMembers(tokens);
  }

  lemma {:induction false} ValidOnlyInOrder(tokens: seq<string>)
    ensures IsSubseq(ValidOnly(tokens), tokens)
    decreases |tokens|
  {
    if tokens != [] {
      var p, t := tokens[..|tokens| - 1], tokens[|tokens| - 1];
      assert tokens == p + [t];
      ValidOnlySnoc(p, t);
      ValidOnlyInOrder(p);
      if Security.ValidateUrl(t) {
        SubseqKeep(ValidOnly(p), p, t);
      } else {
        assert ValidOnly(p) + [] == ValidOnly(p);
        SubseqSkip(ValidOnly(p), p, t);
      }
    }
  }

  lemma {:induction false} ValidOnlyMembers(tokens: seq<string>)
    ensures forall u :: u in ValidOnly(tokens) <==> u in tokens && Security.ValidateUrl(u)
    decreases |tokens|
  {
    if tokens != [] {
      var p, t := tokens[..|tokens| - 1], tokens[|tokens| - 1];
      assert tokens == p + [t];
      ValidOnlyMembers(p);
      forall u ensures u in ValidOnly(tokens) <==> u in tokens && Security.ValidateUrl(u) {
        ValidOnlyMemberStep(p, t, u);
      }
    }
  }

  lemma ValidOnlyMemberStep(p: seq<string>, t: string, u: string)
    requires u in ValidOnly(p) <==> u in p && Security.ValidateUrl(u)
    ensures u in ValidOnly(p + [t]) <==> u in p + [t] && Security.ValidateUrl(u)
  {
    ValidOnlySnoc(p, t);
    assert u in p + [t] <==> u in p || u == t;
  }

  /** Every parsed URL is valid, non-empty and free of commas and whitespace, and every valid
    * piece of the input is among them. */
  lemma ParsedUrlsCorrect(input: string)
    ensures forall u :: u in ParsedUrls(input) ==>
      Security.ValidateUrl(u) && u != [] && forall c :: c in u ==> !IsSep(c, ',')
    ensures input != [] ==> IsSubseq(ParsedUrls(input), Tokens(Strip(input), ','))
    ensures input != [] ==> forall u :: u in Tokens(Strip(input), ',') && Security.ValidateUrl(u) ==> u in ParsedUrls(input)
  {
    if input != [] {
      var tokens := Tokens(Strip(input), ',');
      ValidOnlyCorrect(tokens);
      forall u | u in ParsedUrls(input) ensures u != [] && forall c :: c in u ==> !IsSep(c, ',') {
        var k :| 0 <= k < |tokens| && tokens[k] == u;
      }
    }
  }

  /** `parse_multiple_urls`: the loop over the pieces. */
  method ParseMultipleUrls(input: string) returns (valid: seq<string>)
    ensures valid == ParsedUrls(input)
  {
    if input == [] {
      return [];
    }
    var tokens := Tokens(Strip(input), ',');
    valid := [];
    for i := 0 to |tokens|
      invariant valid == ValidOnly(tokens[..i])
    {
      PrefixGrow(tokens, i);
      if Security.ValidateUrl(tokens[i]) {
        valid := valid + [tokens[i]];
      }
    }
    Snoc(tokens, |tokens|);
  }

  // ---------------------------------------------------------------------------
  // load_urls_from_file

  /** A line of the file counts when, stripped, it is not blank, not a comment and a valid URL. */
  predicate UrlLine(line: string) {
    var l := Strip(line);
    l != [] && !StartsWith(l, "#") && Security.ValidateUrl(l)
  }

  /** The stripped URL lines, in file order. */
  function FileUrls(lines: seq<string>): seq<string>
    decreases |lines|
  {
    if lines == [] then []
    else
      var l := lines[|lines| - 1];
      FileUrls(lines[..|lines| - 1]) + (if UrlLine(l) then [Strip(l)] else [])
  }

  lemma FileUrlsSnoc(p: seq<string>, l: string)
    ensures FileUrls(p + [l]) == FileUrls(p) + (if UrlLine(l) then [Strip(l)] else [])
  {
    assert (p + [l])[..|p|] == p;
  }

  /** A URL is loaded exactly when some line of the file is that URL with blanks around it, and
    * it is valid and not a comment; there are never more URLs than lines. */
  lemma {:induction false} FileUrlsMembers(lines: seq<string>)
    ensures forall u :: u in FileUrls(lines) <==>
      exists k :: 0 <= k < |lines| && UrlLine(lines[k]) && Strip(lines[k]) == u
    ensures |FileUrls(lines)| <= |lines|
    decreases |lines|
  {
    if lines != [] {
      var p, l := lines[..|lines| - 1], lines[|lines| - 1];
      assert lines == p + [l];
      FileUrlsSnoc(p, l);
      FileUrlsMembers(p);
      forall u ensures u in FileUrls(lines) <==> exists k :: 0 <= k < |lines| && UrlLine(lines[k]) && Strip(lines[k]) == u {
        FileUrlsMemberStep(p, l, u);
      }
    }
  }

  lemma FileUrlsMemberStep(p: seq<string>, l: string, u: string)
    requires u in FileUrls(p) <==> exists k :: 0 <= k < |p| && UrlLine(p[k]) && Strip(p[k]) == u
    ensures var lines := p + [l];
      u in FileUrls(lines) <==> exists k :: 0 <= k < |lines| && UrlLine(lines[k]) && Strip(lines[k]) == u
  {
    var lines := p + [l];
    if u in FileUrls(lines) {
      var k := FileUrlsFrom(p, l, u);
      assert 0 <= k < |lines| && UrlLine(lines[k]) && Strip(lines[k]) == u;
    } else {
      forall k | 0 <= k < |lines| && UrlLine(lines[k]) ensures Strip(lines[k]) != u {
        if Strip(lines[k]) == u {
          FileUrlsHas(p, l, u, k);
        }
      }
    }
  }

  /** A URL loaded from `p + [l]` comes from a line of it. */
  lemma FileUrlsFrom(p: seq<string>, l: string, u: string) returns (k: nat)
    requires u in FileUrls(p) ==> exists k :: 0 <= k < |p| && UrlLine(p[k]) && Strip(p[k]) == u
    requires u in FileUrls(p + [l])
    ensures k < |p + [l]| && UrlLine((p + [l])[k]) && Strip((p + [l])[k]) == u
  {
    FileUrlsSnoc(p, l);
    if u in FileUrls(p) {
      k :| 0 <= k < |p| && UrlLine(p[k]) && Strip(p[k]) == u;
      assert (p + [l])[k] == p[k];
    } else {
      k := |p|;
      assert (p + [l])[k] == l;
    }
  }

  /** A URL line of `p + [l]` is loaded. */
  lemma FileUrlsHas(p: seq<string>, l: string, u: string, k: nat)
    requires (exists k :: 0 <= k < |p| && UrlLine(p[k]) && Strip(p[k]) == u) ==> u in FileUrls(p)
    requires k < |p + [l]| && UrlLine((p + [l])[k]) && Strip((p + [l])[k]) == u
    ensures u in FileUrls(p + [l])
  {
    FileUrlsSnoc(p, l);
    if k < |p| {
      assert (p + [l])[k] == p[k];
    } else {
      assert (p + [l])[k] == l;
    }
  }

  /** `load_urls_from_file` after the path checks: `lines` is what `readlines` yields, `None`
    * when the path is rejected, missing or not a file, or reading raises. */
  method LoadUrlsFromFile(lines: Option<seq<string>>) returns (urls: seq<string>)
    ensures lines.None? ==> urls == []
    ensures lines.Some? ==> urls == FileUrls(lines.value)
  {
    if lines.None? {
      return [];
    }
    var ls := lines.value;
    urls := [];
    for i := 0 to |ls|
      invariant urls == FileUrls(ls[..i])
    {
      PrefixGrow(ls, i);
      var line := Strip(ls[i]);
      if line == [] || StartsWith(line, "#") {
        continue;
      }
      if Security.ValidateUrl(line) {
        urls := urls + [line];
      }
    }
    Snoc(ls, |ls|);
  }
}
