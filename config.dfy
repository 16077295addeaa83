/**
 * Configuration (tea/config.py): the default settings, `validate_config` on the four checked
 * keys, the manager's `get`, `set` and `update`, and the repair `_load` applies to a file whose
 * values do not validate. Reading and writing the file are outside the model: what the file
 * holds is a parameter.
 */
module Config {
  import opened Text

  /** A JSON value as `json.load` returns it. Lists and objects are unhashable in Python. */
  datatype Value =
    | VStr(s: string)
    | VInt(i: int)
    | VBool(b: bool)
    | VNull
    | VList(items: seq<Value>)
    | VObject(entries: map<string, Value>)

  predicate Hashable(v: Value) { !v.VList? && !v.VObject? }

  /** How `validate_config` ends: it returns `True` or raises. A membership test on an
    * unhashable value raises `TypeError` before any comparison. */
  datatype Verdict = Ok | RaisesValueError(key: string) | RaisesTypeError(key: string)

  const ValidQualities: set<string> := {"1", "2", "3", "4", "5", "best", "720p", "480p", "360p", "audio"}
  const ValidDuplicateActions: set<string> := {"ask", "download", "skip"}
  const ValidMp3Qualities: set<string> := {"128", "192", "256", "320"}

  /** The keys `validate_config` looks at, in the order it checks them. */
  const CheckedKeys: seq<string> := ["default_quality", "concurrent_downloads", "duplicate_action", "mp3_quality"]

  /** `DEFAULT_CONFIG`. */
  const DefaultConfig: map<string, Value> := map[
    "default_quality" := VStr("5"),
    "default_output" := VStr("downloads"),
    "concurrent_downloads" := VInt(3),
    "thumbnail_embed" := VBool(true),
    "split_enabled" := VBool(false),
    "mp3_quality" := VStr("320"),
    "duplicate_action" := VStr("ask"),
    "use_ai_filename_cleaning" := VBool(false),
    "openrouter_api_key" := VNull,
    "_version" := VStr("1.0.0")
  ]

  /** The keys of `DEFAULT_CONFIG` in its insertion order, the order the repair visits them. */
  const DefaultKeys: seq<string> := [
    "default_quality", "default_output", "concurrent_downloads", "thumbnail_embed", "split_enabled",
    "mp3_quality", "duplicate_action", "use_ai_filename_cleaning", "openrouter_api_key", "_version"
  ]

  /** The key order lists exactly the keys of `DEFAULT_CONFIG`. */
  lemma DefaultKeysEnumerate()
    ensures forall i :: 0 <= i < |DefaultKeys| ==> DefaultKeys[i] in DefaultConfig
    ensures forall k :: k in DefaultConfig ==> k in DefaultKeys
  {
  }

  /** `value not in allowed`, raising for an unhashable value. */
  function Membership(key: string, v: Value, allowed: set<string>): (r: Verdict)
    ensures r.Ok? <==> v.VStr? && v.s in allowed
    ensures r.RaisesTypeError? <==> !Hashable(v)
  {
    if !Hashable(v) then RaisesTypeError(key)
    else if v.VStr? && v.s in allowed then Ok
    else RaisesValueError(key)
  }

  /** `isinstance(v, int) and 1 <= v <= 5`; a bool is an int, `True` being 1. */
  function ConcurrentCheck(v: Value): (r: Verdict)
    ensures !r.RaisesTypeError?
  {
    match v
    case VInt(n) => if 1 <= n <= 5 then Ok else RaisesValueError("concurrent_downloads")
    case VBool(b) => if b then Ok else RaisesValueError("concurrent_downloads")
    case _ => RaisesValueError("concurrent_downloads")
  }

  /** The check `validate_config` makes on the value of one key; other keys are not checked. */
  function KeyCheck(key: string, v: Value): (r: Verdict)
    ensures r.RaisesTypeError? ==> !Hashable(v)
    ensures key !in CheckedKeys ==> r.Ok?
  {
    if key == "default_quality" then Membership(key, v, ValidQualities)
    else if key == "concurrent_downloads" then ConcurrentCheck(v)
    else if key == "duplicate_action" then Membership(key, v, ValidDuplicateActions)
    else if key == "mp3_quality" then Membership(key, v, ValidMp3Qualities)
    else Ok
  }

  /** The verdict for one key of a dictionary: nothing is checked when it is absent. */
  function KeyVerdict(config: map<string, Value>, key: string): Verdict {
    if key in config then KeyCheck(key, config[key]) else Ok
  }

  predicate KeyOk(config: map<string, Value>, key: string) {
    KeyVerdict(config, key).Ok?
  }

  /** `validate_config`: the four checks in order, the first failure raising. */
  function ValidateConfig(config: map<string, Value>): (r: Verdict)
    ensures !r.Ok? ==> r.key in CheckedKeys && r.key in config
    ensures r.RaisesTypeError? ==> !Hashable(config[r.key])
  {
    var quality := KeyVerdict(config, "default_quality");
    if !quality.Ok? then quality
    else
      var concurrent := KeyVerdict(config, "concurrent_downloads");
      if !concurrent.Ok? then concurrent
      else
        var duplicate := KeyVerdict(config, "duplicate_action");
        if !duplicate.Ok? then duplicate
        else KeyVerdict(config, "mp3_quality")
  }

  /** `validate_config` returns `True` exactly when each checked key is absent or valid. */
  lemma ValidateConfigOk(config: map<string, Value>)
    ensures ValidateConfig(config).Ok? <==> forall i :: 0 <= i < |CheckedKeys| ==> KeyOk(config, CheckedKeys[i])
  {
  }

  /** `concurrent_downloads` passes exactly for an int from 1 to 5, or for `True`. */
  lemma ConcurrentValid(v: Value)
    ensures ConcurrentCheck(v).Ok? <==> (v.VInt? && 1 <= v.i <= 5) || v == VBool(true)
  {
  }

  /** A one-key dictionary is judged by that key's check alone. */
  lemma ValidateSingle(key: string, v: Value)
    ensures ValidateConfig(map[key := v]) == KeyCheck(key, v)
  {
  }

  /** Every value in `DEFAULT_CONFIG` is hashable and passes its key's check. */
  lemma DefaultsSound()
    ensures forall k :: k in DefaultConfig ==> KeyCheck(k, DefaultConfig[k]).Ok? && Hashable(DefaultConfig[k])
  {
  }

  /** `DEFAULT_CONFIG` passes `validate_config`. */
  lemma DefaultConfigValid()
    ensures ValidateConfig(DefaultConfig).Ok?
  {
  }

  // ---------------------------------------------------------------------------
  // The repair in _load

  /** Keys the repair may visit: each has a default. */
  predicate HasDefaults(keys: seq<string>) {
    forall i :: 0 <= i < |keys| ==> keys[i] in DefaultConfig
  }

  /** The repair loop over `DEFAULT_CONFIG`: a present key that fails its own check gets its
    * default back; a `TypeError` leaves the loop (and `_load`) at once. */
  function Repair(config: map<string, Value>, keys: seq<string>): (r: map<string, Value>)
    requires HasDefaults(keys)
    ensures r.Keys == config.Keys
  {
    if keys == [] then config
    else
      var key := keys[0];
      if StartsWith(key, "_") || key !in config then Repair(config, keys[1..])
      else
        match ValidateConfig(map[key := config[key]])
        case Ok => Repair(config, keys[1..])
        case RaisesValueError(_) => Repair(config[key := DefaultConfig[key]], keys[1..])
        case RaisesTypeError(_) => config
  }

  /** The repair from position `i` of the keys on: the key there is skipped, kept, reset to its
    * default, or ends the loop with a `TypeError`. */
  lemma RepairAt(config: map<string, Value>, keys: seq<string>, i: nat)
    requires HasDefaults(keys) && i < |keys|
    ensures HasDefaults(keys[i..]) && HasDefaults(keys[i + 1..])
    ensures var key, rest := keys[i], keys[i + 1..];
      Repair(config, keys[i..]) ==
        if StartsWith(key, "_") || key !in config then Repair(config, rest)
        else
          match ValidateConfig(map[key := config[key]])
          case Ok => Repair(config, rest)
          case RaisesValueError(_) => Repair(config[key := DefaultConfig[key]], rest)
          case RaisesTypeError(_) => config
  {
    assert keys[i..][0] == keys[i] && keys[i..][1..] == keys[i + 1..];
  }

  /** One element that `dict.update` takes from a JSON value other than an object: a pair with
    * a string key (a two-element list, a two-character string, or an object with two keys,
    * read as its keys), a pair whose key is a hashable non-string (a number, a boolean or null),
    * which no string key of the configuration reads, or anything else, on which `update`
    * raises `ValueError` or `TypeError`. */
  datatype UpdateItem = Pair(key: string, value: Value) | OtherKeyPair | NotAPair

  predicate AllHashable(config: map<string, Value>) {
    forall k :: k in config ==> Hashable(config[k])
  }

  /** What the file yields: no file, a file that will not parse or read, a JSON object, or any
    * other JSON value as the elements `update` iterates over. A number, a boolean or null
    * cannot be iterated and reads as a single `NotAPair`. */
  datatype ConfigFile = NoFile | Unreadable | Document(user: map<string, Value>) | PairsDocument(items: seq<UpdateItem>)

  /** `config.update(items)` for a sequence: the pairs are applied in order up to the first
    * element that is not a pair, where `update` raises (the second component). */
  function UpdatePairs(config: map<string, Value>, items: seq<UpdateItem>): (r: (map<string, Value>, bool))
    ensures r.1 <==> exists k :: 0 <= k < |items| && items[k].NotAPair?
    ensures config.Keys <= r.0.Keys
    decreases |items|
  {
    if items == [] then (config, false)
    else
      assert forall k :: 1 <= k < |items| ==> items[k] == items[1..][k - 1];
      match items[0]
      case NotAPair => (config, true)
      case OtherKeyPair => UpdatePairs(config, items[1..])
      case Pair(key, value) => UpdatePairs(config[key := value], items[1..])
  }

  /** The check of `_load` after a successful update, with the repair on `ValueError`. */
  function Checked(config: map<string, Value>): map<string, Value> {
    match ValidateConfig(config)
    case Ok => config
    case RaisesValueError(_) => Repair(config, DefaultKeys)
    case RaisesTypeError(_) => config
  }

  /** The configuration after `_load`. An exception from `update` reaches the outer handler,
    * which keeps the pairs applied before it and skips the check. */
  function LoadedConfig(file: ConfigFile): map<string, Value> {
    match file
    case NoFile => DefaultConfig
    case Unreadable => DefaultConfig
    case Document(user) => Checked(DefaultConfig + user)
    case PairsDocument(items) =>
      var (config, raised) := UpdatePairs(DefaultConfig, items);
      if raised then config else Checked(config)
  }

  /** An update that meets a non-pair at position `n` keeps exactly the pairs before it. */
  lemma {:induction false} UpdatePairsStops(config: map<string, Value>, items: seq<UpdateItem>, n: nat)
    requires n < |items| && items[n].NotAPair?
    requires forall k :: 0 <= k < n ==> !items[k].NotAPair?
    ensures UpdatePairs(config, items) == (UpdatePairs(config, items[..n]).0, true)
    decreases n
  {
    if n > 0 {
      var next := match items[0] case Pair(key, value) => config[key := value] case _ => config;
      UpdatePairsStops(next, items[1..], n - 1);
      assert items[..n][1..] == items[1..][..n - 1];
    }
  }

  /** The values the pairs store are all hashable. */
  predicate PairsHashable(items: seq<UpdateItem>) {
    forall k :: 0 <= k < |items| && items[k].Pair? ==> Hashable(items[k].value)
  }

  /** Hashable pairs applied to a configuration of hashable values leave all values hashable. */
  lemma {:induction false} UpdatePairsHashable(config: map<string, Value>, items: seq<UpdateItem>)
    requires AllHashable(config) && PairsHashable(items)
    ensures AllHashable(UpdatePairs(config, items).0)
    decreases |items|
  {
    if items != [] {
      var next := match items[0] case Pair(key, value) => config[key := value] case _ => config;
      assert PairsHashable(items[1..]) by {
        forall k | 0 <= k < |items[1..]| && items[1..][k].Pair? ensures Hashable(items[1..][k].value) {
          assert items[1..][k] == items[k + 1];
        }
      }
      UpdatePairsHashable(next, items[1..]);
    }
  }

  /** `[["concurrent_downloads", 99], 0]`: the pair is applied, then `update` raises on the 0.
    * The outer handler skips the check, so the loaded configuration keeps 99 and fails
    * `validate_config`, although every value in the file is hashable. */
  lemma PartialUpdateEscapesCheck()
    ensures LoadedConfig(PairsDocument([Pair("concurrent_downloads", VInt(99)), NotAPair]))["concurrent_downloads"] == VInt(99)
    ensures ValidateConfig(LoadedConfig(PairsDocument([Pair("concurrent_downloads", VInt(99)), NotAPair]))) ==
      RaisesValueError("concurrent_downloads")
  {
    var items := [Pair("concurrent_downloads", VInt(99)), NotAPair];
    UpdatePairsStops(DefaultConfig, items, 1);
    assert items[..1][1..] == [];
    var config := DefaultConfig["concurrent_downloads" := VInt(99)];
    assert UpdatePairs(DefaultConfig, items[..1]).0 == config;
    assert KeyVerdict(config, "default_quality") == KeyVerdict(DefaultConfig, "default_quality");
  }


  /** The repair never breaks a key that was valid, and leaves every visited key that does not
    * start with '_' valid, as long as it meets no unhashable value. */
  lemma {:induction false} RepairFixes(config: map<string, Value>, keys: seq<string>)
    requires HasDefaults(keys) && AllHashable(config)
    ensures AllHashable(Repair(config, keys))
    ensures forall k :: KeyOk(config, k) ==> KeyOk(Repair(config, keys), k)
    ensures forall i :: 0 <= i < |keys| && !StartsWith(keys[i], "_") ==> KeyOk(Repair(config, keys), keys[i])
    decreases |keys|
  {
    if keys != [] {
      var key := keys[0];
      DefaultsSound();
      var next := if StartsWith(key, "_") || key !in config || !ValidateConfig(map[key := config[key]]).RaisesValueError?
        then config else config[key := DefaultConfig[key]];
      if key in config {
        ValidateSingle(key, config[key]);
      }
      assert Repair(config, keys) == Repair(next, keys[1..]);
      assert !StartsWith(key, "_") ==> KeyOk(next, key);
      assert forall k :: KeyOk(config, k) ==> KeyOk(next, k);
      RepairFixes(next, keys[1..]);
      forall i | 1 <= i < |keys| ensures keys[i] == keys[1..][i - 1] { }
    }
  }

  /** A file under which `_load` meets no exception outside the repair: an object of hashable
    * values, or a list of pairs of hashable values with no element that is not a pair. */
  predicate LoadsCleanly(file: ConfigFile) {
    match file
    case Document(user) => AllHashable(user)
    case PairsDocument(items) => PairsHashable(items) && forall k :: 0 <= k < |items| ==> !items[k].NotAPair?
    case _ => true
  }

  /** Checking and repairing a configuration of hashable values leaves it valid. */
  lemma CheckedValid(config: map<string, Value>)
    requires AllHashable(config)
    ensures ValidateConfig(Checked(config)).Ok?
  {
    if ValidateConfig(config).RaisesValueError? {
      DefaultKeysEnumerate();
      RepairFixes(config, DefaultKeys);
      CheckedKeysVisited();
      ValidateConfigOk(Repair(config, DefaultKeys));
    }
  }

  /** When the file loads cleanly (hashable values, and no list element that is not a pair),
    * the loaded configuration passes `validate_config`. */
  lemma LoadedConfigValid(file: ConfigFile)
    requires LoadsCleanly(file)
    ensures ValidateConfig(LoadedConfig(file)).Ok?
  {
    DefaultConfigValid();
    DefaultsSound();
    match file
    case Document(user) =>
      assert AllHashable(DefaultConfig + user);
      CheckedValid(DefaultConfig + user);
    case PairsDocument(items) =>
      UpdatePairsHashable(DefaultConfig, items);
      CheckedValid(UpdatePairs(DefaultConfig, items).0);
    case _ =>
  }

  /** The repair visits each checked key, and none of them starts with '_'. */
  lemma CheckedKeysVisited()
    ensures forall i :: 0 <= i < |CheckedKeys| ==> CheckedKeys[i] in DefaultKeys && !StartsWith(CheckedKeys[i], "_")
  {
    assert CheckedKeys[0] == DefaultKeys[0] && CheckedKeys[1] == DefaultKeys[2];
    assert CheckedKeys[2] == DefaultKeys[6] && CheckedKeys[3] == DefaultKeys[5];
    assert CheckedKeys[0][..1] == "d" && CheckedKeys[1][..1] == "c";
    assert CheckedKeys[2][..1] == "d" && CheckedKeys[3][..1] == "m";
  }

  /** A visited key whose value passes its own check is left as it is. */
  lemma RepairPasses(config: map<string, Value>, keys: seq<string>)
    requires HasDefaults(keys) && keys != [] && !StartsWith(keys[0], "_") && KeyOk(config, keys[0])
    ensures Repair(config, keys) == Repair(config, keys[1..])
  {
    if keys[0] in config {
      ValidateSingle(keys[0], config[keys[0]]);
    }
  }

  /** A list under `mp3_quality` makes the first check raise `TypeError`, which neither the
    * `except ValueError` around the check nor the repair catches: the loaded configuration keeps
    * the list and fails `validate_config`. */
  lemma UnhashableEscapesRepair()
    ensures LoadedConfig(Document(map["mp3_quality" := VList([])]))["mp3_quality"] == VList([])
    ensures ValidateConfig(LoadedConfig(Document(map["mp3_quality" := VList([])]))) == RaisesTypeError("mp3_quality")
  {
    var config := DefaultConfig + map["mp3_quality" := VList([])];
    assert config == DefaultConfig["mp3_quality" := VList([])];
    ValidateAfterLastKey(DefaultConfig, VList([]));
  }

  /** Replacing the value under `mp3_quality`, the last key checked, leaves the first three
    * verdicts as they were. */
  lemma ValidateAfterLastKey(config: map<string, Value>, v: Value)
    requires ValidateConfig(config).Ok?
    ensures ValidateConfig(config["mp3_quality" := v]) == KeyCheck("mp3_quality", v)
  {
    var next := config["mp3_quality" := v];
    assert KeyVerdict(next, "default_quality") == KeyVerdict(config, "default_quality");
    assert KeyVerdict(next, "concurrent_downloads") == KeyVerdict(config, "concurrent_downloads");
    assert KeyVerdict(next, "duplicate_action") == KeyVerdict(config, "duplicate_action");
  }

  /** The repair as evidently intended: any failing check, whatever it raises, restores the
    * default. */
  function RepairIntended(config: map<string, Value>, keys: seq<string>): (r: map<string, Value>)
    requires HasDefaults(keys)
    ensures r.Keys == config.Keys
  {
    if keys == [] then config
    else
      var key := keys[0];
      if StartsWith(key, "_") || key !in config || ValidateConfig(map[key := config[key]]).Ok? then RepairIntended(config, keys[1..])
      else RepairIntended(config[key := DefaultConfig[key]], keys[1..])
  }

  /** The corrected repair from position `i` of the keys on: the key there is skipped, kept or
    * reset to its default. */
  lemma RepairIntendedAt(config: map<string, Value>, keys: seq<string>, i: nat)
    requires HasDefaults(keys) && i < |keys|
    ensures HasDefaults(keys[i..]) && HasDefaults(keys[i + 1..])
    ensures var key, rest := keys[i], keys[i + 1..];
      RepairIntended(config, keys[i..]) ==
        if StartsWith(key, "_") || key !in config || ValidateConfig(map[key := config[key]]).Ok? then RepairIntended(config, rest)
        else RepairIntended(config[key := DefaultConfig[key]], rest)
  {
    assert keys[i..][0] == keys[i] && keys[i..][1..] == keys[i + 1..];
  }

  /** `_load` with the check and the repair catching every exception. */
  function LoadedConfigIntended(file: ConfigFile): map<string, Value> {
    match file
    case NoFile => DefaultConfig
    case Unreadable => DefaultConfig
    case Document(user) => CheckedIntended(DefaultConfig + user)
    case PairsDocument(items) =>
      var (config, raised) := UpdatePairs(DefaultConfig, items);
      if raised then DefaultConfig else CheckedIntended(config)
  }

  /** The corrected check and repair. A failed `update` gives the defaults, as the handler's
    * "Using defaults" message says. */
  function CheckedIntended(config: map<string, Value>): map<string, Value> {
    if ValidateConfig(config).Ok? then config else RepairIntended(config, DefaultKeys)
  }

  lemma {:induction false} RepairIntendedFixes(config: map<string, Value>, keys: seq<string>)
    requires HasDefaults(keys)
    ensures forall k :: KeyOk(config, k) ==> KeyOk(RepairIntended(config, keys), k)
    ensures forall i :: 0 <= i < |keys| && !StartsWith(keys[i], "_") ==> KeyOk(RepairIntended(config, keys), keys[i])
    decreases |keys|
  {
    if keys != [] {
      var key := keys[0];
      DefaultsSound();
      var next := if StartsWith(key, "_") || key !in config || ValidateConfig(map[key := config[key]]).Ok?
        then config else config[key := DefaultConfig[key]];
      if key in config {
        ValidateSingle(key, config[key]);
      }
      assert RepairIntended(config, keys) == RepairIntended(next, keys[1..]);
      assert !StartsWith(key, "_") ==> KeyOk(next, key);
      assert forall k :: KeyOk(config, k) ==> KeyOk(next, k);
      RepairIntendedFixes(next, keys[1..]);
      forall i | 1 <= i < |keys| ensures keys[i] == keys[1..][i - 1] { }
    }
  }

  /** With every exception caught, the loaded configuration always passes `validate_config`. */
  lemma LoadedConfigIntendedValid(file: ConfigFile)
    ensures ValidateConfig(LoadedConfigIntended(file)).Ok?
  {
    DefaultConfigValid();
    match file
    case Document(user) => CheckedIntendedValid(DefaultConfig + user);
    case PairsDocument(items) => CheckedIntendedValid(UpdatePairs(DefaultConfig, items).0);
    case _ =>
  }

  /** The corrected check and repair always leave a valid configuration. */
  lemma CheckedIntendedValid(config: map<string, Value>)
    ensures ValidateConfig(CheckedIntended(config)).Ok?
  {
    if !ValidateConfig(config).Ok? {
      DefaultKeysEnumerate();
      RepairIntendedFixes(config, DefaultKeys);
      CheckedKeysVisited();
      ValidateConfigOk(RepairIntended(config, DefaultKeys));
    }
  }

  /** `get(key, default)` on a dictionary. */
  function Lookup(config: map<string, Value>, key: string, default: Value): (r: Value)
    ensures key !in config ==> r == default
    ensures key in config ==> r == config[key]
  {
    if key in config then config[key] else default
  }

  // ---------------------------------------------------------------------------
  // The manager

  /** `ConfigManager` holding the loaded configuration. */
  class ConfigManager {
    var config: map<string, Value>

    /** The constructor loads the configuration; `file` is what the file holds. */
    constructor(file: ConfigFile)
      ensures config == LoadedConfig(file)
      ensures LoadsCleanly(file) ==> ValidateConfig(config).Ok?
    {
      config := map[];
      new;
      Load(file);
    }

    /** `_load`: the defaults, updated by the file, then checked and repaired. An exception
      * from the update, or a `TypeError` from the check or from the repair, is caught by the
      * outer handler, which keeps the configuration as it stands at that point. */
    method Load(file: ConfigFile)
      modifies this
      ensures config == LoadedConfig(file)
      ensures LoadsCleanly(file) ==> ValidateConfig(config).Ok?
    {
      config := DefaultConfig;
      var raised := false;
      match file {
        case Document(user) =>
          config := config + user;
        case PairsDocument(items) =>
          var updated := UpdatePairs(config, items);
          config, raised := updated.0, updated.1;
        case _ =>
          return;
      }
      if !raised {
        var verdict := ValidateConfig(config);
        if verdict.RaisesValueError? {
          RepairLoop();
        }
      }
      if LoadsCleanly(file) {
        LoadedConfigValid(file);
      }
    }

    /** The loop of `_load` that re-applies the default of every key whose own check raises
      * `ValueError`; a `TypeError` leaves the loop at once. */
    method RepairLoop()
      modifies this
      ensures config == Repair(old(config), DefaultKeys)
    {
      ghost var start := config;
      DefaultKeysEnumerate();
      for i := 0 to |DefaultKeys|
        invariant Repair(config, DefaultKeys[i..]) == Repair(start, DefaultKeys)
      {
        var key := DefaultKeys[i];
        RepairAt(config, DefaultKeys, i);
        if StartsWith(key, "_") {
          continue;
        }
        if key in config {
          var verdict := ValidateConfig(map[key := config[key]]);
          if verdict.RaisesTypeError? {
            return;
          }
          if verdict.RaisesValueError? {
            config := config[key := DefaultConfig[key]];
          }
        }
      }
    }

    /** `save`: it validates first and writes only a valid configuration; `written` is whether
      * the write succeeds. Nothing in memory changes. */
    method Save(written: bool) returns (ok: bool)
      ensures ok <==> ValidateConfig(config).Ok? && written
    {
      ok := ValidateConfig(config).Ok? && written;
    }

    /** `get`. */
    function Get(key: string, default: Value): (r: Value)
      reads this
      ensures key !in config ==> r == default
      ensures key in config ==> r == config[key]
    {
      Lookup(config, key, default)
    }

    /** `set`: an invalid value raises and changes nothing; a valid one is stored under its key
      * and nothing else changes. Saving is outside the model. */
    method Set(key: string, value: Value) returns (verdict: Verdict)
      modifies this
      ensures verdict == KeyCheck(key, value)
      ensures verdict.Ok? ==> config == old(config)[key := value]
      ensures !verdict.Ok? ==> config == old(config)
    {
      verdict := ValidateConfig(map[key := value]);
      ValidateSingle(key, value);
      if verdict.Ok? {
        config := config[key := value];
      }
    }

    /** `update`: all or nothing. */
    method Update(updates: map<string, Value>) returns (verdict: Verdict)
      modifies this
      ensures verdict == ValidateConfig(updates)
      ensures verdict.Ok? ==> config == old(config) + updates
      ensures !verdict.Ok? ==> config == old(config)
    {
      verdict := ValidateConfig(updates);
      if verdict.Ok? {
        config := config + updates;
      }
    }
  }

  /** After a successful `set`, `get` returns the new value and every other key reads as before. */
  lemma SetThenGet(config: map<string, Value>, key: string, value: Value, other: string, default: Value)
    requires other != key
    ensures Lookup(config[key := value], key, default) == value
    ensures Lookup(config[key := value], other, default) == Lookup(config, other, default)
  {
  }

  /** `update` with values that pass changes exactly the updated keys. */
  lemma UpdateThenGet(config: map<string, Value>, updates: map<string, Value>, key: string, default: Value)
    ensures key in updates ==> Lookup(config + updates, key, default) == updates[key]
    ensures key !in updates ==> Lookup(config + updates, key, default) == Lookup(config, key, default)
  {
  }
}
