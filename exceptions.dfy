/**
 * The exception hierarchy (tea/exceptions.py): how each constructor fills the `details`
 * dictionary, which object ends up as the error's `details`, and how `__str__` renders it.
 * The six subclasses differ only in the detail keys they add, so an error carries its subclass
 * and that subclass's own attributes as an `ErrorKind`. Detail values are kept as the text
 * `str` gives them, which is all `__str__` uses.
 */
module Exceptions {
  import opened Wrappers
  import opened Text

  /** An insertion-ordered dictionary, as its item list. */
  type Items = seq<(string, string)>

  function Keys(items: Items): (r: seq<string>)
    ensures |r| == |items| && forall i :: 0 <= i < |items| ==> r[i] == items[i].0
  {
    if items == [] then [] else [items[0].0] + Keys(items[1..])
  }

  predicate DistinctKeys(items: Items) {
    forall i, j :: 0 <= i < j < |items| ==> items[i].0 != items[j].0
  }

  /** `d.get(k)`. */
  function Lookup(items: Items, k: string): (r: Option<string>)
    ensures r.None? <==> k !in Keys(items)
    ensures r.Some? ==> (k, r.value) in items
  {
    if items == [] then None
    else if items[0].0 == k then Some(items[0].1)
    else Lookup(items[1..], k)
  }

  /** `d[k] = v`: an existing key keeps its place and takes the new value; a new key goes last. */
  function PutItem(items: Items, k: string, v: string): (r: Items)
    ensures |r| >= |items|
  {
    if items == [] then [(k, v)]
    else if items[0].0 == k then [(k, v)] + items[1..]
    else [items[0]] + PutItem(items[1..], k, v)
  }

  /** After `d[k] = v`, `k` maps to `v` and every other key to what it did before. */
  lemma {:induction false} PutItemLookup(items: Items, k: string, v: string, j: string)
    ensures Lookup(PutItem(items, k, v), k) == Some(v)
    ensures j != k ==> Lookup(PutItem(items, k, v), j) == Lookup(items, j)
    decreases |items|
  {
    if items != [] && items[0].0 != k {
      PutItemLookup(items[1..], k, v, j);
      assert PutItem(items, k, v)[1..] == PutItem(items[1..], k, v);
    }
  }

  /** A new key is appended at the end; an existing key leaves the key order as it was. */
  lemma {:induction false} PutItemOrder(items: Items, k: string, v: string)
    ensures k !in Keys(items) ==> PutItem(items, k, v) == items + [(k, v)]
    ensures k in Keys(items) ==> Keys(PutItem(items, k, v)) == Keys(items)
    decreases |items|
  {
    if items != [] {
      assert Keys(items) == [items[0].0] + Keys(items[1..]);
      if items[0].0 != k {
        PutItemOrder(items[1..], k, v);
        var rest := PutItem(items[1..], k, v);
        assert Keys([items[0]] + rest) == [items[0].0] + Keys(rest);
        if k !in Keys(items) {
          assert [items[0]] + (items[1..] + [(k, v)]) == items + [(k, v)];
        }
      } else {
        assert Keys([(k, v)] + items[1..]) == [k] + Keys(items[1..]);
      }
    }
  }

  /** A sequence of `d[k] = v` writes, in order. */
  function PutAll(items: Items, writes: Items): Items
    decreases |writes|
  {
    if writes == [] then items else PutAll(PutItem(items, writes[0].0, writes[0].1), writes[1..])
  }

  /** The subclass of an error together with the constructor arguments it keeps. */
  datatype ErrorKind =
    | Base
    | Download(url: Option<string>, retryCount: Option<int>)
    | Validation(field: Option<string>, value: Option<string>)
    | Configuration(configPath: Option<string>, configKey: Option<string>)
    | FFmpeg(command: Option<string>, exitCode: Option<int>)
    | History(historyPath: Option<string>)
    | Timestamp(timestampValue: Option<string>)
    | Search(query: Option<string>)

  /** Python truthiness of an optional string: present and non-empty. */
  predicate Truthy(s: Option<string>) {
    s.Some? && s.value != ""
  }

  /** `if value: details[key] = value`. */
  function IfTruthy(key: string, s: Option<string>): Items {
    if Truthy(s) then [(key, s.value)] else []
  }

  /** `if value is not None: details[key] = str(value)` for an integer. */
  function IfPresent(key: string, n: Option<int>): Items {
    if n.Some? then [(key, IntToString(n.value))] else []
  }

  /** The key the constructor's first `if` may write. */
  function FirstWrite(kind: ErrorKind): (r: Items)
    ensures |r| <= 1
  {
    match kind
    case Base => []
    case Download(url, _) => IfTruthy("url", url)
    case Validation(field, _) => IfTruthy("field", field)
    case Configuration(configPath, _) => IfTruthy("config_path", configPath)
    case FFmpeg(command, _) => IfTruthy("command", command)
    case History(historyPath) => IfTruthy("history_path", historyPath)
    case Timestamp(timestampValue) => IfTruthy("timestamp", timestampValue)
    case Search(query) => IfTruthy("query", query)
  }

  /** The key the constructor's second `if`, where there is one, may write. */
  function SecondWrite(kind: ErrorKind): (r: Items)
    ensures |r| <= 1
  {
    match kind
    case Download(_, retryCount) => IfPresent("retry_count", retryCount)
    case Validation(_, value) => if value.Some? then [("value", value.value)] else []
    case Configuration(_, configKey) => IfTruthy("config_key", configKey)
    case FFmpeg(_, exitCode) => IfPresent("exit_code", exitCode)
    case _ => []
  }

  /** The writes each constructor makes into its details dictionary, in order. */
  function KindDetails(kind: ErrorKind): Items {
    FirstWrite(kind) + SecondWrite(kind)
  }

  /** Writes made in two batches. */
  lemma {:induction false} PutAllAppend(base: Items, a: Items, b: Items)
    ensures PutAll(base, a + b) == PutAll(PutAll(base, a), b)
    decreases |a|
  {
    if a == [] {
      assert [] + b == b;
    } else {
      assert (a + b)[0] == a[0] && (a + b)[1..] == a[1..] + b;
      PutAllAppend(PutItem(base, a[0].0, a[0].1), a[1..], b);
    }
  }

  /** After writes under distinct keys, a written key holds its written value and any other
    * key what the starting dictionary held. */
  lemma {:induction false} PutAllLookup(base: Items, writes: Items, key: string)
    requires DistinctKeys(writes)
    ensures Lookup(PutAll(base, writes), key) == if key in Keys(writes) then Lookup(writes, key) else Lookup(base, key)
    decreases |writes|
  {
    if writes != [] {
      var (k, v) := writes[0];
      var rest := writes[1..];
      assert Keys(writes) == [k] + Keys(rest);
      assert DistinctKeys(rest);
      PutAllLookup(PutItem(base, k, v), rest, key);
      PutItemLookup(base, k, v, key);
      if key == k {
        assert key !in Keys(rest);
      }
    }
  }

  /** The keys one constructor writes are distinct. */
  lemma KindDetailsDistinct(kind: ErrorKind)
    ensures DistinctKeys(KindDetails(kind))
  {
  }

  /** `DownloadError` adds "url" only for a non-empty URL and "retry_count" for any count that
    * is not `None`, zero included; other keys keep what the caller's dictionary held. */
  lemma DownloadDetails(base: Items, url: Option<string>, retryCount: Option<int>, key: string)
    ensures var d := PutAll(base, KindDetails(Download(url, retryCount)));
      && Lookup(d, "url") == (if Truthy(url) then url else Lookup(base, "url"))
      && Lookup(d, "retry_count") == (if retryCount.Some? then Some(IntToString(retryCount.value)) else Lookup(base, "retry_count"))
      && (key != "url" && key != "retry_count" ==> Lookup(d, key) == Lookup(base, key))
  {
    var writes := KindDetails(Download(url, retryCount));
    KindDetailsDistinct(Download(url, retryCount));
    PutAllLookup(base, writes, "url");
    PutAllLookup(base, writes, "retry_count");
    PutAllLookup(base, writes, key);
  }

  /** `ValidationError` adds "field" when it is non-empty and "value" whenever it is not
    * `None`, an empty text included. */
  lemma ValidationDetails(base: Items, field: Option<string>, value: Option<string>, key: string)
    ensures var d := PutAll(base, KindDetails(Validation(field, value)));
      && Lookup(d, "field") == (if Truthy(field) then field else Lookup(base, "field"))
      && Lookup(d, "value") == (if value.Some? then value else Lookup(base, "value"))
      && (key != "field" && key != "value" ==> Lookup(d, key) == Lookup(base, key))
  {
    var writes := KindDetails(Validation(field, value));
    KindDetailsDistinct(Validation(field, value));
    PutAllLookup(base, writes, "field");
    PutAllLookup(base, writes, "value");
    PutAllLookup(base, writes, key);
  }

  /** `ConfigurationError` adds each of its two keys only when non-empty. */
  lemma ConfigurationDetails(base: Items, configPath: Option<string>, configKey: Option<string>, key: string)
    ensures var d := PutAll(base, KindDetails(Configuration(configPath, configKey)));
      && Lookup(d, "config_path") == (if Truthy(configPath) then configPath else Lookup(base, "config_path"))
      && Lookup(d, "config_key") == (if Truthy(configKey) then configKey else Lookup(base, "config_key"))
      && (key != "config_path" && key != "config_key" ==> Lookup(d, key) == Lookup(base, key))
  {
    var writes := KindDetails(Configuration(configPath, configKey));
    KindDetailsDistinct(Configuration(configPath, configKey));
    PutAllLookup(base, writes, "config_path");
    PutAllLookup(base, writes, "config_key");
    PutAllLookup(base, writes, key);
  }

  /** `FFmpegError` adds "command" when non-empty and "exit_code" whenever it is not `None`. */
  lemma FFmpegDetails(base: Items, command: Option<string>, exitCode: Option<int>, key: string)
    ensures var d := PutAll(base, KindDetails(FFmpeg(command, exitCode)));
      && Lookup(d, "command") == (if Truthy(command) then command else Lookup(base, "command"))
      && Lookup(d, "exit_code") == (if exitCode.Some? then Some(IntToString(exitCode.value)) else Lookup(base, "exit_code"))
      && (key != "command" && key != "exit_code" ==> Lookup(d, key) == Lookup(base, key))
  {
    var writes := KindDetails(FFmpeg(command, exitCode));
    KindDetailsDistinct(FFmpeg(command, exitCode));
    PutAllLookup(base, writes, "command");
    PutAllLookup(base, writes, "exit_code");
    PutAllLookup(base, writes, key);
  }

  /** `HistoryError`, `TimestampError` and `SearchError` each add their one key only when the
    * argument is non-empty; `TimestampError` files its argument under "timestamp". */
  lemma SingleKeyDetails(base: Items, kind: ErrorKind, key: string)
    requires kind.History? || kind.Timestamp? || kind.Search?
    ensures var (name, arg) := match kind
        case History(p) => ("history_path", p)
        case Timestamp(t) => ("timestamp", t)
        case Search(q) => ("query", q);
      var d := PutAll(base, KindDetails(kind));
      && Lookup(d, name) == (if Truthy(arg) then arg else Lookup(base, name))
      && (key != name ==> Lookup(d, key) == Lookup(base, key))
  {
    var name := match kind
      case History(_) => "history_path"
      case Timestamp(_) => "timestamp"
      case Search(_) => "query";
    KindDetailsDistinct(kind);
    PutAllLookup(base, KindDetails(kind), name);
    PutAllLookup(base, KindDetails(kind), key);
  }

  // ---------------------------------------------------------------------------
  // Rendering

  function Pair(item: (string, string)): string {
    item.0 + "=" + item.1
  }

  /** `", ".join(f"{k}={v}" for k, v in items)`. */
  function JoinPairs(items: Items): (r: string)
    decreases |items|
  {
    if items == [] then ""
    else if |items| == 1 then Pair(items[0])
    else JoinPairs(items[..|items| - 1]) + ", " + Pair(items[|items| - 1])
  }

  /** `TeaError.__str__` on a message and the details' items. */
  function Render(message: string, items: Items): (r: string)
    ensures StartsWith(r, message)
  {
    if items == [] then message else message + " (" + JoinPairs(items) + ")"
  }

  /** The bare message is rendered exactly when there are no details. */
  lemma RenderBare(message: string, items: Items)
    ensures Render(message, items) == message <==> items == []
  {
    if items != [] {
      assert |Render(message, items)| > |message|;
    }
  }

  /** Rendering follows insertion order: a detail added under a new key shows up last, after a
    * comma, inside the closing parenthesis. */
  lemma RenderAppend(message: string, items: Items, k: string, v: string)
    requires items != []
    ensures var r := Render(message, items);
      Render(message, items + [(k, v)]) == r[..|r| - 1] + ", " + k + "=" + v + ")"
  {
    var longer := items + [(k, v)];
    assert longer[..|longer| - 1] == items && longer[|longer| - 1] == (k, v);
    var j := JoinPairs(items);
    var a := message + " (" + j;
    var r := Render(message, items);
    assert r == a + ")";
    assert r[..|r| - 1] == a;
    assert JoinPairs(longer) == j + ", " + Pair((k, v));
    assert message + " (" + (j + ", " + Pair((k, v))) == a + ", " + Pair((k, v));
    assert a + ", " + Pair((k, v)) + ")" == a + ", " + k + "=" + v + ")";
  }

  /** Every detail appears in the rendering as `key=value`. */
  lemma {:induction false} JoinShowsEach(items: Items, i: nat)
    requires i < |items|
    ensures Contains(JoinPairs(items), Pair(items[i]))
    decreases |items|
  {
    var n := |items|;
    if n == 1 {
      ContainsAt(Pair(items[0]), Pair(items[0]), 0);
    } else if i == n - 1 {
      var p := Pair(items[i]);
      ContainsAt(p, p, 0);
      ContainsAppendLeft(JoinPairs(items[..n - 1]) + ", ", p, p);
    } else {
      JoinShowsEach(items[..n - 1], i);
      assert items[..n - 1][i] == items[i];
      ContainsAppendRight(JoinPairs(items[..n - 1]), ", " + Pair(items[n - 1]), Pair(items[i]));
      assert JoinPairs(items[..n - 1]) + ", " + Pair(items[n - 1]) == JoinPairs(items[..n - 1]) + (", " + Pair(items[n - 1]));
    }
  }

  lemma RenderShowsEach(message: string, items: Items)
    ensures forall i :: 0 <= i < |items| ==> Contains(Render(message, items), Pair(items[i]))
  {
    forall i | 0 <= i < |items| ensures Contains(Render(message, items), Pair(items[i])) {
      JoinShowsEach(items, i);
      ContainsAppendLeft(message + " (", JoinPairs(items), Pair(items[i]));
      ContainsAppendRight(message + " (" + JoinPairs(items), ")", Pair(items[i]));
    }
  }

  // ---------------------------------------------------------------------------
  // The objects

  /** A details dictionary, an object that callers and the error may share. */
  class Details {
    var items: Items

    constructor()
      ensures items == []
    {
      items := [];
    }

    /** `details[k] = v`. */
    method Put(k: string, v: string)
      modifies this
      ensures items == PutItem(old(items), k, v)
    {
      items := PutItem(items, k, v);
    }

    /** One `if ...: details[key] = value` of a constructor: no write, or one. */
    method PutIf(write: Items)
      requires |write| <= 1
      modifies this
      ensures items == PutAll(old(items), write)
    {
      if write != [] {
        Put(write[0].0, write[0].1);
      }
    }
  }

  /** A `TeaError` or one of its subclasses. */
  class TeaError {
    var message: string
    var kind: ErrorKind
    var details: Details

    /** The subclass constructor followed by `TeaError.__init__`. `details or {}` keeps the
      * caller's dictionary only when it is not empty, and then writes into it; otherwise the
      * error gets a dictionary of its own and the caller's is left alone. */
    constructor(message: string, kind: ErrorKind, details: Details?)
      modifies details
      ensures this.message == message && this.kind == kind
      ensures this.details.items == PutAll(if details != null then old(details.items) else [], KindDetails(kind))
      ensures details != null && old(details.items) != [] ==> this.details == details
      ensures details == null || old(details.items) == [] ==> fresh(this.details)
      ensures details != null && old(details.items) == [] ==> details.items == []
    {
      var target: Details;
      if details != null && details.items != [] {
        target := details;
      } else {
        target := new Details();
      }
      ghost var base := target.items;
      target.PutIf(FirstWrite(kind));
      target.PutIf(SecondWrite(kind));
      PutAllAppend(base, FirstWrite(kind), SecondWrite(kind));
      // `TeaError.__init__` applies `details or {}` once more.
      if target.items == [] {
        target := new Details();
      }
      this.message := message;
      this.kind := kind;
      this.details := target;
    }

    /** `__str__`. */
    function ToString(): (r: string)
      reads this, details
      ensures details.items == [] ==> r == message
      ensures forall i :: 0 <= i < |details.items| ==> Contains(r, Pair(details.items[i]))
    {
      RenderShowsEach(message, details.items);
      Render(message, details.items)
    }
  }
}
