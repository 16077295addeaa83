/**
 * The download history (tea/history.py): a JSON object mapping each date to the list of downloads
 * made that day. Python dictionaries keep insertion order, so the history is an ordered sequence of
 * partitions with distinct dates; loading and saving the file are outside the model.
 */
module History {
  import opened Wrappers

  /** One download record, with the four keys `add` writes. */
  datatype Entry = Entry(url: string, title: string, outputPath: string, timestamp: string)

  /** The downloads of one date. */
  datatype Partition = Partition(date: string, downloads: seq<Entry>)

  /** Keys of a dictionary are distinct. */
  predicate DistinctDates(h: seq<Partition>) {
    forall i, j :: 0 <= i < j < |h| ==> h[i].date != h[j].date
  }

  /** All entries in partition order, then entry order: the order the nested loops visit. */
  function Flatten(h: seq<Partition>): seq<Entry> {
    if h == [] then [] else h[0].downloads + Flatten(h[1..])
  }

  lemma {:induction false} FlattenAppend(a: seq<Partition>, b: seq<Partition>)
    ensures Flatten(a + b) == Flatten(a) + Flatten(b)
    decreases |a|
  {
    if a == [] {
      assert a + b == b;
    } else {
      assert (a + b)[0] == a[0] && (a + b)[1..] == a[1..] + b;
      FlattenAppend(a[1..], b);
    }
  }

  lemma FlattenNext(h: seq<Partition>, i: nat)
    requires i < |h|
    ensures Flatten(h[..i + 1]) == Flatten(h[..i]) + h[i].downloads
  {
    assert h[..i + 1] == h[..i] + [h[i]];
    FlattenAppend(h[..i], [h[i]]);
    assert Flatten([h[i]]) == h[i].downloads + Flatten([]);
  }

  /** The position of `date` among the keys. */
  function DateIndex(h: seq<Partition>, date: string): (r: Option<nat>)
    ensures r.Some? ==> r.value < |h| && h[r.value].date == date
    ensures r.None? ==> forall i :: 0 <= i < |h| ==> h[i].date != date
    ensures r.Some? ==> forall i :: 0 <= i < r.value ==> h[i].date != date
  {
    if h == [] then None
    else if h[0].date == date then Some(0)
    else match DateIndex(h[1..], date)
      case None => None
      case Some(i) => Some(i + 1)
  }

  /** `history.get(date, [])`. */
  function Downloads(h: seq<Partition>, date: string): seq<Entry> {
    match DateIndex(h, date)
    case None => []
    case Some(i) => h[i].downloads
  }

  /** The dates, in key order. */
  function Dates(h: seq<Partition>): (r: seq<string>)
    ensures |r| == |h| && forall i :: 0 <= i < |h| ==> r[i] == h[i].date
  {
    if h == [] then [] else [h[0].date] + Dates(h[1..])
  }

  // ---------------------------------------------------------------------------
  // add

  /** The history after `add`: `e` goes at the end of the partition of `date`, which is created
    * at the end of the dictionary when absent. */
  function AddEntry(h: seq<Partition>, date: string, e: Entry): seq<Partition> {
    match DateIndex(h, date)
    case None => h + [Partition(date, [e])]
    case Some(i) => h[i := Partition(date, h[i].downloads + [e])]
  }

  /** `add` appends exactly `e` to today's downloads, creates today's date last when it is new,
    * keeps the dates distinct and leaves every other date's downloads as they were. */
  lemma AddEntryEffect(h: seq<Partition>, date: string, e: Entry)
    requires DistinctDates(h)
    ensures DistinctDates(AddEntry(h, date, e))
    ensures Downloads(AddEntry(h, date, e), date) == Downloads(h, date) + [e]
    ensures forall d :: d != date ==> Downloads(AddEntry(h, date, e), d) == Downloads(h, d)
    ensures Dates(AddEntry(h, date, e)) == if date in Dates(h) then Dates(h) else Dates(h) + [date]
  {
    var r := AddEntry(h, date, e);
    match DateIndex(h, date)
    case None =>
      assert date !in Dates(h);
      AddNewDate(h, date, e);
    case Some(i) =>
      assert date in Dates(h) by {
        assert Dates(h)[i] == date;
      }
      AddExistingDate(h, date, e, i);
  }

  lemma AddNewDate(h: seq<Partition>, date: string, e: Entry)
    requires DistinctDates(h) && DateIndex(h, date).None?
    ensures DistinctDates(h + [Partition(date, [e])])
    ensures Downloads(h + [Partition(date, [e])], date) == [e]
    ensures forall d :: d != date ==> Downloads(h + [Partition(date, [e])], d) == Downloads(h, d)
    ensures Dates(h + [Partition(date, [e])]) == Dates(h) + [date]
  {
    var p := Partition(date, [e]);
    forall d ensures Downloads(h + [p], d) == if d == date then [e] else Downloads(h, d) {
      DateIndexAppend(h, p, d);
    }
    NewDateDistinct(h, p);
    DatesAppend(h, p);
  }

  lemma NewDateDistinct(h: seq<Partition>, p: Partition)
    requires DistinctDates(h) && forall i :: 0 <= i < |h| ==> h[i].date != p.date
    ensures DistinctDates(h + [p])
  {
    var r := h + [p];
    forall i, j | 0 <= i < j < |r| ensures r[i].date != r[j].date {
      assert r[i] == h[i];
      if j < |h| {
        assert r[j] == h[j];
      }
    }
  }

  lemma {:induction false} DatesAppend(h: seq<Partition>, p: Partition)
    ensures Dates(h + [p]) == Dates(h) + [p.date]
    decreases |h|
  {
    if h == [] {
      assert h + [p] == [p];
    } else {
      assert (h + [p])[0] == h[0] && (h + [p])[1..] == h[1..] + [p];
      DatesAppend(h[1..], p);
    }
  }

  lemma {:induction false} DateIndexAppend(h: seq<Partition>, p: Partition, d: string)
    ensures DateIndex(h + [p], d) ==
      if DateIndex(h, d).Some? then DateIndex(h, d) else if p.date == d then Some(|h|) else None
    decreases |h|
  {
    if h == [] {
      assert h + [p] == [p];
    } else {
      assert (h + [p])[0] == h[0] && (h + [p])[1..] == h[1..] + [p];
      DateIndexAppend(h[1..], p, d);
    }
  }

  lemma AddExistingDate(h: seq<Partition>, date: string, e: Entry, i: nat)
    requires DistinctDates(h) && DateIndex(h, date) == Some(i)
    ensures var r := h[i := Partition(date, h[i].downloads + [e])];
      DistinctDates(r) && Downloads(r, date) == h[i].downloads + [e]
      && (forall d :: d != date ==> Downloads(r, d) == Downloads(h, d)) && Dates(r) == Dates(h)
  {
    var r := h[i := Partition(date, h[i].downloads + [e])];
    forall d ensures DateIndex(r, d) == DateIndex(h, d) {
      SameDatesSameIndex(h, r, d);
    }
  }

  lemma {:induction false} SameDatesSameIndex(h: seq<Partition>, r: seq<Partition>, d: string)
    requires |h| == |r| && forall k :: 0 <= k < |h| ==> h[k].date == r[k].date
    ensures DateIndex(r, d) == DateIndex(h, d)
    decreases |h|
  {
    if h != [] {
      assert h[0].date == r[0].date;
      SameDatesSameIndex(h[1..], r[1..], d);
    }
  }

  /** Replacing one partition replaces its downloads in the flattened history. */
  lemma FlattenUpdate(h: seq<Partition>, i: nat, p: Partition)
    requires i < |h|
    ensures Flatten(h[i := p]) == Flatten(h[..i]) + (p.downloads + Flatten(h[i + 1..]))
    ensures Flatten(h) == Flatten(h[..i]) + (h[i].downloads + Flatten(h[i + 1..]))
  {
    assert h[i := p] == h[..i] + ([p] + h[i + 1..]);
    assert h == h[..i] + ([h[i]] + h[i + 1..]);
    FlattenAppend(h[..i], [p] + h[i + 1..]);
    FlattenAppend(h[..i], [h[i]] + h[i + 1..]);
    FlattenCons(p, h[i + 1..]);
    FlattenCons(h[i], h[i + 1..]);
  }

  lemma FlattenCons(p: Partition, h: seq<Partition>)
    ensures Flatten([p] + h) == p.downloads + Flatten(h)
  {
    assert ([p] + h)[0] == p && ([p] + h)[1..] == h;
  }

  /** `add` makes no duplicate check: each call adds one more occurrence of its entry. */
  lemma AddEntryCounts(h: seq<Partition>, date: string, e: Entry)
    ensures multiset(Flatten(AddEntry(h, date, e))) == multiset(Flatten(h)) + multiset{e}
  {
    match DateIndex(h, date)
    case None =>
      FlattenAppend(h, [Partition(date, [e])]);
      FlattenCons(Partition(date, [e]), []);
      assert Flatten([Partition(date, [e])]) == [e] + [];
    case Some(i) =>
      FlattenUpdate(h, i, Partition(date, h[i].downloads + [e]));
      MultisetSplice(Flatten(h[..i]), h[i].downloads, e, Flatten(h[i + 1..]));
  }

  lemma MultisetSplice(a: seq<Entry>, ds: seq<Entry>, e: Entry, b: seq<Entry>)
    ensures multiset(a + ((ds + [e]) + b)) == multiset(a + (ds + b)) + multiset{e}
  {
  }

  // ---------------------------------------------------------------------------
  // is_downloaded

  /** The first entry with this URL. */
  function FirstWithUrl(es: seq<Entry>, url: string): (r: Option<Entry>)
    ensures r.Some? ==> r.value in es && r.value.url == url
    ensures r.None? <==> forall k :: 0 <= k < |es| ==> es[k].url != url
  {
    if es == [] then None
    else if es[0].url == url then Some(es[0])
    else FirstWithUrl(es[1..], url)
  }

  /** The entry found is the first with the URL: no earlier entry has it. */
  lemma {:induction false} FirstWithUrlIsFirst(es: seq<Entry>, url: string)
    requires FirstWithUrl(es, url).Some?
    ensures exists k :: (0 <= k < |es| && es[k] == FirstWithUrl(es, url).value &&
                         forall j :: 0 <= j < k ==> es[j].url != url)
    decreases |es|
  {
    if es[0].url != url {
      FirstWithUrlIsFirst(es[1..], url);
      var k :| 0 <= k < |es[1..]| && es[1..][k] == FirstWithUrl(es[1..], url).value &&
        (forall j :: 0 <= j < k ==> es[1..][j].url != url);
      assert es[k + 1] == es[1..][k];
      forall j | 0 <= j < k + 1 ensures es[j].url != url {
        if j > 0 {
          assert es[j] == es[1..][j - 1];
        }
      }
    } else {
      assert es[0] == FirstWithUrl(es, url).value;
    }
  }

  lemma {:induction false} FirstWithUrlAppend(a: seq<Entry>, b: seq<Entry>, url: string)
    ensures FirstWithUrl(a + b, url) == if FirstWithUrl(a, url).Some? then FirstWithUrl(a, url) else FirstWithUrl(b, url)
    decreases |a|
  {
    if a == [] {
      assert a + b == b;
    } else {
      assert (a + b)[0] == a[0] && (a + b)[1..] == a[1..] + b;
      FirstWithUrlAppend(a[1..], b, url);
    }
  }

  // ---------------------------------------------------------------------------
  // remove

  /** `[d for d in downloads if d.get('url') != url]`. */
  function WithoutUrl(ds: seq<Entry>, url: string): (r: seq<Entry>)
    ensures |r| <= |ds|
    ensures forall k :: 0 <= k < |r| ==> r[k].url != url
    ensures forall e :: e in r ==> e in ds
  {
    if ds == [] then [] else (if ds[0].url != url then [ds[0]] else []) + WithoutUrl(ds[1..], url)
  }

  /** Filtering shortens a list exactly when some entry has the URL. */
  lemma {:induction false} WithoutUrlShorter(ds: seq<Entry>, url: string)
    ensures |WithoutUrl(ds, url)| < |ds| <==> exists k :: 0 <= k < |ds| && ds[k].url == url
    decreases |ds|
  {
    if ds != [] {
      WithoutUrlShorter(ds[1..], url);
      if exists k :: 0 <= k < |ds[1..]| && ds[1..][k].url == url {
        var k :| 0 <= k < |ds[1..]| && ds[1..][k].url == url;
        assert ds[k + 1].url == url;
      }
      if exists k :: 0 <= k < |ds| && ds[k].url == url {
        var k :| 0 <= k < |ds| && ds[k].url == url;
        if k > 0 {
          assert ds[1..][k - 1].url == url;
        }
      }
    }
  }

  lemma {:induction false} WithoutUrlAppend(a: seq<Entry>, b: seq<Entry>, url: string)
    ensures WithoutUrl(a + b, url) == WithoutUrl(a, url) + WithoutUrl(b, url)
    decreases |a|
  {
    if a == [] {
      assert a + b == b;
    } else {
      assert (a + b)[0] == a[0] && (a + b)[1..] == a[1..] + b;
      WithoutUrlAppend(a[1..], b, url);
    }
  }

  /** The first loop of `remove`: each date's downloads without the URL, keys in place. */
  function FilterPartitions(h: seq<Partition>, url: string): (r: seq<Partition>)
    ensures |r| == |h|
    ensures forall i :: 0 <= i < |h| ==> r[i].date == h[i].date
  {
    if h == [] then [] else [Partition(h[0].date, WithoutUrl(h[0].downloads, url))] + FilterPartitions(h[1..], url)
  }

  lemma {:induction false} FilterPartitionsAppend(a: seq<Partition>, b: seq<Partition>, url: string)
    ensures FilterPartitions(a + b, url) == FilterPartitions(a, url) + FilterPartitions(b, url)
    decreases |a|
  {
    if a == [] {
      assert a + b == b;
    } else {
      assert (a + b)[0] == a[0] && (a + b)[1..] == a[1..] + b;
      FilterPartitionsAppend(a[1..], b, url);
    }
  }

  lemma {:induction false} FlattenFilter(h: seq<Partition>, url: string)
    ensures Flatten(FilterPartitions(h, url)) == WithoutUrl(Flatten(h), url)
    decreases |h|
  {
    if h != [] {
      FlattenFilter(h[1..], url);
      WithoutUrlAppend(h[0].downloads, Flatten(h[1..]), url);
    }
  }

  /** The dictionary comprehension of `remove`: dates left with no downloads are dropped. */
  function PruneEmpty(h: seq<Partition>): (r: seq<Partition>)
    ensures |r| <= |h|
    ensures forall p :: p in r ==> p in h && p.downloads != []
  {
    if h == [] then []
    else if h[0].downloads == [] then PruneEmpty(h[1..])
    else [h[0]] + PruneEmpty(h[1..])
  }

  lemma {:induction false} PruneEmptyDistinct(h: seq<Partition>)
    requires DistinctDates(h)
    ensures DistinctDates(PruneEmpty(h))
    decreases |h|
  {
    if h != [] {
      PruneEmptyDistinct(h[1..]);
      var rest := PruneEmpty(h[1..]);
      forall p | p in rest ensures p.date != h[0].date {
        var k :| 0 <= k < |h[1..]| && h[1..][k] == p;
        assert h[k + 1] == p;
      }
    }
  }

  lemma {:induction false} FlattenPrune(h: seq<Partition>)
    ensures Flatten(PruneEmpty(h)) == Flatten(h)
    decreases |h|
  {
    if h != [] {
      FlattenPrune(h[1..]);
      if h[0].downloads != [] {
        assert ([h[0]] + PruneEmpty(h[1..]))[1..] == PruneEmpty(h[1..]);
      }
    }
  }

  /** The history after `remove(url)`. */
  function RemoveUrl(h: seq<Partition>, url: string): seq<Partition> {
    PruneEmpty(FilterPartitions(h, url))
  }

  /** Some entry of the history has this URL. */
  predicate Mentions(es: seq<Entry>, url: string) {
    exists k :: 0 <= k < |es| && es[k].url == url
  }

  /** After `remove(url)` no entry has the URL, every other entry is still there in its order,
    * no date is left empty and the dates stay distinct. */
  lemma RemoveUrlEffect(h: seq<Partition>, url: string)
    requires DistinctDates(h)
    ensures Flatten(RemoveUrl(h, url)) == WithoutUrl(Flatten(h), url)
    ensures !Mentions(Flatten(RemoveUrl(h, url)), url)
    ensures forall p :: p in RemoveUrl(h, url) ==> p.downloads != []
    ensures DistinctDates(RemoveUrl(h, url))
  {
    FlattenPrune(FilterPartitions(h, url));
    FlattenFilter(h, url);
    var f := FilterPartitions(h, url);
    assert DistinctDates(f) by {
      forall i, j | 0 <= i < j < |f| ensures f[i].date != f[j].date {
        assert f[i].date == h[i].date && f[j].date == h[j].date;
      }
    }
    PruneEmptyDistinct(f);
  }

  /** Removing a URL adds no URL: what the history mentions afterwards it mentioned before. */
  lemma RemoveUrlMentions(h: seq<Partition>, url: string, x: string)
    ensures Mentions(Flatten(RemoveUrl(h, url)), x) ==> Mentions(Flatten(h), x) && x != url
  {
    FlattenPrune(FilterPartitions(h, url));
    FlattenFilter(h, url);
    var before, after := Flatten(h), Flatten(RemoveUrl(h, url));
    if Mentions(after, x) {
      var k :| 0 <= k < |after| && after[k].url == x;
      assert after[k] in before;
      var j :| 0 <= j < |before| && before[j] == after[k];
    }
  }

  lemma FilterPartitionsNext(h: seq<Partition>, i: nat, url: string)
    requires i < |h|
    ensures FilterPartitions(h[..i + 1], url) == FilterPartitions(h[..i], url) + [Partition(h[i].date, WithoutUrl(h[i].downloads, url))]
  {
    assert h[..i + 1] == h[..i] + [h[i]];
    FilterPartitionsAppend(h[..i], [h[i]], url);
  }

  lemma FilterEachNext(f: seq<Partition>, h: seq<Partition>, i: nat, url: string)
    requires i < |h| && f == FilterPartitions(h[..i], url)
    ensures |f| == i && (f + h[i..])[i] == h[i]
    ensures (f + h[i..])[i := Partition(h[i].date, WithoutUrl(h[i].downloads, url))] ==
      FilterPartitions(h[..i + 1], url) + h[i + 1..]
  {
    FilterPartitionsNext(h, i, url);
    var x := Partition(h[i].date, WithoutUrl(h[i].downloads, url));
    assert (f + h[i..])[i := x] == (f + [x]) + h[i + 1..];
  }

  lemma MentionsNext(h: seq<Partition>, i: nat, url: string)
    requires i < |h|
    ensures Mentions(Flatten(h[..i + 1]), url) <==>
      Mentions(Flatten(h[..i]), url) || |WithoutUrl(h[i].downloads, url)| < |h[i].downloads|
  {
    WithoutUrlShorter(h[i].downloads, url);
    FlattenNext(h, i);
    MentionsAppend(Flatten(h[..i]), h[i].downloads, url);
  }

  lemma MentionsAppend(a: seq<Entry>, b: seq<Entry>, url: string)
    ensures Mentions(a + b, url) <==> Mentions(a, url) || Mentions(b, url)
  {
    if Mentions(a, url) {
      var k :| 0 <= k < |a| && a[k].url == url;
      assert (a + b)[k].url == url;
    }
    if Mentions(a + b, url) {
      var k :| 0 <= k < |a + b| && (a + b)[k].url == url;
      if k >= |a| {
        assert b[k - |a|].url == url;
      }
    }
    if Mentions(b, url) {
      var k :| 0 <= k < |b| && b[k].url == url;
      assert (a + b)[k + |a|].url == url;
    }
  }

  // ---------------------------------------------------------------------------
  // get_all_urls and get_stats

  /** The URLs `get_all_urls` collects from these entries: each non-empty one once, in the order
    * of first occurrence. */
  function UniqueUrls(es: seq<Entry>): (r: seq<string>)
    ensures |r| <= |es|
  {
    if es == [] then []
    else
      var prev := UniqueUrls(es[..|es| - 1]);
      var u := es[|es| - 1].url;
      if u != [] && u !in prev then prev + [u] else prev
  }

  predicate NoRepeats(s: seq<string>) {
    forall i, j :: 0 <= i < j < |s| ==> s[i] != s[j]
  }

  /** Every non-empty URL of the entries appears exactly once, and nothing else appears. */
  lemma {:induction false} UniqueUrlsSpec(es: seq<Entry>)
    ensures NoRepeats(UniqueUrls(es))
    ensures forall u :: u in UniqueUrls(es) <==> u != [] && Mentions(es, u)
    decreases |es|
  {
    if es != [] {
      var p := es[..|es| - 1];
      UniqueUrlsSpec(p);
      forall u ensures Mentions(es, u) <==> Mentions(p, u) || es[|es| - 1].url == u {
        assert es == p + [es[|es| - 1]];
        MentionsAppend(p, [es[|es| - 1]], u);
      }
    }
  }

  /** URLs are collected in order: the URLs of a prefix of the entries start the list. */
  lemma {:induction false} UniqueUrlsPrefix(es: seq<Entry>, i: nat)
    requires i <= |es|
    ensures UniqueUrls(es[..i]) <= UniqueUrls(es)
    decreases |es| - i
  {
    if i < |es| {
      UniqueUrlsPrefix(es, i + 1);
      assert es[..i + 1][..i] == es[..i];
    } else {
      assert es[..i] == es;
    }
  }

  lemma UniqueUrlsNext(a: seq<Entry>, ds: seq<Entry>, j: nat)
    requires j < |ds|
    ensures UniqueUrls(a + ds[..j + 1]) ==
      var prev := UniqueUrls(a + ds[..j]);
      if ds[j].url != [] && ds[j].url !in prev then prev + [ds[j].url] else prev
  {
    var s := a + ds[..j + 1];
    assert s[..|s| - 1] == a + ds[..j];
    assert s[|s| - 1] == ds[j];
  }

  /** The sum of the partition lengths. */
  function TotalDownloads(h: seq<Partition>): (r: nat)
    ensures r == |Flatten(h)|
  {
    if h == [] then 0 else |h[0].downloads| + TotalDownloads(h[1..])
  }

  /** What `get_stats` reports. */
  datatype Stats = Stats(totalDownloads: nat, uniqueDays: nat, urlsToday: nat)

  // ---------------------------------------------------------------------------
  // The manager

  /** `HistoryManager` holding the loaded history. `load` and `save` touch the file: every
    * operation sees the loaded history in `history`, and whether `save` succeeds is a parameter. */
  class HistoryManager {
    var history: seq<Partition>

    ghost predicate Valid()
      reads this
    {
      DistinctDates(history)
    }

    constructor()
      ensures Valid() && history == []
    {
      history := [];
    }

    /** `add`: `today` and `now` stand for the clock readings. */
    method Add(url: string, title: string, outputPath: string, today: string, now: string, saved: bool)
      returns (ok: bool)
      requires Valid()
      modifies this
      ensures Valid()
      ensures history == AddEntry(old(history), today, Entry(url, title, outputPath, now))
      ensures ok == saved
    {
      AddEntryEffect(history, today, Entry(url, title, outputPath, now));
      var entry := Entry(url, title, outputPath, now);
      var index := DateIndex(history, today);
      if index.None? {
        history := history + [Partition(today, [entry])];
      } else {
        var i := index.value;
        history := history[i := Partition(today, history[i].downloads + [entry])];
      }
      ok := saved;
    }

    /** `is_downloaded`: the first entry with the URL, in date order and then list order. */
    method IsDownloaded(url: string) returns (found: bool, entry: Option<Entry>)
      ensures entry == FirstWithUrl(Flatten(history), url)
      ensures found <==> entry.Some?
    {
      for i := 0 to |history|
        invariant FirstWithUrl(Flatten(history[..i]), url).None?
      {
        var downloads := history[i].downloads;
        for j := 0 to |downloads|
          invariant FirstWithUrl(downloads[..j], url).None?
        {
          if downloads[j].url == url {
            FoundAt(history, i, j, url);
            return true, Some(downloads[j]);
          }
          assert downloads[..j + 1] == downloads[..j] + [downloads[j]];
          FirstWithUrlAppend(downloads[..j], [downloads[j]], url);
        }
        assert downloads[..|downloads|] == downloads;
        FlattenNext(history, i);
        FirstWithUrlAppend(Flatten(history[..i]), downloads, url);
      }
      assert history[..|history|] == history;
      return false, None;
    }

    /** `remove`: `saved` is whether writing the file succeeds. */
    method Remove(url: string, saved: bool) returns (ok: bool)
      requires Valid()
      modifies this
      ensures Valid()
      ensures history == RemoveUrl(old(history), url)
      ensures ok <==> Mentions(Flatten(old(history)), url) && saved
    {
      RemoveUrlEffect(history, url);
      var found := FilterEach(url);
      history := PruneEmpty(history);
      if found {
        ok := saved;
      } else {
        ok := false;
      }
    }

    /** The first loop of `remove`: each date's list is replaced by its filtered copy. */
    method FilterEach(url: string) returns (found: bool)
      modifies this
      ensures history == FilterPartitions(old(history), url)
      ensures found <==> Mentions(Flatten(old(history)), url)
    {
      ghost var h0 := history;
      found := false;
      for i := 0 to |history|
        invariant history == FilterPartitions(h0[..i], url) + h0[i..]
        invariant found <==> Mentions(Flatten(h0[..i]), url)
      {
        var downloads := history[i].downloads;
        var kept := WithoutUrl(downloads, url);
        FilterEachNext(FilterPartitions(h0[..i], url), h0, i, url);
        history := history[i := Partition(history[i].date, kept)];
        MentionsNext(h0, i, url);
        if |kept| < |downloads| {
          found := true;
        }
      }
      assert h0[..|h0|] == h0;
    }

    /** `clear`. */
    method Clear(saved: bool) returns (ok: bool)
      modifies this
      ensures Valid() && history == []
      ensures ok == saved
    {
      history := [];
      ok := saved;
    }

    /** `get_all_urls`: each non-empty URL once, in first-occurrence order. */
    method GetAllUrls() returns (urls: seq<string>)
      ensures urls == UniqueUrls(Flatten(history))
    {
      urls := [];
      for i := 0 to |history|
        invariant urls == UniqueUrls(Flatten(history[..i]))
      {
        var downloads := history[i].downloads;
        assert Flatten(history[..i]) + downloads[..0] == Flatten(history[..i]);
        for j := 0 to |downloads|
          invariant urls == UniqueUrls(Flatten(history[..i]) + downloads[..j])
        {
          UniqueUrlsNext(Flatten(history[..i]), downloads, j);
          var url := downloads[j].url;
          if url != [] && url !in urls {
            urls := urls + [url];
          }
        }
        assert downloads[..|downloads|] == downloads;
        FlattenNext(history, i);
      }
      assert history[..|history|] == history;
    }

    /** `get_stats`: `today` stands for the clock reading. */
    function GetStats(today: string): (r: Stats)
      reads this
      ensures r.totalDownloads == |Flatten(history)|
      ensures r.uniqueDays == |history|
      ensures r.urlsToday == |Downloads(history, today)|
    {
      Stats(TotalDownloads(history), |history|, |Downloads(history, today)|)
    }
  }

  /** The entry at `(i, j)` with no earlier match is what `is_downloaded` returns. */
  lemma FoundAt(h: seq<Partition>, i: nat, j: nat, url: string)
    requires i < |h| && j < |h[i].downloads| && h[i].downloads[j].url == url
    requires FirstWithUrl(Flatten(h[..i]), url).None? && FirstWithUrl(h[i].downloads[..j], url).None?
    ensures FirstWithUrl(Flatten(h), url) == Some(h[i].downloads[j])
  {
    var ds := h[i].downloads;
    assert h == h[..i + 1] + h[i + 1..];
    FlattenAppend(h[..i + 1], h[i + 1..]);
    FlattenNext(h, i);
    assert ds == ds[..j] + ds[j..];
    FirstWithUrlAppend(ds[..j], ds[j..], url);
    assert ds[j..][0] == ds[j];
    FirstWithUrlAppend(Flatten(h[..i]), ds, url);
    FirstWithUrlAppend(Flatten(h[..i + 1]), Flatten(h[i + 1..]), url);
  }
}
