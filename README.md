# Tea download orchestrator, modelled in Dafny

Tea is a command-line front end to yt-dlp. It downloads YouTube videos, playlists and channels as
video or MP3 files. The media work is done by yt-dlp, ffmpeg and HTTP services. This project
models the bookkeeping around those calls and proves properties of it:

- the per-download retry loop and the fan-in of a batch (`Downloader`);
- content classification with its per-URL cache (`Info`);
- the date-partitioned download history (`History`);
- the duplicate check and the URL-list filters of the command line (`Cli`);
- configuration validation, update and repair on load (`Config`);
- the validators and sanitisers (`Security`);
- the AI filename cleaner's output check, rate limiter and regex cleaner (`FilenameCleaner`);
- the search service's filters and ranking (`Search`);
- timestamp arithmetic and chapter lists (`Timestamps`, `Clock`);
- the error types' detail dictionaries and their rendering (`Exceptions`).

The supporting modules are these:

- `Text` models the Python string operations the code uses: `strip`, `lower`, `split`, `replace`, `in`, `int()` on digit strings and `str()` of integers.
- `Urls` models CPython's `urlsplit` as far as the validators need it.
- `Sorting` models Python's stable `sorted` as an insertion sort.
- `Seqs` holds sequence lemmas.
- `Wrappers` holds `Option`.

Every external call becomes a parameter of the operation that makes it. This covers the
extractor's outcome per attempt, the clock readings, whether a file write succeeds, the user's
answers to a prompt, and the regular-expression matchers that are not modelled. Python
dictionaries keep insertion order. The history and the error details are therefore ordered
association lists, not Dafny maps.

## Model

| member | source | states |
|---|---|---|
| Downloader.PathJoinShape | tea/downloader.py:182-183 | `os.path.join(a, b)` always ends with `b`, and starts with `a` when `b` is relative |
| Downloader.PlaylistTemplate | tea/downloader.py:181-183 | a playlist's template is the output directory, then a `%(playlist_title)s` folder, then a file named `%(playlist_index)s-%(title)s.<mp3 or mp4>`, with `os.path.join`'s '/' only where the directory lacks one |
| Downloader.ChannelTemplate | tea/downloader.py:186-188 | a channel's template is the output directory, then a `%(uploader)s` folder, then a file named `%(upload_date)s-%(title)s.<mp3 or mp4>`, with `os.path.join`'s '/' only where the directory lacks one |
| Downloader.VideoTemplateLiteralExt | tea/downloader.py:191-193 | a video without the AI template ends in the literal text `%(title)s.{ext}` |
| Downloader.VideoTemplateExample | tea/downloader.py:191-193 | the video template for `downloads` is exactly `downloads/%(title)s.{ext}` |
| Downloader.OutputTemplateIntended | tea/downloader.py:175-193 | the corrected template of a single video ends in yt-dlp's `.%(ext)s` field, and it lies below the output directory when no AI title is used |
| Downloader.Failure | tea/downloader.py:204-210 | a failure result has success false, count 0 and the job's URL |
| Downloader.Exhausted | tea/downloader.py:251-257 | the retries-exhausted result is a failure with count 0 whose message ends with `Last error: <the last error>` |
| Downloader.Finish | tea/downloader.py:204-242 | the result of an attempt that did not raise has the job's URL; a success counts at least one and has a title; a failure counts zero |
| Downloader.RunFrom | tea/downloader.py:197-257 | the retry loop's result has the job's URL; a success counts at least one and has a title; a failure counts zero; no exception escapes |
| Downloader.StopAt | tea/downloader.py:199 | the loop stops at an attempt between the current one and `MAX_RETRIES` |
| Downloader.RetryShape | tea/downloader.py:197-257 | every attempt before the stop point raised. The result is the stop attempt's result, or the exhausted failure with its error, which happens only at attempt 3. The pauses are exactly those after each failed attempt before the stop |
| Downloader.StopShape | tea/downloader.py:199-250 | the attempts before the stop point raise, and the loop stops at a raising attempt only when it is the last |
| Downloader.RunShape | tea/downloader.py:197-257 | the loop's result is the result of the attempt where it stops |
| Downloader.SleepShape | tea/downloader.py:246-250 | the loop sleeps once after each failed attempt before the stop point, for the back-off delay |
| Downloader.AllAttemptsRaise | tea/downloader.py:199-257 | when every attempt raises there are exactly 3 attempts with pauses `[2, 4]`, and the result is a failure with count 0 whose message ends with the last error |
| Downloader.NullStops | tea/downloader.py:204-210 | a `None` answer ends the call after one attempt, with no pause, as a failure with count 0 |
| Downloader.FinishCases | tea/downloader.py:212-242 | an empty playlist fails. A playlist with n > 0 entries succeeds with count n, the content type and the title, defaulting to 'Unknown Playlist'. Any other answer succeeds with count 1, type 'video' and the title, defaulting to 'Unknown' |
| Downloader.TemplateFor | tea/downloader.py:160-195 | the AI title applies to videos only. Outside playlists and channels the template ends in the literal `.{ext}`: after the AI title when one is used, and otherwise after `%(title)s` below the output directory |
| Downloader.VideoTemplateShape | tea/downloader.py:175-193 | outside playlists and channels the template ends in the literal `.{ext}`, after the AI title when there is one and after `%(title)s` below the output directory otherwise |
| Downloader.DownloadSingleVideo | tea/downloader.py:73-264 | returns the template as written for the content type and the AI flag, the loop's result, the pauses it took and the number of extractor calls, each as the specification functions give them |
| Downloader.Retry | tea/downloader.py:197-264 | the imperative retry loop returns the result, the pauses and the attempt count that the specification functions give |
| Downloader.StopFrom | tea/downloader.py:199-250 | an attempt is the stop point when every earlier attempt raised and it does not raise or is the last |
| Downloader.RetryEnd | tea/downloader.py:199-257 | where the loop returns at attempt k, the stop point, the pauses and the result are those of the model |
| Downloader.CountType | tea/downloader.py:302-303 | the count of URLs of one content type is at most the number of URLs |
| Downloader.VideoCountOthers | tea/downloader.py:302-304 | `len(urls) - playlist_count - channel_count` is exactly the number of URLs of any other type, so it is never negative |
| Downloader.PickPermutes | tea/downloader.py:329-331 | two completion orders holding the same indices collect the same multiset of results |
| Downloader.FanIn | tea/downloader.py:322-331 | results collected in any completion order are a permutation of the per-URL results; every failure counts zero, so the failed total is 0 |
| Downloader.SuccessCount | tea/downloader.py:334 | the number of successes is at most the number of results |
| Downloader.SuccessEntriesOnePer | tea/downloader.py:334-336 | exactly one history entry is written per success and none per failure, with the success's URL and its title or 'Unknown' |
| Downloader.AddAllEffect | tea/downloader.py:334-336 | a run of history writes on one day appends its entries in order to that day's downloads, keeps the dates distinct and changes no other day |
| Downloader.AddAllStep | tea/downloader.py:334-336 | one more write extends that day's downloads by the entry and changes no other day |
| Downloader.FailedMembers | tea/downloader.py:361 | the failed list holds exactly the results that did not succeed |
| Downloader.FailedTotalZero | tea/downloader.py:363-364 | when every failure counts zero (which every failure dict does), the failed total is 0 and the successful total is at least the number of successes |
| Downloader.CountTotalAppend | tea/downloader.py:363-364 | the count total of two result lists is the sum of their totals |
| Downloader.CountTotalOrderFree | tea/downloader.py:363-364 | the count totals do not depend on the order of the results |
| Downloader.FailedMultiset | tea/downloader.py:361 | each result occurs in the failed list as often as among the results if it failed, and never otherwise |
| Downloader.FailedOrderFree | tea/downloader.py:361 | permuted results give the same failed list up to order |
| Downloader.SummaryOrderFree | tea/downloader.py:360-373 | permuted results give the same successful total, the same failed total and the same failed URLs |
| Downloader.WrittenSnoc | tea/downloader.py:334-336 | one more collected result adds its entry, with the clock readings of its own turn, exactly when it succeeded |
| Downloader.WrittenOneDay | tea/downloader.py:334-336 | when every `add` call reads the same day and time, the new history is that day's run of writes of the success entries, so `AddAllEffect` applies |
| Downloader.WrittenDistinct | tea/downloader.py:334-336 | the history keeps distinct dates, whatever day each `add` call reads |
| Downloader.DownloadService.Download | tea/downloader.py:266-339 | one result per URL in the given completion order, a permutation of the per-URL results. Each success is added to the history in completion order, with the day and time read at its own `add` call. The summary's failed total is 0 |
| Downloader.DownloadService.Record | tea/downloader.py:330-336 | one pass of the collection loop adds a success to the history with that turn's clock readings and leaves it unchanged for a failure |
| Downloader.RunAll | tea/downloader.py:323-327 | the workers' results in submission order are the per-URL results |
| Downloader.RunOne | tea/downloader.py:325 | the worker for URL i returns that job's result |
| Downloader.ExhaustedMessageEnds | tea/downloader.py:256 | the exhaustion message ends with the last error |
| Downloader.DownloadService.constructor | tea/downloader.py:43-71 | the service writes to the history manager it is given |
| Info.IsChannelUrlExtends | tea/info.py:112-120 | a channel-like URL stays channel-like with anything added before or after it, because each marker is a substring test |
| Info.GuessFromUrl | tea/info.py:88-110 | the guess's info is `{}`, and a guess exists exactly when the network location has no unbalanced '[' or ']' (the one `ValueError` of `urlparse` modelled) |
| Info.GuessOrder | tea/info.py:101-110 | 'channel' exactly for channel-like URLs; 'playlist' exactly when the URL is not channel-like and has a non-blank `list` query parameter, its name read after '+' and `%XX` decoding; 'video' otherwise |
| Info.ExtractWithYtdlp | tea/info.py:66-81 | when the extractor returns info, that info dictionary is returned with the type |
| Info.ExtractFallsBack | tea/info.py:69-86 | when the extractor raises or returns `None`, the result is the URL-shape guess |
| Info.ExtractTypes | tea/info.py:72-81 | a 'playlist' answer becomes 'channel' exactly for channel-like URLs; a missing `_type` gives 'video'; any other `_type` is returned unchanged |
| Info.ExtractKeepsOtherType | tea/info.py:72-81 | a `_type` of 'url' comes back as the content type 'url', which is none of the three kinds |
| Info.InfoExtractor.GetInfo | tea/info.py:122-141 | a cache hit (with the cache on) returns the cached tuple and changes nothing. Otherwise the result is the extractor's answer. With the cache on, a new answer is stored under the URL; with it off, the cache is neither read nor written |
| Info.InfoExtractor.GetInfoTwice | tea/info.py:133-139 | with the cache on, a second lookup of a URL returns the first answer, whatever the extractor would do the second time |
| Info.InfoExtractor.GetContentType | tea/info.py:143-154 | the content type is that of the cached entry, or that of the extractor's answer when the URL is not cached |
| Info.InfoExtractor.ClearCache | tea/info.py:156-158 | the cache is empty afterwards |
| Info.IsYoutubeUrl | tea/info.py:191-212 | true exactly for non-empty URLs without an unbalanced '[' or ']' in the network location, whose scheme is http or https and whose lowercased netloc is one of the four YouTube domains |
| Info.ValidUrlIsYoutube | tea/info.py:191-212 | every URL `validate_url` accepts passes `is_youtube_url` |
| Info.InfoExtractor.constructor | tea/info.py:37-45 | the cache starts empty |
| History.FlattenAppend | tea/history.py:114-115 | visiting two runs of partitions in turn visits their entries in turn |
| History.DateIndex | tea/history.py:90 | finds the position of a date among the keys, the first one holding it, or reports that no key is that date |
| History.Dates | tea/history.py:90-91 | the keys of the history, in order |
| History.AddEntryEffect | tea/history.py:86-100 | `add` appends exactly the new entry to today's downloads. It creates today's date last when it is new, keeps the dates distinct and leaves every other date's downloads unchanged |
| History.AddNewDate | tea/history.py:90-93 | a new date is added last, with just the new entry |
| History.AddExistingDate | tea/history.py:93-98 | for a date already present, the entry goes at the end of its list and nothing else changes |
| History.AddEntryCounts | tea/history.py:90-98 | `add` performs no duplicate check: each call adds exactly one more occurrence of its entry, even if the URL is already there |
| History.FirstWithUrl | tea/history.py:114-118 | the entry returned is in the history and has the URL; there is none exactly when no entry has the URL |
| History.FirstWithUrlIsFirst | tea/history.py:114-117 | no entry before the returned one has the URL |
| History.FirstWithUrlAppend | tea/history.py:114-117 | the search looks in the earlier partitions before the later ones |
| History.WithoutUrl | tea/history.py:135 | the filtered list is no longer than the original, holds no entry with the URL, and holds only entries of the original |
| History.WithoutUrlShorter | tea/history.py:134-138 | filtering shortens a list exactly when some entry has the URL, which is how `found` is set |
| History.WithoutUrlAppend | tea/history.py:135 | filtering a concatenation filters each part |
| History.FilterPartitions | tea/history.py:133-135 | the first loop of `remove` keeps every date in its place |
| History.FlattenFilter | tea/history.py:133-135 | after the first loop, the entries are the old ones without the URL, in their order |
| History.PruneEmpty | tea/history.py:141-145 | the pruned history holds only partitions of the old one, none of them empty |
| History.PruneEmptyDistinct | tea/history.py:141-145 | pruning keeps the dates distinct |
| History.FlattenPrune | tea/history.py:141-145 | pruning empty dates drops no entry |
| History.RemoveUrlEffect | tea/history.py:130-145 | after `remove(url)` no entry has the URL; every other entry remains, in its original order; no date is empty; the dates stay distinct |
| History.RemoveUrlMentions | tea/history.py:130-145 | `remove` adds no URL: a URL the history holds afterwards it held before, and it is not the removed one |
| History.MentionsNext | tea/history.py:133-138 | the history up to partition i holds the URL exactly when the earlier part holds it or filtering partition i shortens it |
| History.UniqueUrls | tea/history.py:206-212 | there are no more URLs than entries |
| History.UniqueUrlsSpec | tea/history.py:206-212 | every URL occurs once; the URLs are exactly the non-empty URLs of some entry |
| History.UniqueUrlsPrefix | tea/history.py:206-212 | the URLs of a prefix of the entries start the list, so URLs come in first-occurrence order |
| History.UniqueUrlsNext | tea/history.py:208-211 | one more entry appends its URL exactly when it is non-empty and not yet listed |
| History.TotalDownloads | tea/history.py:222 | the sum of the partition lengths is the number of entries |
| History.HistoryManager.Add | tea/history.py:74-100 | the history becomes the old one with the entry `{url, title, output_path, timestamp}` added to today's date, keeping it valid; returns the save outcome |
| History.HistoryManager.IsDownloaded | tea/history.py:102-118 | returns the first entry with the URL in date order, then list order, and reports found exactly when there is one |
| History.HistoryManager.Remove | tea/history.py:120-150 | the history becomes the old one with the URL removed and empty dates pruned; returns true exactly when something was removed and the save succeeded |
| History.HistoryManager.FilterEach | tea/history.py:133-138 | the first loop replaces each date's list by its filtered copy, and `found` is set exactly when some entry had the URL |
| History.HistoryManager.Clear | tea/history.py:152-160 | the history is empty afterwards; returns the save outcome |
| History.HistoryManager.GetAllUrls | tea/history.py:198-212 | the nested loop returns the unique non-empty URLs in first-occurrence order |
| History.HistoryManager.GetStats | tea/history.py:214-227 | `total_downloads` is the number of entries, `unique_days` the number of dates and `urls_today` the length of today's list |
| History.FoundAt | tea/history.py:114-117 | the first match in partition order, then entry order, is what `is_downloaded` returns |
| History.HistoryManager.constructor | tea/history.py:24-34 | the history starts empty, and its dates are distinct |
| Config.DefaultKeysEnumerate | tea/config.py:14-25 | the key order lists exactly the keys of `DEFAULT_CONFIG` |
| Config.Membership | tea/config.py:52-77 | `value not in allowed` passes exactly for a string in the set, and raises `TypeError` exactly for an unhashable value |
| Config.ConcurrentCheck | tea/config.py:59-65 | the `concurrent_downloads` check never raises `TypeError` |
| Config.ConcurrentValid | tea/config.py:59-65 | `concurrent_downloads` passes exactly for an int from 1 to 5, or for `True`, which is an int in Python |
| Config.KeyCheck | tea/config.py:40-83 | a key's check raises `TypeError` only for an unhashable value; keys other than the four are not checked |
| Config.ValidateConfig | tea/config.py:40-83 | a failure names one of the four checked keys that is present. `TypeError` comes only from an unhashable value. It never returns `False`: the result is `True` or an exception |
| Config.ValidateConfigOk | tea/config.py:40-83 | `validate_config` returns `True` exactly when each of the four checked keys is absent or valid |
| Config.ValidateSingle | tea/config.py:130-131 | a one-key dictionary is judged by that key's check alone |
| Config.DefaultsSound | tea/config.py:14-30 | every default value is hashable and passes its key's check |
| Config.DefaultConfigValid | tea/config.py:14-83 | `DEFAULT_CONFIG` passes `validate_config` |
| Config.Repair | tea/config.py:125-133 | the repair loop changes no key set |
| Config.RepairAt | tea/config.py:125-133 | one step of the repair: a key starting with '_' or absent is skipped, a valid key is kept, a `ValueError` restores the default, and a `TypeError` ends the repair with the configuration as it stands |
| Config.RepairFixes | tea/config.py:125-133 | while no value is unhashable, the repair breaks no valid key and leaves every visited key not starting with '_' valid |
| Config.UpdatePairs | tea/config.py:116 | `update` with a sequence raises exactly when some element is not a pair, and it removes no key |
| Config.UpdatePairsStops | tea/config.py:116 | an update that meets a non-pair keeps exactly the pairs before it and raises |
| Config.UpdatePairsHashable | tea/config.py:116 | pairs of hashable values keep every value hashable |
| Config.PartialUpdateEscapesCheck | tea/config.py:112-140 | `[["concurrent_downloads", 99], 0]`: the pair is applied and `update` raises on the 0. The handler skips the check, so the loaded configuration keeps 99 and fails `validate_config` |
| Config.CheckedValid | tea/config.py:118-133 | checking and repairing a configuration of hashable values leaves it valid |
| Config.LoadedConfigValid | tea/config.py:107-143 | when the file loads cleanly (an object of hashable values, or pairs of hashable values with no element that is not a pair), the configuration after `_load` passes `validate_config` |
| Config.CheckedKeysVisited | tea/config.py:125-127 | the repair visits each of the four checked keys, and none of them starts with '_' |
| Config.RepairPasses | tea/config.py:128-133 | a visited key whose value passes its own check is left as it is |
| Config.UnhashableEscapesRepair | tea/config.py:116-140 | a list under `mp3_quality` makes the check raise `TypeError`. Neither `except ValueError` nor the repair catches it, so the loaded configuration keeps the list and fails `validate_config` |
| Config.ValidateAfterLastKey | tea/config.py:75-83 | replacing the value of `mp3_quality`, the last key checked, leaves the verdict to that key's check |
| Config.RepairIntended | tea/config.py:125-133 | the corrected repair changes no key set |
| Config.RepairIntendedAt | tea/config.py:125-133 | one step of the corrected repair: a key starting with '_' or absent is skipped, a valid key is kept, and any failing check restores the default |
| Config.RepairIntendedFixes | tea/config.py:125-133 | the corrected repair breaks no valid key and leaves every visited key not starting with '_' valid, whatever the values |
| Config.CheckedIntendedValid | tea/config.py:118-133 | the corrected check and repair always leave a valid configuration |
| Config.LoadedConfigIntendedValid | tea/config.py:107-143 | with every exception of the check caught, and the defaults after a failed update, the loaded configuration always passes `validate_config` |
| Config.Lookup | tea/config.py:167-178 | `get(key, d)` returns `d` exactly when the key is absent, and the stored value otherwise |
| Config.ConfigManager.constructor | tea/config.py:89-100 | the manager holds the configuration `_load` gives as written. It passes `validate_config` when the file loads cleanly |
| Config.ConfigManager.Load | tea/config.py:107-143 | `_load` gives the defaults updated by the file, an object or a list of pairs, then checked and repaired as written. An exception from `update` keeps the pairs applied before it and skips the check. A `TypeError` from the check or the repair keeps the configuration as it stands (the findings below). With no file, or one that will not parse, the defaults alone. The result passes `validate_config` when the file loads cleanly |
| Config.ConfigManager.RepairLoop | tea/config.py:125-133 | the loop over `DEFAULT_CONFIG` resets each key whose own check raises `ValueError` and stops at the first `TypeError`, as the as-written repair says |
| Config.ConfigManager.Save | tea/config.py:145-165 | `save` reports success exactly when the configuration validates and the write succeeds |
| Config.ConfigManager.Get | tea/config.py:167-178 | `get(key, d)` returns `d` exactly when the key is absent, and the stored value otherwise |
| Config.ConfigManager.Set | tea/config.py:180-198 | an invalid value raises and leaves the configuration unchanged; a valid one is stored under its key and nothing else changes |
| Config.ConfigManager.Update | tea/config.py:200-217 | all or nothing: if any value is invalid no key changes, otherwise every update is applied |
| Config.SetThenGet | tea/config.py:167-198 | after a successful `set`, `get` returns the new value and every other key reads as before |
| Config.UpdateThenGet | tea/config.py:200-217 | after a successful `update`, `get` returns the new value of every updated key and the old value of every other key |
| Cli.PolicyOf | tea/cli.py:219-233 | the policy is 'download' exactly for the value 'download' and 'skip' exactly for 'skip'; any other value asks |
| Cli.Decide | tea/cli.py:248-265 | the stripped answer '1' downloads again, '3' removes and downloads, '4' stores 'download', '5' stores 'skip'; every other answer skips |
| Cli.HandleNext | tea/cli.py:223 | the loop over one more URL takes one more step, unless it has already raised |
| Cli.KnownMentions | tea/cli.py:224-226 | `is_downloaded` reports a URL exactly when some history entry has it |
| Cli.StepKept | tea/cli.py:226-267 | one step keeps its URL or keeps nothing new; a URL not in the history is always kept, with nothing else changed |
| Cli.StepHistory | tea/cli.py:251-253 | one step leaves the history as it was or removes exactly its URL |
| Cli.StoredPoliciesValid | tea/cli.py:256-260 | both duplicate actions stored by the prompt pass the check of `set` |
| Cli.HandleDuplicates | tea/cli.py:217-272 | returns the kept URLs, and leaves the history and the configuration as the model of the loop says. The policy is read once before the loop. When an answer is missing, the call raises (`None`) |
| Cli.CheckUrl | tea/cli.py:224-267 | one iteration of the loop does what one step of the model says, for the policy read at the start |
| Cli.AskUser | tea/cli.py:233-265 | the prompt reads the next answer, or raises when none is left, and then keeps, removes, stores the policy or skips as the answer says |
| Cli.ReadChoice | tea/cli.py:246 | the answer read is the next stripped answer |
| Cli.HandleRaised | tea/cli.py:246 | once reading an answer raises, the whole call ends there |
| Cli.KeptInOrder | tea/cli.py:223-267 | the URLs returned are the input with some left out, in their input order |
| Cli.HistoryOnlyShrinks | tea/cli.py:223-267 | the check adds no URL to the history: a URL held afterwards was held at the start |
| Cli.NewUrlsKept | tea/cli.py:226-267 | unless the call raises, a URL not in the history at the start is kept whatever the policy and the answers |
| Cli.StepKeeps | tea/cli.py:226-267 | a step keeps what was kept, and its URL when the history does not hold it |
| Cli.DownloadKeepsAll | tea/cli.py:227-229 | under 'download' every URL is kept; no answer is read and neither the history nor the configuration changes |
| Cli.SkipDropsDuplicates | tea/cli.py:230-232 | under 'skip' exactly the URLs not in the history are kept, in order; no answer is read and nothing else changes |
| Cli.AskDecides | tea/cli.py:246-265 | under 'ask' one answer decides a duplicate. '1', '3' and '4' keep it; '3' first removes it from the history; '4' and '5' store 'download' and 'skip'; any other answer drops it and changes nothing |
| Cli.AskWithoutAnswer | tea/cli.py:246 | a duplicate under 'ask' with no answer left raises |
| Cli.PolicyReadOnce | tea/cli.py:219-262 | the policy is read once: after '4' to a first duplicate, a second one is still asked about, and '5' then drops it and stores 'skip' |
| Cli.ValidOnlySnoc | tea/cli.py:404-409 | one more token is appended to the result exactly when it passes `validate_url` |
| Cli.ValidOnlyCorrect | tea/cli.py:402-414 | the kept tokens are exactly the valid ones, in their order |
| Cli.ValidOnlyInOrder | tea/cli.py:402-414 | the kept tokens are a subsequence of all the tokens |
| Cli.ValidOnlyMembers | tea/cli.py:402-414 | a token is kept exactly when it passes `validate_url` |
| Cli.ParsedUrlsCorrect | tea/cli.py:394-414 | every parsed URL is valid, non-empty and free of commas and whitespace. The parsed URLs are a subsequence of the pieces of the stripped input, and every valid piece is among them |
| Cli.ParseMultipleUrls | tea/cli.py:394-414 | the loop returns no URL for empty input, and the valid pieces in order otherwise |
| Cli.FileUrlsSnoc | tea/cli.py:528-537 | one more line adds its stripped text exactly when it is a URL line |
| Cli.FileUrlsMembers | tea/cli.py:527-540 | a URL is loaded exactly when some line, stripped, is that URL, is not blank, is not a '#' comment and passes `validate_url`. There are never more URLs than lines |
| Cli.FileUrlsMemberStep | tea/cli.py:528-537 | the membership property carries over to one more line |
| Cli.FileUrlsFrom | tea/cli.py:528-537 | a URL loaded from one more line comes from some line |
| Cli.FileUrlsHas | tea/cli.py:528-537 | every URL line of one more line is loaded |
| Cli.LoadUrlsFromFile | tea/cli.py:511-544 | a rejected or unreadable file gives `[]`; otherwise the loop returns the URL lines, stripped, in file order |
| Security.Extension | tea/utils/security.py:94 | the extension is empty or starts with '.' and holds no '/', and it is a suffix of the path |
| Security.ValidateFilePath | tea/utils/security.py:57-98 | empty input is rejected as empty. A NUL byte after unquoting is rejected. An accepted path is the unquoted input, with no NUL, no `../` and no `..\`, and with an allowed extension (case-insensitive) when a list is given |
| Security.SanitizePath | tea/utils/security.py:103-127 | empty input gives ''; otherwise the result holds no NUL, is no longer than the input, and holds only characters of the input |
| Security.SanitizePathLeavesTraversal | tea/utils/security.py:124-125 | the single-pass deletion turns `..././` into `../`, so a traversal sequence can survive |
| Security.TraversalPassShrinks | tea/utils/security.py:125 | one pass of both deletions shortens any string that holds either pattern |
| Security.RemoveTraversal | tea/utils/security.py:124-125 | the repeated deletion leaves neither `../` nor `..\`, is no longer than its input, and adds no character |
| Security.SanitizePathIntended | tea/utils/security.py:103-127 | the corrected sanitiser gives '' for empty input, and its output holds no NUL, no `../` and no `..\`, and is no longer than the input |
| Security.RemoveAll | tea/utils/security.py:190-196 | deleting each listed character in turn leaves none of them, adds no character, and changes nothing when none is present |
| Security.SanitizeMetadata | tea/utils/security.py:173-201 | empty input gives ''. The result holds none of NUL, `$`, backquote, backslash, `\n`, `\r` and ESC, has at most 200 characters and adds none. A clean input is only truncated |
| Security.SanitizeMetadataIdempotent | tea/utils/security.py:173-201 | sanitising twice is the same as sanitising once |
| Security.ReplaceUnsafe | tea/utils/security.py:306 | each of `<>:"/\|?*&` becomes '_', every other character stays, and no unsafe character is left |
| Security.DropControl | tea/utils/security.py:309 | only characters of the input with code at least 32 remain |
| Security.ClipTitleChain | tea/utils/security.py:303-312 | the transformed title has at most 100 characters, none unsafe and none below code 32 |
| Security.SafeAfterReplace | tea/utils/security.py:306-312 | after the replacement, the control-character pass and the strip, no unsafe or control character is left |
| Security.DropControlKeeps | tea/utils/security.py:309 | a string without control characters passes through unchanged |
| Security.UntitledIsSafe | tea/utils/security.py:300-314 | the fallback 'Untitled' holds no unsafe or control character |
| Security.SanitizeClipTitle | tea/utils/security.py:289-314 | the result is never empty and has at most 100 characters, none of them unsafe and none below code 32. Empty input gives 'Untitled' |
| Security.SanitizeClipTitleKeepsSafe | tea/utils/security.py:289-314 | a short, trimmed title free of every character the sanitiser touches comes back unchanged |
| Security.SanitizeMetadataKeeps | tea/utils/security.py:186-201 | a clean value of at most 200 characters comes back unchanged |
| Security.ReplaceUnsafeKeeps | tea/utils/security.py:306 | a title without unsafe characters comes back unchanged |
| Security.TimestampGroups | tea/utils/security.py:221-228 | `TIMESTAMP_PATTERN` matches exactly the strings of one or two ASCII digits, ':' and two ASCII digits, optionally followed by ':' and two more ASCII digits |
| Security.TimestampGroupsLength | tea/utils/security.py:30 | a string the pattern matches has 4 to 8 characters |
| Security.ValidateTimestamp | tea/utils/security.py:204-238 | an accepted timestamp matches the pattern once stripped |
| Security.ValidTimestampLength | tea/utils/security.py:218-223 | an accepted timestamp has 4 to 8 characters once stripped |
| Security.ValidateTimestampIntended | tea/utils/security.py:204-238 | the corrected validator accepts only strings that match the pattern once stripped |
| Security.ValidateUrlMeans | tea/utils/security.py:130-170 | an accepted URL is non-empty. It does not start with `//` and has no `javascript:`, `data:`, `vbscript:` or `file:` prefix in any case. Its scheme is http or https, and its lowercased netloc is one of the four YouTube domains |
| Security.ValidateUrlOfParts | tea/utils/security.py:140-167 | conversely, a URL meeting all those conditions with a non-empty netloc is accepted |
| Security.ValidateUrlAcceptsYoutube | tea/utils/security.py:130-170 | every `http` or `https` URL on one of the four domains, followed by a path, a query, a fragment or nothing, is accepted |
| Security.AcceptsAuthorityUrl | tea/utils/security.py:130-170 | an http(s) URL with a safe YouTube host followed by a path, query, fragment or nothing is accepted |
| Security.NoBadPrefix | tea/utils/security.py:144-149 | a URL starting with 'h' is neither protocol-relative nor one of the refused schemes |
| Security.HostFacts | tea/utils/security.py:163 | a host name of lower-case letters and dots is its own lower-case form and holds no character that ends a netloc |
| Security.YoutubeDomainFacts | tea/utils/security.py:16-21 | each accepted domain is such a host name |
| Security.HttpSchemeFacts | tea/utils/security.py:155 | 'http' and 'https' are well-formed lower-case schemes |
| Security.ValidateConcurrentWorkers | tea/utils/security.py:272-286 | an accepted value holds a digit |
| Security.ConcurrentWorkersOfNat | tea/utils/security.py:272-286 | a decimal worker count is accepted exactly when it lies between 1 and 5 |
| Security.ValidateQuality | tea/utils/security.py:259-269 | a quality is accepted exactly when it is one of '1' to '5', 'best', '720p', '480p', '360p' and 'audio' |
| Security.ValidateChoice | tea/utils/security.py:317-328 | a choice is accepted exactly when it equals one of the valid choices |
| FilenameCleaner.ValidateAiOutput | tea/ai/filename_cleaner.py:186-212 | an accepted answer is non-empty and within the length limit |
| FilenameCleaner.LowerSlice | tea/ai/filename_cleaner.py:201 | lower-casing commutes with slicing, which makes the case-insensitive search a search in the lower-cased text |
| FilenameCleaner.ContainsLower | tea/ai/filename_cleaner.py:201 | an occurrence of a pattern is an occurrence of its lower-case form in the lower-cased text |
| FilenameCleaner.ValidAiOutputSafe | tea/ai/filename_cleaner.py:186-212 | an accepted answer is non-empty, within the limit and has an ASCII letter or digit. It holds no dangerous pattern in any mix of upper and lower case |
| FilenameCleaner.ValidateAiOutputCases | tea/ai/filename_cleaner.py:186-212 | the vetting accepts exactly the non-empty answers without a dangerous pattern (ignoring case), within the limit and holding an ASCII letter or digit |
| FilenameCleaner.Remaining | tea/ai/filename_cleaner.py:86-94 | the remaining count lies in [0, 50], and it is 0 exactly when today's count has reached 50 |
| FilenameCleaner.Recorded | tea/ai/filename_cleaner.py:80-84 | recording adds one to today's count and changes no other day's |
| FilenameCleaner.CanRequestNeedsQuota | tea/ai/filename_cleaner.py:59-78 | a request is allowed only while today's quota is not used up; with quota left and 3.0 s passed since the last request, it is allowed |
| FilenameCleaner.RecordUsesOne | tea/ai/filename_cleaner.py:80-94 | each recorded request uses up one of today's remaining requests and none of another day's |
| FilenameCleaner.RecordBlocksInterval | tea/ai/filename_cleaner.py:73-84 | after a request recorded at time t, none is allowed before t + 3.0 |
| FilenameCleaner.FiftyExhaust | tea/ai/filename_cleaner.py:68-71 | from a fresh history, n requests on one day leave 50 - n, and once 50 are recorded no further request is allowed that day |
| FilenameCleaner.AiAnswer | tea/ai/filename_cleaner.py:166-174 | the answer used is the stripped content, and it is used exactly when it passes the vetting |
| FilenameCleaner.KeepChars | tea/ai/filename_cleaner.py:275 | every character other than a word character, whitespace or '-' becomes a space; the length is kept |
| FilenameCleaner.Collapse | tea/ai/filename_cleaner.py:278 | collapsing whitespace runs does not lengthen the text and keeps a non-empty text non-empty |
| FilenameCleaner.CollapseSpaced | tea/ai/filename_cleaner.py:278 | after collapsing, the only whitespace is single spaces |
| FilenameCleaner.CollapseChars | tea/ai/filename_cleaner.py:278 | collapsing brings in no character but the space and keeps no whitespace but it |
| FilenameCleaner.CollapseKeepsShape | tea/ai/filename_cleaner.py:275-278 | after the character filter and the collapse, every character is a word character, a space or '-', and spaces are single |
| FilenameCleaner.Normalize | tea/ai/filename_cleaner.py:275-281 | the filtered, collapsed, stripped and cut title has at most 100 characters, single spaces only, and only word characters, spaces and '-' |
| FilenameCleaner.NormalizeShape | tea/ai/filename_cleaner.py:275-281 | the filter, collapse, strip and cut keep both shapes |
| FilenameCleaner.StripShape | tea/ai/filename_cleaner.py:281 | `strip()` keeps both shapes |
| FilenameCleaner.ShapeSlice | tea/ai/filename_cleaner.py:281 | `[:100]` keeps both shapes |
| FilenameCleaner.RegexClean | tea/ai/filename_cleaner.py:214-287 | the result is never empty and has at most 100 characters. Its only whitespace is single spaces. Unless it is the fallback 'Untitled', every character is a word character, a space or '-' |
| FilenameCleaner.UntitledShape | tea/ai/filename_cleaner.py:285 | 'Untitled' has the single-spaced shape |
| FilenameCleaner.Cleaner.RecordRequest | tea/ai/filename_cleaner.py:80-84 | today's count goes up by one, no other day's changes, and the last-request time becomes now |
| FilenameCleaner.Cleaner.GetRemainingRequests | tea/ai/filename_cleaner.py:86-94 | the remaining count lies in [0, 50], and it is 0 exactly when today's count has reached 50 |
| FilenameCleaner.Cleaner.AiClean | tea/ai/filename_cleaner.py:96-184 | no answer when the rate limit blocks; otherwise the vetted, stripped answer if any. A request is recorded exactly when an answer is returned, and nothing changes otherwise |
| FilenameCleaner.Cleaner.CleanTitle | tea/ai/filename_cleaner.py:289-310 | 'Untitled' for an empty title; otherwise the AI answer when the limit allows one and it passes; else the regex fallback. The result is never empty and has at most 100 characters. A request is recorded, at day `today` and time `now`, exactly when the AI answer is used; otherwise the request history and the last request time are unchanged. The key never changes |
| FilenameCleaner.NewCleaner | tea/ai/filename_cleaner.py:45-57 | an empty key raises `ValueError` (`null`); otherwise the cleaner holds the stripped key, no request history and time 0 |
| FilenameCleaner.Cleaner.constructor | tea/ai/filename_cleaner.py:55-57 | the cleaner holds the stripped key, no request history and time 0 |
| Search.ValidateAiOutputCases | tea/search.py:217-243 | the vetting accepts exactly the non-empty answers without a dangerous pattern, at most 200 characters long and holding an ASCII letter or digit |
| Search.ValidQuerySafe | tea/search.py:217-233 | an accepted query holds no dangerous pattern in any mix of upper and lower case |
| Search.QueryLimitWider | tea/search.py:217-243 | the search and the filename cleaner vet answers the same way except for the length limit: what the cleaner accepts, the search accepts, and the converse holds up to 100 characters |
| Search.FilteredAppend | tea/search.py:275-299 | filtering splits over concatenation, so the kept entries stay in the extractor's order |
| Search.FilteredSingle | tea/search.py:275-299 | one entry gives its result exactly when it is present and passes the URL and duration filter |
| Search.FilteredMembers | tea/search.py:275-299 | a result is kept exactly when some present entry yields it and it passes the filter |
| Search.KeptMember | tea/search.py:276-299 | a result an entry contributes comes from that entry and passes the filter |
| Search.FilteredMemberStep | tea/search.py:275-299 | adding one entry keeps the membership characterisation |
| Search.FilteredSnoc | tea/search.py:275-299 | one more entry adds exactly what that entry contributes |
| Search.FilterEntries | tea/search.py:273-301 | the loop returns the filtered list of the entries |
| Search.YoutubeSearch | tea/search.py:245-305 | the results are those of the extractor's outcome: none when it raises or answers nothing. Every result passes the URL and duration filter |
| Search.KeywordHits | tea/search.py:359-363 | the hit count is at most the number of keywords, and it is 0 exactly when no keyword occurs in the title |
| Search.ViewBonus | tea/search.py:365-368 | the view bonus is in [0, 20], and it is 0 when there are no views |
| Search.Score | tea/search.py:321-370 | the fallback score is non-negative and bounded. An exact phrase match gives at least 80, and a shared word gives at least 20 |
| Search.RankCorrect | tea/search.py:372-373 | ranking is a permutation in non-increasing score order, and results with equal scores keep their order (Python's stable sort) |
| Search.RankResults | tea/search.py:307-379 | the score, sort and score-removal loops return the ranked list |
| Search.ScoreAll | tea/search.py:321-370 | the scoring loop tags each result with its score, in order |
| Search.DropScores | tea/search.py:375-377 | the score-removal loop gives back the results in ranked order |
| Search.FormatDuration | tea/search.py:519-530 | 0 gives 'Unknown', and a positive duration gives the clock format. A negative one, under Python's floor division, formats its remainder modulo 3600 |
| Search.DurationPieces | tea/search.py:524-526 | the minute and second fields lie in [0, 60), and a negative duration has a negative hour count |
| Search.FormatDurationRoundTrip | tea/search.py:519-530 | a positive duration, once formatted, reads back as the same number of seconds |
| Search.RequestDelay | tea/search.py:142-144 | the pause ends at least 3.0 s after the last accepted request, and there is no pause once 3.0 s have passed |
| Search.Rewritten | tea/search.py:187-205 | a rewritten query is non-empty and passes the vetting |
| Search.RankKeeps | tea/search.py:122-124 | ranking brings in no result that fails the filter |
| Search.SearchService.constructor | tea/search.py:70-85 | the service holds its configuration values and the last request time 0 |
| Search.SearchService.EnhanceQuery | tea/search.py:128-215 | no rewrite without an API key. Otherwise the vetted answer, after the pause the interval demands. The last request time moves only when a rewrite is accepted |
| Search.SearchService.SearchSongs | tea/search.py:89-126 | a blank query gives no results and changes no state. Otherwise the search runs on the rewrite when the AI is enabled and one is accepted, else on the query. The results are ranked against the user's own query and all pass the filter. Without the AI step the request time and the pauses are unchanged; with it they change as `_enhance_query_with_ai` says |
| Clock.PartsToSeconds | tea/timestamps.py:66-74 | a value comes only from two or three pieces |
| Clock.TimeToSeconds | tea/timestamps.py:56-74 | a non-zero result comes from two or three pieces that `int()` accepts |
| Clock.TimeToSecondsOf | tea/timestamps.py:66-71 | the value of the pieces `int()` accepts is the result |
| Clock.ClockString | tea/timestamps.py:93-96 | a clock string has at least four characters |
| Clock.FormatTimeClamps | tea/timestamps.py:86-87 | a negative number of seconds is written as zero |
| Clock.ClockArithmetic | tea/timestamps.py:89-93 | hours, minutes and seconds put back together give the original number. Minutes and seconds lie below 60, and there are hours exactly from 3600 s on |
| Clock.ClockPieces | tea/timestamps.py:66-96 | a clock string is already stripped and splits at ':' into its written fields |
| Clock.PartsOfTwo | tea/timestamps.py:68-69 | two pieces give `m * 60 + s` |
| Clock.PartsOfThree | tea/timestamps.py:70-71 | three pieces give `h * 3600 + m * 60 + s` |
| Clock.ClockRoundTrip | tea/timestamps.py:56-96 | reading a clock string gives back the seconds it was written from |
| Clock.HourRoundTrip | tea/timestamps.py:70-94 | the hour form reads back as its seconds |
| Clock.MinuteRoundTrip | tea/timestamps.py:68-96 | the minute form reads back as its seconds |
| Clock.FormatTimeStripped | tea/timestamps.py:76-96 | `format_time` writes no surrounding whitespace |
| Clock.TimeRoundTrip | tea/timestamps.py:56-96 | `time_to_seconds(format_time(s)) == s` for every whole number of seconds |
| Timestamps.GroupsOfTwo | tea/utils/security.py:226-229 | a string of one or two digits, a colon and two digits matches with two groups |
| Timestamps.GroupsOfThree | tea/utils/security.py:226-229 | three digit fields match with three groups, except when the first has more than two digits |
| Timestamps.MinuteClockGroups | tea/utils/security.py:226-229 | the validator sees a clock string without hours as two groups |
| Timestamps.HourClockGroups | tea/utils/security.py:226-229 | a clock string with hours matches with three groups, except when the hours have three digits |
| Timestamps.ValidatorsOnNoMatch | tea/utils/security.py:226-229 | both validators reject a string the pattern does not match |
| Timestamps.ValidatorsOnPair | tea/utils/security.py:230-238 | with two groups, both validators demand minutes and seconds of at most 59 |
| Timestamps.ValidatorsOnTriple | tea/utils/security.py:230-238 | with three groups, the validator as written checks the third group against 23 and the first two against 59. The corrected one checks the hours against 23 and the rest against 59 |
| Timestamps.ValidatorOnClock | tea/utils/security.py:226-238 | on a clock string, the validator as written accepts exactly the times without hours and those with at most 59 hours and at most 23 seconds |
| Timestamps.IntendedValidatorOnClock | tea/utils/security.py:226-238 | the corrected validator accepts a clock string exactly when its hours are at most 23 |
| Timestamps.ValidatorOnFormattedTime | tea/utils/security.py:226-238 | the validator as written accepts `format_time(s)` exactly when s is below an hour, or has at most 59 hours and at most 23 seconds |
| Timestamps.ValidatorRejectsFormattedTime | tea/utils/security.py:230-233 | from one hour up to 60 hours, a formatted time whose seconds exceed 23 fails the validator, so `load_from_json` skips the clip |
| Timestamps.FormatTimeExample | tea/timestamps.py:76-96 | `format_time(5445)` is "1:30:45" |
| Timestamps.IntendedValidatorOnFormattedTime | tea/utils/security.py:204-238 | the corrected validator accepts exactly the formatted times below 24 hours |
| Timestamps.PatternChapter | tea/timestamps.py:311-337 | a chapter found by one pattern reads back as its seconds, lies within the video and has a title of at most 100 characters |
| Timestamps.ChapterOfPieces | tea/timestamps.py:319-335 | seconds read from the time string and within the video give a consistent chapter |
| Timestamps.FirstPatternChapter | tea/timestamps.py:310-337 | the first matching pattern gives a consistent chapter |
| Timestamps.LineChapters | tea/timestamps.py:304-337 | each line gives at most one chapter, and every chapter is consistent |
| Timestamps.FirstPerTime | tea/timestamps.py:346-351 | keeping the first chapter of each time keeps chapters of the list only and never lengthens it |
| Timestamps.TimesSnoc | tea/timestamps.py:346-351 | one more chapter adds its time to the set of seen times |
| Timestamps.FirstPerTimeTimes | tea/timestamps.py:346-351 | the chapters kept cover every time of the list |
| Timestamps.FirstPerTimeIncreasing | tea/timestamps.py:344-351 | after the sort by time, the kept chapters have strictly increasing times |
| Timestamps.PairEnds | tea/timestamps.py:353-364 | there is one clip per chapter |
| Timestamps.PairEndsProperties | tea/timestamps.py:353-364 | from strictly increasing consistent chapters, clip starts strictly increase and lie within the video, and titles have at most 100 characters. Each clip ends where the next starts, and the last ends at the video's end |
| Timestamps.ChaptersOkWithin | tea/timestamps.py:344-351 | chapters taken from consistent chapters are consistent |
| Timestamps.SortedWithin | tea/timestamps.py:344 | sorting brings in no chapter |
| Timestamps.DescriptionClipsProperties | tea/timestamps.py:283-366 | description clips start at strictly increasing times within the video and have titles of at most 100 characters. Each ends where the next begins, and the last at the video's end |
| Timestamps.LineChaptersNext | tea/timestamps.py:304-337 | a line shorter than 5 characters, or one no pattern turns into a chapter, adds nothing; otherwise its chapter is appended |
| Timestamps.FirstPerTimeNext | tea/timestamps.py:348-351 | a chapter whose time was seen is dropped; otherwise it is kept and its time recorded |
| Timestamps.LineChapter | tea/timestamps.py:310-337 | the pattern loop stops at the first pattern that yields a chapter |
| Timestamps.ScanDescriptionLines | tea/timestamps.py:301-337 | the line loop returns the chapters of the lines in order |
| Timestamps.DropRepeatedTimes | tea/timestamps.py:346-351 | the `seen_times` loop keeps the first chapter of each time |
| Timestamps.PairChapters | tea/timestamps.py:353-364 | the pairing loop returns the paired clips |
| Timestamps.PairEndsNext | tea/timestamps.py:354-364 | clip i starts at chapter i and ends at the next chapter, or at the video's end |
| Timestamps.ParseDescriptionTimestamps | tea/timestamps.py:283-366 | the method returns the description clips, with the properties above |
| Timestamps.RangeClips | tea/timestamps.py:113-125 | each part gives at most one entry |
| Timestamps.AllAtAppend | tea/timestamps.py:114-125 | a property of each entry at its position survives one more entry that has it |
| Timestamps.RangeEntryTitled | tea/timestamps.py:119-125 | a range entry is titled by its stripped rest or numbered by its position |
| Timestamps.AllTitledAppend | tea/timestamps.py:120-125 | one more titled or numbered entry keeps the list titled |
| Timestamps.RangeClipsTitles | tea/timestamps.py:113-125 | every range entry has its own rest as title, or "Clip n" where n counts the entries so far |
| Timestamps.RangeClipsTitledStep | tea/timestamps.py:114-125 | one more part keeps every entry titled by its rest or numbered by its position |
| Timestamps.RangeTitleShape | tea/timestamps.py:123 | a range title is a stripped text or "Clip n" |
| Timestamps.NonBlank | tea/timestamps.py:127 | the kept lines are stripped and non-empty |
| Timestamps.LineEntryEnds | tea/timestamps.py:129-148 | a line's entry starts at its timestamp, is titled by its stripped rest, and ends at the next line's first timestamp, or at the duration for the last line. A matching line with such a non-empty end always yields an entry |
| Timestamps.LineClips | tea/timestamps.py:129-148 | each line gives at most one entry |
| Timestamps.RangeClipsNext | tea/timestamps.py:114-125 | one more part adds exactly its entry |
| Timestamps.ParseTimestampList | tea/timestamps.py:98-150 | range mode is chosen when the text has a '-' and either a ',' or no line break; the result is that mode's entries |
| Timestamps.RangeEntries | tea/timestamps.py:113-125 | the range loop returns the entries of the parts |
| Timestamps.RangeEntryOf | tea/timestamps.py:115-125 | one part gives its entry |
| Timestamps.LineEntries | tea/timestamps.py:127-148 | the line loop returns the entries of the lines |
| Timestamps.LineEntryAt | tea/timestamps.py:130-148 | one line gives its entry |
| Timestamps.FilterClips | tea/timestamps.py:188-207 | each clip gives at most one entry |
| Timestamps.FilteredClipKept | tea/timestamps.py:189-207 | a clip is kept exactly when it is an object with a start and an end that pass `validate_timestamp` once stripped. Kept clips have stripped ends and a sanitised title without unsafe or control characters |
| Timestamps.FormattedClipKept | tea/timestamps.py:188-207 | a clip whose ends were written by `format_time` is kept exactly when both times pass the validator as written: below an hour, or at most 59 hours with at most 23 seconds |
| Timestamps.FormattedAccepted | tea/utils/security.py:204-238 | the validator as written accepts `format_time(s)` exactly when s is below an hour, or has at most 59 hours and at most 23 seconds |
| Timestamps.StrippedFormattedPasses | tea/timestamps.py:189-193 | stripped as the loader strips it, `format_time(s)` passes the validator as written exactly when s is below an hour, or has at most 59 hours and at most 23 seconds |
| Timestamps.ValidatorsOnStripped | tea/utils/security.py:226-227 | both validators strip their argument, so stripping it beforehand changes neither verdict |
| Timestamps.FormattedClipDropped | tea/timestamps.py:189-196 | the clip from `format_time(5445)` to `format_time(5460)` (1:30:45 to 1:31:00) is dropped |
| Timestamps.FormattedClipKeptIntended | tea/timestamps.py:189-196 | with the corrected validator, a clip whose ends were written by `format_time` is kept exactly when both times are below 24 hours |
| Timestamps.FilterClipsValid | tea/timestamps.py:188-207 | every loaded clip has timestamps that pass `validate_timestamp` and a non-empty title of at most 100 characters |
| Timestamps.FilterClipsNext | tea/timestamps.py:188-207 | one more clip adds exactly what it gives |
| Timestamps.AnyRaisesNext | tea/timestamps.py:188-189 | a prefix one element longer holds a raising element exactly when the shorter prefix does or the new element raises |
| Timestamps.LoadClips | tea/timestamps.py:187-220 | the clip loop returns [] when some element raises at `'start' in clip` or `clip['start']` (the `except Exception` handler). Otherwise it returns the filtered clips, judged by `validate_timestamp` as written |
| Timestamps.LoadClip | tea/timestamps.py:189-207 | one non-raising element gives its filtered entry (none for a non-object), judged by `validate_timestamp` as written |
| Timestamps.LoadFromJson | tea/timestamps.py:152-222 | a rejected path, a missing path, a non-file, a document of another shape or a "clips" value that cannot be iterated gives no clips. So does a list with an element that raises. Otherwise the result is the filtered clips of the list, or of what the object's "clips" yields |
| Exceptions.Lookup | tea/exceptions.py:30-31 | a key is found exactly when it is in the dictionary, and what is found is its value |
| Exceptions.PutItemLookup | tea/exceptions.py:63-66 | after `d[k] = v`, `k` maps to `v` and every other key keeps its value |
| Exceptions.PutItemOrder | tea/exceptions.py:63-66 | a new key goes last, and an existing key leaves the key order as it was |
| Exceptions.PutAllAppend | tea/exceptions.py:62-66 | two batches of writes are the writes in sequence |
| Exceptions.PutAllLookup | tea/exceptions.py:62-66 | after writes under distinct keys, each written key holds its value and every other key what the starting dictionary held |
| Exceptions.KindDetailsDistinct | tea/exceptions.py:62-269 | no constructor writes the same key twice |
| Exceptions.DownloadDetails | tea/exceptions.py:47-70 | "url" is added only for a non-empty URL. "retry_count" is added for any count that is not `None`, zero included. Other keys keep the caller's entries |
| Exceptions.ValidationDetails | tea/exceptions.py:84-107 | "field" is added when it is non-empty. "value" is added whenever it is not `None`, empty text included |
| Exceptions.ConfigurationDetails | tea/exceptions.py:120-143 | each of the two keys is added only when non-empty |
| Exceptions.FFmpegDetails | tea/exceptions.py:157-180 | "command" is added when non-empty, and "exit_code" whenever it is not `None` |
| Exceptions.SingleKeyDetails | tea/exceptions.py:192-272 | the history, timestamp and search errors each add their one key, "history_path", "timestamp" or "query", only when the argument is non-empty |
| Exceptions.Render | tea/exceptions.py:29-34 | the rendering starts with the message |
| Exceptions.RenderBare | tea/exceptions.py:29-34 | the bare message is rendered exactly when there are no details |
| Exceptions.RenderAppend | tea/exceptions.py:30-33 | a detail added under a new key shows up last, after ", ", before the closing parenthesis |
| Exceptions.JoinShowsEach | tea/exceptions.py:31 | every detail appears in the joined text as `key=value` |
| Exceptions.RenderShowsEach | tea/exceptions.py:29-34 | every detail appears in the rendering as `key=value` |
| Exceptions.Details.Put | tea/exceptions.py:64 | `details[k] = v` updates the shared dictionary in place |
| Exceptions.Details.PutIf | tea/exceptions.py:63-66 | a constructor's conditional write makes exactly its write, or none |
| Exceptions.TeaError.constructor | tea/exceptions.py:18-70 | the error holds the message and its subclass arguments. A non-empty dictionary from the caller is shared and written into. An empty or missing one is replaced by a fresh dictionary, and an empty one the caller passed stays empty |
| Exceptions.TeaError.ToString | tea/exceptions.py:29-34 | an error without details renders as its message; otherwise every detail appears as `key=value` |
| Exceptions.Details.constructor | tea/exceptions.py:27 | a dictionary of the error's own starts empty |
| Urls.UrlSplit | tea/utils/security.py:152 | `urlparse`: a network location never holds '/', '?' or '#', and a scheme is made of scheme characters only |
| Urls.UnquotePlusPlain | tea/info.py:99 | a `parse_qs` field name with neither '%' nor '+' reads as itself |
| Urls.UnquotePlusNoPlus | tea/info.py:99 | without '+' in a field name, only the `%XX` decoding applies |
| Urls.PercentDecodeEscape | tea/info.py:99 | a '%' followed by two hex digits decodes to the character of the byte they spell |
| Urls.UnquotePlusEscape | tea/info.py:99 | the field name "%6Cist" reads as "list", so `?%6Cist=PL1` has a `list` parameter |
| Urls.FieldIsOf | tea/info.py:99 | a field `key=value` names `name` exactly when the key decodes to `name` and the value is not empty |
| Urls.UrlSplitOfAuthority | tea/utils/security.py:152-158 | `scheme://host...` splits into that scheme and that host |
| Sorting.SortByCorrect | tea/timestamps.py:344 | `sort(key=...)` gives a permutation in key order, and elements with equal keys keep their order (Python's sort is stable) |
| Sorting.TaggedSort | tea/search.py:370-377 | sorting the (result, score) pairs in reverse by score and then dropping the scores is the reverse stable sort of the results by score |

## Left out

- File and JSON I/O: configuration loading is modelled on the decoded document, and the outcome of a write is a parameter.
- History.HistoryManager: every operation of the source first calls `load()` (tea/history.py:86, 112, 130, 169, 205, 221, 231), which re-reads the file and replaces the history in memory. The model does not reload: it takes each reload to return the history in memory, as if the file always held what the last save wrote. So after a save that fails, the model keeps the change, where the source's next call would read back the older file.
- HTTP calls to the AI services: only the rate-limit gate, the vetting of the answer and the request bookkeeping are modelled. The answer itself is a parameter.
- yt-dlp: each extraction or download attempt is a parameter outcome (an oracle), and so is what the extractor reports for a URL.
- Concurrency: `ThreadPoolExecutor` and the worker bound are not modelled. The batch is processed one URL at a time, and the fan-in is proved independent of completion order.
- The clock and `time.sleep`: clock readings are parameters, and the pauses taken are recorded in a ghost sequence instead of being slept.
- The regular expressions of `parse_timestamp_list`, `parse_description_timestamps` and the junk and emoji removal of `_regex_clean` (tea/ai/filename_cleaner.py:258-272) are parameters or abstract functions. The character filter, the whitespace collapse, the strip, the cut and the fallback are modelled.
- Floating point: `_format_views` is not modelled, and the logarithmic view bonus is an abstract function whose value is capped at 20. `parse_description_timestamps` takes the video duration as whole seconds.
- Search.Score: the fuzzywuzzy branch of `_rank_results` is not modelled, only the plain string-matching fallback. `max_results` is passed to yt-dlp and not modelled.
- The interactive and display code: menus, prints and progress output, `display_search_results`, `search_and_select`, `get_interactive_timestamps`, `list_formats`, `extract_youtube_chapters` and the song-file loader.
- The final "Unexpected error" return of the retry loop (tea/downloader.py:259-264) cannot be reached, since every attempt either returns or raises. It is not modelled.
- ffmpeg.py, ux.py and progress.py are not part of this model.
- Text.Lower: case folding is ASCII-only. Python's full Unicode case mapping is not modelled, and neither is the wider folding of `re.IGNORECASE` (tea/ai/filename_cleaner.py:201, tea/search.py:230), which also matches 'ſ' with 's' and 'ı' with 'i'. So `FilenameCleaner.HasDangerousPattern` accepts "<ſcript", which the source refuses.
- Security.ValidateFilePath: the source takes the extension from `os.path.abspath(filepath)` (tea/utils/security.py:71, 93-94), after `normpath` has dropped trailing '/' and '.' components and resolved a trailing `..`. The model takes it from the unquoted input. So "clips.json/" is rejected by the model and accepted by the source, and `Timestamps.LoadFromJson` inherits the difference. The absolute path the source returns is not modelled either.
- Search.YoutubeSearch: `None` in an entry means the key is absent. A key that is present with a JSON null value is not modelled. In the source, a null `duration` makes the duration comparison raise `TypeError`, which the handler at tea/search.py:303 turns into `[]` for the whole search. A null `url` does not fall back to `webpage_url`, and a null `view_count` or `title` raises out of `_rank_results`.
- Search.SearchService: `search_use_ai` and the duration bounds are fixed when the service is built. The source reads them from the configuration on every call (tea/search.py:110, 290-291).
- Config.Value: a JSON number is an integer, so floats are not modelled. The source resets `"concurrent_downloads": 3.0` to the default, because `isinstance(3.0, int)` is false; the model cannot state that file.
- The repository's unit tests are not part of this model, and nothing in it depends on them.
- Text.PyInt: `int()` is modelled on ASCII digits, with Python's whitespace, sign and underscore rules. Non-ASCII digits are not modelled.
- Security.TimestampGroups: `\d` in the str pattern `TIMESTAMP_PATTERN` (tea/utils/security.py:30) matches every Unicode decimal digit, and `int()` reads them. The model accepts ASCII digits only, so `validate_timestamp("١:٣٠")` is True in the source and false in the model. `Security.ValidateTimestamp` and the timestamp loaders inherit this.
- The fallback definitions in tea/timestamps.py:21-38, used only when the security module cannot be imported, are not modelled.
- Cli: the check for non-string entries in `parse_multiple_urls` is not modelled, since the model's URLs are strings.
- Cli.LoadUrlsFromFile: path validation and the file read are modelled as an optional list of lines, with `None` for every failure.
- Cli.HandleDuplicates: end of input at the prompt is modelled as the `raised` outcome. The auto-save performed by `config.set` is not modelled.
- Config.LoadedConfigValid: holds only for files that load cleanly: every value hashable, and for a JSON list, every element a pair. The other cases are findings below.
- Info.GuessFromUrl: the `ValueError` that `urlparse` raises for an unbalanced '[' or ']' is modelled as no guess. Its other `ValueError`s are not modelled; see the next line.
- Urls.UrlSplit: only the unbalanced-bracket `ValueError` is modelled. The NFKC check of a non-ASCII network location (`_checknetloc`) and the check of the text inside brackets (`_check_bracketed_netloc`, in recent Python versions) are not. For such URLs the model returns a split, where `_guess_from_url` raises and `is_youtube_url` returns False.
- Urls.PercentDecode: a decoded byte from 0x80 on becomes U+FFFD instead of going through UTF-8 decoding. Only comparisons with ASCII names are made, and those come out as in the source.
- Security: `is_path_safe` and the `base_dir` check of `validate_file_path` depend on `realpath` and the file system. They are not modelled.
- FilenameCleaner.Cleaner.AiClean: the clock is read once per request, so the time recorded is the time checked. The pause in lines 111-113 is not modelled, since the gate has already ensured that the interval has passed.

## Findings

For each row, the operations of the model compute what the code does as written: `Timestamps.LoadClips` filters with `validate_timestamp` as written, `Config.ConfigManager.Load` repairs as `_load` does and keeps the configuration on a `TypeError` or a failed `update`, and `Downloader.DownloadSingleVideo` returns the literal `.{ext}` template. The lemma in the as-written column exhibits the input. The corrected definition stands beside it under its own name, with the intended property proved: `Security.ValidateTimestampIntended` with `Timestamps.FilteredClipIntended`, `Config.RepairIntended` with `Config.LoadedConfigIntended`, `Security.SanitizePathIntended` and `Downloader.OutputTemplateIntended`. `sanitize_path` has no caller in the core.

| source | as written | input that shows it | evidently intended | confidence | as-written member | corrected member |
|---|---|---|---|---|---|---|
| tea/utils/security.py:226-233 | `validate_timestamp` reads group 1 as minutes and group 3 as hours, so on `H:MM:SS` it checks the hours against 59 and the seconds against 23 | "1:30:45", which is `format_time(5445)` and listed as valid in tests/test_security.py:184, is rejected | hours are at most 23, and minutes and seconds at most 59 | not executed | Timestamps.ValidatorRejectsFormattedTime | Timestamps.IntendedValidatorOnFormattedTime |
| tea/utils/security.py:125 | one pass of `replace('../', '')` can join the pieces around a removed match into a new `../` | "..././" sanitises to "../" | no `../` or `..\` left in the result | not executed | Security.SanitizePathLeavesTraversal | Security.SanitizePathIntended |
| tea/config.py:119-121, 138-140 | an unhashable value makes `validate_config` raise `TypeError`, which skips the repair loop and leaves the merged configuration in place | a configuration file holding `{"mp3_quality": []}` keeps the list | invalid values are replaced by their defaults | not executed | Config.UnhashableEscapesRepair | Config.LoadedConfigIntendedValid |
| tea/config.py:116, 138-140 | an exception from `self._config.update(user_config)` goes to the outer handler, which logs "Using defaults" but keeps the pairs already applied and skips `validate_config` | a file holding `[["concurrent_downloads", 99], 0]` loads with 99 | a failed update leaves the defaults | not executed | Config.PartialUpdateEscapesCheck | Config.LoadedConfigIntendedValid |
| tea/downloader.py:175, 192-193 | the single-video and AI templates end in a literal `.{ext}` rather than yt-dlp's `.%(ext)s` field | any single-video URL gives the template "downloads/%(title)s.{ext}" | the file takes the real extension | not executed | Downloader.VideoTemplateLiteralExt | Downloader.OutputTemplateIntended |
