# InstaScan analysis core, modelled in Dafny

InstaScan is an Instagram OSINT command-line tool. Given a username, it:

- reads the profile through the instaloader library;
- analyses a bounded window of the posts: per-post summaries, a location list, hashtag and mention tallies ranked by frequency, and weekday/hour posting histograms;
- for a public profile in a logged-in session, compares followers with followees;
- probes seven other sites for the same handle;
- exports everything as JSON, as CSV files, or as a text report.

This project models that analysis logic, all of it in `Instascan.py`, once the provider, HTTP and the thread pool are abstracted away. It proves the properties the code promises.

| file | module | models |
|---|---|---|
| `provider.dfy` | `Provider` | the provider's lazy, possibly failing sequences (`Stream`) |
| `sequences.dfy` | `Sequences` | the positions of the elements of a sequence that pass a test |
| `calendar.dfy` | `Calendar` | weekday, hour and whole-day differences of UTC timestamps in epoch seconds |
| `frequency.dfy` | `FrequencyTable` | insertion-ordered count dicts, `dict.get(k, 0) + 1`, the stable descending `sorted` and the `[:n]` cut |
| `patterns.dfy` | `PostingPatterns` | `analyze_posting_patterns`, as a method with a loop proved against `PatternsOf` |
| `posts.dfy` | `PostAnalysis` | `analyze_posts`, as a method with a loop proved against `AnalysisOf(Window(..))` or the zeroed bundle |
| `connections.dfy` | `ConnectionAnalysis` | `analyze_connections`: the guards, the append loops and the two username differences |
| `probe.dfy` | `ExternalReferences` | `search_external_references` and `check_url`: the site list, `urlparse(..).netloc`, `replace("www.", "")`, `split(".")[0].capitalize()`, and the classification |
| `export.dfy` | `ResultExport` | `export_results`: the results dict, the CSV files with `DictWriter` rows, the text report's blocks, and the format dispatch |
| `scan.dfy` | `Scan` | `run`: which stages run and what reaches the export |

The provider is a `Stream(items, failAt)`. Request `k` answers `items[k]`, and request `|items|` reports exhaustion. When `failAt == Some(k)`, request `k` raises instead.

The post loop issues requests `0 .. min(max_posts, |items|)`. Item `max_posts` is fetched before the `i >= max_posts` test stops the loop, so a failure there also collapses the result.

The network is a function from URL to outcome: a status code, or an exception message.

Where a plain reading of the tool's design and its code differ, the model follows the code:

- An exception during post aggregation discards all partial work and returns the zeroed bundle (`Instascan.py:190-199`).
- No timestamps give an empty patterns dict, not zero histograms (`Instascan.py:203-204`).
- The frequency span `(t[0] - t[-1]).days` has no absolute value. With oldest-first timestamps it is negative, and the clamp makes the denominator 1 (`Instascan.py:222`).
- `replace("www.", "")` removes every occurrence of `www.` in the host, not only a leading one (`Instascan.py:304`, `Instascan.py:321`).
- The "EXTERNAL REFERENCES" block is printed whenever the reference list is non-empty, even when no reference was found (`Instascan.py:420-424`).
- A connections dict that was passed to the export is never empty: even the two-key fallback is truthy. So only a missing one becomes `{}` (`Instascan.py:350`).

## Model

| member | source | states |
|---|---|---|
| Calendar.Weekday | Instascan.py:206-211 | the weekday bucket of a timestamp is one of the seven day names' indices |
| Calendar.Hour | Instascan.py:208-212 | the hour bucket of a timestamp is one of 0..23 |
| Calendar.DaysBetween | Instascan.py:222 | `(a - b).days` is the floor of the difference in days: bounded by whole days on both sides, non-negative exactly when `a >= b` |
| Calendar.WeekdayNextDay | Instascan.py:211 | one day later the weekday advances by one, modulo 7 |
| Calendar.HourOfDay | Instascan.py:211-212 | within a day the hour is the number of whole hours since midnight and the weekday is that of the day |
| PostingPatterns.FirstMax | Instascan.py:214-215 | `max(items, key=count)` picks a bucket holding the maximum, and every earlier bucket holds strictly less (the first maximum) |
| PostingPatterns.SpanDenominator | Instascan.py:222 | the denominator is `max(span, 1)`: at least 1, at least the whole-day span, and equal to one of the two |
| PostingPatterns.HistogramTotal | Instascan.py:207-212 | every timestamp lands in exactly one bucket: the buckets sum to the number of timestamps |
| PostingPatterns.CountIsMultiplicity | Instascan.py:210-212 | the count the loop accumulates for a bucket is the number of timestamps with that key |
| PostingPatterns.PatternsOfNonEmpty | Instascan.py:203-223 | for non-empty input: 7 day and 24 hour buckets, each counting its timestamps, each histogram summing to the number of posts, most active day and hour the first maxima |
| PostingPatterns.FrequencyBounds | Instascan.py:222 | the ratio lies between 0 and the number of posts, and is 0 for fewer than two posts |
| PostingPatterns.FrequencyNewestFirst | Instascan.py:222 | for timestamps in the provider's newest-first order, the first-minus-last span is the order-free span from the oldest to the newest post, so the ratio is posts over that span, clamped to at least one day |
| PostingPatterns.FrequencyOldestFirst | Instascan.py:222 | oldest-first input: the negative span is clamped to 1, so the ratio is the number of posts |
| PostingPatterns.AnalyzePostingPatterns | Instascan.py:201-223 | the loop builds exactly `PatternsOf(times)`; the empty dict comes back exactly for empty input |
| FrequencyTable.IncrementSpec | Instascan.py:157-158 | `d[k] = d.get(k, 0) + 1` adds one to `k`'s count, leaves the others, and appends `k` only when it is new |
| FrequencyTable.CountIntoSpec | Instascan.py:156-162 | after a tally every count is the old count plus the token's occurrences, keys stay distinct, old keys keep their place |
| FrequencyTable.CountIntoAppend | Instascan.py:156-162 | tallying two token lists one after the other equals tallying their concatenation |
| FrequencyTable.TallySpec | Instascan.py:156-162 | a fresh tally holds each token once, with its number of occurrences, in first-seen order |
| FrequencyTable.SortByCountSpec | Instascan.py:173-174 | the stable descending sort is a permutation, sorted non-increasing by count, with ties in their original order |
| FrequencyTable.TopSpec | Instascan.py:183-184 | the `[:n]` cut holds `min(n, |d|)` sorted entries of the dict, and every entry left out counts no more than any kept |
| FrequencyTable.RankedTokens | Instascan.py:156-184 | the ranked top list of a tally: counts are occurrences, no token twice, non-increasing, at most n, and no omitted token outnumbers a listed one |
| PostAnalysis.CountTokens | Instascan.py:157-162 | the per-post increment loop computes the functional tally |
| PostAnalysis.ReadWindow | Instascan.py:120-166 | the loop reads exactly the window; it reports failure exactly when one of the window's requests raises, and otherwise holds the summaries, locations, both tallies and timestamps of the window's posts |
| PostAnalysis.AnalyzePosts | Instascan.py:109-199 | the window is consumed in provider order; any failure within its requests gives the zeroed bundle, otherwise the analysis of the window; `posts_analyzed == |posts_data| <= max_posts` |
| PostAnalysis.WindowSpec | Instascan.py:123-125 | the window is a prefix of the provider's posts: `max_posts` of them when there are that many, all otherwise, none when `max_posts <= 0` |
| PostAnalysis.ExtraFetchCollapses | Instascan.py:123-125 | for every provider that raises when the post at index `max_posts` is fetched, the window is still its first `max_posts` posts and the analysis fails |
| PostAnalysis.LocationEntriesSpec | Instascan.py:147-154 | one location entry per located post, in post order, none for other posts, its `post_url` the post's URL |
| PostAnalysis.AnalysisOfSummaries | Instascan.py:127-141 | one summary per consumed post, in order, with its Instagram URL and timestamp; `posts_analyzed` is their number |
| PostAnalysis.RankedHashtags | Instascan.py:156-183 | top hashtags: occurrence counts over the consumed posts, at most 20, distinct, non-increasing, nothing omitted outnumbers a listed tag |
| PostAnalysis.RankedMentions | Instascan.py:160-184 | the same for mentions |
| PostAnalysis.HashtagCountsGrow | Instascan.py:156-158 | a hashtag's count never decreases as more posts are processed |
| ConnectionAnalysis.Usernames | Instascan.py:261 | the username list has one entry per account, in order |
| ConnectionAnalysis.UnmatchedMembership | Instascan.py:260-265 | a username is in a difference exactly when the filtered list has it and the other list does not |
| ConnectionAnalysis.UnmatchedInOrder | Instascan.py:260-261 | a difference keeps the order of the list it filters |
| ConnectionAnalysis.UnmatchedByNamesOnly | Instascan.py:260-265 | a difference depends only on which usernames the other list holds |
| ConnectionAnalysis.UnmatchedPermutationInvariant | Instascan.py:260-265 | permuting the other list leaves a difference unchanged |
| ConnectionAnalysis.UnmatchedSetOrderFree | Instascan.py:260-265 | the set of usernames in a difference depends on neither list's order |
| ConnectionAnalysis.DifferencesDisjoint | Instascan.py:260-265 | no username is in both differences |
| ConnectionAnalysis.Collect | Instascan.py:243-257 | an append loop returns the stream's accounts in order, or fails exactly when iterating the stream raises |
| ConnectionAnalysis.AnalyzeConnections | Instascan.py:225-280 | private or logged out gives the two-key fallback; a failure in either stream gives it too; otherwise the counts, both differences and both lists |
| ExternalReferences.SiteUrls | Instascan.py:286-294 | seven URLs, one per site |
| ExternalReferences.RemoveAll | Instascan.py:304 | removing occurrences never lengthens the host |
| ExternalReferences.RemoveMiddle | Instascan.py:304 | an occurrence of `www.` after other text is removed too, not only a leading one |
| ExternalReferences.RemoveAfter | Instascan.py:321 | text with no `ww` in it is kept, and the removal goes on in whatever follows it |
| ExternalReferences.CheckUrl | Instascan.py:298-327 | "Found" exactly for status 200, "Not found" for any other status, "Error" exactly for an exception with its message kept; the label depends on the URL alone |
| ExternalReferences.StatusTextDistinct | Instascan.py:310-325 | the three status strings "Found", "Not found" and "Error" are distinct, so the status can be read back from its string |
| ExternalReferences.HttpsNetloc | Instascan.py:304 | the network location of `https://<host>/<path>` is the host, whatever the path |
| ExternalReferences.RemoveLeading | Instascan.py:304 | a leading `www.` is removed |
| ExternalReferences.RemoveEveryOccurrence | Instascan.py:304 | a second `www.` after the first is removed too |
| ExternalReferences.RemoveNoOccurrence | Instascan.py:304 | a host with no `ww` is left as it is |
| ExternalReferences.FirstSegmentOf | Instascan.py:308 | `split(".")[0]` is the text before the first dot |
| ExternalReferences.CapitalizeWord | Instascan.py:308 | a lower-case word is capitalised by raising its first letter |
| ExternalReferences.HostLabel | Instascan.py:304-308 | the label of an `https` URL is its host's first segment, capitalised, with or without `www.`, whatever the path |
| ExternalReferences.LabelOfSite | Instascan.py:286-308 | site i gets label i whatever the handle |
| ExternalReferences.SiteLabelsFixed | Instascan.py:286-308 | the seven sites are labelled Twitter, Facebook, Tiktok, Reddit, Linkedin, Github, Youtube, whatever the handle |
| ExternalReferences.SearchSpec | Instascan.py:286-331 | one result per site, in site order, each for its URL, with its site's label, classified from the answer to that URL alone |
| FrequencyTable.Keys | Instascan.py:369 | the keys of a dict, one per entry, in insertion order |
| ResultExport.RecordValues | Instascan.py:370 | the values of a dict, one per entry, in order |
| ResultExport.Assemble | Instascan.py:347-357 | missing connections become `{}` and passed ones are kept; missing references become `[]`; the metadata names the tool, the timestamp and the target |
| ResultExport.LookupOfKey | Instascan.py:376-378 | `DictWriter` finds each key's value in a record without repeated keys |
| ResultExport.DictRowOfOwnKeys | Instascan.py:375-378 | a record written under its own keys gives its values in order |
| ResultExport.RecordShapes | Instascan.py:127-154 | post and location records carry the fixed, distinct key lists |
| ResultExport.CsvArtifactsSpec | Instascan.py:365-388 | the profile file always; the posts (locations) file exactly when the list is non-empty, with the first record's keys as header and one row of values per record |
| ResultExport.FoundReferencesSpec | Instascan.py:420-424 | the reference lines are exactly the found references, in order |
| ResultExport.NoneFound | Instascan.py:422-424 | no reference line is printed exactly when no reference has status "Found" |
| ResultExport.HeadSpec | Instascan.py:412-417 | `[:10]` keeps at most ten entries, a prefix of the list |
| ResultExport.ReportBlocks | Instascan.py:390-424 | the report is the three fixed blocks and the optional blocks, each present under its condition |
| ResultExport.ReportPresence | Instascan.py:399-424 | each optional block is present exactly when its data is non-empty |
| ResultExport.ReportWitnesses | Instascan.py:403-424 | each optional block is printed when its data is non-empty |
| ResultExport.ReportContents | Instascan.py:410-424 | hashtag and mention blocks hold at most ten entries in rank order; the references block holds the found references |
| ResultExport.HeaderWithoutFound | Instascan.py:420-424 | every non-empty list with no found reference still prints the references header, with no lines |
| ResultExport.ExportDispatch | Instascan.py:359-424 | "json" writes the full results to `<target>_<timestamp>.json`; "csv" output ignores connections and references; the report ignores connections |
| Scan.Run | Instascan.py:426-452 | posts always analysed; connections only for a public profile when logged in; external search only on request; the export receives exactly those results |

## Left out

- The instaloader calls are not modelled: `Profile.from_username`, `get_posts`, `get_followers`, `get_followees`, `login`, and loading and saving the session. Their data is given as `Stream`s and records, and their exceptions as the `failAt` index.
- `get_profile_data` is not modelled: it copies library attributes and the wall clock into a dict. The profile dict is an input `Record`.
- `login`, `__init__`, `main` and its argument parsing are not modelled, nor is the proxy set through `os.environ`.
- HTTP (`requests.get`) and `ThreadPoolExecutor` are not modelled. The network is a function from URL to outcome. `executor.map` returns results in input order, and the model computes them in that order.
- File and console output, `json.dump`, and the byte formats of `csv.writer` and `DictWriter` are not modelled. The model states which artifacts are produced, with their headers and rows, and which report blocks are printed with what content.
- Clocks and formatting are not modelled: `datetime.now()`, the `strftime` strings, `:.2f`, and the elapsed time in `run`. Timestamps stay integer epoch seconds; the export's timestamp is an input string.
- `post_frequency_days` is a mathematical real, not a binary64 float.
- `urlparse` rejects malformed IPv6 brackets, and `str.capitalize` does full Unicode case mapping. Neither is modelled: `Netloc` follows `urlsplit`'s scheme and network-location split, and `Capitalize` maps ASCII letters only. All hosts in the site list are ASCII.
- `DictWriter` raises on keys missing from the field names. This path is not modelled, because every post or location record carries the same keys.
- Verbose progress printing is not modelled.
- ExternalReferences.SiteUrls: lists each site as a host and a path prefix, and builds the URL as `https://<host>/<path><handle>`, the same string as the source's f-strings.
