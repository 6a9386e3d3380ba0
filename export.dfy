/** `export_results`: the assembled results dict, and what each output format
    makes of it — one JSON document, a set of CSV files, or the text report. */
module ResultExport {
  import opened Provider
  import opened FrequencyTable
  import opened PostingPatterns
  import opened PostAnalysis
  import opened ConnectionAnalysis
  import opened ExternalReferences
  import opened Sequences

  /** A value of a flat record: what the CSV and report branches print. */
  datatype Value = Str(s: string) | Int(i: int) | Num(r: real) | Bool(b: bool) | Null | Strs(items: seq<string>)

  /** A dict in insertion order. */
  type Record = seq<(string, Value)>

  function RecordValues(r: Record): (vs: seq<Value>)
    ensures |vs| == |r|
    ensures forall i :: 0 <= i < |r| ==> vs[i] == r[i].1
  {
    seq(|r|, i requires 0 <= i < |r| => r[i].1)
  }

  // ---------------------------------------------------------------------------
  // The assembled results

  /** The `connections` entry: `{}` when no connections were passed. */
  datatype ConnectionsField = Omitted | Included(connections: Connections)

  /** The results dict, with its `scan_metadata` entries inlined. */
  datatype ScanResults = ScanResults(
    profileData: Record,
    postsAnalysis: PostsAnalysis,
    connections: ConnectionsField,
    externalReferences: seq<ProbeResult>,
    timestamp: string,
    tool: string,
    target: string)

  /** The results dict: a missing connections dict becomes `{}` (a dict that
      was passed is never empty, so it is kept), and a missing or empty
      reference list becomes `[]`. */
  function Assemble(profile: Record, analysis: PostsAnalysis, connections: Option<Connections>,
                    refs: Option<seq<ProbeResult>>, timestamp: string, target: string): (r: ScanResults)
    ensures r.connections.Omitted? <==> connections.None?
    ensures connections.Some? ==> r.connections == Included(connections.value)
    ensures refs.Some? ==> r.externalReferences == refs.value
    ensures refs.None? ==> r.externalReferences == []
    ensures r.profileData == profile && r.postsAnalysis == analysis
    ensures r.tool == "InstaScan" && r.timestamp == timestamp && r.target == target
  {
    ScanResults(
      profile, analysis,
      (match connections case Some(c) => Included(c) case None => Omitted),
      (match refs case Some(rs) => rs case None => []),
      timestamp, "InstaScan", target)
  }

  /** `f"{results_dir}/{target}_{timestamp}"`. */
  function OutputBase(target: string, timestamp: string): string
  {
    "results/" + target + "_" + timestamp
  }

  // ---------------------------------------------------------------------------
  // The CSV branch

  const POST_KEYS: seq<string> :=
    ["shortcode", "url", "timestamp", "likes", "comments", "caption", "location", "hashtags", "mentioned_users", "is_video"]

  const LOCATION_KEYS: seq<string> := ["name", "id", "lat", "lng", "post_url"]

  /** The `post_data` dict, keys in the order they are written. */
  function PostRecord(s: PostSummary): Record
  {
    [ ("shortcode", Str(s.shortcode)),
      ("url", Str(s.url)),
      ("timestamp", Int(s.timestamp)),
      ("likes", Int(s.likes)),
      ("comments", Int(s.comments)),
      ("caption", Str(s.caption)),
      ("location", match s.location case Some(n) => Str(n) case None => Null),
      ("hashtags", Strs(s.hashtags)),
      ("mentioned_users", Strs(s.mentionedUsers)),
      ("is_video", Bool(s.isVideo)) ]
  }

  /** The location dict, keys in the order they are written. */
  function LocationRecord(l: LocationEntry): Record
  {
    [ ("name", Str(l.name)),
      ("id", Int(l.id)),
      ("lat", Num(l.lat)),
      ("lng", Num(l.lng)),
      ("post_url", Str(l.postUrl)) ]
  }

  function PostRecords(posts: seq<PostSummary>): (rs: seq<Record>)
    ensures |rs| == |posts|
  {
    seq(|posts|, i requires 0 <= i < |posts| => PostRecord(posts[i]))
  }

  function LocationRecords(locations: seq<LocationEntry>): (rs: seq<Record>)
    ensures |rs| == |locations|
  {
    seq(|locations|, i requires 0 <= i < |locations| => LocationRecord(locations[i]))
  }

  /** A written CSV file: its path, header row and data rows. */
  datatype CsvFile = CsvFile(path: string, header: seq<string>, rows: seq<seq<Value>>)

  /** The value `DictWriter` writes for field `k`: the record's entry for `k`,
      or its default `restval` "" when the record has none. */
  function Lookup(r: Record, k: string): Value
  {
    if r == [] then Str("")
    else if r[0].0 == k then r[0].1
    else Lookup(r[1..], k)
  }

  /** One `DictWriter` row: the record's values in the order of the field
      names. */
  function DictRow(fields: seq<string>, r: Record): (row: seq<Value>)
    ensures |row| == |fields|
  {
    seq(|fields|, i requires 0 <= i < |fields| => Lookup(r, fields[i]))
  }

  /** `DictWriter(f, fieldnames=records[0].keys())`, its header and its rows. */
  function DictCsv(path: string, records: seq<Record>): CsvFile
    requires records != []
  {
    var fields := Keys(records[0]);
    CsvFile(path, fields, seq(|records|, i requires 0 <= i < |records| => DictRow(fields, records[i])))
  }

  /** The files of the CSV branch: the profile file always, then the posts and
      the locations files when their lists are non-empty. */
  function CsvArtifacts(base: string, profile: Record, analysis: PostsAnalysis): seq<CsvFile>
  {
    [CsvFile(base + "_profile.csv", Keys(profile), [RecordValues(profile)])]
      + (if analysis.postsData != [] then [DictCsv(base + "_posts.csv", PostRecords(analysis.postsData))] else [])
      + (if analysis.locations != [] then [DictCsv(base + "_locations.csv", LocationRecords(analysis.locations))] else [])
  }

  /** Looking up a key of a record without repeated keys finds that key's
      value. */
  lemma {:induction false} LookupOfKey(r: Record, i: nat)
    requires i < |r| && DistinctSeq(Keys(r))
    ensures Lookup(r, r[i].0) == r[i].1
  {
    if i > 0 {
      assert r[0].0 != r[i].0 by {
        assert Keys(r)[0] == r[0].0 && Keys(r)[i] == r[i].0;
      }
      assert DistinctSeq(Keys(r[1..])) by {
        forall a, b | 0 <= a < b < |r[1..]|
          ensures Keys(r[1..])[a] != Keys(r[1..])[b]
        {
          assert Keys(r)[a + 1] != Keys(r)[b + 1];
        }
      }
      LookupOfKey(r[1..], i - 1);
    }
  }

  /** A record whose keys are the field names, none repeated, is written as
      its values in its own order. */
  lemma DictRowOfOwnKeys(fields: seq<string>, r: Record)
    requires Keys(r) == fields && DistinctSeq(fields)
    ensures DictRow(fields, r) == RecordValues(r)
  {
    forall i | 0 <= i < |fields|
      ensures DictRow(fields, r)[i] == RecordValues(r)[i]
    {
      LookupOfKey(r, i);
    }
  }

  lemma RecordShapes(s: PostSummary, l: LocationEntry)
    ensures Keys(PostRecord(s)) == POST_KEYS
    ensures Keys(LocationRecord(l)) == LOCATION_KEYS
    ensures DistinctSeq(POST_KEYS) && DistinctSeq(LOCATION_KEYS)
  {
  }

  /** The CSV branch: the profile file first, with the profile's keys as
      header and its values as the one row; a posts file exactly when there
      are post summaries and a locations file exactly when there are
      locations, each with the first record's keys as header and one row per
      record holding that record's values. */
  lemma CsvArtifactsSpec(base: string, profile: Record, analysis: PostsAnalysis)
    ensures var files := CsvArtifacts(base, profile, analysis);
      var posts := analysis.postsData;
      var locs := analysis.locations;
      && |files| == 1 + (if posts != [] then 1 else 0) + (if locs != [] then 1 else 0)
      && files[0] == CsvFile(base + "_profile.csv", Keys(profile), [RecordValues(profile)])
      && (posts != [] ==>
            && files[1].path == base + "_posts.csv"
            && files[1].header == POST_KEYS
            && |files[1].rows| == |posts|
            && (forall i :: 0 <= i < |posts| ==> files[1].rows[i] == RecordValues(PostRecord(posts[i]))))
      && (locs != [] ==>
            && files[|files| - 1].path == base + "_locations.csv"
            && files[|files| - 1].header == LOCATION_KEYS
            && |files[|files| - 1].rows| == |locs|
            && (forall i :: 0 <= i < |locs| ==> files[|files| - 1].rows[i] == RecordValues(LocationRecord(locs[i]))))
  {
    var posts := analysis.postsData;
    var locs := analysis.locations;
    if posts != [] {
      RecordShapes(posts[0], LocationEntry("", 0, 0.0, 0.0, ""));
      forall i | 0 <= i < |posts|
        ensures DictRow(POST_KEYS, PostRecord(posts[i])) == RecordValues(PostRecord(posts[i]))
      {
        RecordShapes(posts[i], LocationEntry("", 0, 0.0, 0.0, ""));
        DictRowOfOwnKeys(POST_KEYS, PostRecord(posts[i]));
      }
    }
    if locs != [] {
      forall i | 0 <= i < |locs|
        ensures DictRow(LOCATION_KEYS, LocationRecord(locs[i])) == RecordValues(LocationRecord(locs[i]))
      {
        RecordShapes(PostSummary("", "", 0, 0, 0, "", None, [], [], false), locs[i]);
        DictRowOfOwnKeys(LOCATION_KEYS, LocationRecord(locs[i]));
      }
    }
  }

  // ---------------------------------------------------------------------------
  // The text branch

  /** How many hashtag and mention lines the report prints. */
  const REPORT_LIMIT := 10

  /** A block of the report, with what its lines show. */
  datatype Section =
    | Banner(target: string)
    | ProfileInformation(entries: Record)
    | PostAnalysisSummary(postsAnalyzed: nat, locationsFound: nat)
    | PatternsSummary(mostActiveDay: string, mostActiveHour: nat, postFrequencyDays: real)
    | TopHashtagsSection(tags: Counts)
    | TopMentionsSection(users: Counts)
    | ExternalReferencesSection(found: seq<(string, string)>)

  /** `(platform, url)` of every reference whose status is "Found", in order. */
  function FoundReferences(refs: seq<ProbeResult>): seq<(string, string)>
  {
    if refs == [] then []
    else
      var last := refs[|refs| - 1];
      FoundReferences(refs[..|refs| - 1]) + (if last.status == Found then [(last.platform, last.url)] else [])
  }

  /** Was the handle found on the reference's site? */
  predicate IsFound(r: ProbeResult)
  {
    r.status == Found
  }

  /** The first `REPORT_LIMIT` entries of a ranked list. */
  function Head(entries: Counts): Counts
  {
    if |entries| > REPORT_LIMIT then entries[..REPORT_LIMIT] else entries
  }

  /** The report the text branch prints: the banner, the profile and the post
      counts always; the patterns block when the patterns dict is non-empty;
      the hashtag and mention blocks when their lists are non-empty, ten lines
      at most; the references block when the reference list is non-empty,
      listing only the found ones. */
  function TextReport(target: string, profile: Record, analysis: PostsAnalysis,
                      refs: Option<seq<ProbeResult>>): seq<Section>
  {
    var patterns := analysis.timePatterns;
    [Banner(target), ProfileInformation(profile),
     PostAnalysisSummary(analysis.postsAnalyzed, |analysis.locations|)]
      + (if patterns.Patterns?
         then [PatternsSummary(patterns.mostActiveDay, patterns.mostActiveHour, patterns.postFrequencyDays)]
         else [])
      + (if analysis.topHashtags != [] then [TopHashtagsSection(Head(analysis.topHashtags))] else [])
      + (if analysis.topMentions != [] then [TopMentionsSection(Head(analysis.topMentions))] else [])
      + (if refs.Some? && refs.value != [] then [ExternalReferencesSection(FoundReferences(refs.value))] else [])
  }

  /** The found-reference lines: one per "Found" reference, in reference
      order, and none for a reference not found or in error. */
  lemma {:induction false} FoundReferencesSpec(refs: seq<ProbeResult>)
    ensures var idx := IndicesWhere(refs, IsFound);
      && |FoundReferences(refs)| == |idx| <= |refs|
      && (forall k :: 0 <= k < |idx| ==>
            && idx[k] < |refs| && refs[idx[k]].status == Found
            && FoundReferences(refs)[k] == (refs[idx[k]].platform, refs[idx[k]].url))
      && (forall k, m :: 0 <= k < m < |idx| ==> idx[k] < idx[m])
      && (forall i :: 0 <= i < |refs| && refs[i].status == Found ==> i in idx)
  {
    IndicesWhereSpec(refs, IsFound);
    FoundReferencesAt(refs);
  }

  /** Line `k` of the found references comes from the `k`-th found index. */
  lemma {:induction false} FoundReferencesAt(refs: seq<ProbeResult>)
    ensures var idx := IndicesWhere(refs, IsFound);
      && |FoundReferences(refs)| == |idx|
      && (forall k :: 0 <= k < |idx| ==>
            idx[k] < |refs| && FoundReferences(refs)[k] == (refs[idx[k]].platform, refs[idx[k]].url))
  {
    if refs != [] {
      var init, last := refs[..|refs| - 1], refs[|refs| - 1];
      FoundReferencesAt(init);
      var idx0, found0 := IndicesWhere(init, IsFound), FoundReferences(init);
      var idx, found := IndicesWhere(refs, IsFound), FoundReferences(refs);
      assert idx[..|idx0|] == idx0 && found[..|found0|] == found0;
      forall k | 0 <= k < |idx0|
        ensures idx[k] < |refs| && found[k] == (refs[idx[k]].platform, refs[idx[k]].url)
      {
        assert idx[k] == idx0[k] && found[k] == found0[k];
        assert init[idx0[k]] == refs[idx0[k]];
      }
    }
  }



  /** A ranked list is cut to its first ten entries. */
  lemma HeadSpec(entries: Counts)
    ensures |Head(entries)| <= REPORT_LIMIT
    ensures Head(entries) <= entries
    ensures |Head(entries)| == if |entries| < REPORT_LIMIT then |entries| else REPORT_LIMIT
  {
  }

  /** Every block of the report is one of the fixed ones or one of the
      optional blocks, each optional block present exactly under its
      condition. */
  lemma ReportBlocks(target: string, profile: Record, analysis: PostsAnalysis,
                     refs: Option<seq<ProbeResult>>, s: Section)
    ensures var report := TextReport(target, profile, analysis, refs);
      && report[..3] == [Banner(target), ProfileInformation(profile),
                         PostAnalysisSummary(analysis.postsAnalyzed, |analysis.locations|)]
      && (s in report <==>
            || s in report[..3]
            || (analysis.timePatterns.Patterns? && s == report[3])
            || (analysis.topHashtags != [] && s == TopHashtagsSection(Head(analysis.topHashtags)))
            || (analysis.topMentions != [] && s == TopMentionsSection(Head(analysis.topMentions)))
            || (refs.Some? && refs.value != [] && s == ExternalReferencesSection(FoundReferences(refs.value))))
  {
    var patterns := analysis.timePatterns;
    var fixed := [Banner(target), ProfileInformation(profile),
                  PostAnalysisSummary(analysis.postsAnalyzed, |analysis.locations|)];
    var p := if patterns.Patterns?
             then [PatternsSummary(patterns.mostActiveDay, patterns.mostActiveHour, patterns.postFrequencyDays)]
             else [];
    var rest := TextReport(target, profile, analysis, refs)[3..];
    assert TextReport(target, profile, analysis, refs) == fixed + rest;
    assert patterns.Patterns? ==> rest[0] == p[0];
  }

  /** The report's first three blocks are the banner, the profile and the post
      counts; the patterns block is there exactly when there are patterns,
      the hashtag (mention) block exactly when the ranked list is non-empty,
      and the references block exactly when references were passed and the
      list is non-empty. */
  lemma ReportPresence(target: string, profile: Record, analysis: PostsAnalysis,
                       refs: Option<seq<ProbeResult>>)
    ensures var report := TextReport(target, profile, analysis, refs);
      && report[..3] == [Banner(target), ProfileInformation(profile),
                         PostAnalysisSummary(analysis.postsAnalyzed, |analysis.locations|)]
      && ((exists s :: s in report && s.PatternsSummary?) <==> analysis.timePatterns.Patterns?)
      && ((exists s :: s in report && s.TopHashtagsSection?) <==> analysis.topHashtags != [])
      && ((exists s :: s in report && s.TopMentionsSection?) <==> analysis.topMentions != [])
      && ((exists s :: s in report && s.ExternalReferencesSection?) <==> refs.Some? && refs.value != [])
  {
    var report := TextReport(target, profile, analysis, refs);
    forall s | s in report
      ensures s.PatternsSummary? ==> analysis.timePatterns.Patterns?
      ensures s.TopHashtagsSection? ==> analysis.topHashtags != []
      ensures s.TopMentionsSection? ==> analysis.topMentions != []
      ensures s.ExternalReferencesSection? ==> refs.Some? && refs.value != []
    {
      ReportBlocks(target, profile, analysis, refs, s);
    }
    ReportWitnesses(target, profile, analysis, refs);
  }

  lemma ReportWitnesses(target: string, profile: Record, analysis: PostsAnalysis,
                        refs: Option<seq<ProbeResult>>)
    ensures var report := TextReport(target, profile, analysis, refs);
      && (analysis.timePatterns.Patterns? ==> report[3].PatternsSummary? && report[3] in report)
      && (analysis.topHashtags != [] ==> TopHashtagsSection(Head(analysis.topHashtags)) in report)
      && (analysis.topMentions != [] ==> TopMentionsSection(Head(analysis.topMentions)) in report)
      && (refs.Some? && refs.value != [] ==> ExternalReferencesSection(FoundReferences(refs.value)) in report)
  {
  }

  /** What the optional blocks hold: the first ten entries at most of each
      ranked list, in rank order, and the found references. */
  lemma ReportContents(target: string, profile: Record, analysis: PostsAnalysis,
                       refs: Option<seq<ProbeResult>>)
    ensures var report := TextReport(target, profile, analysis, refs);
      && (forall s :: s in report && s.TopHashtagsSection? ==>
            |s.tags| <= REPORT_LIMIT && s.tags <= analysis.topHashtags)
      && (forall s :: s in report && s.TopMentionsSection? ==>
            |s.users| <= REPORT_LIMIT && s.users <= analysis.topMentions)
      && (forall s :: s in report && s.ExternalReferencesSection? ==>
            refs.Some? && s.found == FoundReferences(refs.value))
  {
    HeadSpec(analysis.topHashtags);
    HeadSpec(analysis.topMentions);
    forall s | s in TextReport(target, profile, analysis, refs)
      ensures s.TopHashtagsSection? ==> |s.tags| <= REPORT_LIMIT && s.tags <= analysis.topHashtags
      ensures s.TopMentionsSection? ==> |s.users| <= REPORT_LIMIT && s.users <= analysis.topMentions
      ensures s.ExternalReferencesSection? ==> refs.Some? && s.found == FoundReferences(refs.value)
    {
      ReportBlocks(target, profile, analysis, refs, s);
    }
  }

  /** No reference line is printed exactly when no reference was found. */
  lemma {:induction false} NoneFound(refs: seq<ProbeResult>)
    ensures FoundReferences(refs) == [] <==> forall i :: 0 <= i < |refs| ==> refs[i].status != Found
  {
    FoundReferencesSpec(refs);
    if refs != [] {
      NoneFound(refs[..|refs| - 1]);
    }
  }

  /** The references block is printed, header and all, even when no
      reference was found: a non-empty list of misses gives an empty block. */
  lemma HeaderWithoutFound(target: string, profile: Record, analysis: PostsAnalysis, refs: seq<ProbeResult>)
    requires refs != [] && forall i :: 0 <= i < |refs| ==> refs[i].status != Found
    ensures ExternalReferencesSection([]) in TextReport(target, profile, analysis, Some(refs))
  {
    NoneFound(refs);
    ReportWitnesses(target, profile, analysis, Some(refs));
  }

  // ---------------------------------------------------------------------------
  // Dispatch

  /** What an export produces. */
  datatype ExportOutput =
    | JsonFile(path: string, document: ScanResults)
    | CsvFiles(files: seq<CsvFile>)
    | Console(report: seq<Section>)

  /** `export_results`: "json" writes the results dict, "csv" the CSV files,
      anything else prints the report. */
  function ExportResults(format: string, target: string, timestamp: string, profile: Record,
                         analysis: PostsAnalysis, connections: Option<Connections>,
                         refs: Option<seq<ProbeResult>>): ExportOutput
  {
    var base := OutputBase(target, timestamp);
    if format == "json" then JsonFile(base + ".json", Assemble(profile, analysis, connections, refs, timestamp, target))
    else if format == "csv" then CsvFiles(CsvArtifacts(base, profile, analysis))
    else Console(TextReport(target, profile, analysis, refs))
  }

  /** The JSON document carries everything the scan produced; neither the
      connections nor the references reach the CSV files, and the report
      never shows the connections. */
  lemma ExportDispatch(format: string, target: string, timestamp: string, profile: Record,
                       analysis: PostsAnalysis, connections: Option<Connections>,
                       refs: Option<seq<ProbeResult>>)
    ensures var out := ExportResults(format, target, timestamp, profile, analysis, connections, refs);
      && (format == "json" <==> out.JsonFile?)
      && (format == "csv" <==> out.CsvFiles?)
      && (out.JsonFile? ==> out.path == "results/" + target + "_" + timestamp + ".json"
                            && out.document.postsAnalysis == analysis
                            && out.document.connections.Included? == connections.Some?)
      && (forall c1, r1 :: out.CsvFiles? ==>
            out == ExportResults(format, target, timestamp, profile, analysis, c1, r1))
      && (forall c1 :: out.Console? ==>
            out == ExportResults(format, target, timestamp, profile, analysis, c1, refs))
  {
  }
}
