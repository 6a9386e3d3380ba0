/** `analyze_posts`: one pass over a bounded window of the provider's posts,
    building per-post summaries, a location list, hashtag and mention tables
    and the timestamp list, then ranking the tables and analysing the times. */
module PostAnalysis {
  import opened Provider
  import opened FrequencyTable
  import opened PostingPatterns
  import opened Sequences

  datatype Location = Location(name: string, id: int, lat: real, lng: real)

  /** A post record as the provider hands it out. */
  datatype Post = Post(
    shortcode: string,
    dateUtc: int,
    likes: int,
    comments: int,
    caption: Option<string>,
    location: Option<Location>,
    captionHashtags: seq<string>,
    captionMentions: seq<string>,
    isVideo: bool)

  /** The `post_data` dict, with the timestamp kept as seconds since the epoch. */
  datatype PostSummary = PostSummary(
    shortcode: string,
    url: string,
    timestamp: int,
    likes: int,
    comments: int,
    caption: string,
    location: Option<string>,
    hashtags: seq<string>,
    mentionedUsers: seq<string>,
    isVideo: bool)

  datatype LocationEntry = LocationEntry(name: string, id: int, lat: real, lng: real, postUrl: string)

  /** The dict `analyze_posts` returns. */
  datatype PostsAnalysis = PostsAnalysis(
    postsAnalyzed: nat,
    postsData: seq<PostSummary>,
    locations: seq<LocationEntry>,
    topHashtags: Counts,
    topMentions: Counts,
    timePatterns: TimePatterns)

  /** How many hashtags and mentions the ranked lists keep. */
  const TOP_N := 20

  function PostUrl(shortcode: string): string
  {
    "https://www.instagram.com/p/" + shortcode + "/"
  }

  /** The `post_data` dict of one post: a missing or empty caption becomes "",
      and only the location's name is kept. */
  function Summarize(p: Post): PostSummary
  {
    PostSummary(
      p.shortcode, PostUrl(p.shortcode), p.dateUtc, p.likes, p.comments,
      (match p.caption case Some(c) => c case None => ""),
      (match p.location case Some(l) => Some(l.name) case None => None),
      p.captionHashtags, p.captionMentions, p.isVideo)
  }

  function LocationOf(p: Post): LocationEntry
    requires p.location.Some?
  {
    var l := p.location.value;
    LocationEntry(l.name, l.id, l.lat, l.lng, PostUrl(p.shortcode))
  }

  function Summaries(posts: seq<Post>): seq<PostSummary>
  {
    seq(|posts|, i requires 0 <= i < |posts| => Summarize(posts[i]))
  }

  function Timestamps(posts: seq<Post>): seq<int>
  {
    seq(|posts|, i requires 0 <= i < |posts| => posts[i].dateUtc)
  }

  /** The location list built by appending one entry per located post. */
  function LocationEntries(posts: seq<Post>): seq<LocationEntry>
  {
    if posts == [] then []
    else
      var last := posts[|posts| - 1];
      LocationEntries(posts[..|posts| - 1]) + (if last.location.Some? then [LocationOf(last)] else [])
  }

  /** Every hashtag of every post, post after post. */
  function AllHashtags(posts: seq<Post>): seq<string>
  {
    if posts == [] then []
    else AllHashtags(posts[..|posts| - 1]) + posts[|posts| - 1].captionHashtags
  }

  /** Every mention of every post, post after post. */
  function AllMentions(posts: seq<Post>): seq<string>
  {
    if posts == [] then []
    else AllMentions(posts[..|posts| - 1]) + posts[|posts| - 1].captionMentions
  }

  /** The number of posts the loop consumes: it stops at `max_posts` or when
      the provider runs out, whichever comes first. */
  function WindowSize(src: Stream<Post>, maxPosts: int): nat
  {
    var limit := if maxPosts < 0 then 0 else maxPosts;
    if |src.items| < limit then |src.items| else limit
  }

  function Window(src: Stream<Post>, maxPosts: int): seq<Post>
  {
    src.items[..WindowSize(src, maxPosts)]
  }

  /** The loop asks the provider for items 0 .. WindowSize: the item at index
      `max_posts` is fetched before the `i >= max_posts` test breaks the loop,
      and when the provider runs out first its exhaustion is a request too.
      The analysis fails when any of these requests raises. */
  predicate WindowFails(src: Stream<Post>, maxPosts: int)
  {
    FailsBy(src, WindowSize(src, maxPosts))
  }

  /** The zeroed dict of the `except` branch. */
  function EmptyAnalysis(): PostsAnalysis
  {
    PostsAnalysis(0, [], [], [], [], NoPatterns)
  }

  /** The dict built from the consumed posts when nothing raised. */
  function AnalysisOf(window: seq<Post>): PostsAnalysis
  {
    PostsAnalysis(
      |window|,
      Summaries(window),
      LocationEntries(window),
      Top(CountInto([], AllHashtags(window)), TOP_N),
      Top(CountInto([], AllMentions(window)), TOP_N),
      PatternsOf(Timestamps(window)))
  }

  /** `for tag in tokens: d[tag] = d.get(tag, 0) + 1`. */
  method CountTokens(d: Counts, tokens: seq<string>) returns (r: Counts)
    ensures r == CountInto(d, tokens)
  {
    r := d;
    var j := 0;
    while j < |tokens|
      invariant 0 <= j <= |tokens|
      invariant r == CountInto(d, tokens[..j])
    {
      assert tokens[..j + 1][..j] == tokens[..j];
      r := Increment(r, tokens[j]);
      j := j + 1;
    }
    assert tokens[..j] == tokens;
  }

  /** What one more consumed post adds to each accumulated list. */
  lemma WindowStep(items: seq<Post>, i: nat)
    requires i < |items|
    ensures Summaries(items[..i + 1]) == Summaries(items[..i]) + [Summarize(items[i])]
    ensures Timestamps(items[..i + 1]) == Timestamps(items[..i]) + [items[i].dateUtc]
    ensures LocationEntries(items[..i + 1]) == LocationEntries(items[..i])
      + (if items[i].location.Some? then [LocationOf(items[i])] else [])
    ensures AllHashtags(items[..i + 1]) == AllHashtags(items[..i]) + items[i].captionHashtags
    ensures AllMentions(items[..i + 1]) == AllMentions(items[..i]) + items[i].captionMentions
  {
    assert items[..i + 1][..i] == items[..i];
  }

  /** One more consumed post adds its tokens to the running tallies. */
  lemma TallyStep(items: seq<Post>, i: nat)
    requires i < |items|
    ensures CountInto([], AllHashtags(items[..i + 1]))
      == CountInto(CountInto([], AllHashtags(items[..i])), items[i].captionHashtags)
    ensures CountInto([], AllMentions(items[..i + 1]))
      == CountInto(CountInto([], AllMentions(items[..i])), items[i].captionMentions)
  {
    WindowStep(items, i);
    CountIntoAppend([], AllHashtags(items[..i]), items[i].captionHashtags);
    CountIntoAppend([], AllMentions(items[..i]), items[i].captionMentions);
  }

  /** The analysis of the window counts and summarises the window's posts,
      which are the provider's first ones. */
  lemma WindowAnalysis(src: Stream<Post>, maxPosts: int)
    ensures var a := AnalysisOf(Window(src, maxPosts));
      && a.postsAnalyzed == |a.postsData| <= |src.items|
      && (maxPosts >= 0 ==> a.postsAnalyzed <= maxPosts)
      && forall i :: 0 <= i < |a.postsData| ==> a.postsData[i] == Summarize(src.items[i])
  {
  }

  /** The loop's accumulators hold what reading the posts `read` gives. */
  predicate Accumulated(read: seq<Post>, postsData: seq<PostSummary>, locations: seq<LocationEntry>,
                        hashtags: Counts, mentions: Counts, postTimes: seq<int>)
  {
    && postsData == Summaries(read)
    && locations == LocationEntries(read)
    && hashtags == CountInto([], AllHashtags(read))
    && mentions == CountInto([], AllMentions(read))
    && postTimes == Timestamps(read)
  }

  /** Reading post `i` extends each accumulator by what that post adds. */
  lemma AccumulateStep(items: seq<Post>, i: nat, postsData: seq<PostSummary>, locations: seq<LocationEntry>,
                       hashtags: Counts, mentions: Counts, postTimes: seq<int>)
    requires i < |items|
    requires Accumulated(items[..i], postsData, locations, hashtags, mentions, postTimes)
    ensures Accumulated(items[..i + 1],
      postsData + [Summarize(items[i])],
      locations + (if items[i].location.Some? then [LocationOf(items[i])] else []),
      CountInto(hashtags, items[i].captionHashtags),
      CountInto(mentions, items[i].captionMentions),
      postTimes + [items[i].dateUtc])
  {
    WindowStep(items, i);
    TallyStep(items, i);
  }

  /** The `try` loop of `analyze_posts`: it reads the window post by post and
      accumulates the summaries, the locations, the two tallies and the
      timestamps; `ok` is false exactly when a request raised. */
  method ReadWindow(src: Stream<Post>, maxPosts: int)
    returns (ok: bool, postsData: seq<PostSummary>, locations: seq<LocationEntry>,
             hashtags: Counts, mentions: Counts, postTimes: seq<int>)
    ensures ok <==> !WindowFails(src, maxPosts)
    ensures ok ==> Accumulated(Window(src, maxPosts), postsData, locations, hashtags, mentions, postTimes)
  {
    postsData, locations, hashtags, mentions, postTimes := [], [], [], [], [];
    var items := src.items;
    var i := 0;
    while true
      invariant 0 <= i <= WindowSize(src, maxPosts)
      invariant src.failAt.None? || src.failAt.value >= i
      invariant Accumulated(items[..i], postsData, locations, hashtags, mentions, postTimes)
      decreases |items| - i
    {
      // the provider is asked for item i
      if src.failAt == Some(i) {
        return false, [], [], [], [], [];
      }
      if i == |items| {
        break;
      }
      var post := items[i];
      if i >= maxPosts {
        break;
      }
      AccumulateStep(items, i, postsData, locations, hashtags, mentions, postTimes);
      postsData := postsData + [Summarize(post)];
      postTimes := postTimes + [post.dateUtc];
      if post.location.Some? {
        locations := locations + [LocationOf(post)];
      }
      hashtags := CountTokens(hashtags, post.captionHashtags);
      mentions := CountTokens(mentions, post.captionMentions);
      i := i + 1;
    }
    assert items[..i] == Window(src, maxPosts);
    ok := true;
  }

  /** `analyze_posts`: the whole result when every request of the window
      succeeds, and the zeroed dict, with all partial work discarded, when one
      of them raises. */
  method AnalyzePosts(src: Stream<Post>, maxPosts: int) returns (r: PostsAnalysis)
    ensures WindowFails(src, maxPosts) ==> r == EmptyAnalysis()
    ensures !WindowFails(src, maxPosts) ==> r == AnalysisOf(Window(src, maxPosts))
    ensures r.postsAnalyzed == |r.postsData| <= |src.items|
    ensures maxPosts >= 0 ==> r.postsAnalyzed <= maxPosts
    ensures forall i :: 0 <= i < |r.postsData| ==> r.postsData[i] == Summarize(src.items[i])
  {
    var ok, postsData, locations, hashtags, mentions, postTimes := ReadWindow(src, maxPosts);
    if !ok {
      return EmptyAnalysis();
    }
    var topHashtags := Top(hashtags, TOP_N);
    var topMentions := Top(mentions, TOP_N);
    var timePatterns := AnalyzePostingPatterns(postTimes);
    r := PostsAnalysis(|postsData|, postsData, locations, topHashtags, topMentions, timePatterns);
    WindowAnalysis(src, maxPosts);
  }

  // ---------------------------------------------------------------------------
  // Properties of the result

  /** The window is the provider's first posts, in provider order: exactly
      `max_posts` of them when the provider has that many, all of them
      otherwise, and never padded. */
  lemma WindowSpec(src: Stream<Post>, maxPosts: int)
    ensures Window(src, maxPosts) <= src.items
    ensures maxPosts >= 0 && |src.items| >= maxPosts ==> |Window(src, maxPosts)| == maxPosts
    ensures maxPosts >= |src.items| ==> Window(src, maxPosts) == src.items
    ensures maxPosts <= 0 ==> Window(src, maxPosts) == []
  {
  }

  /** Fetching the item at index `max_posts` is part of the window's requests:
      a provider that raises there, after the whole window was read, still
      collapses the result. */
  lemma ExtraFetchCollapses(src: Stream<Post>, maxPosts: nat)
    requires maxPosts < |src.items| && src.failAt == Some(maxPosts)
    ensures Window(src, maxPosts) == src.items[..maxPosts] && WindowFails(src, maxPosts)
  {
  }

  /** Does the post carry a location? */
  predicate Located(p: Post)
  {
    p.location.Some?
  }

  /** The location list has exactly one entry per located post, in post order:
      its k-th entry comes from the k-th located post, the located posts'
      indices strictly increase and are exactly the posts with a location, and
      each entry's `post_url` is that post's summary URL. */
  lemma {:induction false} LocationEntriesSpec(posts: seq<Post>)
    ensures var idx := IndicesWhere(posts, Located);
      && |LocationEntries(posts)| == |idx|
      && (forall k :: 0 <= k < |idx| ==>
            && idx[k] < |posts| && posts[idx[k]].location.Some?
            && LocationEntries(posts)[k] == LocationOf(posts[idx[k]])
            && LocationEntries(posts)[k].postUrl == Summarize(posts[idx[k]]).url)
      && (forall k, m :: 0 <= k < m < |idx| ==> idx[k] < idx[m])
      && (forall i :: 0 <= i < |posts| && posts[i].location.Some? ==> i in idx)
  {
    IndicesWhereSpec(posts, Located);
    LocationEntriesAt(posts);
  }

  /** Entry `k` of the location list comes from the `k`-th located post. */
  lemma {:induction false} LocationEntriesAt(posts: seq<Post>)
    ensures var idx := IndicesWhere(posts, Located);
      && |LocationEntries(posts)| == |idx|
      && (forall k :: 0 <= k < |idx| ==>
            && idx[k] < |posts| && posts[idx[k]].location.Some?
            && LocationEntries(posts)[k] == LocationOf(posts[idx[k]]))
  {
    if posts != [] {
      var init := posts[..|posts| - 1];
      LocationEntriesAt(init);
      var idx0, entries0 := IndicesWhere(init, Located), LocationEntries(init);
      var idx, entries := IndicesWhere(posts, Located), LocationEntries(posts);
      assert idx[..|idx0|] == idx0 && entries[..|entries0|] == entries0;
      forall k | 0 <= k < |idx0|
        ensures idx[k] < |posts| && posts[idx[k]].location.Some? && entries[k] == LocationOf(posts[idx[k]])
      {
        assert idx[k] == idx0[k] && entries[k] == entries0[k];
        assert init[idx0[k]] == posts[idx0[k]];
      }
    }
  }

  /** The summaries are the consumed posts, one each, in order, and the count
      reported is their number. */
  lemma AnalysisOfSummaries(window: seq<Post>)
    ensures AnalysisOf(window).postsAnalyzed == |AnalysisOf(window).postsData| == |window|
    ensures forall i :: 0 <= i < |window| ==>
      AnalysisOf(window).postsData[i].url == "https://www.instagram.com/p/" + window[i].shortcode + "/"
      && AnalysisOf(window).postsData[i].timestamp == window[i].dateUtc
  {
  }

  /** The ranked lists: each entry's count is the number of occurrences of its
      tag (or handle) across the consumed posts, at most 20 entries, no tag
      twice, non-increasing counts, and no tag left out occurs more often than
      one listed. */
  lemma RankedHashtags(window: seq<Post>)
    ensures var top := AnalysisOf(window).topHashtags;
      && |top| <= TOP_N
      && NonIncreasing(top)
      && (forall e :: e in top ==> e.0 in AllHashtags(window) && e.1 == multiset(AllHashtags(window))[e.0])
      && (forall i, j :: 0 <= i < j < |top| ==> top[i].0 != top[j].0)
      && (forall t :: t in AllHashtags(window) && t !in Keys(top) ==>
            forall e :: e in top ==> e.1 >= multiset(AllHashtags(window))[t])
  {
    RankedTokens(AllHashtags(window), TOP_N);
    TopSpec(CountInto([], AllHashtags(window)), TOP_N);
  }

  lemma RankedMentions(window: seq<Post>)
    ensures var top := AnalysisOf(window).topMentions;
      && |top| <= TOP_N
      && NonIncreasing(top)
      && (forall e :: e in top ==> e.0 in AllMentions(window) && e.1 == multiset(AllMentions(window))[e.0])
      && (forall i, j :: 0 <= i < j < |top| ==> top[i].0 != top[j].0)
      && (forall t :: t in AllMentions(window) && t !in Keys(top) ==>
            forall e :: e in top ==> e.1 >= multiset(AllMentions(window))[t])
  {
    RankedTokens(AllMentions(window), TOP_N);
    TopSpec(CountInto([], AllMentions(window)), TOP_N);
  }

  /** Tag counts only grow during the pass: after more posts, every count is at
      least what it was. */
  lemma {:induction false} HashtagCountsGrow(posts: seq<Post>, i: nat, j: nat, t: string)
    requires i <= j <= |posts|
    ensures Get(CountInto([], AllHashtags(posts[..i])), t) <= Get(CountInto([], AllHashtags(posts[..j])), t)
  {
    AllHashtagsPrefix(posts[..j], i);
    assert posts[..j][..i] == posts[..i];
    var extra :| AllHashtags(posts[..j]) == AllHashtags(posts[..i]) + extra;
    CountIntoAppend([], AllHashtags(posts[..i]), extra);
    CountIntoSpec([], AllHashtags(posts[..i]));
    CountIntoSpec(CountInto([], AllHashtags(posts[..i])), extra);
  }

  lemma {:induction false} AllHashtagsPrefix(posts: seq<Post>, i: nat)
    requires i <= |posts|
    ensures exists extra :: AllHashtags(posts) == AllHashtags(posts[..i]) + extra
  {
    if i == |posts| {
      assert posts[..i] == posts;
      assert AllHashtags(posts) == AllHashtags(posts[..i]) + [];
    } else {
      var init := posts[..|posts| - 1];
      AllHashtagsPrefix(init, i);
      assert init[..i] == posts[..i];
      var extra :| AllHashtags(init) == AllHashtags(posts[..i]) + extra;
      assert AllHashtags(posts) == AllHashtags(posts[..i]) + (extra + posts[|posts| - 1].captionHashtags);
    }
  }
}
