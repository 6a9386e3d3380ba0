/** `run`: the stages of one scan, from the posts to the export. */
module Scan {
  import opened Provider
  import opened PostAnalysis
  import opened ConnectionAnalysis
  import opened ExternalReferences
  import opened ResultExport

  /** `run` given the profile's record and flags, the provider's streams and
      the network: the posts are always analysed; the connections only for a
      public profile in a logged-in session, and otherwise passed on as
      missing; the external search only when asked for; then one export. */
  method Run(format: string, target: string, timestamp: string, profile: Record,
             isPrivate: bool, isLoggedIn: bool, maxPosts: int, posts: Stream<Post>,
             followersSrc: Stream<Account>, followeesSrc: Stream<Account>,
             externalSearch: bool, respond: string -> ProbeOutcome)
    returns (analysis: PostsAnalysis, connections: Option<Connections>,
             refs: Option<seq<ProbeResult>>, out: ExportOutput)
    ensures analysis == if WindowFails(posts, maxPosts) then EmptyAnalysis() else AnalysisOf(Window(posts, maxPosts))
    ensures connections.Some? <==> isLoggedIn && !isPrivate
    ensures connections.Some? ==>
      (connections.value == Unavailable <==> FailsWhenDrained(followersSrc) || FailsWhenDrained(followeesSrc))
    ensures connections.Some? && connections.value.Analyzed? ==>
      connections.value.followers == followersSrc.items && connections.value.following == followeesSrc.items
    ensures refs.Some? <==> externalSearch
    ensures refs.Some? ==> refs.value == SearchExternalReferences(target, respond)
    ensures out == ExportResults(format, target, timestamp, profile, analysis, connections, refs)
  {
    analysis := AnalyzePosts(posts, maxPosts);
    connections := None;
    if isLoggedIn && !isPrivate {
      var c := AnalyzeConnections(isPrivate, isLoggedIn, followersSrc, followeesSrc);
      connections := Some(c);
    }
    refs := if externalSearch then Some(SearchExternalReferences(target, respond)) else None;
    out := ExportResults(format, target, timestamp, profile, analysis, connections, refs);
  }
}
