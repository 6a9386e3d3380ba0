/** The data provider as the analysis sees it: lazy sequences that are pulled
    one request at a time and that may raise on any request. */
module Provider {

  datatype Option<+T> = None | Some(value: T)

  /** A lazy sequence handed out by the provider. Request `k` with
      `k < |items|` answers `items[k]`; request `|items|` reports exhaustion.
      When `failAt == Some(k)`, request `k` raises instead of answering
      (a failure on the provider's first call is `Some(0)`). */
  datatype Stream<T> = Stream(items: seq<T>, failAt: Option<nat>)

  /** Does a consumer that issues the requests 0, 1, ..., last in turn hit the
      failure? */
  predicate FailsBy<T>(s: Stream<T>, last: nat)
  {
    s.failAt.Some? && s.failAt.value <= last
  }

  /** Does iterating the whole stream (down to the exhaustion request) raise? */
  predicate FailsWhenDrained<T>(s: Stream<T>)
  {
    FailsBy(s, |s.items|)
  }
}
