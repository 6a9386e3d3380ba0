/** `search_external_references`: one existence check per site of a fixed
    list, each classified from its HTTP outcome and labelled by its host. */
module ExternalReferences {

  /** What the network answers for one GET: a status code, or an exception
      with its message. */
  datatype ProbeOutcome = Response(statusCode: int) | Raised(message: string)

  datatype Status = Found | NotFound | Error

  /** `response_code` is the status code, or `str(e)` on an exception. */
  datatype ResponseCode = Code(code: int) | Message(text: string)

  datatype ProbeResult = ProbeResult(platform: string, url: string, status: Status, responseCode: ResponseCode)

  /** The `status` string of a result. */
  function StatusText(s: Status): string
  {
    match s
    case Found => "Found"
    case NotFound => "Not found"
    case Error => "Error"
  }

  /** The three status strings are distinct, so the status can be told from
      its string, as the report's `== "Found"` test does. */
  lemma StatusTextDistinct(s: Status, t: Status)
    ensures StatusText(s) == StatusText(t) <==> s == t
  {
    if s != t {
      assert StatusText(s)[0] != StatusText(t)[0] || |StatusText(s)| != |StatusText(t)|;
    }
  }

  /** The host and the path before the handle of each entry of
      `sites_to_check`, in order. */
  const SITES: seq<(string, string)> := [
    ("twitter.com", ""),
    ("www.facebook.com", ""),
    ("www.tiktok.com", "@"),
    ("www.reddit.com", "user/"),
    ("www.linkedin.com", "in/"),
    ("github.com", ""),
    ("www.youtube.com", "user/")
  ]

  /** `sites_to_check`: `https://<host>/<path><target>` for every site. */
  function SiteUrls(target: string): (urls: seq<string>)
    ensures |urls| == |SITES| == 7
  {
    seq(|SITES|, i requires 0 <= i < |SITES| => "https://" + SITES[i].0 + "/" + SITES[i].1 + target)
  }

  // ---------------------------------------------------------------------------
  // `urlparse(url).netloc`

  /** The index of the first `c` in `s`, or `|s|` when there is none. */
  function IndexOf(s: string, c: char): (i: nat)
    ensures i <= |s|
    ensures i < |s| ==> s[i] == c
    ensures forall k :: 0 <= k < i ==> s[k] != c
  {
    if s == [] then 0 else if s[0] == c then 0 else 1 + IndexOf(s[1..], c)
  }

  predicate IsAsciiLetter(c: char)
  {
    'a' <= c <= 'z' || 'A' <= c <= 'Z'
  }

  /** The characters a URL scheme may hold. */
  predicate IsSchemeChar(c: char)
  {
    IsAsciiLetter(c) || '0' <= c <= '9' || c == '+' || c == '-' || c == '.'
  }

  predicate IsNetlocDelimiter(c: char)
  {
    c == '/' || c == '?' || c == '#'
  }

  /** The prefix of `s` before the first `/`, `?` or `#`. */
  function TakeUntilDelimiter(s: string): string
  {
    if s == [] || IsNetlocDelimiter(s[0]) then [] else [s[0]] + TakeUntilDelimiter(s[1..])
  }

  /** `urlsplit`: a scheme is split off at the first `:` when what precedes it
      is a letter followed by scheme characters; when the remainder starts
      with `//`, the network location runs to the first `/`, `?` or `#`. */
  function Netloc(url: string): string
  {
    var i := IndexOf(url, ':');
    var rest :=
      if 0 < i < |url| && IsAsciiLetter(url[0]) && (forall k :: 0 <= k < i ==> IsSchemeChar(url[k]))
      then url[i + 1..] else url;
    if |rest| >= 2 && rest[..2] == "//" then TakeUntilDelimiter(rest[2..]) else ""
  }

  // ---------------------------------------------------------------------------
  // The platform label

  /** `s.replace(pat, "")`: every non-overlapping occurrence, scanning from the
      left, is removed, not only a leading one. */
  function RemoveAll(s: string, pat: string): (r: string)
    requires pat != []
    ensures |r| <= |s|
  {
    if s == [] then []
    else if pat <= s then RemoveAll(s[|pat|..], pat)
    else [s[0]] + RemoveAll(s[1..], pat)
  }

  /** `s.split(".")[0]`. */
  function FirstSegment(s: string): string
  {
    s[..IndexOf(s, '.')]
  }

  function Upper(c: char): char
  {
    if 'a' <= c <= 'z' then (c as int - 32) as char else c
  }

  function Lower(c: char): char
  {
    if 'A' <= c <= 'Z' then (c as int + 32) as char else c
  }

  function LowerAll(s: string): string
  {
    if s == [] then [] else [Lower(s[0])] + LowerAll(s[1..])
  }

  /** `s.capitalize()`: the first character upper case, the rest lower case. */
  function Capitalize(s: string): string
  {
    if s == [] then [] else [Upper(s[0])] + LowerAll(s[1..])
  }

  /** `domain.split(".")[0].capitalize()` with
      `domain = urlparse(url).netloc.replace("www.", "")`. */
  function PlatformLabel(url: string): string
  {
    Capitalize(FirstSegment(RemoveAll(Netloc(url), "www.")))
  }

  // ---------------------------------------------------------------------------
  // `check_url` and the fan-out

  /** `check_url(url)` given what the network answered: "Found" exactly for
      status 200, "Not found" for every other status, "Error" exactly for an
      exception, whose message is kept as the response code; the label
      depends on the URL alone. */
  function CheckUrl(url: string, outcome: ProbeOutcome): (r: ProbeResult)
    ensures r.status == Found <==> outcome == Response(200)
    ensures r.status == NotFound <==> outcome.Response? && outcome.statusCode != 200
    ensures r.status == Error <==> outcome.Raised?
    ensures outcome.Response? ==> r.responseCode == Code(outcome.statusCode)
    ensures outcome.Raised? ==> r.responseCode == Message(outcome.message)
    ensures r.url == url && r.platform == PlatformLabel(url)
  {
    match outcome
    case Response(code) =>
      ProbeResult(PlatformLabel(url), url, if code == 200 then Found else NotFound, Code(code))
    case Raised(message) =>
      ProbeResult(PlatformLabel(url), url, Error, Message(message))
  }

  /** `list(executor.map(check_url, sites_to_check))`: `map` hands the results
      back in the order of its input, whatever order the workers finish in.
      `respond` is the network: what a GET of each URL produces. */
  function SearchExternalReferences(target: string, respond: string -> ProbeOutcome): seq<ProbeResult>
  {
    var urls := SiteUrls(target);
    seq(|urls|, i requires 0 <= i < |urls| => CheckUrl(urls[i], respond(urls[i])))
  }

  /** The labels the seven sites get, whatever the handle. */
  const SITE_LABELS: seq<string> := ["Twitter", "Facebook", "Tiktok", "Reddit", "Linkedin", "Github", "Youtube"]

  // ---------------------------------------------------------------------------
  // Properties

  /** No `/`, `?` or `#` in `s`. */
  predicate NoDelimiter(s: string)
  {
    '/' !in s && '?' !in s && '#' !in s
  }

  lemma {:induction false} TakeHost(host: string, tail: string)
    requires NoDelimiter(host)
    ensures TakeUntilDelimiter(host + "/" + tail) == host
  {
    if host != [] {
      assert host[0] in host;
      assert (host + "/" + tail)[1..] == host[1..] + "/" + tail;
      TakeHost(host[1..], tail);
    }
  }

  /** The host of an `https://<host>/<path>` URL is `<host>`, whatever the path
      holds. */
  lemma HttpsNetloc(host: string, tail: string)
    requires NoDelimiter(host)
    ensures Netloc("https://" + host + "/" + tail) == host
  {
    var url := "https://" + host + "/" + tail;
    assert url[..6] == "https:";
    assert IndexOf(url, ':') == 5 by {
      assert url[..5] == "https" && url[5] == ':';
    }
    assert url[6..] == "//" + host + "/" + tail;
    assert url[6..][2..] == host + "/" + tail;
    TakeHost(host, tail);
  }

  /** A leading "www." is removed. */
  lemma RemoveLeading(s: string)
    ensures RemoveAll("www." + s, "www.") == RemoveAll(s, "www.")
  {
    assert "www." <= "www." + s;
    assert ("www." + s)[4..] == s;
  }

  /** A "www." after the leading one is removed too: of a doubled prefix
      nothing is left, where removing only a leading "www." would leave
      "www." and the label "Www". */
  lemma RemoveEveryOccurrence(s: string)
    ensures RemoveAll("www.www." + s, "www.") == RemoveAll(s, "www.")
  {
    assert "www.www." + s == "www." + ("www." + s);
    RemoveLeading("www." + s);
    RemoveLeading(s);
  }

  /** A "www." after other text is removed as well, provided no occurrence
      starts inside that text. */
  lemma RemoveMiddle(a: string, b: string)
    requires NoDoubleW(a)
    ensures RemoveAll(a + "www." + b, "www.") == a + RemoveAll(b, "www.")
  {
    var rest := "www." + b;
    assert rest[..3] == "www";
    RemoveAfter(a, rest);
    RemoveLeading(b);
    assert a + "www." + b == a + rest;
  }

  /** Text with no "ww" is kept in front of whatever follows it when that
      starts with "www". */
  lemma {:induction false} RemoveAfter(a: string, rest: string)
    requires NoDoubleW(a) && |rest| >= 3 && rest[..3] == "www"
    ensures RemoveAll(a + rest, "www.") == a + RemoveAll(rest, "www.")
  {
    if a == [] {
      assert a + rest == rest;
    } else {
      KeepFirst(a, rest);
      NoDoubleWTail(a);
      RemoveAfter(a[1..], rest);
      assert [a[0]] + (a[1..] + RemoveAll(rest, "www.")) == a + RemoveAll(rest, "www.");
    }
  }

  /** Text with no "ww" followed by "www." does not start with "www.", so its
      first character is kept. */
  lemma KeepFirst(a: string, rest: string)
    requires a != [] && NoDoubleW(a) && |rest| >= 3 && rest[..3] == "www"
    ensures RemoveAll(a + rest, "www.") == [a[0]] + RemoveAll(a[1..] + rest, "www.")
  {
    var s := a + rest;
    assert !("www." <= s) by {
      if s[0] == 'w' {
        if |a| >= 2 {
          assert a[1] != 'w' && s[1] == a[1];
        } else {
          assert s[1..4] == rest[..3];
          assert s[3] == 'w';
        }
      }
    }
    assert s[1..] == a[1..] + rest;
  }

  lemma NoDoubleWTail(a: string)
    requires a != [] && NoDoubleW(a)
    ensures NoDoubleW(a[1..])
  {
    forall k | 0 <= k < |a[1..]| - 1 && a[1..][k] == 'w'
      ensures a[1..][k + 1] != 'w'
    {
      assert a[k + 1] == 'w';
    }
  }

  /** No two consecutive "w"s, so no occurrence of "www." either. */
  predicate NoDoubleW(s: string)
  {
    forall k :: 0 <= k < |s| - 1 && s[k] == 'w' ==> s[k + 1] != 'w'
  }

  /** A string with no "ww" in it is left as it is. */
  lemma {:induction false} RemoveNoOccurrence(s: string)
    requires NoDoubleW(s)
    ensures RemoveAll(s, "www.") == s
  {
    if s != [] {
      assert !("www." <= s) by {
        if |s| >= 2 && s[0] == 'w' {
          assert s[1] != 'w';
        }
      }
      assert NoDoubleW(s[1..]) by {
        forall k | 0 <= k < |s[1..]| - 1 && s[1..][k] == 'w'
          ensures s[1..][k + 1] != 'w'
        {
          assert s[k + 1] == 'w';
        }
      }
      RemoveNoOccurrence(s[1..]);
    }
  }

  /** The first dot-separated segment of `name + rest`, when `name` has no dot
      and `rest` starts with one, is `name`. */
  lemma FirstSegmentOf(name: string, rest: string)
    requires '.' !in name
    requires rest != [] && rest[0] == '.'
    ensures FirstSegment(name + rest) == name
  {
    var s := name + rest;
    assert s[|name|] == '.';
    assert forall k :: 0 <= k < |name| ==> s[k] == name[k];
    assert IndexOf(s, '.') == |name|;
    assert s[..|name|] == name;
  }

  /** Only ASCII lower-case letters. */
  predicate IsLowerWord(s: string)
  {
    forall k :: 0 <= k < |s| ==> 'a' <= s[k] <= 'z'
  }

  lemma {:induction false} LowerAllFixed(s: string)
    requires IsLowerWord(s)
    ensures LowerAll(s) == s
  {
    if s != [] {
      assert IsLowerWord(s[1..]) by {
        forall k | 0 <= k < |s[1..]| ensures 'a' <= s[1..][k] <= 'z' {
          assert s[1..][k] == s[k + 1];
        }
      }
      LowerAllFixed(s[1..]);
    }
  }

  /** A lower-case word is capitalised by raising its first letter alone. */
  lemma CapitalizeWord(s: string)
    requires s != [] && IsLowerWord(s)
    ensures Capitalize(s) == [Upper(s[0])] + s[1..]
  {
    LowerAllFixed(s[1..]);
  }

  /** The label of `https://<host>/<tail>`, for a host that is `name + rest`
      with an optional leading "www.", where `rest` starts at the first dot
      and holds no "ww": `name`, capitalised, whatever the tail. */
  lemma HostLabel(host: string, name: string, rest: string, tail: string)
    requires NoDelimiter(host)
    requires host == name + rest || host == "www." + (name + rest)
    requires NoDoubleW(name + rest)
    requires '.' !in name
    requires rest != [] && rest[0] == '.'
    ensures PlatformLabel("https://" + host + "/" + tail) == Capitalize(name)
  {
    HttpsNetloc(host, tail);
    RemoveNoOccurrence(name + rest);
    if host != name + rest {
      RemoveLeading(name + rest);
    }
    FirstSegmentOf(name, rest);
  }

  /** The first segment of each site's host, less "www.". */
  const SITE_NAMES: seq<string> := ["twitter", "facebook", "tiktok", "reddit", "linkedin", "github", "youtube"]

  /** No site host holds a URL delimiter. */
  lemma SiteHostsPlain()
    ensures forall i :: 0 <= i < 7 ==> NoDelimiter(SITES[i].0)
  {
  }

  /** Is `host` the site name and ".com", behind "www." or not? */
  predicate NamedHost(host: string, name: string)
  {
    host == name + ".com" || host == "www." + (name + ".com")
  }

  /** Every site host is its name and ".com", behind "www." or not. */
  lemma SiteHostsShape()
    ensures forall i :: 0 <= i < 7 ==> NamedHost(SITES[i].0, SITE_NAMES[i])
  {
    SiteHostsShapeFirst();
    SiteHostsShapeLast();
  }

  lemma SiteHostsShapeFirst()
    ensures forall i :: 0 <= i < 4 ==> NamedHost(SITES[i].0, SITE_NAMES[i])
  {
  }

  lemma SiteHostsShapeLast()
    ensures forall i :: 4 <= i < 7 ==> NamedHost(SITES[i].0, SITE_NAMES[i])
  {
  }

  /** No site domain holds "ww", so no "www." is hidden in one. */
  lemma SiteNamesSingleW()
    ensures forall i :: 0 <= i < 7 ==> NoDoubleW(SITE_NAMES[i] + ".com")
  {
  }

  /** Site names are non-empty lower-case words. */
  lemma SiteNamesShape()
    ensures forall i :: 0 <= i < 7 ==> '.' !in SITE_NAMES[i] && SITE_NAMES[i] != [] && IsLowerWord(SITE_NAMES[i])
  {
  }

  /** Raising the first letter of a site name gives its label. */
  lemma SiteNamesRaised()
    ensures forall i :: 0 <= i < 7 ==> [Upper(SITE_NAMES[i][0])] + SITE_NAMES[i][1..] == SITE_LABELS[i]
  {
  }

  /** Site `i` is labelled `SITE_LABELS[i]`, whatever the handle. */
  lemma LabelOfSite(i: nat, target: string)
    requires i < 7
    ensures PlatformLabel(SiteUrls(target)[i]) == SITE_LABELS[i]
  {
    var host := SITES[i].0;
    var name := SITE_NAMES[i];
    SiteHostsPlain();
    SiteHostsShape();
    SiteNamesSingleW();
    SiteNamesShape();
    SiteNamesRaised();
    assert SiteUrls(target)[i] == "https://" + host + "/" + (SITES[i].1 + target);
    HostLabel(host, name, ".com", SITES[i].1 + target);
    CapitalizeWord(name);
  }

  /** The label of each of the seven sites, whatever the handle. */
  lemma SiteLabelsFixed(target: string)
    ensures forall i :: 0 <= i < 7 ==> PlatformLabel(SiteUrls(target)[i]) == SITE_LABELS[i]
  {
    forall i | 0 <= i < 7
      ensures PlatformLabel(SiteUrls(target)[i]) == SITE_LABELS[i]
    {
      LabelOfSite(i, target);
    }
  }

  /** One result per site, in the order of the site list, each for its URL,
      labelled by its site whatever the handle or the answer, and classified
      from the answer to that URL alone. */
  lemma SearchSpec(target: string, respond: string -> ProbeOutcome)
    ensures var rs := SearchExternalReferences(target, respond);
      && |rs| == |SiteUrls(target)| == 7
      && (forall i :: 0 <= i < 7 ==>
            && rs[i].url == SiteUrls(target)[i]
            && rs[i].platform == SITE_LABELS[i]
            && (rs[i].status == Found <==> respond(SiteUrls(target)[i]) == Response(200))
            && (rs[i].status == Error <==> respond(SiteUrls(target)[i]).Raised?))
  {
    SiteLabelsFixed(target);
  }
}
