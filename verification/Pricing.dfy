/** What a request costs: app/core/credit_estimator.py. */
module Pricing {
  import opened Common
  import opened Text

  /** The cost table: None for an endpoint it does not list. */
  function Listed(endpoint: string): Option<int> {
    if endpoint == "/v1/crawl" || endpoint == "/v2/crawl" then Some(5)
    else if endpoint == "/v2/extract" then Some(2)
    else if endpoint == "/v1/scrape" || endpoint == "/v1/search" || endpoint == "/v1/map" then Some(1)
    else if endpoint == "/v2/scrape" || endpoint == "/v2/map" || endpoint == "/v2/batch/scrape" then Some(1)
    else None
  }

  /**
   * The upstream's answer as the estimate sees it: nothing to read, something whose `data` is not an object, or the
   * two counters, each absent when missing or not a number.
   */
  datatype Body = Empty | Odd | Fields(total: Option<int>, count: Option<int>)

  predicate Slash(c: char) {
    c == '/'
  }

  /** The part of a path before its query. */
  function Plain(path: string): string {
    if path == "" || path[0] == '?' then "" else [path[0]] + Plain(path[1..])
  }

  function Join(parts: seq<string>): string {
    if parts == [] then "" else if |parts| == 1 then parts[0] else parts[0] + "/" + Join(parts[1..])
  }

  function Normalize(path: string): string {
    Reduce(Plain(path))
  }

  function Reduce(q: string): string {
    if q == "" || q == "/" then q
    else
      var parts := SplitBy(q, Slash);
      if |parts| >= 4 && parts[2] == "crawl" then Join(parts[..3])
      else if |parts| >= 5 && parts[2] == "batch" then Join(parts[..4])
      else q
  }

  predicate Contains(s: string, part: string) {
    exists i :: 0 <= i <= |s| && part <= s[i..]
  }

  /** A base cost scaled by the counter that goes with the endpoint; None when reading the answer raises. */
  function Scaled(endpoint: string, base: int, body: Body): Option<int> {
    if Contains(endpoint, "/crawl") && !body.Empty? then
      if body.Odd? then None else Some(Max(base, Max(body.total.GetOr(1), 1)))
    else if Contains(endpoint, "/batch/") && !body.Empty? then
      if body.Odd? then None else Some(Max(base * Max(body.count.GetOr(1), 1), 1))
    else Some(base)
  }

  function Estimate(endpoint: string, body: Body): Option<int> {
    Scaled(endpoint, Listed(endpoint).GetOr(1), body)
  }

  /** What a successful request on this path takes off the cache, if anything. */
  function Charge(path: string, body: Body): Option<int> {
    if Listed(Normalize(path)).Some? then Estimate(Normalize(path), body) else None
  }

  // --- which paths are priced ---

  /** The endpoints whose sub-paths, the jobs they started, are priced like themselves. */
  predicate HasJobs(endpoint: string) {
    endpoint == "/v1/crawl" || endpoint == "/v2/crawl" || endpoint == "/v2/batch/scrape"
  }

  predicate Under(q: string, endpoint: string) {
    q == endpoint || (HasJobs(endpoint) && endpoint + "/" <= q)
  }

  lemma {:induction false} JoinSplit(s: string)
    ensures Join(SplitBy(s, Slash)) == s
  {
    if s != "" {
      JoinSplit(s[1..]);
      var rest := SplitBy(s[1..], Slash);
      if Slash(s[0]) {
        assert ([""] + rest)[1..] == rest;
      } else {
        var parts := [[s[0]] + rest[0]] + rest[1..];
        assert parts[1..] == rest[1..];
      }
    }
  }

  lemma {:induction false} JoinCut(parts: seq<string>, n: nat)
    requires 1 <= n < |parts|
    ensures Join(parts) == Join(parts[..n]) + "/" + Join(parts[n..])
  {
    if n > 1 {
      JoinCut(parts[1..], n - 1);
      assert parts[1..][..n - 1] == parts[..n][1..] && parts[1..][n - 1..] == parts[n..];
    } else {
      assert parts[..1] == [parts[0]];
    }
  }

  lemma {:induction false} SplitCut(s: string, t: string)
    ensures SplitBy(s + "/" + t, Slash) == SplitBy(s, Slash) + SplitBy(t, Slash)
  {
    SplitAround(s, '/', t, Slash);
  }

  lemma {:induction false} SplitTwo(a: string, b: string)
    requires '/' !in a && '/' !in b
    ensures SplitBy("/" + a + "/" + b, Slash) == ["", a, b]
  {
    SplitWord("", Slash);
    SplitWord(a, Slash);
    SplitWord(b, Slash);
    SplitCut("", a + "/" + b);
    SplitCut(a, b);
    assert "/" + a + "/" + b == "" + "/" + (a + "/" + b);
  }

  lemma {:induction false} SplitEndpoint(endpoint: string, version: string, name: string)
    requires '/' !in version && '/' !in name && endpoint == "/" + version + "/" + name
    ensures SplitBy(endpoint, Slash) == ["", version, name]
  {
    SplitTwo(version, name);
  }

  lemma {:induction false} FirstVersionParts(endpoint: string)
    requires endpoint == "/v1/scrape" || endpoint == "/v1/search" || endpoint == "/v1/map"
    ensures |SplitBy(endpoint, Slash)| == 3
  {
    if endpoint == "/v1/scrape" { SplitEndpoint("/v1/scrape", "v1", "scrape"); }
    else if endpoint == "/v1/search" { SplitEndpoint("/v1/search", "v1", "search"); }
    else { SplitEndpoint("/v1/map", "v1", "map"); }
  }

  lemma {:induction false} SecondVersionParts(endpoint: string)
    requires endpoint == "/v2/scrape" || endpoint == "/v2/extract" || endpoint == "/v2/map"
    ensures |SplitBy(endpoint, Slash)| == 3
  {
    if endpoint == "/v2/scrape" { SplitEndpoint("/v2/scrape", "v2", "scrape"); }
    else if endpoint == "/v2/extract" { SplitEndpoint("/v2/extract", "v2", "extract"); }
    else { SplitEndpoint("/v2/map", "v2", "map"); }
  }

  lemma {:induction false} CrawlParts(endpoint: string)
    requires endpoint == "/v1/crawl" || endpoint == "/v2/crawl"
    ensures |SplitBy(endpoint, Slash)| == 3 && SplitBy(endpoint, Slash)[2] == "crawl"
  {
    if endpoint == "/v1/crawl" { SplitEndpoint("/v1/crawl", "v1", "crawl"); }
    else { SplitEndpoint("/v2/crawl", "v2", "crawl"); }
  }

  lemma {:induction false} SplitDeeper(endpoint: string, a: string, b: string, c: string)
    requires '/' !in a && '/' !in b && '/' !in c && endpoint == "/" + a + "/" + b + "/" + c
    ensures SplitBy(endpoint, Slash) == ["", a, b, c]
  {
    SplitTwo(a, b);
    SplitWord(c, Slash);
    SplitCut("/" + a + "/" + b, c);
    assert endpoint == ("/" + a + "/" + b) + "/" + c;
  }

  lemma {:induction false} BatchParts()
    ensures |SplitBy("/v2/batch/scrape", Slash)| == 4 && SplitBy("/v2/batch/scrape", Slash)[2] == "batch"
  {
    SplitDeeper("/v2/batch/scrape", "v2", "batch", "scrape");
  }

  /** The number of parts of an endpoint says which rule may shorten the paths below it. */
  predicate Steady(endpoint: string) {
    var parts := SplitBy(endpoint, Slash);
    && |parts| <= 4
    && (|parts| == 4 ==> parts[2] != "crawl")
    && (HasJobs(endpoint) ==> (|parts| == 3 && parts[2] == "crawl") || (|parts| == 4 && parts[2] == "batch"))
  }

  lemma {:induction false} EndpointsAreSteady(endpoint: string)
    requires Listed(endpoint).Some?
    ensures Steady(endpoint) && endpoint != "" && endpoint != "/"
  {
    if endpoint == "/v2/batch/scrape" {
      BatchParts();
    } else if HasJobs(endpoint) {
      CrawlParts(endpoint);
    } else if endpoint == "/v1/scrape" || endpoint == "/v1/search" || endpoint == "/v1/map" {
      FirstVersionParts(endpoint);
    } else {
      SecondVersionParts(endpoint);
    }
  }

  lemma {:induction false} UnderReaches(q: string, endpoint: string)
    requires Steady(endpoint) && endpoint != "" && endpoint != "/" && Under(q, endpoint)
    ensures Reduce(q) == endpoint
  {
    var parts := SplitBy(endpoint, Slash);
    JoinSplit(endpoint);
    if q != endpoint {
      var t := q[|endpoint| + 1..];
      assert q == endpoint + "/" + t;
      SplitCut(endpoint, t);
      assert (parts + SplitBy(t, Slash))[..|parts|] == parts;
    }
  }

  lemma {:induction false} ReachedFromBelow(q: string, endpoint: string)
    requires Listed(endpoint).Some? && Reduce(q) == endpoint != q
    ensures Under(q, endpoint)
  {
    var parts := SplitBy(q, Slash);
    JoinSplit(q);
    if |parts| >= 4 && parts[2] == "crawl" {
      JoinCut(parts, 3);
      JoinThree(parts[0], parts[1], "crawl");
      assert parts[..3] == [parts[0], parts[1], "crawl"];
      EndsLikeCrawl(endpoint);
    } else {
      JoinCut(parts, 4);
      JoinFour(parts[0], parts[1], "batch", parts[3]);
      assert parts[..4] == [parts[0], parts[1], "batch", parts[3]];
      assert "batch"[0] == 'b';
      OnlyBatchHasB(endpoint);
    }
  }

  lemma {:induction false} JoinThree(a: string, b: string, c: string)
    ensures var s := Join([a, b, c]);
            |s| >= |c| && s[|s| - |c|..] == c
  {
    assert [a, b, c][1..] == [b, c] && [b, c][1..] == [c];
    assert Join([b, c]) == b + "/" + c;
  }

  lemma {:induction false} JoinFour(a: string, b: string, c: string, d: string)
    ensures forall x :: x in c ==> x in Join([a, b, c, d])
  {
    assert [a, b, c, d][1..] == [b, c, d] && [b, c, d][1..] == [c, d] && [c, d][1..] == [d];
    assert Join([c, d]) == c + "/" + d && Join([b, c, d]) == b + "/" + Join([c, d]);
  }

  lemma {:induction false} EndsLikeCrawl(endpoint: string)
    requires Listed(endpoint).Some? && |endpoint| >= 5 && endpoint[|endpoint| - 5..] == "crawl"
    ensures HasJobs(endpoint)
  {
    assert endpoint[|endpoint| - 5] == 'c' && endpoint[|endpoint| - 3] == 'a' && endpoint[|endpoint| - 1] == 'l';
  }

  lemma {:induction false} OnlyBatchHasB(endpoint: string)
    requires Listed(endpoint).Some? && 'b' in endpoint
    ensures HasJobs(endpoint)
  {
  }

  /** A path is brought to a priced endpoint exactly when it is that endpoint, or a job below one that has jobs. */
  lemma {:induction false} PricedExactly(path: string, endpoint: string)
    requires Listed(endpoint).Some?
    ensures Normalize(path) == endpoint <==> Under(Plain(path), endpoint)
  {
    var q := Plain(path);
    if Under(q, endpoint) {
      EndpointsAreSteady(endpoint);
      UnderReaches(q, endpoint);
    }
    if Normalize(path) == endpoint && q != endpoint {
      ReachedFromBelow(q, endpoint);
    }
  }

  lemma {:induction false} NoPart(s: string, part: string, c: char)
    requires c in part && c !in s
    ensures !Contains(s, part)
  {
  }

  /** Which listed endpoints are charged by a counter: those of crawls, and the one for batches. */
  lemma {:induction false} CrawlsByPages(endpoint: string)
    requires Listed(endpoint).Some?
    ensures Contains(endpoint, "/crawl") <==> endpoint == "/v1/crawl" || endpoint == "/v2/crawl"
  {
    if endpoint == "/v1/crawl" || endpoint == "/v2/crawl" {
      assert "/crawl" <= endpoint[3..];
    } else {
      assert "/crawl"[4] == 'w';
      NoPart(endpoint, "/crawl", 'w');
    }
  }

  lemma {:induction false} BatchesByEntries(endpoint: string)
    requires Listed(endpoint).Some?
    ensures Contains(endpoint, "/batch/") <==> endpoint == "/v2/batch/scrape"
  {
    if endpoint == "/v2/batch/scrape" {
      assert "/batch/" <= endpoint[3..];
    } else {
      assert "/batch/"[1] == 'b';
      NoPart(endpoint, "/batch/", 'b');
    }
  }

  /**
   * What a 2xx on a priced path costs: a crawl its pages, but at least 5; a batch its entries, but at least 1; an
   * extraction 2; the others 1. An answer whose data is no object cannot be priced where a counter is looked for.
   */
  lemma {:induction false} ChargeMeans(path: string, endpoint: string, body: Body)
    requires Listed(endpoint).Some? && Under(Plain(path), endpoint)
    ensures Charge(path, body) ==
            if endpoint == "/v1/crawl" || endpoint == "/v2/crawl" then
              match body
              case Empty => Some(5)
              case Odd => None
              case Fields(total, _) => Some(if total.Some? && total.value > 5 then total.value else 5)
            else if endpoint == "/v2/batch/scrape" then
              match body
              case Empty => Some(1)
              case Odd => None
              case Fields(_, count) => Some(if count.Some? && count.value > 1 then count.value else 1)
            else if endpoint == "/v2/extract" then Some(2)
            else Some(1)
  {
    PricedExactly(path, endpoint);
    CrawlsByPages(endpoint);
    BatchesByEntries(endpoint);
  }

  lemma {:induction false} AtLeastOnce(base: int, n: int)
    requires base >= 1 && n >= 1
    ensures base * n >= base
  {
  }

  lemma {:induction false} ScaledAtLeast(endpoint: string, base: int, body: Body)
    requires base >= 1
    ensures Scaled(endpoint, base, body).Some? ==> Scaled(endpoint, base, body).value >= base
  {
    if body.Fields? {
      AtLeastOnce(base, Max(body.count.GetOr(1), 1));
    }
  }

  /** A charge is at least the endpoint's listed cost, and so positive: a request never adds to the cache. */
  lemma {:induction false} ChargesArePositive(path: string, body: Body)
    requires Charge(path, body).Some?
    ensures Listed(Normalize(path)).Some?
    ensures Charge(path, body).value >= Listed(Normalize(path)).value >= 1
  {
    ScaledAtLeast(Normalize(path), Listed(Normalize(path)).value, body);
  }

  /** The deduction itself: nothing where nothing is charged. */
  function Taken(path: string, body: Body): (cost: int)
    ensures cost >= 0
  {
    var c := Charge(path, body);
    if c.None? then 0 else (ChargesArePositive(path, body); c.value)
  }
}
