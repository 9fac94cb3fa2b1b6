/**
 * `TwitterCrawler` (`tweet_harvest/crawler.py`): the crawler's settings, the
 * append-only store `all_tweets`, the response handler that feeds payloads
 * through the resolver and the entry loop, and the scroll loop's stopping
 * rule. The browser is replaced by its effect: during each scroll step the
 * page delivers some responses (`arrivals`), which are handled in order.
 */
module Crawler {
  import opened Values
  import opened Text
  import opened Rows
  import opened Resolver
  import opened Harvest

  // ---------------------------------------------------------------------------
  // Settings derived in `__init__` and `_build_search_query`
  // ---------------------------------------------------------------------------

  datatype Mode = SearchMode | UserMode

  /** `'USER'` when a user is given (truthy), `'SEARCH'` otherwise. */
  function ModeFor(fromUser: Option<string>): (m: Mode)
    ensures m == UserMode <==> Present(fromUser)
  {
    if Present(fromUser) then UserMode else SearchMode
  }

  const FolderDestination: string := "tweets-data"

  /** The file name before `.csv`: the given name if truthy, else a name built from the user or the keywords and the start time. */
  function FileName(fromUser: Option<string>, searchKeywords: Option<string>, outputFilename: Option<string>, now: string): (r: string)
    ensures NoSpace(r)
  {
    var name :=
      if Present(outputFilename) then outputFilename.value
      else if Present(fromUser) then "from_" + fromUser.value + "_" + now
      else Display(searchKeywords) + "_" + now;
    ReplaceSpaces(name)
  }

  predicate NoSpace(s: string)
  {
    forall i :: 0 <= i < |s| ==> s[i] != ' '
  }

  /** `os.path.join(folder, name)` for a folder without a trailing slash: an absolute name replaces the folder. */
  function JoinPath(folder: string, name: string): (p: string)
    ensures |name| <= |p| && p[|p| - |name|..] == name
    ensures NoSpace(folder) && NoSpace(name) ==> NoSpace(p)
  {
    if |name| > 0 && name[0] == '/' then name
    else
      var p := folder + "/" + name;
      assert p[|p| - |name|..] == name;
      assert forall i :: 0 <= i < |folder| ==> p[i] == folder[i];
      assert forall i :: |folder| < i < |p| ==> p[i] == name[i - |folder| - 1];
      p
  }

  /** `self.filepath`. */
  function OutputPath(fromUser: Option<string>, searchKeywords: Option<string>, outputFilename: Option<string>, now: string): (p: string)
    ensures |p| >= 4 && p[|p| - 4..] == ".csv"
    ensures NoSpace(p)
  {
    var base := FileName(fromUser, searchKeywords, outputFilename, now);
    var name := base + ".csv";
    ConstantsHaveNoSpace();
    NoSpaceConcat(base, ".csv");
    var p := JoinPath(FolderDestination, name);
    SuffixOfSuffix(p, base, ".csv");
    p
  }

  /** A path ending in `base + ext` ends in `ext`. */
  lemma SuffixOfSuffix(p: string, base: string, ext: string)
    requires |base + ext| <= |p| && p[|p| - |base + ext|..] == base + ext
    ensures |ext| <= |p| && p[|p| - |ext|..] == ext
  {
    var name := base + ext;
    assert p[|p| - |ext|..] == name[|base|..];
  }

  lemma ConstantsHaveNoSpace()
    ensures NoSpace(FolderDestination) && NoSpace(".csv")
  {
  }

  lemma NoSpaceConcat(a: string, b: string)
    requires NoSpace(a) && NoSpace(b)
    ensures NoSpace(a + b)
  {
    assert forall i :: |a| <= i < |a + b| ==> (a + b)[i] == b[i - |a|];
  }

  /** Without an output name, a user crawl writes `tweets-data/from_<user>_<time>.csv`, spaces made underscores. */
  lemma DefaultUserPath(user: string, now: string)
    requires user != ""
    ensures OutputPath(Some(user), None, None, now) == "tweets-data/" + ReplaceSpaces("from_" + user + "_" + now) + ".csv"
  {
    var raw := "from_" + user + "_" + now;
    assert raw[0] == 'f';
    var base := ReplaceSpaces(raw);
    assert FileName(Some(user), None, None, now) == base;
    var name := base + ".csv";
    assert name[0] == base[0] == 'f';
    assert JoinPath(FolderDestination, name) == FolderDestination + "/" + name;
    assert FolderDestination + "/" == "tweets-data/";
  }

  /** An absolute output name is used as it is (after replacing spaces), outside `tweets-data`. */
  lemma AbsoluteOutputName(name: string, fromUser: Option<string>, searchKeywords: Option<string>, now: string)
    requires |name| > 0 && name[0] == '/'
    ensures OutputPath(fromUser, searchKeywords, Some(name), now) == ReplaceSpaces(name) + ".csv"
  {
  }

  /**
   * Without an output name the mode decides the file: a user crawl writes
   * `from_<user>_<time>`, a search crawl `<keywords>_<time>` (`None_<time>`
   * without keywords), spaces made underscores, under `tweets-data` unless
   * the name is itself absolute.
   */
  lemma DefaultPathFollowsMode(fromUser: Option<string>, searchKeywords: Option<string>, now: string)
    ensures ModeFor(fromUser) == UserMode ==>
      OutputPath(fromUser, searchKeywords, None, now) == "tweets-data/" + ReplaceSpaces("from_" + fromUser.value + "_" + now) + ".csv"
    ensures ModeFor(fromUser) == SearchMode ==>
      var base := ReplaceSpaces(Display(searchKeywords) + "_" + now);
      && |base| > 0
      && OutputPath(fromUser, searchKeywords, None, now) == (if base[0] == '/' then base + ".csv" else "tweets-data/" + base + ".csv")
  {
    if ModeFor(fromUser) == UserMode {
      DefaultUserPath(fromUser.value, now);
    } else {
      var base := ReplaceSpaces(Display(searchKeywords) + "_" + now);
      assert FileName(fromUser, searchKeywords, None, now) == base;
      var name := base + ".csv";
      assert name[0] == base[0];
      if base[0] != '/' {
        UnderFolder(base, OutputPath(fromUser, searchKeywords, None, now));
      }
    }
  }

  /** A search without keywords writes `tweets-data/None_<time>.csv`. */
  lemma NoKeywordsPath(now: string)
    ensures OutputPath(None, None, None, now) == "tweets-data/None_" + ReplaceSpaces(now) + ".csv"
  {
    DefaultPathFollowsMode(None, None, now);
    NoneNameReplaced(now);
    var r := ReplaceSpaces(now);
    var base := "None_" + r;
    assert base[0] == 'N';
    NoneUnderFolder(r);
  }

  lemma NoneUnderFolder(r: string)
    ensures "tweets-data/" + ("None_" + r) == "tweets-data/None_" + r
  {
    assert "tweets-data/" + "None_" == "tweets-data/None_";
  }

  lemma NoneNameReplaced(now: string)
    ensures ReplaceSpaces("None" + "_" + now) == "None_" + ReplaceSpaces(now)
  {
    var r := ReplaceSpaces("None" + "_" + now);
    assert forall i :: 0 <= i < |r| ==> r[i] == ("None_" + ReplaceSpaces(now))[i];
  }

  /** A relative output name is used under `tweets-data`, whatever the mode. */
  lemma RelativeOutputName(name: string, fromUser: Option<string>, searchKeywords: Option<string>, now: string)
    requires |name| > 0 && name[0] != '/'
    ensures OutputPath(fromUser, searchKeywords, Some(name), now) == "tweets-data/" + ReplaceSpaces(name) + ".csv"
  {
    ReplacedNameIsRelative(name);
    UnderFolder(ReplaceSpaces(name), OutputPath(fromUser, searchKeywords, Some(name), now));
  }

  lemma ReplacedNameIsRelative(name: string)
    requires |name| > 0 && name[0] != '/'
    ensures |ReplaceSpaces(name)| > 0 && ReplaceSpaces(name)[0] != '/'
  {
  }

  /** A relative file name `base` with its `.csv` suffix, joined to `tweets-data`. */
  lemma UnderFolder(base: string, p: string)
    requires |base| > 0 && base[0] != '/' && p == JoinPath(FolderDestination, base + ".csv")
    ensures p == "tweets-data/" + base + ".csv"
  {
    var file := base + ".csv";
    assert file[0] == base[0];
    assert FolderDestination + "/" == "tweets-data/";
  }

  /** An empty output name is falsy, so the default name is used (`output_filename or ...`). */
  lemma EmptyOutputNameIgnored(fromUser: Option<string>, searchKeywords: Option<string>, now: string)
    ensures OutputPath(fromUser, searchKeywords, Some(""), now) == OutputPath(fromUser, searchKeywords, None, now)
  {
  }

  /** The search query before URL-encoding, or None when there are no keywords (`None += str` or `quote(None)` raise). */
  function SearchQuery(keywords: Option<string>, fromDate: Option<string>, toDate: Option<string>): (q: Option<string>)
    ensures q.None? <==> keywords.None?
    ensures q.Some? ==> |keywords.value| <= |q.value| && q.value[..|keywords.value|] == keywords.value
  {
    match keywords
    case None => None
    case Some(k) =>
      var since := if Present(fromDate) then " since:" + fromDate.value else "";
      var until := if Present(toDate) then " until:" + toDate.value else "";
      assert (k + since + until)[..|k|] == k;
      Some(k + since + until)
  }

  /** The dates are appended as ` since:` then ` until:`, each only when given (either alone, or both). */
  lemma SearchQueryDates(k: string, f: string, t: string)
    requires f != "" && t != ""
    ensures SearchQuery(Some(k), Some(f), Some(t)) == Some(k + " since:" + f + " until:" + t)
    ensures SearchQuery(Some(k), None, Some(t)) == Some(k + " until:" + t)
    ensures SearchQuery(Some(k), Some(""), None) == Some(k)
    ensures SearchQuery(Some(k), Some(f), None) == Some(k + " since:" + f)
  {
    assert k + (" since:" + f) + "" == k + " since:" + f;
    assert k + "" + "" == k;
    assert k + "" + (" until:" + t) == k + " until:" + t;
    assert k + (" since:" + f) + (" until:" + t) == k + " since:" + f + " until:" + t;
  }

  // ---------------------------------------------------------------------------
  // Responses
  // ---------------------------------------------------------------------------

  /** A network response; `body` is None when `response.json()` raises. */
  datatype Response = Response(url: string, status: int, body: Option<Json>)

  /** The routing test of `_handle_response`: a GraphQL search or user-timeline call that succeeded. */
  predicate AcceptResponse(url: string, status: int)
  {
    Contains(url, "api/graphql") && (Contains(url, "SearchTimeline") || Contains(url, "UserTweets")) && status == 200
  }

  /** The routing test stated with occurrences: the URL holds `api/graphql` and one of the operation names somewhere. */
  lemma AcceptResponseIff(url: string, status: int)
    ensures AcceptResponse(url, status) <==>
      status == 200
      && (exists i :: OccursAt(url, "api/graphql", i))
      && ((exists i :: OccursAt(url, "SearchTimeline", i)) || (exists i :: OccursAt(url, "UserTweets", i)))
  {
    ContainsIffOccurs(url, "api/graphql");
    ContainsIffOccurs(url, "SearchTimeline");
    ContainsIffOccurs(url, "UserTweets");
  }

  /** A search-timeline call is accepted, the same call with another status is not, and the home page is not. */
  lemma AcceptResponseExamples()
    ensures AcceptResponse("x.com/i/api/graphql/q1/SearchTimeline", 200)
    ensures !AcceptResponse("x.com/i/api/graphql/q1/SearchTimeline", 429)
    ensures !AcceptResponse("x.com/home", 200)
  {
    var url := "x.com/i/api/graphql/q1/SearchTimeline";
    assert forall j :: 0 <= j < 11 ==> url[8 + j] == "api/graphql"[j];
    assert url[8..19] == "api/graphql";
    assert OccursAt(url, "api/graphql", 8);
    assert forall j :: 0 <= j < 14 ==> url[23 + j] == "SearchTimeline"[j];
    assert url[23..37] == "SearchTimeline";
    assert OccursAt(url, "SearchTimeline", 23);
    AcceptResponseIff(url, 200);
    var home := "x.com/home";
    assert !Contains(home, "api/graphql");
  }

  /** The store and the batches written so far. */
  datatype Handled = Handled(store: seq<Row>, batches: seq<seq<Row>>)

  /** `_handle_response` on values: an accepted response with a JSON body is ingested, any other changes nothing. */
  function HandleOne(h: Handled, response: Response, langFilter: Option<string>): Handled
  {
    if AcceptResponse(response.url, response.status) && response.body.Some? then
      var g := Ingest(h.store, response.body.value, langFilter);
      Handled(g.store, h.batches + Written(g))
    else h
  }

  /** The responses handled in order, starting from `store` with nothing written. */
  function HandleSeq(store: seq<Row>, responses: seq<Response>, langFilter: Option<string>): (h: Handled)
    ensures |store| <= |h.store| && h.store[..|store|] == store
    ensures forall k :: 0 <= k < |h.batches| ==> h.batches[k] != []
    decreases |responses|, 1
  {
    if responses == [] then Handled(store, []) else HandleLast(store, responses, langFilter)
  }

  /**
   * A non-empty sequence of responses: the last one handled after the ones
   * before it. (Kept apart from `HandleSeq` so that a proof about the loop
   * over the responses unfolds one response at a time.)
   */
  function HandleLast(store: seq<Row>, responses: seq<Response>, langFilter: Option<string>): (h: Handled)
    requires responses != []
    ensures |store| <= |h.store| && h.store[..|store|] == store
    ensures forall k :: 0 <= k < |h.batches| ==> h.batches[k] != []
    decreases |responses|, 0
  {
    var prev := HandleSeq(store, responses[..|responses| - 1], langFilter);
    var h := HandleOne(prev, responses[|responses| - 1], langFilter);
    IngestExtends(prev.store, responses[|responses| - 1], langFilter);
    assert h.store[..|store|] == prev.store[..|store|];
    h
  }

  /**
   * The step of the loop over a scroll step's responses: a store and a log
   * that held the effect of the first `j` responses, and then took in
   * response `j` as `_handle_response` does, hold the effect of `j + 1`.
   */
  lemma HandleSeqStep(start: seq<Row>, responses: seq<Response>, j: nat, langFilter: Option<string>, log: seq<seq<Row>>,
                      rows: seq<Row>, batches: seq<seq<Row>>, rows': seq<Row>, batches': seq<seq<Row>>)
    requires j < |responses|
    requires rows == HandleSeq(start, responses[..j], langFilter).store
    requires batches == log + HandleSeq(start, responses[..j], langFilter).batches
    requires AcceptResponse(responses[j].url, responses[j].status) && responses[j].body.Some? ==>
      rows' == Ingest(rows, responses[j].body.value, langFilter).store
      && batches' == batches + Written(Ingest(rows, responses[j].body.value, langFilter))
    requires !(AcceptResponse(responses[j].url, responses[j].status) && responses[j].body.Some?) ==>
      rows' == rows && batches' == batches
    ensures rows' == HandleSeq(start, responses[..j + 1], langFilter).store
    ensures batches' == log + HandleSeq(start, responses[..j + 1], langFilter).batches
  {
    assert responses[..j + 1] == responses[..j] + [responses[j]];
    HandleSeqSnoc(start, responses[..j], responses[j], langFilter);
    var prev := HandleSeq(start, responses[..j], langFilter);
    if AcceptResponse(responses[j].url, responses[j].status) && responses[j].body.Some? {
      AppendAssoc(log, prev.batches, Written(Ingest(rows, responses[j].body.value, langFilter)));
    }
  }

  /** Handling one more response extends the fold by one step. */
  lemma HandleSeqSnoc(store: seq<Row>, responses: seq<Response>, response: Response, langFilter: Option<string>)
    ensures HandleSeq(store, responses + [response], langFilter) == HandleOne(HandleSeq(store, responses, langFilter), response, langFilter)
  {
    assert (responses + [response])[..|responses|] == responses;
  }

  /** Handling one response only appends to the store. */
  lemma IngestExtends(store: seq<Row>, response: Response, langFilter: Option<string>)
    ensures response.body.Some? ==>
      var g := Ingest(store, response.body.value, langFilter);
      |store| <= |g.store| && g.store[..|store|] == store
  {
    if response.body.Some? && Resolve(response.body.value).Some? {
      var vs := Verdicts(Resolve(response.body.value).value, langFilter);
      AbsorbAppends(store, Harvested(store, [], false), vs);
    }
  }

  /** The responses the handler accepts, in order. */
  function Accepted(responses: seq<Response>): (r: seq<Response>)
    ensures |r| <= |responses|
    ensures forall k :: 0 <= k < |r| ==> AcceptResponse(r[k].url, r[k].status)
    decreases |responses|
  {
    if responses == [] then []
    else
      var last := responses[|responses| - 1];
      var init := Accepted(responses[..|responses| - 1]);
      if AcceptResponse(last.url, last.status) then init + [last] else init
  }

  /** Only the accepted responses matter: dropping the others changes neither the store nor what is written. */
  lemma {:induction false} HandleSeqIgnoresRejected(store: seq<Row>, responses: seq<Response>, langFilter: Option<string>)
    ensures HandleSeq(store, Accepted(responses), langFilter) == HandleSeq(store, responses, langFilter)
    decreases |responses|
  {
    if responses != [] {
      var init := responses[..|responses| - 1];
      var last := responses[|responses| - 1];
      HandleSeqIgnoresRejected(store, init, langFilter);
      assert responses == init + [last];
      HandleSeqSnoc(store, init, last, langFilter);
      if AcceptResponse(last.url, last.status) {
        HandleSeqSnoc(store, Accepted(init), last, langFilter);
      }
    }
  }

  /**
   * Step `n` of the scroll loop handles `arrivals(n)` after the first `n`
   * steps: a store and a log that held the effect of `n` steps and then
   * took in `arrivals(n)` hold the effect of `n + 1` steps.
   */
  lemma ScrolledStep(store: seq<Row>, arrivals: nat -> seq<Response>, n: nat, langFilter: Option<string>,
                     log: seq<seq<Row>>, rows: seq<Row>, batches: seq<seq<Row>>, counts: seq<int>)
    requires counts == ScrolledSizes(store, arrivals, n, langFilter)
    requires var prev := Scrolled(store, arrivals, n, langFilter);
      var next := HandleSeq(prev.store, arrivals(n), langFilter);
      rows == next.store && batches == log + prev.batches + next.batches
    ensures Tracked(store, log, arrivals, n + 1, langFilter, rows, batches, counts + [|rows|])
  {
    var prev := Scrolled(store, arrivals, n, langFilter);
    var next := HandleSeq(prev.store, arrivals(n), langFilter);
    AppendAssoc(log, prev.batches, next.batches);
  }

  lemma AppendAssoc(a: seq<seq<Row>>, b: seq<seq<Row>>, c: seq<seq<Row>>)
    ensures a + b + c == a + (b + c)
  {
  }

  /** The effect of the first `n` scroll steps, step `k` delivering `arrivals(k)`. */
  ghost function Scrolled(store: seq<Row>, arrivals: nat -> seq<Response>, n: nat, langFilter: Option<string>): (h: Handled)
    ensures |store| <= |h.store| && h.store[..|store|] == store
    ensures forall k :: 0 <= k < |h.batches| ==> h.batches[k] != []
  {
    if n == 0 then Handled(store, [])
    else
      var prev := Scrolled(store, arrivals, n - 1, langFilter);
      var next := HandleSeq(prev.store, arrivals(n - 1), langFilter);
      assert next.store[..|store|] == prev.store[..|store|];
      Handled(next.store, prev.batches + next.batches)
  }

  /** The store size before the first scroll step and after each of the first `n` steps. */
  ghost function ScrolledSizes(store: seq<Row>, arrivals: nat -> seq<Response>, n: nat, langFilter: Option<string>): (sizes: seq<int>)
    ensures |sizes| == n + 1
  {
    if n == 0 then [|store|]
    else ScrolledSizes(store, arrivals, n - 1, langFilter) + [|Scrolled(store, arrivals, n, langFilter).store|]
  }

  /** Entry `k` of the sizes is the store size after `k` steps. */
  lemma {:induction false} ScrolledSizesAt(store: seq<Row>, arrivals: nat -> seq<Response>, n: nat, langFilter: Option<string>)
    ensures forall k :: 0 <= k <= n ==> ScrolledSizes(store, arrivals, n, langFilter)[k] == |Scrolled(store, arrivals, k, langFilter).store|
  {
    if n > 0 {
      ScrolledSizesAt(store, arrivals, n - 1, langFilter);
      var init := ScrolledSizes(store, arrivals, n - 1, langFilter);
      assert ScrolledSizes(store, arrivals, n, langFilter)[..n] == init;
    }
  }

  /** `rows`, `batches` and `counts` hold the effect of the first `n` scroll steps on a store `start` and a log `log`. */
  ghost predicate Tracked(start: seq<Row>, log: seq<seq<Row>>, arrivals: nat -> seq<Response>, n: nat, langFilter: Option<string>,
                          rows: seq<Row>, batches: seq<seq<Row>>, counts: seq<int>)
  {
    && rows == Scrolled(start, arrivals, n, langFilter).store
    && batches == log + Scrolled(start, arrivals, n, langFilter).batches
    && counts == ScrolledSizes(start, arrivals, n, langFilter)
  }

  /** Why the scroll loop ended. */
  datatype CrawlOutcome = LoginFailed | TargetReached | Stagnated

  const MaxNoNewTweetsScrolls: nat := 5

  // `counts[k]` is the store size after `k` scroll steps; step `k` takes it from `counts[k]` to `counts[k + 1]`.

  /** Step `k` started below `target` and did not shrink the store. */
  predicate ScrolledBelow(counts: seq<int>, k: int, target: int)
  {
    0 <= k && k + 1 < |counts| && counts[k] < target && counts[k] <= counts[k + 1]
  }

  /** Step `k` added rows. */
  predicate Grew(counts: seq<int>, k: int)
  {
    0 <= k && k + 1 < |counts| && counts[k] < counts[k + 1]
  }

  /** Step `k` added nothing. */
  predicate Flat(counts: seq<int>, k: int)
  {
    0 <= k && k + 1 < |counts| && counts[k + 1] == counts[k]
  }

  /** Some step among the five before step `j` added rows. */
  predicate GrewWithin(counts: seq<int>, j: int)
  {
    exists k :: j - MaxNoNewTweetsScrolls <= k < j && Grew(counts, k)
  }

  /**
   * The facts the scroll loop keeps about `counts` (the store size before the
   * first step and after each step since): every step started below the
   * target and did not shrink the store, the last `stagnant` steps added
   * nothing and the one before them added rows, and no earlier window of
   * five steps was flat.
   */
  ghost predicate StopRuleHolds(counts: seq<int>, stagnant: nat, target: int)
  {
    var steps := |counts| - 1;
    && |counts| >= 1
    && stagnant <= steps
    && (forall k :: 0 <= k < steps ==> ScrolledBelow(counts, k, target))
    && (forall k :: steps - stagnant <= k < steps ==> Flat(counts, k))
    && (stagnant < steps ==> Grew(counts, steps - stagnant - 1))
    && (forall j :: MaxNoNewTweetsScrolls <= j < steps ==> GrewWithin(counts, j))
  }

  /** One more scroll step, taken below the target and not yet stopped, keeps the stop rule with the counter updated as `crawl` does. */
  lemma StopRuleStep(counts: seq<int>, stagnant: nat, target: int, after: int)
    requires StopRuleHolds(counts, stagnant, target) && stagnant < MaxNoNewTweetsScrolls
    requires counts[|counts| - 1] < target && counts[|counts| - 1] <= after
    ensures StopRuleHolds(counts + [after], if after == counts[|counts| - 1] then stagnant + 1 else 0, target)
  {
    var steps := |counts| - 1;
    var c := counts + [after];
    forall k | 0 <= k < steps
      ensures ScrolledBelow(c, k, target) && (Flat(counts, k) ==> Flat(c, k)) && (Grew(counts, k) ==> Grew(c, k))
    {
      assert ScrolledBelow(counts, k, target);
      assert c[k] == counts[k] && c[k + 1] == counts[k + 1];
    }
    assert ScrolledBelow(c, steps, target) by {
      assert c[steps] == counts[steps] && c[steps + 1] == after;
    }
    assert after == counts[steps] ==> Flat(c, steps);
    assert after != counts[steps] ==> Grew(c, steps);
    if MaxNoNewTweetsScrolls <= steps {
      assert Grew(c, steps - stagnant - 1);
      assert GrewWithin(c, steps);
    }
    forall j | MaxNoNewTweetsScrolls <= j < steps
      ensures GrewWithin(c, j)
    {
      assert GrewWithin(counts, j);
      var k :| j - MaxNoNewTweetsScrolls <= k < j && Grew(counts, k);
      assert Grew(c, k);
    }
  }

  /**
   * What the scroll loop knows after `steps` steps: the store `rows` and the
   * log `batches` hold the effect of those steps, `counts` records the
   * store sizes, the stop rule holds with `stagnant` flat steps at the end,
   * and every step but the last `stagnant` ones (and at most four before
   * each of those) added a row.
   */
  ghost predicate ScrollInv(start: seq<Row>, log: seq<seq<Row>>, arrivals: nat -> seq<Response>, langFilter: Option<string>,
                            target: int, steps: nat, counts: seq<int>, stagnant: nat, growth: nat,
                            rows: seq<Row>, batches: seq<seq<Row>>)
  {
    && Tracked(start, log, arrivals, steps, langFilter, rows, batches, counts)
    && |counts| == steps + 1 && counts[steps] == |rows|
    && StopRuleHolds(counts, stagnant, target)
    && steps <= 5 * growth + stagnant
    && growth <= |rows| - |start|
    && (|start| < target ==> growth <= target - |start|)
    && (|start| >= target ==> steps == 0)
  }

  /** Before the first step, nothing has been handled. */
  lemma ScrollInvInit(start: seq<Row>, log: seq<seq<Row>>, arrivals: nat -> seq<Response>, langFilter: Option<string>, target: int)
    ensures ScrollInv(start, log, arrivals, langFilter, target, 0, [|start|], 0, 0, start, log)
  {
    assert log + [] == log;
  }

  /** One step of the scroll loop, taken below the target and not yet stopped, keeps `ScrollInv`. */
  lemma ScrollInvStep(start: seq<Row>, log: seq<seq<Row>>, arrivals: nat -> seq<Response>, langFilter: Option<string>,
                      target: int, steps: nat, counts: seq<int>, stagnant: nat, growth: nat,
                      rows: seq<Row>, batches: seq<seq<Row>>, rows': seq<Row>, batches': seq<seq<Row>>)
    requires ScrollInv(start, log, arrivals, langFilter, target, steps, counts, stagnant, growth, rows, batches)
    requires stagnant < MaxNoNewTweetsScrolls && |rows| < target && |rows| <= |rows'|
    requires Tracked(start, log, arrivals, steps + 1, langFilter, rows', batches', counts + [|rows'|])
    ensures ScrollInv(start, log, arrivals, langFilter, target, steps + 1, counts + [|rows'|],
                      if |rows'| == |rows| then stagnant + 1 else 0, if |rows'| == |rows| then growth else growth + 1,
                      rows', batches')
  {
    StopRuleStep(counts, stagnant, target, |rows'|);
  }

  /** When the scroll loop ends, what `crawl` promises about its steps and its outcome. */
  lemma ScrollInvEnd(start: seq<Row>, log: seq<seq<Row>>, arrivals: nat -> seq<Response>, langFilter: Option<string>,
                     target: int, steps: nat, counts: seq<int>, stagnant: nat, growth: nat,
                     rows: seq<Row>, batches: seq<seq<Row>>, outcome: CrawlOutcome)
    requires ScrollInv(start, log, arrivals, langFilter, target, steps, counts, stagnant, growth, rows, batches)
    requires stagnant <= MaxNoNewTweetsScrolls
    requires outcome == TargetReached ==> |rows| >= target && stagnant < MaxNoNewTweetsScrolls
    requires outcome == Stagnated ==> stagnant == MaxNoNewTweetsScrolls && (steps > 0 ==> counts[steps - 1] < target)
    ensures rows == Scrolled(start, arrivals, steps, langFilter).store
    ensures batches == log + Scrolled(start, arrivals, steps, langFilter).batches
    ensures counts == ScrolledSizes(start, arrivals, steps, langFilter)
    ensures forall k :: 0 <= k < steps ==> ScrolledBelow(counts, k, target)
    ensures outcome == Stagnated ==>
      |rows| < target && steps >= MaxNoNewTweetsScrolls
      && forall k :: steps - MaxNoNewTweetsScrolls <= k < steps ==> Flat(counts, k)
    ensures forall j :: MaxNoNewTweetsScrolls <= j < steps ==> GrewWithin(counts, j)
    ensures |start| >= target ==> steps == 0
    ensures |start| < target ==> steps <= 5 * (target - |start|) + 5
  {
    if outcome == Stagnated {
      assert ScrolledBelow(counts, steps - 1, target) && Flat(counts, steps - 1);
    }
  }

  // ---------------------------------------------------------------------------
  // The crawler
  // ---------------------------------------------------------------------------

  class TwitterCrawler {
    const searchKeywords: Option<string>
    const fromUser: Option<string>
    const targetTweetCount: int
    const fromDate: Option<string>
    const toDate: Option<string>
    const langFilter: Option<string>
    const crawlMode: Mode
    const filepath: string

    /** `self.all_tweets`: every row kept so far, in arrival order. */
    var allTweets: seq<Row>
    /** The batches handed to `_write_to_csv`, in order. */
    ghost var written: seq<seq<Row>>

    /** Stored ids are distinct, and so are written ids, every written row is stored, and no batch is empty. */
    ghost predicate Valid()
      reads this
    {
      && DistinctIds(allTweets)
      && DistinctIds(Flatten(written))
      && Ids(Flatten(written)) <= Ids(allTweets)
      && forall k :: 0 <= k < |written| ==> written[k] != []
    }

    /** `__init__`; the access token and delay feed only the browser and are not modelled. */
    constructor (searchKeywords: Option<string>, fromUser: Option<string>, targetTweetCount: int,
                 outputFilename: Option<string>, fromDate: Option<string>, toDate: Option<string>,
                 lang: Option<string>, now: string)
      ensures Valid()
      ensures this.searchKeywords == searchKeywords && this.fromUser == fromUser
      ensures this.targetTweetCount == targetTweetCount && this.langFilter == lang
      ensures this.fromDate == fromDate && this.toDate == toDate
      ensures crawlMode == ModeFor(fromUser)
      ensures filepath == OutputPath(fromUser, searchKeywords, outputFilename, now)
      ensures allTweets == [] && written == []
    {
      this.searchKeywords := searchKeywords;
      this.fromUser := fromUser;
      this.targetTweetCount := targetTweetCount;
      this.fromDate := fromDate;
      this.toDate := toDate;
      this.langFilter := lang;
      crawlMode := ModeFor(fromUser);
      filepath := OutputPath(fromUser, searchKeywords, outputFilename, now);
      allTweets := [];
      written := [];
    }

    /** A write keeps `Valid` when the batch is exactly the rows just appended to a store it held for. */
    lemma WriteKeepsValid(store: seq<Row>, batch: seq<Row>)
      requires DistinctIds(store + batch) && batch != []
      requires DistinctIds(Flatten(written)) && Ids(Flatten(written)) <= Ids(store)
      ensures DistinctIds(Flatten(written + [batch]))
      ensures Ids(Flatten(written + [batch])) <= Ids(store + batch)
    {
      var w := written + [batch];
      assert w[..|w| - 1] == written;
      DistinctConcat(store, batch);
      IdsConcat(store, batch);
      IdsConcat(Flatten(written), batch);
      DistinctConcat(Flatten(written), batch);
    }

    /** `_parse_and_save`: resolve the entries, run the entry loop, write the batch. */
    method ParseAndSave(payload: Json)
      requires Valid()
      modifies this`allTweets, this`written
      ensures Valid()
      ensures allTweets == Ingest(old(allTweets), payload, langFilter).store
      ensures written == old(written) + Written(Ingest(old(allTweets), payload, langFilter))
    {
      var resolved := ResolveEntries(payload);
      if resolved.None? {
        return;
      }
      IngestResolved(allTweets, payload, langFilter, resolved.value);
      SaveEntries(resolved.value);
    }

    /** The part of `_parse_and_save` after resolving: the entry loop, then one write of the new rows. */
    method SaveEntries(entries: seq<Json>)
      requires Valid()
      modifies this`allTweets, this`written
      ensures Valid()
      ensures allTweets == Absorb(Harvested(old(allTweets), [], false), Verdicts(entries, langFilter)).store
      ensures written == old(written) + Written(Absorb(Harvested(old(allTweets), [], false), Verdicts(entries, langFilter)))
    {
      ghost var start := Harvested(allTweets, [], false);
      AbsorbAppends(allTweets, start, Verdicts(entries, langFilter));
      AbsorbKeepsDistinct(start, Verdicts(entries, langFilter));
      var batch, crashed := RunEntryLoop(entries);
      IdsConcat(old(allTweets), batch);
      if !crashed && batch != [] {
        WriteKeepsValid(old(allTweets), batch);
        written := written + [batch];
      }
    }

    /**
     * The loop over the entries, lines 99-126: it appends each new row to the
     * store and the batch, and stops at the first exception other than a
     * validation error, which leaves `_parse_and_save` with `crashed` set.
     */
    method RunEntryLoop(entries: seq<Json>) returns (batch: seq<Row>, crashed: bool)
      modifies this`allTweets
      ensures Harvested(allTweets, batch, crashed) == Absorb(Harvested(old(allTweets), [], false), Verdicts(entries, langFilter))
    {
      ghost var verdicts := Verdicts(entries, langFilter);
      assert verdicts[0..] == verdicts;
      batch := [];
      var i := 0;
      while i < |entries|
        invariant 0 <= i <= |entries|
        invariant Absorb(Harvested(old(allTweets), [], false), verdicts) == Absorb(Harvested(allTweets, batch, false), verdicts[i..])
      {
        var verdict := ProcessEntry(entries[i], langFilter);
        assert verdict == verdicts[i];
        ghost var here := Harvested(allTweets, batch, false);
        AbsorbStep(here, verdicts, i);
        match verdict {
          case Crash =>
            AbsorbCrashed(Harvested(allTweets, batch, true), verdicts[i + 1..]);
            return batch, true;
          case Skip =>
          case Emit(row) =>
            if row.idStr !in Ids(allTweets) {
              allTweets := allTweets + [row];
              batch := batch + [row];
            }
        }
        assert Admit(here, verdict) == Harvested(allTweets, batch, false);
        ghost var rest := verdicts[i + 1..];
        i := i + 1;
        assert rest == verdicts[i..];
      }
      assert verdicts[i..] == [];
      crashed := false;
    }

    /** `_handle_response`: accepted responses with a JSON body are parsed; everything that raises is swallowed. */
    method HandleResponse(response: Response)
      requires Valid()
      modifies this`allTweets, this`written
      ensures Valid()
      ensures AcceptResponse(response.url, response.status) && response.body.Some? ==>
        allTweets == Ingest(old(allTweets), response.body.value, langFilter).store
        && written == old(written) + Written(Ingest(old(allTweets), response.body.value, langFilter))
      ensures !(AcceptResponse(response.url, response.status) && response.body.Some?) ==>
        allTweets == old(allTweets) && written == old(written)
      ensures |allTweets| >= |old(allTweets)| && allTweets[..|old(allTweets)|] == old(allTweets)
    {
      if AcceptResponse(response.url, response.status) && response.body.Some? {
        IngestAppendsNewRows(allTweets, response.body.value, langFilter);
        ParseAndSave(response.body.value);
      }
    }

    /** Handle the responses one scroll step brings, in order. */
    method HandleAll(responses: seq<Response>)
      requires Valid()
      modifies this`allTweets, this`written
      ensures Valid()
      ensures allTweets == HandleSeq(old(allTweets), responses, langFilter).store
      ensures written == old(written) + HandleSeq(old(allTweets), responses, langFilter).batches
    {
      var j := 0;
      while j < |responses|
        invariant 0 <= j <= |responses|
        invariant Valid()
        invariant allTweets == HandleSeq(old(allTweets), responses[..j], langFilter).store
        invariant written == old(written) + HandleSeq(old(allTweets), responses[..j], langFilter).batches
      {
        ghost var rows, batches := allTweets, written;
        HandleResponse(responses[j]);
        HandleSeqStep(old(allTweets), responses, j, langFilter, old(written), rows, batches, allTweets, written);
        j := j + 1;
      }
      assert responses[..j] == responses;
    }

    /**
     * `crawl` after the browser set-up: unless login failed, run the scroll
     * loop. `counts` is the store size before the first step and after each
     * step.
     */
    method Crawl(loginConfirmed: bool, arrivals: nat -> seq<Response>) returns (outcome: CrawlOutcome, steps: nat, ghost counts: seq<int>)
      requires Valid()
      modifies this`allTweets, this`written
      ensures Valid()
      ensures allTweets == Scrolled(old(allTweets), arrivals, steps, langFilter).store
      ensures written == old(written) + Scrolled(old(allTweets), arrivals, steps, langFilter).batches
      ensures |allTweets| >= |old(allTweets)| && allTweets[..|old(allTweets)|] == old(allTweets)
      ensures !loginConfirmed ==> outcome == LoginFailed && steps == 0 && allTweets == old(allTweets) && written == old(written)
      ensures loginConfirmed ==> outcome != LoginFailed
      ensures counts == ScrolledSizes(old(allTweets), arrivals, steps, langFilter)
      ensures forall k :: 0 <= k < steps ==> ScrolledBelow(counts, k, targetTweetCount)
      ensures outcome == TargetReached ==> |allTweets| >= targetTweetCount
      ensures outcome == Stagnated ==>
        |allTweets| < targetTweetCount && steps >= MaxNoNewTweetsScrolls
        && forall k :: steps - MaxNoNewTweetsScrolls <= k < steps ==> Flat(counts, k)
      ensures forall j :: MaxNoNewTweetsScrolls <= j < steps ==> GrewWithin(counts, j)
      ensures |old(allTweets)| >= targetTweetCount ==> steps == 0
      ensures |old(allTweets)| < targetTweetCount ==> steps <= 5 * (targetTweetCount - |old(allTweets)|) + 5
    {
      if !loginConfirmed {
        ScrollInvInit(allTweets, written, arrivals, langFilter, targetTweetCount);
        ScrollInvEnd(allTweets, written, arrivals, langFilter, targetTweetCount, 0, [|allTweets|], 0, 0, allTweets, written, LoginFailed);
        return LoginFailed, 0, [|allTweets|];
      }
      outcome, steps, counts := ScrollLoop(arrivals);
    }

    /** One scroll step: the responses `arrivals(n)` are handled after the first `n` steps. */
    method ScrollOnce(arrivals: nat -> seq<Response>, n: nat, ghost start: seq<Row>, ghost log: seq<seq<Row>>, ghost counts: seq<int>)
      requires Valid() && Tracked(start, log, arrivals, n, langFilter, allTweets, written, counts)
      modifies this`allTweets, this`written
      ensures Valid() && Tracked(start, log, arrivals, n + 1, langFilter, allTweets, written, counts + [|allTweets|])
      ensures |old(allTweets)| <= |allTweets|
    {
      HandleAll(arrivals(n));
      ScrolledStep(start, arrivals, n, langFilter, log, allTweets, written, counts);
    }

    /**
     * The scroll loop of `crawl`: scroll while the store holds fewer rows
     * than the target, stopping at the first run of five consecutive steps
     * that added nothing. Step `k` delivers the responses `arrivals(k)`.
     */
    method ScrollLoop(arrivals: nat -> seq<Response>) returns (outcome: CrawlOutcome, steps: nat, ghost counts: seq<int>)
      requires Valid()
      modifies this`allTweets, this`written
      ensures Valid()
      ensures allTweets == Scrolled(old(allTweets), arrivals, steps, langFilter).store
      ensures written == old(written) + Scrolled(old(allTweets), arrivals, steps, langFilter).batches
      ensures outcome != LoginFailed
      ensures counts == ScrolledSizes(old(allTweets), arrivals, steps, langFilter)
      ensures forall k :: 0 <= k < steps ==> ScrolledBelow(counts, k, targetTweetCount)
      ensures outcome == TargetReached ==> |allTweets| >= targetTweetCount
      ensures outcome == Stagnated ==>
        |allTweets| < targetTweetCount && steps >= MaxNoNewTweetsScrolls
        && forall k :: steps - MaxNoNewTweetsScrolls <= k < steps ==> Flat(counts, k)
      ensures forall j :: MaxNoNewTweetsScrolls <= j < steps ==> GrewWithin(counts, j)
      ensures |old(allTweets)| >= targetTweetCount ==> steps == 0
      ensures |old(allTweets)| < targetTweetCount ==> steps <= 5 * (targetTweetCount - |old(allTweets)|) + 5
    {
      ghost var start := allTweets;
      ghost var log := written;
      counts := [|allTweets|];
      steps := 0;
      ghost var growth: nat := 0;
      var stagnant: nat := 0;
      ScrollInvInit(start, log, arrivals, langFilter, targetTweetCount);
      outcome := TargetReached;
      while |allTweets| < targetTweetCount
        invariant Valid() && stagnant < MaxNoNewTweetsScrolls
        invariant ScrollInv(start, log, arrivals, langFilter, targetTweetCount, steps, counts, stagnant, growth, allTweets, written)
        decreases targetTweetCount - |allTweets|, MaxNoNewTweetsScrolls - stagnant
      {
        var tweetsBeforeScroll := |allTweets|;
        ghost var rows, batches := allTweets, written;
        ScrollOnce(arrivals, steps, start, log, counts);
        var tweetsAfterScroll := |allTweets|;
        ScrollInvStep(start, log, arrivals, langFilter, targetTweetCount, steps, counts, stagnant, growth,
                      rows, batches, allTweets, written);
        counts := counts + [tweetsAfterScroll];
        steps := steps + 1;
        if tweetsBeforeScroll == tweetsAfterScroll {
          stagnant := stagnant + 1;
        } else {
          growth := growth + 1;
          stagnant := 0;
        }
        if stagnant >= MaxNoNewTweetsScrolls {
          outcome := Stagnated;
          break;
        }
      }
      ScrollInvEnd(start, log, arrivals, langFilter, targetTweetCount, steps, counts, stagnant, growth,
                   allTweets, written, outcome);
    }
  }
}
