/**
 * The web browser user (web_browser/states.py and web_browser/transitions.py): a daily limit on
 * visited websites, a depth limit on followed links, the filter that keeps only http(s) links,
 * and the counter bookkeeping of visiting a website, opening a link and leaving. The browser's
 * answers (page links, load errors, the current URL) are parameters; URL parsing is the
 * parameter `scheme`.
 */
module WebBrowser {
  import opened Wrappers
  import opened Engine

  /** The web browser part of the context; a link is its `href`. */
  datatype BrowserContext = BrowserContext(
    currentDay: int,
    websiteCount: int,
    websiteDepth: int,
    currentWebsite: Option<string>,
    availableLinks: seq<string>)

  /** Positions in both states: the website (or link) transition first, then idle (or leave). */
  const Website: nat := 0
  const Leave: nat := 1

  // ---------------------------------------------------------------- link filter

  predicate IsHttp(href: string, scheme: string -> string)
  {
    scheme(href) == "http" || scheme(href) == "https"
  }

  /** `_get_available_links`: the links whose scheme is http or https, in page order. */
  function HttpLinks(links: seq<string>, scheme: string -> string): (r: seq<string>)
    ensures |r| <= |links|
    ensures forall l :: l in r <==> l in links && IsHttp(l, scheme)
    decreases |links|
  {
    if |links| == 0 then []
    else (if IsHttp(links[0], scheme) then [links[0]] else []) + HttpLinks(links[1..], scheme)
  }

  /** Filtering page by page is filtering the whole page: the order of links is kept. */
  lemma {:induction false} HttpLinksConcat(a: seq<string>, b: seq<string>, scheme: string -> string)
    ensures HttpLinks(a + b, scheme) == HttpLinks(a, scheme) + HttpLinks(b, scheme)
    decreases |a|
  {
    if |a| == 0 {
      assert a + b == b;
    } else {
      assert (a + b)[1..] == a[1..] + b;
      HttpLinksConcat(a[1..], b, scheme);
    }
  }

  /** Filtered links are all http(s), so filtering again changes nothing. */
  lemma {:induction false} HttpLinksIdempotent(links: seq<string>, scheme: string -> string)
    ensures HttpLinks(HttpLinks(links, scheme), scheme) == HttpLinks(links, scheme)
    decreases |links|
  {
    if |links| > 0 {
      var head := if IsHttp(links[0], scheme) then [links[0]] else [];
      HttpLinksConcat(head, HttpLinks(links[1..], scheme), scheme);
      HttpLinksIdempotent(links[1..], scheme);
      if IsHttp(links[0], scheme) {
        assert head[1..] == [];
      }
    }
  }

  // ---------------------------------------------------------------- states

  /** The selection state: the weights of visiting a website and of idling, and the daily maximum. */
  datatype SelectionState = SelectionState(weights: seq<real>, maxWebsitesDay: int)

  /** The website state: the weights of opening a link and of leaving, and the maximum depth. */
  datatype WebsiteState = WebsiteState(weights: seq<real>, maxDepth: int)

  /** The configured defaults: visit 0.7, idle 0.3, five websites a day; link 0.7, leave 0.3, depth 2. */
  const DefaultVisitWebsite: real := 0.7
  const DefaultIdle: real := 0.3
  const DefaultMaxWebsitesDay: int := 5
  const DefaultVisitLink: real := 0.7
  const DefaultLeaveWebsite: real := 0.3
  const DefaultMaxDepth: int := 2

  /**
   * `ActivitySelectionState.__init__`: the website transition, then idle. The state is built
   * with `allow_uneven_probabilites=False`, so the engine refuses weights that are not a
   * distribution; the model takes that check to be an exact sum of 1.
   */
  function NewSelection(maxWebsitesDay: int, websiteWeight: real, idleWeight: real): (r: Result<SelectionState>)
    ensures r.Failure? <==> websiteWeight + idleWeight != 1.0
    ensures r.Success? ==>
              |r.value.weights| == 2 && r.value.weights[Website] == websiteWeight && r.value.weights[Leave] == idleWeight
              && Sum(r.value.weights) == 1.0 && r.value.maxWebsitesDay == maxWebsitesDay
  {
    if websiteWeight + idleWeight != 1.0 then Failure("probabilities must sum to 1")
    else
      assert Sum([websiteWeight, idleWeight]) == websiteWeight + Sum([idleWeight]);
      Success(SelectionState([websiteWeight, idleWeight], maxWebsitesDay))
  }

  /** `WebsiteState.__init__`: the link transition, then leave, with the same even-weights check. */
  function NewWebsiteState(linkWeight: real, leaveWeight: real, maxDepth: int): (r: Result<WebsiteState>)
    ensures r.Failure? <==> linkWeight + leaveWeight != 1.0
    ensures r.Success? ==>
              |r.value.weights| == 2 && r.value.weights[Website] == linkWeight && r.value.weights[Leave] == leaveWeight
              && Sum(r.value.weights) == 1.0 && r.value.maxDepth == maxDepth
  {
    if linkWeight + leaveWeight != 1.0 then Failure("probabilities must sum to 1")
    else
      assert Sum([linkWeight, leaveWeight]) == linkWeight + Sum([leaveWeight]);
      Success(WebsiteState([linkWeight, leaveWeight], maxDepth))
  }

  /** The default weights form distributions, so both states build with them. */
  lemma DefaultStatesBuild()
    ensures NewSelection(DefaultMaxWebsitesDay, DefaultVisitWebsite, DefaultIdle)
            == Success(SelectionState([0.7, 0.3], 5))
    ensures NewWebsiteState(DefaultVisitLink, DefaultLeaveWebsite, DefaultMaxDepth)
            == Success(WebsiteState([0.7, 0.3], 2))
  {
  }

  /**
   * `ActivitySelectionState.next`: a new day is stored and clears the visit count; once the
   * count has reached `max_websites_day` the idle transition is taken without sampling,
   * otherwise the sampled one.
   */
  function SelectionNext(ctx: BrowserContext, today: int, maxWebsitesDay: int, sampled: nat): (r: (BrowserContext, nat))
    requires sampled < 2
    ensures r.0.currentDay == today
    ensures r.0.websiteCount == if ctx.currentDay != today then 0 else ctx.websiteCount
    ensures r.0 == ctx.(currentDay := today, websiteCount := r.0.websiteCount)
    ensures r.1 == if r.0.websiteCount >= maxWebsitesDay then Leave else sampled
  {
    var c := if ctx.currentDay != today then ctx.(currentDay := today, websiteCount := 0) else ctx;
    if c.websiteCount >= maxWebsitesDay then (c, Leave) else (c, sampled)
  }

  /**
   * `WebsiteState.next`: without links to follow, or at the maximum depth, the user leaves;
   * otherwise the sampled transition is taken.
   */
  function WebsiteNext(ctx: BrowserContext, maxDepth: int, sampled: nat): (i: nat)
    requires sampled < 2
    ensures i == Leave <==> |ctx.availableLinks| == 0 || ctx.websiteDepth >= maxDepth || sampled == Leave
  {
    if |ctx.availableLinks| == 0 || ctx.websiteDepth >= maxDepth then Leave else sampled
  }

  // ---------------------------------------------------------------- transitions

  /**
   * How a transition function ended: normally, with a selenium error turned into a transition
   * error that names the fallback state, or with any other exception.
   */
  datatype Outcome = Done | DriverError(fallback: Option<string>) | Crash(reason: string)

  /** What the browser does when asked to load a page: fail, or show a page at a URL with links. */
  datatype PageLoad = LoadFailed | Loaded(url: string, links: seq<string>)

  /**
   * `VisitWebsite`: the count is raised, the drawn website becomes current and is loaded. A
   * selenium error takes the count back and reports the fallback state; an empty website list
   * raises while the count stays raised.
   */
  function VisitWebsite(ctx: BrowserContext, websites: seq<string>, sampled: nat, load: PageLoad,
                        scheme: string -> string, fallback: Option<string>): (r: (BrowserContext, Outcome))
    requires |websites| > 0 ==> sampled < |websites|
    ensures |websites| == 0 ==> r == (ctx.(websiteCount := ctx.websiteCount + 1), Crash("empty website list"))
    ensures |websites| > 0 ==> r.0.currentWebsite == Some(websites[sampled]) && r.0.websiteDepth == ctx.websiteDepth
    ensures |websites| > 0 && load.LoadFailed? ==>
              r.1 == DriverError(fallback) && r.0.websiteCount == ctx.websiteCount && r.0.availableLinks == ctx.availableLinks
    ensures |websites| > 0 && load.Loaded? ==>
              r.1 == Done && r.0.websiteCount == ctx.websiteCount + 1 && r.0.availableLinks == HttpLinks(load.links, scheme)
  {
    var counted := ctx.(websiteCount := ctx.websiteCount + 1);
    if |websites| == 0 then (counted, Crash("empty website list"))
    else
      var visiting := counted.(currentWebsite := Some(websites[sampled]));
      match load
      case LoadFailed => (visiting.(websiteCount := visiting.websiteCount - 1), DriverError(fallback))
      case Loaded(_, links) => (visiting.(availableLinks := HttpLinks(links, scheme)), Done)
  }

  /**
   * `OpenLink`: the depth is raised before anything else, so it stays raised when the link
   * cannot be loaded; on success the current website is the browser's URL and the links are
   * those of the new page.
   */
  function OpenLink(ctx: BrowserContext, sampled: nat, load: PageLoad, scheme: string -> string,
                    fallback: Option<string>): (r: (BrowserContext, Outcome))
    requires |ctx.availableLinks| > 0 ==> sampled < |ctx.availableLinks|
    ensures r.0.websiteDepth == ctx.websiteDepth + 1 && r.0.websiteCount == ctx.websiteCount
    ensures |ctx.availableLinks| == 0 ==> r.1.Crash?
    ensures |ctx.availableLinks| > 0 && load.LoadFailed? ==> r.1 == DriverError(fallback)
    ensures r.1 != Done ==> r.0 == ctx.(websiteDepth := ctx.websiteDepth + 1)
    ensures r.1 == Done <==> |ctx.availableLinks| > 0 && load.Loaded?
    ensures r.1 == Done ==>
              r.0.currentWebsite == Some(load.url) && r.0.availableLinks == HttpLinks(load.links, scheme)
  {
    var deeper := ctx.(websiteDepth := ctx.websiteDepth + 1);
    if |ctx.availableLinks| == 0 then (deeper, Crash("empty link list"))
    else
      match load
      case LoadFailed => (deeper, DriverError(fallback))
      case Loaded(url, links) => (deeper.(currentWebsite := Some(url), availableLinks := HttpLinks(links, scheme)), Done)
  }

  /** `leave_website`: back at depth 0, no current website and no links. */
  function LeaveWebsite(ctx: BrowserContext): (r: BrowserContext)
    ensures r.websiteDepth == 0 && r.currentWebsite.None? && r.availableLinks == []
    ensures r.websiteCount == ctx.websiteCount && r.currentDay == ctx.currentDay
  {
    ctx.(websiteDepth := 0, currentWebsite := None, availableLinks := [])
  }

  // ---------------------------------------------------------------- limits

  /** A visit that fails on the browser leaves the day's count where it was. */
  lemma FailedVisitNotCounted(ctx: BrowserContext, websites: seq<string>, sampled: nat, scheme: string -> string, fallback: Option<string>)
    requires 0 < |websites| && sampled < |websites|
    ensures VisitWebsite(ctx, websites, sampled, LoadFailed, scheme, fallback).0.websiteCount == ctx.websiteCount
  {
  }

  /**
   * The daily limit holds: if the count is within `max_websites_day`, a selection followed by
   * the visit it chose (if any) keeps it within.
   */
  lemma VisitsWithinDailyLimit(ctx: BrowserContext, today: int, maxWebsitesDay: int, sampled: nat,
                               websites: seq<string>, site: nat, load: PageLoad, scheme: string -> string, fallback: Option<string>)
    requires sampled < 2 && 0 < |websites| && site < |websites| && maxWebsitesDay >= 0
    requires ctx.currentDay == today ==> ctx.websiteCount <= maxWebsitesDay
    ensures var (c, i) := SelectionNext(ctx, today, maxWebsitesDay, sampled);
            c.websiteCount <= maxWebsitesDay
            && (i == Website ==> VisitWebsite(c, websites, site, load, scheme, fallback).0.websiteCount <= maxWebsitesDay)
  {
  }

  /**
   * The depth limit holds: if the depth is within `max_depth`, the transition the website state
   * chooses keeps it within, whether it opens a link or leaves.
   */
  lemma DepthWithinLimit(ctx: BrowserContext, maxDepth: int, sampled: nat, link: nat, load: PageLoad, scheme: string -> string, fallback: Option<string>)
    requires sampled < 2 && 0 <= ctx.websiteDepth <= maxDepth
    requires |ctx.availableLinks| > 0 ==> link < |ctx.availableLinks|
    ensures WebsiteNext(ctx, maxDepth, sampled) == Website ==> OpenLink(ctx, link, load, scheme, fallback).0.websiteDepth <= maxDepth
    ensures WebsiteNext(ctx, maxDepth, sampled) == Leave ==> LeaveWebsite(ctx).websiteDepth == 0
  {
  }
}
