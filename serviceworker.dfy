/**
 * The offline service worker: which caches survive activation, which
 * caching strategy its first `fetch` listener picks for a request, what
 * that strategy answers and stores given the cache contents and the
 * network's answer, and which requests its second `fetch` listener
 * refuses with a 403.
 */
module ServiceWorker {
  import opened Wrappers
  import opened Strings
  import opened Seqs

  /** The cache for course content and store answers. */
  const CacheName: string := "iapourtous-course-v1"

  /** The cache for the application shell and static assets. */
  const StaticCache: string := "iapourtous-static-v1"

  /** The paths `install` stores in the static cache. */
  const AppShell: seq<string> := ["/", "/index.html"]

  /** The line the second listener answers a blocked download with. */
  const BlockedText: string := "Téléchargement non autorisé. Consultez le contenu en ligne."

  /** A cache is stale when it is neither of the two current caches. */
  predicate IsStale(name: string) {
    name != CacheName && name != StaticCache
  }

  predicate IsCurrent(name: string) {
    name == CacheName || name == StaticCache
  }

  /** The caches `activate` deletes, from the names `caches.keys()` lists. */
  function StaleCaches(names: seq<string>): (r: seq<string>)
    ensures |r| <= |names|
  {
    Filter(names, IsStale)
  }

  /** `activate` deletes a listed cache exactly when it is not one of the two current caches. */
  lemma StaleCachesMembers(names: seq<string>)
    ensures forall n :: n in StaleCaches(names) <==> n in names && n != CacheName && n != StaticCache
  {
    FilterMembers(names, IsStale);
  }

  /** After activation exactly the current caches among those listed remain. */
  lemma ActivateKeepsCurrent(names: seq<string>)
    ensures (set n | n in names && n !in StaleCaches(names)) == (set n | n in names && IsCurrent(n))
    ensures multiset(StaleCaches(names)) + multiset(Filter(names, IsCurrent)) == multiset(names)
  {
    StaleCachesMembers(names);
    FilterSplits(names, IsStale, IsCurrent);
  }

  /** The request fields the listeners read (the URL already split into host and path). */
  datatype Request = Request(hostname: string, pathname: string, verb: string, mode: string, destination: string)

  /** The strategies of the first `fetch` listener. */
  datatype Strategy =
    | CourseCacheFirst
    | ApiNetworkFirst(storeResponse: bool)
    | NavigationNetworkFirst
    | StaticCacheFirst
    | DefaultNetworkFirst

  predicate IsCourseContent(r: Request) {
    StartsWith(r.pathname, "/offline/course/")
  }

  predicate IsApi(r: Request) {
    Contains(r.hostname, "supabase")
  }

  /** The pattern `\.(js|css|png|jpg|svg|woff2?)$` on the path. */
  predicate IsStaticAsset(path: string) {
    EndsWith(path, ".js") || EndsWith(path, ".css") || EndsWith(path, ".png") || EndsWith(path, ".jpg")
    || EndsWith(path, ".svg") || EndsWith(path, ".woff") || EndsWith(path, ".woff2")
  }

  /**
   * The first listener's if-chain. Each rule applies only when the earlier
   * ones did not; store answers are kept only for GET requests under "/rest/".
   */
  function Route(r: Request): (s: Strategy)
    ensures s == CourseCacheFirst <==> IsCourseContent(r)
    ensures s.ApiNetworkFirst? <==> !IsCourseContent(r) && IsApi(r)
    ensures s.ApiNetworkFirst? ==> (s.storeResponse <==> r.verb == "GET" && Contains(r.pathname, "/rest/"))
    ensures s == NavigationNetworkFirst <==> !IsCourseContent(r) && !IsApi(r) && r.mode == "navigate"
    ensures s == StaticCacheFirst <==>
      !IsCourseContent(r) && !IsApi(r) && r.mode != "navigate" && IsStaticAsset(r.pathname)
    ensures s == DefaultNetworkFirst <==>
      !IsCourseContent(r) && !IsApi(r) && r.mode != "navigate" && !IsStaticAsset(r.pathname)
  {
    if IsCourseContent(r) then CourseCacheFirst
    else if IsApi(r) then ApiNetworkFirst(r.verb == "GET" && Contains(r.pathname, "/rest/"))
    else if r.mode == "navigate" then NavigationNetworkFirst
    else if IsStaticAsset(r.pathname) then StaticCacheFirst
    else DefaultNetworkFirst
  }

  /** The course-content rule comes first: host, method and mode do not matter for those paths. */
  lemma CourseContentFirst(r: Request, host: string, verb: string, mode: string)
    requires IsCourseContent(r)
    ensures Route(r.(hostname := host, verb := verb, mode := mode)) == CourseCacheFirst
  {
  }

  /** A response; only the status and body the worker builds itself are of interest. */
  datatype Response = Response(status: int, body: string, contentType: Option<string>)

  /** What `fetch` gave: a response (of any status) or a rejection. */
  datatype Network = Reached(response: Response) | Unreachable

  /**
   * What the page receives (None: a network error, as when `respondWith`
   * gets a rejection or nothing) and the cache, if any, that receives a
   * copy of the network response.
   */
  datatype Outcome = Outcome(served: Option<Response>, storedIn: Option<string>)

  /**
   * Running the strategy of `r`. `cached` is what `caches.match(request)`
   * finds, `shell` what `caches.match('/index.html')` finds, `net` the
   * network's answer.
   */
  function Serve(r: Request, cached: Option<Response>, shell: Option<Response>, net: Network): (o: Outcome)
    ensures (Route(r) == CourseCacheFirst || Route(r) == StaticCacheFirst) && cached.Some? ==>
      o == Outcome(cached, None)
    ensures net.Reached? && !((Route(r) == CourseCacheFirst || Route(r) == StaticCacheFirst) && cached.Some?) ==>
      o.served == Some(net.response)
    ensures net.Unreachable? ==> o.storedIn == None
    ensures net.Unreachable? && Route(r) == NavigationNetworkFirst ==> o.served == shell
    ensures net.Unreachable? && Route(r) != NavigationNetworkFirst ==> o.served == cached
    ensures o.storedIn == Some(StaticCache) <==> Route(r) == StaticCacheFirst && cached.None? && net.Reached?
    ensures o.storedIn == Some(CacheName) <==> Route(r) == ApiNetworkFirst(true) && net.Reached?
  {
    match Route(r)
    case CourseCacheFirst =>
      if cached.Some? then Outcome(cached, None)
      else if net.Reached? then Outcome(Some(net.response), None)
      else Outcome(None, None)
    case ApiNetworkFirst(store) =>
      if net.Reached? then Outcome(Some(net.response), if store then Some(CacheName) else None)
      else Outcome(cached, None)
    case NavigationNetworkFirst =>
      if net.Reached? then Outcome(Some(net.response), None) else Outcome(shell, None)
    case StaticCacheFirst =>
      if cached.Some? then Outcome(cached, None)
      else if net.Reached? then Outcome(Some(net.response), Some(StaticCache))
      else Outcome(None, None)
    case DefaultNetworkFirst =>
      if net.Reached? then Outcome(Some(net.response), None) else Outcome(cached, None)
  }

  /** Only store answers under "/rest/" fetched with GET are written to the course cache. */
  lemma CourseCacheWrites(r: Request, cached: Option<Response>, shell: Option<Response>, net: Network)
    requires Serve(r, cached, shell, net).storedIn == Some(CacheName)
    ensures IsApi(r) && r.verb == "GET" && Contains(r.pathname, "/rest/") && !IsCourseContent(r)
  {
  }

  /** The document suffixes the second listener guards. */
  predicate IsCourseDocument(path: string) {
    EndsWith(path, ".pdf") || EndsWith(path, ".docx")
  }

  /**
   * The second listener's test: a document request for a .pdf or .docx path
   * under "/courses/" is classified as blocked, and the reply it builds for
   * it is a plain-text 403; every other request is left alone.
   */
  function Blocked(r: Request): (b: Option<Response>)
    ensures b.Some? <==> r.destination == "document" && IsCourseDocument(r.pathname) && Contains(r.pathname, "/courses/")
    ensures b.Some? ==> b.value == Response(403, BlockedText, Some("text/plain"))
  {
    if r.destination == "document" && IsCourseDocument(r.pathname) && Contains(r.pathname, "/courses/") then
      Some(Response(403, BlockedText, Some("text/plain")))
    else None
  }

  /** A text ending in `x` ends in the last two characters of `x`. */
  lemma LastTwo(s: string, x: string)
    requires |x| >= 2 && EndsWith(s, x)
    ensures s[|s| - 1] == x[|x| - 1] && s[|s| - 2] == x[|x| - 2]
  {
    assert s[|s| - 1] == s[|s| - |x|..][|x| - 1];
    assert s[|s| - 2] == s[|s| - |x|..][|x| - 2];
  }

  /** A text whose last two characters differ from those of `x` does not end in `x`. */
  lemma NotEndingIn(s: string, x: string)
    requires |x| >= 2 && |s| >= 2
    requires s[|s| - 1] != x[|x| - 1] || s[|s| - 2] != x[|x| - 2]
    ensures !EndsWith(s, x)
  {
    if EndsWith(s, x) {
      LastTwo(s, x);
    }
  }

  /** A blocked document path is never one the first listener treats as a static asset. */
  lemma BlockedIsNotStatic(r: Request)
    requires Blocked(r).Some?
    ensures !IsStaticAsset(r.pathname)
  {
    var p := r.pathname;
    if EndsWith(p, ".pdf") {
      LastTwo(p, ".pdf");
    } else {
      LastTwo(p, ".docx");
    }
    assert (p[|p| - 2] == 'd' && p[|p| - 1] == 'f') || (p[|p| - 2] == 'c' && p[|p| - 1] == 'x');
    NotEndingIn(p, ".js");
    NotEndingIn(p, ".css");
    NotEndingIn(p, ".png");
    NotEndingIn(p, ".jpg");
    NotEndingIn(p, ".svg");
    NotEndingIn(p, ".woff");
    NotEndingIn(p, ".woff2");
  }

  /**
   * The reply that stands when `fetch` listeners run in registration order:
   * the first one that calls `respondWith`, since a second call on the same
   * event throws. None: no listener responded and the browser fetches.
   */
  function FirstReply(replies: seq<Option<Outcome>>): (o: Option<Outcome>)
    ensures o.Some? ==> o in replies
    ensures replies != [] && replies[0].Some? ==> o == replies[0]
    decreases |replies|
  {
    if replies == [] then None
    else if replies[0].Some? then replies[0]
    else FirstReply(replies[1..])
  }

  /** The reply that stands is that of the first listener to respond; there is one iff some listener responds. */
  lemma {:induction false} FirstReplyIsFirst(replies: seq<Option<Outcome>>, i: int)
    requires 0 <= i < |replies| && replies[i].Some?
    requires forall j :: 0 <= j < i ==> replies[j].None?
    ensures FirstReply(replies) == replies[i]
    decreases |replies|
  {
    if i > 0 {
      assert forall j :: 0 <= j < i - 1 ==> replies[1..][j] == replies[j + 1];
      FirstReplyIsFirst(replies[1..], i - 1);
    }
  }

  /** The first listener calls `respondWith` on every branch of its if-chain, the last one unconditional. */
  function FirstListener(r: Request, cached: Option<Response>, shell: Option<Response>, net: Network): (o: Option<Outcome>)
    ensures o.Some? && o.value == Serve(r, cached, shell, net)
  {
    match Route(r)
    case CourseCacheFirst => Some(Serve(r, cached, shell, net))
    case ApiNetworkFirst(_) => Some(Serve(r, cached, shell, net))
    case NavigationNetworkFirst => Some(Serve(r, cached, shell, net))
    case StaticCacheFirst => Some(Serve(r, cached, shell, net))
    case DefaultNetworkFirst => Some(Serve(r, cached, shell, net))
  }

  /** The second listener calls `respondWith` with the 403 for a blocked request only, storing nothing. */
  function GuardListener(r: Request): (o: Option<Outcome>)
    ensures o.Some? <==> Blocked(r).Some?
    ensures o.Some? ==> o.value == Outcome(Blocked(r), None)
  {
    if Blocked(r).Some? then Some(Outcome(Blocked(r), None)) else None
  }

  /**
   * Both listeners as registered: the caching listener first, the guard
   * second. The first always responds, so the guard's 403 is never
   * delivered and a blocked document comes from the cache or the network.
   */
  function Dispatch(r: Request, cached: Option<Response>, shell: Option<Response>, net: Network): (o: Option<Outcome>)
    ensures o.Some? && o.value.served == Serve(r, cached, shell, net).served
    ensures Blocked(r).Some? && cached.None? && net.Reached? ==> o.value.served == Some(net.response)
  {
    FirstReply([FirstListener(r, cached, shell, net), GuardListener(r)])
  }

  /** A blocked course PDF opened as a page is still delivered from the network. */
  lemma BlockedPdfDelivered(pdf: Response)
    ensures Blocked(Request("iapourtous.app", "/courses/guide.pdf", "GET", "navigate", "document")).Some?
    ensures Dispatch(Request("iapourtous.app", "/courses/guide.pdf", "GET", "navigate", "document"),
                     None, None, Reached(pdf)).value.served == Some(pdf)
  {
    var path := "/courses/guide.pdf";
    assert Contains(path, "/courses/") by {
      assert StartsWith(path, "/courses/");
    }
    assert EndsWith(path, ".pdf") by {
      assert path[|path| - 4..] == ".pdf";
    }
  }

  /** The intended registration: the download guard before the caching listener. */
  function GuardedDispatch(r: Request, cached: Option<Response>, shell: Option<Response>, net: Network): (o: Option<Outcome>)
    ensures o.Some?
    ensures Blocked(r).Some? ==> o.value == Outcome(Some(Response(403, BlockedText, Some("text/plain"))), None)
    ensures Blocked(r).None? ==> o.value == Serve(r, cached, shell, net)
  {
    var listeners := [GuardListener(r), FirstListener(r, cached, shell, net)];
    FirstReplyIsFirst(listeners, if listeners[0].Some? then 0 else 1);
    FirstReply(listeners)
  }

  /** Under the guarded registration no blocked document reaches the page, whatever the cache and network hold. */
  lemma GuardedBlocksDownloads(r: Request, cached: Option<Response>, shell: Option<Response>, net: Network)
    requires Blocked(r).Some?
    ensures GuardedDispatch(r, cached, shell, net).value.served.value.status == 403
    ensures net.Reached? && net.response.status != 403 ==> GuardedDispatch(r, cached, shell, net).value.served != Some(net.response)
  {
  }
}
