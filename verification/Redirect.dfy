/** Parsed URLs as the client compares them. */
module Urls {
  import opened Wrappers

  /** Scheme, host name and explicit port (empty when there is none). */
  datatype Url = Url(scheme: string, host: string, port: string)

  function LowerChar(c: char): char {
    if 'A' <= c <= 'Z' then (c as int - 'A' as int + 'a' as int) as char else c
  }

  function Lower(s: string): (t: string)
    ensures |t| == |s|
  {
    seq(|s|, i requires 0 <= i < |s| => LowerChar(s[i]))
  }

  function WithoutDot(host: string): string {
    if host != "" && host[|host| - 1] == '.' then host[..|host| - 1] else host
  }

  function EffectivePort(u: Url): string {
    if u.port != "" then u.port else if u.scheme == "https" then "443" else "80"
  }

  /** What two URLs must share for credentials to pass from one to the other. */
  function Origin(u: Url): (string, string, string) {
    (u.scheme, Lower(WithoutDot(u.host)), EffectivePort(u))
  }

  predicate EndsWith(s: string, end: string) {
    |end| <= |s| && s[|s| - |end|..] == end
  }

  /**
   The targets the client takes for trustworthy: https, and http to the local machine. `loopback`
   tells whether a host name is a loopback address.
   */
  predicate IsTrustworthy(u: Url, loopback: string -> bool) {
    var host := Lower(WithoutDot(u.host));
    || Lower(u.scheme) == "https"
    || (Lower(u.scheme) == "http" && (host == "localhost" || EndsWith(host, ".localhost") || loopback(host)))
  }

  predicate CanForwardSensitiveHeaders(initial: Option<Url>, target: Option<Url>) {
    && initial.Some? && target.Some?
    && Lower(WithoutDot(target.value.host)) == Lower(WithoutDot(initial.value.host))
    && initial.value.scheme == target.value.scheme
    && EffectivePort(initial.value) == EffectivePort(target.value)
  }

  lemma ForwardIsSameOrigin(a: Url, b: Url)
    ensures CanForwardSensitiveHeaders(Some(a), Some(b)) <==> Origin(a) == Origin(b)
  {
  }

  /** Case and a final dot of the host do not matter, nor does a default port that is spelled out. */
  lemma OriginsTold(port: string)
    ensures Origin(Url("https", "Ab.C.", "")) == Origin(Url("https", "aB.c", "443")) == ("https", "ab.c", "443")
    ensures Origin(Url("http", "ab.c", "")) == Origin(Url("http", "AB.C", "80")) == ("http", "ab.c", "80")
    ensures port != "" ==> Origin(Url("https", "ab.c", port)) == ("https", "ab.c", port)
    ensures Lower("AMZ-amz@[09") == "amz-amz@[09"
  {
    assert "Ab.C."[..4] == "Ab.C";
    LowerIs("Ab.C", "ab.c"); LowerIs("aB.c", "ab.c"); LowerIs("ab.c", "ab.c"); LowerIs("AB.C", "ab.c");
    LowerIs("AMZ-amz@[09", "amz-amz@[09");
    hide Lower;
  }

  lemma LowerIs(s: string, t: string)
    requires |s| == |t| && forall i :: 0 <= i < |s| ==> LowerChar(s[i]) == t[i]
    ensures Lower(s) == t
  {
  }

  /** https is trusted anywhere, and nothing but https and http. */
  lemma TrustByScheme(host: string, port: string, loopback: string -> bool)
    ensures IsTrustworthy(Url("HTTPS", host, port), loopback) && !IsTrustworthy(Url("ftp", host, port), loopback)
  {
    LowerIs("HTTPS", "https"); LowerIs("ftp", "ftp");
    hide Lower, EndsWith, WithoutDot;
  }

  /** http is trusted at localhost and below it. */
  lemma TrustLocalNames(port: string, loopback: string -> bool)
    ensures IsTrustworthy(Url("Http", "LocalHost.", port), loopback)
    ensures IsTrustworthy(Url("Http", "a.localhost", port), loopback)
  {
    LowerIs("Http", "http"); LowerIs("LocalHost", "localhost"); LowerIs("a.localhost", "a.localhost");
    assert WithoutDot("LocalHost.") == "LocalHost" by { assert "LocalHost."[..9] == "LocalHost"; }
    assert WithoutDot("a.localhost") == "a.localhost";
    assert EndsWith("a.localhost", ".localhost") by { assert "a.localhost"[1..] == ".localhost"; }
    hide Lower, WithoutDot, EndsWith;
  }

  /** Elsewhere http is trusted only at a loopback address. */
  lemma TrustOtherNames(port: string, loopback: string -> bool)
    ensures IsTrustworthy(Url("http", "blocalhost", port), loopback) == loopback("blocalhost")
  {
    LowerIs("http", "http"); LowerIs("blocalhost", "blocalhost");
    assert WithoutDot("blocalhost") == "blocalhost";
    assert !EndsWith("blocalhost", ".localhost") by { assert "blocalhost"[0..][0] != ".localhost"[0]; }
    hide Lower, WithoutDot, EndsWith;
    assert "http" != "https" && "blocalhost" != "localhost" by { assert |"http"| == 4 && |"blocalhost"| == 10; }
  }
}

/** The Sec-Fetch-Site header over a chain of redirects. */
module FetchMetadata {
  import opened Wrappers
  import opened Urls

  /** "", "none", "same-origin", "same-site" and "cross-site". */
  datatype Site = Unset | NoSite | SameOrigin | SameSite | CrossSite

  /** A Referer or Origin value: blank, or text that may parse as a URL. */
  datatype Source = Blank | Names(url: Option<Url>)

  datatype Mode = Identity | Navigation | Fetch | Json | Script | Off

  /** The registrable domain of a name, or the address itself; the public suffix list is a parameter. */
  type Registry = string -> string

  function RegistrableDomain(host: string, registry: Registry): string {
    registry(Lower(WithoutDot(host)))
  }

  function SiteOf(source: Source, target: Option<Url>, navigation: bool, registry: Registry): Site {
    match source
    case Blank => if navigation then NoSite else Unset
    case Names(left) =>
      if left == None || target == None || left.value.host == "" || target.value.host == "" then CrossSite
      else
        var a, b := left.value, target.value;
        if Lower(a.scheme) == Lower(b.scheme) && Lower(a.host) == Lower(b.host) && EffectivePort(a) == EffectivePort(b)
        then SameOrigin
        else if Lower(a.scheme) == Lower(b.scheme)
                && RegistrableDomain(a.host, registry) == RegistrableDomain(b.host, registry) then SameSite
        else CrossSite
  }

  /** Without a source there is no relation; with an unusable source or target it is the worst. */
  lemma SitesUntold(target: Option<Url>, navigation: bool, registry: Registry)
    ensures SiteOf(Blank, target, true, registry) == NoSite && SiteOf(Blank, target, false, registry) == Unset
    ensures SiteOf(Names(None), target, navigation, registry) == CrossSite
    ensures SiteOf(Names(target), None, navigation, registry) == CrossSite
    ensures target.Some? ==>
      SiteOf(Names(target), target, navigation, registry) == if target.value.host == "" then CrossSite else SameOrigin
  {
  }

  /**
   Same-origin by scheme, host and port; same-site by scheme and registrable domain, whatever the
   port; cross-site otherwise. Letter case does not matter; a final dot only for the domain.
   */
  lemma SitesTold(navigation: bool, registry: Registry)
    requires registry("x") == "d" && registry("y") == "d" && registry("z") == "z"
    ensures var source := Names(Some(Url("a", "x", "1")));
      && SiteOf(source, Some(Url("A", "X", "1")), navigation, registry) == SameOrigin
      && SiteOf(source, Some(Url("a", "x", "2")), navigation, registry) == SameSite
      && SiteOf(source, Some(Url("A", "Y.", "1")), navigation, registry) == SameSite
      && SiteOf(source, Some(Url("b", "x", "1")), navigation, registry) == CrossSite
      && SiteOf(source, Some(Url("a", "z", "1")), navigation, registry) == CrossSite
  {
    LowerIs("a", "a"); LowerIs("A", "a"); LowerIs("b", "b");
    LowerIs("x", "x"); LowerIs("X", "x"); LowerIs("y", "y"); LowerIs("Y", "y"); LowerIs("Y.", "y."); LowerIs("z", "z");
    hide Lower;
    assert WithoutDot("Y.") == "Y" by { assert "Y."[..1] == "Y"; }
    assert "y."[0] != "x"[0];
  }

  predicate HasContext(mode: Mode) {
    mode.Navigation? || mode.Fetch? || mode.Json? || mode.Script?
  }

  /** How a redirect changes the site remembered for the chain. */
  function NextSite(site: Site, next: Site): Site {
    if site != NoSite && site != CrossSite && (next == CrossSite || site != SameSite) then next else site
  }

  predicate Placed(site: Site) {
    site.SameOrigin? || site.SameSite? || site.CrossSite?
  }

  /** The worse of two placed sites: same-origin, then same-site, then cross-site. */
  function Worse(a: Site, b: Site): Site {
    if a == CrossSite || b == CrossSite then CrossSite
    else if a == SameSite || b == SameSite then SameSite
    else SameOrigin
  }

  /** The worst relation of the source to the URLs visited so far. */
  function WorstSite(source: Source, urls: seq<Option<Url>>, navigation: bool, registry: Registry): Site
    requires urls != []
  {
    var last := SiteOf(source, urls[|urls| - 1], navigation, registry);
    if |urls| == 1 then last
    else
      var before := WorstSite(source, urls[..|urls| - 1], navigation, registry);
      if source == Blank then before else Worse(before, last)
  }

  /** Remembering one site per chain, as the client does, gives the worst one. */
  lemma {:induction false} ChainSite(source: Source, urls: seq<Option<Url>>, navigation: bool, registry: Registry)
    requires |urls| > 1
    ensures WorstSite(source, urls, navigation, registry) ==
      NextSite(WorstSite(source, urls[..|urls| - 1], navigation, registry),
               SiteOf(source, urls[|urls| - 1], navigation, registry))
  {
    SiteShape(source, urls[..|urls| - 1], navigation, registry);
  }

  lemma {:induction false} SiteShape(source: Source, urls: seq<Option<Url>>, navigation: bool, registry: Registry)
    requires urls != []
    ensures var site := WorstSite(source, urls, navigation, registry);
      if source == Blank then site == (if navigation then NoSite else Unset) else Placed(site)
  {
    if |urls| > 1 {
      SiteShape(source, urls[..|urls| - 1], navigation, registry);
    }
  }

  lemma NamedIsPlaced(source: Source, target: Option<Url>, navigation: bool, registry: Registry)
    requires source != Blank
    ensures Placed(SiteOf(source, target, navigation, registry))
  {
  }

  /** No visited URL stands worse to the source than the worst site. */
  lemma {:induction false} WorstBounds(source: Source, urls: seq<Option<Url>>, navigation: bool, registry: Registry, i: nat)
    requires source != Blank && i < |urls|
    ensures Worse(WorstSite(source, urls, navigation, registry), SiteOf(source, urls[i], navigation, registry))
         == WorstSite(source, urls, navigation, registry)
  {
    hide SiteOf;
    var last := |urls| - 1;
    NamedIsPlaced(source, urls[last], navigation, registry);
    if i < last {
      WorstBounds(source, urls[..last], navigation, registry, i);
    }
  }

  /** Some visited URL stands to the source as the worst site says. */
  lemma {:induction false} WorstAttained(source: Source, urls: seq<Option<Url>>, navigation: bool, registry: Registry)
    returns (i: nat)
    requires source != Blank && urls != []
    ensures i < |urls| && SiteOf(source, urls[i], navigation, registry) == WorstSite(source, urls, navigation, registry)
  {
    hide SiteOf;
    i := |urls| - 1;
    NamedIsPlaced(source, urls[i], navigation, registry);
    if SiteOf(source, urls[i], navigation, registry) != WorstSite(source, urls, navigation, registry) {
      SiteShape(source, urls[..i], navigation, registry);
      i := WorstAttained(source, urls[..i], navigation, registry);
    }
  }
}

/** The redirect loop of DoStream. */
module Redirect {
  import opened Wrappers
  import opened Urls
  import opened FetchMetadata

  type Bytes = seq<bv8>

  /** Nothing, bytes that can be sent again, or a reader that is read once. */
  datatype Upload = NoUpload | Buffered(content: Bytes) | Reader(content: Bytes, closable: bool)

  /** The caller's body, or the one GetBody gave for a redirect. */
  datatype BodyId = CallerBody | Replayed(redirect: nat)

  datatype Owner = DoStreamOwns | TransportOwns | ClosedHere

  /** A header value of the caller, or one the client generates. */
  datatype SiteHeader = Explicit(value: string) | Generated(site: Site)

  datatype Headers = Headers(
    authorization: Option<string>, cookie: Option<string>, contentType: Option<string>,
    origin: Source, referer: Source, fetchSite: Option<SiteHeader>)

  datatype Config = Config(
    verb: string, target: Option<Url>, upload: Upload, contentLength: Option<int>,
    headers: Headers, cookies: map<string, string>, allowRedirects: bool, maxRedirects: int,
    browserHeaders: bool, mode: Mode, registry: Registry, loopback: string -> bool,
    setupFails: bool)   // options, client state or body encoding were rejected

  datatype Answer =
    | Failure                                                          // transport error or cancelled context
    | Response(status: nat, hasLocation: bool, setCookies: set<string>)

  /** Everything the outside decides for one round of the loop. */
  datatype Hop = Hop(
    requestOk: bool,                  // the request can be built
    answer: Answer,
    resolved: Option<Option<Url>>,    // the redirect target: unresolvable, unparsable, or a URL
    reopenOk: bool)                   // GetBody succeeds

  type Outside = nat -> Hop

  datatype Sent = Sent(
    verb: string, url: Url, body: Option<Bytes>, contentLength: int,
    authorization: Option<string>, cookie: Option<string>, cookies: map<string, string>,
    contentType: Option<string>, referer: Source, fetchSite: Option<SiteHeader>)

  datatype Result = Failed | Returned(hop: nat)

  // ---------- pieces of the loop ----------

  /** clientHintsAllowed; a target that does not parse gets no hints. */
  predicate HintsAllowed(cfg: Config, target: Option<Url>) {
    target.Some? && IsTrustworthy(target.value, cfg.loopback)
  }

  predicate IsRedirectStatus(status: nat) {
    status == 301 || status == 302 || status == 303 || status == 307 || status == 308
  }

  predicate DropsBody(status: nat) {
    status == 301 || status == 302 || status == 303
  }

  function RedirectMethod(verb: string, status: nat): (string, bool) {
    if DropsBody(status) then (if verb != "GET" && verb != "HEAD" then "GET" else verb, false)
    else (verb, true)
  }

  function BodyBytes(upload: Upload, body: Option<BodyId>): Option<Bytes> {
    if body == None then None
    else match upload
      case NoUpload => None
      case Buffered(content) => if content == [] then None else Some(content)
      case Reader(content, _) => Some(content)
  }

  function RequestSource(headers: Headers): Source {
    if headers.origin != Blank then headers.origin else headers.referer
  }

  function SourceFor(headers: Headers, mode: Mode): Source {
    if mode.Fetch? || mode.Json? then RequestSource(headers) else headers.referer
  }

  /** The part of applyBrowserHeaders that fills in Sec-Fetch-Site when it is missing. */
  function ApplyBrowserHeaders(cfg: Config, headers: Headers, target: Option<Url>): Headers {
    if !HasContext(cfg.mode) || headers.fetchSite.Some? || !HintsAllowed(cfg, target) then headers
    else
      var site := SiteOf(SourceFor(headers, cfg.mode), target, cfg.mode.Navigation?, cfg.registry);
      if site == Unset then headers else headers.(fetchSite := Some(Generated(site)))
  }

  function SetReferer(headers: Headers, previous: Option<Url>, next: Option<Url>): Headers {
    if previous == None || next == None || (previous.value.scheme == "https" && next.value.scheme == "http")
    then headers.(referer := Blank)
    else headers.(referer := Names(previous))
  }

  /** browserHeaderState.redirect: the remembered site decides, whatever Referer now says. */
  function RedirectBrowser(cfg: Config, headers: Headers, explicitSite: bool, site: Site, target: Option<Url>): Headers {
    var cleared := if explicitSite then headers else headers.(fetchSite := None);
    var applied := ApplyBrowserHeaders(cfg, cleared, target);
    if explicitSite then applied
    else applied.(fetchSite := if site != Unset && HintsAllowed(cfg, target) then Some(Generated(site)) else None)
  }

  predicate BrowserOn(cfg: Config) {
    cfg.browserHeaders && !cfg.mode.Off?
  }

  /** The values the loop carries. */
  datatype Loop = Loop(
    url: Option<Url>, verb: string, body: Option<BodyId>, replay: bool, length: int,
    headers: Headers, cookies: map<string, string>, site: Site, redirects: nat,
    pending: Option<BodyId>, ledger: map<BodyId, Owner>)

  /** Source and site are fixed before the first request. */
  function Begin(cfg: Config): Loop {
    var site := if HasContext(cfg.mode)
                then SiteOf(SourceFor(cfg.headers, cfg.mode), cfg.target, cfg.mode.Navigation?, cfg.registry) else Unset;
    var headers := if cfg.browserHeaders then ApplyBrowserHeaders(cfg, cfg.headers, cfg.target) else cfg.headers;
    var pending := if cfg.upload.Reader? && cfg.upload.closable then Some(CallerBody) else None;
    Loop(cfg.target, cfg.verb, if cfg.upload.NoUpload? then None else Some(CallerBody), false, 0,
         headers, cfg.cookies, site, 0, pending, if pending.Some? then map[CallerBody := DoStreamOwns] else map[])
  }

  /** Whether the request of this round can be replayed. */
  predicate HasGetBody(cfg: Config, l: Loop) {
    if l.redirects == 0 then cfg.upload.Buffered? else l.body.Some? && l.replay
  }

  /** The length the request announces before an explicit ContentLength option. */
  function InferredLength(cfg: Config): int {
    if cfg.upload.Buffered? then |cfg.upload.content| else 0
  }

  predicate LengthRejected(cfg: Config, l: Loop) {
    && l.redirects == 0 && cfg.contentLength.Some? && cfg.contentLength.value > 0
    && (BodyBytes(cfg.upload, l.body) == None || HasGetBody(cfg, l))
    && InferredLength(cfg) != cfg.contentLength.value
  }

  function RequestLength(cfg: Config, l: Loop): int {
    if l.redirects == 0 then (if cfg.contentLength.Some? then cfg.contentLength.value else InferredLength(cfg))
    else if l.body.Some? then l.length else 0
  }

  function RequestOf(cfg: Config, l: Loop): Sent
    requires l.url.Some?
  {
    Sent(l.verb, l.url.value, BodyBytes(cfg.upload, l.body), RequestLength(cfg, l),
         l.headers.authorization, l.headers.cookie, l.cookies, l.headers.contentType, l.headers.referer, l.headers.fetchSite)
  }

  /** Handing the request over passes its body to the transport. */
  function HandOver(ledger: map<BodyId, Owner>, pending: Option<BodyId>): map<BodyId, Owner> {
    if pending.Some? then ledger[pending.value := TransportOwns] else ledger
  }

  predicate Sends(cfg: Config, l: Loop, hop: Hop) {
    l.url.Some? && hop.requestOk && !LengthRejected(cfg, l)
  }

  /** The response is a redirect the loop goes after. */
  predicate Follows(cfg: Config, l: Loop, hop: Hop) {
    && hop.answer.Response? && cfg.allowRedirects && IsRedirectStatus(hop.answer.status) && hop.answer.hasLocation
    && l.redirects < cfg.maxRedirects
    && !(RedirectMethod(l.verb, hop.answer.status).1 && BodyBytes(cfg.upload, l.body).Some? && !HasGetBody(cfg, l))
  }

  /** Nothing fails between the response and the next round. */
  predicate Continues(cfg: Config, l: Loop, hop: Hop) {
    && Sends(cfg, l, hop) && Follows(cfg, l, hop) && hop.resolved.Some?
    && (RedirectMethod(l.verb, hop.answer.status).1 && HasGetBody(cfg, l) ==> hop.reopenOk)
  }

  /** The headers for the next round. */
  function NextHeaders(cfg: Config, headers: Headers, preserve: bool, current: Option<Url>, target: Option<Url>,
                       site: Site): Headers
  {
    var kept := if preserve then headers else headers.(contentType := None);
    var safe := if CanForwardSensitiveHeaders(cfg.target, target) then kept else kept.(authorization := None, cookie := None);
    var referred := SetReferer(safe, current, target);
    if BrowserOn(cfg) then RedirectBrowser(cfg, referred, cfg.headers.fetchSite.Some?, site, target) else referred
  }

  /** The site remembered for the next round. */
  function SiteAfter(cfg: Config, site: Site, target: Option<Url>): Site {
    if BrowserOn(cfg) && HasContext(cfg.mode)
    then NextSite(site, SiteOf(SourceFor(cfg.headers, cfg.mode), target, cfg.mode.Navigation?, cfg.registry))
    else site
  }

  /** The loop's values for the next round. */
  function Next(cfg: Config, l: Loop, hop: Hop): Loop
    requires Continues(cfg, l, hop)
  {
    var (verb, preserve) := RedirectMethod(l.verb, hop.answer.status);
    var target := hop.resolved.value;
    var reopened := preserve && HasGetBody(cfg, l);
    var body := if reopened then Some(Replayed(l.redirects)) else None;
    var site := SiteAfter(cfg, l.site, target);
    var handed := HandOver(l.ledger, l.pending);
    Loop(target, verb, body,
         preserve && (if l.redirects == 0 then HasGetBody(cfg, l) else l.replay),
         if !preserve then 0 else if l.redirects == 0 then RequestLength(cfg, l) else l.length,
         NextHeaders(cfg, l.headers, preserve, l.url, target, site),
         if CanForwardSensitiveHeaders(cfg.target, target) then l.cookies - hop.answer.setCookies else map[],
         site, l.redirects + 1, body,
         if reopened then handed[Replayed(l.redirects) := DoStreamOwns] else handed)
  }

  /** The loop's values in round i, if the run gets that far. */
  function Round(cfg: Config, outside: Outside, i: nat): (r: Option<Loop>)
    ensures r.Some? ==> r.value.redirects == i
  {
    if i == 0 then Some(Begin(cfg))
    else match Round(cfg, outside, i - 1)
      case None => None
      case Some(l) => if Continues(cfg, l, outside(i - 1)) then Some(Next(cfg, l, outside(i - 1))) else None
  }

  predicate Refused(cfg: Config) {
    cfg.setupFails || (cfg.contentLength.Some? && cfg.contentLength.value < -1)
  }

  /** The deferred close of whatever body DoStream still owns. */
  function CloseRemaining(ledger: map<BodyId, Owner>, pending: Option<BodyId>): map<BodyId, Owner> {
    if pending.Some? then ledger[pending.value := ClosedHere] else ledger
  }

  /** The requests sent so far are those of the rounds. */
  ghost predicate Traces(cfg: Config, outside: Outside, sent: seq<Sent>) {
    forall i: nat :: i < |sent| ==>
      && Round(cfg, outside, i).Some? && Sends(cfg, Round(cfg, outside, i).value, outside(i))
      && sent[i] == RequestOf(cfg, Round(cfg, outside, i).value)
  }

  /** The redirects that may be followed. */
  function Allowed(cfg: Config): nat {
    if cfg.maxRedirects > 0 then cfg.maxRedirects else 0
  }

  /** The last of n requests was answered by a response that is not a redirect to follow. */
  ghost predicate EndsWithResponse(cfg: Config, outside: Outside, n: nat) {
    && n > 0 && outside(n - 1).answer.Response?
    && Round(cfg, outside, n - 1).Some? && !Follows(cfg, Round(cfg, outside, n - 1).value, outside(n - 1))
  }

  /** Who has each body after n requests: a body that was opened and not sent is closed. */
  ghost predicate LedgerClosed(cfg: Config, outside: Outside, n: nat, ledger: map<BodyId, Owner>) {
    if Round(cfg, outside, n).Some?
    then ledger == CloseRemaining(Round(cfg, outside, n).value.ledger, Round(cfg, outside, n).value.pending)
    else n > 0 && Round(cfg, outside, n - 1).Some?
         && ledger == HandOver(Round(cfg, outside, n - 1).value.ledger, Round(cfg, outside, n - 1).value.pending)
  }

  /**
   A complete run: the requests sent are those of the rounds, one for each round that could send;
   there are at most as many as redirects are allowed, plus one; every body is closed or with the
   transport (BodyFates); and the call returns the last response exactly if that is not a redirect to follow, and fails
   otherwise.
   */
  ghost predicate CompleteRun(cfg: Config, outside: Outside, result: Result, sent: seq<Sent>, ledger: map<BodyId, Owner>) {
    && Traces(cfg, outside, sent)
    && (if Refused(cfg) then sent == []
        else Round(cfg, outside, |sent|).Some? ==> !Sends(cfg, Round(cfg, outside, |sent|).value, outside(|sent|)))
    && |sent| <= Allowed(cfg) + 1
    && LedgerClosed(cfg, outside, |sent|, ledger)
    && result == if EndsWithResponse(cfg, outside, |sent|) then Returned(|sent| - 1) else Failed
  }

  /** The request of round l is not sent. */
  lemma EndsUnsent(cfg: Config, outside: Outside, sent: seq<Sent>, l: Loop)
    requires Traces(cfg, outside, sent) && |sent| <= Allowed(cfg) && Round(cfg, outside, |sent|) == Some(l)
    requires if Refused(cfg) then sent == [] else !Sends(cfg, l, outside(|sent|))
    ensures CompleteRun(cfg, outside, Failed, sent, CloseRemaining(l.ledger, l.pending))
  {
    NoResponse(cfg, outside, |sent|);
    LedgerOfUnsent(cfg, outside, |sent|, l);
    hide Round, Sends, Traces, LedgerClosed, EndsWithResponse, CloseRemaining, Refused, Allowed;
  }

  lemma NoResponse(cfg: Config, outside: Outside, n: nat)
    requires Round(cfg, outside, n).Some?
    ensures !EndsWithResponse(cfg, outside, n)
  {
    hide Round, Follows;
    if n > 0 {
      RoundFollowed(cfg, outside, n - 1);
    }
  }

  lemma LedgerOfUnsent(cfg: Config, outside: Outside, n: nat, l: Loop)
    requires Round(cfg, outside, n) == Some(l)
    ensures LedgerClosed(cfg, outside, n, CloseRemaining(l.ledger, l.pending))
  {
    hide Round, CloseRemaining;
  }

  lemma RoundStops(cfg: Config, outside: Outside, i: nat)
    requires Round(cfg, outside, i).Some? && !Continues(cfg, Round(cfg, outside, i).value, outside(i))
    ensures Round(cfg, outside, i + 1) == None
  {
    hide Continues, Next;
  }

  /** A further round means that the response was a redirect to follow. */
  lemma RoundFollowed(cfg: Config, outside: Outside, i: nat)
    requires Round(cfg, outside, i + 1).Some?
    ensures Round(cfg, outside, i).Some? && Follows(cfg, Round(cfg, outside, i).value, outside(i))
  {
    hide Next, Follows, Sends;
  }

  /** The request of round l, the last, was sent. */
  lemma EndsSent(cfg: Config, outside: Outside, sent: seq<Sent>, ledger: map<BodyId, Owner>, l: Loop)
    requires Traces(cfg, outside, sent) && 0 < |sent| <= Allowed(cfg) + 1 && !Refused(cfg)
    requires Round(cfg, outside, |sent| - 1) == Some(l) && !Continues(cfg, l, outside(|sent| - 1))
    requires ledger == HandOver(l.ledger, l.pending)
    ensures var answered := outside(|sent| - 1).answer.Response? && !Follows(cfg, l, outside(|sent| - 1));
      CompleteRun(cfg, outside, if answered then Returned(|sent| - 1) else Failed, sent, ledger)
  {
    hide CompleteRun, EndsWithResponse, LedgerClosed, Sends, Follows, Continues, Round, Traces, HandOver, Refused, Allowed;
    RoundStops(cfg, outside, |sent| - 1);
    LedgerOfLast(cfg, outside, |sent|, ledger, l);
    LastAnswer(cfg, outside, |sent|, l);
    Completes(cfg, outside, sent, ledger);
  }

  lemma Completes(cfg: Config, outside: Outside, sent: seq<Sent>, ledger: map<BodyId, Owner>)
    requires Traces(cfg, outside, sent) && |sent| <= Allowed(cfg) + 1 && !Refused(cfg)
    requires Round(cfg, outside, |sent|) == None && LedgerClosed(cfg, outside, |sent|, ledger)
    ensures var result := if EndsWithResponse(cfg, outside, |sent|) then Returned(|sent| - 1) else Failed;
      CompleteRun(cfg, outside, result, sent, ledger)
  {
    hide EndsWithResponse, LedgerClosed, Sends, Round, Traces, Refused, Allowed;
  }

  lemma LastAnswer(cfg: Config, outside: Outside, n: nat, l: Loop)
    requires n > 0 && Round(cfg, outside, n - 1) == Some(l)
    ensures EndsWithResponse(cfg, outside, n) <==> outside(n - 1).answer.Response? && !Follows(cfg, l, outside(n - 1))
  {
    hide Round, Follows;
  }

  lemma LedgerOfLast(cfg: Config, outside: Outside, n: nat, ledger: map<BodyId, Owner>, l: Loop)
    requires n > 0 && Round(cfg, outside, n) == None && Round(cfg, outside, n - 1) == Some(l)
    requires ledger == HandOver(l.ledger, l.pending)
    ensures LedgerClosed(cfg, outside, n, ledger)
  {
    hide Round, HandOver;
  }

  /** Builds the request of a round; there is none when its length contradicts the caller's. */
  method BuildRequest(cfg: Config, ghost l: Loop, redirects: nat, url: Url, verb: string, currentBody: Option<BodyId>,
                      replayBody: bool, contentLength: int, headers: Headers, cookies: map<string, string>)
    returns (request: Option<Sent>, getBody: bool)
    requires l.redirects == redirects && l.url == Some(url) && l.verb == verb && l.body == currentBody
    requires l.replay == replayBody && l.length == contentLength && l.headers == headers && l.cookies == cookies
    ensures request == if LengthRejected(cfg, l) then None else Some(RequestOf(cfg, l))
    ensures getBody == HasGetBody(cfg, l)
  {
    var body := BodyBytes(cfg.upload, currentBody);
    getBody := if redirects == 0 then cfg.upload.Buffered? else currentBody.Some? && replayBody;
    var length := InferredLength(cfg);
    if redirects == 0 {
      if cfg.contentLength.Some? {
        if cfg.contentLength.value > 0 && (body == None || getBody) && length != cfg.contentLength.value {
          return None, getBody;
        }
        length := cfg.contentLength.value;
      }
    } else {
      length := if currentBody.Some? then contentLength else 0;
    }
    request := Some(Sent(verb, url, body, length, headers.authorization, headers.cookie, cookies,
                         headers.contentType, headers.referer, headers.fetchSite));
  }

  /** Rewrites headers, explicit cookies and the remembered site for a redirect. */
  method Rewrite(cfg: Config, preserveBody: bool, currentURL: Option<Url>, nextURL: Option<Url>,
                 headers0: Headers, cookies0: map<string, string>, site0: Site)
    returns (headers: Headers, cookies: map<string, string>, site: Site)
    ensures site == SiteAfter(cfg, site0, nextURL)
    ensures headers == NextHeaders(cfg, headers0, preserveBody, currentURL, nextURL, site)
    ensures cookies == if CanForwardSensitiveHeaders(cfg.target, nextURL) then cookies0 else map[]
  {
    hide RedirectBrowser, NextSite, SiteOf, CanForwardSensitiveHeaders, SetReferer, SourceFor, HasContext;
    headers, cookies, site := headers0, cookies0, site0;
    if !preserveBody {
      headers := headers.(contentType := None);
    }
    if !CanForwardSensitiveHeaders(cfg.target, nextURL) {
      headers := headers.(authorization := None, cookie := None);
      cookies := map[];
    }
    headers := SetReferer(headers, currentURL, nextURL);
    if BrowserOn(cfg) {
      if HasContext(cfg.mode) {
        site := NextSite(site, SiteOf(SourceFor(cfg.headers, cfg.mode), nextURL, cfg.mode.Navigation?, cfg.registry));
      }
      headers := RedirectBrowser(cfg, headers, cfg.headers.fetchSite.Some?, site, nextURL);
    }
  }

  /** Runs the redirect loop against whatever the outside answers. */
  method DoStream(cfg: Config, outside: Outside) returns (result: Result, sent: seq<Sent>, ledger: map<BodyId, Owner>)
    ensures CompleteRun(cfg, outside, result, sent, ledger)
  {
    hide RedirectBrowser, ApplyBrowserHeaders, NextSite, SiteOf, CanForwardSensitiveHeaders, SetReferer, SourceFor;
    hide Round, Traces, CompleteRun, EndsWithResponse;
    hide LengthRejected, HasGetBody, RequestLength, BodyBytes, NextHeaders, SiteAfter, HandOver, IsRedirectStatus,
      RedirectMethod, CloseRemaining, Begin;
    hide HasContext;
    var start := Begin(cfg);
    FirstRound(cfg, outside);
    var pendingBody := start.pending;
    ledger := start.ledger;
    sent := [];
    if Refused(cfg) {
      EndsUnsent(cfg, outside, sent, start);
      return Failed, sent, CloseRemaining(ledger, pendingBody);
    }
    var headers, explicitCookies, site := start.headers, start.cookies, start.site;
    var currentURL, currentMethod, currentBody := start.url, start.verb, start.body;
    var replayBody, contentLength, redirects := start.replay, start.length, 0;
    while true
      invariant |sent| == redirects <= Allowed(cfg)
      invariant Round(cfg, outside, redirects) == Some(Loop(currentURL, currentMethod, currentBody, replayBody, contentLength,
                  headers, explicitCookies, site, redirects, pendingBody, ledger))
      invariant Traces(cfg, outside, sent)
      decreases Allowed(cfg) - redirects
    {
      ghost var l := Round(cfg, outside, redirects).value;
      var hop := outside(redirects);
      if currentURL == None || !hop.requestOk {
        EndsUnsent(cfg, outside, sent, l);
        return Failed, sent, CloseRemaining(ledger, pendingBody);
      }
      var request, getBody := BuildRequest(cfg, l, redirects, currentURL.value, currentMethod, currentBody,
                                           replayBody, contentLength, headers, explicitCookies);
      if request == None {
        EndsUnsent(cfg, outside, sent, l);
        return Failed, sent, CloseRemaining(ledger, pendingBody);
      }
      if redirects == 0 {
        replayBody, contentLength := getBody, request.value.contentLength;
      }
      ledger := HandOver(ledger, pendingBody);
      pendingBody := None;
      TracesOn(cfg, outside, sent);
      sent := sent + [request.value];
      if hop.answer == Failure { EndsSent(cfg, outside, sent, ledger, l); return Failed, sent, ledger; }
      var status := hop.answer.status;
      explicitCookies := explicitCookies - hop.answer.setCookies;
      var (nextMethod, preserveBody) := RedirectMethod(currentMethod, status);
      var cannotReplay := preserveBody && request.value.body.Some? && !getBody;
      if !cfg.allowRedirects || !IsRedirectStatus(status) || !hop.answer.hasLocation || redirects >= cfg.maxRedirects {
        EndsSent(cfg, outside, sent, ledger, l);
        return Returned(redirects), sent, ledger;
      }
      if cannotReplay { EndsSent(cfg, outside, sent, ledger, l); return Returned(redirects), sent, ledger; }
      if hop.resolved == None { EndsSent(cfg, outside, sent, ledger, l); return Failed, sent, ledger; }
      var nextURL := hop.resolved.value;
      if !preserveBody {
        currentBody, replayBody, contentLength := None, false, 0;
      } else if getBody {
        if !hop.reopenOk { EndsSent(cfg, outside, sent, ledger, l); return Failed, sent, ledger; }
        currentBody := Some(Replayed(redirects));
        pendingBody := currentBody;
        ledger := ledger[Replayed(redirects) := DoStreamOwns];
      } else {
        currentBody := None;
      }
      headers, explicitCookies, site := Rewrite(cfg, preserveBody, currentURL, nextURL, headers, explicitCookies, site);
      RoundOn(cfg, outside, redirects);
      currentMethod := nextMethod;
      currentURL := nextURL;
      redirects := redirects + 1;
    }
  }

  lemma FirstRound(cfg: Config, outside: Outside)
    ensures Round(cfg, outside, 0) == Some(Begin(cfg)) && Traces(cfg, outside, [])
    ensures Begin(cfg).redirects == 0
  {
  }

  lemma RoundOn(cfg: Config, outside: Outside, i: nat)
    requires Round(cfg, outside, i).Some? && Continues(cfg, Round(cfg, outside, i).value, outside(i))
    ensures Round(cfg, outside, i + 1) == Some(Next(cfg, Round(cfg, outside, i).value, outside(i)))
  {
  }

  lemma TracesOn(cfg: Config, outside: Outside, sent: seq<Sent>)
    requires Traces(cfg, outside, sent) && Round(cfg, outside, |sent|).Some?
    requires Sends(cfg, Round(cfg, outside, |sent|).value, outside(|sent|))
    ensures Traces(cfg, outside, sent + [RequestOf(cfg, Round(cfg, outside, |sent|).value)])
  {
    hide Round, Sends, RequestOf;
  }

  // ---------- the run by its requests ----------

  /** The bytes the caller hands over; an empty buffer is no body. */
  function Given(upload: Upload): Option<Bytes> {
    match upload
    case NoUpload => None
    case Buffered(content) => if |content| > 0 then Some(content) else None
    case Reader(content, _) => Some(content)
  }

  /** The first request is the caller's. */
  lemma FirstRequest(cfg: Config, outside: Outside, sent: seq<Sent>)
    requires Traces(cfg, outside, sent) && sent != []
    ensures cfg.target == Some(sent[0].url) && sent[0].verb == cfg.verb
    ensures sent[0].body == Given(cfg.upload)
    ensures sent[0].contentType == cfg.headers.contentType && sent[0].referer == cfg.headers.referer
    ensures sent[0].authorization == cfg.headers.authorization && sent[0].cookie == cfg.headers.cookie
    ensures sent[0].cookies == cfg.cookies
    ensures sent[0].contentLength == match cfg.contentLength
      case Some(n) => n
      case None => if cfg.upload.Buffered? then |cfg.upload.content| else 0
  {
    SentAt(cfg, outside, sent, 0);
    hide Traces, SiteOf;
    FirstRound(cfg, outside);
  }

  /** There is a first request unless the caller's options, target or announced length are refused. */
  lemma FirstRequestMade(cfg: Config, outside: Outside, result: Result, sent: seq<Sent>, ledger: map<BodyId, Owner>)
    requires CompleteRun(cfg, outside, result, sent, ledger)
    ensures sent != [] <==>
      && !cfg.setupFails && cfg.target.Some? && outside(0).requestOk
      && match cfg.contentLength
         case None => true
         case Some(n) =>
           n >= -1 && (n > 0 ==> match cfg.upload
                                case NoUpload => false
                                case Buffered(content) => n == |content|
                                case Reader(_, _) => true)
  {
    hide SiteOf, ApplyBrowserHeaders;
    FirstRound(cfg, outside);
  }

  /** A response that names a target to go to, while going there is allowed. */
  predicate Redirecting(cfg: Config, answer: Answer, i: nat) {
    && answer.Response? && answer.status in {301, 302, 303, 307, 308} && answer.hasLocation
    && cfg.allowRedirects && i < cfg.maxRedirects
  }

  /** Every answer before the i-th kept the request as it was. */
  predicate Kept(outside: Outside, i: nat) {
    forall j: nat :: j < i ==> outside(j).answer.Response? && outside(j).answer.status in {307, 308}
  }

  /** The body of round i can be had again exactly if it came from memory and was never dropped. */
  lemma {:induction false} ReplayInRound(cfg: Config, outside: Outside, i: nat)
    requires Round(cfg, outside, i).Some?
    ensures HasGetBody(cfg, Round(cfg, outside, i).value) <==> cfg.upload.Buffered? && Kept(outside, i)
  {
    hide NextHeaders, SiteAfter, SiteOf, ApplyBrowserHeaders, RequestLength, LengthRejected, BodyBytes;
    if i > 0 {
      ReplayInRound(cfg, outside, i - 1);
      RoundFollowed(cfg, outside, i - 1);
      assert Kept(outside, i) <==> Kept(outside, i - 1) && outside(i - 1).answer.status in {307, 308};
    }
  }

  /**
   The i-th request is followed by another exactly if its answer is a redirect to an address, the
   next request can be built, and a body that a 307 or 308 keeps can be had again. A body that
   cannot is not sent again: that redirect is handed to the caller.
   */
  lemma NextRequestMade(cfg: Config, outside: Outside, result: Result, sent: seq<Sent>, ledger: map<BodyId, Owner>, i: nat)
    requires CompleteRun(cfg, outside, result, sent, ledger) && i < |sent|
    ensures var answer := outside(i).answer;
      i + 1 < |sent| <==>
        && Redirecting(cfg, answer, i)
        && (answer.status in {307, 308} && sent[i].body.Some? ==> cfg.upload.Buffered?)
        && (answer.status in {307, 308} && cfg.upload.Buffered? && Kept(outside, i) ==> outside(i).reopenOk)
        && outside(i).resolved.Some? && outside(i).resolved.value.Some? && outside(i + 1).requestOk
  {
    SentAt(cfg, outside, sent, i);
    ContinuesMeans(cfg, outside, sent, i);
    NextSends(cfg, outside, i);
    hide Kept, Continues, Round, EndsWithResponse, Redirecting, Sends, RequestOf;
  }

  lemma ContinuesMeans(cfg: Config, outside: Outside, sent: seq<Sent>, i: nat)
    requires Traces(cfg, outside, sent) && i < |sent|
    ensures var answer := outside(i).answer;
      Round(cfg, outside, i).Some? &&
      (Continues(cfg, Round(cfg, outside, i).value, outside(i)) <==>
        && Redirecting(cfg, answer, i)
        && (answer.status in {307, 308} && sent[i].body.Some? ==> cfg.upload.Buffered?)
        && (answer.status in {307, 308} && cfg.upload.Buffered? && Kept(outside, i) ==> outside(i).reopenOk)
        && outside(i).resolved.Some?)
  {
    SentAt(cfg, outside, sent, i);
    ReplayInRound(cfg, outside, i);
    if sent[i].body.Some? && cfg.upload.Buffered? { BodyMeansKept(cfg, outside, i); }
    hide HasGetBody, RequestLength, LengthRejected, Kept, Round, Traces;
  }

  lemma {:induction false} BodyMeansKept(cfg: Config, outside: Outside, i: nat)
    requires cfg.upload.Buffered? && Round(cfg, outside, i).Some? && Round(cfg, outside, i).value.body.Some?
    ensures Kept(outside, i)
  {
    hide NextHeaders, SiteAfter, SiteOf, ApplyBrowserHeaders, RequestLength, LengthRejected, BodyBytes;
    if i > 0 {
      BodyMeansKept(cfg, outside, i - 1);
      RoundFollowed(cfg, outside, i - 1);
    }
  }

  lemma NextSends(cfg: Config, outside: Outside, i: nat)
    requires Round(cfg, outside, i).Some?
    ensures var l, n := Round(cfg, outside, i).value, Round(cfg, outside, i + 1);
      && (n.Some? <==> Continues(cfg, l, outside(i)))
      && (n.Some? ==> n.value.url == outside(i).resolved.value
                      && (Sends(cfg, n.value, outside(i + 1)) <==> n.value.url.Some? && outside(i + 1).requestOk))
  {
    hide NextHeaders, SiteAfter, HasGetBody, BodyBytes, Follows;
  }

  /** Each further request goes where the redirect before it points. */
  lemma NextRequestUrl(cfg: Config, outside: Outside, sent: seq<Sent>, i: nat)
    requires Traces(cfg, outside, sent) && 0 < i < |sent|
    ensures outside(i - 1).resolved == Some(Some(sent[i].url))
  {
    SentAt(cfg, outside, sent, i - 1);
    SentAt(cfg, outside, sent, i);
    NextSends(cfg, outside, i - 1);
    hide Round, Traces, Next;
  }

  /** What the caller gets: the last response, unless that is a redirect it could follow; else an error. */
  lemma RunResult(cfg: Config, outside: Outside, result: Result, sent: seq<Sent>, ledger: map<BodyId, Owner>)
    requires CompleteRun(cfg, outside, result, sent, ledger)
    ensures var last := |sent| - 1;
      result == if sent != [] && outside(last).answer.Response?
                   && (Redirecting(cfg, outside(last).answer, last)
                       ==> outside(last).answer.status in {307, 308} && sent[last].body.Some? && !cfg.upload.Buffered?)
                then Returned(last) else Failed
  {
    if sent != [] {
      var i := |sent| - 1;
      SentAt(cfg, outside, sent, i);
      ReplayInRound(cfg, outside, i);
      if sent[i].body.Some? && cfg.upload.Buffered? { BodyMeansKept(cfg, outside, i); }
      hide HasGetBody, RequestLength, Kept, Round, Traces, Sends;
    }
  }

  // ---------- bodies ----------

  /** A body that cannot be replayed is gone after the first round. */
  lemma {:induction false} ReaderGone(cfg: Config, outside: Outside, i: nat)
    requires cfg.upload.Reader? && i > 0 && Round(cfg, outside, i).Some?
    ensures Round(cfg, outside, i).value.body == None
  {
    hide NextHeaders, SiteAfter, Begin;
    if i > 1 {
      ReaderGone(cfg, outside, i - 1);
    }
  }

  lemma ReaderSentOnce(cfg: Config, outside: Outside, sent: seq<Sent>, i: nat)
    requires Traces(cfg, outside, sent) && cfg.upload.Reader? && 0 < i < |sent|
    ensures sent[i].body == None
  {
    hide Round, Sends;
    ReaderGone(cfg, outside, i);
  }

  /** A 307 or 308 sends the same method and content type, and the same bytes under the same length if there is a body. */
  lemma PreservedRound(cfg: Config, outside: Outside, i: nat)
    requires Round(cfg, outside, i).Some? && Round(cfg, outside, i + 1).Some? && !DropsBody(outside(i).answer.status)
    ensures var l, n := Round(cfg, outside, i).value, Round(cfg, outside, i + 1).value;
      && n.verb == l.verb && BodyBytes(cfg.upload, n.body) == BodyBytes(cfg.upload, l.body)
      && n.headers.contentType == l.headers.contentType
      && (BodyBytes(cfg.upload, l.body).Some? ==> RequestLength(cfg, n) == RequestLength(cfg, l))
  {
    hide NextHeaders, SiteAfter;
    var l, hop := Round(cfg, outside, i).value, outside(i);
    HeadersCarried(cfg, l.headers, true, l.url, hop.resolved.value, SiteAfter(cfg, l.site, hop.resolved.value));
  }

  /** Through any number of 307 and 308 hops the method and the bytes stay. */
  lemma {:induction false} PreservingRedirects(cfg: Config, outside: Outside, sent: seq<Sent>, i: nat, j: nat)
    requires Traces(cfg, outside, sent) && i <= j < |sent|
    requires forall k: nat :: i <= k < j ==> outside(k).answer.Response? && !DropsBody(outside(k).answer.status)
    ensures sent[j].verb == sent[i].verb && sent[j].body == sent[i].body && sent[j].contentType == sent[i].contentType
    ensures sent[i].body.Some? ==> sent[j].contentLength == sent[i].contentLength
    decreases j
  {
    hide Round, Traces, Sends, DropsBody, Continues, BodyBytes, RequestLength;
    if i < j {
      PreservingRedirects(cfg, outside, sent, i, j - 1);
      SentAt(cfg, outside, sent, j - 1);
      SentAt(cfg, outside, sent, j);
      PreservedRound(cfg, outside, j - 1);
    }
  }

  /** The length of a body that can be sent again, unless the caller forces 0 or -1 (unknown). */
  function Announced(cfg: Config): int {
    if cfg.contentLength.Some? && cfg.contentLength.value <= 0 then cfg.contentLength.value else InferredLength(cfg)
  }

  lemma {:induction false} LengthInRound(cfg: Config, outside: Outside, i: nat)
    requires cfg.upload.Buffered? && cfg.upload.content != []
    requires Round(cfg, outside, i).Some? && Sends(cfg, Begin(cfg), outside(0))
    ensures var l := Round(cfg, outside, i).value;
      l.body.Some? ==> RequestLength(cfg, l) == Announced(cfg) && (i > 0 ==> l.replay)
  {
    hide NextHeaders, SiteAfter, ApplyBrowserHeaders, SiteOf;
    if i > 0 {
      LengthInRound(cfg, outside, i - 1);
    }
  }

  /** Every request that carries a body from memory announces its true length, or what the caller forced. */
  lemma LengthsAnnounced(cfg: Config, outside: Outside, sent: seq<Sent>, i: nat)
    requires Traces(cfg, outside, sent) && i < |sent| && cfg.upload.Buffered? && sent[i].body.Some?
    ensures sent[i].body.value == cfg.upload.content
    ensures sent[i].contentLength ==
      if cfg.contentLength.Some? && cfg.contentLength.value <= 0 then cfg.contentLength.value else |sent[i].body.value|
  {
    hide Round, RequestLength, Sends;
    SentAt(cfg, outside, sent, i);
    SentAt(cfg, outside, sent, 0);
    FirstRound(cfg, outside);
    LengthInRound(cfg, outside, i);
  }

  lemma SentAt(cfg: Config, outside: Outside, sent: seq<Sent>, i: nat)
    requires Traces(cfg, outside, sent) && i < |sent|
    ensures Round(cfg, outside, i).Some? && Round(cfg, outside, i).value.url.Some?
    ensures sent[i] == RequestOf(cfg, Round(cfg, outside, i).value)
  {
    hide Round, RequestOf;
  }

  /** What a redirect does to the headers that are not generated. */
  lemma HeadersCarried(cfg: Config, headers: Headers, preserve: bool, current: Option<Url>, target: Option<Url>, site: Site)
    ensures var same := CanForwardSensitiveHeaders(cfg.target, target);
      var h := NextHeaders(cfg, headers, preserve, current, target, site);
      && h.authorization == (if same then headers.authorization else None)
      && h.cookie == (if same then headers.cookie else None)
      && h.contentType == (if preserve then headers.contentType else None)
      && h.referer == SetReferer(headers, current, target).referer
  {
    hide CanForwardSensitiveHeaders, SiteOf;
  }

  predicate Plain(l: Loop, verb: string) {
    l.verb == verb && l.body == None && l.headers.contentType == None
  }

  /** After a 301, 302 or 303 every round is a bodyless GET or HEAD. */
  lemma {:induction false} PlainAfterDrop(cfg: Config, outside: Outside, i: nat, j: nat)
    requires i < j && Round(cfg, outside, j).Some?
    requires Round(cfg, outside, i).Some? && outside(i).answer.Response? && DropsBody(outside(i).answer.status)
    ensures Plain(Round(cfg, outside, j).value, if Round(cfg, outside, i).value.verb == "HEAD" then "HEAD" else "GET")
    decreases j
  {
    hide NextHeaders, SiteAfter, Begin;
    var p, hop := Round(cfg, outside, j - 1).value, outside(j - 1);
    HeadersCarried(cfg, p.headers, RedirectMethod(p.verb, hop.answer.status).1, p.url, hop.resolved.value,
                   SiteAfter(cfg, p.site, hop.resolved.value));
    if j > i + 1 {
      PlainAfterDrop(cfg, outside, i, j - 1);
    }
  }

  lemma DroppingRedirects(cfg: Config, outside: Outside, sent: seq<Sent>, i: nat, j: nat)
    requires Traces(cfg, outside, sent) && i < j < |sent|
    requires outside(i).answer.Response? && outside(i).answer.status in {301, 302, 303}
    ensures sent[j].verb == (if sent[i].verb == "HEAD" then "HEAD" else "GET")
    ensures sent[j].body == None && sent[j].contentType == None && sent[j].contentLength == 0
  {
    PlainAfterDrop(cfg, outside, i, j);
    SentAt(cfg, outside, sent, i);
    SentAt(cfg, outside, sent, j);
    hide Round, Traces;
  }

  /** The body of request i is had again for the next one. */
  predicate Reopens(cfg: Config, outside: Outside, i: nat) {
    cfg.upload.Buffered? && Kept(outside, i + 1)
  }

  predicate OwnedUpload(cfg: Config) {
    cfg.upload.Reader? && cfg.upload.closable
  }

  /** Who has each body at the start of round i: DoStream only the one to be sent. */
  ghost predicate LedgerIs(cfg: Config, outside: Outside, i: nat, ledger: map<BodyId, Owner>, pending: Option<BodyId>) {
    && (CallerBody in ledger <==> OwnedUpload(cfg))
    && (CallerBody in ledger ==> ledger[CallerBody] == if i == 0 then DoStreamOwns else TransportOwns)
    && (forall k: nat :: Replayed(k) in ledger <==> k < i && Reopens(cfg, outside, k))
    && (forall k: nat :: Replayed(k) in ledger ==> ledger[Replayed(k)] == if k + 1 == i then DoStreamOwns else TransportOwns)
    && pending == if i == 0 then (if OwnedUpload(cfg) then Some(CallerBody) else None)
                  else if Reopens(cfg, outside, i - 1) then Some(Replayed(i - 1)) else None
  }

  /** The same once the request of round i is handed over. */
  ghost predicate LedgerSent(cfg: Config, outside: Outside, i: nat, ledger: map<BodyId, Owner>) {
    && (CallerBody in ledger <==> OwnedUpload(cfg))
    && (forall k: nat :: Replayed(k) in ledger <==> k < i && Reopens(cfg, outside, k))
    && (forall id <- ledger :: ledger[id] == TransportOwns)
  }

  lemma LedgerHandedOver(cfg: Config, outside: Outside, i: nat, ledger: map<BodyId, Owner>, pending: Option<BodyId>)
    requires LedgerIs(cfg, outside, i, ledger, pending)
    ensures LedgerSent(cfg, outside, i, HandOver(ledger, pending))
  {
    hide Reopens, OwnedUpload;
    forall id <- HandOver(ledger, pending)
      ensures HandOver(ledger, pending)[id] == TransportOwns
    {
      match id
      case CallerBody =>
      case Replayed(k) =>
    }
  }

  lemma LedgerReopened(cfg: Config, outside: Outside, i: nat, ledger: map<BodyId, Owner>)
    requires LedgerSent(cfg, outside, i, ledger)
    ensures Reopens(cfg, outside, i) ==>
      LedgerIs(cfg, outside, i + 1, ledger[Replayed(i) := DoStreamOwns], Some(Replayed(i)))
    ensures !Reopens(cfg, outside, i) ==> LedgerIs(cfg, outside, i + 1, ledger, None)
  {
    hide Reopens, OwnedUpload;
  }

  lemma {:induction false} RoundLedger(cfg: Config, outside: Outside, i: nat)
    requires Round(cfg, outside, i).Some?
    ensures LedgerIs(cfg, outside, i, Round(cfg, outside, i).value.ledger, Round(cfg, outside, i).value.pending)
  {
    hide NextHeaders, SiteAfter, Sends, RequestLength, ApplyBrowserHeaders, SiteOf, Kept;
    if i > 0 {
      RoundLedger(cfg, outside, i - 1);
      ReplayInRound(cfg, outside, i - 1);
      RoundFollowed(cfg, outside, i - 1);
      KeptOn(outside, i - 1);
      var l := Round(cfg, outside, i - 1).value;
      LedgerHandedOver(cfg, outside, i - 1, l.ledger, l.pending);
      LedgerReopened(cfg, outside, i - 1, HandOver(l.ledger, l.pending));
      hide HasGetBody, Follows, LedgerIs, LedgerSent, HandOver;
    }
  }

  lemma KeptOn(outside: Outside, i: nat)
    ensures Kept(outside, i + 1) <==>
      Kept(outside, i) && outside(i).answer.Response? && outside(i).answer.status in {307, 308}
  {
  }

  /**
   The fate of every body. A closable body of the caller goes to the transport with the first
   request, and is closed if there is none. A body had again after the k-th request goes out with
   the next one, and is closed if that cannot be sent. No other body was ever opened.
   */
  lemma BodyFates(cfg: Config, outside: Outside, result: Result, sent: seq<Sent>, ledger: map<BodyId, Owner>)
    requires CompleteRun(cfg, outside, result, sent, ledger)
    ensures CallerBody in ledger <==> cfg.upload.Reader? && cfg.upload.closable
    ensures CallerBody in ledger ==> ledger[CallerBody] == if sent != [] then TransportOwns else ClosedHere
    ensures forall k: nat :: Replayed(k) in ledger <==>
      && k < |sent| && Redirecting(cfg, outside(k).answer, k) && Reopens(cfg, outside, k)
      && outside(k).resolved.Some? && outside(k).reopenOk
    ensures forall k: nat :: Replayed(k) in ledger ==>
      ledger[Replayed(k)] == if k + 1 < |sent| then TransportOwns else ClosedHere
  {
    hide Round, Redirecting, Reopens, Sends, EndsWithResponse, LedgerClosed, RequestOf, Begin, OwnedUpload;
    FirstRound(cfg, outside);
    var n := |sent|;
    forall k: nat | k < n && Reopens(cfg, outside, k)
      ensures Round(cfg, outside, k + 1).Some? <==>
        Redirecting(cfg, outside(k).answer, k) && outside(k).resolved.Some? && outside(k).reopenOk
      ensures k + 1 < n ==> Round(cfg, outside, k + 1).Some?
    {
      ReopensGoesOn(cfg, outside, sent, k);
      if k + 1 < n { SentAt(cfg, outside, sent, k + 1); }
    }
    FinalLedger(cfg, outside, n, ledger);
    assert OwnedUpload(cfg) <==> cfg.upload.Reader? && cfg.upload.closable by { OwnedMeans(cfg); }
    assert n == 0 ==> Round(cfg, outside, n).Some?;
  }

  lemma OwnedMeans(cfg: Config)
    ensures OwnedUpload(cfg) <==> cfg.upload.Reader? && cfg.upload.closable
  {
  }

  /** The ledger after n requests; `more` says that the loop was about to send another. */
  ghost predicate LedgerFinal(cfg: Config, outside: Outside, n: nat, more: bool, ledger: map<BodyId, Owner>) {
    && (CallerBody in ledger <==> OwnedUpload(cfg))
    && (CallerBody in ledger ==> ledger[CallerBody] == if n > 0 then TransportOwns else ClosedHere)
    && (forall k: nat :: Replayed(k) in ledger <==> k < n && Reopens(cfg, outside, k) && (k + 1 == n ==> more))
    && (forall k: nat :: Replayed(k) in ledger ==> ledger[Replayed(k)] == if k + 1 < n then TransportOwns else ClosedHere)
  }

  lemma FinalLedger(cfg: Config, outside: Outside, n: nat, ledger: map<BodyId, Owner>)
    requires LedgerClosed(cfg, outside, n, ledger)
    ensures LedgerFinal(cfg, outside, n, Round(cfg, outside, n).Some?, ledger)
  {
    hide LedgerFinal, LedgerIs, HandOver, CloseRemaining, Round;
    if Round(cfg, outside, n).Some? {
      var l := Round(cfg, outside, n).value;
      RoundLedger(cfg, outside, n);
      ClosedLedger(cfg, outside, n, l.ledger, l.pending);
    } else {
      var l := Round(cfg, outside, n - 1).value;
      RoundLedger(cfg, outside, n - 1);
      SentLedger(cfg, outside, n - 1, l.ledger, l.pending);
    }
  }

  lemma ClosedLedger(cfg: Config, outside: Outside, n: nat, ledger: map<BodyId, Owner>, pending: Option<BodyId>)
    requires LedgerIs(cfg, outside, n, ledger, pending)
    ensures LedgerFinal(cfg, outside, n, true, CloseRemaining(ledger, pending))
  {
    hide Reopens, OwnedUpload;
  }

  lemma SentLedger(cfg: Config, outside: Outside, n: nat, ledger: map<BodyId, Owner>, pending: Option<BodyId>)
    requires LedgerIs(cfg, outside, n, ledger, pending)
    ensures LedgerFinal(cfg, outside, n + 1, false, HandOver(ledger, pending))
  {
    LedgerHandedOver(cfg, outside, n, ledger, pending);
    hide Reopens, OwnedUpload, HandOver, LedgerIs;
  }

  lemma ReopensGoesOn(cfg: Config, outside: Outside, sent: seq<Sent>, k: nat)
    requires Traces(cfg, outside, sent) && k < |sent| && Reopens(cfg, outside, k)
    ensures Round(cfg, outside, k + 1).Some? <==>
      Redirecting(cfg, outside(k).answer, k) && outside(k).resolved.Some? && outside(k).reopenOk
  {
    ContinuesMeans(cfg, outside, sent, k);
    NextSends(cfg, outside, k);
    KeptOn(outside, k);
    hide Round, Traces, Kept, Continues, Redirecting;
  }

  // ---------- credentials ----------

  /** Every URL from the first to round i's has the initial origin. */
  ghost predicate Confined(cfg: Config, outside: Outside, i: nat) {
    i == 0 || (Confined(cfg, outside, i - 1) && Round(cfg, outside, i).Some?
               && CanForwardSensitiveHeaders(cfg.target, Round(cfg, outside, i).value.url))
  }

  /** The cookie names responses have set before round i. */
  function NamesSet(outside: Outside, i: nat): set<string> {
    if i == 0 then {}
    else NamesSet(outside, i - 1) + if outside(i - 1).answer.Response? then outside(i - 1).answer.setCookies else {}
  }

  lemma {:induction false} CredentialsInRound(cfg: Config, outside: Outside, i: nat)
    requires Round(cfg, outside, i).Some?
    ensures var l := Round(cfg, outside, i).value;
      if Confined(cfg, outside, i)
      then l.headers.authorization == cfg.headers.authorization && l.headers.cookie == cfg.headers.cookie
           && l.cookies == cfg.cookies - NamesSet(outside, i)
      else l.headers.authorization == None && l.headers.cookie == None && l.cookies == map[]
  {
    hide NextHeaders, SiteAfter, CanForwardSensitiveHeaders, SiteOf;
    if i > 0 {
      CredentialsInRound(cfg, outside, i - 1);
      var p, hop := Round(cfg, outside, i - 1).value, outside(i - 1);
      var preserve := RedirectMethod(p.verb, hop.answer.status).1;
      HeadersCarried(cfg, p.headers, preserve, p.url, hop.resolved.value, SiteAfter(cfg, p.site, hop.resolved.value));
      assert cfg.cookies - NamesSet(outside, i - 1) - hop.answer.setCookies == cfg.cookies - NamesSet(outside, i);
    } else {
      assert cfg.cookies - {} == cfg.cookies;
    }
  }

  /** All requests up to the i-th went to the origin of the first. */
  ghost predicate OneOrigin(sent: seq<Sent>, i: nat)
    requires i < |sent|
  {
    forall j :: 0 <= j <= i ==> Origin(sent[j].url) == Origin(sent[0].url)
  }

  lemma SentUrl(cfg: Config, outside: Outside, sent: seq<Sent>, i: nat)
    requires Traces(cfg, outside, sent) && i < |sent|
    ensures Round(cfg, outside, i).Some? && Round(cfg, outside, i).value.url == Some(sent[i].url)
    ensures cfg.target == Some(sent[0].url)
  {
    assert Round(cfg, outside, 0) == Some(Begin(cfg));
  }

  lemma {:induction false} ConfinedIsOneOrigin(cfg: Config, outside: Outside, sent: seq<Sent>, i: nat)
    requires Traces(cfg, outside, sent) && i < |sent|
    ensures Confined(cfg, outside, i) <==> OneOrigin(sent, i)
  {
    hide CanForwardSensitiveHeaders, Origin, Round, Traces;
    if i > 0 {
      ConfinedIsOneOrigin(cfg, outside, sent, i - 1);
      SentUrl(cfg, outside, sent, i);
      ForwardIsSameOrigin(sent[0].url, sent[i].url);
    }
  }

  /**
   The caller's Authorization and Cookie headers and explicit cookies go out exactly as long as
   every request went to the first origin; a detour ends it for good. An explicit cookie also stops
   as soon as a response has set its name.
   */
  lemma CredentialsStayHome(cfg: Config, outside: Outside, sent: seq<Sent>, i: nat)
    requires Traces(cfg, outside, sent) && i < |sent|
    ensures sent[i].authorization == if OneOrigin(sent, i) then cfg.headers.authorization else None
    ensures sent[i].cookie == if OneOrigin(sent, i) then cfg.headers.cookie else None
    ensures sent[i].cookies == if OneOrigin(sent, i) then cfg.cookies - NamesSet(outside, i) else map[]
  {
    hide Round, Sends, OneOrigin;
    CredentialsInRound(cfg, outside, i);
    ConfinedIsOneOrigin(cfg, outside, sent, i);
  }

  /** The Referer of a redirected request is the URL before it, and absent on the way from https to http. */
  lemma RefererOfChain(cfg: Config, outside: Outside, sent: seq<Sent>, i: nat)
    requires Traces(cfg, outside, sent) && 0 < i < |sent|
    ensures sent[i].referer ==
      if sent[i - 1].url.scheme == "https" && sent[i].url.scheme == "http" then Blank else Names(Some(sent[i - 1].url))
  {
    hide NextHeaders, SiteAfter, CanForwardSensitiveHeaders, Traces, Continues, Sends;
    SentAt(cfg, outside, sent, i - 1);
    SentAt(cfg, outside, sent, i);
    var p, hop := Round(cfg, outside, i - 1).value, outside(i - 1);
    ContinuesResolved(cfg, p, hop);
    HeadersCarried(cfg, p.headers, RedirectMethod(p.verb, hop.answer.status).1, p.url, hop.resolved.value,
                   SiteAfter(cfg, p.site, hop.resolved.value));
  }

  lemma ContinuesResolved(cfg: Config, l: Loop, hop: Hop)
    ensures Continues(cfg, l, hop) ==> hop.answer.Response? && hop.resolved.Some?
  {
  }

  // ---------- Sec-Fetch-Site ----------

  /** The URLs of the rounds up to i. */
  ghost function Visited(cfg: Config, outside: Outside, i: nat): (urls: seq<Option<Url>>)
    ensures |urls| == i + 1
  {
    var url := if Round(cfg, outside, i).Some? then Round(cfg, outside, i).value.url else None;
    if i == 0 then [url] else Visited(cfg, outside, i - 1) + [url]
  }

  lemma {:induction false} SiteInRound(cfg: Config, outside: Outside, i: nat)
    requires Round(cfg, outside, i).Some? && BrowserOn(cfg)
    ensures var l := Round(cfg, outside, i).value;
      l.site == if HasContext(cfg.mode)
                then WorstSite(SourceFor(cfg.headers, cfg.mode), Visited(cfg, outside, i), cfg.mode.Navigation?, cfg.registry)
                else Unset
  {
    hide NextHeaders, SiteOf, NextSite, SourceFor;
    if i > 0 {
      SiteInRound(cfg, outside, i - 1);
      var urls := Visited(cfg, outside, i);
      assert urls[..i] == Visited(cfg, outside, i - 1);
      if HasContext(cfg.mode) {
        ChainSite(SourceFor(cfg.headers, cfg.mode), urls, cfg.mode.Navigation?, cfg.registry);
      }
    }
  }

  /** The header of a round follows from the site, not from the Referer the client rewrote. */
  lemma HeaderInRound(cfg: Config, outside: Outside, i: nat)
    requires Round(cfg, outside, i).Some? && BrowserOn(cfg)
    ensures var l := Round(cfg, outside, i).value;
      l.headers.fetchSite ==
        if cfg.headers.fetchSite.Some? then cfg.headers.fetchSite
        else if HintsAllowed(cfg, l.url) && l.site != Unset then Some(Generated(l.site))
        else None
  {
    hide SiteOf, NextSite, CanForwardSensitiveHeaders;
    if i > 0 && cfg.headers.fetchSite.Some? {
      HeaderKept(cfg, outside, i - 1);
    }
  }

  /** A caller's own Sec-Fetch-Site header is never replaced. */
  lemma {:induction false} HeaderKept(cfg: Config, outside: Outside, i: nat)
    requires Round(cfg, outside, i).Some? && cfg.headers.fetchSite.Some?
    ensures Round(cfg, outside, i).value.headers.fetchSite == cfg.headers.fetchSite
  {
    hide SiteOf, NextSite, CanForwardSensitiveHeaders;
    if i > 0 {
      HeaderKept(cfg, outside, i - 1);
    }
  }

  /**
   In browser mode the generated Sec-Fetch-Site of the i-th request is the worst relation of the
   original source to the URLs so far; without a source it stays "none" or absent; it goes only to
   trustworthy targets. A caller's own header is sent unchanged.
   */
  lemma FetchSiteOfChain(cfg: Config, outside: Outside, sent: seq<Sent>, i: nat)
    requires Traces(cfg, outside, sent) && i < |sent| && BrowserOn(cfg)
    ensures cfg.headers.fetchSite.Some? ==> sent[i].fetchSite == cfg.headers.fetchSite
    ensures cfg.headers.fetchSite == None && HasContext(cfg.mode) ==>
      var site := WorstSite(SourceFor(cfg.headers, cfg.mode), Visited(cfg, outside, i), cfg.mode.Navigation?, cfg.registry);
      sent[i].fetchSite == if IsTrustworthy(sent[i].url, cfg.loopback) && site != Unset then Some(Generated(site)) else None
    ensures cfg.headers.fetchSite == None && !HasContext(cfg.mode) ==> sent[i].fetchSite == None
  {
    hide Round, SourceFor, HasContext, BrowserOn;
    HeaderInRound(cfg, outside, i);
    SiteInRound(cfg, outside, i);
  }

  /** Whose relation to the targets counts: Referer for pages and scripts, Origin before Referer for fetches. */
  lemma SourceOfMode(headers: Headers)
    ensures SourceFor(headers, Navigation) == SourceFor(headers, Script) == headers.referer
    ensures SourceFor(headers, Fetch) == SourceFor(headers, Json)
    ensures SourceFor(headers.(origin := Blank), Fetch) == headers.referer
    ensures headers.origin != Blank ==> SourceFor(headers, Fetch) == headers.origin
    ensures HasContext(Navigation) && HasContext(Script) && HasContext(Fetch) && HasContext(Json)
    ensures !HasContext(Identity) && !HasContext(Off)
  {
  }

  /** Without browser headers the client never touches Sec-Fetch-Site. */
  lemma {:induction false} SiteUntouched(cfg: Config, outside: Outside, i: nat)
    requires Round(cfg, outside, i).Some? && (!cfg.browserHeaders || cfg.mode.Off?)
    ensures Round(cfg, outside, i).value.headers.fetchSite == cfg.headers.fetchSite
  {
    hide SiteOf, NextSite, CanForwardSensitiveHeaders;
    if i > 0 {
      SiteUntouched(cfg, outside, i - 1);
    }
  }

  lemma {:induction false} VisitedAreSent(cfg: Config, outside: Outside, sent: seq<Sent>, i: nat, j: nat)
    requires Traces(cfg, outside, sent) && j <= i < |sent|
    ensures Visited(cfg, outside, i)[j] == Some(sent[j].url)
  {
    hide Round;
    if j < i {
      VisitedAreSent(cfg, outside, sent, i - 1, j);
    }
  }
}
