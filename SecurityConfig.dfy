/**
  The URL-level authorization of the service: an ordered list of rules, each
  pairing a request matcher with an access requirement. The first rule whose
  matcher accepts the request decides; a request no rule matches is denied.
 */
module SecurityConfig {
  import opened Wrappers

  datatype HttpMethod = GET | HEAD | POST | PUT | PATCH | DELETE | OPTIONS | TRACE

  /** Who is calling: nobody (no valid bearer token), or a caller holding the authorities of its token. */
  datatype Principal = Anonymous | Authenticated(authorities: set<string>)

  /** A request: its method, its path as the sequence of its segments, and its caller. */
  datatype Request = Request(verb: HttpMethod, path: seq<string>, principal: Principal)

  // The Ant-style pattern `p/**`: the path is `p` itself or lies below it.
  predicate PathUnder(path: seq<string>, pattern: seq<string>) {
    |pattern| <= |path| && path[..|pattern|] == pattern
  }

  // `requestMatchers([method,] "p/**")`, or `anyRequest()`.
  datatype Matcher = PathMatcher(verb: Option<HttpMethod>, pattern: seq<string>) | AnyRequest

  /** `permitAll()`, `hasAuthority(a)`, `authenticated()`, `denyAll()`. */
  datatype Access = PermitAll | HasAuthority(authority: string) | IsAuthenticated | DenyAll

  datatype Rule = Rule(matcher: Matcher, access: Access)

  datatype Decision = Permit | Deny

  predicate Matches(m: Matcher, req: Request) {
    match m
    case AnyRequest => true
    case PathMatcher(verb, pattern) =>
      (verb.None? || verb.value == req.verb) && PathUnder(req.path, pattern)
  }

  /** The caller is authenticated and holds the authority. */
  predicate Holds(principal: Principal, authority: string) {
    principal.Authenticated? && authority in principal.authorities
  }

  predicate Grants(access: Access, principal: Principal) {
    match access
    case PermitAll => true
    case HasAuthority(a) => Holds(principal, a)
    case IsAuthenticated => principal.Authenticated?
    case DenyAll => false
  }

  /** The position of the first rule whose matcher accepts the request, if any. */
  function FirstMatch(rules: seq<Rule>, req: Request): (k: Option<nat>)
    ensures k.Some? ==> k.value < |rules| && Matches(rules[k.value].matcher, req)
    ensures k.Some? ==> forall j :: 0 <= j < k.value ==> !Matches(rules[j].matcher, req)
    ensures k.None? ==> forall j :: 0 <= j < |rules| ==> !Matches(rules[j].matcher, req)
  {
    if |rules| == 0 then None
    else if Matches(rules[0].matcher, req) then Some(0)
    else
      match FirstMatch(rules[1..], req)
      case None => None
      case Some(k) => Some(k + 1)
  }

  /** Rule `i` is the one that decides `req`: it matches, and no earlier rule does. */
  predicate Decides(rules: seq<Rule>, req: Request, i: int) {
    0 <= i < |rules| && Matches(rules[i].matcher, req) &&
    forall j :: 0 <= j < i ==> !Matches(rules[j].matcher, req)
  }

  /** First match wins; no match means deny. */
  function Authorize(rules: seq<Rule>, req: Request): (d: Decision)
    ensures d == Permit <==> exists i :: Decides(rules, req, i) && Grants(rules[i].access, req.principal)
    ensures (forall j :: 0 <= j < |rules| ==> !Matches(rules[j].matcher, req)) ==> d == Deny
  {
    match FirstMatch(rules, req)
    case None => Deny
    case Some(k) => if Grants(rules[k].access, req.principal) then Permit else Deny
  }

  /** The rule at position `i` decides exactly when no earlier rule matches and it does. */
  lemma FirstMatchDecides(rules: seq<Rule>, req: Request, i: nat)
    requires i < |rules| && Matches(rules[i].matcher, req)
    requires forall j :: 0 <= j < i ==> !Matches(rules[j].matcher, req)
    ensures Authorize(rules, req) == if Grants(rules[i].access, req.principal) then Permit else Deny
  {
    var k := FirstMatch(rules, req);
    assert k.Some?;
    assert !(k.value < i) && !(i < k.value);
  }

  /** A request matched by no rule is denied. */
  lemma UnmatchedIsDenied(rules: seq<Rule>, req: Request)
    requires forall j :: 0 <= j < |rules| ==> !Matches(rules[j].matcher, req)
    ensures Authorize(rules, req) == Deny
  {
    var k := FirstMatch(rules, req);
    assert k.None?;
  }

  const PublicPattern: seq<string> := ["public"]
  const OrdersPattern: seq<string> := ["api", "v1", "orders"]
  const ApiV1Pattern: seq<string> := ["api", "v1"]

  const ReaderScope := "SCOPE_orders.reader"
  const CreateScope := "SCOPE_orders.create"
  const DeleteScope := "SCOPE_orders.delete"

  /** The rules of `securityFilterChain`, in declaration order. */
  const FilterChain: seq<Rule> := [
    Rule(PathMatcher(None, PublicPattern), PermitAll),
    Rule(PathMatcher(Some(GET), OrdersPattern), HasAuthority(ReaderScope)),
    Rule(PathMatcher(Some(POST), OrdersPattern), HasAuthority(CreateScope)),
    Rule(PathMatcher(Some(DELETE), OrdersPattern), HasAuthority(DeleteScope)),
    Rule(PathMatcher(None, ApiV1Pattern), IsAuthenticated),
    Rule(AnyRequest, DenyAll)
  ]

  /** Everything under `/public` is open to everybody, authenticated or not. */
  lemma PublicIsPermitted(req: Request)
    requires PathUnder(req.path, PublicPattern)
    ensures Authorize(FilterChain, req) == Permit
  {
    FirstMatchDecides(FilterChain, req, 0);
  }

  /** GET below `/api/v1/orders` needs `SCOPE_orders.reader`, and nothing about roles. */
  lemma OrdersGetNeedsReader(req: Request)
    requires req.verb == GET && PathUnder(req.path, OrdersPattern)
    ensures Authorize(FilterChain, req) == Permit <==> Holds(req.principal, ReaderScope)
  {
    assert req.path[0] == "api";
    FirstMatchDecides(FilterChain, req, 1);
  }

  /** POST below `/api/v1/orders` needs `SCOPE_orders.create`. */
  lemma OrdersPostNeedsCreate(req: Request)
    requires req.verb == POST && PathUnder(req.path, OrdersPattern)
    ensures Authorize(FilterChain, req) == Permit <==> Holds(req.principal, CreateScope)
  {
    assert req.path[0] == "api";
    FirstMatchDecides(FilterChain, req, 2);
  }

  /** DELETE below `/api/v1/orders` needs `SCOPE_orders.delete`. */
  lemma OrdersDeleteNeedsDelete(req: Request)
    requires req.verb == DELETE && PathUnder(req.path, OrdersPattern)
    ensures Authorize(FilterChain, req) == Permit <==> Holds(req.principal, DeleteScope)
  {
    assert req.path[0] == "api";
    FirstMatchDecides(FilterChain, req, 3);
  }

  // Any other method below `/api/v1/orders` (PUT, PATCH, ...), and any method
  // elsewhere below `/api/v1`, falls through to the `/api/v1/**` rule: being
  // authenticated is enough.
  lemma OtherApiRequestsNeedAuthentication(req: Request)
    requires PathUnder(req.path, ApiV1Pattern)
    requires PathUnder(req.path, OrdersPattern) ==> req.verb !in {GET, POST, DELETE}
    ensures Authorize(FilterChain, req) == Permit <==> req.principal.Authenticated?
  {
    assert req.path[0] == "api";
    assert req.path[..1] != PublicPattern;
    FirstMatchDecides(FilterChain, req, 4);
  }

  lemma OrdersUnderApiV1(path: seq<string>)
    requires PathUnder(path, OrdersPattern)
    ensures PathUnder(path, ApiV1Pattern)
  {
    assert path[..2] == path[..3][..2];
  }

  /** Everything outside `/public` and `/api/v1` is denied, even to an authenticated caller. */
  lemma EverythingElseDenied(req: Request)
    requires !PathUnder(req.path, PublicPattern) && !PathUnder(req.path, ApiV1Pattern)
    ensures Authorize(FilterChain, req) == Deny
  {
    if PathUnder(req.path, OrdersPattern) {
      OrdersUnderApiV1(req.path);
      assert false;
    }
    FirstMatchDecides(FilterChain, req, 5);
  }

  /** The health toggles live under `/api/state`, which the chain denies to everybody. */
  lemma StateEndpointsDenied(verb: HttpMethod, principal: Principal, flag: string)
    ensures Authorize(FilterChain, Request(verb, ["api", "state", flag], principal)) == Deny
  {
    var path := ["api", "state", flag];
    assert path[..2] != ApiV1Pattern by { assert path[1] == "state"; }
    assert path[..1] != PublicPattern by { assert path[0] == "api"; }
    EverythingElseDenied(Request(verb, path, principal));
  }

  /**
    The whole chain as one statement: a request is let through exactly when it
    is under `/public`, or it is under `/api/v1` from an authenticated caller
    who, for GET, POST and DELETE below `/api/v1/orders`, also holds the
    matching scope.
   */
  lemma FilterChainPolicy(req: Request)
    ensures Authorize(FilterChain, req) == Permit <==> (
      || PathUnder(req.path, PublicPattern)
      || (&& PathUnder(req.path, ApiV1Pattern)
          && req.principal.Authenticated?
          && (PathUnder(req.path, OrdersPattern) && req.verb == GET ==> Holds(req.principal, ReaderScope))
          && (PathUnder(req.path, OrdersPattern) && req.verb == POST ==> Holds(req.principal, CreateScope))
          && (PathUnder(req.path, OrdersPattern) && req.verb == DELETE ==> Holds(req.principal, DeleteScope))))
  {
    if PathUnder(req.path, PublicPattern) {
      PublicIsPermitted(req);
    } else if !PathUnder(req.path, ApiV1Pattern) {
      EverythingElseDenied(req);
    } else if PathUnder(req.path, OrdersPattern) && req.verb == GET {
      OrdersGetNeedsReader(req);
    } else if PathUnder(req.path, OrdersPattern) && req.verb == POST {
      OrdersPostNeedsCreate(req);
    } else if PathUnder(req.path, OrdersPattern) && req.verb == DELETE {
      OrdersDeleteNeedsDelete(req);
    } else {
      OtherApiRequestsNeedAuthentication(req);
    }
  }

  /** For a given request, holding more authorities never turns a permit into a deny. */
  lemma FilterChainMonotone(verb: HttpMethod, path: seq<string>, fewer: set<string>, more: set<string>)
    requires fewer <= more
    requires Authorize(FilterChain, Request(verb, path, Authenticated(fewer))) == Permit
    ensures Authorize(FilterChain, Request(verb, path, Authenticated(more))) == Permit
  {
    FilterChainPolicy(Request(verb, path, Authenticated(fewer)));
    FilterChainPolicy(Request(verb, path, Authenticated(more)));
  }
}
