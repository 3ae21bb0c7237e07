/**
  The four order endpoints under `/api/v1/orders` and the method-level
  checks (`@PreAuthorize`) that guard them, behind the URL-level rules of
  `SecurityConfig`.
 */
module OrderRestController {
  import opened Wrappers
  import opened SecurityConfig
  import JwtAuthConverter
  import ScopeExtractor

  /** The handlers; a path variable is kept as the segment it was read from. */
  datatype Endpoint =
    | FetchAllOrders
    | FetchOrderById(id: string)
    | SaveOrder
    | DeleteOrderById(id: string)

  /** The request mappings: `GET ""`, `GET "/{id}"`, `POST ""` and `DELETE "/{id}"` under `/api/v1/orders`. */
  function Route(verb: HttpMethod, path: seq<string>): (r: Option<Endpoint>)
    ensures r.Some? ==> PathUnder(path, OrdersPattern) && (|path| == 3 || |path| == 4)
    ensures r == Some(FetchAllOrders) || r == Some(SaveOrder) ==> |path| == 3
    ensures r.Some? && (r.value.FetchOrderById? || r.value.DeleteOrderById?) ==> |path| == 4 && r.value.id == path[3]
    ensures PathUnder(path, OrdersPattern) && |path| == 3 ==>
      (r == Some(FetchAllOrders) <==> verb == GET) && (r == Some(SaveOrder) <==> verb == POST)
    ensures PathUnder(path, OrdersPattern) && |path| == 4 ==>
      (r == Some(FetchOrderById(path[3])) <==> verb == GET) && (r == Some(DeleteOrderById(path[3])) <==> verb == DELETE)
    ensures r.None? <==> (
      !PathUnder(path, OrdersPattern) ||
      (|path| == 3 && verb != GET && verb != POST) ||
      (|path| == 4 && verb != GET && verb != DELETE) ||
      (|path| != 3 && |path| != 4))
  {
    if !PathUnder(path, OrdersPattern) then None
    else if |path| == 3 then
      if verb == GET then Some(FetchAllOrders)
      else if verb == POST then Some(SaveOrder)
      else None
    else if |path| == 4 then
      if verb == GET then Some(FetchOrderById(path[3]))
      else if verb == DELETE then Some(DeleteOrderById(path[3]))
      else None
    else None
  }

  /** `hasRole('X')`: the authority `ROLE_X` is held. */
  predicate HasRole(authorities: set<string>, role: string) {
    JwtAuthConverter.RolePrefix + role in authorities
  }

  /** `hasAnyRole(...)`: at least one of the roles is held. */
  predicate HasAnyRole(authorities: set<string>, roles: seq<string>) {
    exists r :: r in roles && HasRole(authorities, r)
  }

  /** The scope the URL-level rule for a handler's method and path asks for. */
  function RequiredScope(e: Endpoint): string {
    match e
    case FetchAllOrders => ReaderScope
    case FetchOrderById(_) => ReaderScope
    case SaveOrder => CreateScope
    case DeleteOrderById(_) => DeleteScope
  }

  /**
    The `@PreAuthorize` expression of each handler. Each one asks for the
    scope of its URL-level rule; an ADMIN holding that scope passes every one;
    only listing is open to a CUSTOMER.
   */
  predicate PreAuthorize(e: Endpoint, authorities: set<string>)
    ensures PreAuthorize(e, authorities) ==> RequiredScope(e) in authorities
    ensures HasRole(authorities, "ADMIN") && RequiredScope(e) in authorities ==> PreAuthorize(e, authorities)
    ensures PreAuthorize(e, authorities) && !e.FetchAllOrders? ==>
      HasRole(authorities, "SELLER") || HasRole(authorities, "ADMIN")
  {
    match e
    case FetchAllOrders =>
      ReaderScope in authorities && HasAnyRole(authorities, ["CUSTOMER", "SELLER", "ADMIN"])
    case FetchOrderById(_) =>
      ReaderScope in authorities && HasAnyRole(authorities, ["SELLER", "ADMIN"])
    case SaveOrder =>
      CreateScope in authorities && HasAnyRole(authorities, ["SELLER", "ADMIN"])
    case DeleteOrderById(_) =>
      DeleteScope in authorities && HasRole(authorities, "ADMIN")
  }

  /** What becomes of a request. */
  datatype Outcome =
    | RejectedByFilter           // the URL-level rules deny it
    | NoHandler                  // let through, but no handler is mapped to it
    | RejectedByMethodSecurity   // the handler's `@PreAuthorize` denies it
    | Invoked(endpoint: Endpoint)

  /** The URL-level rules first, then the mapping, then the handler's own check. */
  function Dispatch(req: Request): (o: Outcome)
    ensures o == RejectedByFilter <==> Authorize(FilterChain, req) == Deny
    ensures o.Invoked? <==>
      Authorize(FilterChain, req) == Permit && Route(req.verb, req.path).Some? &&
      req.principal.Authenticated? && PreAuthorize(Route(req.verb, req.path).value, req.principal.authorities)
    ensures o == NoHandler <==> Authorize(FilterChain, req) == Permit && Route(req.verb, req.path).None?
    ensures o.Invoked? ==> Route(req.verb, req.path) == Some(o.endpoint)
  {
    if Authorize(FilterChain, req) == Deny then RejectedByFilter
    else
      match Route(req.verb, req.path)
      case None => NoHandler
      case Some(e) =>
        if req.principal.Authenticated? && PreAuthorize(e, req.principal.authorities) then Invoked(e)
        else RejectedByMethodSecurity
  }

  /** Listing needs `SCOPE_orders.reader` and one of the roles CUSTOMER, SELLER, ADMIN. */
  lemma FetchAllOrdersRequirement(authorities: set<string>)
    ensures PreAuthorize(FetchAllOrders, authorities) <==>
      ReaderScope in authorities &&
      ("ROLE_CUSTOMER" in authorities || "ROLE_SELLER" in authorities || "ROLE_ADMIN" in authorities)
  {
    RoleNames();
    assert HasRole(authorities, "CUSTOMER") ==> HasAnyRole(authorities, ["CUSTOMER", "SELLER", "ADMIN"]);
    assert HasRole(authorities, "SELLER") ==> HasAnyRole(authorities, ["CUSTOMER", "SELLER", "ADMIN"]);
    assert HasRole(authorities, "ADMIN") ==> HasAnyRole(authorities, ["CUSTOMER", "SELLER", "ADMIN"]);
  }

  /** Fetching one order needs `SCOPE_orders.reader` and the role SELLER or ADMIN. */
  lemma FetchOrderByIdRequirement(id: string, authorities: set<string>)
    ensures PreAuthorize(FetchOrderById(id), authorities) <==>
      ReaderScope in authorities && ("ROLE_SELLER" in authorities || "ROLE_ADMIN" in authorities)
  {
    RoleNames();
    assert HasRole(authorities, "SELLER") ==> HasAnyRole(authorities, ["SELLER", "ADMIN"]);
    assert HasRole(authorities, "ADMIN") ==> HasAnyRole(authorities, ["SELLER", "ADMIN"]);
  }

  /** Saving an order needs `SCOPE_orders.create` and the role SELLER or ADMIN. */
  lemma SaveOrderRequirement(authorities: set<string>)
    ensures PreAuthorize(SaveOrder, authorities) <==>
      CreateScope in authorities && ("ROLE_SELLER" in authorities || "ROLE_ADMIN" in authorities)
  {
    RoleNames();
    assert HasRole(authorities, "SELLER") ==> HasAnyRole(authorities, ["SELLER", "ADMIN"]);
    assert HasRole(authorities, "ADMIN") ==> HasAnyRole(authorities, ["SELLER", "ADMIN"]);
  }

  /** Deleting an order needs `SCOPE_orders.delete` and the role ADMIN. */
  lemma DeleteOrderByIdRequirement(id: string, authorities: set<string>)
    ensures PreAuthorize(DeleteOrderById(id), authorities) <==>
      DeleteScope in authorities && "ROLE_ADMIN" in authorities
  {
    RoleNames();
  }

  lemma RoleNames()
    ensures JwtAuthConverter.RolePrefix + "CUSTOMER" == "ROLE_CUSTOMER"
    ensures JwtAuthConverter.RolePrefix + "SELLER" == "ROLE_SELLER"
    ensures JwtAuthConverter.RolePrefix + "ADMIN" == "ROLE_ADMIN"
  {
  }

  /** A customer with the reader scope may list orders but not fetch one by id. */
  lemma CustomerReaderExample(id: string)
    ensures PreAuthorize(FetchAllOrders, {"ROLE_CUSTOMER", ReaderScope})
    ensures !PreAuthorize(FetchOrderById(id), {"ROLE_CUSTOMER", ReaderScope})
  {
    var a := {"ROLE_CUSTOMER", ReaderScope};
    FetchAllOrdersRequirement(a);
    FetchOrderByIdRequirement(id, a);
    assert "ROLE_SELLER" != "ROLE_CUSTOMER" by { assert "ROLE_SELLER"[5] != "ROLE_CUSTOMER"[5]; }
    assert "ROLE_ADMIN" != "ROLE_CUSTOMER" by { assert "ROLE_ADMIN"[5] != "ROLE_CUSTOMER"[5]; }
    assert "ROLE_SELLER" != ReaderScope by { assert "ROLE_SELLER"[0] != ReaderScope[0]; }
    assert "ROLE_ADMIN" != ReaderScope by { assert "ROLE_ADMIN"[0] != ReaderScope[0]; }
  }

  /** Every mapped handler lies below `/api/v1/orders` and answers to GET, POST or DELETE only. */
  lemma RoutedRequestsAreOrderRequests(verb: HttpMethod, path: seq<string>)
    requires Route(verb, path).Some?
    ensures PathUnder(path, OrdersPattern)
    ensures match Route(verb, path).value
      case FetchAllOrders => verb == GET
      case FetchOrderById(_) => verb == GET
      case SaveOrder => verb == POST
      case DeleteOrderById(_) => verb == DELETE
  {
  }

  /**
    Each handler's own check already implies the URL-level rule for its
    method and path, so the two layers together grant exactly what the
    handler's check grants; an anonymous caller reaches no handler.
   */
  lemma CombinedCheckIsMethodCheck(req: Request, e: Endpoint)
    requires Route(req.verb, req.path) == Some(e)
    ensures Dispatch(req) == Invoked(e) <==>
      req.principal.Authenticated? && PreAuthorize(e, req.principal.authorities)
    ensures req.principal.Anonymous? ==> Dispatch(req) == RejectedByFilter
  {
    RoutedRequestsAreOrderRequests(req.verb, req.path);
    match e
    case FetchAllOrders => OrdersGetNeedsReader(req);
    case FetchOrderById(_) => OrdersGetNeedsReader(req);
    case SaveOrder => OrdersPostNeedsCreate(req);
    case DeleteOrderById(_) => OrdersDeleteNeedsDelete(req);
  }

  /** Holding more authorities never turns an allowed call into a denied one. */
  lemma PreAuthorizeMonotone(e: Endpoint, fewer: set<string>, more: set<string>)
    requires fewer <= more
    requires PreAuthorize(e, fewer)
    ensures PreAuthorize(e, more)
  {
  }

  /** The same holds for the whole dispatch. */
  lemma DispatchMonotone(verb: HttpMethod, path: seq<string>, fewer: set<string>, more: set<string>)
    requires fewer <= more
    requires Dispatch(Request(verb, path, Authenticated(fewer))).Invoked?
    ensures Dispatch(Request(verb, path, Authenticated(more))) == Dispatch(Request(verb, path, Authenticated(fewer)))
  {
    var e := Route(verb, path).value;
    CombinedCheckIsMethodCheck(Request(verb, path, Authenticated(fewer)), e);
    CombinedCheckIsMethodCheck(Request(verb, path, Authenticated(more)), e);
    PreAuthorizeMonotone(e, fewer, more);
  }

  /** Through the whole chain: a customer holding the reader scope may list orders but not fetch one. */
  lemma CustomerReaderDispatchExample(id: string)
    ensures Dispatch(Request(GET, OrdersPattern, Authenticated({"ROLE_CUSTOMER", ReaderScope})))
         == Invoked(FetchAllOrders)
    ensures Dispatch(Request(GET, OrdersPattern + [id], Authenticated({"ROLE_CUSTOMER", ReaderScope})))
         == RejectedByMethodSecurity
  {
    CustomerReaderExample(id);
    var list := Request(GET, OrdersPattern, Authenticated({"ROLE_CUSTOMER", ReaderScope}));
    var fetch := Request(GET, OrdersPattern + [id], Authenticated({"ROLE_CUSTOMER", ReaderScope}));
    assert (OrdersPattern + [id])[..3] == OrdersPattern;
    OrdersGetNeedsReader(list);
    OrdersGetNeedsReader(fetch);
  }

  /** The claims of a token in the `admin` group carrying the `orders/delete` scope. */
  function AdminDeleteClaims(): JwtAuthConverter.Claims {
    JwtAuthConverter.Claims(Some(["admin"]), Some(ScopeExtractor.OrdersScopePrefix + "delete"))
  }

  lemma AdminDeleteAuthorities()
    ensures JwtAuthConverter.Authorities(AdminDeleteClaims()) == {"ROLE_ADMIN", DeleteScope}
  {
    var token := ScopeExtractor.OrdersScopePrefix + "delete";
    var roles := JwtAuthConverter.RoleAuthorities(Some(["admin"]));
    var scopes := ScopeExtractor.ScopeAuthorities(Some(token));
    assert roles == {"ROLE_ADMIN"} by {
      JwtAuthConverter.AdminGroupExample();
    }
    assert scopes == {DeleteScope} by {
      ScopeExtractor.NoSpaceInOrdersScope("delete");
      ScopeExtractor.OrdersScopeSuffix("delete");
      ScopeExtractor.SingleAcceptedToken(token);
      ScopeExtractor.AuthorityNames();
    }
    assert JwtAuthConverter.Authorities(AdminDeleteClaims()) == roles + scopes;
  }

  /**
    From token to handler: a token in the `admin` group whose scope claim is
    `https://api.ekart.com/orders/delete` may delete an order.
   */
  lemma AdminDeleteTokenExample(id: string)
    ensures Dispatch(Request(DELETE, OrdersPattern + [id], Authenticated(JwtAuthConverter.Authorities(AdminDeleteClaims()))))
         == Invoked(DeleteOrderById(id))
  {
    AdminDeleteAuthorities();
    var authorities := JwtAuthConverter.Authorities(AdminDeleteClaims());
    var req := Request(DELETE, OrdersPattern + [id], Authenticated(authorities));
    var path := OrdersPattern + [id];
    assert PathUnder(path, OrdersPattern) && |path| == 4 && path[3] == id by {
      assert path[..3] == OrdersPattern;
    }
    assert Route(DELETE, path) == Some(DeleteOrderById(id));
    DeleteOrderByIdRequirement(id, authorities);
    CombinedCheckIsMethodCheck(req, DeleteOrderById(id));
  }
}
