/**
  Maps the claims of a verified token to the authorities of the caller:
  `ROLE_<GROUP>` for every entry of `cognito:groups`, together with the
  scope authorities of the `scope` claim.
 */
module JwtAuthConverter {
  import opened Wrappers
  import opened JavaStrings
  import opened ScopeExtractor

  const RolePrefix := "ROLE_"

  /** The two claims the converter reads; an absent claim is `None`. */
  datatype Claims = Claims(groups: Option<seq<string>>, scope: Option<string>)

  /** The authority one group stands for. */
  function RoleAuthority(group: string): string {
    RolePrefix + ToUpperCase(group)
  }

  /** The role authorities of a list of groups: one per group. */
  function RoleAuthoritiesOf(groups: seq<string>): set<string> {
    set g | g in groups :: RoleAuthority(g)
  }

  /** The role authorities of a `cognito:groups` claim; an absent claim yields none. */
  function RoleAuthorities(groups: Option<seq<string>>): set<string> {
    match groups
    case None => {}
    case Some(gs) => RoleAuthoritiesOf(gs)
  }

  lemma RoleAuthoritiesOfSnoc(groups: seq<string>, g: string)
    ensures RoleAuthoritiesOf(groups + [g]) == RoleAuthoritiesOf(groups) + {RoleAuthority(g)}
  {
    assert forall h :: h in groups + [g] <==> h in groups || h == g;
  }

  /**
    All authorities of a token: its roles and its scopes, and nothing else.
    No role is also a scope, so none is counted twice.
   */
  function Authorities(claims: Claims): (r: set<string>)
    ensures |r| == |RoleAuthorities(claims.groups)| + |ScopeAuthorities(claims.scope)|
  {
    RolesAndScopesDisjoint(claims.groups, claims.scope);
    RoleAuthorities(claims.groups) + ScopeAuthorities(claims.scope)
  }

  /** `JwtAuthConverter.convert`: fills a set with the roles, then adds the extracted scopes. */
  method Convert(claims: Claims) returns (authorities: set<string>)
    ensures authorities == Authorities(claims)
  {
    authorities := {};
    if claims.groups.Some? {
      var groups := claims.groups.value;
      for i := 0 to |groups|
        invariant authorities == RoleAuthoritiesOf(groups[..i])
      {
        RoleAuthoritiesOfSnoc(groups[..i], groups[i]);
        assert groups[..i + 1] == groups[..i] + [groups[i]];
        authorities := authorities + {RolePrefix + ToUpperCase(groups[i])};
      }
      assert groups[..|groups|] == groups;
    }
    var scopes := Extract(claims.scope);
    authorities := authorities + scopes;
  }

  /** Without a `cognito:groups` claim the authorities are exactly the scope authorities. */
  lemma NoGroupsMeansScopesOnly(scope: Option<string>)
    ensures Authorities(Claims(None, scope)) == ScopeAuthorities(scope)
  {
  }

  /** Every group contributes `ROLE_` followed by its upper-cased name. */
  lemma GroupGrantsRole(claims: Claims, g: string)
    requires claims.groups.Some? && g in claims.groups.value
    ensures RolePrefix + ToUpperCase(g) in Authorities(claims)
  {
  }

  lemma AdminGroupExample()
    ensures Authorities(Claims(Some(["admin"]), None)) == {"ROLE_ADMIN"}
  {
    var u := ToUpperCase("admin");
    assert u[0] == 'A' && u[1] == 'D' && u[2] == 'M' && u[3] == 'I' && u[4] == 'N';
    assert u == "ADMIN";
    assert RoleAuthority("admin") == "ROLE_ADMIN";
    assert forall g :: g in ["admin"] <==> g == "admin";
    assert RoleAuthoritiesOf(["admin"]) == {"ROLE_ADMIN"};
  }

  /** A role authority starts with `ROLE_`, which no scope authority does. */
  lemma RoleIsNotScope(group: string, token: string)
    ensures StartsWith(RoleAuthority(group), RolePrefix)
    ensures !StartsWith(RoleAuthority(group), ScopeAuthorityPrefix)
    ensures StartsWith(ScopeAuthority(token), ScopeAuthorityPrefix)
    ensures !StartsWith(ScopeAuthority(token), RolePrefix)
  {
    assert RoleAuthority(group)[0] == 'R';
    assert ScopeAuthority(token)[0] == 'S';
  }

  /** Groups can never produce a scope authority, nor scopes a role. */
  lemma RolesAndScopesDisjoint(groups: Option<seq<string>>, scope: Option<string>)
    ensures RoleAuthorities(groups) * ScopeAuthorities(scope) == {}
  {
    forall a | a in RoleAuthorities(groups) ensures a !in ScopeAuthorities(scope) {
      var g :| g in groups.value && a == RoleAuthority(g);
      RoleIsNotScope(g, "");
      AuthoritiesAreOrdersScopes(scope);
    }
  }

  /**
    Nothing else is added: every authority is a `ROLE_` one that comes from a
    group, or a `SCOPE_orders.` one that comes from the scope claim.
   */
  lemma AuthoritiesAreRolesOrScopes(claims: Claims, a: string)
    requires a in Authorities(claims)
    ensures StartsWith(a, RolePrefix) ==> a in RoleAuthorities(claims.groups)
    ensures StartsWith(a, ScopeAuthorityPrefix) ==> a in ScopeAuthorities(claims.scope)
    ensures StartsWith(a, RolePrefix) || StartsWith(a, ScopeAuthorityPrefix)
  {
    AuthoritiesAreOrdersScopes(claims.scope);
    if a in RoleAuthorities(claims.groups) {
      var g :| g in claims.groups.value && a == RoleAuthority(g);
      RoleIsNotScope(g, "");
    } else {
      assert a[0] == 'S';
    }
  }

  /**
    More groups or more scope tokens never take an authority away: the
    roles of `groups` survive any extra groups and any extra scope text, and
    so do the scopes of `scope`.
   */
  lemma MoreClaimsMoreAuthorities(groups: seq<string>, moreGroups: seq<string>, scope: string, moreScope: string)
    ensures Authorities(Claims(Some(groups), Some(scope)))
         <= Authorities(Claims(Some(groups + moreGroups), Some(scope + " " + moreScope)))
  {
    RawSplitSuffices(scope);
    RawSplitSuffices(scope + " " + moreScope);
    SplitConcat(scope, moreScope);
    assert forall g :: g in groups ==> g in groups + moreGroups;
    assert forall t :: t in SplitOnSpace(scope) ==> t in SplitOnSpace(scope) + SplitOnSpace(moreScope);
  }
}
