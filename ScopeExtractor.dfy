/**
  Turns the space-delimited `scope` claim of a token into scope authorities:
  every token with the exact prefix `https://api.ekart.com/orders/` gives
  `SCOPE_orders.<text after its last '/'>`; every other token is dropped.
 */
module ScopeExtractor {
  import opened Wrappers
  import opened JavaStrings

  const OrdersScopePrefix := "https://api.ekart.com/orders/"
  const ScopeAuthorityPrefix := "SCOPE_orders."

  predicate IsOrdersScope(token: string) {
    StartsWith(token, OrdersScopePrefix)
  }

  /** The authority one accepted token stands for. */
  function ScopeAuthority(token: string): string {
    ScopeAuthorityPrefix + AfterLast(token, '/')
  }

  /** The authorities a sequence of tokens yields: one per accepted token. */
  function ScopeAuthoritiesOf(tokens: seq<string>): set<string> {
    set t | t in tokens && IsOrdersScope(t) :: ScopeAuthority(t)
  }

  /** The authorities of a `scope` claim; an absent claim yields none. */
  function ScopeAuthorities(scope: Option<string>): (r: set<string>)
    ensures scope.Some? ==> |r| <= |JavaSplit(scope.value)|
  {
    match scope
    case None => {}
    case Some(s) =>
      AtMostOnePerToken(JavaSplit(s));
      ScopeAuthoritiesOf(JavaSplit(s))
  }

  /** One more token adds its authority when it is accepted, and nothing otherwise. */
  lemma ScopeAuthoritiesOfSnoc(tokens: seq<string>, t: string)
    ensures ScopeAuthoritiesOf(tokens + [t])
         == ScopeAuthoritiesOf(tokens) + (if IsOrdersScope(t) then {ScopeAuthority(t)} else {})
  {
    assert forall u :: u in tokens + [t] <==> u in tokens || u == t;
  }

  /** What one turn of the loop in `Extract` adds. */
  lemma ExtractStep(tokens: seq<string>, i: nat)
    requires i < |tokens|
    ensures ScopeAuthoritiesOf(tokens[..i + 1])
         == ScopeAuthoritiesOf(tokens[..i])
          + if StartsWith(tokens[i], OrdersScopePrefix)
            then {ScopeAuthorityPrefix + tokens[i][LastIndexOf(tokens[i], '/') + 1..]}
            else {}
  {
    assert tokens[..i + 1] == tokens[..i] + [tokens[i]];
    ScopeAuthoritiesOfSnoc(tokens[..i], tokens[i]);
  }

  /** `ScopeExtractor.extract`: a loop over the split tokens that fills a set. */
  method Extract(scope: Option<string>) returns (authorities: set<string>)
    ensures authorities == ScopeAuthorities(scope)
  {
    authorities := {};
    if scope.Some? {
      var tokens := JavaSplit(scope.value);
      for i := 0 to |tokens|
        invariant authorities == ScopeAuthoritiesOf(tokens[..i])
      {
        var token := tokens[i];
        ExtractStep(tokens, i);
        if StartsWith(token, OrdersScopePrefix) {
          var simple := token[LastIndexOf(token, '/') + 1..];
          authorities := authorities + {ScopeAuthorityPrefix + simple};
        }
      }
      assert tokens[..|tokens|] == tokens;
    }
  }

  /** An absent `scope` claim is not an error: it yields no authority. */
  lemma AbsentScopeYieldsNothing()
    ensures ScopeAuthorities(None) == {}
  {
  }

  /** Every authority produced is `SCOPE_orders.` followed by a '/'-free suffix. */
  lemma AuthoritiesAreOrdersScopes(scope: Option<string>)
    ensures forall a :: a in ScopeAuthorities(scope) ==>
      StartsWith(a, ScopeAuthorityPrefix) && '/' !in a[|ScopeAuthorityPrefix|..]
  {
    forall a | a in ScopeAuthorities(scope)
      ensures StartsWith(a, ScopeAuthorityPrefix) && '/' !in a[|ScopeAuthorityPrefix|..]
    {
      var t :| t in JavaSplit(scope.value) && IsOrdersScope(t) && a == ScopeAuthority(t);
      assert a[|ScopeAuthorityPrefix|..] == AfterLast(t, '/');
    }
  }

  /** An accepted token `https://api.ekart.com/orders/x`, with `x` free of '/', yields `SCOPE_orders.x`. */
  lemma OrdersScopeSuffix(x: string)
    requires '/' !in x
    ensures IsOrdersScope(OrdersScopePrefix + x)
    ensures ScopeAuthority(OrdersScopePrefix + x) == ScopeAuthorityPrefix + x
  {
    AfterLastOfTerminatedPrefix(OrdersScopePrefix, x, '/');
    assert (OrdersScopePrefix + x)[..|OrdersScopePrefix|] == OrdersScopePrefix;
  }

  lemma ReaderScopeExample()
    ensures ScopeAuthority("https://api.ekart.com/orders/reader") == "SCOPE_orders.reader"
  {
    OrdersScopeSuffix("reader");
    assert OrdersScopePrefix + "reader" == "https://api.ekart.com/orders/reader";
  }

  /** Only the text after the LAST '/' is kept: a nested path keeps its final segment only. */
  lemma NestedScopeExample()
    ensures ScopeAuthority("https://api.ekart.com/orders/admin/delete") == "SCOPE_orders.delete"
  {
    AfterLastOfTerminatedPrefix("https://api.ekart.com/orders/admin/", "delete", '/');
    assert "https://api.ekart.com/orders/admin/" + "delete" == "https://api.ekart.com/orders/admin/delete";
  }

  /** The prefix test is exact and case-sensitive: a token not starting with it yields nothing. */
  lemma ForeignTokenIgnored(tokens: seq<string>, t: string)
    requires !IsOrdersScope(t)
    ensures ScopeAuthoritiesOf(tokens + [t]) == ScopeAuthoritiesOf(tokens)
  {
    ScopeAuthoritiesOfSnoc(tokens, t);
  }

  lemma UpperCasePrefixIgnored()
    ensures ScopeAuthorities(Some("HTTPS://api.ekart.com/orders/reader")) == {}
  {
    var t := "HTTPS://api.ekart.com/orders/reader";
    assert t[0] != OrdersScopePrefix[0];
    assert ' ' !in t;
    assert JavaSplit(t) == [t];
  }

  /** Java's `split(" ")` drops trailing empty tokens; the result is as if every piece were kept. */
  lemma RawSplitSuffices(s: string)
    ensures ScopeAuthorities(Some(s)) == ScopeAuthoritiesOf(SplitOnSpace(s))
  {
    assert !IsOrdersScope("");
  }

  /**
    The result only depends on which accepted tokens occur: not on their
    order, their repetition or the rejected tokens around them.
   */
  lemma SameAcceptedTokens(tokens: seq<string>, others: seq<string>)
    requires forall t :: IsOrdersScope(t) ==> (t in tokens <==> t in others)
    ensures ScopeAuthoritiesOf(tokens) == ScopeAuthoritiesOf(others)
  {
  }

  /** Swapping two parts of the claim changes nothing. */
  lemma ReorderedClaim(a: string, b: string)
    ensures ScopeAuthorities(Some(a + " " + b)) == ScopeAuthorities(Some(b + " " + a))
  {
    RawSplitSuffices(a + " " + b);
    RawSplitSuffices(b + " " + a);
    SplitConcat(a, b);
    SplitConcat(b, a);
    SameAcceptedTokens(SplitOnSpace(a) + SplitOnSpace(b), SplitOnSpace(b) + SplitOnSpace(a));
  }

  /** Repeating part of the claim changes nothing. */
  lemma DuplicatedClaim(a: string)
    ensures ScopeAuthorities(Some(a + " " + a)) == ScopeAuthorities(Some(a))
  {
    RawSplitSuffices(a + " " + a);
    RawSplitSuffices(a);
    SplitConcat(a, a);
    SameAcceptedTokens(SplitOnSpace(a) + SplitOnSpace(a), SplitOnSpace(a));
  }

  /** A run of two spaces yields an empty token, which the prefix test drops. */
  lemma RepeatedSpaceIgnored(a: string, b: string)
    ensures ScopeAuthorities(Some(a + "  " + b)) == ScopeAuthorities(Some(a + " " + b))
  {
    var b' := " " + b;
    assert a + "  " + b == a + " " + b';
    assert b' == "" + " " + b;
    SplitConcat(a, b');
    SplitConcat("", b);
    SplitConcat(a, b);
    RawSplitSuffices(a + " " + b');
    RawSplitSuffices(a + " " + b);
    SameAcceptedTokens(SplitOnSpace(a) + SplitOnSpace(b'), SplitOnSpace(a) + SplitOnSpace(b));
  }

  /** At most one authority per token. */
  lemma {:induction false} AtMostOnePerToken(tokens: seq<string>)
    ensures |ScopeAuthoritiesOf(tokens)| <= |tokens|
  {
    if |tokens| > 0 {
      var init, t := tokens[..|tokens| - 1], tokens[|tokens| - 1];
      AtMostOnePerToken(init);
      assert init + [t] == tokens;
      ScopeAuthoritiesOfSnoc(init, t);
    }
  }

  /** A claim made of one accepted token yields exactly that token's authority. */
  lemma SingleAcceptedToken(t: string)
    requires ' ' !in t && IsOrdersScope(t)
    ensures ScopeAuthorities(Some(t)) == {ScopeAuthority(t)}
  {
    assert JavaSplit(t) == [t];
    assert forall u :: u in [t] <==> u == t;
  }

  /** Two space-free tokens joined by one space split back into those two tokens. */
  lemma SplitTwoTokens(r: string, c: string)
    requires ' ' !in r && ' ' !in c
    ensures SplitOnSpace(r + " " + c) == [r, c]
  {
    SplitConcat(r, c);
    SplitNoSpace(r);
    SplitNoSpace(c);
  }

  /** Two accepted tokens yield exactly their two authorities. */
  lemma TwoAcceptedTokens(r: string, c: string)
    requires IsOrdersScope(r) && IsOrdersScope(c)
    ensures ScopeAuthoritiesOf([r, c]) == {ScopeAuthority(r), ScopeAuthority(c)}
  {
    assert forall t :: t in [r, c] <==> t == r || t == c;
  }

  lemma NoSpaceInOrdersScope(x: string)
    requires ' ' !in x
    ensures ' ' !in OrdersScopePrefix + x
  {
    assert ' ' !in OrdersScopePrefix;
  }

  lemma AuthorityNames()
    ensures ScopeAuthorityPrefix + "reader" == "SCOPE_orders.reader"
    ensures ScopeAuthorityPrefix + "create" == "SCOPE_orders.create"
    ensures ScopeAuthorityPrefix + "delete" == "SCOPE_orders.delete"
  {
  }

  /** A claim with a reader and a create token yields exactly those two scope authorities. */
  lemma ReaderCreateExample()
    ensures ScopeAuthorities(Some((OrdersScopePrefix + "reader") + " " + (OrdersScopePrefix + "create")))
         == {"SCOPE_orders.reader", "SCOPE_orders.create"}
  {
    var r := OrdersScopePrefix + "reader";
    var c := OrdersScopePrefix + "create";
    NoSpaceInOrdersScope("reader");
    NoSpaceInOrdersScope("create");
    SplitTwoTokens(r, c);
    RawSplitSuffices(r + " " + c);
    OrdersScopeSuffix("reader");
    OrdersScopeSuffix("create");
    TwoAcceptedTokens(r, c);
    AuthorityNames();
  }
}
