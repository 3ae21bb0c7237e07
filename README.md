# Order service: authorization pipeline, health toggles and the order aggregate

This project models, in Dafny, the logic of a Spring Boot order service that
goes beyond wiring. There are six parts:

- **Scope parsing** (`ScopeExtractor.extract`). The `scope` claim of a bearer
  token is split on single spaces. Every token that starts with
  `https://api.ekart.com/orders/` becomes the authority
  `SCOPE_orders.<text after its last '/'>`. All other tokens are dropped.
- **Claims to authorities** (`JwtAuthConverter.convert`). Every entry of the
  `cognito:groups` claim becomes `ROLE_<GROUP>`. These roles are joined with
  the scope authorities. An absent claim contributes nothing.
- **URL-level rules** (`SecurityConfig.securityFilterChain`). This is an
  ordered list of (matcher, requirement) rules. The first rule that matches
  decides, and a request no rule matches is denied.
- **Method-level checks** (the `@PreAuthorize` expressions of
  `OrderRestController`). There is one predicate per handler over the
  caller's authorities. It is combined with the request mappings and the
  URL-level rules into one dispatch function.
- **Health toggles** (`StateRestController`). Each endpoint flips the
  liveness or the readiness flag. It answers with a two-entry ordered map:
  the new value, then a description of it.
- **The order aggregate** (`Order.addLineItem`). It creates the line-item
  set on first use and adds the item under `LineItem` equality. That
  equality compares id, name, quantity and price but not the back-reference.
  The item is then pointed at the order.

There is one module per source file:

- `ScopeExtractor.dfy` and `JwtAuthConverter.dfy` each have a specification
  function (a set comprehension). Each also has a method with the source's
  loop, proved equal to that function.
- `SecurityConfig.dfy` and `OrderRestController.dfy` are pure functions over
  requests. Their lemmas characterise every decision.
- `StateRestController.dfy` is a class holding the two flags.
- `Order.dfy` has the classes `Order` and `LineItem`.
- `JavaStrings.dfy` models the few `java.lang.String` operations the core
  relies on:
  - `split(" ")`, including its special cases: a string without a space
    splits into itself, and trailing empty pieces are removed;
  - `startsWith`, `lastIndexOf`, `substring`;
  - `toUpperCase` on ASCII.
- `Wrappers.dfy` holds `Option`, which models a Java `null`.

`StateRestController` maps `POST /api/state/liveness` and
`POST /api/state/readiness`, but the filter chain's final rule,
`anyRequest().denyAll()`, denies every path outside `/public/**` and
`/api/v1/**`. So the code refuses those two endpoints to every caller,
authenticated or not; `SecurityConfig.StateEndpointsDenied` proves this. The
toggles are still modelled as written, as they would behave if reached.

One further consequence of the code is made explicit:
`OrderModel.AddingAnEqualItem` shows what `addLineItem` does with an item
equal to one already stored. The item is not stored, yet its `order` field
still points at the order.

## Model

| member | source | states |
|---|---|---|
| JavaStrings.StartsWith | src/main/java/com/classpathio/order/security/ScopeExtractor.java:19 | `startsWith`: true iff the prefix is no longer than the string and agrees with it character by character (exact, case-sensitive) |
| JavaStrings.LastIndexOf | src/main/java/com/classpathio/order/security/ScopeExtractor.java:20 | `lastIndexOf`: -1 when the character is absent; otherwise an index holding it, with no later occurrence |
| JavaStrings.AfterLast | src/main/java/com/classpathio/order/security/ScopeExtractor.java:20 | `substring(lastIndexOf(c) + 1)` is a suffix of the string that contains no `c`; when shorter than the string, it is preceded by `c` |
| JavaStrings.AfterLastOfTerminatedPrefix | src/main/java/com/classpathio/order/security/ScopeExtractor.java:20 | for a prefix ending in `c` followed by text without `c`, the part after the last `c` is exactly that text |
| JavaStrings.SplitOnSpace | src/main/java/com/classpathio/order/security/ScopeExtractor.java:17 | splitting at every space yields at least one piece, and no piece contains a space |
| JavaStrings.JoinSplit | src/main/java/com/classpathio/order/security/ScopeExtractor.java:17 | joining the pieces with single spaces gives back the original string |
| JavaStrings.SplitJoin | src/main/java/com/classpathio/order/security/ScopeExtractor.java:17 | splitting the space-join of space-free pieces gives back those pieces |
| JavaStrings.SplitNoSpace | src/main/java/com/classpathio/order/security/ScopeExtractor.java:17 | a string without a space splits into itself alone (also the empty string) |
| JavaStrings.SplitConcat | src/main/java/com/classpathio/order/security/ScopeExtractor.java:17 | splitting `a + " " + b` is splitting `a` followed by splitting `b` |
| JavaStrings.DropTrailingEmpty | src/main/java/com/classpathio/order/security/ScopeExtractor.java:17 | the result is a prefix of the pieces that does not end in an empty piece, and every dropped piece is empty |
| JavaStrings.JavaSplit | src/main/java/com/classpathio/order/security/ScopeExtractor.java:17 | `split(" ")` yields only pieces between spaces, and yields every such piece except possibly empty ones |
| JavaStrings.ToUpperCase | src/main/java/com/classpathio/order/security/JwtAuthConverter.java:20 | upper-casing keeps the length and upper-cases each character in place (ASCII letters only) |
| JavaStrings.UpperCaseIsIdempotent | src/main/java/com/classpathio/order/security/JwtAuthConverter.java:20 | upper-casing twice is upper-casing once |
| ScopeExtractor.ScopeAuthorities | src/main/java/com/classpathio/order/security/ScopeExtractor.java:14-22 | the reference definition of the result: one `SCOPE_orders.` authority per accepted token of `split(" ")`; a present claim yields at most as many authorities as `split(" ")` yields tokens |
| ScopeExtractor.Extract | src/main/java/com/classpathio/order/security/ScopeExtractor.java:10-26 | the loop over the split tokens returns exactly the set of `SCOPE_orders.<suffix>` for the accepted tokens (`ScopeAuthorities`) |
| ScopeExtractor.AbsentScopeYieldsNothing | src/main/java/com/classpathio/order/security/ScopeExtractor.java:14-25 | an absent `scope` claim yields the empty set, not an error |
| ScopeExtractor.AuthoritiesAreOrdersScopes | src/main/java/com/classpathio/order/security/ScopeExtractor.java:19-21 | every produced authority starts with `SCOPE_orders.` and its remainder contains no `/` |
| ScopeExtractor.OrdersScopeSuffix | src/main/java/com/classpathio/order/security/ScopeExtractor.java:19-21 | the prefix followed by a `/`-free text is accepted and maps to `SCOPE_orders.` followed by that text |
| ScopeExtractor.ReaderScopeExample | src/main/java/com/classpathio/order/security/ScopeExtractor.java:20-21 | `https://api.ekart.com/orders/reader` maps to `SCOPE_orders.reader` |
| ScopeExtractor.NestedScopeExample | src/main/java/com/classpathio/order/security/ScopeExtractor.java:20 | only the text after the last `/` is kept: `.../orders/admin/delete` maps to `SCOPE_orders.delete` |
| ScopeExtractor.ForeignTokenIgnored | src/main/java/com/classpathio/order/security/ScopeExtractor.java:19 | a token without the exact prefix adds nothing |
| ScopeExtractor.UpperCasePrefixIgnored | src/main/java/com/classpathio/order/security/ScopeExtractor.java:19 | the prefix test is case-sensitive: `HTTPS://api.ekart.com/orders/reader` yields nothing |
| ScopeExtractor.RawSplitSuffices | src/main/java/com/classpathio/order/security/ScopeExtractor.java:17-19 | dropping trailing empty pieces does not change the result, since an empty token is never accepted |
| ScopeExtractor.SameAcceptedTokens | src/main/java/com/classpathio/order/security/ScopeExtractor.java:12-22 | two token lists with the same accepted tokens give the same authorities, whatever their order, repetition or rejected tokens |
| ScopeExtractor.ReorderedClaim | src/main/java/com/classpathio/order/security/ScopeExtractor.java:17 | swapping the two parts of a claim around a space gives the same authorities |
| ScopeExtractor.DuplicatedClaim | src/main/java/com/classpathio/order/security/ScopeExtractor.java:12-21 | a claim repeated twice gives the same authorities as once |
| ScopeExtractor.RepeatedSpaceIgnored | src/main/java/com/classpathio/order/security/ScopeExtractor.java:17-19 | a double space gives the same authorities as a single one |
| ScopeExtractor.AtMostOnePerToken | src/main/java/com/classpathio/order/security/ScopeExtractor.java:17-22 | a token list yields at most as many authorities as it has tokens |
| ScopeExtractor.SingleAcceptedToken | src/main/java/com/classpathio/order/security/ScopeExtractor.java:17-21 | a claim that is one accepted token yields exactly that token's authority |
| ScopeExtractor.SplitTwoTokens | src/main/java/com/classpathio/order/security/ScopeExtractor.java:17 | two space-free tokens joined by one space split into exactly those two |
| ScopeExtractor.TwoAcceptedTokens | src/main/java/com/classpathio/order/security/ScopeExtractor.java:19-21 | two accepted tokens yield exactly their two authorities |
| ScopeExtractor.ReaderCreateExample | src/main/java/com/classpathio/order/security/ScopeExtractor.java:17-21 | the claim `.../orders/reader .../orders/create` yields exactly `{SCOPE_orders.reader, SCOPE_orders.create}` |
| JwtAuthConverter.Authorities | src/main/java/com/classpathio/order/security/JwtAuthConverter.java:15-24 | the reference definition of the result: the roles of the groups together with the scope authorities; its size is exactly the number of roles plus the number of scopes, since none is both |
| JwtAuthConverter.Convert | src/main/java/com/classpathio/order/security/JwtAuthConverter.java:13-24 | the `forEach` over the groups followed by `addAll` of the extracted scopes returns exactly the roles of the groups together with the scope authorities (`Authorities`) |
| JwtAuthConverter.NoGroupsMeansScopesOnly | src/main/java/com/classpathio/order/security/JwtAuthConverter.java:17-24 | with no `cognito:groups` claim the authorities are exactly the scope authorities |
| JwtAuthConverter.GroupGrantsRole | src/main/java/com/classpathio/order/security/JwtAuthConverter.java:19-21 | every group `g` contributes `ROLE_` followed by `g` upper-cased |
| JwtAuthConverter.AdminGroupExample | src/main/java/com/classpathio/order/security/JwtAuthConverter.java:20 | the single group `admin` gives exactly `{ROLE_ADMIN}` |
| JwtAuthConverter.RoleIsNotScope | src/main/java/com/classpathio/order/security/JwtAuthConverter.java:20 | a role authority starts with `ROLE_` and not `SCOPE_orders.`, and a scope authority the other way round |
| JwtAuthConverter.RolesAndScopesDisjoint | src/main/java/com/classpathio/order/security/JwtAuthConverter.java:20-24 | no authority is both a role from the groups and a scope from the claim |
| JwtAuthConverter.AuthoritiesAreRolesOrScopes | src/main/java/com/classpathio/order/security/JwtAuthConverter.java:15-24 | nothing else is added: every authority is a `ROLE_` one from a group or a `SCOPE_orders.` one from the scope claim |
| JwtAuthConverter.MoreClaimsMoreAuthorities | src/main/java/com/classpathio/order/security/JwtAuthConverter.java:17-24 | more groups or more scope tokens never remove an authority |
| SecurityConfig.Authorize | src/main/java/com/classpathio/order/config/SecurityConfig.java:25-37 | a request is permitted iff the rule that decides it (the first that matches) grants the caller access; a request no rule matches is denied |
| SecurityConfig.FilterChain | src/main/java/com/classpathio/order/config/SecurityConfig.java:26-37 | the six rules in declaration order: `/public/**` permit all; GET, POST, DELETE on `/api/v1/orders/**` with their scopes; `/api/v1/**` authenticated; any request denied |
| SecurityConfig.FirstMatch | src/main/java/com/classpathio/order/config/SecurityConfig.java:25-37 | the position found is a matching rule with no matching rule before it; no position means no rule matches |
| SecurityConfig.FirstMatchDecides | src/main/java/com/classpathio/order/config/SecurityConfig.java:25-37 | the first matching rule, and only it, decides permit or deny |
| SecurityConfig.UnmatchedIsDenied | src/main/java/com/classpathio/order/config/SecurityConfig.java:25-37 | a request matched by no rule is denied |
| SecurityConfig.PublicIsPermitted | src/main/java/com/classpathio/order/config/SecurityConfig.java:26 | everything under `/public` is permitted, even to an anonymous caller |
| SecurityConfig.OrdersGetNeedsReader | src/main/java/com/classpathio/order/config/SecurityConfig.java:28-29 | GET under `/api/v1/orders` is permitted iff the caller holds `SCOPE_orders.reader`; roles play no part |
| SecurityConfig.OrdersPostNeedsCreate | src/main/java/com/classpathio/order/config/SecurityConfig.java:31-32 | POST under `/api/v1/orders` is permitted iff the caller holds `SCOPE_orders.create` |
| SecurityConfig.OrdersDeleteNeedsDelete | src/main/java/com/classpathio/order/config/SecurityConfig.java:34-35 | DELETE under `/api/v1/orders` is permitted iff the caller holds `SCOPE_orders.delete` |
| SecurityConfig.OtherApiRequestsNeedAuthentication | src/main/java/com/classpathio/order/config/SecurityConfig.java:36 | any other request under `/api/v1`, including PUT under `/api/v1/orders`, is permitted iff the caller is authenticated |
| SecurityConfig.EverythingElseDenied | src/main/java/com/classpathio/order/config/SecurityConfig.java:37 | any path outside `/public` and `/api/v1` is denied, even to an authenticated caller |
| SecurityConfig.StateEndpointsDenied | src/main/java/com/classpathio/order/config/SecurityConfig.java:37 | the health toggles under `/api/state` are denied to every caller |
| SecurityConfig.FilterChainPolicy | src/main/java/com/classpathio/order/config/SecurityConfig.java:25-37 | the whole chain as one if-and-only-if over path, method, authentication and scopes |
| SecurityConfig.FilterChainMonotone | src/main/java/com/classpathio/order/config/SecurityConfig.java:25-37 | holding more authorities never turns a permit into a deny |
| OrderRestController.Route | src/main/java/com/classpathio/order/controller/OrderRestController.java:23-67 | the request mappings, both ways: on `/api/v1/orders` GET routes to listing and POST to saving; on `/api/v1/orders/{id}` GET routes to fetching and DELETE to deleting, with the id taken from the fourth segment; every other request is routed nowhere |
| OrderRestController.PreAuthorize | src/main/java/com/classpathio/order/controller/OrderRestController.java:30-66 | the four `@PreAuthorize` expressions: each asks for the scope of its handler's URL-level rule; an ADMIN holding that scope passes every one; every handler but listing needs SELLER or ADMIN |
| OrderRestController.Dispatch | src/main/java/com/classpathio/order/controller/OrderRestController.java:23-67 | a request is refused at the filter iff the URL rules deny it, and reaches a handler iff the URL rules permit it, a mapping routes it, and that handler's check passes; the handler reached is the routed one; a permitted request that no mapping routes finds no handler |
| OrderRestController.FetchAllOrdersRequirement | src/main/java/com/classpathio/order/controller/OrderRestController.java:30 | listing is allowed iff `SCOPE_orders.reader` and one of `ROLE_CUSTOMER`, `ROLE_SELLER`, `ROLE_ADMIN` are held |
| OrderRestController.FetchOrderByIdRequirement | src/main/java/com/classpathio/order/controller/OrderRestController.java:46 | fetching one order is allowed iff `SCOPE_orders.reader` and `ROLE_SELLER` or `ROLE_ADMIN` are held |
| OrderRestController.SaveOrderRequirement | src/main/java/com/classpathio/order/controller/OrderRestController.java:59 | saving is allowed iff `SCOPE_orders.create` and `ROLE_SELLER` or `ROLE_ADMIN` are held |
| OrderRestController.DeleteOrderByIdRequirement | src/main/java/com/classpathio/order/controller/OrderRestController.java:66 | deleting is allowed iff `SCOPE_orders.delete` and `ROLE_ADMIN` are held |
| OrderRestController.CustomerReaderExample | src/main/java/com/classpathio/order/controller/OrderRestController.java:30-46 | `{ROLE_CUSTOMER, SCOPE_orders.reader}` may list orders but not fetch one by id |
| OrderRestController.RoutedRequestsAreOrderRequests | src/main/java/com/classpathio/order/controller/OrderRestController.java:23-67 | every mapped handler lies under `/api/v1/orders`: GET for the two fetches, POST for save, DELETE for delete |
| OrderRestController.CombinedCheckIsMethodCheck | src/main/java/com/classpathio/order/controller/OrderRestController.java:30-67 | for a routed request the URL rule and the handler's check together allow exactly what the handler's check allows; an anonymous caller is stopped by the URL rules |
| OrderRestController.PreAuthorizeMonotone | src/main/java/com/classpathio/order/controller/OrderRestController.java:30-66 | each handler check is monotone in the authorities |
| OrderRestController.DispatchMonotone | src/main/java/com/classpathio/order/controller/OrderRestController.java:30-67 | a request that reaches its handler still does with more authorities |
| OrderRestController.CustomerReaderDispatchExample | src/main/java/com/classpathio/order/controller/OrderRestController.java:30-47 | through the whole chain, that customer reaches the listing and is refused by the fetch-by-id check |
| OrderRestController.AdminDeleteAuthorities | src/main/java/com/classpathio/order/security/JwtAuthConverter.java:17-24 | the claims `groups = [admin]`, `scope = .../orders/delete` give exactly `{ROLE_ADMIN, SCOPE_orders.delete}` |
| OrderRestController.AdminDeleteTokenExample | src/main/java/com/classpathio/order/controller/OrderRestController.java:66-67 | from token claims to handler: that token may delete any order |
| StateRestController.ToggledLiveness | src/main/java/com/classpathio/order/controller/StateRestController.java:27-29 | the new liveness state always differs from the current one (CORRECT and BROKEN swap) |
| StateRestController.ToggledReadiness | src/main/java/com/classpathio/order/controller/StateRestController.java:42-44 | the new readiness state always differs from the current one (ACCEPTING_TRAFFIC and REFUSING_TRAFFIC swap) |
| StateRestController.LivenessDescription | src/main/java/com/classpathio/order/controller/StateRestController.java:31 | the description is `System is functioning` iff the state is CORRECT, otherwise `Application is not functioning` |
| StateRestController.ReadinessDescription | src/main/java/com/classpathio/order/controller/StateRestController.java:46 | the description is `System is functioning` iff the state is ACCEPTING_TRAFFIC, otherwise `Application is not functioning` |
| StateRestController.ToggleTwiceRestores | src/main/java/com/classpathio/order/controller/StateRestController.java:28-44 | toggling twice restores the original state |
| StateRestController.Availability.LivenessStateToggle | src/main/java/com/classpathio/order/controller/StateRestController.java:25-38 | liveness becomes its toggle and readiness is unchanged; the response is exactly `liveness` (new state), then `state` (its description) |
| StateRestController.Availability.ReadinessStateToggle | src/main/java/com/classpathio/order/controller/StateRestController.java:40-55 | readiness becomes its toggle and liveness is unchanged; the response is exactly `readiness` (new state), then `state` (its description) |
| StateRestController.LivenessTwice | src/main/java/com/classpathio/order/controller/StateRestController.java:25-38 | two liveness calls restore both flags; the second call reports the original state |
| OrderModel.Order.AddLineItem | src/main/java/com/classpathio/order/model/Order.java:46-53 | the set exists and contains an item equal to `li`, and stays free of equal pairs. A set that was absent becomes exactly `{li}`. The set is unchanged if an equal item was present, else it gains `li` (one more element). The keys gain `li`'s key. `li.order` is this order. id, name, email, price and date are unchanged |
| OrderModel.AddAbsent | src/main/java/com/classpathio/order/model/Order.java:50 | storing an item equal to none present keeps the set free of equal pairs and adds exactly its key |
| OrderModel.AddKey | src/main/java/com/classpathio/order/model/LineItem.java:24 | adding under key equality: the key is present afterwards and nothing is lost; the set is unchanged iff the key was present |
| OrderModel.AddKeySize | src/main/java/com/classpathio/order/model/Order.java:50 | the set grows by one exactly when the key was absent |
| OrderModel.AddKeyIdempotent | src/main/java/com/classpathio/order/model/Order.java:50 | adding an equal item again changes nothing |
| OrderModel.AddKeyCommutes | src/main/java/com/classpathio/order/model/Order.java:50 | the resulting keys do not depend on the order in which items are added (which of two equal items is stored does: the first one stays) |
| OrderModel.AddingAnEqualItem | src/main/java/com/classpathio/order/model/Order.java:50-51 | an item equal to the stored one is not stored, but its `order` still points at the order |

## Left out

- Decoding and verifying the token (signature, issuer, expiry), Spring's evaluation machinery and CSRF configuration are library behaviour. The model starts from the two claims it reads and from a caller that is either anonymous or holds a set of authorities.
- The `JwtAuthenticationToken` that `convert` returns is reduced to its authority set. The `System.out` dumps of the claims and authorities are output only.
- JavaStrings.ToUpperCase: only ASCII letters are upper-cased. The locale-dependent rules of `String.toUpperCase` for other characters are not modelled.
- Only a literal `' '` separator is modelled for `split`, which is what the regular expression `" "` matches. Other whitespace (tabs, newlines) stays inside a token, as in Java.
- OrderRestController.Route: paths are sequences of segments. URL decoding, trailing slashes and Spring MVC's implicit HEAD and OPTIONS handling of mapped handlers are not modelled. A path variable is kept as the segment text. Its conversion to `long`, and the 400 answer for a non-numeric id, are not modelled.
- OrderRestController.Dispatch: Spring's distinction between 401 (no token) and 403 (token without the needed authority) is collapsed into one rejection per layer. `NoHandler` stands for the 404/405 answers.
- The handler bodies only delegate to `OrderService`, which is not part of this model: repository calls, event publishing to SNS, and MDC/correlation-id logging.
- StateRestController.Availability: the source publishes an `AvailabilityChangeEvent`, and Spring applies it to the process-wide availability state. The model updates the flag directly and at once. Concurrent toggles are not modelled, and each call is atomic.
- StateRestController: the response is a `LinkedHashMap<String, Object>`. It is modelled as the ordered sequence of its entries.
- OrderModel.Order.AddLineItem: `lineItems` is a value in the model. In Java it is a reference to a mutable `HashSet` that the Lombok getter, setter and builder share with other code, and `addLineItem` changes that set in place, so every holder of the same set sees the new item. The model does not capture this aliasing.
- OrderModel.LineItem: the fields that equality compares (id, name, qty, price) are fixed once an item exists. Lombok generates setters for them, but changing them on an item already inside a `HashSet` breaks the set, and nothing in the modelled code changes them.
- OrderModel: the `double` prices are kept as opaque 64-bit patterns, and nothing arithmetic is stated about them. A Java `null` for a string or date field, a `null` item passed to `addLineItem`, and `null` elements in the groups claim are not modelled.
- OrderModel.Order.constructor: it stands for an order built before persistence, with no id and no line-item set. JPA id generation, cascading and lazy loading are not modelled.
- `BootstrapAppConfig` (random sample data), `OrderEvent`, `StateChangeHandler`, `AwsConfig`, `ApplicationConfiguration` and `OrderJpaRepository` are wiring, randomness or I/O. They are not part of this model.
