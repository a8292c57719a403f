/** Properties of the authorizer response: ARN parsing inverts ARN building,
    every route lands in exactly one statement, and the optional keys appear
    exactly when they are given. */
module AuthorizerProperties {
  import opened Wrappers
  import opened Strings
  import opened Values
  import opened AuthorizerResponse

  // ---------------------------------------------------------------------
  // Route ARNs

  /** `"/foo"` and `"foo"` name the same route. */
  lemma LeadingSlashIgnored(region: string, accountId: string, apiId: string, stage: string, resource: string)
    ensures RouteArn(region, accountId, apiId, stage, "/" + resource) == RouteArn(region, accountId, apiId, stage, resource)
  {
    assert ("/" + resource)[1..] == resource;
  }

  /** A route that does not start with `/` is kept verbatim, underscores and all. */
  lemma RouteKeptVerbatim(region: string, accountId: string, apiId: string, stage: string, resource: string)
    requires |resource| == 0 || resource[0] != '/'
    ensures RouteArn(region, accountId, apiId, stage, resource)
         == "arn:aws:execute-api:" + region + ":" + accountId + ":" + apiId + "/" + stage + "/" + resource
  {
  }

  lemma NoColonAfterStrip(resource: string)
    requires ':' !in resource
    ensures ':' !in StripLeadingSlashes(resource)
  {
    var route := StripLeadingSlashes(resource);
    forall i | 0 <= i < |route| ensures route[i] != ':' {
      assert route[i] == resource[|resource| - |route| + i];
    }
  }

  lemma SixFields(p0: string, p1: string, p2: string, p3: string, p4: string, p5: string)
    requires ':' !in p0 && ':' !in p1 && ':' !in p2 && ':' !in p3 && ':' !in p4 && ':' !in p5
    ensures Split(p0 + [':'] + (p1 + [':'] + (p2 + [':'] + (p3 + [':'] + (p4 + [':'] + p5)))), ':')
         == [p0, p1, p2, p3, p4, p5]
  {
    SplitNoSep(p5, ':');
    SplitPrefix(p4, p5, ':');
    SplitPrefix(p3, p4 + [':'] + p5, ':');
    SplitPrefix(p2, p3 + [':'] + (p4 + [':'] + p5), ':');
    SplitPrefix(p1, p2 + [':'] + (p3 + [':'] + (p4 + [':'] + p5)), ':');
    SplitPrefix(p0, p1 + [':'] + (p2 + [':'] + (p3 + [':'] + (p4 + [':'] + p5))), ':');
  }

  lemma RegroupFields(p0: string, p1: string, p2: string, p3: string, p4: string, p5: string, c: string)
    ensures (p0 + c + p1 + c + p2 + c) + p3 + c + p4 + c + p5
         == p0 + c + (p1 + c + (p2 + c + (p3 + c + (p4 + c + p5))))
  {
  }

  lemma ArnFields(region: string, accountId: string, tail: string)
    requires ':' !in region && ':' !in accountId && ':' !in tail
    ensures Split("arn:aws:execute-api:" + region + ":" + accountId + ":" + tail, ':')
         == ["arn", "aws", "execute-api", region, accountId, tail]
  {
    var arn, aws, api := "arn", "aws", "execute-api";
    assert ':' !in arn && ':' !in aws && ':' !in api;
    assert "arn:aws:execute-api:" == arn + [':'] + aws + [':'] + api + [':'];
    RegroupFields(arn, aws, api, region, accountId, tail, [':']);
    SixFields(arn, aws, api, region, accountId, tail);
  }

  lemma IdFields(apiId: string, stage: string, route: string)
    requires '/' !in apiId && '/' !in stage
    ensures |Split(apiId + "/" + stage + "/" + route, '/')| >= 2
    ensures Split(apiId + "/" + stage + "/" + route, '/')[..2] == [apiId, stage]
  {
    SplitPrefix(stage, route, '/');
    SplitPrefix(apiId, stage + ['/'] + route, '/');
    assert apiId + "/" + stage + "/" + route == apiId + ['/'] + (stage + ['/'] + route);
  }

  /** The wildcard route used by allow_all_routes and deny_all_routes covers
      the whole stage: the stage ARN followed by a star. */
  lemma WildcardArn(region: string, accountId: string, apiId: string, stage: string)
    ensures RouteArn(region, accountId, apiId, stage, "*")
         == "arn:aws:execute-api:" + region + ":" + accountId + ":" + apiId + "/" + stage + "/*"
  {
    var prefix := "arn:aws:execute-api:" + region + ":" + accountId + ":" + apiId + "/" + stage;
    assert StripLeadingSlashes("*") == "*";
    assert prefix + "/" + "*" == prefix + "/*";
  }

  lemma RouteArnLayout(region: string, accountId: string, apiId: string, stage: string, resource: string)
    ensures RouteArn(region, accountId, apiId, stage, resource)
         == "arn:aws:execute-api:" + region + ":" + accountId + ":" + (apiId + "/" + stage + "/" + StripLeadingSlashes(resource))
  {
    var head := "arn:aws:execute-api:" + region + ":" + accountId + ":";
    Regroup(head, apiId, "/", stage, "/", StripLeadingSlashes(resource));
  }

  lemma Regroup(x: string, a: string, b: string, c: string, d: string, e: string)
    ensures x + a + b + c + d + e == x + (a + b + c + d + e)
  {
  }

  /** Parsing a route ARN the builder wrote gives back its region, account, API
      and stage. */
  lemma ParseRouteArnInverse(region: string, accountId: string, apiId: string, stage: string, resource: string)
    requires ':' !in region && ':' !in accountId && ':' !in apiId && ':' !in stage && ':' !in resource
    requires '/' !in apiId && '/' !in stage
    ensures ParseRouteArn(RouteArn(region, accountId, apiId, stage, resource))
         == Success(ArnParts(region, accountId, apiId, stage))
  {
    var route := StripLeadingSlashes(resource);
    var tail := apiId + "/" + stage + "/" + route;
    var parts := Split(RouteArn(region, accountId, apiId, stage, resource), ':');
    assert parts == ["arn", "aws", "execute-api", region, accountId, tail] by {
      NoColonAfterStrip(resource);
      RouteArnLayout(region, accountId, apiId, stage, resource);
      ArnFields(region, accountId, tail);
    }
    IdFields(apiId, stage, route);
  }

  /** An ARN with fewer than six `:`-separated parts is refused. */
  lemma ParseRouteArnShort(arn: string)
    requires |Split(arn, ':')| < 6
    ensures ParseRouteArn(arn) == Failure("list index out of range")
  {
  }

  // ---------------------------------------------------------------------
  // Statements

  /** The ARNs of the routes, in order. */
  function Arns(routes: seq<Route>): (arns: seq<string>)
    ensures |arns| == |routes|
    decreases |routes|
  {
    if |routes| == 0 then [] else [routes[0].resourceArn] + Arns(routes[1..])
  }

  function Resources(sts: seq<Statement>): seq<string>
    decreases |sts|
  {
    if |sts| == 0 then [] else sts[0].resources + Resources(sts[1..])
  }

  lemma {:induction false} ResourcesAppend(a: seq<Statement>, b: seq<Statement>)
    ensures Resources(a + b) == Resources(a) + Resources(b)
    decreases |a|
  {
    if |a| == 0 {
      assert a + b == b;
    } else {
      assert (a + b)[1..] == a[1..] + b;
      ResourcesAppend(a[1..], b);
    }
  }

  lemma SplitRoutesStep(effect: Effect, routes: seq<Route>)
    requires |routes| > 0
    ensures HasConditions(routes[0]) ==>
      Resources(ConditionedStatements(effect, routes))
        == [routes[0].resourceArn] + Resources(ConditionedStatements(effect, routes[1..]))
      && PlainResources(routes) == PlainResources(routes[1..])
    ensures !HasConditions(routes[0]) ==>
      Resources(ConditionedStatements(effect, routes)) == Resources(ConditionedStatements(effect, routes[1..]))
      && PlainResources(routes) == [routes[0].resourceArn] + PlainResources(routes[1..])
  {
    var r := routes[0];
    if HasConditions(r) {
      var head := [Statement(effect, [r.resourceArn], r.conditions)];
      assert ConditionedStatements(effect, routes) == head + ConditionedStatements(effect, routes[1..]);
      ResourcesAppend(head, ConditionedStatements(effect, routes[1..]));
      assert Resources(head) == [r.resourceArn];
    } else {
      assert ConditionedStatements(effect, routes) == ConditionedStatements(effect, routes[1..]);
    }
  }

  lemma ConsPermutes(x: string, a: seq<string>, p: seq<string>, a': seq<string>, p': seq<string>, rest: seq<string>)
    requires (a == [x] + a' && p == p') || (a == a' && p == [x] + p')
    requires multiset(a' + p') == multiset(rest)
    ensures multiset(a + p) == multiset([x] + rest)
  {
    if a == [x] + a' && p == p' {
      assert a + p == [x] + (a' + p');
    } else {
      assert multiset(a + p) == multiset(a') + multiset([x]) + multiset(p');
    }
  }

  lemma {:induction false} SplitRoutes(effect: Effect, routes: seq<Route>)
    ensures multiset(Resources(ConditionedStatements(effect, routes)) + PlainResources(routes))
         == multiset(Arns(routes))
    decreases |routes|
  {
    if |routes| > 0 {
      SplitRoutes(effect, routes[1..]);
      SplitRoutesStep(effect, routes);
      ConsPermutes(routes[0].resourceArn,
                   Resources(ConditionedStatements(effect, routes)), PlainResources(routes),
                   Resources(ConditionedStatements(effect, routes[1..])), PlainResources(routes[1..]),
                   Arns(routes[1..]));
    }
  }

  /** Every route's ARN appears in the statements of its effect exactly as many
      times as the route was added: conditioned routes in statements of their
      own, the others in the shared statement. */
  lemma StatementsPartitionRoutes(effect: Effect, routes: seq<Route>)
    ensures multiset(Resources(StatementsFor(effect, routes))) == multiset(Arns(routes))
  {
    var plain := PlainResources(routes);
    var shared := if |plain| > 0 then [Statement(effect, plain, None)] else [];
    ResourcesAppend(ConditionedStatements(effect, routes), shared);
    assert Resources(shared) == plain;
    SplitRoutes(effect, routes);
  }

  lemma {:induction false} ConditionedListed(effect: Effect, routes: seq<Route>, i: nat)
    requires i < |routes| && HasConditions(routes[i])
    ensures Statement(effect, [routes[i].resourceArn], routes[i].conditions) in ConditionedStatements(effect, routes)
    decreases |routes|
  {
    if i > 0 {
      ConditionedListed(effect, routes[1..], i - 1);
    }
  }

  /** A statement carries a Condition only for a route given non-empty
      conditions, and then carries them as given; the shared statement has none. */
  lemma ConditionsVerbatim(effect: Effect, routes: seq<Route>, i: nat)
    requires i < |routes|
    ensures HasConditions(routes[i]) ==>
      Statement(effect, [routes[i].resourceArn], routes[i].conditions) in StatementsFor(effect, routes)
    ensures forall st :: st in StatementsFor(effect, routes) && st.condition.Some? ==>
      |st.condition.value| > 0 && |st.resources| == 1 && st.effect == effect
  {
    if HasConditions(routes[i]) {
      ConditionedListed(effect, routes, i);
    }
  }

  /** One route gives one statement, with a Condition only when conditions were
      given and are not empty. */
  lemma SingleRoute(effect: Effect, route: Route)
    ensures StatementsFor(effect, [route])
         == [Statement(effect, [route.resourceArn], if HasConditions(route) then route.conditions else None)]
  {
    assert [route][1..] == [];
    assert ConditionedStatements(effect, []) == [] && PlainResources([]) == [];
    if HasConditions(route) {
      assert ConditionedStatements(effect, [route]) == [Statement(effect, [route.resourceArn], route.conditions)];
      assert PlainResources([route]) == [];
    } else {
      assert ConditionedStatements(effect, [route]) == [];
      assert PlainResources([route]) == [route.resourceArn];
    }
  }

  // ---------------------------------------------------------------------
  // The response

  /** No route at all: "No statements defined for the policy". */
  lemma NoStatements(principalId: string, context: Option<seq<(string, Value)>>, key: Option<string>)
    ensures Policy(principalId, context, key, [], []) == Failure("No statements defined for the policy")
  {
  }

  /** Version and principal are always there; `usageIdentifierKey` and
      `context` are there exactly when given and not empty. */
  lemma ResponseKeys(principalId: string, statements: seq<Statement>,
                     context: Option<seq<(string, Value)>>, key: Option<string>)
    ensures ResponseValue(principalId, statements, context, key).Dict?
    ensures Lookup(ResponseValue(principalId, statements, context, key).entries, "principalId") == Some(Str(principalId))
    ensures Lookup(ResponseValue(principalId, statements, context, key).entries, "usageIdentifierKey").Some?
        <==> key.Some? && |key.value| > 0
    ensures key.Some? && |key.value| > 0 ==>
      Lookup(ResponseValue(principalId, statements, context, key).entries, "usageIdentifierKey") == Some(Str(key.value))
    ensures Lookup(ResponseValue(principalId, statements, context, key).entries, "context").Some?
        <==> context.Some? && |context.value| > 0
    ensures context.Some? && |context.value| > 0 ==>
      Lookup(ResponseValue(principalId, statements, context, key).entries, "context") == Some(Dict(context.value))
  {
    var r := ResponseValue(principalId, statements, context, key);
    var ks := Keys(r.entries);
    assert ks[0] == "principalId" && ks[1] == "policyDocument";
    var hasKey := key.Some? && |key.value| > 0;
    var hasContext := context.Some? && |context.value| > 0;
    assert |ks| == 2 + (if hasKey then 1 else 0) + (if hasContext then 1 else 0);
    assert hasKey ==> ks[2] == "usageIdentifierKey";
    assert hasContext ==> ks[|ks| - 1] == "context";
    assert "usageIdentifierKey" in ks <==> hasKey;
    assert "context" in ks <==> hasContext;
    if hasKey {
      assert KeyIndex(ks, "usageIdentifierKey") == 2;
    }
    if hasContext {
      assert KeyIndex(ks, "context") == |ks| - 1;
    }
  }

  /** The policy document: version "2012-10-17" and the statements in order,
      each with Action "execute-api:Invoke". */
  lemma PolicyDocument(principalId: string, statements: seq<Statement>,
                       context: Option<seq<(string, Value)>>, key: Option<string>)
    ensures Lookup(ResponseValue(principalId, statements, context, key).entries, "policyDocument")
         == Some(Dict([("Version", Str("2012-10-17")),
                       ("Statement", List(seq(|statements|, i requires 0 <= i < |statements| => StatementValue(statements[i]))))]))
    ensures forall st: Statement :: (Lookup(StatementValue(st).entries, "Action") == Some(Str("execute-api:Invoke")))
  {
    var ks := Keys(ResponseValue(principalId, statements, context, key).entries);
    assert ks[0] == "principalId" && ks[1] == "policyDocument";
    assert KeyIndex(ks, "policyDocument") == 1;
  }

  /** Allowing a single route without conditions, and denying none, gives one
      Allow statement for that route. */
  lemma AllowOneRoute(principalId: string, arn: string, context: Option<seq<(string, Value)>>, key: Option<string>)
    ensures Policy(principalId, context, key, [Route(arn, None)], [])
         == Success(ResponseValue(principalId, [Statement(Allow, [arn], None)], context, key))
  {
    SingleRoute(Allow, Route(arn, None));
    assert StatementsFor(Deny, []) == [] by {
      assert ConditionedStatements(Deny, []) == [] && PlainResources([]) == [];
    }
    assert StatementsFor(Allow, [Route(arn, None)]) + StatementsFor(Deny, []) == [Statement(Allow, [arn], None)];
  }

  /** A builder made from a route ARN that allows every route: one Allow
      statement for every route of the stage, in the ARN's region and account. */
  lemma AllowAllFromArn(principalId: string, region: string, accountId: string, apiId: string, stage: string,
                        resource: string, context: Option<seq<(string, Value)>>, key: Option<string>)
    requires ':' !in region && ':' !in accountId && ':' !in apiId && ':' !in stage && ':' !in resource
    requires '/' !in apiId && '/' !in stage
    ensures ParseRouteArn(RouteArn(region, accountId, apiId, stage, resource)).Success?
    ensures var p := ParseRouteArn(RouteArn(region, accountId, apiId, stage, resource)).value;
      Policy(principalId, context, key, [Route(RouteArn(p.region, p.accountId, p.apiId, p.stage, "*"), None)], [])
      == Success(ResponseValue(principalId,
           [Statement(Allow, [RouteArn(region, accountId, apiId, stage, "*")], None)],
           context, key))
  {
    ParseRouteArnInverse(region, accountId, apiId, stage, resource);
    AllowOneRoute(principalId, RouteArn(region, accountId, apiId, stage, "*"), context, key);
  }

  /** DENY_ALL_RESPONSE holds exactly one statement: Deny on every resource. */
  lemma DenyAllSingleStatement()
    ensures DenyAllResponse.Dict?
    ensures Lookup(DenyAllResponse.entries, "principalId") == Some(Str("deny-all-user"))
    ensures Lookup(DenyAllResponse.entries, "policyDocument")
         == Some(Dict([("Version", Str("2012-10-17")),
                       ("Statement", List([Dict([("Action", Str("execute-api:Invoke")), ("Effect", Str("Deny")),
                                                 ("Resource", List([Str("*")]))])]))]))
  {
    PolicyDocument("deny-all-user", [Statement(Deny, ["*"], None)], None, None);
    var st := Statement(Deny, ["*"], None);
    assert Strs(["*"]) == [Str("*")];
    assert StatementValue(st) == Dict([("Action", Str("execute-api:Invoke")), ("Effect", Str("Deny")), ("Resource", List([Str("*")]))]);
    assert seq(1, i requires 0 <= i < 1 => StatementValue([st][i])) == [StatementValue(st)];
  }
}
