/** The WebSocket API Gateway authorizer response builder: the route ARN it
    builds, the policy document `asdict` renders, and `DENY_ALL_RESPONSE`. */
module AuthorizerResponse {
  import opened Wrappers
  import opened Strings
  import opened Values

  const PolicyVersion: string := "2012-10-17"
  const InvokeAction: string := "execute-api:Invoke"
  const NoStatementsMessage: string := "No statements defined for the policy"
  /** The pattern a route resource must match. */
  const PathRegex: string := "^[/.a-zA-Z0-9-_\\*]+$"

  datatype Effect = Allow | Deny

  function EffectName(e: Effect): string {
    match e
    case Allow => "Allow"
    case Deny => "Deny"
  }

  /** A route added to the builder: its ARN and the conditions given with it. */
  datatype Route = Route(resourceArn: string, conditions: Option<seq<Value>>)

  /** One statement of the policy document. */
  datatype Statement = Statement(effect: Effect, resources: seq<string>, condition: Option<seq<Value>>)

  // ---------------------------------------------------------------------
  // Route ARNs

  /** `resource.lstrip("/")`. */
  function StripLeadingSlashes(s: string): (r: string)
    ensures |r| <= |s| && s[|s| - |r|..] == r
    ensures forall i :: 0 <= i < |s| - |r| ==> s[i] == '/'
    ensures |r| > 0 ==> r[0] != '/'
    decreases |s|
  {
    if |s| > 0 && s[0] == '/' then StripLeadingSlashes(s[1..]) else s
  }

  /** `arn:aws:execute-api:{region}:{account}:{api}/{stage}/{route}`, the route
      without its leading slashes. */
  function RouteArn(region: string, accountId: string, apiId: string, stage: string, resource: string): string {
    "arn:aws:execute-api:" + region + ":" + accountId + ":" + apiId + "/" + stage + "/" + StripLeadingSlashes(resource)
  }

  predicate IsPathChar(c: char) {
    c == '/' || c == '.' || 'a' <= c <= 'z' || 'A' <= c <= 'Z' || '0' <= c <= '9' || c == '-' || c == '_' || c == '*'
  }

  /** A route resource the builder accepts: one or more of `/ . - _ *`,
      letters and digits. */
  predicate ValidResource(s: string) {
    |s| >= 1 && forall i :: 0 <= i < |s| ==> IsPathChar(s[i])
  }

  function InvalidResourceMessage(resource: string): string {
    "Invalid resource path: " + resource + ". Path should match " + PathRegex
  }

  /** The parts of an `execute-api` ARN the builder keeps. */
  datatype ArnParts = ArnParts(region: string, accountId: string, apiId: string, stage: string)

  /** `parse_api_gateway_arn` for a WebSocket authorizer: split on `:`, then
      the sixth part on `/`; too few parts is an IndexError. */
  function ParseRouteArn(arn: string): (r: Result<ArnParts, string>)
    ensures r.Success? <==> |Split(arn, ':')| >= 6 && |Split(Split(arn, ':')[5], '/')| >= 2
  {
    var parts := Split(arn, ':');
    if |parts| < 6 then Failure("list index out of range")
    else
      var ids := Split(parts[5], '/');
      if |ids| < 2 then Failure("list index out of range")
      else Success(ArnParts(parts[3], parts[4], ids[0], ids[1]))
  }

  // ---------------------------------------------------------------------
  // Statements

  predicate HasConditions(route: Route) {
    route.conditions.Some? && |route.conditions.value| > 0
  }

  /** A route with conditions gets a statement of its own, in route order. */
  function ConditionedStatements(effect: Effect, routes: seq<Route>): (sts: seq<Statement>)
    ensures forall i :: 0 <= i < |sts| ==>
      sts[i].effect == effect && |sts[i].resources| == 1
      && sts[i].condition.Some? && |sts[i].condition.value| > 0
    ensures |sts| <= |routes|
    decreases |routes|
  {
    if |routes| == 0 then []
    else
      var r := routes[0];
      (if HasConditions(r) then [Statement(effect, [r.resourceArn], r.conditions)] else [])
      + ConditionedStatements(effect, routes[1..])
  }

  /** The routes without conditions share one statement. */
  function PlainResources(routes: seq<Route>): (arns: seq<string>)
    ensures |arns| <= |routes|
    decreases |routes|
  {
    if |routes| == 0 then []
    else (if HasConditions(routes[0]) then [] else [routes[0].resourceArn]) + PlainResources(routes[1..])
  }

  /** The statements of one effect: the conditioned ones, then the shared one
      when some route has no conditions. */
  function StatementsFor(effect: Effect, routes: seq<Route>): seq<Statement> {
    var plain := PlainResources(routes);
    ConditionedStatements(effect, routes) + (if |plain| > 0 then [Statement(effect, plain, None)] else [])
  }

  function Strs(ss: seq<string>): (vs: seq<Value>)
    ensures |vs| == |ss| && forall i :: 0 <= i < |ss| ==> vs[i] == Str(ss[i])
  {
    seq(|ss|, i requires 0 <= i < |ss| => Str(ss[i]))
  }

  /** A statement as a dict; `Condition` is there exactly when conditions are. */
  function StatementValue(st: Statement): Value {
    Dict([("Action", Str(InvokeAction)), ("Effect", Str(EffectName(st.effect))), ("Resource", List(Strs(st.resources)))]
         + (if st.condition.Some? then [("Condition", List(st.condition.value))] else []))
  }

  /** The response dict: principal and policy document, then the usage
      identifier key and the context when they are given and not empty. */
  function ResponseValue(principalId: string, statements: seq<Statement>,
                         context: Option<seq<(string, Value)>>, usageIdentifierKey: Option<string>): Value
  {
    Dict([("principalId", Str(principalId)),
          ("policyDocument", Dict([("Version", Str(PolicyVersion)),
                                   ("Statement", List(seq(|statements|, i requires 0 <= i < |statements| => StatementValue(statements[i]))))]))]
         + (if usageIdentifierKey.Some? && |usageIdentifierKey.value| > 0
            then [("usageIdentifierKey", Str(usageIdentifierKey.value))] else [])
         + (if context.Some? && |context.value| > 0 then [("context", Dict(context.value))] else []))
  }

  /** `asdict`: Allow statements first, then Deny; no route at all is an error. */
  function Policy(principalId: string, context: Option<seq<(string, Value)>>, usageIdentifierKey: Option<string>,
                  allowRoutes: seq<Route>, denyRoutes: seq<Route>): (r: Result<Value, string>)
    ensures r.Failure? <==> |allowRoutes| == 0 && |denyRoutes| == 0
    ensures r.Failure? ==> r.error == NoStatementsMessage
  {
    if |allowRoutes| == 0 && |denyRoutes| == 0 then Failure(NoStatementsMessage)
    else Success(ResponseValue(principalId, StatementsFor(Allow, allowRoutes) + StatementsFor(Deny, denyRoutes),
                               context, usageIdentifierKey))
  }

  /** DENY_ALL_RESPONSE: one statement denying every resource. */
  const DenyAllResponse: Value := ResponseValue("deny-all-user", [Statement(Deny, ["*"], None)], None, None)

  // ---------------------------------------------------------------------
  // The builder

  class APIGatewayAuthorizerResponseWebSocket {
    const principalId: string
    const region: string
    const awsAccountId: string
    const apiId: string
    const stage: string
    const context: Option<seq<(string, Value)>>
    const usageIdentifierKey: Option<string>
    var allowRoutes: seq<Route>
    var denyRoutes: seq<Route>

    constructor(principalId: string, region: string, awsAccountId: string, apiId: string, stage: string,
                context: Option<seq<(string, Value)>>, usageIdentifierKey: Option<string>)
      ensures this.principalId == principalId && this.region == region && this.awsAccountId == awsAccountId
      ensures this.apiId == apiId && this.stage == stage
      ensures this.context == context && this.usageIdentifierKey == usageIdentifierKey
      ensures allowRoutes == [] && denyRoutes == []
    {
      this.principalId := principalId;
      this.region := region;
      this.awsAccountId := awsAccountId;
      this.apiId := apiId;
      this.stage := stage;
      this.context := context;
      this.usageIdentifierKey := usageIdentifierKey;
      allowRoutes := [];
      denyRoutes := [];
    }

    /** `from_route_arn`: a builder for the API and stage the ARN names. */
    static method FromRouteArn(arn: string, principalId: string, context: Option<seq<(string, Value)>>,
                               usageIdentifierKey: Option<string>)
      returns (r: Result<APIGatewayAuthorizerResponseWebSocket, string>)
      ensures ParseRouteArn(arn).Failure? ==> r == Failure(ParseRouteArn(arn).error)
      ensures ParseRouteArn(arn).Success? ==>
        r.Success? && fresh(r.value)
        && r.value.region == ParseRouteArn(arn).value.region
        && r.value.awsAccountId == ParseRouteArn(arn).value.accountId
        && r.value.apiId == ParseRouteArn(arn).value.apiId
        && r.value.stage == ParseRouteArn(arn).value.stage
        && r.value.principalId == principalId && r.value.context == context
        && r.value.usageIdentifierKey == usageIdentifierKey
        && r.value.allowRoutes == [] && r.value.denyRoutes == []
    {
      var parsed := ParseRouteArn(arn);
      if parsed.Failure? {
        return Failure(parsed.error);
      }
      var p := parsed.value;
      var builder := new APIGatewayAuthorizerResponseWebSocket(principalId, p.region, p.accountId, p.apiId, p.stage,
                                                               context, usageIdentifierKey);
      r := Success(builder);
    }

    function Arn(resource: string): string {
      RouteArn(region, awsAccountId, apiId, stage, resource)
    }

    /** `_add_route`: a resource outside the path pattern is refused. */
    method AddRoute(effect: Effect, resource: string, conditions: Option<seq<Value>>) returns (r: Result<(), string>)
      modifies this`allowRoutes, this`denyRoutes
      ensures !ValidResource(resource) ==>
        r == Failure(InvalidResourceMessage(resource))
        && allowRoutes == old(allowRoutes) && denyRoutes == old(denyRoutes)
      ensures ValidResource(resource) && effect == Allow ==>
        r.Success? && allowRoutes == old(allowRoutes) + [Route(Arn(resource), conditions)] && denyRoutes == old(denyRoutes)
      ensures ValidResource(resource) && effect == Deny ==>
        r.Success? && denyRoutes == old(denyRoutes) + [Route(Arn(resource), conditions)] && allowRoutes == old(allowRoutes)
    {
      if !ValidResource(resource) {
        return Failure(InvalidResourceMessage(resource));
      }
      var route := Route(Arn(resource), conditions);
      if effect == Allow {
        allowRoutes := allowRoutes + [route];
      } else {
        denyRoutes := denyRoutes + [route];
      }
      r := Success(());
    }

    /** `allow_route(resource, conditions)`. */
    method AllowRoute(resource: string, conditions: Option<seq<Value>>) returns (r: Result<(), string>)
      modifies this`allowRoutes, this`denyRoutes
      ensures denyRoutes == old(denyRoutes)
      ensures !ValidResource(resource) ==> r == Failure(InvalidResourceMessage(resource)) && allowRoutes == old(allowRoutes)
      ensures ValidResource(resource) ==> r.Success? && allowRoutes == old(allowRoutes) + [Route(Arn(resource), conditions)]
    {
      r := AddRoute(Allow, resource, conditions);
    }

    /** `deny_route(resource, conditions)`. */
    method DenyRoute(resource: string, conditions: Option<seq<Value>>) returns (r: Result<(), string>)
      modifies this`allowRoutes, this`denyRoutes
      ensures allowRoutes == old(allowRoutes)
      ensures !ValidResource(resource) ==> r == Failure(InvalidResourceMessage(resource)) && denyRoutes == old(denyRoutes)
      ensures ValidResource(resource) ==> r.Success? && denyRoutes == old(denyRoutes) + [Route(Arn(resource), conditions)]
    {
      r := AddRoute(Deny, resource, conditions);
    }

    /** `allow_all_routes`: every route of the stage, resource `*`. */
    method AllowAllRoutes()
      modifies this`allowRoutes, this`denyRoutes
      ensures allowRoutes == old(allowRoutes) + [Route(Arn("*"), None)]
      ensures denyRoutes == old(denyRoutes)
    {
      var _ := AddRoute(Allow, "*", None);
    }

    /** `deny_all_routes`. */
    method DenyAllRoutes()
      modifies this`allowRoutes, this`denyRoutes
      ensures denyRoutes == old(denyRoutes) + [Route(Arn("*"), None)]
      ensures allowRoutes == old(allowRoutes)
    {
      var _ := AddRoute(Deny, "*", None);
    }

    /** `asdict`. */
    function AsDict(): (r: Result<Value, string>)
      reads this`allowRoutes, this`denyRoutes
      ensures r.Failure? <==> |allowRoutes| == 0 && |denyRoutes| == 0
      ensures r.Success? ==> r.value.Dict? && Lookup(r.value.entries, "principalId") == Some(Str(principalId))
    {
      Policy(principalId, context, usageIdentifierKey, allowRoutes, denyRoutes)
    }
  }
}
