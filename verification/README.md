# Data masking and the WebSocket authorizer response, in Dafny

This project models two parts of the Powertools for AWS Lambda (Python) utilities.

**Data masking.** `DataMasking.erase` hides sensitive values in three modes:

- **Whole value.** A scalar becomes the sentinel `*****`. A list, tuple or set is masked element by element. A dictionary becomes the sentinel unless a mask option is given, in which case it is masked value by value and keeps its keys.
- **Fields.** A list of JSONPath-like expressions. Each one is parsed and found in the data, and every location it finds is masked. An expression that matches nothing raises an error or only warns, depending on `raise_on_missing_field`. A string is decoded as JSON first.
- **Masking rules.** A map from path to options. Each rule masks the rendered value of what it finds. Unmatched paths, bad paths and provider failures only warn.

The mask options are taken in priority order: custom mask, then dynamic mask (one `*` per character), then regex with a format string, then the sentinel. A compiled regex is kept in a cache keyed by its pattern. `_mask_nested_field` walks a dotted key path through nested dictionaries and rewrites the leaf in place. `encrypt` and `decrypt` are not implemented in this provider and always fail.

**WebSocket authorizer response.** `APIGatewayAuthorizerResponseWebSocket` builds an IAM policy for an API Gateway WebSocket authorizer:

- It can be created directly, or from a route ARN.
- It collects allowed and denied routes. Each route is an `execute-api` ARN, and some routes carry an IAM condition.
- `asdict` produces the response: a principal id, a `2012-10-17` policy document with one `execute-api:Invoke` statement per effect group, and optionally a usage identifier key and a context.
- `DENY_ALL_RESPONSE` is a constant that denies every route.

**Modules.**

| Module | What it holds |
|---|---|
| `Values` | Python values as a datatype: dictionaries keep insertion order and sets keep iteration order. Also locations, lookup and update at a location, rendering as `str()`, and the JSON round trip. |
| `JsonPath` | The path grammar: `.`, `..` and quoted names. Its parser and printer, and the search for a path in a value. |
| `Masking` | The mask rules and masking of one value. |
| `Erasure` | The three erase modes, with their errors and warnings, as functions. |
| `DataMasking` | The `DataMasking` class. Its methods carry the regex cache and perform the loops, including the in-place nested-field update. Each method is proved equal to the `Erasure` function it implements. |
| `ErasureProperties` | Lemmas about `Erasure`. |
| `AuthorizerResponse` | The builder class, the route ARN and the policy. |
| `AuthorizerProperties` | Lemmas about the authorizer. |

Source paths below are relative to the repository root. The repository's behaviour is given by its tests, so each row cites the test that shows the behaviour the member states.

## Model

| member | source | states |
|---|---|---|
| Strings.JoinSplit | tests/unit/data_masking/required_dependencies/test_base_functions.py:16 | Splitting a dotted field path on `.` and joining the parts again gives back the path. |
| Strings.SplitJoin | tests/unit/data_masking/required_dependencies/test_base_functions.py:27 | Joining keys that contain no `.` and splitting the result gives back exactly those keys. |
| Strings.Stars | tests/functional/data_masking/required_dependencies/test_erase_data_masking.py:301-308 | The dynamic mask of length n has n characters, all of them `*`. |
| Values.Lookup | tests/functional/data_masking/required_dependencies/test_erase_data_masking.py:105-124 | A key is found iff it is among the dictionary's keys, and the value found is that key's entry. |
| Values.Store | tests/functional/data_masking/required_dependencies/test_erase_data_masking.py:105-124 | Overwriting a key keeps the key order, and every other key still maps to its old value. |
| Values.AtSetAtSame | tests/functional/data_masking/required_dependencies/test_erase_data_masking.py:105-124 | After writing at an existing location, reading there gives the written value. |
| Values.AtSetAtApart | tests/functional/data_masking/required_dependencies/test_erase_data_masking.py:105-124 | Writing at one location leaves every location that is not its prefix or extension unchanged. |
| Values.SetAtMissing | tests/functional/data_masking/required_dependencies/test_erase_data_masking.py:202-218 | Writing at a location that does not exist leaves the value unchanged. |
| Values.JsonRoundTripOfJson | tests/functional/data_masking/required_dependencies/test_erase_data_masking.py:126-147 | Encoding a JSON value and decoding it again gives back that value. |
| Values.JsonRoundTripIsJson | tests/functional/data_masking/required_dependencies/test_erase_data_masking.py:126-147 | Whatever survives the JSON round trip is JSON: no tuples, no sets, string keys. |
| JsonPath.ParseFormat | tests/functional/data_masking/required_dependencies/test_erase_data_masking.py:105-124 | Parsing the printed form of a path gives back that path. This covers `.`, `..` and quoted names without a quote in them. |
| JsonPath.TrailingDotRejected | tests/functional/data_masking/required_dependencies/test_erase_data_masking.py:478-488 | Any expression that ends in `.` fails to parse, for example `user.ssn...`. |
| JsonPath.FindSound | tests/functional/data_masking/required_dependencies/test_erase_data_masking.py:105-124 | Every location a path finds exists in the data. |
| JsonPath.DescendFindComplete | tests/functional/data_masking/required_dependencies/test_erase_data_masking.py:105-124 | `..k` finds every `k` entry of every dictionary nested anywhere in the data, for example `a..'4'`. |
| JsonPath.DescendFindSound | tests/functional/data_masking/required_dependencies/test_erase_data_masking.py:105-124 | Every location `..k` finds exists and ends in field `k`. |
| JsonPath.FindChildPath | tests/functional/data_masking/required_dependencies/test_erase_data_masking.py:343-352 | A path of plain names finds exactly the one location with those keys if it exists, and nothing otherwise. |
| Masking.Dedup | tests/functional/data_masking/required_dependencies/test_erase_data_masking.py:429-450 | The rebuilt set has no duplicates and holds exactly the masked elements. |
| Masking.EraseScalar | tests/functional/data_masking/required_dependencies/test_erase_data_masking.py:19-77 | A scalar (int, float, bool, None, str) becomes `*****` by default, and the custom mask when one is given. |
| Masking.MaskSequence | tests/functional/data_masking/required_dependencies/test_erase_data_masking.py:79-87 | A list stays a list and a tuple stays a tuple, of the same length, with each element masked by the same rule. |
| Masking.DedupConstant | tests/functional/data_masking/required_dependencies/test_erase_data_masking.py:429-450 | Elements that are all equal collapse to one. |
| Masking.MaskScalarSetCustom | tests/functional/data_masking/required_dependencies/test_erase_data_masking.py:429-450 | A set of scalars under a custom mask becomes the one-element set of that mask, or stays empty. |
| Masking.MaskKeepsDictKeys | tests/functional/data_masking/required_dependencies/test_erase_data_masking.py:407-427 | Under a mask option, a dictionary keeps its keys in order and each value is masked. An empty dictionary stays empty. |
| Masking.MaskAt | tests/functional/data_masking/required_dependencies/test_erase_data_masking.py:407-416 | Under any mask option, every location of the data still exists after masking, no new one appears, and each holds the mask of its old value, at any depth. |
| Masking.CustomMaskEverywhere | tests/functional/data_masking/required_dependencies/test_erase_data_masking.py:407-416 | A global custom mask keeps the nested shape: a location exists after masking iff it existed before. Every scalar leaf, however deep, becomes the mask text. |
| Masking.DynamicMaskLength | tests/functional/data_masking/required_dependencies/test_erase_data_masking.py:467-476 | The dynamic mask of a scalar has one `*` per character of its `str()`, so `""` stays `""`. |
| Masking.DynamicMaskStrings | tests/functional/data_masking/required_dependencies/test_erase_data_masking.py:392-405 | A list of strings under the dynamic mask becomes a list of star strings of the same lengths. |
| Masking.MaskIdempotent | tests/functional/data_masking/required_dependencies/test_erase_data_masking.py:29-37 | Masking an already masked value again with the same sentinel, custom or dynamic rule changes nothing. This is a design property of the masks. The cited test shows only a single custom mask. |
| Masking.InvalidRegexKeepsValue | tests/functional/data_masking/required_dependencies/test_erase_data_masking.py:452-465 | A regex that does not compile leaves every value unchanged. |
| ErasureProperties.WholeValueScalar | tests/functional/data_masking/required_dependencies/test_erase_data_masking.py:19-103 | With no fields and no rules, a scalar or a dictionary becomes `*****`. A scalar with a custom mask becomes that mask. |
| ErasureProperties.FieldsRefused | tests/functional/data_masking/required_dependencies/test_erase_data_masking.py:167-183 | An empty field list is a ValueError. A value that is neither a string nor a dictionary is an unsupported-type error. A dictionary JSON cannot encode is a serialisation error. |
| ErasureProperties.MissingFieldRaises | tests/functional/data_masking/required_dependencies/test_erase_data_masking.py:185-200 | With `raise_on_missing_field`, a field that matches nothing is a field-not-found error naming it. |
| ErasureProperties.MissingFieldWarns | tests/functional/data_masking/required_dependencies/test_erase_data_masking.py:202-219 | Without `raise_on_missing_field`, a field that matches nothing adds one warning, `Field or expression <path> not found in <data>`, and leaves the data as it was. |
| ErasureProperties.MissingFieldsWarn | tests/functional/data_masking/required_dependencies/test_erase_data_masking.py:202-219 | When no field matches, the data is unchanged and there is one warning per field, in order. |
| ErasureProperties.MissingWarnings | tests/functional/data_masking/required_dependencies/test_erase_data_masking.py:202-219 | The i-th warning names the i-th missing field. |
| ErasureProperties.UpdateAllDefault | tests/functional/data_masking/required_dependencies/test_erase_data_masking.py:105-124 | With the built-in provider, masking the found locations never fails. |
| ErasureProperties.UpdateAllMasksEach | tests/functional/data_masking/required_dependencies/test_erase_data_masking.py:105-124 | With the built-in provider and disjoint locations, each found location ends up holding its old value masked by the chosen rule. |
| ErasureProperties.UpdateAllApart | tests/functional/data_masking/required_dependencies/test_erase_data_masking.py:105-124 | Masking found locations leaves every location apart from all of them unchanged. |
| ErasureProperties.FieldStepChildPath | tests/functional/data_masking/required_dependencies/test_erase_data_masking.py:253-274 | A field of plain names that exists is masked in place, with no warning. |
| ErasureProperties.FieldStepKeepsOthers | tests/functional/data_masking/required_dependencies/test_erase_data_masking.py:105-124 | One field leaves every location apart from its matches unchanged. |
| ErasureProperties.FieldsKeepOthers | tests/functional/data_masking/required_dependencies/test_erase_data_masking.py:105-124 | A whole field list of plain paths leaves every location apart from all of them unchanged. |
| ErasureProperties.EraseFieldsKeepOthers | tests/functional/data_masking/required_dependencies/test_erase_data_masking.py:105-124 | Erasing plain paths from a JSON dict, from the caller's side, leaves every location apart from all of them as it was. |
| ErasureProperties.JsonStringAsDict | tests/functional/data_masking/required_dependencies/test_erase_data_masking.py:126-147 | A JSON string that decodes to an object is masked exactly as that object would be. |
| ErasureProperties.RuleNoMatch | tests/functional/data_masking/required_dependencies/test_erase_data_masking.py:311-322 | A rule whose path matches nothing leaves the data unchanged and adds a no-matches warning. |
| ErasureProperties.RulePathFails | tests/functional/data_masking/required_dependencies/test_erase_data_masking.py:478-488 | A rule whose path does not parse leaves the data unchanged and adds a path-error warning. |
| ErasureProperties.TrailingDotRulePath | tests/functional/data_masking/required_dependencies/test_erase_data_masking.py:478-488 | A rule path ending in `.`, prefixed with `$.`, does not parse. |
| ErasureProperties.RulesKeepOthers | tests/functional/data_masking/required_dependencies/test_erase_data_masking.py:354-372 | Rules over plain paths leave every location apart from all of them unchanged. |
| ErasureProperties.RulesProviderFails | tests/functional/data_masking/required_dependencies/test_erase_data_masking.py:324-341 | When the provider always fails, the rules change no data. |
| ErasureProperties.RuleWritesFailing | tests/functional/data_masking/required_dependencies/test_erase_data_masking.py:324-341 | When the provider always fails, one rule's writes change no data. |
| ErasureProperties.RuleProviderFailsOnce | tests/functional/data_masking/required_dependencies/test_erase_data_masking.py:324-341 | A provider error at the one match keeps the data. It adds one warning reading `Error masking value for path <path>: <error>`. |
| ErasureProperties.RuleCustomMaskOnList | tests/functional/data_masking/required_dependencies/test_erase_data_masking.py:374-390 | In rules mode a custom mask replaces a whole list with the mask string. |
| ErasureProperties.RuleStepChildPath | tests/functional/data_masking/required_dependencies/test_erase_data_masking.py:354-372 | With the built-in provider, a rule whose plain path exists replaces the value there with the rule's mask of its string form, and adds no warning. |
| ErasureProperties.RuleStepKeepsOthers | tests/functional/data_masking/required_dependencies/test_erase_data_masking.py:354-372 | One rule over a plain path leaves every location apart from it unchanged. |
| ErasureProperties.RulesMaskEach | tests/functional/data_masking/required_dependencies/test_erase_data_masking.py:276-299 | For rules over pairwise-apart plain paths, each existing path ends up holding its own rule's mask of the string form of its original value. Examples are a regex on an email, a dynamic mask on an age, and a custom mask on a zip. |
| ErasureProperties.FieldDynamicMaskOnList | tests/functional/data_masking/required_dependencies/test_erase_data_masking.py:392-405 | In fields mode a dynamic mask masks a list of strings element by element, keeping each length. |
| ErasureProperties.NestedLeafMasked | tests/unit/data_masking/required_dependencies/test_base_functions.py:22-30 | When the key path exists, its leaf ends up holding the mask of its old value. |
| ErasureProperties.NestedKeepsOthers | tests/unit/data_masking/required_dependencies/test_base_functions.py:22-30 | Nested masking changes nothing apart from the leaf. |
| ErasureProperties.NestedStopsAtNonDict | tests/unit/data_masking/required_dependencies/test_base_functions.py:11-19 | When an inner key holds a non-dictionary, the data is returned unchanged. |
| DataMasking.ReachedStep | tests/unit/data_masking/required_dependencies/test_base_functions.py:22-30 | Each step of the walk reads the dictionary at the next key of the path. |
| DataMasking.StopsBeforeLeaf | tests/unit/data_masking/required_dependencies/test_base_functions.py:11-19 | A non-dictionary before the last key means the leaf does not exist. |
| DataMasking.DataMasking.constructor | tests/functional/data_masking/required_dependencies/test_erase_data_masking.py:185-200 | A new masker uses the built-in provider and the given `raise_on_missing_field`, and starts with an empty regex cache. |
| DataMasking.DataMasking.RegexMask | tests/functional/data_masking/required_dependencies/test_erase_data_masking.py:235-251 | A regex mask substitutes the format for every match. A pattern is compiled at most once and then served from the cache. A pattern that does not compile is not cached. |
| DataMasking.DataMasking.MaskWith | tests/functional/data_masking/required_dependencies/test_erase_data_masking.py:429-450 | The recursive mask walk computes the masked value the rule defines. It only adds to the cache, and the only pattern it may add is the rule's own regex pattern. |
| DataMasking.DataMasking.MaskEach | tests/functional/data_masking/required_dependencies/test_erase_data_masking.py:79-87 | The loop masks each element of a sequence, in order. It adds to the cache at most the rule's own regex pattern. |
| DataMasking.DataMasking.ProviderErase | tests/functional/data_masking/required_dependencies/test_erase_data_masking.py:324-341 | One call to the provider returns the masked value or the provider's error message. Compiled regexes stay cached, and the only new entry can be the pattern of the rule that the options select. |
| DataMasking.DataMasking.MaskField | tests/functional/data_masking/required_dependencies/test_erase_data_masking.py:185-219 | One field masks every location it finds. If it finds nothing, it raises or warns as configured. Compiled regexes stay cached. |
| DataMasking.DataMasking.EraseFields | tests/functional/data_masking/required_dependencies/test_erase_data_masking.py:105-147 | The field loop checks the inputs, masks each field in order, and stops at the first error. Compiled regexes stay cached. |
| DataMasking.DataMasking.MaskRule | tests/functional/data_masking/required_dependencies/test_erase_data_masking.py:276-299 | One rule masks each match of its path, and warns instead of failing. Compiled regexes stay cached. |
| DataMasking.DataMasking.MaskRules | tests/functional/data_masking/required_dependencies/test_erase_data_masking.py:354-372 | The rule loop applies each rule in order and gathers the warnings. Compiled regexes stay cached. |
| DataMasking.DataMasking.Erase | tests/functional/data_masking/required_dependencies/test_erase_data_masking.py:19-488 | `erase` picks the rules, fields or whole-value mode and computes exactly what that mode defines. Compiled regexes stay cached. |
| DataMasking.DataMasking.MaskLeaf | tests/unit/data_masking/required_dependencies/test_base_functions.py:16-27 | A leaf is masked by the callable or by the rule's options. Compiled regexes stay cached. |
| DataMasking.DataMasking.MaskNestedField | tests/unit/data_masking/required_dependencies/test_base_functions.py:11-30 | The in-place walk over nested dictionaries leaves the document exactly as the nested-mask function says: the leaf is masked or the data is untouched. A failure of the mask is reported. Compiled regexes stay cached. |
| DataMasking.DataMasking.Encrypt | tests/functional/data_masking/required_dependencies/test_erase_data_masking.py:149-156 | Encrypting always fails with NotImplementedError. |
| DataMasking.DataMasking.Decrypt | tests/functional/data_masking/required_dependencies/test_erase_data_masking.py:158-165 | Decrypting always fails with NotImplementedError. |
| AuthorizerResponse.StripLeadingSlashes | tests/unit/data_classes/required_dependencies/test_api_gateway_authorizer_websocket_event.py:81-95 | The result is a suffix of the input. Everything dropped was `/`, and the result does not start with `/`. |
| AuthorizerResponse.ParseRouteArn | tests/unit/data_classes/required_dependencies/test_api_gateway_authorizer_websocket_event.py:24-41 | An ARN parses iff it has at least six `:` fields and its sixth field holds an api id and a stage separated by `/`. |
| AuthorizerResponse.Policy | tests/unit/data_classes/required_dependencies/test_api_gateway_authorizer_websocket_event.py:14-21 | The response fails, with `No statements defined for the policy`, iff no route was added. |
| AuthorizerResponse.APIGatewayAuthorizerResponseWebSocket.constructor | tests/unit/data_classes/required_dependencies/test_api_gateway_authorizer_websocket_event.py:10-11 | A new builder keeps its principal, region, account, api, stage, context and usage key, and has no routes. |
| AuthorizerResponse.APIGatewayAuthorizerResponseWebSocket.FromRouteArn | tests/unit/data_classes/required_dependencies/test_api_gateway_authorizer_websocket_event.py:24-41 | A builder from an ARN takes the region, account, api id and stage the ARN names. A malformed ARN fails. |
| AuthorizerResponse.APIGatewayAuthorizerResponseWebSocket.AddRoute | tests/unit/data_classes/required_dependencies/test_api_gateway_authorizer_websocket_event.py:81-112 | A resource outside the path pattern fails with the `Invalid resource path` message and changes neither route list. A valid one appends `Route(Arn(resource), conditions)` to the chosen effect's list and leaves the other list as it was. |
| AuthorizerResponse.APIGatewayAuthorizerResponseWebSocket.AllowRoute | tests/unit/data_classes/required_dependencies/test_api_gateway_authorizer_websocket_event.py:81-134 | An allowed route is appended with its ARN and conditions. An invalid resource is refused and changes nothing. Denied routes are untouched. |
| AuthorizerResponse.APIGatewayAuthorizerResponseWebSocket.DenyRoute | tests/unit/data_classes/required_dependencies/test_api_gateway_authorizer_websocket_event.py:98-153 | A denied route is appended with its ARN and conditions. An invalid resource is refused and changes nothing. Allowed routes are untouched. |
| AuthorizerResponse.APIGatewayAuthorizerResponseWebSocket.AllowAllRoutes | tests/unit/data_classes/required_dependencies/test_api_gateway_authorizer_websocket_event.py:24-41 | Allowing all routes appends the wildcard route to the allowed routes only. |
| AuthorizerResponse.APIGatewayAuthorizerResponseWebSocket.DenyAllRoutes | tests/unit/data_classes/required_dependencies/test_api_gateway_authorizer_websocket_event.py:64-78 | Denying all routes appends the wildcard route to the denied routes only. |
| AuthorizerResponse.APIGatewayAuthorizerResponseWebSocket.AsDict | tests/unit/data_classes/required_dependencies/test_api_gateway_authorizer_websocket_event.py:14-41 | `asdict` fails iff no route was added. Otherwise it is a dictionary carrying the builder's principal id. |
| AuthorizerProperties.LeadingSlashIgnored | tests/unit/data_classes/required_dependencies/test_api_gateway_authorizer_websocket_event.py:81-112 | `/foo` and `foo` give the same route ARN. |
| AuthorizerProperties.RouteKeptVerbatim | tests/unit/data_classes/required_dependencies/test_api_gateway_authorizer_websocket_event.py:98-112 | A resource not starting with `/` is placed after the stage unchanged. |
| AuthorizerProperties.WildcardArn | tests/unit/data_classes/required_dependencies/test_api_gateway_authorizer_websocket_event.py:64-78 | The all-routes ARN is `arn:aws:execute-api:<region>:<account>:<api>/<stage>/*`. |
| AuthorizerProperties.ParseRouteArnInverse | tests/unit/data_classes/required_dependencies/test_api_gateway_authorizer_websocket_event.py:24-41 | Parsing a route ARN the builder made gives back its region, account, api id and stage. |
| AuthorizerProperties.ParseRouteArnShort | tests/unit/data_classes/required_dependencies/test_api_gateway_authorizer_websocket_event.py:24-41 | An ARN with fewer than six `:` fields fails with an index error. |
| AuthorizerProperties.StatementsPartitionRoutes | tests/unit/data_classes/required_dependencies/test_api_gateway_authorizer_websocket_event.py:115-153 | The statements for one effect list every route ARN exactly as often as it was added, no more and no fewer. |
| AuthorizerProperties.ConditionedListed | tests/unit/data_classes/required_dependencies/test_api_gateway_authorizer_websocket_event.py:115-134 | Every route with conditions gets its own statement. |
| AuthorizerProperties.ConditionsVerbatim | tests/unit/data_classes/required_dependencies/test_api_gateway_authorizer_websocket_event.py:115-153 | A route with conditions gets its own statement carrying them verbatim. Any statement with a condition has exactly one resource and the requested effect. |
| AuthorizerProperties.SingleRoute | tests/unit/data_classes/required_dependencies/test_api_gateway_authorizer_websocket_event.py:81-153 | One route gives one statement, with its conditions if it has any. |
| AuthorizerProperties.NoStatements | tests/unit/data_classes/required_dependencies/test_api_gateway_authorizer_websocket_event.py:14-21 | With no routes the response is the `No statements defined for the policy` error, whatever the context and key. |
| AuthorizerProperties.ResponseKeys | tests/unit/data_classes/required_dependencies/test_api_gateway_authorizer_websocket_event.py:24-61 | The response always has `principalId`. It has `usageIdentifierKey` iff a non-empty key was given, and `context` iff a non-empty context was given, each with the given value. |
| AuthorizerProperties.PolicyDocument | tests/unit/data_classes/required_dependencies/test_api_gateway_authorizer_websocket_event.py:24-41 | The policy document has version `2012-10-17` and the statements in order. Every statement's action is `execute-api:Invoke`. |
| AuthorizerProperties.AllowOneRoute | tests/unit/data_classes/required_dependencies/test_api_gateway_authorizer_websocket_event.py:81-95 | One allowed route gives a policy with a single Allow statement on that ARN. |
| AuthorizerProperties.AllowAllFromArn | tests/unit/data_classes/required_dependencies/test_api_gateway_authorizer_websocket_event.py:24-41 | A builder made from a route ARN, after allowing all routes, allows exactly the wildcard ARN of that api and stage. |
| AuthorizerProperties.DenyAllSingleStatement | tests/unit/data_classes/required_dependencies/test_api_gateway_authorizer_websocket_event.py:156-164 | `DENY_ALL_RESPONSE` has principal `deny-all-user` and a single statement denying `execute-api:Invoke` on `*`. |

## Left out

- The regular-expression engine is a parameter: a function from pattern to an optional compiled substitution. The model does not check Python `re` semantics.
- The JSON decoder for string input is a parameter, not a parser.
- Masking plain strings: whole-value mode and rules mode do not decode a string as JSON. This follows the library: its erase path decodes only in fields mode.
- Rules mode does not reject non-dictionary data. Its paths simply find nothing.
- Floats are kept as their `repr` text. Rounding and float formatting are not modelled.
- `Values.Render` renders strings, integers and the constants the way `str()` does. For containers it uses a simplified `repr` without Python's string escaping.
- Dictionary keys are strings. Non-string keys do not survive the JSON round trip that fields mode performs, and they do not appear in any path.
- Set iteration order is a sequence fixed by the value. Python's hash order is not modelled.
- Aliasing: the shallow copy that rules mode makes, and dictionaries shared between places in the data, are not modelled. Each location is updated as if it were its own object, except in `MaskNestedField`, which updates a single `Document` in place.
- In the path grammar, `..` binds one following name. Filters, slices, wildcards and index expressions are not part of this model.
- The end-of-string `$` of the resource path regex also accepts a trailing newline in Python. `AuthorizerResponse.ValidResource` does not.
- The ARN partition is fixed to `aws`. The route and method parts of a parsed ARN are not kept, because the builder ignores them.
- Warnings are values gathered in a list, not Python `warnings.warn` calls. Their category (`UserWarning` or the Powertools subclass) is not modelled.
- The KMS and other encryption providers, the `encrypt`/`decrypt` envelope, logging and the serializer options are not part of this model.
- ErasureProperties.FieldsKeepOthers: the frame over a whole field list is proved for plain dotted paths only. Paths with `..` are covered one field at a time by `ErasureProperties.FieldStepKeepsOthers`, because each later path is resolved in data that the earlier fields have already rewritten.
- ErasureProperties.EraseFieldsKeepOthers: the same restriction as `ErasureProperties.FieldsKeepOthers`. The frame seen from the caller's JSON dict is proved for lists of plain dotted paths only.
- Masking.MaskIdempotent: idempotence is not claimed for the regex rule, because a regex substitution can match its own output.
