# OptimizelyX client model

A Dafny model of `OptimizelyXClient`, the REST client the Azure Pipelines
OptimizelyX task uses to read and update Optimizely projects, experiments,
features, environments and audiences. The client is a thin layer over an
HTTP library. Its own decisions are modelled as pure functions:

- how the constructor normalises the credential and the user agent;
- the status check each listing and write makes before anything else;
- the `forEach` scans that pick a project, environment or audience from a listing.

Every HTTP call is replaced by its response, passed in as a value:
`Response(statusCode, result)`. Thrown errors become `Failure(e)` of a
`Result`, with one `Error` constructor per message key. Each constructor
carries the argument its message is rendered with.

Files:

- `js_text.dfy` (module `JsText`) holds the JavaScript string operations the client calls:
  - ASCII lower-casing;
  - `startsWith`;
  - `indexOf` and `replace` with a string pattern, which replaces only the first occurrence;
  - `Number.parseInt` with no radix, which reads a `0x`/`0X` prefix as base 16 and anything else as base 10, returning an integer or `NaN`.
- `optional.dfy` (module `Optional`) holds `Option`, the stand-in for `null` and for omitted arguments.
- `lookup.dfy` (module `Lookup`) holds the shared scan. `ForEachOverwrite` is the loop as written: every matching element overwrites the selection. `LastMatchIndex` is an independent search from the back. `ForEachOverwriteKeepsLastMatch` proves the two agree.
- `optimizely_client.dfy` (module `OptimizelyXClient`) holds the entities, responses, errors, the constructor and every operation.
- `client_properties.dfy` (module `ClientProperties`) holds lemmas that relate several calls, and worked examples of the client's quirks.

Behaviour kept as the code has it:

- **Last match wins.** When a listing holds several matches, the last one is returned, not the first.
- **Two marker spellings.** Only `"Bearer "` and `"bearer "` are stripped from the credential. Other spellings such as `"BEARER "` are kept, so the marker is not treated as case-insensitive.
- **One-sided folding in `getProject`.** Only the requested id is lower-cased. A stored id containing an upper-case letter can never be found.
- **Missing environment is not an error.** `getEnvironment` answers `None`, the source's `null`. `getProject` and `getAudienceId` fail instead.
- **Loosely parsed audience id.** `parseInt` reads only the digits at the head of the id, after an optional `0x`/`0X` prefix. An id with no such digit, such as `"x42"`, parses to `NaN`, which passes the `== null` test and is returned as a success. An id whose leading digits are followed by other text, such as `"12abc"`, silently returns those digits (12).
- **Unchecked single reads.** The client code of `getExperiment` and `getFeature` returns whatever body the HTTP library hands it, with no status check of its own. `getExperiment` ignores its `projectId`.

## Model

| member | source | states |
|---|---|---|
| OptimizelyXClient.EffectiveUserAgent | Extensions/Optimizely/Src/Tasks/OptimizelyX/operations/OptimizelyXClient.ts:66-68 | an absent or empty user agent becomes "AzDevOps_OptimizelyX"; a non-empty one is kept; the result is never empty |
| OptimizelyXClient.BearerToken | Extensions/Optimizely/Src/Tasks/OptimizelyX/operations/OptimizelyXClient.ts:70-77 | the replace-based stripping equals dropping the 7-character "Bearer " prefix, else the "bearer " prefix, else leaves the credential unchanged |
| OptimizelyXClient.NewClient | Extensions/Optimizely/Src/Tasks/OptimizelyX/operations/OptimizelyXClient.ts:64-82 | the client keeps the url, a non-empty user agent (the default when none is given), and a token that is either the credential or the credential minus an accepted 7-character marker |
| ClientProperties.BearerTokenRemovesMarker | Extensions/Optimizely/Src/Tasks/OptimizelyX/operations/OptimizelyXClient.ts:71-74 | for every token t, normalising "Bearer " + t or "bearer " + t gives back exactly t |
| ClientProperties.BearerTokenStripsOnce | Extensions/Optimizely/Src/Tasks/OptimizelyX/operations/OptimizelyXClient.ts:71-72 | replace removes only the first marker: "Bearer Bearer abc" becomes "Bearer abc" |
| ClientProperties.BearerTokenKeepsUpperCaseMarker | Extensions/Optimizely/Src/Tasks/OptimizelyX/operations/OptimizelyXClient.ts:70-77 | the marker check is case-sensitive apart from its first letter: "BEARER abc" is kept whole |
| JsText.Lower | Extensions/Optimizely/Src/Tasks/OptimizelyX/operations/OptimizelyXClient.ts:152 | lower-casing keeps the length, leaves no upper-case letter, changes exactly the upper-case letters, and maps each one to its lower-case partner |
| JsText.ReplaceFirst | Extensions/Optimizely/Src/Tasks/OptimizelyX/operations/OptimizelyXClient.ts:72 | for a replacement without "$" (the client passes ""), when the string starts with the pattern replace substitutes that leading occurrence; when the pattern does not occur, the string is unchanged |
| JsText.ParseInt | Extensions/Optimizely/Src/Tasks/OptimizelyX/operations/OptimizelyXClient.ts:172 | without a "0x"/"0X" prefix, parseInt gives NaN exactly when the text does not start with a decimal digit; after the prefix, exactly when no hex digit follows it |
| JsText.LeadingDigits | Extensions/Optimizely/Src/Tasks/OptimizelyX/operations/OptimizelyXClient.ts:172 | parseInt reads the longest run of digits of the radix at the head of the text: all of it digits and stopped by a non-digit or the end |
| JsText.Decimal | Extensions/Optimizely/Src/Tasks/OptimizelyX/operations/OptimizelyXClient.ts:172 | the decimal rendering is non-empty, all digits, and starts with 0 only when it is "0" itself |
| JsText.ParseIntHexExamples | Extensions/Optimizely/Src/Tasks/OptimizelyX/operations/OptimizelyXClient.ts:172 | parseInt("0x1A") is 26, while "0x" and "x42" give NaN |
| JsText.ParseIntOfDecimal | Extensions/Optimizely/Src/Tasks/OptimizelyX/operations/OptimizelyXClient.ts:172 | an id written in decimal, followed by nothing or by non-digit text, parses back to its number, unless that text turns a rendered 0 into a "0x" hex prefix |
| Lookup.LastMatchIndex | Extensions/Optimizely/Src/Tasks/OptimizelyX/operations/OptimizelyXClient.ts:87-91 | the reference for a scan: no index exactly when nothing matches, else a matching index after which nothing matches |
| Lookup.ForEachOverwrite | Extensions/Optimizely/Src/Tasks/OptimizelyX/operations/OptimizelyXClient.ts:151-155 | the overwrite loop ends holding its initial value or the value assigned from some matching element |
| Lookup.ForEachOverwriteKeepsLastMatch | Extensions/Optimizely/Src/Tasks/OptimizelyX/operations/OptimizelyXClient.ts:170-175 | the overwrite loop keeps its initial value when nothing matches, and otherwise ends with the value from the last matching element |
| Lookup.EarlierMatchLoses | Extensions/Optimizely/Src/Tasks/OptimizelyX/operations/OptimizelyXClient.ts:87-91 | with two matches, the selected index is at or after the later one |
| Lookup.LastMatchIsUnique | Extensions/Optimizely/Src/Tasks/OptimizelyX/operations/OptimizelyXClient.ts:151-155 | any index that matches with no match after it is the one the scan selects |
| OptimizelyXClient.RequireOk | Extensions/Optimizely/Src/Tasks/OptimizelyX/operations/OptimizelyXClient.ts:188-192 | a response passes exactly when its status is 200; a pass hands back the body unchanged and a fail carries the given error |
| OptimizelyXClient.GetProjects | Extensions/Optimizely/Src/Tasks/OptimizelyX/operations/OptimizelyXClient.ts:184-193 | non-200 fails with FailedToFetchProjects; 200 returns the listing unfiltered and in order |
| OptimizelyXClient.GetProject | Extensions/Optimizely/Src/Tasks/OptimizelyX/operations/OptimizelyXClient.ts:84-100 | non-200 fails with FailedToFetchProjects; else the last project whose stored id equals the lower-cased request, or ProjectNotFound; a returned id always equals the lower-cased request and is its own lower-case form |
| ClientProperties.GetProjectSucceedsIffListed | Extensions/Optimizely/Src/Tasks/OptimizelyX/operations/OptimizelyXClient.ts:85-95 | after a 200 listing, the lookup succeeds if and only if some listed id equals the lower-cased request |
| ClientProperties.GetProjectIgnoresRequestCase | Extensions/Optimizely/Src/Tasks/OptimizelyX/operations/OptimizelyXClient.ts:88 | two requests that agree up to case get the same answer |
| ClientProperties.GetProjectNeverReturnsUpperCaseId | Extensions/Optimizely/Src/Tasks/OptimizelyX/operations/OptimizelyXClient.ts:88 | stored ids are not case-folded, so a returned project's id never contains an upper-case letter |
| ClientProperties.GetProjectExamples | Extensions/Optimizely/Src/Tasks/OptimizelyX/operations/OptimizelyXClient.ts:84-100 | "ABC" finds "abc"; of two projects with id "abc" the second is returned; a stored "ABC" is not found; a 404 listing fails to fetch |
| OptimizelyXClient.GetExperiments | Extensions/Optimizely/Src/Tasks/OptimizelyX/operations/OptimizelyXClient.ts:195-204 | non-200 fails with FailedToFetchExperiments; 200 returns the listing unfiltered and in order |
| OptimizelyXClient.GetExperiment | Extensions/Optimizely/Src/Tasks/OptimizelyX/operations/OptimizelyXClient.ts:102-107 | the body is returned as received, with no status check |
| ClientProperties.GetExperimentIgnoresStatusAndProject | Extensions/Optimizely/Src/Tasks/OptimizelyX/operations/OptimizelyXClient.ts:102-107 | the result is the same whatever the status code and whatever projectId is passed |
| OptimizelyXClient.UpdateExperiment | Extensions/Optimizely/Src/Tasks/OptimizelyX/operations/OptimizelyXClient.ts:109-120 | succeeds if and only if the status is 200; otherwise fails with FailedToUpdatedExperiment carrying the requested experiment id |
| OptimizelyXClient.GetFeature | Extensions/Optimizely/Src/Tasks/OptimizelyX/operations/OptimizelyXClient.ts:122-127 | the body is returned as received, with no status check |
| ClientProperties.GetFeatureIgnoresStatus | Extensions/Optimizely/Src/Tasks/OptimizelyX/operations/OptimizelyXClient.ts:122-127 | the result is the same whatever the status code |
| OptimizelyXClient.UpdateFeature | Extensions/Optimizely/Src/Tasks/OptimizelyX/operations/OptimizelyXClient.ts:129-140 | succeeds if and only if the status is 200; otherwise fails with FailedToUpdatedFeature carrying the requested feature id |
| ClientProperties.UpdateDependsOnStatusOnly | Extensions/Optimizely/Src/Tasks/OptimizelyX/operations/OptimizelyXClient.ts:109-140 | neither the record written nor the body returned affects a write's outcome; for example, a 404 feature write fails with the feature id |
| OptimizelyXClient.GetEnvironment | Extensions/Optimizely/Src/Tasks/OptimizelyX/operations/OptimizelyXClient.ts:142-158 | non-200 fails with FailedToFetchEnvironment(name) and nothing else fails; else the last environment whose key matches up to case, or None with no error |
| ClientProperties.GetEnvironmentIgnoresNameCase | Extensions/Optimizely/Src/Tasks/OptimizelyX/operations/OptimizelyXClient.ts:152 | after a 200 listing, two names that agree up to case select the same environment |
| ClientProperties.GetEnvironmentExamples | Extensions/Optimizely/Src/Tasks/OptimizelyX/operations/OptimizelyXClient.ts:142-158 | "PRODUCTION" finds key "Production"; "staging" gives None without error; a 404 fails naming the environment |
| OptimizelyXClient.GetAudienceId | Extensions/Optimizely/Src/Tasks/OptimizelyX/operations/OptimizelyXClient.ts:160-182 | non-200 fails with FailedToFetchAudience(name); else parseInt of the id of the last audience whose name matches up to case, or UnableToFindAudience(name) |
| ClientProperties.GetAudienceIdReadsDecimalId | Extensions/Optimizely/Src/Tasks/OptimizelyX/operations/OptimizelyXClient.ts:170-181 | when the last matching audience's id is a decimal number, that number is returned |
| ClientProperties.GetAudienceIdFindsNumericId | Extensions/Optimizely/Src/Tasks/OptimizelyX/operations/OptimizelyXClient.ts:170-181 | the list [{id "42", name "Beta Users"}] asked for "beta users" yields 42 |
| ClientProperties.GetAudienceIdReturnsNaN | Extensions/Optimizely/Src/Tasks/OptimizelyX/operations/OptimizelyXClient.ts:172-181 | a matching audience with id "x42" yields NaN as a success: NaN passes the null check |
| ClientProperties.GetAudienceIdKeepsLeadingDigits | Extensions/Optimizely/Src/Tasks/OptimizelyX/operations/OptimizelyXClient.ts:172 | an id "12abc" on the matching audience yields 12: the trailing text is dropped without an error |
| ClientProperties.GetAudienceIdFailures | Extensions/Optimizely/Src/Tasks/OptimizelyX/operations/OptimizelyXClient.ts:166-179 | an unknown name fails with UnableToFindAudience(name); a 404 fails with FailedToFetchAudience(name) |

## Left out

- HTTP transport and authentication are not modelled. This covers the REST client, the bearer credential handler and the GET/PUT calls themselves. Each operation takes the response its call would yield.
- Promises and `await` are not modelled. Each operation is a sequential function of its arguments and its response.
- Messages and logging are not modelled. Localised text, debug output and console output have no effect on results. Errors are constructors named after their message keys.
- The request paths are not modelled, because they only build URLs. This covers the `projects`, `experiments?project_id=…` and similar templates, so parameters such as `projectId`, `experimentId` and `featureId` have no effect on the model's results, other than as the id an update error carries. `getExperiment`'s `projectId` is different: the source itself never uses it.
- The `OptimizelyExperimentStatus` constant table is not modelled. Nothing in the client reads it.
- Some entity fields are stored as opaque values. The `any`-typed `environments` fields hold uninterpreted JSON text (`Untyped`). The numeric `weight` and `holdback` fields are integers rather than JavaScript numbers. The client only forwards these fields.
- The HTTP library's own rejection is not modelled. typed-rest-client is not part of this model. Its `get` and `update` reject with the library's own error for a status above 299 other than 404, and a 404 resolves with a `null` body. So in the running program a 403 or 500 surfaces that library error, not a `FailedTo…` error. The model's `FailedTo…` and pass-through outcomes for any status describe the client code only, as if every response reached it.
- A 200 listing whose body is `null` is not modelled. In the source, `forEach` on `null` throws a TypeError.
- JsText.ParseInt: reads digits only at the very head of the id, after an optional `0x`/`0X` prefix. JavaScript's `parseInt` also skips leading whitespace and accepts a sign. It also rounds very long digit strings to the nearest double.
- JsText.Lower: folds only the ASCII letters `A`–`Z`. JavaScript's `toLowerCase` and `toLocaleLowerCase` fold all of Unicode. The locale variant can also differ by locale.
