# CPAS client library: a verified model of its sequential core

The CPAS Java client (`net.cpas.Cpas`) builds REST paths for the CPAS
community-administration service. It also keeps a four-field connection
configuration, fetches `apiUrl/apiKey/serverIp/serverPort/apiInfo` on a worker
thread, and hands a parsed response model, or an error text, to a caller-supplied
callback. This project models the sequential logic around that worker pool in
Dafny:

- `base64EncodeSafe`: the RFC 4648 section 4 base64 encoding, then the swaps `/`→`_` and `+`→`-`.
  The output uses the alphabet of RFC 4648 section 5, and its `=` padding is kept.
- The call-path builders `getInfo`, `banUser`, `getBanInfo` and `getBanHistory`, including their overloads.
- `configure`, modelled as a field-by-field state transition.
- The snapshot that `makeApiCall` takes, and the URL join in `GetFromNetwork.run`.
- What `GetFromNetwork.run` hands to the callback for each way the fetch, the parse and the callback can end.
- The validating constructors of the six response models in `net.cpas.model`.

Files, one module each unless noted:

| file | module | contents |
|---|---|---|
| `wrappers.dfy` | `Wrappers`, `Collect` | `Option`, `Result`, and `Traverse`: apply a failing function to every element, stopping at the first failure |
| `java.dfy` | `Java` | 32/64-bit integers; exceptions with their `toString`; the `NullPointerException` of `Objects.requireNonNull` |
| `text.dfy` | `Text` | `String.replace(char, char)`; `StringJoiner` as `Join`; `Split`, its partner, and the split-after-join lemmas |
| `decimal.dfy` | `Decimal` | `String.valueOf(int)` and a decimal parser, with the round trip |
| `base64.dfy` | `Base64` | the encoder, the URL-safe swap, a reference decoder, and the round trips |
| `call_paths.dfy` | `CallPaths` | the four path builders and their overloads |
| `client.dfy` | `Client` | the configuration, `configure`, the snapshot, the URL, and a trace of configure/call actions |
| `dispatch.dfy` | `Dispatch` | the outcome logic of `GetFromNetwork.run` |
| `group_model.dfy`, `ds_info_model.dfy`, `ban_model.dfy`, `ban_info_model.dfy`, `ban_history_model.dfy`, `info_model.dfy` | `CpasGroup`, `DedicatedSupporter`, `CpasBan`, `BanInfo`, `BanHistory`, `Info` | the response-model constructors |

Modelling conventions:

- A Java reference that may be null is an `Option`.
- A thrown exception is the `Failure` side of a `Result`, carrying the exception's class name and message.
- A string passed to `base64EncodeSafe` is given as the bytes that `getBytes()` produces.
- Bytes are the integers 0 to 255.

Behaviours of the code that a caller might not expect, all modelled as written:

- `configure` is not all-or-nothing. It assigns `apiUrl`, `apiKey`, `serverIp` and `serverPort` in that order.
  A null argument throws, and the fields assigned before it keep their new values.
  `Client.PartialConfigureIsCaptured` shows a later call capturing such a half-updated configuration.
  The class Javadoc (Cpas.java:52-55) says new calls use the configuration "once it has been completely updated".
- A field that was never configured is `null`. `StringJoiner` appends `null` as the text `null`, so that text appears in the URL.
- The callback is not always invoked exactly once.
  - When it throws an `Exception` while handling a successfully parsed model, the same `catch (Exception e)` invokes it a second time with the exception's text.
  - When it throws an `Error` there, the `Error` escapes `run` after the one invocation.
  - When the parser itself throws an `Error`, the callback is never invoked.
- When the body is the JSON document `null`, `readValue` returns null and the callback receives two null arguments.
  Its Javadoc (Cpas.java:78-82) promises a non-null response whenever the error message is null.
- An `IOException` during the fetch is not reported as an error. Its `toString()` is returned as the response body and handed to the JSON parser.

## Model

| member | source | states |
|---|---|---|
| `Base64.Encode` | src/main/java/net/cpas/Cpas.java:374 | for n input bytes the output is 4·⌈n/3⌉ characters; every character is in the standard alphabet or is `=`; `=` occupies exactly the last (3 − n mod 3) mod 3 positions; the unused low bits of the last character before the padding are zero (4 bits for one trailing byte, 2 for two), as section 3.5 of RFC 4648 requires |
| `Base64.EncodeSafe` | src/main/java/net/cpas/Cpas.java:373-375 | same length and padding positions as `Encode`; every other character is in the URL-safe alphabet `A–Z a–z 0–9 - _`; never contains `/`, `+` or `,`; empty exactly for empty input |
| `Base64.EncodeRoundTrip` | src/main/java/net/cpas/Cpas.java:374 | standard base64 decoding of the encoding gives back the input bytes |
| `Base64.UnsanitizeEncodeSafe` | src/main/java/net/cpas/Cpas.java:374 | swapping `_`→`/` and `-`→`+` back in the sanitised text recovers the standard encoding |
| `Base64.SafeRoundTrip` | src/main/java/net/cpas/Cpas.java:373-375 | un-swapping, then decoding, returns the original bytes |
| `Base64.EncodeSafeInjective` | src/main/java/net/cpas/Cpas.java:373-375 | different byte strings are sanitised to different texts |
| `Text.Replace` | src/main/java/net/cpas/Cpas.java:374 | `String.replace(char, char)` keeps the length, turns every `from` into `to` and leaves every other character where it is; afterwards `from` does not occur unless it equals `to` |
| `Text.JoinSnoc` | src/main/java/net/cpas/Cpas.java:205-210 | adding one more part to a `StringJoiner` appends the separator and the part, or just the part when the joiner was empty |
| `Text.SplitJoin` | src/main/java/net/cpas/Cpas.java:436-437 | splitting a join of one or more parts on its separator gives the pieces of every part, in order |
| `Text.SplitJoinFree` | src/main/java/net/cpas/Cpas.java:436-437 | for one or more parts none of which contains the separator, splitting the join gives back exactly the parts |
| `Decimal.Render` | src/main/java/net/cpas/Cpas.java:274 | `String.valueOf(int)` is non-empty; it starts with `-` exactly for negative numbers; the rest is decimal digits with no leading zero unless the number is 0; it contains no `/` or `,` |
| `Decimal.RenderRoundTrip` | src/main/java/net/cpas/Cpas.java:274 | parsing the rendered decimal gives back the integer, negative values included |
| `CallPaths.Sanitize` | src/main/java/net/cpas/Cpas.java:373-375 | sanitising succeeds exactly for a non-null argument; a null argument throws a `NullPointerException` |
| `CallPaths.InfoPath` | src/main/java/net/cpas/Cpas.java:204-212 | the info path is built exactly when the game ID is non-null; otherwise the call throws a `NullPointerException` |
| `CallPaths.InfoPathNoIp` | src/main/java/net/cpas/Cpas.java:224-226 | the three-argument overload is the four-argument one with a null IP; by `InfoNullIpIsEmptyIp` that is the same as an empty IP |
| `CallPaths.InfoPathSegments` | src/main/java/net/cpas/Cpas.java:204-212 | split on `/`, the path is `info`, the sanitised game ID, the IP's own pieces, then `verbose` or empty; an IP without `/` gives exactly four segments |
| `CallPaths.InfoNullIpIsEmptyIp` | src/main/java/net/cpas/Cpas.java:208 | a null IP and an empty IP give the same path |
| `CallPaths.AdminSegment` | src/main/java/net/cpas/Cpas.java:264-267 | the admin segment is built exactly when no admin ID is null; otherwise it throws a `NullPointerException` |
| `CallPaths.SanitizeAdminList` | src/main/java/net/cpas/Cpas.java:264-267 | the loop over the admin array gives the same result as the comma-join of the sanitised IDs, including the first null |
| `CallPaths.AdminSegmentShape` | src/main/java/net/cpas/Cpas.java:264-273 | the segment is the comma-join of the sanitised IDs in list order; it contains no `/`; it is empty for an empty list; split on `,` it gives back each sanitised ID |
| `CallPaths.BanPath` | src/main/java/net/cpas/Cpas.java:263-278 | the ban path is built exactly when the admin list, every admin ID, the game ID, the handle and the banner ID are all non-null; otherwise it throws a `NullPointerException` |
| `CallPaths.BanPathNoReason` | src/main/java/net/cpas/Cpas.java:287-289 | the six-argument overload passes reason `""` and so builds the path the full call builds for a null reason |
| `CallPaths.BanPathDefaults` | src/main/java/net/cpas/Cpas.java:298-300 | the five-argument overload builds the path of the full call with time 0 and a null reason |
| `CallPaths.BanPathSegments` | src/main/java/net/cpas/Cpas.java:263-278 | split on `/`, the path has exactly seven segments: `ban`, the sanitised game ID, handle and banner ID, the admin segment, a decimal that parses back to `time`, and the reason segment |
| `CallPaths.BanNullReasonIsEmptyReason` | src/main/java/net/cpas/Cpas.java:275 | a null reason and an empty reason give the same path |
| `CallPaths.BanInfoPath` | src/main/java/net/cpas/Cpas.java:313-315 | the path is built exactly for a non-null game ID, and then splits into `banInfo` and the sanitised ID |
| `CallPaths.BanHistoryPath` | src/main/java/net/cpas/Cpas.java:339-341 | the path is built exactly for a non-null game ID; it splits into `banHistory`, the sanitised ID, and exactly `String.valueOf(count)`, a decimal that parses back to `count` unchanged (zero and negatives included) |
| `Client.Configure` | src/main/java/net/cpas/Cpas.java:149-156 | let n be the number of leading non-null arguments. The first n fields take the new values and the rest keep their old values. There is no error exactly when n = 4; otherwise the error is the `NullPointerException` naming parameter n |
| `Client.ConfigureAllOrPrefix` | src/main/java/net/cpas/Cpas.java:149-156 | with four non-null arguments all four fields are replaced and nothing fails; with only the port null the other three are still replaced |
| `Client.Submit` | src/main/java/net/cpas/Cpas.java:356-363 | a call is submitted exactly when the callback is non-null; a null callback throws before anything is captured; the request holds the four fields as they are at submission |
| `Client.Url` | src/main/java/net/cpas/Cpas.java:436-437 | split on `/`, the URL is the pieces of the URL, the key, the IP, the port and the call path, in that order, with `null` for an unset field |
| `Client.Show` | src/main/java/net/cpas/Cpas.java:437 | `StringJoiner.add` of a null field appends the text `null`; a non-null field is appended as it is |
| `Client.UnconfiguredUrl` | src/main/java/net/cpas/Cpas.java:437 | before any `configure` the URL splits into four `null` segments followed by the call path's segments |
| `Client.Invoke` | src/main/java/net/cpas/Cpas.java:204-363 | a public call fails exactly when its path fails or its callback is null; the path is checked first; on success the request holds the current configuration and that path |
| `Client.Run` | src/main/java/net/cpas/Cpas.java:149-363 | a sequence of configure and call actions yields one effect per action; by `EffectPerAction` each effect answers its own action |
| `Client.EffectPerAction` | src/main/java/net/cpas/Cpas.java:149-363 | effect i is a configure outcome exactly when action i is a configure, and a submitted request otherwise |
| `Client.RunAppend` | src/main/java/net/cpas/Cpas.java:149-363 | running two sequences one after the other equals running their concatenation |
| `Client.SnapshotAtSubmission` | src/main/java/net/cpas/Cpas.java:356-363 | the request of the i-th action is the one built from the configuration left by the actions before it; later configures do not affect it |
| `Client.PartialConfigureIsCaptured` | src/main/java/net/cpas/Cpas.java:149-156 | after a configure with a null key, the next call captures the new URL alongside the old key, IP and port |
| `Java.ToString` | src/main/java/net/cpas/Cpas.java:449 | an exception's text is exactly its class name when it has no message, and otherwise exactly the class name, `: ` and the message |
| `Dispatch.RawResponse` | src/main/java/net/cpas/Cpas.java:435-456 | a received body and the text of an I/O failure both become the raw response; a crash, a timeout or an interrupt becomes an exception, never an `Error`; a crash becomes an `ExecutionException` whose message is the cause's text, a timeout a `TimeoutException` and an interrupt an `InterruptedException`, both without a message |
| `Dispatch.FirstDelivery` | src/main/java/net/cpas/Cpas.java:455-461 | the error message is null exactly when the raw response exists and the parser returns, and the response is then the parser's value; otherwise the message is the `toString()` of what `future.get` or the parser threw. Both arguments are null exactly when the body parses to JSON `null`; in every other case exactly one is non-null |
| `Dispatch.Failed` | src/main/java/net/cpas/Cpas.java:460 | the `catch` block's invocation passes a null response and the thrown exception's `toString()` |
| `Dispatch.Execute` | src/main/java/net/cpas/Cpas.java:433-462 | at most two callback invocations. None exactly when the parser throws an `Error`, which then escapes `run`. Otherwise the first is `FirstDelivery`. A second happens exactly when the first came from the `try` block and the callback threw an `Exception`, and it carries that exception's text. What escapes `run` is what the last invocation threw |
| `Dispatch.ExactlyOnceWhenCallbackReturns` | src/main/java/net/cpas/Cpas.java:455-461 | a callback that never throws is invoked exactly once and nothing escapes, unless the parser throws an `Error`, in which case it is never invoked |
| `Dispatch.NullModelBreaksCallbackPromise` | src/main/java/net/cpas/Cpas.java:457-458 | a body that parses to JSON `null` gives an invocation with two null arguments, which breaks the callback's documented promise |
| `Dispatch.CallbackThrowsOnModel` | src/main/java/net/cpas/Cpas.java:458-460 | if the callback throws an `Exception` on a parsed model, it is invoked again with that exception's text; if it throws an `Error`, it is invoked once and the `Error` escapes |
| `Dispatch.IoFailureTextIsParsed` | src/main/java/net/cpas/Cpas.java:448-449 | the text of an I/O failure is parsed as if it were the body |
| `Dispatch.TimeoutIsReported` | src/main/java/net/cpas/Cpas.java:456 | a fetch that times out is reported once with the text `java.util.concurrent.TimeoutException` |
| `Dispatch.CrashIsReported` | src/main/java/net/cpas/Cpas.java:456-460 | a fetch task that throws is reported once, with `java.util.concurrent.ExecutionException: ` followed by the cause's own text |
| `Dispatch.InterruptIsReported` | src/main/java/net/cpas/Cpas.java:456-460 | an interrupted wait is reported once with the text `java.lang.InterruptedException` |
| `CpasGroup.Create` | src/main/java/net/cpas/model/CpasGroupModel.java:65-68 | construction fails exactly for a null name, with a `NullPointerException` naming `name`; otherwise the name and any rank are stored unchanged |
| `CpasGroup.CreateFromFields` | src/main/java/net/cpas/model/CpasGroupModel.java:65-68 | every group value is the one built from its own name and rank |
| `DedicatedSupporter.Create` | src/main/java/net/cpas/model/DedicatedSupporterInfoModel.java:101-117 | construction fails exactly when `nameColor` or `joinMessage` is null, and `nameColor` is checked first; the five flags and both strings are stored unchanged |
| `DedicatedSupporter.CreateFromFields` | src/main/java/net/cpas/model/DedicatedSupporterInfoModel.java:101-117 | every value is the one built from its own fields |
| `DedicatedSupporter.EmptyJoinMessageAccepted` | src/main/java/net/cpas/model/DedicatedSupporterInfoModel.java:82-86 | with a present name colour, an empty join message is accepted and gives a value without a join message |
| `CpasBan.Create` | src/main/java/net/cpas/model/CpasBanModel.java:75-85 | construction fails exactly for a null reason; the 64-bit date and the 32-bit duration and length are stored without range checks |
| `CpasBan.CreateFromFields` | src/main/java/net/cpas/model/CpasBanModel.java:75-85 | every ban value is the one built from its own fields |
| `BanInfo.Create` | src/main/java/net/cpas/model/BanInfoModel.java:64-67 | construction fails exactly for a null reason; the duration is stored unchanged |
| `BanInfo.State` | src/main/java/net/cpas/model/BanInfoModel.java:45-49 | duration 0 means not banned, -1 means permanently banned, a positive value is the minutes left; other negative values have no documented meaning |
| `BanInfo.CreateFromFields` | src/main/java/net/cpas/model/BanInfoModel.java:64-67 | every value is the one built from its own fields |
| `BanHistory.Create` | src/main/java/net/cpas/model/BanHistoryModel.java:58-60 | construction fails exactly for a null list; the list is stored as given, null entries included |
| `BanHistory.Decode` | src/main/java/net/cpas/model/BanHistoryModel.java:46-60 | a history decodes exactly when the list is present and every non-null ban has a reason. On success it keeps length and order; a `null` array entry stays null and every other entry keeps its fields. A null list fails with `bans`; a ban without a reason fails the whole history with `reason` |
| `BanHistory.NullEntryIsKept` | src/main/java/net/cpas/model/BanHistoryModel.java:58-59 | a `null` entry of the array does not fail the history and is stored as a null ban |
| `BanHistory.NeverBanned` | src/main/java/net/cpas/model/BanHistoryModel.java:46-49 | an empty list is accepted |
| `Info.Create` | src/main/java/net/cpas/model/InfoModel.java:118-141 | construction succeeds exactly when the game ID is present and parses as a UUID and the other six references are present. A null game ID throws the `gameId` exception; a failed parse throws what `UUID.fromString` threw; after that, the first null reference in field order throws the exception that names it. The primary group is the group built from its name and rank, and everything else, `userId` and any null entries of `groups` included, is stored unchanged |
| `Info.FirstMissing` | src/main/java/net/cpas/model/InfoModel.java:133-138 | the position of the first null among `forumName`, `primaryGroup`, `groups`, `division`, `divisionName` and `dsInfo`, in that order |
| `Info.PrimaryGroupNeedNotBeListed` | src/main/java/net/cpas/model/InfoModel.java:134-135 | for any accepted arguments, a group equal to the primary group in name and rank is among the stored groups exactly when the caller listed one, so an empty list or one without it is accepted. `CpasGroupModel` does not override `equals`, so in Java the list never `contains` the freshly built primary group |
| `Info.CreateFromFields` | src/main/java/net/cpas/model/InfoModel.java:118-141 | every value is the one built from its own fields and the text of its game ID |

## Left out

- Concurrency: the thread pool, the inner single-thread executor and its `shutdown`, and the `Future`s returned to callers. A timeout and an interrupt are modelled only as two more ways the fetch can end.
- The `synchronized(mutex)` locking: the model is sequential, and the snapshot order it protects is modelled by `Client.Run`.
- The singleton holder and `getInstance`: lifecycle plumbing with no logic.
- Network I/O: `URL.openStream` and reading character by character. The fetch is a function parameter from the URL to a body or a failure.
- A non-URL-safe `apiUrl` or a malformed URL: `new URL(...)` throwing `MalformedURLException` is an `IOException`, covered by the I/O failure case.
- JSON parsing with Jackson, including the key mapping (`gameid`→`gameId`, `ds`→`isDedicatedSupporter`, …) and `@JsonIgnoreProperties`. Parsing is a function parameter. The constructors take the field values it would pass, and `InfoModel` requires `division` as its constructor does.
- `UUID.fromString` is a function parameter that returns the UUID or the exception it throws.
- The platform charset of `String.getBytes()`: the sanitiser takes the bytes directly.
- The messages of the `NullPointerException` thrown when a null is dereferenced (a null argument of `base64EncodeSafe`, a null admin array) depend on the JVM, so the model leaves them out.
- The exact text of the `NullPointerException` that `requireNonNull(…, "Network response")` would throw: `future.get` never returns null in the modelled fetch.
- `SuccessResponseModel`, the response type of `banUser`, is not part of this model.
- `ProcessResponse.getModelClass` is implicit in the type parameter of `Dispatch.Execute`.
