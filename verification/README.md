# GSWebServiceHelper, modelled in Dafny

A model of the core of GSWebServiceHelper, a Swift networking helper for iOS.
The model covers these parts:

- **JSON REST client.**
  - `Path`: a URL path stored as its non-empty segments.
  - `Resource`: an immutable request descriptor.
  - `Response` and `WebError`: the outcome algebra.
  - `WebClient`: URL and request building, and `load`'s outcome classification and common-parameter merge. Also the token-refresh rule run by `init`.
- **WebSocket connection.** The self-re-arming receive loop, single receives, sends, and the open/close callbacks.
  - The loop is modelled as a trace function over a scripted sequence of receive results.
  - It is also modelled as a state machine driven by session callbacks.
- **Multipart uploader.** The `multipart/form-data` bodies of `createBody` and `createBodyForImageUpload`, and the three completion handlers' classification of upload responses.
  - The delimiter and close-delimiter syntax follow section 5.1.1 of RFC 2046.
  - Each part's `Content-Disposition: form-data` header follows section 4.2 of RFC 7578.
- **Small combinators.**
  - `Result.mapThrow`, `success(_:)` and `catch(_:)`.
  - `unwrap(errorIfNil:)` on optionals and results.
  - `APIManager.handleError` and the `Response`→`Result` forwarding of `sampleApi`.

Modules follow the source files:

| File | Module |
|---|---|
| `paths.dfy` | `Paths` |
| `resource.dfy` | `Resources` |
| `response.dfy` | `Responses` |
| `web_error.dfy` | `WebErrors` |
| `web_client.dfy` | `WebClient` |
| `websocket.dfy` | `WebSocket` |
| `multipart.dfy` | `Multipart` |
| `result_extension.dfy` | `ResultExtension` |
| `unwrappable.dfy` | `Unwrappable` |
| `api_manager.dfy` | `ApiManager` |

Shared vocabulary lives in `basics.dfy`, `dicts.dfy`, `values.dfy` and `utf8.dfy`:

- `Option` and `Result`; bytes.
- Swift dictionaries, as association lists with distinct keys.
- `Any` values.
- UTF-8 encoding.

Everything the Swift code delegates to Foundation, UIKit or AppAuth is a parameter. This covers:

- the transport outcome and the connectivity status;
- the JSON decoders and serialisers;
- `URLComponents` parsing and rendering;
- file reads and the MIME-type lookup;
- `String(describing:)` of non-string values;
- the clock reading `minutes(from:)` and the persisted auth state.

Swift's dictionary iteration order is unspecified. No contract orders two different keys: dictionary properties are stated through `Lookup` and `Keys`.

## Model

| member | source | states |
|---|---|---|
| `Paths.Parse` | WebService/JsonRestClient/Path.swift:18-20 | a constructed path has no empty segment and no segment containing `/` |
| `Paths.SplitSegmentsSeparatorFree` | WebService/JsonRestClient/Path.swift:19 | no component of `components(separatedBy: "/")` contains `/` |
| `Paths.NonEmpty` | WebService/JsonRestClient/Path.swift:19 | everything kept is non-empty and was in the input, and every non-empty component is kept |
| `Paths.NonEmptySingleton` | WebService/JsonRestClient/Path.swift:19 | one component is kept exactly when it is non-empty |
| `Paths.NonEmptyAppend` | WebService/JsonRestClient/Path.swift:19 | the filter distributes over concatenation; with `Paths.NonEmptySingleton` this fixes the order and multiplicity of what is kept |
| `Paths.JoinSplit` | WebService/JsonRestClient/Path.swift:15-19 | joining the split components with `/` gives back the original string |
| `Paths.SplitJoin` | WebService/JsonRestClient/Path.swift:15-19 | splitting the `/`-join of separator-free segments gives back the segments |
| `Paths.SplitAround` | WebService/JsonRestClient/Path.swift:19 | splitting at one separator splits the two sides independently |
| `Paths.AbsolutePath` | WebService/JsonRestClient/Path.swift:14-16 | the rendered path always starts with `/` |
| `Paths.ParseAbsolutePath` | WebService/JsonRestClient/Path.swift:14-20 | re-parsing the rendering of a valid path gives the same segments |
| `Paths.ParseIdempotent` | WebService/JsonRestClient/Path.swift:14-20 | parsing is idempotent through rendering: `Path(Path(s).absolutePath)` has the segments of `Path(s)` |
| `Paths.RootOnlyFromSeparators` | WebService/JsonRestClient/Path.swift:14-20 | a raw string renders as the bare `/` if and only if it consists only of `/` characters |
| `Paths.EmptyAndSlashesRenderAsRoot` | WebService/JsonRestClient/Path.swift:14-20 | `""` and `"///"` both render as `"/"` |
| `Paths.Append` | WebService/JsonRestClient/Path.swift:22-24 | the receiver's segments, then the argument's, in order; the lengths add up; validity is kept |
| `Paths.Appending` | WebService/JsonRestClient/Path.swift:26-30 | the receiver's segments then the argument's; validity is kept; for valid paths the rendering of the result re-parses to the concatenation of the two renderings' segments |
| `Paths.AppendingExample` | WebService/JsonRestClient/Path.swift:18-30 | `Path("/a/b/").appending(Path("c//d")).absolutePath == "/a/b/c/d"` |
| `Dicts.Set` | WebService/JsonRestClient/Resource.swift:45-46 | after a subscript write the key maps to the new value and every other key keeps its value |
| `Dicts.Merging` | WebService/JsonRestClient/WebClient.swift:103-105 | the merge has the keys of both maps; the receiver's value wins on a shared key; other keys take the argument's value |
| `Values.AsArray` | WebService/ImageUploader/Multipart.swift:222 | `as? [AnyObject]` succeeds exactly on array values, and yields their elements |
| `Values.AsDataList` | WebService/ImageUploader/Multipart.swift:200 | `as? [Data]` succeeds exactly on arrays of byte strings, and yields their elements in order |
| `Values.AsStringList` | WebService/ImageUploader/Multipart.swift:239 | `as? [String]` succeeds exactly on arrays of strings, and yields their elements in order |
| `Utf8.EncodeScalar` | WebService/ImageUploader/Multipart.swift:202 | a scalar encodes to the shortest form, one to four bytes by the range of its code point (below 0x80, 0x800, 0x10000). The lead byte announces the length (0xC0, 0xE0 or 0xF0 upward), and every later byte is a continuation byte in 0x80..0xBF. Taking the lead byte's payload bits followed by six bits per continuation byte (`Utf8.DecodeScalar`) gives back exactly the code point. |
| `Utf8.EncodeAppend` | WebService/ImageUploader/Multipart.swift:202-206 | encoding is a homomorphism: appending the encodings of two strings equals encoding their concatenation |
| `Responses.FromOptional` | WebService/JsonRestClient/Result.swift:17-24 | `Response(value:or:)` is `.success(v)` for a present value and `.failure(e)` for an absent one |
| `Responses.ValueOf` | WebService/JsonRestClient/Result.swift:26-29 | `value` is present if and only if the response is a success, and then equals its payload |
| `Responses.ErrorOf` | WebService/JsonRestClient/Result.swift:31-34 | `error` is present if and only if the response is a failure, and then equals its payload |
| `Responses.ExactlyOneOfValueAndError` | WebService/JsonRestClient/Result.swift:11-34 | every response has exactly one of `value` and `error` |
| `Responses.FromOptionalAccessors` | WebService/JsonRestClient/Result.swift:17-34 | reading back a constructed response: `value` returns the given optional, and `error` returns the fallback exactly when the optional was absent |
| `Responses.FromAccessorsRoundTrip` | WebService/JsonRestClient/Result.swift:17-34 | rebuilding a response from its two accessors gives the same response |
| `Resources.RawValueRoundTrip` | WebService/JsonRestClient/WebClient.swift:17-22 | `RequestMethod(rawValue: m.rawValue) == m`, and only the four raw values name a method |
| `Resources.Make` | WebService/JsonRestClient/Resource.swift:19-32 | the generic initialiser stores `Path(path)`, a valid path that re-parses to itself, and stores the method, params, headers and decoders unchanged |
| `Resources.MakeDefaults` | WebService/JsonRestClient/Resource.swift:19-24 | the generic initialiser defaults to POST with empty params and headers |
| `Resources.Swallow` | WebService/JsonRestClient/Resource.swift:53-58 | `try?` decoding gives nothing exactly when decoding throws, and otherwise the decoded value |
| `Resources.DecodableHeaders` | WebService/JsonRestClient/Resource.swift:43-47 | with defaults, `Accept` and `Content-Type` are `application/json` whatever the caller passed, and no other key is added; without defaults, the headers are exactly the caller's; all other keys keep their values |
| `Resources.MakeDecodable` | WebService/JsonRestClient/Resource.swift:37-59 | the Decodable initialiser stores the parsed path, the method, params and the defaulted headers; its decoders return nothing exactly when decoding fails and the decoded value otherwise |
| `Resources.MakeDecodableDefaults` | WebService/JsonRestClient/Resource.swift:37-47 | the Decodable initialiser defaults to GET with both JSON headers |
| `WebClient.ParamItems` | WebService/JsonRestClient/WebClient.swift:38-40 | one query item per parameter, in order, named by the key and valued by the stringified value |
| `WebClient.Components` | WebService/JsonRestClient/WebClient.swift:25-44 | the built components keep the base origin; the path is `absolutePath` of the base path appended with the resource path, so its segments are the base's followed by the resource's; the base query is replaced by the resource path's query; GET and DELETE append exactly one item per parameter after it, in order, POST and PUT append none |
| `WebClient.BuildUrl` | WebService/JsonRestClient/WebClient.swift:24-50 | an unparsable base URL gives the empty file URL; a parsable one gives exactly the built components when they render, and the empty file URL when they do not |
| `WebClient.ParamReachesQuery` | WebService/JsonRestClient/WebClient.swift:35-44 | for GET and DELETE every parameter of the resource appears, with its value, among the built query items |
| `WebClient.SetHeaders` | WebService/JsonRestClient/WebClient.swift:60-62 | setting the header entries one by one gives every entry's key its value and leaves the other fields alone |
| `WebClient.BuildRequest` | WebService/JsonRestClient/WebClient.swift:54-72 | the request has the built URL, the method's raw value and every resource header; it has a body only for POST/PUT without query-parameter mode, and then the serialised params |
| `WebClient.Classify` | WebService/JsonRestClient/WebClient.swift:122-145 | success if and only if the status is in [200,300) and the body decodes, with that value; `.unauthorized` if and only if the status is 401; `.custom(e)` if and only if the status is another non-2xx one and the error body decodes to `e`; never `.noInternetConnection` |
| `WebClient.ClassifyOther` | WebService/JsonRestClient/WebClient.swift:122-145 | `.other` exactly when there is no HTTP response, or the 2xx body does not decode, or the non-2xx, non-401 error body does not decode |
| `WebClient.MergedResource` | WebService/JsonRestClient/WebClient.swift:102-105 | the merged copy keeps path, method and headers; its params are the resource's, and common params fill only the keys the resource lacks |
| `WebClient.MergeExample` | WebService/JsonRestClient/WebClient.swift:102-105 | merging `{lang: en}` into `{lang: fr, id: 1}` keeps `lang: fr` and `id: 1` |
| `WebClient.Load` | WebService/JsonRestClient/WebClient.swift:90-153 | offline or unknown connectivity gives exactly `.failure(.noInternetConnection)` and dispatches nothing; online, the request is built from the unmerged resource and its outcome classified |
| `WebClient.LoadIgnoresCommonParams` | WebService/JsonRestClient/WebClient.swift:102-115 | as written, the result of `load` does not depend on the client's common params |
| `WebClient.CommonParamsDroppedExample` | WebService/JsonRestClient/WebClient.swift:102-115 | as written, a GET with a common param `lang` and no params of its own builds components with no query items, and sends exactly those whenever they render |
| `WebClient.LoadWithCommonParams` | WebService/JsonRestClient/WebClient.swift:102-115 | the corrected `load`: the request is built from the merged resource |
| `WebClient.CommonParamsReachQuery` | WebService/JsonRestClient/WebClient.swift:102-115 | with the correction, every common param the resource does not override is among the GET/DELETE query items with its value, and the URL sent is exactly those components whenever they render |
| `WebClient.RefreshToken` | WebService/JsonRestClient/WebClient.swift:219-239 | the stored credentials change only when the refresh reports no error and a token different from the state's last one, and such a token always becomes the bearer token with its expiry |
| `WebClient.InitClient` | WebService/JsonRestClient/WebClient.swift:80-88 | a new client has no common params; the credentials change if and only if the stored expiry lies at most 2 minutes ahead, an auth state was persisted, and its refresh would change them |
| `WebSocket.Notify` | WebService/WebSocketConnection.swift:33 | a callback reaches the weak delegate when it is present and is dropped otherwise |
| `WebSocket.Listen` | WebService/WebSocketConnection.swift:65-83 | the loop consumes at most the script; with a delegate, one event per consumed result; without one, no events |
| `WebSocket.ListenStopsAtFirstFailure` | WebService/WebSocketConnection.swift:65-83 | the loop consumes exactly the prefix up to and including the first failure; it is still armed if and only if no failure occurred |
| `WebSocket.ListenTraceIsImage` | WebService/WebSocketConnection.swift:65-83 | with a delegate, the trace is the in-order image of the consumed results: text frames fire `onMessage(text:)`, binary frames `onMessage(data:)`, a failure `onError` |
| `WebSocket.RunReceiveLoop` | WebService/WebSocketConnection.swift:65-83 | the iterative loop, one receive at a time, produces the same trace as the recursive definition |
| `WebSocket.TextBinaryErrorScenario` | WebService/WebSocketConnection.swift:66-80 | text, binary, error gives `onMessage(text:)`, `onMessage(data:)`, `onError`, and no later result is consumed |
| `WebSocket.ReceiveOnce` | WebService/WebSocketConnection.swift:101-119 | `recieveData` delivers at most one event, and exactly one if and only if the connection is alive and the delegate is present |
| `WebSocket.ReceiveOnceAgreesWithListen` | WebService/WebSocketConnection.swift:101-119 | a single receive fires the same event as the loop's first step; the loop re-arms, `recieveData` does not |
| `WebSocket.Connect` | WebService/WebSocketConnection.swift:55-59 | connecting starts one more receive loop, so one more receive is outstanding; it fires nothing |
| `WebSocket.Disconnect` | WebService/WebSocketConnection.swift:61-63 | disconnecting requests close code 1001 (going away) and changes nothing until the close callback |
| `WebSocket.Step` | WebService/WebSocketConnection.swift:47-99 | each callback fires at most one event, appended after the earlier ones, and never changes the delegate; the outstanding receives drop only when a failure completes one of them |
| `WebSocket.OpenAndCloseEvents` | WebService/WebSocketConnection.swift:47-53 | open fires `onConnected`; close fires `onDisconnected(error: nil)` whatever the close code |
| `WebSocket.SendCompletionEvents` | WebService/WebSocketConnection.swift:85-99 | a send completion fires `onError` exactly when the write failed and leaves the outstanding receives as they were |
| `WebSocket.SendsNeverAffectReceiving` | WebService/WebSocketConnection.swift:85-99 | interleaved send, open and close callbacks never change how many receives are outstanding |
| `WebSocket.ReceivingDependsOnlyOnCount` | WebService/WebSocketConnection.swift:65-83 | how many receives are outstanding after a run depends only on how many were before, not on past events |
| `WebSocket.ConnectionFollowsListen` | WebService/WebSocketConnection.swift:55-83 | with one loop running, receive completions append exactly the trace of the loop, and leave one receive outstanding exactly when the loop re-arms |
| `WebSocket.StoppedIgnoresReceives` | WebService/WebSocketConnection.swift:65-83 | once no receive is outstanding, further receive results change nothing |
| `WebSocket.ConnectTwiceReportsFailureTwice` | WebService/WebSocketConnection.swift:55-83 | after two `connect()` calls, a failure completing both pending receives fires `onError` twice and ends both loops |
| `WebSocket.AbsentDelegateStillRearms` | WebService/WebSocketConnection.swift:73-80 | with no delegate and only frames, nothing is observed, every frame is consumed and the loop stays armed |
| `Multipart.Interpolated` | WebService/ImageUploader/Multipart.swift:203 | `"\(entry[key] ?? "")"` renders a present value by `String(describing:)` and a missing key as the empty string |
| `Multipart.BodyShape` | WebService/ImageUploader/Multipart.swift:210 | a serialised body ends with `--boundary--` and CRLF; an aborted body is empty |
| `Multipart.ImageItemParts` | WebService/ImageUploader/Multipart.swift:201-207 | one part per image, in order, each with the entry's field name and file name and type `image/png` |
| `Multipart.ImageParts` | WebService/ImageUploader/Multipart.swift:198-209 | the image parts are absent if and only if some entry holds no `[Data]` under `pathURL`; every part is a PNG with a file name |
| `Multipart.ImagePartsOfEntry` | WebService/ImageUploader/Multipart.swift:203 | the file name comes from the key `MultiPart.fileName`, the empty string, and the field name from `fieldName`; missing ones render empty |
| `Multipart.ImageItemIsPart` | WebService/ImageUploader/Multipart.swift:202-206 | the five appends for one image are the serialisation of one part: delimiter, disposition with name and filename, `Content-Type: image/png`, blank line, bytes, CRLF |
| `Multipart.ImageItemsAreParts` | WebService/ImageUploader/Multipart.swift:201-207 | the appends for one entry's images serialise that entry's parts in order |
| `Multipart.ImageEntriesAreParts` | WebService/ImageUploader/Multipart.swift:198-209 | the loop over entries aborts exactly when the parts are absent, and otherwise serialises them |
| `Multipart.ImageUploadBody` | WebService/ImageUploader/Multipart.swift:195-213 | the as-written bytes of `createBodyForImageUpload` are the multipart serialisation of the image parts then the close delimiter; they are empty when an entry is malformed, and the close delimiter alone without entries |
| `Multipart.ImageUploadBodyEndsWithCloseDelimiter` | WebService/ImageUploader/Multipart.swift:198-211 | with every entry well formed, the image body ends with the close delimiter |
| `Multipart.MimeType` | WebService/ImageUploader/Multipart.swift:265-276 | the registered MIME type of the extension, or `application/octet-stream` when none is registered |
| `Multipart.ParamParts` | WebService/ImageUploader/Multipart.swift:221-232 | an array value gives one part per element, named `key[]`; any other value gives one part named `key`; neither has a file name or a Content-Type |
| `Multipart.ParamsParts` | WebService/ImageUploader/Multipart.swift:220-234 | no parameter part carries a file name or a Content-Type line |
| `Multipart.ParamValueIsPart` | WebService/ImageUploader/Multipart.swift:229-231 | the three appends for one value are the serialisation of one part without headers beyond the disposition |
| `Multipart.ArrayParamIsParts` | WebService/ImageUploader/Multipart.swift:222-227 | the appends for an array value serialise its `key[]` parts in order |
| `Multipart.ParamsAreParts` | WebService/ImageUploader/Multipart.swift:220-234 | the appends for all parameters serialise their parts in order |
| `Multipart.FileItemParts` | WebService/ImageUploader/Multipart.swift:240-254 | at most one part per path, each named by the entry's field name, with a file name and a type |
| `Multipart.FileParts` | WebService/ImageUploader/Multipart.swift:237-256 | the file parts are absent if and only if some entry holds no `[String]` under `pathURL` |
| `Multipart.FileItemIsPart` | WebService/ImageUploader/Multipart.swift:246-250 | the appends for a readable file are the serialisation of one part with its last path component as file name and its MIME type |
| `Multipart.FileItemsAreParts` | WebService/ImageUploader/Multipart.swift:240-254 | the appends for an entry's paths serialise the parts of its readable files in order |
| `Multipart.FileEntriesAreParts` | WebService/ImageUploader/Multipart.swift:237-256 | the loop over file entries aborts exactly when the file parts are absent, and otherwise serialises them |
| `Multipart.CreateBody` | WebService/ImageUploader/Multipart.swift:216-259 | the as-written bytes of `createBody` are the multipart serialisation of the parameter parts, then the file parts, then the close delimiter; they are empty when a file entry is malformed |
| `Multipart.MalformedEntryEmptiesBody` | WebService/ImageUploader/Multipart.swift:200-239 | one malformed entry empties either body, earlier parameters and close delimiter included |
| `Multipart.UnreadableFileSkipped` | WebService/ImageUploader/Multipart.swift:242-253 | an unreadable file contributes nothing: the parts are those of the list without it |
| `Multipart.ReadableFilesGiveOnePartEach` | WebService/ImageUploader/Multipart.swift:240-254 | when every file is readable there is exactly one part per path |
| `Multipart.CreateBodyEndsWithCloseDelimiter` | WebService/ImageUploader/Multipart.swift:236-258 | with every entry well formed, the body ends with the close delimiter, whether or not files could be read |
| `Multipart.PostWebServiceOutcome` | WebService/ImageUploader/Multipart.swift:50-65 | a transport error gives `(nil, error)`; a body that parses to a JSON object gives `(dict, nil)`, a missing body being read as empty; anything else gives `(nil, nil)` |
| `Multipart.PostWithModelOutcome` | WebService/ImageUploader/Multipart.swift:91-126 | an error gives `.error`; status 200 (a missing status counts as 0) with a decodable model gives `.success(model)`; another status with a decodable general response gives `.failure(response)`; the first of the parse, the general decode and (at status 200) the model decode to throw gives `.error` carrying that stage's error; nil data without an error never calls the completion |
| `Multipart.UploadImageOutcome` | WebService/ImageUploader/Multipart.swift:153-190 | an error gives `.error`; a body that parses as JSON gives `.success(nil)` whatever it holds; a parse failure gives `.error` carrying the parse error; nil data without an error never calls the completion |
| `ResultExtension.MapThrow` | WebService/ImageProvider/Result+Extension.swift:17-23 | a failure passes through; a success is transformed, and a throwing transform becomes a failure with the thrown error |
| `ResultExtension.MapThrowSkipsTransformOnFailure` | WebService/ImageProvider/Result+Extension.swift:17-23 | on a failure the transform is not consulted: any two transforms give the same failure |
| `ResultExtension.MapThrowNonThrowing` | WebService/ImageProvider/Result+Extension.swift:17-19 | with a non-throwing transform `mapThrow` is `map` |
| `ResultExtension.MapThrowComposes` | WebService/ImageProvider/Result+Extension.swift:17-23 | two `mapThrow`s compose into one |
| `ResultExtension.OnSuccess` | WebService/ImageProvider/Result+Extension.swift:25-32 | `success(_:)` returns `self` and calls the handler exactly once, with the value, if and only if the result is a success |
| `ResultExtension.Catch` | WebService/ImageProvider/Result+Extension.swift:34-41 | `catch(_:)` returns `self` and calls the handler exactly once, with the error, if and only if the result is a failure |
| `ResultExtension.SuccessThenCatchCallsOneHandler` | WebService/ImageProvider/Result+Extension.swift:26-41 | chaining `success` and `catch` calls exactly one of the two handlers and returns the result unchanged |
| `Unwrappable.UnwrapOptional` | WebService/ImageProvider/Unwrappable.swift:16-25 | a present value is returned whatever the error; an absent one throws the given error, or `nilValue` when none is given |
| `Unwrappable.UnwrapResult` | WebService/ImageProvider/Unwrappable.swift:27-36 | a success returns its value; a failure throws the given error if there is one, and its own error otherwise |
| `Unwrappable.UnwrapResultWithoutOverride` | WebService/ImageProvider/Unwrappable.swift:32-33 | without an override, unwrapping a result rethrows its own error, so the result is unchanged |
| `Unwrappable.UnwrapsAgreeWithOverride` | WebService/ImageProvider/Unwrappable.swift:16-36 | with an override, unwrapping a result is unwrapping its optional view |
| `Unwrappable.UnwrapPresentIgnoresError` | WebService/ImageProvider/Unwrappable.swift:19-31 | a present value or a success is returned whatever error is supplied |
| `ApiManager.HandleError` | WebService/APIManager.swift:32-44 | `.noInternetConnection` alerts "The internet connection is lost"; `.other` alerts "Something went wrong"; `.custom(e)` alerts `e.message`, possibly nil; `.unauthorized`, and only it, gives no alert |
| `ApiManager.HandleErrorDistinguishes` | WebService/APIManager.swift:32-44 | the three non-custom errors give three different alerts |
| `ApiManager.SampleApiCompletion` | WebService/APIManager.swift:141-147 | every response calls the completion exactly once, with a success exactly for a successful response |
| `ApiManager.SampleApiForwardsFaithfully` | WebService/APIManager.swift:141-147 | the completion's result converts back to the response: value and error are forwarded unchanged |

## Left out

- UI: alerts, the spinner, image views and animations are outside the model. So is main-queue dispatch: completions are modelled as values.
- Transport: data, upload and download tasks, `resume`/`cancel`, `requestData`, `downloadData` and `downloadAttachment` are outside the model. `load` takes the transport as a function from request to outcome and returns the dispatched request in place of the task.
- Upload request configuration is not modelled. This covers `URL(string:)`, the POST method, the `multipart/form-data; boundary=` header and the image upload's Authorization header, because they only set fields of the request object.
- The boundary string is a parameter, because `generateBoundaryString` reads a fresh UUID.
- Foreign collaborators are inputs, not computations:
  - connectivity (`Reach`);
  - the AppAuth refresh (`performAction`);
  - `UserDefaults` and unarchiving, and `DefaultsManager`;
  - `minutes(from:)`;
  - `JSONSerialization`, `JSONDecoder` and `JSONEncoder`;
  - `URLComponents` parsing, rendering and percent-encoding;
  - file reads, `lastPathComponent` and the MobileCoreServices MIME lookup.
- HTTP header field names are case-insensitive in `URLRequest`. The model keeps headers as an exact-key map.
- `ImageProvider.swift` is not part of this model. It is an `NSCache` wrapper with unspecified eviction and image decoding.
- `APIConstants.swift` holds only string constants.
- `sampleApi`'s call site refers to a constant and an initialiser that do not type-check as written. Only its forwarding closure is modelled.
- The WebSocket initialiser is not modelled. It sets the Authorization header of the upgrade request.
- The `@unknown default: fatalError` branches of `listen` and `recieveData` are not modelled: `Message` has exactly the two known cases.
- `WebSocket.Step` holds whether the weak delegate is present fixed for a whole run; the model does not cover the delegate being released in the middle of a trace.
- `WebSocket.ReceiveOnce` takes `[weak self]` becoming nil as a boolean input. The model does not cover the connection's lifetime.
- `ResultExtension.MapThrow` keeps the error type of the input result. Swift widens it to `Error`, and the transform's thrown errors are taken to have that same type.
- Path splitting works on Unicode scalars: Swift's `components(separatedBy:)` works on grapheme clusters. The two agree on `/`, except when a combining mark follows a `/`, which Swift folds into one `Character`.
- The `print` and `debugPrint` logging in `load`, `refreshToken`, `createBody` and the upload completions is not modelled. It has no effect on results.
- The WebSocket state machine does not take `recieveData()` as an input. `WebSocket.ReceiveOnce` models it on its own, because its one-shot receive cannot be told apart from the loop's in a completion order.
- WebClient.RefreshToken: assumes `DefaultsManager.saveExpTime(with:)` always stores an expiry for a new token (`expiryOf` is total). `DefaultsManager` is not part of this model, so a token whose expiry it cannot read, which would leave the stored expiry unchanged or absent, is not covered.
- Dicts.Merging: keys are compared scalar by scalar. Swift's `String` equality and hashing use Unicode canonical equivalence, so a precomposed "é" (U+00E9) and "e" followed by U+0301 are one key in Swift but two in the model. So when `MergedResource` (`loadWithCommonParams`) merges a parameter and a common parameter spelt in those two forms, Swift keeps only the parameter's value, and the model keeps both. Header and parameter lookups differ in the same way.
- `Values.Describe` models `String(describing:)` exactly only for strings and values that carry their own description. For any other value it is a parameter.
- `Multipart.PostWebServiceOutcome` takes the fragments-allowed JSON parse as an input. Its result only says whether the top level is an object.

## Findings

| source | as written | input that shows it | evidently intended | confidence | as-written member | corrected member |
|---|---|---|---|---|---|---|
| WebService/JsonRestClient/WebClient.swift:102-115 | `load` merges `commonParams` into `newResouce`, then builds the request from the unmerged `resource` | a client with `commonParams = ["lang": "en"]` loads a GET resource with no params: the URL carries no `lang` query item (`WebClient.CommonParamsDroppedExample`) | the request is built from the merged resource, so common params reach the query or the body (otherwise the merge and its precedence rule are dead code) | not executed; high: `newResouce` is never read after line 105 | `WebClient.Load` | `WebClient.LoadWithCommonParams` |

`WebClient.Load` follows the code as written, and `WebClient.LoadIgnoresCommonParams` proves that its result does not depend on the common params. `WebClient.LoadWithCommonParams` is the intended behaviour, and `WebClient.CommonParamsReachQuery` proves that common params then reach the URL.
