# Publish relay: a verified model of the `/publish` handler

The relay is a small Express server (`server.js`). It takes a publish request
from a trusted editor and writes one file into a GitHub repository through the
contents API. It reads the file's current revision marker (its `sha`) first and
sends it with the write, so the write is a create-or-update on the latest
revision. This project models the handler of `POST /publish` as a pure decision
procedure and proves what it promises.

- `wrappers.dfy`, module `Wrappers`: `Option`, which stands for JavaScript's
  absent values and destructuring defaults.
- `decimal.dfy`, module `Decimal`: how a numeric HTTP status is written when it
  is concatenated to a string, and the parse that reads it back.
- `relay.dfy`, module `Relay`: the configuration, the request, the remote
  store's replies, the guards (`Admit`), the path and URL derivations, the
  marker lookup (`Marker`, i.e. `getFileSha`), the write body, the short commit
  id, the `ghFetch` error text, and the handler `HandlePublish`. The handler
  takes the store's two replies as functions. It returns the response and the
  remote calls it made, in order.
- `relay_properties.dfy`, module `RelayProperties`: lemmas that hold for every
  configuration, request and store reply.
- `mock_store.dfy`, module `MockStore`: a sequential in-memory store with
  conditional writes. It is used to prove the read-modify-write protocol end to
  end.

Three behaviours of `server.js` shape the model:

- Every mode other than `"html"` targets `<folder>/<id>.json`, an unknown
  mode included.
- Every error that reaches the handler's `catch` (server.js:85-86) becomes
  one 500 whose text is the exception message. That covers a rejected or
  thrown write and an unreadable write reply. Lookup errors never do:
  `getFileSha` turns them into no marker.
- `commit` is omitted (None) when the write reply has no `commit.sha`.

## Model

| member | source | states |
|---|---|---|
| `Decimal.NatToString` | server.js:29 | the status is written as a non-empty run of digits with no leading zero |
| `Decimal.ParseNatToString` | server.js:29 | reading the written status back gives the status |
| `Decimal.NatToStringInjective` | server.js:29 | distinct statuses are written differently |
| `Relay.HandlePublish` | server.js:50-88 | no ensures of its own; stated by `UnauthorizedExactlyOnKeyMismatch`, `RemoteCallsOnlyWhenAdmitted`, `AdmittedRequestLooksUpThenWrites` and the answer lemmas below |
| `Relay.Admit` | server.js:52-62 | no ensures of its own; its guard order is stated by `UnauthorizedExactlyOnKeyMismatch`, `BadIdRejectedBeforeAnyCall` and `EmptyContentRejectedBeforeAnyCall` |
| `Relay.Marker` | server.js:34-41 | no ensures of its own; stated by `MarkerIsFoundShaOrNothing` |
| `Relay.TargetPath` | server.js:64 | no ensures of its own; stated by `TargetPathCases`, `TargetPathInjective` and `HtmlAndJsonTargetsDiffer` |
| `Relay.WriteBodyFor` | server.js:67-72 | no ensures of its own; stated by `AdmittedRequestLooksUpThenWrites` and `NotFoundWritesWithoutSha` |
| `Relay.PublicUrl` | server.js:80-82 | no ensures of its own; stated by `PublicUrlIsRootPlusPath` |
| `Relay.Finish` | server.js:79-86 | no ensures of its own; stated by `SuccessAnswersPathCommitAndUrl`, `RejectedWriteAnswersStatusText` and `ThrownWriteAnswersMessage` |
| `Relay.ErrorMessage` | server.js:27-29 | no ensures of its own; stated by `RejectedWriteAnswersStatusText` and `ErrorMessageLeadsWithStatus` |
| `Relay.ShortCommit` | server.js:79 | `slice(0, 7)`: the prefix of the commit sha whose length is min(7, length of the sha) |
| `RelayProperties.UnauthorizedExactlyOnKeyMismatch` | server.js:52-54 | the answer is 401 iff no non-empty key is configured or the header is not exactly the key; a 401 makes no remote call |
| `RelayProperties.NoKeyRefusesEveryone` | server.js:52-53 | an unset or empty `PUBLISH_KEY` gives 401 with no call, whatever header is sent |
| `RelayProperties.MatchesRepeatIff` | server.js:57 | the anchored `[A-Za-z0-9_\-]{lo,hi}` match accepts exactly the strings of class characters with length in [lo, hi] |
| `RelayProperties.ValidIdIff` | server.js:57-59 | an id is accepted iff it is present, 1 to 64 characters long, and each character is a letter, digit, `_` or `-` |
| `RelayProperties.BadIdRejectedBeforeAnyCall` | server.js:57-59 | an authorized request with a bad id gets 400 "bad id" and no lookup or write, whatever its content |
| `RelayProperties.EmptyContentRejectedBeforeAnyCall` | server.js:60-62 | with a good id, missing, non-string or empty content gets 400 "empty content" and no call |
| `RelayProperties.RemoteCallsOnlyWhenAdmitted` | server.js:52-65 | remote calls happen iff the caller is authorized and the id and content are valid; no call happens iff the answer is 400 or 401 |
| `RelayProperties.TargetPathCases` | server.js:56-64 | mode "html" gives `<id>.html`; any other mode gives `<folder>/<id>.json`; an omitted folder is "data" |
| `RelayProperties.ValidIdHasNoSlash` | server.js:57 | an accepted id contains no `/` |
| `RelayProperties.HtmlAndJsonTargetsDiffer` | server.js:64 | an html target never equals a json target, for any ids and folders |
| `RelayProperties.TargetPathInjective` | server.js:64 | for one mode and folder, distinct ids target distinct paths |
| `RelayProperties.MarkerIsFoundShaOrNothing` | server.js:34-41 | every failed lookup, 404 or not, gives no marker; a marker is present iff the reply had a non-empty sha, and it equals that sha |
| `RelayProperties.AdmittedRequestLooksUpThenWrites` | server.js:64-77 | an admitted request makes one lookup of its path on the branch, then one write to that path. The write body has message "chore: publish <path>", the encoded content and the branch. Its sha is present iff a marker was found, and equals the marker. The answer is 200 or 500 |
| `RelayProperties.NotFoundWritesWithoutSha` | server.js:36-41 | a 404 lookup makes the write omit the `sha` key |
| `RelayProperties.PublicUrlIsRootPlusPath` | server.js:80-82 | the URL, built from the mode separately from the path, is `https://<owner>.github.io/<repo>/` followed by the path |
| `RelayProperties.SuccessAnswersPathCommitAndUrl` | server.js:79-84 | an accepted write answers 200 with the target path and a URL that ends with it. The commit is the first min(7, length) characters of the returned sha, or omitted when the reply has none |
| `RelayProperties.RejectedWriteAnswersStatusText` | server.js:27-29 | a non-ok write answers 500 with `<status> <statusText>`, followed by `: <body>` only when the body text is non-empty |
| `RelayProperties.ErrorMessageLeadsWithStatus` | server.js:29 | the status code can be read back from the leading digits of the error text |
| `RelayProperties.ThrownWriteAnswersMessage` | server.js:85-86 | an exception during the write answers 500 with the exception's message |
| `RelayProperties.JsonScenario` | server.js:56-84 | id "note1", mode "json", content "hello", no folder: path "data/note1.json" and URL `https://<owner>.github.io/<repo>/data/note1.json`, i.e. the site root followed by that path |
| `MockStore.PublishSucceedsOnQuietStore` | server.js:65-77 | with no concurrent writer, an admitted publish sends the file's current sha, succeeds, stores the new content at the path and changes no other file |
| `MockStore.RepublishSucceeds` | server.js:65-77 | publishing the same request twice in a row succeeds both times. The second write carries the sha made by the first, and the file holds the content |
| `MockStore.FailedLookupOfExistingFileFailsPublish` | server.js:34-41 | a failed lookup of an existing file, for any reason, sends the write without a sha; the store refuses it and the answer is 500 |

## Left out

- Express, CORS, JSON body parsing, `app.listen` and `GET /health` (server.js:5-7, 90-95) are framework wiring. The request body is taken as already parsed into `PublishRequest`.
- Reading the environment (server.js:9-13, 94) is replaced by the immutable `Config` passed in. `GH_TOKEN` is only used in request headers, so it is not modelled.
- HTTP itself is left out: `node-fetch`, request headers, bearer auth and the URLs of the contents API with `encodeURIComponent` (server.js:17-26, 36, 74-77). Each remote call is a recorded `RemoteCall` (path, and branch or body), and its outcome is a `LookupReply` or `WriteReply` given to the handler.
- `b64utf8` (server.js:15), i.e. base64 (section 4 of RFC 4648) of UTF-8, is kept symbolic as `Payload.Base64Utf8(text)`. No encoder is modelled, so the decode round trip of the payload is not proved.
- `JSON.stringify` of the write body and of the response is not modelled. Fields are datatype fields, and an omitted key is `None`.
- JavaScript type coercion is left out. A non-string `id` or `folder` would be turned into text by `RegExp.test` or a template literal. `id`, `mode` and `folder` are strings or absent, and an absent `id` stands for every falsy id. A `null` mode or folder, which skips the destructuring default, is not modelled.
- A request body that is not an object (undefined, so that destructuring throws a 500) is not modelled.
- The race between the lookup and the write, and the store's conflict handling, concern concurrency on the external store. The handler does not manage them. `MockStore` is a sequential stand-in, keyed by path on a single branch, and its replies and error text are illustrative, not GitHub's.
- JavaScript measures strings in UTF-16 code units, and a Dafny `string` is a sequence of Unicode scalar values. So `content.length`, the regex's `{1,64}` and `slice(0, 7)` are modelled by counting characters, and content holding a lone surrogate cannot be represented. No accepted id is affected, since its class is ASCII. No hexadecimal commit sha is affected either.
- A response field whose remote value has an unexpected type, such as a non-string `sha` in a reply, is not modelled.
