/**
 * The publish relay's `POST /publish` handler as a pure decision procedure.
 *
 * The handler authenticates the caller with a shared secret, validates the
 * request, derives the target path, looks up the file's current revision
 * marker (sha), sends a conditional create-or-update write to the remote
 * content store, and answers with the path, the short commit id and the
 * public pages URL. The remote store enters only as two oracles: the reply
 * to the lookup and the reply to the write. The handler records which remote
 * calls it made, in order, so that "no remote call happened" can be stated.
 */
module Relay {
  import opened Wrappers
  import Decimal

  /** Configuration read once from the environment at start-up. */
  datatype Config = Config(
    publishKey: Option<string>,  // PUBLISH_KEY; None when the variable is unset
    owner: string,               // GH_OWNER
    repo: string,                // GH_REPO
    branch: string)              // GH_BRANCH

  /**
   * The JSON body of a publish request. None stands for a field that is
   * absent; for `content` it stands for any value that is not a string.
   */
  datatype PublishRequest = PublishRequest(
    id: Option<string>,
    mode: Option<string>,
    content: Option<string>,
    folder: Option<string>)

  /** The write payload: the base64 encoding of the UTF-8 bytes of `text`, kept symbolic. */
  datatype Payload = Base64Utf8(text: string)

  /** The body of the conditional write; `sha` is None when the key is omitted. */
  datatype WriteBody = WriteBody(message: string, content: Payload, branch: string, sha: Option<string>)

  /** A call the handler makes to the remote store. */
  datatype RemoteCall =
    | Lookup(path: string, ref: string)
    | Put(path: string, body: WriteBody)

  /**
   * What the lookup of a file's contents can give: a parsed reply with or
   * without a `sha` field, or a failure (a non-ok status, None when no
   * response arrived or its body was not JSON).
   */
  datatype LookupReply =
    | Found(sha: Option<string>)
    | LookupFailed(status: Option<nat>)

  /**
   * What the write can give: a parsed reply carrying the commit's sha (None
   * when `commit.sha` is missing), a non-ok response with its status, status
   * text and body text (None when reading the body failed), or any other
   * exception between sending the write and building the answer (no
   * response, a reply that is not JSON, a JSON `null` reply).
   */
  datatype WriteReply =
    | Written(commitSha: Option<string>)
    | Rejected(status: nat, statusText: string, text: Option<string>)
    | Threw(message: string)

  /** The answer sent to the client. */
  datatype Response =
    | Unauthorized
    | BadRequest(error: string)
    | Published(path: string, commit: Option<string>, url: string)
    | ServerError(error: string)
  {
    function Status(): nat {
      match this
      case Unauthorized => 401
      case BadRequest(_) => 400
      case Published(_, _, _) => 200
      case ServerError(_) => 500
    }
  }

  /** The response together with the remote calls made to produce it, in order. */
  datatype Handled = Handled(response: Response, calls: seq<RemoteCall>)

  const DefaultMode: string := "json"
  const DefaultFolder: string := "data"
  const MaxIdLength: nat := 64
  const ShortCommitLength: nat := 7

  // ---------------------------------------------------------------- auth

  /** `PUBLISH_KEY` is truthy: set and non-empty. */
  predicate KeyConfigured(config: Config) {
    config.publishKey.Some? && config.publishKey.value != ""
  }

  /** A key is configured and the `x-publish-key` header is strictly equal to it. */
  predicate Authorized(config: Config, header: Option<string>) {
    KeyConfigured(config) && header == config.publishKey
  }

  // ---------------------------------------------------------- validation

  /** The character class `[A-Za-z0-9_\-]`. */
  predicate IdChar(c: char) {
    'A' <= c <= 'Z' || 'a' <= c <= 'z' || '0' <= c <= '9' || c == '_' || c == '-'
  }

  /**
   * Whether all of `s` matches the class repeated between `lo` and `hi`
   * times, as an anchored `^[...]{lo,hi}$` regular expression does.
   */
  function MatchesRepeat(s: string, lo: nat, hi: nat): bool
    decreases |s|
  {
    if s == [] then lo == 0
    else hi > 0 && IdChar(s[0]) && MatchesRepeat(s[1..], if lo == 0 then 0 else lo - 1, hi - 1)
  }

  /** The id test `!id || !/^[A-Za-z0-9_\-]{1,64}$/.test(id)`, negated. */
  predicate ValidId(id: Option<string>) {
    id.Some? && id.value != "" && MatchesRepeat(id.value, 1, MaxIdLength)
  }

  /** The content test `typeof content !== "string" || !content.length`, negated. */
  predicate ValidContent(content: Option<string>) {
    content.Some? && |content.value| > 0
  }

  // --------------------------------------------------------------- paths

  /** `mode === "html" ? id.html : folder/id.json`, with the destructuring defaults. */
  function TargetPath(id: string, mode: Option<string>, folder: Option<string>): string {
    if mode.GetOr(DefaultMode) == "html" then id + ".html"
    else folder.GetOr(DefaultFolder) + "/" + id + ".json"
  }

  /** The pages site of the configured repository, ending in a slash. */
  function SiteRoot(config: Config): string {
    "https://" + config.owner + ".github.io/" + config.repo + "/"
  }

  /** The public URL, built from the mode as the handler builds it, apart from the path. */
  function PublicUrl(config: Config, id: string, mode: Option<string>, folder: Option<string>): string {
    if mode.GetOr(DefaultMode) == "html"
    then "https://" + config.owner + ".github.io/" + config.repo + "/" + id + ".html"
    else "https://" + config.owner + ".github.io/" + config.repo + "/" + folder.GetOr(DefaultFolder) + "/" + id + ".json"
  }

  // ------------------------------------------------------ remote replies

  /** `getFileSha`: `data.sha || null`, and null for every failure. */
  function Marker(reply: LookupReply): Option<string> {
    match reply
    case Found(Some(sha)) => if sha != "" then Some(sha) else None
    case Found(None) => None
    case LookupFailed(_) => None
  }

  function CommitMessage(path: string): string {
    "chore: publish " + path
  }

  /** The write body; the `sha` key is spread in only when the marker is truthy. */
  function WriteBodyFor(config: Config, path: string, content: string, sha: Option<string>): WriteBody {
    WriteBody(CommitMessage(path), Base64Utf8(content), config.branch,
              if sha.Some? && sha.value != "" then sha else None)
  }

  /** `sha.slice(0, 7)`. */
  function ShortCommit(sha: string): (r: string)
    ensures |r| == if |sha| < ShortCommitLength then |sha| else ShortCommitLength
    ensures r == sha[..|r|]
  {
    if |sha| <= ShortCommitLength then sha else sha[..ShortCommitLength]
  }

  /** The message of the error `ghFetch` throws on a non-ok response. */
  function ErrorMessage(status: nat, statusText: string, text: Option<string>): string {
    var body := text.GetOr("");
    Decimal.NatToString(status) + " " + statusText + (if body != "" then ": " + body else "")
  }

  // ------------------------------------------------------------- handler

  /** A request that passed the checks, with its target path. */
  datatype Plan = Plan(id: string, mode: Option<string>, folder: Option<string>, content: string, path: string)

  datatype Admission = Refused(response: Response) | Admitted(plan: Plan)

  /** The guards of the handler, in order, before any remote call. */
  function Admit(config: Config, header: Option<string>, req: PublishRequest): Admission {
    if !Authorized(config, header) then Refused(Unauthorized)
    else if !ValidId(req.id) then Refused(BadRequest("bad id"))
    else if !ValidContent(req.content) then Refused(BadRequest("empty content"))
    else
      var id := req.id.value;
      Admitted(Plan(id, req.mode, req.folder, req.content.value, TargetPath(id, req.mode, req.folder)))
  }

  /** The answer once the write has replied. */
  function Finish(config: Config, plan: Plan, reply: WriteReply): Response {
    match reply
    case Written(commitSha) =>
      Published(plan.path,
                if commitSha.Some? then Some(ShortCommit(commitSha.value)) else None,
                PublicUrl(config, plan.id, plan.mode, plan.folder))
    case Rejected(status, statusText, text) => ServerError(ErrorMessage(status, statusText, text))
    case Threw(message) => ServerError(message)
  }

  /** `POST /publish`, given the store's replies to the lookup and to the write. */
  function HandlePublish(config: Config, header: Option<string>, req: PublishRequest,
                         lookup: string -> LookupReply,
                         put: (string, WriteBody) -> WriteReply): Handled
  {
    match Admit(config, header, req)
    case Refused(response) => Handled(response, [])
    case Admitted(plan) =>
      var sha := Marker(lookup(plan.path));
      var body := WriteBodyFor(config, plan.path, plan.content, sha);
      Handled(Finish(config, plan, put(plan.path, body)),
              [Lookup(plan.path, config.branch), Put(plan.path, body)])
  }
}
