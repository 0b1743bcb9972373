/**
 * A sequential in-memory stand-in for the remote content store, used to state
 * the read-modify-write protocol end to end: a write is accepted only when
 * it carries the file's current sha (or none for a new file), and each
 * accepted write stores the payload under a fresh sha.
 */
module MockStore {
  import opened Wrappers
  import Decimal
  import opened Relay

  datatype File = File(payload: Payload, sha: string)

  /** The files of the configured branch by path, and the counter that names the next revision. */
  datatype Store = Store(files: map<string, File>, version: nat)

  /** Every stored file carries a non-empty sha. */
  ghost predicate Valid(st: Store) {
    forall p :: p in st.files ==> st.files[p].sha != ""
  }

  /** The store's answer to the lookup: the file's sha, or 404. */
  function Read(st: Store, path: string): LookupReply {
    if path in st.files then Found(Some(st.files[path].sha)) else LookupFailed(Some(404))
  }

  function CurrentSha(st: Store, path: string): Option<string> {
    if path in st.files then Some(st.files[path].sha) else None
  }

  /** The conditional write: accepted iff the body's sha is the current one. */
  function Write(st: Store, path: string, body: WriteBody): (WriteReply, Store) {
    if body.sha == CurrentSha(st, path) then
      var sha := Decimal.NatToString(st.version);
      (Written(Some(sha)), Store(st.files[path := File(body.content, sha)], st.version + 1))
    else
      (Rejected(409, "Conflict", Some("sha does not match")), st)
  }

  /** One publish against the store: the handler's calls, answered by the store, and the store afterwards. */
  function Publish(st: Store, config: Config, header: Option<string>, req: PublishRequest): (Handled, Store) {
    var h := HandlePublish(config, header, req, p => Read(st, p), (p, b) => Write(st, p, b).0);
    var after := if |h.calls| == 2 && h.calls[1].Put? then Write(st, h.calls[1].path, h.calls[1].body).1 else st;
    (h, after)
  }

  /**
   * With no concurrent writer, an admitted publish always succeeds: the write
   * carries the sha the lookup saw, the file then holds the new content, and
   * no other file changes.
   */
  lemma PublishSucceedsOnQuietStore(st: Store, config: Config, header: Option<string>, req: PublishRequest)
    requires Valid(st)
    requires Authorized(config, header) && ValidId(req.id) && ValidContent(req.content)
    ensures var (h, after) := Publish(st, config, header, req);
      var path := TargetPath(req.id.value, req.mode, req.folder);
      h.response.Published? &&
      h.calls[1].body.sha == CurrentSha(st, path) &&
      Valid(after) &&
      path in after.files && after.files[path].payload == Base64Utf8(req.content.value) &&
      (forall p :: p != path ==> (p in after.files <==> p in st.files)) &&
      (forall p :: p != path && p in st.files ==> after.files[p] == st.files[p])
  {
  }

  /**
   * Publishing the same request twice in a row succeeds both times; the
   * second write carries the sha the first one created, and the file then
   * holds the content.
   */
  lemma RepublishSucceeds(st: Store, config: Config, header: Option<string>, req: PublishRequest)
    requires Valid(st)
    requires Authorized(config, header) && ValidId(req.id) && ValidContent(req.content)
    ensures var (h1, mid) := Publish(st, config, header, req);
      var (h2, after) := Publish(mid, config, header, req);
      var path := TargetPath(req.id.value, req.mode, req.folder);
      h1.response.Published? && h2.response.Published? &&
      h2.calls[1].body.sha == Some(mid.files[path].sha) &&
      path in after.files && after.files[path].payload == Base64Utf8(req.content.value)
  {
  }

  /** The text of the store's conflict reply as the handler reports it. */
  lemma ConflictMessage()
    ensures ErrorMessage(409, "Conflict", Some("sha does not match")) == "409 Conflict: sha does not match"
  {
  }

  /**
   * The lookup's swallowed errors have a cost: when the lookup of an existing
   * file fails for any reason, the write goes out without a sha, the store
   * refuses it, and the publish answers 500.
   */
  lemma FailedLookupOfExistingFileFailsPublish(st: Store, config: Config, header: Option<string>, req: PublishRequest,
                                               lookup: string -> LookupReply)
    requires Authorized(config, header) && ValidId(req.id) && ValidContent(req.content)
    requires TargetPath(req.id.value, req.mode, req.folder) in st.files
    requires lookup(TargetPath(req.id.value, req.mode, req.folder)).LookupFailed?
    ensures var h := HandlePublish(config, header, req, lookup, (p, b) => Write(st, p, b).0);
      h.calls[1].body.sha == None &&
      h.response == ServerError("409 Conflict: sha does not match")
  {
    var put: (string, WriteBody) -> WriteReply := (p, b) => Write(st, p, b).0;
    var id := req.id.value;
    var path := TargetPath(id, req.mode, req.folder);
    var plan := Plan(id, req.mode, req.folder, req.content.value, path);
    assert Admit(config, header, req) == Admitted(plan);
    var body := WriteBodyFor(config, path, req.content.value, Marker(lookup(path)));
    assert body.sha == None;
    assert put(path, body) == Rejected(409, "Conflict", Some("sha does not match"));
    ConflictMessage();
  }
}
