/** What the publish handler promises, stated over every configuration, request and store reply. */
module RelayProperties {
  import opened Wrappers
  import Decimal
  import opened Relay

  // ---------------------------------------------------------------- auth

  /**
   * The answer is 401 exactly when no non-empty key is configured or the
   * header differs from it; a 401 is given before any remote call.
   */
  lemma UnauthorizedExactlyOnKeyMismatch(config: Config, header: Option<string>, req: PublishRequest,
                                         lookup: string -> LookupReply, put: (string, WriteBody) -> WriteReply)
    ensures var h := HandlePublish(config, header, req, lookup, put);
      (h.response == Unauthorized <==> !Authorized(config, header)) &&
      (!Authorized(config, header) ==> h.calls == [])
  {
  }

  /** An unset or empty key refuses every caller, whatever header it sends. */
  lemma NoKeyRefusesEveryone(config: Config, header: Option<string>, req: PublishRequest,
                             lookup: string -> LookupReply, put: (string, WriteBody) -> WriteReply)
    requires config.publishKey == None || config.publishKey == Some("")
    ensures HandlePublish(config, header, req, lookup, put) == Handled(Unauthorized, [])
  {
  }

  // ---------------------------------------------------------- validation

  /** The anchored repeat matcher accepts exactly the strings of class characters with a length in range. */
  lemma {:induction false} MatchesRepeatIff(s: string, lo: nat, hi: nat)
    ensures MatchesRepeat(s, lo, hi) <==> lo <= |s| <= hi && forall i :: 0 <= i < |s| ==> IdChar(s[i])
    decreases |s|
  {
    if s != [] {
      if hi > 0 {
        MatchesRepeatIff(s[1..], if lo == 0 then 0 else lo - 1, hi - 1);
      }
      if hi > 0 && IdChar(s[0]) && (forall i :: 0 <= i < |s| - 1 ==> IdChar(s[1..][i])) {
        forall i | 0 <= i < |s| ensures IdChar(s[i]) {
          if i > 0 { assert s[i] == s[1..][i - 1]; }
        }
      }
    }
  }

  /** An id is accepted iff it has 1 to 64 characters, each a letter, digit, `_` or `-`. */
  lemma ValidIdIff(id: Option<string>)
    ensures ValidId(id) <==>
      id.Some? && 1 <= |id.value| <= MaxIdLength && forall i :: 0 <= i < |id.value| ==> IdChar(id.value[i])
  {
    if id.Some? {
      MatchesRepeatIff(id.value, 1, MaxIdLength);
    }
  }

  /** A bad id is answered 400 "bad id" with no lookup and no write, whatever the content. */
  lemma BadIdRejectedBeforeAnyCall(config: Config, header: Option<string>, req: PublishRequest,
                                   lookup: string -> LookupReply, put: (string, WriteBody) -> WriteReply)
    requires Authorized(config, header)
    requires !ValidId(req.id)
    ensures HandlePublish(config, header, req, lookup, put) == Handled(BadRequest("bad id"), [])
  {
  }

  /** Content is checked only after the id passes: a missing, non-string or empty content then gives 400 "empty content" and no call. */
  lemma EmptyContentRejectedBeforeAnyCall(config: Config, header: Option<string>, req: PublishRequest,
                                          lookup: string -> LookupReply, put: (string, WriteBody) -> WriteReply)
    requires Authorized(config, header) && ValidId(req.id)
    requires req.content == None || req.content == Some("")
    ensures HandlePublish(config, header, req, lookup, put) == Handled(BadRequest("empty content"), [])
  {
  }

  /** Remote calls happen exactly when the caller is authorized and the id and content are valid. */
  lemma RemoteCallsOnlyWhenAdmitted(config: Config, header: Option<string>, req: PublishRequest,
                                    lookup: string -> LookupReply, put: (string, WriteBody) -> WriteReply)
    ensures var h := HandlePublish(config, header, req, lookup, put);
      (h.calls != [] <==> Authorized(config, header) && ValidId(req.id) && ValidContent(req.content)) &&
      (h.calls == [] <==> h.response.Status() in {400, 401})
  {
  }

  // --------------------------------------------------------------- paths

  /** Mode "html" targets `<id>.html`; any other mode, the default among them, targets `<folder>/<id>.json` with folder defaulting to "data". */
  lemma TargetPathCases(id: string, mode: Option<string>, folder: Option<string>)
    ensures mode == Some("html") ==> TargetPath(id, mode, folder) == id + ".html"
    ensures mode != Some("html") && folder == None ==> TargetPath(id, mode, folder) == "data/" + id + ".json"
    ensures mode != Some("html") && folder.Some? ==> TargetPath(id, mode, folder) == folder.value + "/" + id + ".json"
  {
  }

  /** An accepted id has no slash. */
  lemma ValidIdHasNoSlash(id: string)
    requires ValidId(Some(id))
    ensures forall i :: 0 <= i < |id| ==> id[i] != '/'
  {
    ValidIdIff(Some(id));
  }

  /** An html target never coincides with a json target: their fourth characters from the end differ. */
  lemma HtmlAndJsonTargetsDiffer(id1: string, id2: string, mode: Option<string>, folder1: Option<string>, folder2: Option<string>)
    requires mode != Some("html")
    ensures TargetPath(id1, Some("html"), folder1) != TargetPath(id2, mode, folder2)
  {
    var html := TargetPath(id1, Some("html"), folder1);
    var json := TargetPath(id2, mode, folder2);
    assert html[|html| - 4] == 'h';
    assert json[|json| - 4] == 'j';
  }

  /** Within one mode and folder, distinct ids get distinct files. */
  lemma TargetPathInjective(id1: string, id2: string, mode: Option<string>, folder: Option<string>)
    requires TargetPath(id1, mode, folder) == TargetPath(id2, mode, folder)
    ensures id1 == id2
  {
    var p := TargetPath(id1, mode, folder);
    var prefix := if mode.GetOr(DefaultMode) == "html" then "" else folder.GetOr(DefaultFolder) + "/";
    var suffix := if mode.GetOr(DefaultMode) == "html" then ".html" else ".json";
    assert TargetPath(id1, mode, folder) == prefix + id1 + suffix;
    assert TargetPath(id2, mode, folder) == prefix + id2 + suffix;
    assert |id1| == |id2|;
    assert id1 == p[|prefix|..|prefix| + |id1|];
  }

  // ------------------------------------------------------------ the write

  /** The lookup never fails the request: a failed lookup, 404 or otherwise, reads as no marker, and a marker is always a non-empty sha the store returned. */
  lemma MarkerIsFoundShaOrNothing(reply: LookupReply)
    ensures reply.LookupFailed? ==> Marker(reply) == None
    ensures Marker(reply).Some? <==> reply.Found? && reply.sha.Some? && reply.sha.value != ""
    ensures Marker(reply).Some? ==> Marker(reply) == reply.sha
  {
  }

  /**
   * An admitted request makes one lookup of its target path on the configured
   * branch and then one write to that path, whose body carries the publish
   * message, the encoded content, the branch, and the `sha` key exactly when
   * the lookup found a marker, equal to it.
   */
  lemma AdmittedRequestLooksUpThenWrites(config: Config, header: Option<string>, req: PublishRequest,
                                         lookup: string -> LookupReply, put: (string, WriteBody) -> WriteReply)
    requires Authorized(config, header) && ValidId(req.id) && ValidContent(req.content)
    ensures var h := HandlePublish(config, header, req, lookup, put);
      var path := TargetPath(req.id.value, req.mode, req.folder);
      |h.calls| == 2 &&
      h.calls[0] == Lookup(path, config.branch) &&
      h.calls[1].Put? && h.calls[1].path == path &&
      h.calls[1].body.message == "chore: publish " + path &&
      h.calls[1].body.content == Base64Utf8(req.content.value) &&
      h.calls[1].body.branch == config.branch &&
      h.calls[1].body.sha == Marker(lookup(path)) &&
      h.response.Status() in {200, 500}
  {
  }

  /** A 404 on the lookup means the write omits the `sha` key entirely. */
  lemma NotFoundWritesWithoutSha(config: Config, header: Option<string>, req: PublishRequest,
                                 lookup: string -> LookupReply, put: (string, WriteBody) -> WriteReply)
    requires Authorized(config, header) && ValidId(req.id) && ValidContent(req.content)
    requires lookup(TargetPath(req.id.value, req.mode, req.folder)) == LookupFailed(Some(404))
    ensures HandlePublish(config, header, req, lookup, put).calls[1].body.sha == None
  {
  }

  // ----------------------------------------------------------- the answer

  /** The URL, built from the mode on its own, is the site root followed by the target path. */
  lemma PublicUrlIsRootPlusPath(config: Config, id: string, mode: Option<string>, folder: Option<string>)
    ensures PublicUrl(config, id, mode, folder) == SiteRoot(config) + TargetPath(id, mode, folder)
  {
  }

  /**
   * A successful write answers 200 with the target path, the first seven
   * characters of the commit sha (when the store returned one) and a URL on
   * the pages site that ends with the path.
   */
  lemma SuccessAnswersPathCommitAndUrl(config: Config, header: Option<string>, req: PublishRequest,
                                       lookup: string -> LookupReply, put: (string, WriteBody) -> WriteReply)
    requires Authorized(config, header) && ValidId(req.id) && ValidContent(req.content)
    requires put(TargetPath(req.id.value, req.mode, req.folder),
                 HandlePublish(config, header, req, lookup, put).calls[1].body).Written?
    ensures var h := HandlePublish(config, header, req, lookup, put);
      var path := TargetPath(req.id.value, req.mode, req.folder);
      var sha := put(path, h.calls[1].body).commitSha;
      h.response.Published? &&
      h.response.path == path &&
      h.response.url == SiteRoot(config) + path &&
      h.response.url[|h.response.url| - |path|..] == path &&
      (sha == None ==> h.response.commit == None) &&
      (sha.Some? ==> h.response.commit.Some? &&
                     |h.response.commit.value| == (if |sha.value| < 7 then |sha.value| else 7) &&
                     h.response.commit.value == sha.value[..|h.response.commit.value|])
  {
  }

  /** A rejected write answers 500 with `<status> <statusText>`, then `: <body>` only when the body text is non-empty. */
  lemma RejectedWriteAnswersStatusText(config: Config, header: Option<string>, req: PublishRequest,
                                       lookup: string -> LookupReply, put: (string, WriteBody) -> WriteReply)
    requires Authorized(config, header) && ValidId(req.id) && ValidContent(req.content)
    requires put(TargetPath(req.id.value, req.mode, req.folder),
                 HandlePublish(config, header, req, lookup, put).calls[1].body).Rejected?
    ensures var h := HandlePublish(config, header, req, lookup, put);
      var reply := put(TargetPath(req.id.value, req.mode, req.folder), h.calls[1].body);
      var head := Decimal.NatToString(reply.status) + " " + reply.statusText;
      h.response.Status() == 500 &&
      (reply.text.GetOr("") == "" ==> h.response.error == head) &&
      (reply.text.GetOr("") != "" ==> h.response.error == head + ": " + reply.text.value)
  {
  }

  /** The status code can be read back from the front of the error text. */
  lemma ErrorMessageLeadsWithStatus(status: nat, statusText: string, text: Option<string>)
    ensures var m := ErrorMessage(status, statusText, text);
      Decimal.ParseDecimal(Decimal.LeadingDigits(m)) == status
  {
    var body := text.GetOr("");
    var rest := " " + statusText + (if body != "" then ": " + body else "");
    assert ErrorMessage(status, statusText, text) == Decimal.NatToString(status) + rest;
    Decimal.LeadingDigitsOfNumeral(Decimal.NatToString(status), rest);
    Decimal.ParseNatToString(status);
  }

  /** An exception before the write's reply was parsed answers 500 with its message. */
  lemma ThrownWriteAnswersMessage(config: Config, header: Option<string>, req: PublishRequest,
                                  lookup: string -> LookupReply, put: (string, WriteBody) -> WriteReply, message: string)
    requires Authorized(config, header) && ValidId(req.id) && ValidContent(req.content)
    requires put(TargetPath(req.id.value, req.mode, req.folder),
                 HandlePublish(config, header, req, lookup, put).calls[1].body) == Threw(message)
    ensures HandlePublish(config, header, req, lookup, put).response == ServerError(message)
  {
  }

  // ------------------------------------------------------------ scenarios

  /** A json publish without a folder lands in `data/` and is served from the pages site. */
  lemma JsonScenario(config: Config, lookup: string -> LookupReply, put: (string, WriteBody) -> WriteReply)
    requires KeyConfigured(config)
    requires put("data/note1.json", WriteBodyFor(config, "data/note1.json", "hello", Marker(lookup("data/note1.json")))).Written?
    ensures var h := HandlePublish(config, config.publishKey,
                                   PublishRequest(Some("note1"), Some("json"), Some("hello"), None), lookup, put);
      h.response.Published? && h.response.path == "data/note1.json" &&
      h.response.url == SiteRoot(config) + "data/note1.json"
  {
    var req := PublishRequest(Some("note1"), Some("json"), Some("hello"), None);
    var path := "data/note1.json";
    ValidIdIff(req.id);
    assert TargetPath("note1", Some("json"), None) == path;
    AdmittedRequestLooksUpThenWrites(config, config.publishKey, req, lookup, put);
    SuccessAnswersPathCommitAndUrl(config, config.publishKey, req, lookup, put);
  }
}
