/** The keys of a request agree wherever they are computed, and mean the same request. */
module CaptureKeyLaws {
  import opened CaptureKeys

  lemma OriginOnce(task: Bytes, origin: Bytes)
    requires NormalizedOrigin(task, origin).Ok?
    ensures NormalizedOrigin(task, NormalizedOrigin(task, origin).value) == NormalizedOrigin(task, origin)
  {
    assert |Text("natural_capture")| == 15;
  }

  /** For every request that is captured, the key recomputed from the request is the stored
      key, and the semantic key recomputed from the stored row is the request's own. */
  lemma KeysAgree(env: Env, limits: Limits, req: Request, privacy: Privacy, now: Time)
    ensures var c := AdmissionOf(env, limits, req, privacy, now);
      c.Admitted? ==>
        && KeyForRequest(env, req) == Ok(c.row.captureKey)
        && SemanticKeyForRequest(env, req).Ok?
        && IdentityKey(env, RowIdentity(c.row)) == SemanticKeyForRequest(env, req)
  {
    hide ValidTaskSource, NormalizedOrigin, Encode, Text;
    if NormalizedOrigin(req.task, req.samplingOrigin).Ok? { OriginOnce(req.task, req.samplingOrigin); }
  }

  // ------------------------------------------------------------------------ who is captured

  /** The tasks and the candidate sources they go with. */
  ghost predicate KnownTask(task: Bytes, source: Bytes) {
    || (&& task in {Text("matcher_extract"), Text("contentfilter"), Text("junkpurge"), Text("classifier_type")}
        && source == [])
    || (task in {Text("matcher_rerank"), Text("matcher_embedding")} && source in {Text("local"), Text("api")})
  }

  lemma KnownTaskExactly(task: Bytes, source: Bytes)
    ensures ValidTaskSource(task, source) <==> KnownTask(task, source)
  {
    TaskNames();
  }

  lemma TaskNames()
    ensures var sourceless := {Text("matcher_extract"), Text("contentfilter"), Text("junkpurge"),
                           Text("classifier_type")};
      Text("matcher_rerank") !in sourceless && Text("matcher_embedding") !in sourceless
  {
    assert |Text("matcher_rerank")| == 14 && |Text("matcher_embedding")| == 17 && |Text("matcher_extract")| == 15;
    assert |Text("contentfilter")| == 13 && |Text("junkpurge")| == 9 && |Text("classifier_type")| == 15;
  }

  /** No origin, or the natural one, is the natural one; the top-up one is for junk purge only. */
  lemma OriginExactly(task: Bytes, origin: Bytes)
    ensures origin in {[], Text("natural_capture")} ==> NormalizedOrigin(task, origin) == Ok(Text("natural_capture"))
    ensures origin == Text("safety_topup_capture") ==>
      NormalizedOrigin(task, origin) == if task == Text("junkpurge") then Ok(origin) else Unavailable
    ensures origin !in {[], Text("natural_capture"), Text("safety_topup_capture")} ==>
      NormalizedOrigin(task, origin) == Unavailable
  {
    assert |Text("natural_capture")| == 15 && |Text("safety_topup_capture")| == 20;
  }

  /** A semantic key is computed exactly from an identity of a known task and origin whose five digests are
      digests and whose model, prompt version and contract are named. */
  lemma SemanticKeyExactly(env: Env, id: Identity)
    ensures IdentityKey(env, id).Ok? <==>
      && KnownTask(id.task, id.candidateSource) && NormalizedOrigin(id.task, id.samplingOrigin).Ok?
      && |id.source| == 32 && |id.group| == 32 && |id.input| == 32 && |id.prompt| == 32 && |id.endpoint| == 32
      && id.model != [] && id.promptVersion != [] && id.contractId != []
  {
    hide KnownTask, ValidTaskSource;
    KnownTaskExactly(id.task, id.candidateSource);
  }

  /** The keys of a request can be computed exactly if its JSON and origin are in order, and the semantic one
      if it also names its torrent, group, task, model, prompt version and contract. */
  lemma KeysExactly(env: Env, req: Request)
    ensures KeyForRequest(env, req).Ok? <==>
      && env.canonicalJson(req.modelInput).Ok? && env.canonicalJson(req.taskInput).Ok?
      && NormalizedOrigin(req.task, req.samplingOrigin).Ok?
    ensures SemanticKeyForRequest(env, req).Ok? <==>
      && KeyForRequest(env, req).Ok? && KnownTask(req.task, req.candidateSource)
      && |req.infoHash| == 20 && req.groupKey != []
      && req.model != [] && req.promptVersion != [] && req.contractId != []
  {
    hide KnownTask, IdentityKey, NormalizedOrigin;
    if env.canonicalJson(req.modelInput).Ok? && env.canonicalJson(req.taskInput).Ok? {
      SemanticKeyExactly(env, RequestIdentity(env, req, env.canonicalJson(req.modelInput).value,
                                              env.canonicalJson(req.taskInput).value));
    }
  }

  /** Everything about the request itself is in order. */
  ghost predicate WellMade(env: Env, limits: Limits, req: Request) {
    && ParseRequest(env, req).Ok? && |req.infoHash| == 20 && req.groupKey != []
    && |req.modelInput| + |req.taskInput| <= limits.maxInputBytes
    && |ParseRequest(env, req).value.modelInput| + |ParseRequest(env, req).value.taskInput| <= limits.maxInputBytes
    && env.trimSpace(req.model) != [] && env.trimSpace(req.endpoint) != [] && env.trimSpace(req.promptVersion) != []
    && env.trimSpace(req.systemPrompt) != [] && env.trimSpace(req.contractId) != []
  }

  /** A request reaches the store exactly if capturing is on, its task is known, it is well made, it
      is not marked private, and the evidence store says that it is not; its row then lives for
      the retention. */
  lemma CapturedExactly(env: Env, limits: Limits, req: Request, privacy: Privacy, now: Time)
    ensures AdmissionOf(env, limits, req, privacy, now).Admitted? <==>
      && limits.enabled && KnownTask(req.task, req.candidateSource) && WellMade(env, limits, req)
      && !req.nativePrivate && privacy == Ok(false)
    ensures AdmissionOf(env, limits, req, privacy, now).Admitted? ==>
      var row := AdmissionOf(env, limits, req, privacy, now).row;
      && row.capturedAt == now && row.privacyCheckedAt == now && row.expiresAt == now + limits.retention
      && row.task == req.task && row.candidateSource == req.candidateSource && row.systemPrompt == req.systemPrompt
      && row.modelInput == ParseRequest(env, req).value.modelInput
      && row.taskInput == ParseRequest(env, req).value.taskInput
      && row.buildIdentity ==
           (if env.trimSpace(req.buildIdentity) == [] then env.currentBuild else env.trimSpace(req.buildIdentity))
  {
    hide ValidTaskSource, NormalizedOrigin, Text, KnownTask, Encode;
    KnownTaskExactly(req.task, req.candidateSource);
  }

  /** It is called private exactly if it is marked so, or is otherwise in order as far as its source
      and found private; and nothing private or switched off is ever handed to the store. */
  lemma PrivateExactly(env: Env, limits: Limits, req: Request, privacy: Privacy, now: Time, answer: Persisted)
    ensures AdmissionOf(env, limits, req, privacy, now) == Private <==>
      && limits.enabled && KnownTask(req.task, req.candidateSource)
      && NormalizedOrigin(req.task, req.samplingOrigin).Ok?
      && (req.nativePrivate || (|req.infoHash| == 20 && req.groupKey != [] && privacy == Ok(true)))
    ensures AdmissionOf(env, limits, req, privacy, now) == Switched <==> !limits.enabled
    ensures var a := AdmissionOf(env, limits, req, privacy, now);
      && (Answer(a, answer) == Recorded <==> a.Admitted? && answer == Inserted)
      && (Answer(a, answer) == Duplicate <==> a.Admitted? && answer == Present)
      && (Answer(a, answer) == PrivacyBlocked <==> a == Private || (a.Admitted? && answer == Blocked))
      && (Answer(a, answer) == Disabled <==> a == Switched)
  {
    hide ValidTaskSource, NormalizedOrigin, Text, KnownTask, Encode;
    KnownTaskExactly(req.task, req.candidateSource);
  }

  // --------------------------------------------------------------- what equal keys mean

  /** Every text that is hashed on the way to a request's two keys. */
  function Hashed(env: Env, req: Request, p: Parsed): set<seq<Byte>> {
    {SourceText(req), GroupText(req), InputText(p), req.systemPrompt, req.endpoint, ContractText(env, req),
        CaptureText(env, req, p),
     SemanticText(RequestIdentity(env, req, p.modelInput, p.taskInput), p.origin)}
  }

  /** No two of these texts have the same digest. */
  ghost predicate NoCollision(sha: seq<Byte> -> Digest, texts: set<seq<Byte>>) {
    forall x, y :: x in texts && y in texts && sha(x) == sha(y) ==> x == y
  }

  /** The same request, whichever build makes it and however its JSON is spelled. */
  ghost predicate SameMeaning(a: Request, p: Parsed, b: Request, q: Parsed) {
    && a.task == b.task && a.candidateSource == b.candidateSource && p.origin == q.origin
    && a.infoHash == b.infoHash && a.groupKey == b.groupKey && p.modelInput == q.modelInput
        && p.taskInput == q.taskInput
    && a.systemPrompt == b.systemPrompt && a.endpoint == b.endpoint
    && a.model == b.model && a.promptVersion == b.promptVersion && a.contractId == b.contractId
  }

  lemma SameSource(env: Env, a: Request, p: Parsed, b: Request, q: Parsed)
    requires NoCollision(env.sha, Hashed(env, a, p) + Hashed(env, b, q))
    requires env.sha(SourceText(a)) == env.sha(SourceText(b)) && env.sha(GroupText(a)) == env.sha(GroupText(b))
    requires env.sha(InputText(p)) == env.sha(InputText(q))
    ensures a.infoHash == b.infoHash && a.groupKey == b.groupKey && p.modelInput == q.modelInput
      && p.taskInput == q.taskInput
  {
    hide Encode, Text, ContractText, CaptureText, SemanticText;
    var ns, ng := Text("bitagent-llm-evaluation-source-v1"), Text("bitagent-llm-evaluation-group-v1");
    EncodeInjective([ns, a.infoHash], [ns, b.infoHash]);
    assert [ns, a.infoHash][1] == [ns, b.infoHash][1];
    EncodeInjective([ng, a.groupKey], [ng, b.groupKey]);
    assert [ng, a.groupKey][1] == [ng, b.groupKey][1];
    EncodeInjective([p.modelInput, p.taskInput], [q.modelInput, q.taskInput]);
    assert [p.modelInput, p.taskInput][0] == [q.modelInput, q.taskInput][0];
    assert [p.modelInput, p.taskInput][1] == [q.modelInput, q.taskInput][1];
  }

  lemma SemanticParts(x: Identity, o: Bytes, y: Identity, r: Bytes)
    requires SemanticText(x, o) == SemanticText(y, r)
    ensures x.(samplingOrigin := []) == y.(samplingOrigin := []) && o == r
  {
    hide Encode, Text;
    var n := Text("bitagent-llm-dispatch-semantic-v1");
    var a := [n, x.task, x.candidateSource, o, x.source, x.group, x.input, x.prompt, x.endpoint, x.model,
        x.promptVersion, x.contractId];
    var b := [n, y.task, y.candidateSource, r, y.source, y.group, y.input, y.prompt, y.endpoint, y.model,
        y.promptVersion, y.contractId];
    EncodeInjective(a, b);
    assert a[1] == b[1] && a[2] == b[2] && a[3] == b[3] && a[4] == b[4] && a[5] == b[5] && a[6] == b[6];
    assert a[7] == b[7] && a[8] == b[8] && a[9] == b[9] && a[10] == b[10] && a[11] == b[11];
  }

  lemma ContractParts(env: Env, a: Request, b: Request)
    requires ContractText(env, a) == ContractText(env, b)
    ensures Build(env, a) == Build(env, b) && a.contractId == b.contractId && a.model == b.model
      && a.promptVersion == b.promptVersion
    ensures env.sha(a.systemPrompt) == env.sha(b.systemPrompt) && env.sha(a.endpoint) == env.sha(b.endpoint)
  {
    hide Encode, Build;
    var x := [Build(env, a), a.contractId, a.model, a.promptVersion, env.sha(a.systemPrompt), env.sha(a.endpoint)];
    var y := [Build(env, b), b.contractId, b.model, b.promptVersion, env.sha(b.systemPrompt), env.sha(b.endpoint)];
    EncodeInjective(x, y);
    assert x[0] == y[0] && x[1] == y[1] && x[2] == y[2] && x[3] == y[3] && x[4] == y[4] && x[5] == y[5];
  }

  lemma CaptureParts(env: Env, a: Request, p: Parsed, b: Request, q: Parsed)
    requires CaptureText(env, a, p) == CaptureText(env, b, q)
    ensures a.task == b.task && a.candidateSource == b.candidateSource && p.origin == q.origin
    ensures env.sha(SourceText(a)) == env.sha(SourceText(b)) && env.sha(GroupText(a)) == env.sha(GroupText(b))
    ensures env.sha(InputText(p)) == env.sha(InputText(q))
      && env.sha(ContractText(env, a)) == env.sha(ContractText(env, b))
  {
    hide Encode, SourceText, GroupText, InputText, ContractText;
    var x := [a.task, a.candidateSource, p.origin, env.sha(SourceText(a)), env.sha(GroupText(a)),
        env.sha(InputText(p)), env.sha(ContractText(env, a))];
    var y := [b.task, b.candidateSource, q.origin, env.sha(SourceText(b)), env.sha(GroupText(b)),
        env.sha(InputText(q)), env.sha(ContractText(env, b))];
    EncodeInjective(x, y);
    assert x[0] == y[0] && x[1] == y[1] && x[2] == y[2] && x[3] == y[3] && x[4] == y[4] && x[5] == y[5] && x[6] == y[6];
  }

  lemma SemanticTextMeans(env: Env, a: Request, p: Parsed, b: Request, q: Parsed)
    requires NoCollision(env.sha, Hashed(env, a, p) + Hashed(env, b, q))
    requires SemanticText(RequestIdentity(env, a, p.modelInput, p.taskInput), p.origin) ==
      SemanticText(RequestIdentity(env, b, q.modelInput, q.taskInput), q.origin)
    ensures SameMeaning(a, p, b, q)
  {
    hide Encode, Text, SemanticText, SourceText, GroupText, ContractText, CaptureText;
    SemanticParts(RequestIdentity(env, a, p.modelInput, p.taskInput), p.origin,
        RequestIdentity(env, b, q.modelInput, q.taskInput), q.origin);
    SameSource(env, a, p, b, q);
  }

  lemma CaptureTextMeans(env: Env, a: Request, p: Parsed, b: Request, q: Parsed)
    requires NoCollision(env.sha, Hashed(env, a, p) + Hashed(env, b, q))
    requires CaptureText(env, a, p) == CaptureText(env, b, q)
    ensures SameMeaning(a, p, b, q) && Build(env, a) == Build(env, b)
  {
    hide Encode, Text, SemanticText, SourceText, GroupText, ContractText, CaptureText, Build, InputText;
    CaptureParts(env, a, p, b, q);
    SameSource(env, a, p, b, q);
    ContractParts(env, a, b);
  }

  /** A valid request: both of its keys can be computed. */
  predicate HasKeys(env: Env, req: Request) {
    KeyForRequest(env, req).Ok? && SemanticKeyForRequest(env, req).Ok?
  }

  lemma KeysAre(env: Env, req: Request)
    requires HasKeys(env, req)
    ensures ParseRequest(env, req).Ok?
    ensures var p := ParseRequest(env, req).value;
      && KeyForRequest(env, req) == Ok(env.sha(CaptureText(env, req, p)))
      && SemanticKeyForRequest(env, req) ==
          Ok(env.sha(SemanticText(RequestIdentity(env, req, p.modelInput, p.taskInput), p.origin)))
  {
    hide ValidTaskSource, NormalizedOrigin, Encode, Text;
  }

  /** Both requests are valid, and SHA-256 tells the texts hashed for them apart. */
  ghost predicate KeysDistinguish(env: Env, a: Request, b: Request) {
    && HasKeys(env, a) && HasKeys(env, b) && ParseRequest(env, a).Ok? && ParseRequest(env, b).Ok?
    && NoCollision(env.sha, Hashed(env, a, ParseRequest(env, a).value) + Hashed(env, b, ParseRequest(env, b).value))
  }

  /** Equal digests of the two key texts mean equal texts. */
  lemma KeyTextsHashed(env: Env, a: Request, p: Parsed, b: Request, q: Parsed)
    requires NoCollision(env.sha, Hashed(env, a, p) + Hashed(env, b, q))
    ensures env.sha(CaptureText(env, a, p)) == env.sha(CaptureText(env, b, q)) ==>
      CaptureText(env, a, p) == CaptureText(env, b, q)
    ensures var x, y := SemanticText(RequestIdentity(env, a, p.modelInput, p.taskInput), p.origin),
      SemanticText(RequestIdentity(env, b, q.modelInput, q.taskInput), q.origin);
      env.sha(x) == env.sha(y) ==> x == y
  {
    hide SourceText, GroupText, InputText, ContractText, CaptureText, SemanticText;
  }

  /** Two requests have the same semantic key exactly when they mean the same, and the same
      capture key exactly when the same build makes them as well. So they share the semantic
      key and not the capture key exactly when they differ only in build identity. */
  lemma EqualKeys(env: Env, a: Request, b: Request)
    ensures KeysDistinguish(env, a, b) ==>
      var same := SameMeaning(a, ParseRequest(env, a).value, b, ParseRequest(env, b).value);
      && (SemanticKeyForRequest(env, a) == SemanticKeyForRequest(env, b) <==> same)
      && (KeyForRequest(env, a) == KeyForRequest(env, b) <==> same && Build(env, a) == Build(env, b))
  {
    hide Encode, Text, SemanticText, CaptureText, Build, KeyForRequest, SemanticKeyForRequest, ParseRequest,
        SameMeaning, HasKeys, NoCollision, Hashed;
    if KeysDistinguish(env, a, b) {
      KeysAre(env, a);
      KeysAre(env, b);
      var p, q := ParseRequest(env, a).value, ParseRequest(env, b).value;
      KeyTextsHashed(env, a, p, b, q);
      if SemanticKeyForRequest(env, a) == SemanticKeyForRequest(env, b) { SemanticTextMeans(env, a, p, b, q); }
      if KeyForRequest(env, a) == KeyForRequest(env, b) { CaptureTextMeans(env, a, p, b, q); }
      if SameMeaning(a, p, b, q) { SameTexts(env, a, p, b, q); }
    }
  }

  lemma SameTexts(env: Env, a: Request, p: Parsed, b: Request, q: Parsed)
    requires SameMeaning(a, p, b, q)
    ensures env.sha(SemanticText(RequestIdentity(env, a, p.modelInput, p.taskInput), p.origin)) ==
      env.sha(SemanticText(RequestIdentity(env, b, q.modelInput, q.taskInput), q.origin))
    ensures Build(env, a) == Build(env, b) ==> CaptureText(env, a, p) == CaptureText(env, b, q)
  {
    hide Encode, Text;
  }
}
