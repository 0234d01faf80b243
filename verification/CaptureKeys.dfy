/**
The content-addressed keys of a captured request: a length-prefixed encoding hashed with
SHA-256, once with the build that made the request and once without.
*/
module CaptureKeys {

  type Byte = x: int | 0 <= x < 256

  /** The greatest length of a Go slice, and one more. */
  const SLICE_LIMIT := 0x8000_0000_0000_0000

  type Bytes = s: seq<Byte> | |s| < SLICE_LIMIT
  type Digest = s: Bytes | |s| == 32 witness seq(32, _ => 0)

  datatype Result<+T> = Ok(value: T) | Unavailable

  // ---------------------------------------------------------------------- the encoding

  /** The lowest k bytes of a number, the most significant first. */
  function BigEndian(n: nat, k: nat): (b: seq<Byte>)
    ensures |b| == k
    decreases k
  {
    if k == 0 then [] else BigEndian(n / 256, k - 1) + [n % 256]
  }

  function Value(b: seq<Byte>): nat {
    if b == [] then 0 else Value(b[..|b| - 1]) * 256 + b[|b| - 1]
  }

  function Pow256(k: nat): nat {
    if k == 0 then 1 else 256 * Pow256(k - 1)
  }

  function EncodePart(part: Bytes): seq<Byte> {
    BigEndian(|part|, 8) + part
  }

  /** Every part behind its length in eight bytes. */
  function Encode(parts: seq<Bytes>): seq<Byte> {
    if parts == [] then [] else EncodePart(parts[0]) + Encode(parts[1..])
  }

  /** Reading the parts back. */
  function Decode(s: seq<Byte>): Result<seq<Bytes>>
    decreases |s|
  {
    if s == [] then Ok([])
    else if |s| < 8 then Unavailable
    else
      var n := Value(s[..8]);
      if n >= SLICE_LIMIT || |s| < 8 + n then Unavailable
      else
        var part: Bytes := s[8..8 + n];
        match Decode(s[8 + n..])
        case Unavailable => Unavailable
        case Ok(rest) => Ok([part] + rest)
  }

  lemma {:induction false} ValueOfBigEndian(n: nat, k: nat)
    requires n < Pow256(k)
    ensures Value(BigEndian(n, k)) == n
    decreases k
  {
    if k > 0 {
      var b := BigEndian(n / 256, k - 1);
      assert (b + [n % 256])[..k - 1] == b;
      ValueOfBigEndian(n / 256, k - 1);
    }
  }

  lemma LengthFits(n: nat)
    requires n < SLICE_LIMIT
    ensures n < Pow256(8)
  {
    assert Pow256(2) == 0x1_0000;
    assert Pow256(4) == 0x1_0000_0000;
    assert Pow256(6) == 0x1_0000_0000_0000;
    assert Pow256(8) == 0x1_0000_0000_0000_0000;
  }

  /** Nothing about the list of parts is lost. */
  lemma {:induction false} DecodeEncode(parts: seq<Bytes>)
    ensures Decode(Encode(parts)) == Ok(parts)
    decreases |parts|
  {
    if parts != [] {
      var p, s := parts[0], Encode(parts);
      LengthFits(|p|);
      ValueOfBigEndian(|p|, 8);
      assert s[..8] == BigEndian(|p|, 8);
      assert s[8..8 + |p|] == p;
      assert s[8 + |p|..] == Encode(parts[1..]);
      DecodeEncode(parts[1..]);
      assert [p] + parts[1..] == parts;
    }
  }

  lemma EncodeInjective(a: seq<Bytes>, b: seq<Bytes>)
    requires Encode(a) == Encode(b)
    ensures a == b
  {
    DecodeEncode(a);
    DecodeEncode(b);
  }

  // ------------------------------------------------------------------- the source's loops

  /** The length in eight bytes, filled from the last byte to the first. */
  method LengthBytes(size: nat) returns (length: array<Byte>)
    ensures fresh(length) && length[..] == BigEndian(size, 8)
  {
    length := new Byte[8](_ => 0);
    var n, i := size, 8;
    while i > 0
      invariant 0 <= i <= 8 && BigEndian(size, 8) == BigEndian(n, i) + length[i..]
    {
      i := i - 1;
      ghost var tail := length[i + 1..];
      length[i] := n % 256;
      assert length[i..] == [n % 256] + tail;
      n := n / 256;
    }
  }

  lemma EncodeNext(parts: seq<Bytes>, i: int)
    requires 0 <= i < |parts|
    ensures Encode(parts[i..]) == BigEndian(|parts[i]|, 8) + parts[i] + Encode(parts[i + 1..])
  {
    hide BigEndian;
    assert parts[i..][0] == parts[i] && parts[i..][1..] == parts[i + 1..];
  }

  method DigestParts(sha: seq<Byte> -> Digest, parts: seq<Bytes>) returns (digest: Digest)
    ensures digest == sha(Encode(parts))
  {
    hide Encode, BigEndian;
    var written: seq<Byte> := [];
    assert parts[0..] == parts;
    for i := 0 to |parts|
      invariant written + Encode(parts[i..]) == Encode(parts)
    {
      var length := LengthBytes(|parts[i]|);
      EncodeNext(parts, i);
      written := written + (length[..] + parts[i]);
    }
    EncodeNothing();
    assert parts[|parts|..] == [] && written + [] == written;
    digest := sha(written);
  }

  lemma EncodeNothing()
    ensures Encode([]) == []
  {
  }

  // ---------------------------------------------------------------------------- requests

  function Text(s: string): Bytes
    requires |s| < SLICE_LIMIT
  {
    seq(|s|, i requires 0 <= i < |s| => s[i] as int % 256)
  }

  /** The functions that belong to other packages, and the build that is running. */
  datatype RawEnv = Env(
    sha: seq<Byte> -> Digest,
    canonicalJson: Bytes -> Result<Bytes>,
    trimSpace: Bytes -> Bytes,
    currentBuild: Bytes)

  type Env = e: RawEnv | e.trimSpace([]) == [] witness Env(_ => seq(32, _ => 0), _ => Unavailable, _ => [], [])

  datatype Request = Request(
    task: Bytes, candidateSource: Bytes, samplingOrigin: Bytes, infoHash: Bytes, groupKey: Bytes, nativePrivate: bool,
    model: Bytes, endpoint: Bytes, promptVersion: Bytes, systemPrompt: Bytes, modelInput: Bytes, taskInput: Bytes,
    buildIdentity: Bytes, contractId: Bytes)

  predicate ValidTaskSource(task: Bytes, source: Bytes) {
    if task == Text("matcher_extract") || task == Text("contentfilter") || task == Text("junkpurge")
        || task == Text("classifier_type")
    then source == []
    else
      && (task == Text("matcher_rerank") || task == Text("matcher_embedding"))
      && (source == Text("local") || source == Text("api"))
  }

  function NormalizedOrigin(task: Bytes, origin: Bytes): Result<Bytes> {
    if origin == [] || origin == Text("natural_capture") then Ok(Text("natural_capture"))
    else if origin == Text("safety_topup_capture") && task == Text("junkpurge") then Ok(origin)
    else Unavailable
  }

  function Build(env: Env, req: Request): Bytes {
    var build := env.trimSpace(req.buildIdentity);
    if build == [] then env.currentBuild else build
  }

  /** What a request's digests are made of, once its JSON and its origin are in order. */
  datatype Parsed = Parsed(origin: Bytes, modelInput: Bytes, taskInput: Bytes)

  function ParseRequest(env: Env, req: Request): Result<Parsed> {
    match (env.canonicalJson(req.modelInput), env.canonicalJson(req.taskInput),
        NormalizedOrigin(req.task, req.samplingOrigin))
    case (Ok(m), Ok(t), Ok(o)) => Ok(Parsed(o, m, t))
    case _ => Unavailable
  }

  // ------------------------------------------------------------- what is hashed, and the keys

  function SourceText(req: Request): seq<Byte> { Encode([Text("bitagent-llm-evaluation-source-v1"), req.infoHash]) }
  function GroupText(req: Request): seq<Byte> { Encode([Text("bitagent-llm-evaluation-group-v1"), req.groupKey]) }
  function InputText(p: Parsed): seq<Byte> { Encode([p.modelInput, p.taskInput]) }

  function ContractText(env: Env, req: Request): seq<Byte> {
    Encode([Build(env, req), req.contractId, req.model, req.promptVersion, env.sha(req.systemPrompt),
        env.sha(req.endpoint)])
  }

  function CaptureText(env: Env, req: Request, p: Parsed): seq<Byte> {
    Encode([req.task, req.candidateSource, p.origin, env.sha(SourceText(req)), env.sha(GroupText(req)),
        env.sha(InputText(p)), env.sha(ContractText(env, req))])
  }

  /** Every semantic dimension of a captured request, digested. */
  datatype Identity = Identity(
    task: Bytes, candidateSource: Bytes, samplingOrigin: Bytes,
    source: Bytes, group: Bytes, input: Bytes, prompt: Bytes, endpoint: Bytes,
    model: Bytes, promptVersion: Bytes, contractId: Bytes)

  function SemanticText(id: Identity, origin: Bytes): seq<Byte> {
    Encode([Text("bitagent-llm-dispatch-semantic-v1"), id.task, id.candidateSource, origin,
            id.source, id.group, id.input, id.prompt, id.endpoint, id.model, id.promptVersion, id.contractId])
  }

  function IdentityKey(env: Env, id: Identity): Result<Digest> {
    var origin := NormalizedOrigin(id.task, id.samplingOrigin);
    if !ValidTaskSource(id.task, id.candidateSource) || origin.Unavailable? then Unavailable
    else if |id.source| != 32 || |id.group| != 32 || |id.input| != 32 || |id.prompt| != 32 || |id.endpoint| != 32
        then Unavailable
    else if id.model == [] || id.promptVersion == [] || id.contractId == [] then Unavailable
    else Ok(env.sha(SemanticText(id, origin.value)))
  }

  function RequestIdentity(env: Env, req: Request, m: Bytes, t: Bytes): Identity {
    Identity(req.task, req.candidateSource, req.samplingOrigin,
      env.sha(SourceText(req)), env.sha(GroupText(req)), env.sha(Encode([m, t])), env.sha(req.systemPrompt),
          env.sha(req.endpoint),
      req.model, req.promptVersion, req.contractId)
  }

  function KeyForRequest(env: Env, req: Request): Result<Digest> {
    match ParseRequest(env, req)
    case Unavailable => Unavailable
    case Ok(p) => Ok(env.sha(CaptureText(env, req, p)))
  }

  function SemanticKeyForRequest(env: Env, req: Request): Result<Digest> {
    match (env.canonicalJson(req.modelInput), env.canonicalJson(req.taskInput))
    case (Ok(m), Ok(t)) =>
      if |req.infoHash| != 20 || req.groupKey == [] then Unavailable
          else IdentityKey(env, RequestIdentity(env, req, m, t))
    case _ => Unavailable
  }

  // ----------------------------------------------------------------------------- capturing

  type Time = int

  datatype Limits = Limits(enabled: bool, maxInputBytes: nat, retention: int)

  /** A stored capture. */
  datatype Row = Row(
    captureKey: Digest, task: Bytes, candidateSource: Bytes, samplingOrigin: Bytes,
    source: Digest, group: Digest, input: Digest, contract: Digest, prompt: Digest, endpoint: Digest,
    model: Bytes, promptVersion: Bytes, buildIdentity: Bytes, contractId: Bytes,
    systemPrompt: Bytes, modelInput: Bytes, taskInput: Bytes,
    capturedAt: Time, expiresAt: Time, privacyCheckedAt: Time)

  /** What a request comes to before it reaches the store. */
  datatype Admission = Switched | Admitted(row: Row) | Private | Refused

  /** The store's answer to a row, and what Capture answers; an error is CaptureUnavailable. */
  datatype Persisted = Inserted | Present | Blocked | Failed
  datatype Outcome = Disabled | Recorded | Duplicate | PrivacyBlocked | CaptureUnavailable

  function Answer(a: Admission, persisted: Persisted): Outcome {
    match a
    case Switched => Disabled
    case Private => PrivacyBlocked
    case Refused => CaptureUnavailable
    case Admitted(_) =>
      match persisted
      case Inserted => Recorded
      case Present => Duplicate
      case Blocked => PrivacyBlocked
      case Failed => CaptureUnavailable
  }

  /** The evidence store's answer, or that it cannot be asked. */
  type Privacy = Result<bool>

  /** Everything Capture does before it calls the store. */
  method Admit(env: Env, limits: Limits, req: Request, privacy: Privacy, now: Time) returns (a: Admission)
    ensures a == AdmissionOf(env, limits, req, privacy, now)
  {
    hide Encode, Text, ValidTaskSource, NormalizedOrigin;
    if !limits.enabled { return Switched; }
    if !ValidTaskSource(req.task, req.candidateSource) { return Refused; }
    var origin := NormalizedOrigin(req.task, req.samplingOrigin);
    if origin.Unavailable? { return Refused; }
    if req.nativePrivate { return Private; }
    if |req.infoHash| != 20 { return Refused; }
    if |req.groupKey| == 0 { return Refused; }
    if privacy.Unavailable? { return Refused; }
    if privacy.value { return Private; }
    if |req.modelInput| + |req.taskInput| > limits.maxInputBytes { return Refused; }
    var modelInput := env.canonicalJson(req.modelInput);
    if modelInput.Unavailable? { return Refused; }
    var taskInput := env.canonicalJson(req.taskInput);
    if taskInput.Unavailable? { return Refused; }
    if |modelInput.value| + |taskInput.value| > limits.maxInputBytes { return Refused; }
    if !Complete(env, req) { return Refused; }
    var row := DigestRow(env, req, Parsed(origin.value, modelInput.value, taskInput.value), now,
        now + limits.retention);
    a := Admitted(row);
  }

  /** The digests of a request and the row they make. */
  method DigestRow(env: Env, req: Request, p: Parsed, now: Time, expiresAt: Time) returns (row: Row)
    ensures row == RowOf(env, req, p, now, expiresAt)
  {
    hide Encode, Text;
    var build := env.trimSpace(req.buildIdentity);
    if build == [] {
      build := env.currentBuild;
    }
    var source := DigestParts(env.sha, [Text("bitagent-llm-evaluation-source-v1"), req.infoHash]);
    var group := DigestParts(env.sha, [Text("bitagent-llm-evaluation-group-v1"), req.groupKey]);
    var input := DigestParts(env.sha, [p.modelInput, p.taskInput]);
    var prompt, endpoint := env.sha(req.systemPrompt), env.sha(req.endpoint);
    var contract := DigestParts(env.sha, [build, req.contractId, req.model, req.promptVersion, prompt, endpoint]);
    var captureKey := DigestParts(env.sha, [req.task, req.candidateSource, p.origin, source, group, input, contract]);
    row := Row(captureKey, req.task, req.candidateSource, p.origin, source, group, input, contract, prompt, endpoint,
               req.model, req.promptVersion, build, req.contractId, req.systemPrompt, p.modelInput, p.taskInput,
               now, expiresAt, now);
  }

  predicate Complete(env: Env, req: Request) {
    && env.trimSpace(req.model) != [] && env.trimSpace(req.endpoint) != [] && env.trimSpace(req.promptVersion) != []
    && env.trimSpace(req.systemPrompt) != [] && env.trimSpace(req.contractId) != []
  }

  function AdmissionOf(env: Env, limits: Limits, req: Request, privacy: Privacy, now: Time): Admission {
    var p := ParseRequest(env, req);
    if !limits.enabled then Switched
    else if !ValidTaskSource(req.task, req.candidateSource)
        || NormalizedOrigin(req.task, req.samplingOrigin).Unavailable? then Refused
    else if req.nativePrivate then Private
    else if |req.infoHash| != 20 || req.groupKey == [] || privacy.Unavailable? then Refused
    else if privacy.value then Private
    else if |req.modelInput| + |req.taskInput| > limits.maxInputBytes || p.Unavailable? then Refused
    else if |p.value.modelInput| + |p.value.taskInput| > limits.maxInputBytes || !Complete(env, req) then Refused
    else Admitted(RowOf(env, req, p.value, now, now + limits.retention))
  }

  function RowOf(env: Env, req: Request, p: Parsed, now: Time, expiresAt: Time): Row {
    Row(env.sha(CaptureText(env, req, p)), req.task, req.candidateSource, p.origin,
      env.sha(SourceText(req)), env.sha(GroupText(req)), env.sha(InputText(p)), env.sha(ContractText(env, req)),
      env.sha(req.systemPrompt), env.sha(req.endpoint),
      req.model, req.promptVersion, Build(env, req), req.contractId, req.systemPrompt, p.modelInput, p.taskInput,
      now, expiresAt, now)
  }

  /** The recorder: Capture hands at most one row to its store. `asked` are the rows handed
      over so far, and `answer` is what the store says to this one. */
  class Recorder {
    const env: Env
    const limits: Limits
    var asked: seq<Row>

    constructor (env: Env, limits: Limits)
      ensures this.env == env && this.limits == limits && asked == []
    {
      this.env, this.limits, asked := env, limits, [];
    }

    method Capture(req: Request, privacy: Privacy, now: Time, answer: Persisted) returns (o: Outcome)
      modifies this
      ensures var a := AdmissionOf(env, limits, req, privacy, now);
        o == Answer(a, answer) && asked == old(asked) + if a.Admitted? then [a.row] else []
    {
      var a := Admit(env, limits, req, privacy, now);
      match a {
        case Switched => o := Disabled;
        case Private => o := PrivacyBlocked;
        case Refused => o := CaptureUnavailable;
        case Admitted(row) =>
          asked := asked + [row];
          match answer {
            case Inserted => o := Recorded;
            case Present => o := Duplicate;
            case Blocked => o := PrivacyBlocked;
            case Failed => o := CaptureUnavailable;
          }
      }
    }
  }

  /** The identity a dispatch reads back from a stored capture. */
  function RowIdentity(row: Row): Identity {
    Identity(row.task, row.candidateSource, row.samplingOrigin, row.source, row.group, row.input, row.prompt,
        row.endpoint,
      row.model, row.promptVersion, row.contractId)
  }
}
