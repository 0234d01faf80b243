/**
The hypotheses of the key theorems can be met in the case they are for: two requests that
differ only in build, and a hash by length and a marker byte that tells their texts apart.
*/
module CaptureKeyWitness {
  import opened CaptureKeys
  import opened CaptureKeyLaws

  /** The first of the last thirty-two bytes. */
  function Marker(x: seq<Byte>): Byte {
    if |x| >= 32 then x[|x| - 32] else 0
  }

  function ByShape(x: seq<Byte>): Digest {
    [|x| % 256, Marker(x)] + seq(30, _ => 0)
  }

  const ENV: Env := Env(ByShape, b => Ok(b), b => b, [])
  const LIMITS: Limits := Limits(true, 100, 1)

  /** The same request, made by a build of one's choice. */
  function MadeBy(build: Bytes): Request {
    Request(Text("contentfilter"), [], [], seq(20, _ => 1), [1], false, [1], [1, 1], [1], [1], [1], [1], build, [1])
  }

  const PARSED: Parsed := Parsed(Text("natural_capture"), [1], [1])

  function Size(parts: seq<Bytes>): nat {
    if parts == [] then 0 else 8 + |parts[0]| + Size(parts[1..])
  }

  lemma {:induction false} EncodedSize(parts: seq<Bytes>)
    ensures |Encode(parts)| == Size(parts)
    decreases |parts|
  {
    if parts != [] { EncodedSize(parts[1..]); }
  }

  lemma SizeNext(part: Bytes, rest: seq<Bytes>)
    ensures Size([part] + rest) == 8 + |part| + Size(rest)
  {
    assert ([part] + rest)[1..] == rest;
  }

  lemma SizeOfTwo(a: Bytes, b: Bytes)
    ensures |Encode([a, b])| == 16 + |a| + |b|
  {
    EncodedSize([a, b]);
    SizeNext(b, []);
    SizeNext(a, [b]);
    assert [a] + [b] == [a, b] && [b] + [] == [b];
  }

  lemma SizeOfThree(a: Bytes, b: Bytes, c: Bytes, rest: seq<Bytes>)
    ensures Size([a, b, c] + rest) == 24 + |a| + |b| + |c| + Size(rest)
  {
    SizeNext(c, rest);
    SizeNext(b, [c] + rest);
    SizeNext(a, [b] + ([c] + rest));
    assert [a, b, c] + rest == [a] + ([b] + ([c] + rest));
  }

  lemma SizeOfSix(a: Bytes, b: Bytes, c: Bytes, d: Bytes, e: Bytes, f: Bytes, rest: seq<Bytes>)
    ensures Size([a, b, c, d, e, f] + rest) == 48 + |a| + |b| + |c| + |d| + |e| + |f| + Size(rest)
  {
    hide Size;
    SizeOfThree(d, e, f, rest);
    SizeOfThree(a, b, c, [d, e, f] + rest);
    assert [a, b, c, d, e, f] + rest == [a, b, c] + ([d, e, f] + rest);
  }

  lemma NothingSized()
    ensures Size([]) == 0
  {
  }

  lemma ContractSize(build: Bytes)
    requires build != []
    ensures |ContractText(ENV, MadeBy(build))| == 115 + |build|
  {
    hide Encode, Size, Text, ByShape;
    var req := MadeBy(build);
    var prompt, endpoint := ENV.sha(req.systemPrompt), ENV.sha(req.endpoint);
    var parts: seq<Bytes> := [Build(ENV, req), req.contractId, req.model, req.promptVersion, prompt, endpoint];
    EncodedSize(parts);
    NothingSized();
    SizeOfSix(parts[0], parts[1], parts[2], parts[3], parts[4], parts[5], []);
    assert [parts[0], parts[1], parts[2], parts[3], parts[4], parts[5]] + [] == parts;
  }

  lemma {:induction false} EndsWithLastPart(parts: seq<Bytes>)
    requires parts != []
    ensures var e, last := Encode(parts), parts[|parts| - 1]; |last| <= |e| && e[|e| - |last|..] == last
    decreases |parts|
  {
    hide BigEndian;
    if |parts| > 1 {
      var rest, last := Encode(parts[1..]), parts[|parts| - 1];
      EndsWithLastPart(parts[1..]);
      assert Encode(parts)[|Encode(parts)| - |last|..] == rest[|rest| - |last|..];
    } else {
      assert parts[1..] == [];
    }
  }

  /** The capture text ends with the digest of the contract, which begins with its length. */
  lemma CaptureShape(build: Bytes)
    requires 0 < |build| < 100
    ensures var x := CaptureText(ENV, MadeBy(build), PARSED); |x| == 212 && Marker(x) == 115 + |build|
  {
    hide Encode, Size, ContractText, SourceText, GroupText, InputText;
    var req := MadeBy(build);
    var s, g, i: Bytes := ENV.sha(SourceText(req)), ENV.sha(GroupText(req)), ENV.sha(InputText(PARSED));
    var c: Bytes := ENV.sha(ContractText(ENV, req));
    ContractSize(build);
    assert c[0] == 115 + |build|;
    CaptureParts212(req.task, req.candidateSource, PARSED.origin, s, g, i, c);
  }

  lemma CaptureParts212(t: Bytes, r: Bytes, o: Bytes, s: Bytes, g: Bytes, i: Bytes, c: Bytes)
    requires |t| == 13 && |r| == 0 && |o| == 15 && |s| == 32 && |g| == 32 && |i| == 32 && |c| == 32
    ensures var x := Encode([t, r, o, s, g, i, c]); |x| == 212 && Marker(x) == c[0]
  {
    hide Encode, Size;
    var parts: seq<Bytes> := [t, r, o, s, g, i, c];
    EncodedSize(parts);
    NothingSized();
    SizeNext(c, []);
    SizeOfSix(t, r, o, s, g, i, [c]);
    assert [c] + [] == [c] && [t, r, o, s, g, i] + [c] == parts;
    EndsWithLastPart(parts);
    assert Encode(parts)[|Encode(parts)| - 32..][0] == c[0];
  }

  lemma SemanticSize(build: Bytes)
    ensures |SemanticText(RequestIdentity(ENV, MadeBy(build), [1], [1]), PARSED.origin)| == 320
  {
    hide Encode, Size, SourceText, GroupText, ByShape;
    var id := RequestIdentity(ENV, MadeBy(build), [1], [1]);
    var n := Text("bitagent-llm-dispatch-semantic-v1");
    var tail: seq<Bytes> := [id.input, id.prompt, id.endpoint, id.model, id.promptVersion, id.contractId];
    var parts: seq<Bytes> := [n, id.task, id.candidateSource, PARSED.origin, id.source, id.group] + tail;
    EncodedSize(parts);
    NothingSized();
    SizeOfSix(id.input, id.prompt, id.endpoint, id.model, id.promptVersion, id.contractId, []);
    assert tail + [] == tail;
    SizeOfSix(n, id.task, id.candidateSource, PARSED.origin, id.source, id.group, tail);
    assert parts == [n, id.task, id.candidateSource, PARSED.origin, id.source, id.group,
                     id.input, id.prompt, id.endpoint, id.model, id.promptVersion, id.contractId];
    assert |n| == 33 && |id.task| == 13 && |PARSED.origin| == 15;
  }

  lemma SmallSizes(build: Bytes)
    ensures var req := MadeBy(build); |SourceText(req)| == 69 && |GroupText(req)| == 49 && |InputText(PARSED)| == 18
  {
    hide Encode;
    var req := MadeBy(build);
    SizeOfTwo(Text("bitagent-llm-evaluation-source-v1"), req.infoHash);
    SizeOfTwo(Text("bitagent-llm-evaluation-group-v1"), req.groupKey);
    SizeOfTwo(PARSED.modelInput, PARSED.taskInput);
  }

  lemma ShapesTellApart(texts: set<seq<Byte>>)
    requires forall x, y :: x in texts && y in texts && |x| % 256 == |y| % 256 && Marker(x) == Marker(y) ==> x == y
    ensures NoCollision(ByShape, texts)
  {
    forall x, y | x in texts && y in texts && ByShape(x) == ByShape(y) ensures x == y {
      assert ByShape(x)[0] == ByShape(y)[0] && ByShape(x)[1] == ByShape(y)[1];
    }
  }

  lemma TenApart(texts: set<seq<Byte>>, s: seq<Byte>, g: seq<Byte>, i: seq<Byte>, p: seq<Byte>, e: seq<Byte>,
                 c: seq<Byte>, c': seq<Byte>, k: seq<Byte>, k': seq<Byte>, m: seq<Byte>)
    requires |s| == 69 && |g| == 49 && |i| == 18 && |p| == 1 && |e| == 2 && |c| == 116 && |c'| == 117
    requires |k| == 212 && |k'| == 212 && Marker(k) != Marker(k') && |m| == 320
    requires texts == {s, g, i, p, e, c, c', k, k', m}
    ensures NoCollision(ByShape, texts)
  {
    hide NoCollision, Marker;
    ShapesTellApart(texts);
  }

  lemma TextsApart(a: Request, b: Request)
    requires a == MadeBy([1]) && b == MadeBy([1, 1])
    ensures NoCollision(ByShape, Hashed(ENV, a, PARSED) + Hashed(ENV, b, PARSED))
  {
    hide Encode, Text, SourceText, GroupText, InputText, ContractText, CaptureText, SemanticText, NoCollision,
        ByShape, Marker;
    SmallSizes([1]);
    ContractSize([1]);
    ContractSize([1, 1]);
    CaptureShape([1]);
    CaptureShape([1, 1]);
    SemanticSize([1]);
    SameBesidesBuild(a, b);
    TenApart(Hashed(ENV, a, PARSED) + Hashed(ENV, b, PARSED),
             SourceText(a), GroupText(a), InputText(PARSED), a.systemPrompt, a.endpoint,
             ContractText(ENV, a), ContractText(ENV, b), CaptureText(ENV, a, PARSED), CaptureText(ENV, b, PARSED),
             SemanticText(RequestIdentity(ENV, a, [1], [1]), PARSED.origin));
  }

  lemma SameBesidesBuild(a: Request, b: Request)
    requires a == MadeBy([1]) && b == MadeBy([1, 1])
    ensures SourceText(a) == SourceText(b) && GroupText(a) == GroupText(b) && a.systemPrompt == b.systemPrompt
      && a.endpoint == b.endpoint
    ensures RequestIdentity(ENV, a, [1], [1]) == RequestIdentity(ENV, b, [1], [1])
    ensures SameMeaning(a, PARSED, b, PARSED) && Build(ENV, a) != Build(ENV, b)
  {
    hide Encode, Text, ByShape;
  }

  lemma Parses(build: Bytes)
    ensures var req := MadeBy(build);
      ParseRequest(ENV, req) == Ok(PARSED) && ValidTaskSource(req.task, req.candidateSource)
  {
  }

  lemma Captured(build: Bytes)
    ensures var req := MadeBy(build); AdmissionOf(ENV, LIMITS, req, Ok(false), 0).Admitted? && HasKeys(ENV, req)
  {
    hide Encode, Text, ValidTaskSource, ByShape;
    Parses(build);
    KeysAgree(ENV, LIMITS, MadeBy(build), Ok(false), 0);
  }

  /** Two requests that differ only in build: both are captured, their keys distinguish them,
      and they share the semantic key but not the capture key. */
  lemma SomeKeysDistinguish() returns (env: Env, limits: Limits, a: Request, b: Request)
    ensures AdmissionOf(env, limits, a, Ok(false), 0).Admitted? && AdmissionOf(env, limits, b, Ok(false), 0).Admitted?
    ensures KeysDistinguish(env, a, b) && Build(env, a) != Build(env, b)
    ensures SemanticKeyForRequest(env, a) == SemanticKeyForRequest(env, b)
      && KeyForRequest(env, a) != KeyForRequest(env, b)
  {
    hide Hashed, HasKeys, ParseRequest, NoCollision, ByShape, AdmissionOf, Text, SameMeaning, SemanticKeyForRequest,
        KeyForRequest;
    env, limits, a, b := ENV, LIMITS, MadeBy([1]), MadeBy([1, 1]);
    Parses([1]);
    Parses([1, 1]);
    Captured([1]);
    Captured([1, 1]);
    TextsApart(a, b);
    SameBesidesBuild(a, b);
    EqualKeys(env, a, b);
  }
}
