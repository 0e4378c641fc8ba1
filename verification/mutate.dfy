/** The mutating admission webhook: it always admits the Pod and, for a
    notebook Pod (one carrying a "notebook-name" label), returns a JSON Patch
    that appends NB_NAMESPACE=<the Pod's namespace> to the environment of the
    Pod's first container. Also holds the unused name-cleaning helper.
 */
module Mutate {
  import opened Wrappers
  import opened Admission
  import JsonPointer

  /** The label whose presence marks a notebook Pod. */
  const NotebookLabel: string := "notebook-name"
  /** Append to the env list of container 0. */
  const EnvPath: string := "/spec/containers/0/env/-"
  /** The injected variable's name. */
  const NamespaceVar: string := "NB_NAMESPACE"
  const AuditKey: string := "namespace-admission-controller"
  const AuditMessage: string := "Added custom environment variables"
  /** Text that fmt.Errorf puts in front of the decoder's own message. */
  const DecodePrefix: string := "unable to decode Pod "

  /** Decoding the raw Pod bytes (json.Unmarshal): a Pod, or the decoder's error message. */
  type Decoder = Bytes -> Result<Pod, string>
  /** Serialising the patch (json.Marshal): only whether it fails, and with which message, is observable. */
  type Marshaller = JsonPatch -> Outcome<string>

  /** The two ways the webhook fails. */
  datatype MutateError =
    | DecodeError(cause: string)         // the payload is not a Pod; wrapped with %w
    | SerializationError(cause: string)  // the patch could not be serialised; returned as is

  /** What mutate returns: the response and the error, which is authoritative when present. */
  datatype Verdict = Verdict(response: AdmissionResponse, err: Option<MutateError>)

  /** The error's message as Go's Error() would print it. */
  function Message(e: MutateError): (m: string)
    ensures |m| >= |e.cause| && m[|m| - |e.cause|..] == e.cause
    ensures e.DecodeError? ==> |m| == |DecodePrefix| + |e.cause| && m[..|DecodePrefix|] == DecodePrefix
    ensures e.SerializationError? ==> m == e.cause
  {
    match e
    case DecodeError(cause) => DecodePrefix + cause
    case SerializationError(cause) => cause
  }

  /** Replaces every '_' with '-' (strings.ReplaceAll(name, "_", "-")). */
  function CleanName(name: string): (r: string)
    ensures |r| == |name|
    ensures forall i :: 0 <= i < |name| ==> r[i] == (if name[i] == '_' then '-' else name[i])
    ensures '_' !in r
  {
    if name == [] then []
    else [if name[0] == '_' then '-' else name[0]] + CleanName(name[1..])
  }

  /** The response fields set before the Pod is even decoded. */
  function DefaultResponse(req: AdmissionRequest): AdmissionResponse
  {
    AdmissionResponse(req.uid, true, None, None, None, None)
  }

  /** The single-operation patch built for a notebook Pod. */
  function NotebookPatch(pod: Pod): JsonPatch
  {
    [PatchOp(Add, EnvPath, EnvVar(NamespaceVar, pod.namespace))]
  }

  /** The audit annotations attached to a patched notebook Pod. */
  function NotebookAnnotations(): map<string, string>
  {
    map[AuditKey := AuditMessage]
  }

  /** Whether the decoded payload is a notebook Pod. */
  predicate IsNotebookPayload(req: AdmissionRequest, decode: Decoder)
  {
    decode(req.raw).Success? && NotebookLabel in decode(req.raw).value.labels
  }

  /** The admission decision. */
  function Mutate(req: AdmissionRequest, decode: Decoder, marshal: Marshaller): (v: Verdict)
    // the request is always echoed and always admitted
    ensures v.response.uid == req.uid
    ensures v.response.allowed
    // PatchType and the audit annotation are set exactly for a decoded notebook Pod
    ensures v.response.patchType.Some? <==> IsNotebookPayload(req, decode)
    ensures v.response.auditAnnotations.Some? <==> IsNotebookPayload(req, decode)
    ensures v.response.patchType.Some? ==> v.response.patchType.value == JSONPatch
    ensures v.response.auditAnnotations.Some? ==>
              v.response.auditAnnotations.value.Keys == {AuditKey} &&
              v.response.auditAnnotations.value[AuditKey] == AuditMessage
    // a patch is present only for a notebook Pod, and then it is the one env append
    ensures v.response.patch.Some? ==>
              IsNotebookPayload(req, decode) &&
              |v.response.patch.value| == 1 &&
              v.response.patch.value[0].op == Add &&
              v.response.patch.value[0].path == EnvPath &&
              v.response.patch.value[0].value == EnvVar(NamespaceVar, decode(req.raw).value.namespace)
    // the success status accompanies the patch and nothing else
    ensures v.response.result.Some? <==> v.response.patch.Some?
    ensures v.response.result.Some? ==> v.response.result.value.status == StatusSuccess
    // an error never comes with a patch; without one, PatchType and Patch come together
    ensures v.err.Some? ==> v.response.patch.None?
    ensures v.err.None? ==> (v.response.patchType.Some? <==> v.response.patch.Some?)
    // the two error kinds and when they arise
    ensures v.err.Some? && v.err.value.DecodeError? <==> decode(req.raw).Failure?
    ensures v.err.Some? && v.err.value.SerializationError? ==> IsNotebookPayload(req, decode)
  {
    var defaults := DefaultResponse(req);
    match decode(req.raw)
    case Failure(cause) => Verdict(defaults, Some(DecodeError(cause)))
    case Success(pod) =>
      if NotebookLabel in pod.labels then
        var annotated := defaults.(patchType := Some(JSONPatch), auditAnnotations := Some(NotebookAnnotations()));
        var patch := NotebookPatch(pod);
        match marshal(patch)
        case Fail(cause) => Verdict(annotated, Some(SerializationError(cause)))
        case Pass => Verdict(annotated.(patch := Some(patch), result := Some(Status(StatusSuccess))), None)
      else
        Verdict(defaults, None)
  }

  /** A payload that does not decode: the decoder's error, wrapped, and only the default fields. */
  lemma MutateDecodeFailure(req: AdmissionRequest, decode: Decoder, marshal: Marshaller)
    requires decode(req.raw).Failure?
    ensures Mutate(req, decode, marshal).err == Some(DecodeError(decode(req.raw).error))
    ensures Message(Mutate(req, decode, marshal).err.value) == DecodePrefix + decode(req.raw).error
    ensures Mutate(req, decode, marshal).response == AdmissionResponse(req.uid, true, None, None, None, None)
  {
  }

  /** A Pod without the notebook label: no error, and nothing beyond the defaults. */
  lemma MutateNonNotebook(req: AdmissionRequest, decode: Decoder, marshal: Marshaller)
    requires decode(req.raw).Success?
    requires NotebookLabel !in decode(req.raw).value.labels
    ensures Mutate(req, decode, marshal).err == None
    ensures Mutate(req, decode, marshal).response == AdmissionResponse(req.uid, true, None, None, None, None)
  {
  }

  /** A notebook Pod whose patch serialises: the full mutation. */
  lemma MutateNotebook(req: AdmissionRequest, decode: Decoder, marshal: Marshaller)
    requires decode(req.raw).Success?
    requires NotebookLabel in decode(req.raw).value.labels
    requires marshal(NotebookPatch(decode(req.raw).value)).Pass?
    ensures Mutate(req, decode, marshal).err == None
    ensures Mutate(req, decode, marshal).response == AdmissionResponse(
              req.uid, true,
              Some(JSONPatch),
              Some([PatchOp(Add, "/spec/containers/0/env/-", EnvVar("NB_NAMESPACE", decode(req.raw).value.namespace))]),
              Some(map["namespace-admission-controller" := "Added custom environment variables"]),
              Some(Status("Success")))
  {
  }

  /** A notebook Pod whose patch fails to serialise: the marshaller's error, unwrapped; the
      PatchType and annotation already set stay in the response, Patch and Result do not. */
  lemma MutateMarshalFailure(req: AdmissionRequest, decode: Decoder, marshal: Marshaller)
    requires decode(req.raw).Success?
    requires NotebookLabel in decode(req.raw).value.labels
    requires marshal(NotebookPatch(decode(req.raw).value)).Fail?
    ensures Mutate(req, decode, marshal).err ==
              Some(SerializationError(marshal(NotebookPatch(decode(req.raw).value)).error))
    ensures Message(Mutate(req, decode, marshal).err.value) ==
              marshal(NotebookPatch(decode(req.raw).value)).error
    ensures Mutate(req, decode, marshal).response == AdmissionResponse(
              req.uid, true, Some(JSONPatch), None, Some(NotebookAnnotations()), None)
  {
  }

  /** Classification looks only at whether the "notebook-name" key is present: two requests
      with the same UID whose Pods share a namespace and agree on that key get the same
      verdict, whatever the label's value, the other labels, the Pod name or the containers. */
  lemma MutateDependsOnlyOnLabelKey(
    req1: AdmissionRequest, req2: AdmissionRequest, decode: Decoder, marshal: Marshaller)
    requires req1.uid == req2.uid
    requires decode(req1.raw).Success? && decode(req2.raw).Success?
    requires decode(req1.raw).value.namespace == decode(req2.raw).value.namespace
    requires (NotebookLabel in decode(req1.raw).value.labels) == (NotebookLabel in decode(req2.raw).value.labels)
    ensures Mutate(req1, decode, marshal) == Mutate(req2, decode, marshal)
  {
  }

  /** The reference tokens of the patch path. */
  const EnvPathTokens: seq<string> := ["spec", "containers", "0", "env", JsonPointer.EndOfArray]

  /** The patch path, spelled token by token. */
  lemma EnvPathSpelled()
    ensures "/" + "spec" + ("/" + "containers" + ("/" + "0" + ("/" + "env" + ("/" + "-" + [])))) == EnvPath
  {
  }

  /** Five tokens free of '~' and '/' are rendered verbatim, each after a '/'. */
  lemma RenderPlainTokens(a: string, b: string, c: string, d: string, e: string)
    requires '~' !in a && '/' !in a && '~' !in b && '/' !in b && '~' !in c && '/' !in c
    requires '~' !in d && '/' !in d && '~' !in e && '/' !in e
    ensures JsonPointer.Render([a, b, c, d, e]) == "/" + a + ("/" + b + ("/" + c + ("/" + d + ("/" + e + []))))
  {
    JsonPointer.RenderPlainCons(e, []);
    JsonPointer.RenderPlainCons(d, [e]);
    JsonPointer.RenderPlainCons(c, [d, e]);
    JsonPointer.RenderPlainCons(b, [c, d, e]);
    JsonPointer.RenderPlainCons(a, [b, c, d, e]);
  }

  /** Rendering the tokens spec, containers, 0, env, "-" spells the patch path. */
  lemma RenderEnvPath()
    ensures JsonPointer.Render(EnvPathTokens) == EnvPath
  {
    RenderPlainTokens("spec", "containers", "0", "env", "-");
    EnvPathSpelled();
  }

  /** The patch path parses to the tokens spec, containers, 0, env, "-": the end of the env
      array of the first container, which an "add" appends to (section 4.1 of RFC 6902). */
  lemma EnvPathTargetsEnvAppend()
    ensures JsonPointer.Parse(EnvPath) == Success(EnvPathTokens)
  {
    RenderEnvPath();
    JsonPointer.ParseRender(EnvPathTokens);
  }

  /** CleanName is idempotent. */
  lemma CleanNameIdempotent(name: string)
    ensures CleanName(CleanName(name)) == CleanName(name)
  {
  }

  /** CleanName leaves a string unchanged exactly when it holds no '_'. */
  lemma CleanNameFixedPoints(name: string)
    ensures CleanName(name) == name <==> '_' !in name
  {
  }

  /** CleanName works character by character, so it distributes over concatenation. */
  lemma CleanNameConcat(a: string, b: string)
    ensures CleanName(a + b) == CleanName(a) + CleanName(b)
  {
  }
}
