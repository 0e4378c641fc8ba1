/** The part of the Kubernetes API that the mutating webhook reads or writes:
    the admission request and response (admission/v1beta1), the Pod with the
    fields the webhook looks at (core/v1), the JSON Patch it emits and the
    status object it attaches (meta/v1). Every other field of these types is
    left out of the model.
 */
module Admission {
  import opened Wrappers

  /** The raw, still serialised bytes of an embedded object. */
  type Bytes = seq<bv8>

  /** One environment-variable entry of a container (core/v1 EnvVar). */
  datatype EnvVar = EnvVar(name: string, value: string)

  /** A container, reduced to its name and its ordered environment. */
  datatype Container = Container(name: string, env: seq<EnvVar>)

  /** A decoded Pod: namespace, name and labels of its metadata, and its containers. */
  datatype Pod = Pod(
    namespace: string,
    name: string,
    labels: map<string, string>,
    containers: seq<Container>)

  /** An admission request: the opaque request UID and the raw Pod payload (Object.Raw). */
  datatype AdmissionRequest = AdmissionRequest(uid: string, raw: Bytes)

  /** The patch format tag; the webhook only ever uses JSON Patch. */
  datatype PatchType = JSONPatch {
    function WireName(): string { "JSONPatch" }
  }

  /** The JSON Patch operation kinds the webhook emits (RFC 6902 section 4). */
  datatype OpKind = Add {
    function WireName(): string { "add" }
  }

  /** One JSON Patch operation: its kind, a JSON Pointer target and the value it carries. */
  datatype PatchOp = PatchOp(op: OpKind, path: string, value: EnvVar)

  /** A JSON Patch document: an ordered sequence of operations. */
  type JsonPatch = seq<PatchOp>

  /** meta/v1 StatusSuccess. */
  const StatusSuccess: string := "Success"

  /** A meta/v1 Status, reduced to its status string. */
  datatype Status = Status(status: string)

  /** An admission response; every optional field is a nil-able pointer or map in Go. */
  datatype AdmissionResponse = AdmissionResponse(
    uid: string,
    allowed: bool,
    patchType: Option<PatchType>,
    patch: Option<JsonPatch>,
    auditAnnotations: Option<map<string, string>>,
    result: Option<Status>)
}
