# Namespace-injecting admission webhook, modelled in Dafny

The system is a Kubernetes mutating admission webhook. For each Pod admission
request it always admits the Pod. If the Pod carries a `notebook-name` label,
it answers with a JSON Patch (RFC 6902) holding a single `add` operation. That
operation appends the environment variable `NB_NAMESPACE=<the Pod's namespace>`
to the env list of the Pod's first container, at the JSON Pointer (RFC 6901)
`/spec/containers/0/env/-`. In that case the response also carries an audit
annotation and a success status. The repository also holds an unused helper,
`cleanName`, that replaces every `_` in a name with `-`.

Files:

- `wrappers.dfy`: `Option`, `Result` and `Outcome`.
- `admission.dfy`: the parts of the admission request and response, the Pod, the
  JSON Patch operation and the status that the webhook reads or writes.
- `json_pointer.dfy`: JSON Pointer parsing and rendering (sections 3 and 4 of
  RFC 6901), with the round trip `Parse(Render(tokens)) == Success(tokens)`. It
  is used to show what the patch path points at.
- `mutate.dfy`: the admission decision `Mutate`, its per-path lemmas, and `CleanName`.

Decoding the raw Pod bytes (`json.Unmarshal`) is the parameter
`decode: Bytes -> Result<Pod, string>`. Serialising the patch (`json.Marshal`)
is the parameter `marshal: JsonPatch -> Outcome<string>`. Every property below
holds for every decoder and serialiser. The response's `patch` field holds the
structured operation list that `json.Marshal` would serialise, not its bytes.

The result of `Mutate` is a `Verdict`: the response together with an optional
error, matching Go's `(AdmissionResponse, error)` pair. The serialiser-failure
branch is modelled as the code does it. `PatchType` and the audit annotation are
already set at that point. `Patch` stays nil, because `json.Marshal` returns nil
on error, and `Result` is never set. So "PatchType is present iff Patch is
present" holds only when there is no error, and that is how `Mutate` states it.

Calling `Mutate` twice on the same request gives the same verdict, because it
is a pure function of its arguments and keeps no state between calls.

## Model

| member | source | states |
|---|---|---|
| Mutate.Mutate | mutate.go:18-74 | For every decoder and serialiser: the response UID is the request UID and `Allowed` is always true. PatchType (always JSONPatch) and the audit annotation (exactly the one entry `namespace-admission-controller` -> `Added custom environment variables`) are set exactly when the payload decodes to a Pod with the `notebook-name` key. A patch is present only for such a Pod, and then it is exactly one `add` of `NB_NAMESPACE` = the Pod's namespace at `/spec/containers/0/env/-`. The Success status is present exactly when the patch is. An error never comes with a patch, and without an error PatchType and Patch come together. A decode error arises exactly when decoding fails. A serialisation error arises only for a notebook Pod. |
| Mutate.MutateDecodeFailure | mutate.go:19-30 | When the payload does not decode, the error is a decode error wrapping the decoder's error, with message `unable to decode Pod ` + cause. The response holds only the defaults: the UID, Allowed = true, and no PatchType, Patch, AuditAnnotations or Result. |
| Mutate.MutateNonNotebook | mutate.go:35-73 | When the decoded Pod lacks the `notebook-name` key, there is no error and the response equals the defaults, with PatchType, Patch, AuditAnnotations and Result all absent. |
| Mutate.MutateNotebook | mutate.go:40-73 | When the decoded Pod has the `notebook-name` key and the patch serialises, there is no error. The response has PatchType JSONPatch and the patch `[add /spec/containers/0/env/- {NB_NAMESPACE: namespace}]`, with the namespace verbatim. It has the single audit annotation and a `Success` status. |
| Mutate.MutateMarshalFailure | mutate.go:43-64 | When serialising the patch fails, the serialiser's error is returned without wrapping. The response keeps the PatchType and annotation set before the call, and has no Patch and no Result. |
| Mutate.MutateDependsOnlyOnLabelKey | mutate.go:35-38 | Two requests with the same UID, whose Pods decode to the same namespace and agree on whether the `notebook-name` key is present, get the same verdict. The label's value, including the empty string, does not matter. Nor do other labels, the Pod name, or the containers and how many there are. |
| Mutate.EnvPathTargetsEnvAppend | mutate.go:53 | The patch path parses as a JSON Pointer to the tokens `spec`, `containers`, `0`, `env`, `-`. That is the end-of-array position of the first container's env list, which an `add` appends to. |
| Mutate.Message | mutate.go:28-29 | An error's message ends with the underlying cause. A decode error's message is the prefix `unable to decode Pod ` followed by the cause. A serialisation error's message is the cause itself (mutate.go:63 returns it unwrapped). |
| Mutate.CleanName | mutate.go:14-16 | The result has the input's length and contains no `_`. Each character is the input's character, except that `_` becomes `-`. |
| Mutate.CleanNameIdempotent | mutate.go:14-16 | Cleaning a name twice gives the same result as cleaning it once. |
| Mutate.CleanNameFixedPoints | mutate.go:14-16 | Cleaning leaves a name unchanged exactly when it contains no `_`. Both directions are proved. |
| Mutate.CleanNameConcat | mutate.go:14-16 | Cleaning distributes over concatenation, so it works character by character. |

## Left out

- JSON decoding of the Pod (`json.Unmarshal`, mutate.go:28) is the abstract `decode` parameter. Which byte strings decode, and to which Pod, is not modelled.
- JSON encoding of the patch (`json.Marshal`, mutate.go:61) is the abstract `marshal` parameter. Only whether it fails, and with what message, is modelled. The response holds the structured patch, not its bytes. So wire details such as `omitempty` on the env var's `value` field are not modelled. Under that tag, an empty namespace is serialised without a `value` key.
- Logging (`log.Printf`, mutate.go:32, 41, 70) is left out. It is output only and does not affect the result.
- Kubernetes API fields other than the request UID and raw object, and the Pod's namespace, name, labels and containers, are left out. The webhook never reads them.
- Applying the patch to a Pod is left out, including the failure when a Pod has no containers. The webhook builds the patch but never applies it.
- The HTTP/TLS server, webhook registration and process start-up are not part of this model.
- Mutate.Message: models only the text of Go's error values, not the `errors.Unwrap` chain that `%w` creates.
- Mutate.CleanName: models strings as sequences of characters rather than UTF-8 bytes. Both `_` and `-` are single-byte ASCII characters, so replacing bytes and replacing characters agree.
