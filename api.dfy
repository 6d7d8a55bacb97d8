/**
 The boundary between the tool and its surroundings: the answers of the
 Kubernetes and Compute APIs, the calls the tool makes, and how a run ends.
 */
module Api {
  import opened Labels

  datatype Option<+T> = None | Some(value: T)

  /** The opaque `labelFingerprint` token of a GCE instance. */
  type Fingerprint = string

  /** One entry of the `errors` list in a failed Compute API answer. */
  datatype ErrorEntry = ErrorEntry(code: string, location: string, message: string)

  /**
   The answer of `instances().get`: either one that holds an `error` key,
   or the instance's labels (as enumerated by `items()`) and fingerprint.
   */
  datatype GetResponse =
    | GetError
    | InstanceInfo(labels: seq<Label>, labelFingerprint: Fingerprint)

  /** The body of an `instances().setLabels` request. */
  datatype SetLabelsBody = SetLabelsBody(labelFingerprint: Fingerprint, labels: LabelMap)

  /** The answer of `instances().setLabels`: success, or one holding an `error` key. */
  datatype SetResponse =
    | SetOk
    | SetError(errors: seq<ErrorEntry>)

  /**
   The outbound calls of a run, in order. The node name is the value of the
   `NODE_NAME` environment variable, which may be unset; it names both the
   Kubernetes node and the GCE instance.
   */
  datatype Call =
    | ReadNode(node: Option<string>)
    | GetInstance(zone: string, instance: Option<string>)
    | SetLabels(zone: string, instance: Option<string>, body: SetLabelsBody)

  /** Why a run stopped with exit status 1. */
  datatype Error =
    | EmptyLabelNames
    | EmptyNodeName
    | InstanceLookupError
    | LabelWriteError

  datatype Status = Done | Failed(error: Error)

  /** The process exit status of a run. */
  function ExitCode(status: Status): (code: int)
    ensures code == 0 <==> status == Done
    ensures code == 0 || code == 1
  {
    match status
    case Done => 0
    case Failed(_) => 1
  }
}
