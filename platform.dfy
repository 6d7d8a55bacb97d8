/**
 An ASSUMPTION ABOUT THE ENVIRONMENT, not code of the tool: how the Compute
 API is taken to treat `setLabels`. The tool itself only passes on the
 fingerprint it read; rejecting a stale one is the platform's
 compare-and-swap. Under this assumption the lemmas below say what a run's
 write does to the instance.
 */
module Platform {
  import opened Labels
  import opened Api
  import opened NodeReader
  import opened InstanceWriter
  import opened Sync

  /** The labels the platform stores for an instance, and their current fingerprint. */
  datatype InstanceState = InstanceState(labels: LabelMap, fingerprint: Fingerprint)

  /** A `get` answer that describes the state `s`. */
  predicate Reports(read: GetResponse, s: InstanceState)
  {
    read.InstanceInfo? && Dict(read.labels) == s.labels && read.labelFingerprint == s.fingerprint
  }

  /**
   Assumed `setLabels`: with the current fingerprint the labels are replaced
   and `next`, a new fingerprint, is issued; with any other fingerprint the
   write is refused with the errors `conflict` and the state stays as it was.
   */
  function ApplySetLabels(s: InstanceState, body: SetLabelsBody, next: Fingerprint,
                          conflict: seq<ErrorEntry>): (after: (InstanceState, SetResponse))
  {
    if body.labelFingerprint == s.fingerprint then (InstanceState(body.labels, next), SetOk)
    else (s, SetError(conflict))
  }

  /** Without another writer between read and write, the write succeeds and stores the merge. */
  lemma UndisturbedWriteApplies(s: InstanceState, read: GetResponse, proposed: LabelMap,
                                next: Fingerprint, conflict: seq<ErrorEntry>)
    requires Reports(read, s)
    ensures ApplySetLabels(s, SentBody(proposed, read), next, conflict)
         == (InstanceState(Merge(proposed, s.labels), next), SetOk)
  {
  }

  /** If another writer changed the fingerprint since the read, the write is refused and nothing changes. */
  lemma StaleWriteRejected(s: InstanceState, read: GetResponse, proposed: LabelMap,
                           next: Fingerprint, conflict: seq<ErrorEntry>)
    requires read.InstanceInfo? && read.labelFingerprint != s.fingerprint
    ensures ApplySetLabels(s, SentBody(proposed, read), next, conflict) == (s, SetError(conflict))
  {
  }

  /**
   Two runs in a row with the same node labels and no other writer: the
   second write succeeds and leaves the instance's labels as the first left them.
   */
  lemma SecondRunIsNoOp(s: InstanceState, read1: GetResponse, read2: GetResponse, proposed: LabelMap,
                        next1: Fingerprint, next2: Fingerprint, conflict: seq<ErrorEntry>)
    requires Reports(read1, s)
    requires Reports(read2, ApplySetLabels(s, SentBody(proposed, read1), next1, conflict).0)
    ensures var s1 := ApplySetLabels(s, SentBody(proposed, read1), next1, conflict).0;
            var (s2, r2) := ApplySetLabels(s1, SentBody(proposed, read2), next2, conflict);
            r2 == SetOk && s2.labels == s1.labels
  {
  }

  /**
   A whole run whose instance read `read` reports `readState`, while the
   instance is in state `s` when the write arrives (another writer may have
   changed it in between). The platform answers the body the run sends as
   assumed above; `after` is the instance state once the run is over.
   */
  method RunAgainstPlatform(labelNames: seq<string>, nodeName: string, nodeLabels: seq<Label>,
                            readState: InstanceState, read: GetResponse, s: InstanceState,
                            next: Fingerprint, conflict: seq<ErrorEntry>)
    returns (calls: seq<Call>, status: Status, after: InstanceState)
    requires labelNames != [] && nodeName != ""
    requires Reports(read, readState)
    ensures var proposed := Requested(Dict(nodeLabels), labelNames);
            && |calls| == 3
            && calls[2] == SetLabels(ZoneOf(Dict(nodeLabels)), Some(nodeName), SentBody(proposed, read))
            && (readState == s ==> status == Done && after == InstanceState(Merge(proposed, s.labels), next))
            && (readState.fingerprint != s.fingerprint ==> ExitCode(status) == 1 && after == s)
  {
    var proposed := Requested(Dict(nodeLabels), labelNames);
    var (state, answer) := ApplySetLabels(s, SentBody(proposed, read), next, conflict);
    calls, status := Run(Some(labelNames), Some(nodeName), nodeLabels, read, answer);
    after := state;
  }
}
