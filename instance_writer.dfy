/**
 Writing the labels onto the GCE instance (`update_vm_labels`): read the
 instance, overlay its labels on the caller's dict in place, and send the
 merged dict with the fingerprint that was read. The two Compute API calls
 are abstract: their answers are parameters.
 */
module InstanceWriter {
  import opened Labels
  import opened Api

  /** A Python dict of labels, shared by reference between caller and callee. */
  class LabelDict {
    var entries: LabelMap

    constructor (init: LabelMap)
      ensures entries == init
    {
      entries := init;
    }

    /** `d[key] = value`. */
    method Put(key: string, value: string)
      modifies this
      ensures entries == old(entries)[key := value]
    {
      entries := entries[key := value];
    }
  }

  /** The body sent after the read `instance`, for the caller's labels `proposed`. */
  function SentBody(proposed: LabelMap, instance: GetResponse): (body: SetLabelsBody)
    requires instance.InstanceInfo?
  {
    SetLabelsBody(instance.labelFingerprint, Merge(proposed, Dict(instance.labels)))
  }

  /**
   Given the answers to `instances().get` and to `instances().setLabels`,
   returns the body that was sent (None when the read already failed) and
   how the call ended. On a successful read the caller's dict afterwards
   holds the merge, every instance label winning over the node-derived one.
   */
  method UpdateVmLabels(labels: LabelDict, instance: GetResponse, written: SetResponse)
    returns (sent: Option<SetLabelsBody>, status: Status)
    modifies labels
    ensures instance.GetError? ==>
      && sent == None
      && status == Failed(InstanceLookupError)
      && labels.entries == old(labels.entries)
    ensures instance.InstanceInfo? ==>
      && labels.entries == Merge(old(labels.entries), Dict(instance.labels))
      && sent == Some(SentBody(old(labels.entries), instance))
      && status == (if written.SetError? then Failed(LabelWriteError) else Done)
  {
    if instance.GetError? {
      return None, Failed(InstanceLookupError);
    }
    var fingerprint := instance.labelFingerprint;
    var items := instance.labels;
    var i := 0;
    while i < |items|
      invariant 0 <= i <= |items|
      invariant labels.entries == Merge(old(labels.entries), Dict(items[..i]))
    {
      DictSnoc(items, i);
      MergeInsert(old(labels.entries), Dict(items[..i]), items[i].key, items[i].value);
      labels.Put(items[i].key, items[i].value);
      i := i + 1;
    }
    assert items[..i] == items;
    sent := Some(SetLabelsBody(fingerprint, labels.entries));
    if written.SetError? {
      return sent, Failed(LabelWriteError);
    }
    status := Done;
  }
}
