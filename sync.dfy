/**
 One run of the tool (`main`): check the arguments, read the node, then
 write the instance. The answers of the three remote calls are parameters;
 the result records the calls made, in order, and how the run ended.
 */
module Sync {
  import opened Labels
  import opened Api
  import opened NodeReader
  import opened InstanceWriter

  /** The requested label names pass main's first guard: present and non-empty. */
  predicate HasLabelNames(labelNames: Option<seq<string>>)
  {
    labelNames.Some? && labelNames.value != []
  }

  /**
   `labelNames` is the `--name` list (None when the flag was not given),
   `nodeName` the value of `NODE_NAME` (None when unset). Only an empty
   string is rejected as a node name; an unset variable passes the guard.
   */
  method Run(labelNames: Option<seq<string>>, nodeName: Option<string>,
             nodeLabels: seq<Label>, instance: GetResponse, written: SetResponse)
    returns (calls: seq<Call>, status: Status)
    ensures !HasLabelNames(labelNames) ==> calls == [] && status == Failed(EmptyLabelNames)
    ensures HasLabelNames(labelNames) && nodeName == Some("") ==>
      calls == [] && status == Failed(EmptyNodeName)
    ensures calls == [] <==> !HasLabelNames(labelNames) || nodeName == Some("")
    ensures HasLabelNames(labelNames) && nodeName != Some("") ==>
      var node := Dict(nodeLabels);
      var zone := ZoneOf(node);
      var proposed := Requested(node, labelNames.value);
      && |calls| >= 2
      && calls[..2] == [ReadNode(nodeName), GetInstance(zone, nodeName)]
      && (instance.GetError? ==> calls == calls[..2] && status == Failed(InstanceLookupError))
      && (instance.InstanceInfo? ==>
            && calls == calls[..2] + [SetLabels(zone, nodeName, SentBody(proposed, instance))]
            && status == (if written.SetError? then Failed(LabelWriteError) else Done))
  {
    if !HasLabelNames(labelNames) {
      return [], Failed(EmptyLabelNames);
    }
    if nodeName == Some("") {
      return [], Failed(EmptyNodeName);
    }
    var nodeData, zone := GetNodeData(nodeLabels, labelNames.value);
    calls := [ReadNode(nodeName), GetInstance(zone, nodeName)];
    var dict := new LabelDict(nodeData);
    var sent;
    sent, status := UpdateVmLabels(dict, instance, written);
    if sent.Some? {
      calls := calls + [SetLabels(zone, nodeName, sent.value)];
    }
  }
}
