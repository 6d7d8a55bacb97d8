/**
 Reading the node: which of its labels are kept and which zone it is in
 (`get_node_data`). The node's label map arrives as the enumeration the
 Kubernetes answer yields under `items()`; fetching it is not modelled.
 */
module NodeReader {
  import opened Labels

  /** The label that carries the node's failure domain. */
  const ZONE_LABEL: string := "failure-domain.beta.kubernetes.io/zone"

  /** The zone assumed for a node that has no zone label. */
  const FALLBACK_ZONE: string := "us-central1-c"

  /** The kept labels: each requested name the node carries, with the node's value. */
  function Requested(node: LabelMap, names: seq<string>): (kept: LabelMap)
  {
    map k | k in node && k in names :: node[k]
  }

  /** Inserting one node label changes the kept labels only if its key is requested. */
  lemma RequestedInsert(node: LabelMap, names: seq<string>, key: string, value: string)
    ensures Requested(node[key := value], names)
         == if key in names then Requested(node, names)[key := value] else Requested(node, names)
  {
  }

  /** The node's zone: its zone label if present, the fallback zone otherwise. */
  function ZoneOf(node: LabelMap): (zone: string)
  {
    if ZONE_LABEL in node then node[ZONE_LABEL] else FALLBACK_ZONE
  }

  /**
   One pass over the node's labels that copies every requested label into a
   fresh map and, independently, takes the value of the zone label as the zone.
   */
  method GetNodeData(nodeLabels: seq<Label>, labelNames: seq<string>) returns (labels: LabelMap, zone: string)
    ensures labels == Requested(Dict(nodeLabels), labelNames)
    ensures zone == ZoneOf(Dict(nodeLabels))
    ensures forall k :: k in labels <==> k in Dict(nodeLabels) && k in labelNames
    ensures forall k :: k in labels ==> labels[k] == Dict(nodeLabels)[k]
    ensures ZONE_LABEL in Dict(nodeLabels) ==> zone == Dict(nodeLabels)[ZONE_LABEL]
    ensures ZONE_LABEL !in Dict(nodeLabels) ==> zone == FALLBACK_ZONE
    ensures ZONE_LABEL in labels <==> ZONE_LABEL in labelNames && ZONE_LABEL in Dict(nodeLabels)
  {
    zone := FALLBACK_ZONE;
    labels := map[];
    var i := 0;
    while i < |nodeLabels|
      invariant 0 <= i <= |nodeLabels|
      invariant labels == Requested(Dict(nodeLabels[..i]), labelNames)
      invariant zone == ZoneOf(Dict(nodeLabels[..i]))
    {
      var key, value := nodeLabels[i].key, nodeLabels[i].value;
      DictSnoc(nodeLabels, i);
      RequestedInsert(Dict(nodeLabels[..i]), labelNames, key, value);
      if key == ZONE_LABEL {
        zone := value;
      }
      if key in labelNames {
        labels := labels[key := value];
      }
      i := i + 1;
    }
    assert nodeLabels[..i] == nodeLabels;
  }
}
