/**
 Worked runs: concrete inputs and what the model says a run does with them.
 */
module Scenarios {
  import opened Labels
  import opened Api
  import opened NodeReader
  import opened Sync

  /** The node's own zone is used and the only requested label is sent unchanged. */
  method ZoneFromNodeAndNoInstanceLabels()
  {
    var nodeLabels := [Label("team", "infra"), Label(ZONE_LABEL, "us-east1-b")];
    var labels, zone := GetNodeData(nodeLabels, ["team"]);
    assert "team" in Dict(nodeLabels);
    assert labels == map["team" := "infra"];
    assert zone == "us-east1-b";
    var calls, status := Run(Some(["team"]), Some("node-1"), nodeLabels, InstanceInfo([], "fp"), SetOk);
    assert calls[2] == SetLabels("us-east1-b", Some("node-1"), SetLabelsBody("fp", map["team" := "infra"]));
    assert status == Done;
  }

  /** Without a zone label the fallback zone is used, and the instance's value wins. */
  method FallbackZoneAndInstanceWins()
  {
    var nodeLabels := [Label("team", "infra")];
    var labels, zone := GetNodeData(nodeLabels, ["team"]);
    assert labels == map["team" := "infra"];
    assert zone == FALLBACK_ZONE;
    var calls, status := Run(Some(["team"]), Some("node-1"), nodeLabels,
                             InstanceInfo([Label("team", "ops")], "fp"), SetOk);
    assert calls[2] == SetLabels(FALLBACK_ZONE, Some("node-1"), SetLabelsBody("fp", map["team" := "ops"]));
  }

  /** An empty or missing label list stops the run before any call. */
  method EmptyLabelList(nodeLabels: seq<Label>, instance: GetResponse, written: SetResponse)
  {
    var calls, status := Run(Some([]), Some("node-1"), nodeLabels, instance, written);
    assert calls == [] && ExitCode(status) == 1;
    calls, status := Run(None, Some("node-1"), nodeLabels, instance, written);
    assert calls == [] && ExitCode(status) == 1;
  }

  /** A refused write ends the run with exit status 1. */
  method RefusedWrite(nodeLabels: seq<Label>)
  {
    var errors := [ErrorEntry("RESOURCE_NOT_READY", "labels", ""), ErrorEntry("QUOTA_EXCEEDED", "labels", "")];
    var calls, status := Run(Some(["team"]), Some("node-1"), nodeLabels, InstanceInfo([], "fp"), SetError(errors));
    assert |calls| == 3 && status == Failed(LabelWriteError) && ExitCode(status) == 1;
  }
}
