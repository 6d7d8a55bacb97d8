# gke_node_labeling, modelled in Dafny

The tool runs once on a GKE node. It copies chosen Kubernetes node labels
onto the labels of the GCE instance behind that node. One run does four things:

1. It checks its arguments: the `--name` list of label keys and the `NODE_NAME` environment variable.
2. It reads the node's labels. It keeps the requested ones and takes the node's zone from
   `failure-domain.beta.kubernetes.io/zone`, falling back to `us-central1-c`.
3. It reads the instance's labels and `labelFingerprint`. It overlays the instance's labels
   on the kept node labels, so the instance wins on a shared key.
4. It sends the merged labels with the fingerprint it read to `setLabels`.

The model is in six modules:

- `Labels` (labels.dfy): label maps; `Dict`, the map described by a dict's `items()`; `Merge`, the
  asymmetric merge; and their lemmas.
- `Api` (api.dfy): the answers of the remote calls, the calls themselves, and the run's status and
  exit code.
- `NodeReader` (node_reader.dfy): `get_node_data` as the method `GetNodeData`, a loop over the node's
  label pairs, proved against the reference functions `Requested` and `ZoneOf`.
- `InstanceWriter` (instance_writer.dfy): `update_vm_labels` as `UpdateVmLabels`. It updates the
  caller's dict, a `LabelDict` object, in place in a loop over the instance's label pairs.
- `Sync` (sync.dfy): `main` as `Run`. It records the outbound calls in order and how the run ended.
- `Platform` (platform.dfy): an assumption about the environment, not code of the tool. It states
  how `setLabels` is taken to treat the fingerprint (compare-and-swap), what a write then does
  to the instance, and what a whole `Run` does against such a platform.

`Scenarios` (scenarios.dfy) holds worked runs with concrete inputs, checked by assertions.

The remote calls are not executed by the model. The node's label pairs, the answer to
`instances().get` and the answer to `instances().setLabels` are parameters. A dict's
`items()` is a sequence of `Label` pairs. `Dict` inserts the pairs in order, so a later pair wins.
`DictOfDistinct` and `EveryMapHasItems` show that this covers exactly the label maps a dict can
hold.

Where a reader might expect otherwise, the model follows the code as written:

- A non-OK status from the Kubernetes API is only printed (main.py:48-50). Execution goes on to
  `resp.json()` and main.py:54.
- Only an empty `NODE_NAME` is rejected (main.py:97). An unset one (`None`) passes the guard and
  is used as the node and instance name.
- A `setLabels` error is not enumerated. The diagnostic line at main.py:82-83 calls `.format` on
  `None` and raises before the loop over the errors.

## Model

| member | source | states |
|---|---|---|
| `Labels.Dict` | main.py:54 | the map a sequence of label pairs describes has exactly the keys that occur in the sequence |
| `Labels.DictOfDistinct` | main.py:54 | when no key repeats, as in a dict's `items()`, the map gives every pair's key that pair's value |
| `Labels.EveryMapHasItems` | main.py:76 | every label map is described by some sequence of pairs without repeated keys, so results stated over all such sequences cover all dicts |
| `Labels.Merge` | main.py:75-77 | the merged key set is the union of node-derived and instance keys; each instance key keeps the instance's value whatever the node-derived one was; each node-derived key the instance lacks keeps its node-derived value |
| `Labels.MergeInsert` | main.py:76-77 | overlaying one more instance label overwrites or adds exactly that key in the merge |
| `Labels.MergeIdempotent` | main.py:76-77 | merging the already merged map against the same instance labels yields the same map |
| `Labels.MergeAbsorbs` | main.py:76-77 | merging the same node-derived labels against an instance that already holds their merge changes nothing |
| `Labels.MergeWithNoInstanceLabels` | main.py:76-77 | against an instance without labels the node-derived map is sent unchanged |
| `Api.ExitCode` | main.py:71-102 | a run exits with 0 exactly when it completes (the end of `main`), and with 1 on every failure (the exits at main.py:73, 87, 95 and 99, and the exception raised at 82) |
| `NodeReader.RequestedInsert` | main.py:57-58 | one more node pair changes the kept labels only when its key is requested, and then sets that key to the pair's value |
| `NodeReader.GetNodeData` | main.py:52-59 | the returned labels have exactly the keys both on the node and among the requested names, each with the node's value; a requested name the node lacks is absent; the zone is the node's zone label value if present and `us-central1-c` otherwise; the zone key is returned as a label only when it is requested |
| `InstanceWriter.LabelDict.Put` | main.py:77 | `d[key] = value`: the dict afterwards is the old one with that key set to that value |
| `InstanceWriter.UpdateVmLabels` | main.py:69-87 | an `error` read answer fails the run before any write and leaves the caller's dict alone; otherwise the caller's dict becomes the merge with the instance labels, that dict is sent with exactly the fingerprint read, and a `setLabels` error fails the run |
| `Sync.Run` | main.py:92-102 | a missing or empty label list fails the run, and then an empty `NODE_NAME` does, both before any call; otherwise the calls are the node read, the instance read in the node's zone under the node's name and, unless that read failed, one `setLabels` of the merge of the kept node labels with the instance labels and the read fingerprint; the status follows the two instance answers |
| `Platform.UndisturbedWriteApplies` | main.py:78-80 | if no one wrote the instance between read and write, and the platform compares fingerprints, the write succeeds and stores the merge |
| `Platform.StaleWriteRejected` | main.py:78-80 | if the fingerprint changed after the read, and the platform compares fingerprints, the write is refused and the instance is unchanged |
| `Platform.SecondRunIsNoOp` | main.py:74-80 | two runs in a row with the same node labels and no other writer: the second write succeeds and leaves the instance's labels as the first left them |
| `Platform.RunAgainstPlatform` | main.py:92-102 | a whole run composed with the assumed platform: it makes three calls and its write carries the merge with the read fingerprint; with no other writer since the read the run completes and the instance holds the merge under the new fingerprint; if the fingerprint changed since the read the run exits with 1 and the instance state is unchanged |

## Left out

- Reading the service-account token file and its `OSError`/`IOError` exits (main.py:36-44): file I/O.
- The HTTP request to the Kubernetes API, TLS, and JSON decoding (main.py:46-51): network I/O. The
  node's label pairs are an input. The non-OK status message at main.py:48-50 is only printed, so it
  is not modelled.
- `google.auth.default`, `googleapiclient.discovery.build` and `execute()` (main.py:65-70, 78-80):
  foreign SDK calls. The answers to `get` and `setLabels` are inputs. The project id is not modelled.
- Node answers without `metadata.labels` (a non-OK Status body, or a node with no labels): the source
  raises `KeyError` at main.py:54 and exits 1 before `instances().get`. The model's node answer
  always carries labels, so `Sync.Run` always goes on to the instance read.
- Answers without a `labels` or `labelFingerprint` key: the source would raise `KeyError` at
  main.py:74 or 76. The model's answer type always carries both.
- The diagnostic text and the loop over the write errors (main.py:82-86). As written this path raises
  on `None.format(...)` and names an undefined `node_name`. The model keeps only the outcome, a failed
  run with exit status 1, which the raised exception also gives.
- The argparse setup (main.py:107-118), `eprint` and stderr, and the exit itself. A run's end is the
  returned `Status`, and `ExitCode` maps it to the exit status.
- Other writers running at the same time, and the platform's compare-and-swap on the fingerprint.
  These are outside the tool. The `Platform` module states them as an assumption, and the tool has
  no retry to model.
- `Platform.StaleWriteRejected`: the errors a refused write reports are a parameter (`conflict`).
  The lemma does not say what the platform puts in them.
