# k3d kubeconfig extraction, modelled in Dafny

k3d runs a Kubernetes cluster in containers. The command that hands the
user a kubeconfig goes through two steps:

- `GetKubeconfig` finds the cluster's master node by its labels. It pulls
  the kubeconfig out of that container as a single-file archive stream and
  reads all of it. It then drops the 512-byte archive header and trims the
  NUL padding.
- `GetKubeconfigPath` sends those bytes to standard output (path `-`), to
  a default file (empty path), or to a file it creates at the given path.
  It returns the name of what it wrote to.

The project has three modules:

- `Bytes` (`bytes_trim.dfy`): bytes and the NUL trim `bytes.Trim(s, "\x00")`.
  This is a pure function, proved equal to a separate reference definition
  ("the content between two runs of NULs").
- `Kubeconfig` (`kubeconfig.dfy`): `GetKubeconfig` as a pure function of
  what the container runtime returns. It gives back the result and the list
  of calls made on the runtime and on the stream, so the lemmas can state
  the early returns and the deferred `reader.Close()`.
- `KubeconfigPath` (`kubeconfig_path.dfy`): where the bytes go, and the
  class `Host` (files as a map from path to bytes, standard output as a byte
  log, the list of handles left open). Its method `GetKubeconfigPath`
  updates that state step by step, as the Go function does. The method is
  proved against the specification function `GetKubeconfigPathEffect`, and
  the lemmas about routing, truncation and failure are proved about that
  function.

Behaviour of the code that the model keeps:

- `bytes.Trim(…, "\x00")` strips NULs at both ends of the content.
- An empty master-node list (`masterNodes[0]`) and a payload shorter than
  512 bytes (`readBytes[512:]`) cause Go run-time panics. The model has them
  as the `Panicked` outcome, which unwinds `GetKubeconfigPath` as well.
- The deferred `reader.Close()` still runs during the slice panic.
- On success with `-`, the name returned is `os.Stdout.Name()`, the name of
  the standard-output handle (`Host.stdoutName`).
- An empty path means the file `/tmp/test.yaml`.
- `defer output.Close()` is registered while `output` is still nil, so the
  file that is created is never closed. `Host.openFiles` only grows.
- A failed `Write` is not retried. It can leave a prefix of the bytes at
  the destination.

## Model

| member | source | states |
|---|---|---|
| `Bytes.LeadingNuls` | pkg/cluster/kubeconfig.go:56 | the count of leading NULs is at most the length, every byte before it is NUL, and the byte at it (if any) is not |
| `Bytes.TrailingNuls` | pkg/cluster/kubeconfig.go:56 | the count of trailing NULs is at most the length, every byte after the cut is NUL, and the byte just before it (if any) is not |
| `Bytes.TrimNul` | pkg/cluster/kubeconfig.go:56 | the trimmed bytes are never longer than the input and are empty or neither start nor end with 0x00 |
| `Bytes.TrimNulSound` | pkg/cluster/kubeconfig.go:56 | the trimmed bytes are the contiguous slice of the input that starts after the leading NULs, with only NULs after it (the reference definition holds) |
| `Bytes.TrimNulComplete` | pkg/cluster/kubeconfig.go:56 | any unpadded content that the input holds between two NUL runs, interior NULs included, is exactly what the trim returns |
| `Bytes.TrimNulCharacterized` | pkg/cluster/kubeconfig.go:56 | `TrimNul(s) == c` if and only if `s` is `c` with NULs added at both ends and `c` is unpadded |
| `Bytes.TrimNulFixesUnpadded` | pkg/cluster/kubeconfig.go:56 | bytes that neither start nor end with NUL are left unchanged by the trim |
| `Bytes.TrimNulIdempotent` | pkg/cluster/kubeconfig.go:56 | trimming already trimmed bytes returns them unchanged |
| `Bytes.PaddedAtExtended` | pkg/cluster/kubeconfig.go:56 | content that sits between two NUL runs still does after more NULs are added at both ends, at the shifted offset |
| `Bytes.TrimNulIgnoresPadding` | pkg/cluster/kubeconfig.go:56 | NULs added at either end, such as block padding, do not change the result |
| `Kubeconfig.Failure` | pkg/cluster/kubeconfig.go:67-71 | a failed extraction's error or panic is passed on unchanged to the caller of `GetKubeconfigPath` |
| `Kubeconfig.MasterLabels` | pkg/cluster/kubeconfig.go:36 | the filter has exactly the two labels `k3d.cluster`, set to the cluster's name, and `k3d.role`, set to `master` |
| `Kubeconfig.MasterLabelsSeparateClusters` | pkg/cluster/kubeconfig.go:36 | clusters with different names are looked up through different filters |
| `Kubeconfig.SkipHeaderAndTrim` | pkg/cluster/kubeconfig.go:54-56 | it succeeds exactly when the payload has at least 512 bytes, and otherwise panics with the slice bounds `[512:len]`. On success the result is the content after the header, with its NUL padding removed at both ends (the reference definition), no longer than `len - 512`. It never returns an error |
| `Kubeconfig.GetKubeconfig` | pkg/cluster/kubeconfig.go:35-59 | the first call is always the master-node lookup with labels `{k3d.cluster: name, k3d.role: master}` |
| `Kubeconfig.ServedPayloadIsTrimmed` | pkg/cluster/kubeconfig.go:41-58 | when the first master node serves a payload, the result is that payload with the header skipped and the padding trimmed. The calls are lookup, open, read, close, in that order |
| `Kubeconfig.SuccessMeansTrimmedPayload` | pkg/cluster/kubeconfig.go:35-58 | a successful result came from a payload of at least 512 bytes served by the first master node, and it equals the trim of `payload[512..]` |
| `Kubeconfig.LookupFailureStops` | pkg/cluster/kubeconfig.go:36-40 | a failed node lookup is returned as is, and no other call is made |
| `Kubeconfig.NoMasterNodePanics` | pkg/cluster/kubeconfig.go:41 | an empty master list panics with index 0, length 0, before any stream is opened |
| `Kubeconfig.OpenFailureStops` | pkg/cluster/kubeconfig.go:41-45 | a failed `runtime.GetKubeconfig` is returned as is, and the stream is neither read nor closed |
| `Kubeconfig.ReadFailureStops` | pkg/cluster/kubeconfig.go:46-52 | a failed read returns its error and no bytes, and the last call is still the close of the stream |
| `Kubeconfig.ShortPayloadPanics` | pkg/cluster/kubeconfig.go:46-56 | a payload shorter than 512 bytes panics at the slice, and the deferred close still happens |
| `Kubeconfig.StreamClosedOnceIffOpened` | pkg/cluster/kubeconfig.go:41-46 | the stream is closed exactly once if it was opened and never otherwise, and the close is the last call made |
| `Kubeconfig.OnlyFirstMasterIsRead` | pkg/cluster/kubeconfig.go:41 | the only node ever asked for its kubeconfig is the first one the lookup returned |
| `Kubeconfig.PanicsOnlyAtIndexing` | pkg/cluster/kubeconfig.go:41-56 | a panic comes only from an empty master list (index 0, length 0) or from a payload served by the first master that is shorter than 512 bytes |
| `Kubeconfig.DependsOnlyOnFirstMaster` | pkg/cluster/kubeconfig.go:41 | two runtimes that agree on the first master node and on what it serves give the same result and the same calls |
| `Kubeconfig.HeaderNeverReachesResult` | pkg/cluster/kubeconfig.go:54-56 | payloads that differ only in their 512 header bytes give the same result |
| `Kubeconfig.ExtractAbcExample` | pkg/cluster/kubeconfig.go:54-56 | any 512-byte header, then `abc`, then three NULs gives exactly `abc` |
| `KubeconfigPath.ResolveDestination` | pkg/cluster/kubeconfig.go:73-79 | `-` selects standard output, and only `-` does. `""` becomes the file `/tmp/test.yaml`. Any other path is used unchanged. A file destination is never `""` or `-` |
| `KubeconfigPath.Written` | pkg/cluster/kubeconfig.go:86 | a completed write delivers all the bytes. A failed write delivers a prefix of at most `written` bytes |
| `KubeconfigPath.OutputName` | pkg/cluster/kubeconfig.go:88-92 | no contract of its own: `NameOfPath` states the name it gives for each path, and `WriteKubeconfig` returns it on success |
| `KubeconfigPath.NameOfPath` | pkg/cluster/kubeconfig.go:73-79 | the name of the destination is the stdout handle's name for `-`, `/tmp/test.yaml` for `""`, and the path itself otherwise |
| `KubeconfigPath.WriteKubeconfig` | pkg/cluster/kubeconfig.go:73-92 | the writer never panics. On success it returns the destination's name. The open handles stay as they were or gain exactly the resolved file. The lemmas `StdoutTouchesNoFile` through `RewriteGivesSameFiles` below are proved about it |
| `KubeconfigPath.GetKubeconfigPathEffect` | pkg/cluster/kubeconfig.go:62-94 | success implies the extraction succeeded. Any panic is the extraction's panic. A failed extraction leaves the local state as it was. `ExtractionFailureWritesNothing` and `DeliveredBytesAreTrimmedPayload` are proved about it |
| `KubeconfigPath.Host.GetKubeconfigPath` | pkg/cluster/kubeconfig.go:62-94 | the new files, standard output, open handles and result are those of `GetKubeconfigPathEffect`. The runtime calls are those of `GetKubeconfig`. Every open handle names an existing file |
| `KubeconfigPath.StdoutTouchesNoFile` | pkg/cluster/kubeconfig.go:73-74 | with `-`, no file is created, changed or opened. On success standard output gains exactly the bytes and the name returned is the stdout handle's name |
| `KubeconfigPath.FileLeavesStdoutAndOtherFiles` | pkg/cluster/kubeconfig.go:75-86 | any path other than `-` leaves standard output alone and changes no file except the resolved one |
| `KubeconfigPath.SuccessHoldsExactlyTheBytes` | pkg/cluster/kubeconfig.go:79-92 | on success the resolved file holds exactly the bytes, whatever it held before (create truncates). The name returned is the resolved path. The file's handle stays open |
| `KubeconfigPath.WriteSucceedsIff` | pkg/cluster/kubeconfig.go:79-92 | the writer succeeds if and only if the create (for a file) succeeds and the write completes. It never panics |
| `KubeconfigPath.CreateFailureChangesNothing` | pkg/cluster/kubeconfig.go:79-83 | a failing `os.Create` returns its error, and no state changes |
| `KubeconfigPath.WriteFailureLeavesPrefix` | pkg/cluster/kubeconfig.go:86-90 | a failing write returns its error, and the file holds at most a prefix of the bytes |
| `KubeconfigPath.RewriteGivesSameFiles` | pkg/cluster/kubeconfig.go:79-90 | writing the same bytes to the same path twice leaves the same files as writing them once |
| `KubeconfigPath.ExtractionFailureWritesNothing` | pkg/cluster/kubeconfig.go:67-71 | when extraction fails, its error or panic is returned and the local state does not change |
| `KubeconfigPath.DeliveredBytesAreTrimmedPayload` | pkg/cluster/kubeconfig.go:62-94 | after a success, the first master node served a payload of at least 512 bytes. The destination (stdout appended to, or the resolved file) received exactly that payload with its header skipped and its NUL padding trimmed |

## Left out

- The container runtime (`runtimes.Runtime`): its `GetNodesByLabel` and
  `GetKubeconfig` are given as the results they return. How they choose or
  order the nodes is not modelled; the code takes whichever node comes first.
- `pkg/types` is not part of this model. The role label value `master` is
  written as a constant.
- Real I/O (`os.Create`, `os.Stdout`, `ioutil.ReadAll`, `Write`). Their
  results come from `Io` and `Reader`. The name of the standard-output
  handle (Go's `/dev/stdout`) stays abstract as `Host.stdoutName`.
- Logging through logrus. It does not affect any result.
- Closing the streams themselves. The calls list only records where
  `reader.Close()` happens. The writer never closes the created file, and
  the model only records that its handle stays open.
- Concurrency and timeouts. The code has none.
- Panics inside the collaborators. `runtime.GetNodesByLabel`,
  `runtime.GetKubeconfig` and the read return a value or an error (`Reply`),
  and every panic in the model comes from `GetKubeconfig`'s own indexing.
- File system aliasing. Every path string names its own file, separate from
  standard output. Symbolic links, relative and absolute spellings of one
  file, and device paths such as `/dev/stdout` are not modelled.
  `FileLeavesStdoutAndOtherFiles` and `RewriteGivesSameFiles` hold under
  that reading.
- A nil `*k3d.Cluster`. The cluster is passed by value, so the panic that
  dereferencing a nil pointer for `cluster.Name` would raise is not
  modelled.
- Go's distinction between a `nil` and an empty byte slice. `bytes.Trim`
  can return either for empty content, and both write nothing.
