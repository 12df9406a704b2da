/**
 * `GetKubeconfig`: find the cluster's master node, pull the single-file
 * archive holding its kubeconfig, drain it, and cut the archive down to the
 * file's bytes (skip the 512-byte header, trim the NUL padding).
 *
 * The container runtime and the stream are collaborators: they are given as
 * the values they produce (`Runtime`, `Reader`). Every call made on them is
 * recorded in the returned `calls`, so that the order of the steps, the early
 * returns and the deferred `reader.Close()` can be stated.
 */
module Kubeconfig {
  import opened Bytes

  /** An error value handed back by a collaborator; this code only passes it on. */
  datatype Error = Error(cause: string)

  /**
   * What a collaborator's call returns: a value with a `nil` error, or a
   * non-nil error. A collaborator never panics in this model, so every
   * `Panicked` outcome comes from the indexing in `GetKubeconfig` itself.
   */
  datatype Reply<+T> = Returned(value: T) | Failed(error: Error)

  /** A Go run-time panic raised by this code's own indexing. */
  datatype Panic =
    | IndexOutOfRange(index: int, length: int)
    | SliceBoundsOutOfRange(low: int, length: int)

  /**
   * How a Go call ends: a value with a `nil` error, a non-nil error (the
   * value part is then `nil`/`""`), or a panic that unwinds the caller too.
   */
  datatype Outcome<+T> = Ok(value: T) | Err(error: Error) | Panicked(panic: Panic)

  /** The same failure as `o`, at another value type. */
  function Failure<T, U>(o: Outcome<T>): (r: Outcome<U>)
    requires !o.Ok?
    ensures r.Err? == o.Err? && (o.Err? ==> r.error == o.error)
    ensures r.Panicked? == o.Panicked? && (o.Panicked? ==> r.panic == o.panic)
  {
    match o
    case Err(e) => Err(e)
    case Panicked(p) => Panicked(p)
  }

  type Labels = map<string, string>

  datatype Cluster = Cluster(name: string)

  datatype Node = Node(name: string)

  /** The stream `runtime.GetKubeconfig` opens; `contents` is what draining it with `ioutil.ReadAll` yields. */
  datatype Reader = Reader(contents: Reply<Bytes>)

  /** The two runtime operations the extraction uses, as the results they return. */
  datatype Runtime = Runtime(
    getNodesByLabel: Labels -> Reply<seq<Node>>,
    getKubeconfig: Node -> Reply<Reader>)

  /** A call made on a collaborator, in the order it is made. */
  datatype Call =
    | NodesByLabel(labels: Labels)
    | OpenKubeconfig(node: Node)
    | ReadAll
    | CloseReader

  datatype Extraction = Extraction(result: Outcome<Bytes>, calls: seq<Call>)

  /** Size of the archive header in front of the file content. */
  const HeaderSize: nat := 512

  const ClusterLabel := "k3d.cluster"
  const RoleLabel := "k3d.role"
  /** The value of the role label on a master (control-plane) node. */
  const MasterRole := "master"

  /** The label filter that selects the master nodes of the cluster named `name`. */
  function MasterLabels(name: string): (labels: Labels)
    ensures labels.Keys == {ClusterLabel, RoleLabel}
    ensures labels[ClusterLabel] == name && labels[RoleLabel] == MasterRole
  {
    map[ClusterLabel := name, RoleLabel := MasterRole]
  }

  /** Each cluster has its own filter: no two cluster names select through the same labels. */
  lemma MasterLabelsSeparateClusters(a: string, b: string)
    requires a != b
    ensures MasterLabels(a) != MasterLabels(b)
  {
    assert MasterLabels(a)[ClusterLabel] != MasterLabels(b)[ClusterLabel];
  }

  /**
   * `bytes.Trim(readBytes[512:], "\x00")`. Slicing past the end panics in Go,
   * which the result records; otherwise the result is the file content with
   * its NUL padding removed from both ends.
   */
  function SkipHeaderAndTrim(readBytes: Bytes): (r: Outcome<Bytes>)
    ensures !r.Err?
    ensures r.Ok? <==> |readBytes| >= HeaderSize
    ensures r.Panicked? ==> r.panic == SliceBoundsOutOfRange(HeaderSize, |readBytes|)
    ensures r.Ok? ==> NulPadded(readBytes[HeaderSize..], r.value)
    ensures r.Ok? ==> |r.value| <= |readBytes| - HeaderSize
  {
    if |readBytes| < HeaderSize then
      Panicked(SliceBoundsOutOfRange(HeaderSize, |readBytes|))
    else
      TrimNulSound(readBytes[HeaderSize..]);
      Ok(TrimNul(readBytes[HeaderSize..]))
  }

  /** `GetKubeconfig(runtime, cluster)`. */
  function GetKubeconfig(rt: Runtime, cluster: Cluster): (x: Extraction)
    ensures |x.calls| >= 1 && x.calls[0] == NodesByLabel(MasterLabels(cluster.name))
  {
    var labels := MasterLabels(cluster.name);
    var lookup := rt.getNodesByLabel(labels);
    if lookup.Failed? then
      Extraction(Err(lookup.error), [NodesByLabel(labels)])
    else if |lookup.value| == 0 then
      // masterNodes[0] on an empty slice
      Extraction(Panicked(IndexOutOfRange(0, 0)), [NodesByLabel(labels)])
    else
      var node := lookup.value[0];
      var open := rt.getKubeconfig(node);
      if open.Failed? then
        Extraction(Err(open.error), [NodesByLabel(labels), OpenKubeconfig(node)])
      else
        // from here on the deferred reader.Close() runs on every way out, a panic included
        var calls := [NodesByLabel(labels), OpenKubeconfig(node), ReadAll, CloseReader];
        var read := open.value.contents;
        if read.Failed? then
          Extraction(Err(read.error), calls)
        else
          Extraction(SkipHeaderAndTrim(read.value), calls)
  }

  /** The state of a call in which the runtime served `payload` from the first master node `node`. */
  ghost predicate Serves(rt: Runtime, cluster: Cluster, node: Node, payload: Bytes) {
    var lookup := rt.getNodesByLabel(MasterLabels(cluster.name));
    && lookup.Returned? && |lookup.value| > 0 && lookup.value[0] == node
    && rt.getKubeconfig(node).Returned?
    && rt.getKubeconfig(node).value.contents == Returned(payload)
  }

  /** The stream was opened: lookup and open both succeeded. */
  ghost predicate StreamOpened(rt: Runtime, cluster: Cluster) {
    var lookup := rt.getNodesByLabel(MasterLabels(cluster.name));
    lookup.Returned? && |lookup.value| > 0 && rt.getKubeconfig(lookup.value[0]).Returned?
  }

  /** A served payload yields the trimmed content, after the four calls in order. */
  lemma ServedPayloadIsTrimmed(rt: Runtime, cluster: Cluster, node: Node, payload: Bytes)
    requires Serves(rt, cluster, node, payload)
    ensures GetKubeconfig(rt, cluster).result == SkipHeaderAndTrim(payload)
    ensures GetKubeconfig(rt, cluster).calls
         == [NodesByLabel(MasterLabels(cluster.name)), OpenKubeconfig(node), ReadAll, CloseReader]
  {
  }

  /** Success means: the first master node served a payload of at least 512 bytes, and the result is its content, unpadded. */
  lemma SuccessMeansTrimmedPayload(rt: Runtime, cluster: Cluster)
    requires GetKubeconfig(rt, cluster).result.Ok?
    ensures exists node, payload ::
              && Serves(rt, cluster, node, payload)
              && |payload| >= HeaderSize
              && GetKubeconfig(rt, cluster).result.value == TrimNul(payload[HeaderSize..])
  {
    var lookup := rt.getNodesByLabel(MasterLabels(cluster.name));
    var node := lookup.value[0];
    var payload := rt.getKubeconfig(node).value.contents.value;
    assert Serves(rt, cluster, node, payload);
  }

  /** A failed node lookup is returned as is, and nothing else is called. */
  lemma LookupFailureStops(rt: Runtime, cluster: Cluster)
    requires rt.getNodesByLabel(MasterLabels(cluster.name)).Failed?
    ensures GetKubeconfig(rt, cluster).result == Err(rt.getNodesByLabel(MasterLabels(cluster.name)).error)
    ensures GetKubeconfig(rt, cluster).calls == [NodesByLabel(MasterLabels(cluster.name))]
  {
  }

  /** No master node: indexing the empty slice panics before any stream is opened. */
  lemma NoMasterNodePanics(rt: Runtime, cluster: Cluster)
    requires rt.getNodesByLabel(MasterLabels(cluster.name)) == Returned([])
    ensures GetKubeconfig(rt, cluster).result == Panicked(IndexOutOfRange(0, 0))
    ensures GetKubeconfig(rt, cluster).calls == [NodesByLabel(MasterLabels(cluster.name))]
  {
  }

  /** A failed open is returned as is; the stream is neither read nor closed. */
  lemma OpenFailureStops(rt: Runtime, cluster: Cluster, nodes: seq<Node>)
    requires rt.getNodesByLabel(MasterLabels(cluster.name)) == Returned(nodes) && |nodes| > 0
    requires rt.getKubeconfig(nodes[0]).Failed?
    ensures GetKubeconfig(rt, cluster).result == Err(rt.getKubeconfig(nodes[0]).error)
    ensures GetKubeconfig(rt, cluster).calls == [NodesByLabel(MasterLabels(cluster.name)), OpenKubeconfig(nodes[0])]
  {
  }

  /** A failed read is returned as is, no bytes come back, and the stream is still closed. */
  lemma ReadFailureStops(rt: Runtime, cluster: Cluster, nodes: seq<Node>, reader: Reader)
    requires rt.getNodesByLabel(MasterLabels(cluster.name)) == Returned(nodes) && |nodes| > 0
    requires rt.getKubeconfig(nodes[0]) == Returned(reader) && reader.contents.Failed?
    ensures GetKubeconfig(rt, cluster).result == Err(reader.contents.error)
    ensures GetKubeconfig(rt, cluster).calls[|GetKubeconfig(rt, cluster).calls| - 1] == CloseReader
  {
  }

  /** A payload shorter than the header panics at the slice, and the deferred close still runs. */
  lemma ShortPayloadPanics(rt: Runtime, cluster: Cluster, node: Node, payload: Bytes)
    requires Serves(rt, cluster, node, payload) && |payload| < HeaderSize
    ensures GetKubeconfig(rt, cluster).result == Panicked(SliceBoundsOutOfRange(HeaderSize, |payload|))
    ensures CloseReader in GetKubeconfig(rt, cluster).calls
  {
  }

  /** The stream is closed exactly once if it was opened, never otherwise, and the close is the last call. */
  lemma StreamClosedOnceIffOpened(rt: Runtime, cluster: Cluster)
    ensures multiset(GetKubeconfig(rt, cluster).calls)[CloseReader] == (if StreamOpened(rt, cluster) then 1 else 0)
    ensures StreamOpened(rt, cluster) ==> GetKubeconfig(rt, cluster).calls[|GetKubeconfig(rt, cluster).calls| - 1] == CloseReader
  {
    var x := GetKubeconfig(rt, cluster);
    if StreamOpened(rt, cluster) {
      assert x.calls == [x.calls[0], x.calls[1], ReadAll] + [CloseReader];
    }
  }

  /** Only the first master node is ever asked for its kubeconfig. */
  lemma OnlyFirstMasterIsRead(rt: Runtime, cluster: Cluster, node: Node)
    requires OpenKubeconfig(node) in GetKubeconfig(rt, cluster).calls
    ensures rt.getNodesByLabel(MasterLabels(cluster.name)).Returned?
    ensures |rt.getNodesByLabel(MasterLabels(cluster.name)).value| > 0
    ensures node == rt.getNodesByLabel(MasterLabels(cluster.name)).value[0]
  {
  }

  /**
   * The only panics are the two in this code: indexing an empty master-node
   * list, and slicing a payload shorter than the header.
   */
  lemma PanicsOnlyAtIndexing(rt: Runtime, cluster: Cluster)
    requires GetKubeconfig(rt, cluster).result.Panicked?
    ensures || (&& rt.getNodesByLabel(MasterLabels(cluster.name)) == Returned([])
                && GetKubeconfig(rt, cluster).result.panic == IndexOutOfRange(0, 0))
            || (exists node, payload ::
                  && Serves(rt, cluster, node, payload)
                  && |payload| < HeaderSize
                  && GetKubeconfig(rt, cluster).result.panic == SliceBoundsOutOfRange(HeaderSize, |payload|))
  {
    var lookup := rt.getNodesByLabel(MasterLabels(cluster.name));
    if |lookup.value| > 0 {
      var node := lookup.value[0];
      var payload := rt.getKubeconfig(node).value.contents.value;
      assert Serves(rt, cluster, node, payload);
    }
  }

  /** Two runtimes that agree on the first master node and on what it serves give the same extraction. */
  lemma DependsOnlyOnFirstMaster(rt1: Runtime, rt2: Runtime, cluster: Cluster, nodes1: seq<Node>, nodes2: seq<Node>)
    requires rt1.getNodesByLabel(MasterLabels(cluster.name)) == Returned(nodes1)
    requires rt2.getNodesByLabel(MasterLabels(cluster.name)) == Returned(nodes2)
    requires |nodes1| > 0 && |nodes2| > 0 && nodes1[0] == nodes2[0]
    requires rt1.getKubeconfig(nodes1[0]) == rt2.getKubeconfig(nodes2[0])
    ensures GetKubeconfig(rt1, cluster) == GetKubeconfig(rt2, cluster)
  {
  }

  /** The header bytes never reach the result: payloads that differ only in the header extract alike. */
  lemma HeaderNeverReachesResult(h1: Bytes, h2: Bytes, body: Bytes)
    requires |h1| == HeaderSize && |h2| == HeaderSize
    ensures SkipHeaderAndTrim(h1 + body) == SkipHeaderAndTrim(h2 + body)
  {
    assert (h1 + body)[HeaderSize..] == body == (h2 + body)[HeaderSize..];
  }

  /** 512 header bytes, then "abc", then three NULs, extract to "abc". */
  lemma ExtractAbcExample(header: Bytes)
    requires |header| == HeaderSize
    ensures SkipHeaderAndTrim(header + [97, 98, 99] + [NUL, NUL, NUL]) == Ok([97, 98, 99])
  {
    var body: Bytes := [97, 98, 99] + [NUL, NUL, NUL];
    assert (header + [97, 98, 99] + [NUL, NUL, NUL])[HeaderSize..] == body;
    assert body[..0] == [] && body[0..3] == [97, 98, 99] && body[3..] == [NUL, NUL, NUL];
    TrimNulComplete(body, [97, 98, 99], 0);
  }
}
