/**
 * `GetKubeconfigPath`: extract the kubeconfig and write it to the destination
 * the caller names: `-` for standard output, the empty string for the
 * built-in default file, anything else for a file created at that path.
 *
 * The local machine is a map from path to file content, a byte log for
 * standard output, and the list of file handles left open. Whether
 * `os.Create` and `Write` fail is given by `Io`, the answers of the
 * operating system.
 */
module KubeconfigPath {
  import opened Bytes
  import opened Kubeconfig

  /** `nil` or a non-nil Go `error`. */
  datatype Option<+T> = None | Some(value: T)

  /** The path that selects standard output. */
  const StdoutPath := "-"

  /** The file written when the caller gives no path. */
  const DefaultPath := "/tmp/test.yaml"

  /** Where the bytes go: the process's standard output or a file at a path. */
  datatype Destination = Stdout | File(path: string)

  /** The choice of destination made from the caller's path. */
  function ResolveDestination(path: string): (d: Destination)
    ensures d == Stdout <==> path == StdoutPath
    ensures path == "" ==> d == File(DefaultPath)
    ensures path != "" && path != StdoutPath ==> d == File(path)
    ensures d.File? ==> d.path != "" && d.path != StdoutPath
  {
    if path == StdoutPath then Stdout
    else if path == "" then File(DefaultPath)
    else File(path)
  }

  /** How one `Write` ends: all bytes written, or an error after the first `written` bytes. */
  datatype WriteResult = Wrote | WriteFailed(written: nat, error: Error)

  /** The operating system's answers: the error `os.Create(path)` returns, and how a write to a destination ends. */
  datatype Io = Io(
    create: string -> Option<Error>,
    write: (Destination, Bytes) -> WriteResult)

  /** The bytes of `data` that reach the destination when the write ends with `w`. */
  function Written(data: Bytes, w: WriteResult): (r: Bytes)
    ensures |r| <= |data| && r == data[..|r|]
    ensures w.Wrote? ==> r == data
    ensures w.WriteFailed? ==> |r| == (if w.written < |data| then w.written else |data|)
  {
    if w.Wrote? then data
    else if w.written < |data| then data[..w.written]
    else data
  }

  /** `output.Name()`: the path given to `os.Create`, or the name of the standard output handle. */
  function OutputName(d: Destination, stdoutName: string): string {
    match d
    case Stdout => stdoutName
    case File(p) => p
  }

  /** The part of the local machine the writer touches. */
  datatype Local = Local(files: map<string, Bytes>, stdout: Bytes, openFiles: seq<string>)

  /**
   * The writing half of `GetKubeconfigPath`, once the bytes are in hand: the
   * new local state and what the call returns (`Err` stands for the `""`
   * name returned beside an error).
   */
  function WriteKubeconfig(l: Local, data: Bytes, path: string, io: Io, stdoutName: string): (r: (Local, Outcome<string>))
    ensures !r.1.Panicked?
    ensures r.1.Ok? ==> r.1.value == OutputName(ResolveDestination(path), stdoutName)
    ensures || r.0.openFiles == l.openFiles
            || (ResolveDestination(path).File? && r.0.openFiles == l.openFiles + [ResolveDestination(path).path])
  {
    var d := ResolveDestination(path);
    if d.File? && io.create(d.path).Some? then
      (l, Err(io.create(d.path).value))
    else
      var w := io.write(d, data);
      var l' := match d
        case Stdout => l.(stdout := l.stdout + Written(data, w))
        // os.Create truncates; the deferred Close binds a nil handle, so the file stays open
        case File(p) => l.(files := l.files[p := Written(data, w)], openFiles := l.openFiles + [p]);
      (l', if w.Wrote? then Ok(OutputName(d, stdoutName)) else Err(w.error))
  }

  /** The name a successful call returns for each path: the stdout handle's name for `-`, otherwise the path written. */
  lemma NameOfPath(path: string, stdoutName: string)
    ensures path == StdoutPath ==> OutputName(ResolveDestination(path), stdoutName) == stdoutName
    ensures path == "" ==> OutputName(ResolveDestination(path), stdoutName) == DefaultPath
    ensures path != "" && path != StdoutPath ==> OutputName(ResolveDestination(path), stdoutName) == path
  {
  }

  /** All of `GetKubeconfigPath` on the local state: extraction failures return before anything is written. */
  function GetKubeconfigPathEffect(l: Local, rt: Runtime, cluster: Cluster, path: string, io: Io, stdoutName: string): (r: (Local, Outcome<string>))
    ensures r.1.Ok? ==> GetKubeconfig(rt, cluster).result.Ok?
    ensures r.1.Panicked? ==> GetKubeconfig(rt, cluster).result == Panicked(r.1.panic)
    ensures !GetKubeconfig(rt, cluster).result.Ok? ==> r.0 == l
  {
    var x := GetKubeconfig(rt, cluster).result;
    if x.Ok? then WriteKubeconfig(l, x.value, path, io, stdoutName) else (l, Failure(x))
  }

  /** The machine the command runs on. */
  class Host {
    var files: map<string, Bytes>
    var stdout: Bytes
    /** Files created and never closed. */
    var openFiles: seq<string>
    /** Calls made on the container runtime and its streams. */
    var calls: seq<Call>
    /** What `os.Stdout.Name()` returns. */
    const stdoutName: string

    /** Every open handle refers to a file that exists. */
    ghost predicate Valid()
      reads this
    {
      forall p :: p in openFiles ==> p in files
    }

    function State(): Local
      reads this
    {
      Local(files, stdout, openFiles)
    }

    constructor (files: map<string, Bytes>, stdoutName: string)
      ensures Valid()
      ensures State() == Local(files, [], []) && calls == [] && this.stdoutName == stdoutName
    {
      this.files := files;
      this.stdout := [];
      this.openFiles := [];
      this.calls := [];
      this.stdoutName := stdoutName;
    }

    /** `GetKubeconfigPath(runtime, cluster, path)`. */
    method GetKubeconfigPath(rt: Runtime, cluster: Cluster, path: string, io: Io) returns (r: Outcome<string>)
      requires Valid()
      modifies this
      ensures Valid()
      ensures calls == old(calls) + GetKubeconfig(rt, cluster).calls
      ensures (State(), r) == GetKubeconfigPathEffect(old(State()), rt, cluster, path, io, stdoutName)
    {
      var extraction := GetKubeconfig(rt, cluster);
      calls := calls + extraction.calls;
      if !extraction.result.Ok? {
        return Failure(extraction.result);
      }
      var kubeconfigBytes := extraction.result.value;

      var output: Destination;
      var target := path;
      if target == StdoutPath {
        output := Stdout;
      } else {
        if target == "" {
          target := DefaultPath;
        }
        var createErr := io.create(target);
        if createErr.Some? {
          return Err(createErr.value);
        }
        files := files[target := []];
        openFiles := openFiles + [target];
        output := File(target);
      }

      var w := io.write(output, kubeconfigBytes);
      match output {
        case Stdout =>
          stdout := stdout + Written(kubeconfigBytes, w);
        case File(p) =>
          files := files[p := Written(kubeconfigBytes, w)];
          assert files == old(files)[p := Written(kubeconfigBytes, w)];
      }
      if w.WriteFailed? {
        return Err(w.error);
      }
      return Ok(OutputName(output, stdoutName));
    }
  }

  /** Writing to `-` creates, changes and opens no file; on success the bytes follow what was on standard output. */
  lemma StdoutTouchesNoFile(l: Local, data: Bytes, io: Io, stdoutName: string)
    ensures WriteKubeconfig(l, data, StdoutPath, io, stdoutName).0.files == l.files
    ensures WriteKubeconfig(l, data, StdoutPath, io, stdoutName).0.openFiles == l.openFiles
    ensures WriteKubeconfig(l, data, StdoutPath, io, stdoutName).1.Ok? ==>
              && WriteKubeconfig(l, data, StdoutPath, io, stdoutName).0.stdout == l.stdout + data
              && WriteKubeconfig(l, data, StdoutPath, io, stdoutName).1.value == stdoutName
  {
  }

  /** Any path other than `-` leaves standard output alone and changes no file but the resolved one. */
  lemma FileLeavesStdoutAndOtherFiles(l: Local, data: Bytes, path: string, io: Io, stdoutName: string)
    requires path != StdoutPath
    ensures WriteKubeconfig(l, data, path, io, stdoutName).0.stdout == l.stdout
    ensures WriteKubeconfig(l, data, path, io, stdoutName).0.files - {ResolveDestination(path).path}
         == l.files - {ResolveDestination(path).path}
  {
  }

  /** On success the destination holds exactly the bytes, whatever the file held before, and the name returned is the path used. */
  lemma SuccessHoldsExactlyTheBytes(l: Local, data: Bytes, path: string, io: Io, stdoutName: string)
    requires path != StdoutPath
    requires WriteKubeconfig(l, data, path, io, stdoutName).1.Ok?
    ensures WriteKubeconfig(l, data, path, io, stdoutName).1.value == ResolveDestination(path).path
    ensures WriteKubeconfig(l, data, path, io, stdoutName).0.files[ResolveDestination(path).path] == data
    ensures WriteKubeconfig(l, data, path, io, stdoutName).0.openFiles == l.openFiles + [ResolveDestination(path).path]
  {
  }

  /** The writer succeeds exactly when the destination can be opened and the write completes; it never panics. */
  lemma WriteSucceedsIff(l: Local, data: Bytes, path: string, io: Io, stdoutName: string)
    ensures !WriteKubeconfig(l, data, path, io, stdoutName).1.Panicked?
    ensures WriteKubeconfig(l, data, path, io, stdoutName).1.Ok? <==>
              && (ResolveDestination(path).File? ==> io.create(ResolveDestination(path).path).None?)
              && io.write(ResolveDestination(path), data).Wrote?
  {
  }

  /** A failing `os.Create` returns its error and changes nothing. */
  lemma CreateFailureChangesNothing(l: Local, data: Bytes, path: string, io: Io, stdoutName: string)
    requires path != StdoutPath && io.create(ResolveDestination(path).path).Some?
    ensures WriteKubeconfig(l, data, path, io, stdoutName)
         == (l, Err(io.create(ResolveDestination(path).path).value))
  {
  }

  /** A failing write returns its error; the destination holds at most a prefix of the bytes. */
  lemma WriteFailureLeavesPrefix(l: Local, data: Bytes, path: string, io: Io, stdoutName: string)
    requires path != StdoutPath && io.create(ResolveDestination(path).path).None?
    requires io.write(ResolveDestination(path), data).WriteFailed?
    ensures WriteKubeconfig(l, data, path, io, stdoutName).1 == Err(io.write(ResolveDestination(path), data).error)
    ensures var f := WriteKubeconfig(l, data, path, io, stdoutName).0.files[ResolveDestination(path).path];
            |f| <= |data| && f == data[..|f|]
  {
  }

  /** Create truncates: writing the same bytes to the same path twice leaves the same files as writing them once. */
  lemma RewriteGivesSameFiles(l: Local, data: Bytes, path: string, io1: Io, io2: Io, stdoutName: string)
    requires path != StdoutPath
    requires WriteKubeconfig(l, data, path, io1, stdoutName).1.Ok?
    requires WriteKubeconfig(WriteKubeconfig(l, data, path, io1, stdoutName).0, data, path, io2, stdoutName).1.Ok?
    ensures WriteKubeconfig(WriteKubeconfig(l, data, path, io1, stdoutName).0, data, path, io2, stdoutName).0.files
         == WriteKubeconfig(l, data, path, io1, stdoutName).0.files
  {
    var p := ResolveDestination(path).path;
    var once := WriteKubeconfig(l, data, path, io1, stdoutName).0;
    var twice := WriteKubeconfig(once, data, path, io2, stdoutName).0;
    assert twice.files == once.files[p := data];
    assert once.files[p] == data;
  }

  /** A failed extraction returns its failure and leaves the local machine as it was. */
  lemma ExtractionFailureWritesNothing(l: Local, rt: Runtime, cluster: Cluster, path: string, io: Io, stdoutName: string)
    requires !GetKubeconfig(rt, cluster).result.Ok?
    ensures GetKubeconfigPathEffect(l, rt, cluster, path, io, stdoutName)
         == (l, Failure(GetKubeconfig(rt, cluster).result))
  {
  }

  /**
   * End to end: when `GetKubeconfigPath` succeeds, the first master node
   * served a payload of at least 512 bytes, and the destination received
   * exactly that payload without its header and its NUL padding.
   */
  lemma DeliveredBytesAreTrimmedPayload(l: Local, rt: Runtime, cluster: Cluster, path: string, io: Io, stdoutName: string)
    requires GetKubeconfigPathEffect(l, rt, cluster, path, io, stdoutName).1.Ok?
    ensures exists node, payload ::
              && Serves(rt, cluster, node, payload)
              && |payload| >= HeaderSize
              && var l' := GetKubeconfigPathEffect(l, rt, cluster, path, io, stdoutName).0;
                 if path == StdoutPath then l'.stdout == l.stdout + TrimNul(payload[HeaderSize..])
                 else l'.files[ResolveDestination(path).path] == TrimNul(payload[HeaderSize..])
  {
    var x := GetKubeconfig(rt, cluster).result;
    assert x.Ok?;
    SuccessMeansTrimmedPayload(rt, cluster);
    var node, payload :| && Serves(rt, cluster, node, payload)
                         && |payload| >= HeaderSize
                         && x.value == TrimNul(payload[HeaderSize..]);
    if path == StdoutPath {
      StdoutTouchesNoFile(l, x.value, io, stdoutName);
    } else {
      SuccessHoldsExactlyTheBytes(l, x.value, path, io, stdoutName);
    }
  }
}
