/**
 The Puppet archive the Kubernetes stack hands to Terraform
 (pkg/tarmak/stack/kubernetes_stack.go): where it lives, the pre-destroy hook
 that makes sure it exists, and the pre-deploy hook that writes the archive.

 The file system is a map from path to file plus a count of open handles; the
 root path, `os.OpenFile`, Puppet's `TarGz` and `Close` are outcomes fixed in
 advance in an `ArtifactEnv`. `TarGz` either writes the whole archive from
 the start of the file or fails having written nothing.
 */
module PuppetArtifacts {
  import opened Wrappers

  type byte = x: int | 0 <= x < 256

  // ---------------------------------------------------------------------------
  // Path

  /** `filepath.Join` without the final `Clean`: the non-empty elements joined by '/'. */
  function JoinPath(elems: seq<string>): (p: string)
    ensures p == "" <==> forall i :: 0 <= i < |elems| ==> elems[i] == ""
  {
    if elems == [] then ""
    else
      var rest := JoinPath(elems[1..]);
      if elems[0] == "" then rest
      else if rest == "" then elems[0]
      else elems[0] + "/" + rest
  }

  /** `terraform/aws-centos/kubernetes/puppet.tar.gz`. */
  const ArtifactSuffix := "terraform" + "/" + "aws-centos" + "/" + "kubernetes" + "/" + "puppet.tar.gz"

  /** `puppetTarGzPath()`: the archive under the root path, or the root path's error wrapped. */
  function PuppetTarGzPath(rootPath: Result<string, string>): (r: Result<string, string>)
    ensures rootPath.Failure? ==> r == Failure("error getting rootPath: " + rootPath.error)
    ensures rootPath.Success? && rootPath.value != "" ==> r == Success(rootPath.value + "/" + ArtifactSuffix)
    ensures rootPath.Success? && rootPath.value == "" ==> r == Success(ArtifactSuffix)
  {
    if rootPath.Failure? then Failure("error getting rootPath: " + rootPath.error)
    else
      var elems := [rootPath.value, "terraform", "aws-centos", "kubernetes", "puppet.tar.gz"];
      ArtifactSuffixJoined();
      assert elems[1..] == ["terraform", "aws-centos", "kubernetes", "puppet.tar.gz"];
      Success(JoinPath(elems))
  }

  /** The four fixed elements join to the suffix. */
  lemma ArtifactSuffixJoined()
    ensures JoinPath(["terraform", "aws-centos", "kubernetes", "puppet.tar.gz"]) == ArtifactSuffix
  {
  }

  // ---------------------------------------------------------------------------
  // Files

  datatype File = File(perm: nat, data: seq<byte>)

  datatype Disk = Disk(files: map<string, File>, openHandles: nat)

  datatype OpenFlags = OpenFlags(readWrite: bool, create: bool, truncate: bool)

  /** `os.O_RDWR|os.O_CREATE`, the flags both hooks open the archive with. */
  const ReadWriteCreate := OpenFlags(true, true, false)
  /** `os.O_RDWR|os.O_CREATE|os.O_TRUNC`. */
  const ReadWriteCreateTruncate := OpenFlags(true, true, true)
  /** The permission bits `0600`. */
  const ArtifactPerm: nat := 0x180

  datatype FileOp = Open(path: string, flags: OpenFlags, perm: nat) | WriteArchive(path: string) | Close(path: string)

  datatype ArtifactEnv = ArtifactEnv(
    rootPath: Result<string, string>,
    open: Outcome<string>,
    tarGz: Result<seq<byte>, string>,
    close: Outcome<string>)

  /** The disk a hook leaves, the file calls it made in order, and its error. */
  datatype ArtifactRun = ArtifactRun(disk: Disk, ops: seq<FileOp>, err: Option<string>)

  /** A successful `os.OpenFile`: creates a missing file empty with `perm`, truncates when asked, and holds a handle. */
  function OpenFile(d: Disk, path: string, flags: OpenFlags, perm: nat): (d': Disk)
    requires flags.create
    ensures path in d'.files && d'.openHandles == d.openHandles + 1
    ensures path !in d.files ==> d'.files[path] == File(perm, [])
    ensures path in d.files ==> d'.files[path].perm == d.files[path].perm
    ensures path in d.files && !flags.truncate ==> d'.files[path].data == d.files[path].data
    ensures flags.truncate ==> d'.files[path].data == []
    ensures forall q :: q != path ==> (q in d'.files <==> q in d.files) && (q in d.files ==> d'.files[q] == d.files[q])
  {
    var f :=
      if path !in d.files then File(perm, [])
      else if flags.truncate then d.files[path].(data := [])
      else d.files[path];
    Disk(d.files[path := f], d.openHandles + 1)
  }

  /** Writing `data` at offset 0 over `before`: bytes of `before` past the end of `data` stay. */
  function WriteAtStart(before: seq<byte>, data: seq<byte>): (r: seq<byte>)
    ensures |r| == if |before| > |data| then |before| else |data|
    ensures r[..|data|] == data
    ensures r[|data|..] == if |before| > |data| then before[|data|..] else []
  {
    if |before| > |data| then data + before[|data|..] else data
  }

  function WriteArchiveTo(d: Disk, path: string, archive: seq<byte>): (d': Disk)
    requires path in d.files
    ensures d'.files == d.files[path := d.files[path].(data := WriteAtStart(d.files[path].data, archive))]
    ensures d'.openHandles == d.openHandles
  {
    d.(files := d.files[path := d.files[path].(data := WriteAtStart(d.files[path].data, archive))])
  }

  /** `file.Close()`: the handle is released whether or not `Close` reports an error. */
  function CloseFile(d: Disk): (d': Disk)
    requires d.openHandles > 0
    ensures d'.files == d.files && d'.openHandles + 1 == d.openHandles
  {
    d.(openHandles := d.openHandles - 1)
  }

  /** `a` is a prefix of `b`. */
  predicate IsPrefix<T(==)>(a: seq<T>, b: seq<T>) {
    |a| <= |b| && a == b[..|a|]
  }

  /** No file disappeared and no file other than `path` changed. */
  predicate OnlyTouches(d: Disk, d': Disk, path: string) {
    && d.files.Keys <= d'.files.Keys
    && forall q :: q in d'.files && q != path ==> q in d.files && d'.files[q] == d.files[q]
  }

  // ---------------------------------------------------------------------------
  // emptyPuppetTarGz

  /**
   `emptyPuppetTarGz()` once the path is known: opens the archive with create
   and closes it again, so that afterwards a file exists at the path. An
   existing file keeps its contents.
   */
  function EmptyAt(d: Disk, path: string, env: ArtifactEnv): (r: ArtifactRun)
    ensures r.err.None? <==> env.open.Pass? && env.close.Pass?
    ensures r.disk.openHandles == d.openHandles
    ensures OnlyTouches(d, r.disk, path)
    ensures IsPrefix(r.ops, [Open(path, ReadWriteCreate, ArtifactPerm), Close(path)])
    ensures env.open.Fail? ==> r == ArtifactRun(d, [Open(path, ReadWriteCreate, ArtifactPerm)], Some("error creating " + path + ": " + env.open.error))
    ensures env.open.Pass? ==> |r.ops| == 2 && path in r.disk.files
    ensures env.open.Pass? && path in d.files ==> r.disk.files[path] == d.files[path]
    ensures env.open.Pass? && path !in d.files ==> r.disk.files[path] == File(ArtifactPerm, [])
    ensures env.open.Pass? && env.close.Fail? ==> r.err == Some("error closing " + path + ": " + env.close.error)
  {
    var opening := [Open(path, ReadWriteCreate, ArtifactPerm)];
    if env.open.Fail? then
      ArtifactRun(d, opening, Some("error creating " + path + ": " + env.open.error))
    else
      var closed := CloseFile(OpenFile(d, path, ReadWriteCreate, ArtifactPerm));
      var err := if env.close.Fail? then Some("error closing " + path + ": " + env.close.error) else None;
      ArtifactRun(closed, opening + [Close(path)], err)
  }

  /** `emptyPuppetTarGz()`: a root-path error is returned as it is, before any file call. */
  function EmptyPuppetTarGz(d: Disk, env: ArtifactEnv): (r: ArtifactRun)
    ensures env.rootPath.Failure? ==> r == ArtifactRun(d, [], Some("error getting rootPath: " + env.rootPath.error))
    ensures env.rootPath.Success? ==> r == EmptyAt(d, PuppetTarGzPath(env.rootPath).value, env)
  {
    match PuppetTarGzPath(env.rootPath)
    case Failure(e) => ArtifactRun(d, [], Some(e))
    case Success(path) => EmptyAt(d, path, env)
  }

  /** Running the pre-destroy hook twice leaves the same files as running it once. */
  lemma EmptyPuppetTarGzIdempotent(d: Disk, env: ArtifactEnv)
    ensures EmptyPuppetTarGz(EmptyPuppetTarGz(d, env).disk, env).disk == EmptyPuppetTarGz(d, env).disk
  {
  }

  /** An existing archive survives the pre-destroy hook whole: the file is not emptied. */
  lemma ArchiveSurvivesEmptyAsWritten()
    ensures var path := "/r/" + ArtifactSuffix;
      var d := Disk(map[path := File(ArtifactPerm, [1, 2, 3])], 0);
      var r := EmptyPuppetTarGz(d, Succeeding([]));
      && r.err.None? && r.disk.files[path].data == [1, 2, 3]
  {
    assert PuppetTarGzPath(Success("/r")).value == "/r/" + ArtifactSuffix;
  }

  // ---------------------------------------------------------------------------
  // emptyPuppetTarGz, corrected

  /**
   `emptyPuppetTarGz()` as its name and its place in the destroy chain
   promise, once the path is known: the file is opened with `O_TRUNC`, so
   that afterwards it exists and is empty.
   */
  function EmptyTruncatingAt(d: Disk, path: string, env: ArtifactEnv): (r: ArtifactRun)
    ensures r.err.None? <==> env.open.Pass? && env.close.Pass?
    ensures r.disk.openHandles == d.openHandles
    ensures OnlyTouches(d, r.disk, path)
    ensures IsPrefix(r.ops, [Open(path, ReadWriteCreateTruncate, ArtifactPerm), Close(path)])
    ensures env.open.Fail? ==> r == ArtifactRun(d, [Open(path, ReadWriteCreateTruncate, ArtifactPerm)], Some("error creating " + path + ": " + env.open.error))
    ensures env.open.Pass? ==> |r.ops| == 2 && path in r.disk.files && r.disk.files[path].data == []
    ensures env.open.Pass? && path in d.files ==> r.disk.files[path].perm == d.files[path].perm
    ensures env.open.Pass? && path !in d.files ==> r.disk.files[path] == File(ArtifactPerm, [])
    ensures env.open.Pass? && env.close.Fail? ==> r.err == Some("error closing " + path + ": " + env.close.error)
  {
    var opening := [Open(path, ReadWriteCreateTruncate, ArtifactPerm)];
    if env.open.Fail? then
      ArtifactRun(d, opening, Some("error creating " + path + ": " + env.open.error))
    else
      var closed := CloseFile(OpenFile(d, path, ReadWriteCreateTruncate, ArtifactPerm));
      var err := if env.close.Fail? then Some("error closing " + path + ": " + env.close.error) else None;
      ArtifactRun(closed, opening + [Close(path)], err)
  }

  /** The corrected pre-destroy hook, with the root-path error returned before any file call. */
  function EmptyPuppetTarGzCorrected(d: Disk, env: ArtifactEnv): (r: ArtifactRun)
    ensures env.rootPath.Failure? ==> r == ArtifactRun(d, [], Some("error getting rootPath: " + env.rootPath.error))
    ensures env.rootPath.Success? ==> r == EmptyTruncatingAt(d, PuppetTarGzPath(env.rootPath).value, env)
  {
    match PuppetTarGzPath(env.rootPath)
    case Failure(e) => ArtifactRun(d, [], Some(e))
    case Success(path) => EmptyTruncatingAt(d, path, env)
  }

  /**
   Run twice in a row where the open succeeds, the corrected hook leaves the
   archive present and zero-length both times, and the second run changes nothing.
   */
  lemma EmptyCorrectedTwice(d: Disk, env: ArtifactEnv)
    requires env.rootPath.Success? && env.open.Pass?
    ensures var path := PuppetTarGzPath(env.rootPath).value;
      var once := EmptyPuppetTarGzCorrected(d, env);
      var twice := EmptyPuppetTarGzCorrected(once.disk, env);
      && path in once.disk.files && once.disk.files[path].data == []
      && path in twice.disk.files && twice.disk.files[path].data == []
      && twice.disk == once.disk
  {
  }

  // ---------------------------------------------------------------------------
  // ensurePuppetTarGz, as written

  /**
   `ensurePuppetTarGz()` as the source has it, once the path is known: the file
   is opened without `O_TRUNC`, and when `TarGz` fails the function returns
   without closing it.
   */
  function EnsureAsWrittenAt(d: Disk, path: string, env: ArtifactEnv): (r: ArtifactRun)
    ensures r.err.None? <==> env.open.Pass? && env.tarGz.Success? && env.close.Pass?
    ensures OnlyTouches(d, r.disk, path)
    ensures IsPrefix(r.ops, [Open(path, ReadWriteCreate, ArtifactPerm), WriteArchive(path), Close(path)])
    ensures env.open.Fail? ==> r == ArtifactRun(d, [Open(path, ReadWriteCreate, ArtifactPerm)], Some("error creating " + path + ": " + env.open.error))
    ensures env.open.Pass? && env.tarGz.Failure? ==>
      |r.ops| == 2 && r.err == Some("error writing to " + path + ": " + env.tarGz.error) && r.disk.openHandles == d.openHandles + 1
    ensures env.open.Pass? && env.tarGz.Success? ==>
      && |r.ops| == 3 && r.disk.openHandles == d.openHandles && path in r.disk.files
      && r.disk.files[path].data == WriteAtStart(if path in d.files then d.files[path].data else [], env.tarGz.value)
  {
    var opening := [Open(path, ReadWriteCreate, ArtifactPerm)];
    if env.open.Fail? then
      ArtifactRun(d, opening, Some("error creating " + path + ": " + env.open.error))
    else
      var handle := OpenFile(d, path, ReadWriteCreate, ArtifactPerm);
      if env.tarGz.Failure? then
        ArtifactRun(handle, opening + [WriteArchive(path)], Some("error writing to " + path + ": " + env.tarGz.error))
      else
        var closed := CloseFile(WriteArchiveTo(handle, path, env.tarGz.value));
        var err := if env.close.Fail? then Some("error closing " + path + ": " + env.close.error) else None;
        ArtifactRun(closed, opening + [WriteArchive(path), Close(path)], err)
  }

  function EnsurePuppetTarGzAsWritten(d: Disk, env: ArtifactEnv): (r: ArtifactRun)
    ensures env.rootPath.Failure? ==> r == ArtifactRun(d, [], Some("error getting rootPath: " + env.rootPath.error))
    ensures env.rootPath.Success? ==> r == EnsureAsWrittenAt(d, PuppetTarGzPath(env.rootPath).value, env)
  {
    match PuppetTarGzPath(env.rootPath)
    case Failure(e) => ArtifactRun(d, [], Some(e))
    case Success(path) => EnsureAsWrittenAt(d, path, env)
  }

  /** An environment in which every step succeeds, writing `archive` under the root path `/r`. */
  function Succeeding(archive: seq<byte>): ArtifactEnv {
    ArtifactEnv(Success("/r"), Pass, Success(archive), Pass)
  }

  /**
   A shorter archive over a longer stale one: the file the hook reports as
   written is not the archive, its first byte is followed by the old bytes.
   */
  lemma StaleBytesSurviveAsWritten()
    ensures var path := "/r/" + ArtifactSuffix;
      var d := Disk(map[path := File(ArtifactPerm, [1, 2, 3])], 0);
      var r := EnsurePuppetTarGzAsWritten(d, Succeeding([9]));
      && r.err.None? && r.disk.files[path].data == [9, 2, 3] && r.disk.files[path].data != [9]
  {
    var path := "/r/" + ArtifactSuffix;
    var d := Disk(map[path := File(ArtifactPerm, [1, 2, 3])], 0);
    assert PuppetTarGzPath(Success("/r")).value == path;
    var r := EnsurePuppetTarGzAsWritten(d, Succeeding([9]));
    assert r.disk.files[path].data == WriteAtStart([1, 2, 3], [9]);
  }

  /** A failing `TarGz` returns with the file still open. */
  lemma HandleLeakAsWritten(d: Disk)
    ensures var r := EnsurePuppetTarGzAsWritten(d, ArtifactEnv(Success("/r"), Pass, Failure("disk full"), Pass));
      r.err.Some? && r.disk.openHandles == d.openHandles + 1
  {
  }

  // ---------------------------------------------------------------------------
  // ensurePuppetTarGz, corrected

  /**
   `ensurePuppetTarGz()` as evidently intended, once the path is known: the
   file is opened with `O_TRUNC`, so that it ends up holding exactly the
   archive, and it is closed on every way out after a successful open. When
   both `TarGz` and `Close` fail, the write error is the one returned.
   */
  function EnsureAt(d: Disk, path: string, env: ArtifactEnv): (r: ArtifactRun)
    ensures r.err.None? <==> env.open.Pass? && env.tarGz.Success? && env.close.Pass?
    ensures r.disk.openHandles == d.openHandles
    ensures OnlyTouches(d, r.disk, path)
    ensures env.open.Fail? ==> r == ArtifactRun(d, [Open(path, ReadWriteCreateTruncate, ArtifactPerm)], Some("error creating " + path + ": " + env.open.error))
    ensures env.open.Pass? ==> path in r.disk.files
    ensures env.open.Pass? && env.tarGz.Success? ==>
      r.ops == [Open(path, ReadWriteCreateTruncate, ArtifactPerm), WriteArchive(path), Close(path)]
    ensures env.open.Pass? && env.tarGz.Failure? ==>
      r.ops == [Open(path, ReadWriteCreateTruncate, ArtifactPerm), WriteArchive(path), Close(path)]
      && r.err == Some("error writing to " + path + ": " + env.tarGz.error)
    ensures env.open.Pass? && env.tarGz.Success? ==> r.disk.files[path].data == env.tarGz.value
    ensures env.open.Pass? && env.tarGz.Success? && env.close.Fail? ==> r.err == Some("error closing " + path + ": " + env.close.error)
  {
    var opening := [Open(path, ReadWriteCreateTruncate, ArtifactPerm)];
    if env.open.Fail? then
      ArtifactRun(d, opening, Some("error creating " + path + ": " + env.open.error))
    else
      var handle := OpenFile(d, path, ReadWriteCreateTruncate, ArtifactPerm);
      var ops := opening + [WriteArchive(path), Close(path)];
      if env.tarGz.Failure? then
        ArtifactRun(CloseFile(handle), ops, Some("error writing to " + path + ": " + env.tarGz.error))
      else
        var closed := CloseFile(WriteArchiveTo(handle, path, env.tarGz.value));
        var err := if env.close.Fail? then Some("error closing " + path + ": " + env.close.error) else None;
        ArtifactRun(closed, ops, err)
  }

  /** The pre-deploy artifact hook as the rest of the model runs it. */
  function EnsurePuppetTarGz(d: Disk, env: ArtifactEnv): (r: ArtifactRun)
    ensures env.rootPath.Failure? ==> r == ArtifactRun(d, [], Some("error getting rootPath: " + env.rootPath.error))
    ensures env.rootPath.Success? ==> r == EnsureAt(d, PuppetTarGzPath(env.rootPath).value, env)
  {
    match PuppetTarGzPath(env.rootPath)
    case Failure(e) => ArtifactRun(d, [], Some(e))
    case Success(path) => EnsureAt(d, path, env)
  }

  /** Whatever the file held before, a successful run leaves exactly the archive in it, and no handle open. */
  lemma EnsureWritesExactlyArchive(d: Disk, env: ArtifactEnv)
    requires env.rootPath.Success? && env.open.Pass? && env.tarGz.Success?
    ensures var r := EnsurePuppetTarGz(d, env);
      var path := PuppetTarGzPath(env.rootPath).value;
      path in r.disk.files && r.disk.files[path].data == env.tarGz.value && r.disk.openHandles == d.openHandles
  {
  }

  /** On every input the corrected hook leaves no handle open, where the source's can leave one. */
  lemma EnsureNeverLeaksHandle(d: Disk, env: ArtifactEnv)
    ensures EnsurePuppetTarGz(d, env).disk.openHandles == d.openHandles
    ensures EnsurePuppetTarGzAsWritten(d, env).disk.openHandles <= d.openHandles + 1
  {
  }

  /**
   Where the file was not longer than the archive, or did not exist, and no
   step failed, the corrected hook leaves the same file as the source's.
   */
  lemma CorrectedAgreesWithoutStaleBytes(d: Disk, env: ArtifactEnv)
    requires env.rootPath.Success? && env.open.Pass? && env.tarGz.Success?
    requires var path := PuppetTarGzPath(env.rootPath).value;
      path in d.files ==> |d.files[path].data| <= |env.tarGz.value|
    ensures EnsurePuppetTarGz(d, env).disk == EnsurePuppetTarGzAsWritten(d, env).disk
    ensures EnsurePuppetTarGz(d, env).err == EnsurePuppetTarGzAsWritten(d, env).err
  {
  }
}
