/** The S3 remote filesystem connector of the frontend (`S3FileSystem`): a
    lazily built, memoised native filesystem handle guarded by a closed flag,
    and wildcard listing that either goes through that handle or, in
    assumed-role mode, through the object-storage client. */
module RemoteFs {
  import opened Wrappers

  /** The listing status codes this connector produces. */
  datatype ErrCode = NOT_FOUND | COMMON_ERROR

  /** `org.apache.doris.backup.Status`: OK, or an error code with a message. */
  datatype Status = OK | Error(code: ErrCode, msg: string)

  /** The Java exception classes the connector tells apart. */
  datatype ExceptionKind =
    | FileNotFound                                    // java.io.FileNotFoundException
    | AmazonS3(httpHeaders: Option<map<string, string>>) // AmazonS3Exception and its response headers
    | User                                            // org.apache.doris.common.UserException
    | Other                                           // any other exception

  /** A thrown exception: its class, its message and its cause. */
  datatype Exception = Exception(kind: ExceptionKind, message: string, cause: Option<Exception>)

  const CLOSED_MESSAGE := "FileSystem is closed."
  const MINIO_ERROR_HEADER := "X-Minio-Error-Desc"
  /** `S3Properties.ROLE_ARN` and `S3Properties.Env.ROLE_ARN`. */
  const ROLE_ARN := "s3.role_arn"
  const ENV_ROLE_ARN := "AWS_ROLE_ARN"

  /** What `nativeFileSystem` throws once the filesystem is closed. */
  const ClosedException := Exception(User, CLOSED_MESSAGE, None)

  /** What `nativeFileSystem` throws when building the handle threw `e`. */
  function ConstructionFailure(e: Exception): (x: Exception)
    ensures x.kind == User && x.cause == Some(e)
    ensures x.message == "Failed to get S3 FileSystem for " + e.message
  {
    Exception(User, "Failed to get S3 FileSystem for " + e.message, Some(e))
  }

  /** An opaque native Hadoop `FileSystem`; equal values are the same object. */
  datatype Handle = Handle(id: nat)

  /** The authenticator the handle is built under: S3 has no Kerberos, so it
      is always the simple one, made from the Hadoop configuration. */
  datatype Authenticator = SimpleAuthenticator(conf: map<string, string>)

  /** The outcome of `authenticator.doAs(() -> FileSystem.get(uri, conf))`. */
  datatype Construction = Built(handle: Handle) | Threw(e: Exception)

  /** A `FileStatus` matched by `globStatus`; `path` is its `toString()`. */
  datatype FileStatus = FileStatus(path: string, isDirectory: bool, len: int, blockSize: int, modificationTime: int)

  /** The `RemoteFile` record a listing returns. */
  datatype RemoteFile = RemoteFile(name: string, isFile: bool, size: int, blockSize: int, modificationTime: int)

  /** The outcome of `globStatus`: a null array, an array of matches, or an exception. */
  datatype GlobOutcome = NoMatches | Matches(files: seq<FileStatus>) | GlobThrew(e: Exception)

  /** `conf.set(k, v)` for each converted property, in iteration order,
      skipping every entry whose key or value is null. */
  function ApplyEntries(conf: map<string, string>, entries: seq<(Option<string>, Option<string>)>): map<string, string>
  {
    if entries == [] then conf
    else
      var c := ApplyEntries(conf, entries[..|entries| - 1]);
      var e := entries[|entries| - 1];
      if e.0.Some? && e.1.Some? then c[e.0.value := e.1.value] else c
  }

  /** A key is in the configuration exactly when it was there already or some
      converted entry with that key has a non-null value. */
  lemma {:induction false} ApplyEntriesKeys(conf: map<string, string>, entries: seq<(Option<string>, Option<string>)>, k: string)
    ensures k in ApplyEntries(conf, entries) <==>
              k in conf || exists i :: 0 <= i < |entries| && entries[i].0 == Some(k) && entries[i].1.Some?
  {
    if entries != [] {
      var init := entries[..|entries| - 1];
      ApplyEntriesKeys(conf, init, k);
      assert forall i :: 0 <= i < |init| ==> init[i] == entries[i];
    }
  }

  /** The configuration holds the value of the last non-null entry for a key,
      and keeps its own value for a key no such entry names. */
  lemma {:induction false} ApplyEntriesValue(conf: map<string, string>, entries: seq<(Option<string>, Option<string>)>, k: string)
    ensures (forall i :: 0 <= i < |entries| && entries[i].0 == Some(k) ==> entries[i].1.None?) && k in conf ==>
              k in ApplyEntries(conf, entries) && ApplyEntries(conf, entries)[k] == conf[k]
    ensures forall i :: 0 <= i < |entries| && entries[i].0 == Some(k) && entries[i].1.Some? &&
                        (forall j :: i < j < |entries| && entries[j].0 == Some(k) ==> entries[j].1.None?) ==>
              k in ApplyEntries(conf, entries) && ApplyEntries(conf, entries)[k] == entries[i].1.value
  {
    if entries != [] {
      var init := entries[..|entries| - 1];
      ApplyEntriesValue(conf, init, k);
      assert forall i :: 0 <= i < |init| ==> init[i] == entries[i];
    }
  }

  /** Hadoop `Path.getName()`: the part of the path after its last '/'. */
  function LastSegment(p: string): (r: string)
    ensures |r| <= |p| && r == p[|p| - |r|..]
    ensures '/' !in r
    ensures |r| < |p| ==> p[|p| - |r| - 1] == '/'
  {
    if p == [] || p[|p| - 1] == '/' then []
    else LastSegment(p[..|p| - 1]) + [p[|p| - 1]]
  }

  /** The `RemoteFile` made from one matched entry. */
  function ToRemoteFile(fs: FileStatus, fileNameOnly: bool): (r: RemoteFile)
    ensures r.name == if fileNameOnly then LastSegment(fs.path) else fs.path
    ensures r.isFile == !fs.isDirectory
    ensures r.size == if fs.isDirectory then -1 else fs.len
    ensures r.blockSize == fs.blockSize && r.modificationTime == fs.modificationTime
  {
    RemoteFile(if fileNameOnly then LastSegment(fs.path) else fs.path,
               !fs.isDirectory, if fs.isDirectory then -1 else fs.len,
               fs.blockSize, fs.modificationTime)
  }

  /** The records of a run of matches, built one match after the other. */
  function ToRemoteFiles(files: seq<FileStatus>, fileNameOnly: bool): seq<RemoteFile>
  {
    if files == [] then []
    else ToRemoteFiles(files[..|files| - 1], fileNameOnly) + [ToRemoteFile(files[|files| - 1], fileNameOnly)]
  }

  /** Converting one more match appends its record. */
  lemma ToRemoteFilesSnoc(files: seq<FileStatus>, fileNameOnly: bool)
    requires files != []
    ensures ToRemoteFiles(files, fileNameOnly) ==
              ToRemoteFiles(files[..|files| - 1], fileNameOnly) + [ToRemoteFile(files[|files| - 1], fileNameOnly)]
  {
  }

  /** One record per match, in match order. */
  lemma {:induction false} ToRemoteFilesAt(files: seq<FileStatus>, fileNameOnly: bool)
    ensures |ToRemoteFiles(files, fileNameOnly)| == |files|
    ensures forall i :: 0 <= i < |files| ==> ToRemoteFiles(files, fileNameOnly)[i] == ToRemoteFile(files[i], fileNameOnly)
  {
    if files != [] {
      var init := files[..|files| - 1];
      ToRemoteFilesAt(init, fileNameOnly);
      assert forall i :: 0 <= i < |init| ==> init[i] == files[i];
    }
  }

  /** The error normalisation of `globListImplV1`: a file-not-found becomes
      NOT_FOUND; an exception caused by an `AmazonS3Exception` whose headers
      carry the MinIO error description surfaces that description; anything
      else is a common error with the exception's message. */
  function MapError(e: Exception): (st: Status)
    ensures st.Error?
    ensures st.code == NOT_FOUND <==> e.kind == FileNotFound
    ensures e.kind == FileNotFound ==> st.msg == "file not found: " + e.message
    ensures e.kind != FileNotFound && MinioDescription(e).Some? ==>
              st.msg == "Minio request error: " + MinioDescription(e).value
    ensures e.kind != FileNotFound && MinioDescription(e).None? ==>
              st.msg == "errors while get file status " + e.message
  {
    if e.kind == FileNotFound then Error(NOT_FOUND, "file not found: " + e.message)
    else
      match MinioDescription(e)
      case Some(desc) => Error(COMMON_ERROR, "Minio request error: " + desc)
      case None => Error(COMMON_ERROR, "errors while get file status " + e.message)
  }

  /** The MinIO error description carried by an exception's cause, if any:
      the cause is an `AmazonS3Exception` with non-null, non-empty headers
      holding the header `X-Minio-Error-Desc`. */
  function MinioDescription(e: Exception): (d: Option<string>)
    ensures d.Some? <==>
              && e.cause.Some? && e.cause.value.kind.AmazonS3?
              && e.cause.value.kind.httpHeaders.Some?
              && MINIO_ERROR_HEADER in e.cause.value.kind.httpHeaders.value
    ensures d.Some? ==> d.value == e.cause.value.kind.httpHeaders.value[MINIO_ERROR_HEADER]
  {
    if e.cause.None? || !e.cause.value.kind.AmazonS3? then None
    else
      var headers := e.cause.value.kind.httpHeaders;
      if headers.None? || |headers.value| == 0 then None
      else if MINIO_ERROR_HEADER !in headers.value then None
      else Some(headers.value[MINIO_ERROR_HEADER])
  }

  /** A listing on a closed filesystem is a common error, not NOT_FOUND. */
  lemma ClosedListingIsCommonError()
    ensures MapError(ClosedException) == Error(COMMON_ERROR, "errors while get file status " + CLOSED_MESSAGE)
  {
  }

  /** `Strings.isNullOrEmpty(properties.get(key))`. */
  function NullOrEmpty(props: map<string, string>, key: string): bool
  {
    key !in props || props[key] == ""
  }

  /** The dispatch of `globList`: the object-storage listing (V2) exactly
      when an assumed-role ARN is set under either property name. */
  function UsesObjStorageListing(props: map<string, string>): (v2: bool)
    ensures v2 <==> (ROLE_ARN in props && props[ROLE_ARN] != "") || (ENV_ROLE_ARN in props && props[ENV_ROLE_ARN] != "")
  {
    !NullOrEmpty(props, ROLE_ARN) || !NullOrEmpty(props, ENV_ROLE_ARN)
  }

  /** What `nativeFileSystem` returns, given the state it starts from: the
      closed error whenever closed; the memoised handle when there is one;
      else the outcome of building one from the configuration. */
  function NativeOutcome(closed: bool, dfsFileSystem: Option<Handle>, construction: Construction): (r: Result<Handle, Exception>)
    ensures closed ==> r == Failure(ClosedException)
    ensures !closed && dfsFileSystem.Some? ==> r == Success(dfsFileSystem.value)
    ensures !closed && dfsFileSystem.None? && construction.Built? ==> r == Success(construction.handle)
    ensures !closed && dfsFileSystem.None? && construction.Threw? ==> r == Failure(ConstructionFailure(construction.e))
  {
    if closed then Failure(ClosedException)
    else if dfsFileSystem.Some? then Success(dfsFileSystem.value)
    else match construction
      case Built(h) => Success(h)
      case Threw(e) => Failure(ConstructionFailure(e))
  }

  /** The status of `globListImplV1` and the records it appends, given the
      outcome of `nativeFileSystem` and of `globStatus`. */
  function ListingOutcome(native: Result<Handle, Exception>, glob: GlobOutcome, fileNameOnly: bool): (r: (Status, seq<RemoteFile>))
    ensures r.0 == OK <==> native.Success? && !glob.GlobThrew?
    ensures r.1 != [] ==> r.0 == OK && glob.Matches?
    ensures native.Success? && glob.Matches? ==> r.1 == ToRemoteFiles(glob.files, fileNameOnly)
    ensures native.Failure? ==> r.0 == MapError(native.error)
    ensures native.Success? && glob.GlobThrew? ==> r.0 == MapError(glob.e)
  {
    if native.Failure? then (MapError(native.error), [])
    else match glob
      case NoMatches => (OK, [])
      case Matches(files) => (OK, ToRemoteFiles(files, fileNameOnly))
      case GlobThrew(e) => (MapError(e), [])
  }

  /** The caller's `List<RemoteFile>` that a listing appends to. */
  class RemoteFileList {
    var files: seq<RemoteFile>

    constructor ()
      ensures files == []
    {
      files := [];
    }

    /** The listing loop: one record per match appended, in match order. */
    method AddAll(matches: seq<FileStatus>, fileNameOnly: bool)
      modifies this
      ensures files == old(files) + ToRemoteFiles(matches, fileNameOnly)
    {
      ghost var start := files;
      var i := 0;
      while i < |matches|
        invariant 0 <= i <= |matches|
        invariant files == start + ToRemoteFiles(matches[..i], fileNameOnly)
      {
        var record := ToRemoteFile(matches[i], fileNameOnly);
        assert matches[..i + 1][..i] == matches[..i];
        ToRemoteFilesSnoc(matches[..i + 1], fileNameOnly);
        files := files + [record];
        i := i + 1;
      }
      assert matches[..i] == matches;
    }
  }

  class S3FileSystem {
    /** The filesystem properties, taken from the object storage. */
    var properties: map<string, string>
    var closed: bool
    /** The memoised native handle (`dfsFileSystem`, null until built). */
    var dfsFileSystem: Option<Handle>
    var authenticator: Option<Authenticator>
    /** Handles registered with the phantom-reference cleanup manager. */
    var registered: seq<Handle>
    /** The number of native constructions attempted. */
    var constructions: nat

    /** The handle and its authenticator are published together. */
    ghost predicate Valid()
      reads this
    {
      && (dfsFileSystem.Some? <==> authenticator.Some?)
      && (dfsFileSystem.Some? ==> dfsFileSystem.value in registered)
    }

    /** The constructor with `initFsProperties`: the properties are those of
        the object storage; nothing is built yet. */
    constructor (objStorageProperties: map<string, string>)
      ensures Valid()
      ensures properties == objStorageProperties && !closed
      ensures dfsFileSystem == None && authenticator == None
      ensures registered == [] && constructions == 0
    {
      properties := objStorageProperties;
      closed := false;
      dfsFileSystem, authenticator := None, None;
      registered, constructions := [], 0;
    }

    /** Closing the filesystem, as far as this class sees it: the flag. */
    method Close()
      modifies this
      ensures closed
      ensures properties == old(properties) && dfsFileSystem == old(dfsFileSystem)
      ensures authenticator == old(authenticator) && registered == old(registered)
      ensures constructions == old(constructions)
      ensures old(Valid()) ==> Valid()
    {
      closed := true;
    }

    /** `getAuthenticator`. */
    function GetAuthenticator(): (a: Option<Authenticator>)
      reads this
      ensures Valid() ==> (a.Some? <==> dfsFileSystem.Some?)
    {
      authenticator
    }

    /** `nativeFileSystem(remotePath)`: fail once closed, even when a handle
        exists; return the memoised handle without building another; else
        build one under the simple authenticator from the Hadoop
        configuration `conf` (the base configuration with the converted
        properties applied), memoise and register it, or, when building
        throws, memoise nothing and wrap the cause, so a later call retries. */
    method NativeFileSystem(remotePath: string, baseConf: map<string, string>,
                            converted: seq<(Option<string>, Option<string>)>,
                            build: (string, map<string, string>) -> Construction)
      returns (r: Result<Handle, Exception>)
      requires Valid()
      modifies this
      ensures Valid()
      ensures var conf := ApplyEntries(baseConf, converted);
              r == NativeOutcome(old(closed), old(dfsFileSystem), build(remotePath, conf))
      ensures old(closed) || old(dfsFileSystem).Some? ==>
                && dfsFileSystem == old(dfsFileSystem) && authenticator == old(authenticator)
                && registered == old(registered) && constructions == old(constructions)
      ensures !old(closed) && old(dfsFileSystem).None? ==>
                var conf := ApplyEntries(baseConf, converted);
                && constructions == old(constructions) + 1
                && match build(remotePath, conf)
                   case Built(h) =>
                     && dfsFileSystem == Some(h) && authenticator == Some(SimpleAuthenticator(conf))
                     && registered == old(registered) + [h]
                   case Threw(_) =>
                     && dfsFileSystem == None && authenticator == None
                     && registered == old(registered)
      ensures closed == old(closed) && properties == old(properties)
    {
      if closed {
        return Failure(ClosedException);
      }
      if dfsFileSystem.None? {
        var conf := ApplyEntries(baseConf, converted);
        var auth := SimpleAuthenticator(conf);
        constructions := constructions + 1;
        match build(remotePath, conf)
        case Built(h) =>
          dfsFileSystem := Some(h);
          authenticator := Some(auth);
          registered := registered + [h];
        case Threw(e) =>
          return Failure(ConstructionFailure(e));
      }
      r := Success(dfsFileSystem.value);
    }

    /** `globListImplV1`: list through the native handle, appending one
        record per match in match order to `result`; errors come back as a
        status and leave `result` as it was. */
    method GlobListImplV1(remotePath: string, result: RemoteFileList, fileNameOnly: bool,
                          baseConf: map<string, string>, converted: seq<(Option<string>, Option<string>)>,
                          build: (string, map<string, string>) -> Construction,
                          globStatus: (Handle, string) -> GlobOutcome)
      returns (st: Status)
      requires Valid()
      modifies this, result
      ensures Valid()
      ensures var native := NativeOutcome(old(closed), old(dfsFileSystem), build(remotePath, ApplyEntries(baseConf, converted)));
              var glob := if native.Success? then globStatus(native.value, remotePath) else NoMatches;
              var outcome := ListingOutcome(native, glob, fileNameOnly);
              st == outcome.0 && result.files == old(result.files) + outcome.1
      ensures old(closed) || old(dfsFileSystem).Some? ==>
                && dfsFileSystem == old(dfsFileSystem) && authenticator == old(authenticator)
                && registered == old(registered) && constructions == old(constructions)
      ensures !old(closed) && old(dfsFileSystem).None? ==>
                var conf := ApplyEntries(baseConf, converted);
                && constructions == old(constructions) + 1
                && match build(remotePath, conf)
                   case Built(h) =>
                     && dfsFileSystem == Some(h) && authenticator == Some(SimpleAuthenticator(conf))
                     && registered == old(registered) + [h]
                   case Threw(_) =>
                     && dfsFileSystem == None && authenticator == None
                     && registered == old(registered)
      ensures closed == old(closed) && properties == old(properties)
    {
      var native := NativeFileSystem(remotePath, baseConf, converted, build);
      if native.Failure? {
        return MapError(native.error);
      }
      match globStatus(native.value, remotePath)
      case NoMatches =>
        return OK;
      case GlobThrew(e) =>
        return MapError(e);
      case Matches(files) =>
        result.AddAll(files, fileNameOnly);
        st := OK;
    }

    /** `globList`: the object-storage listing (V2, not part of this model
        beyond its outcome `globListV2`) in assumed-role mode, which leaves
        the native handle alone; the native listing otherwise. */
    method GlobList(remotePath: string, result: RemoteFileList, fileNameOnly: bool,
                    baseConf: map<string, string>, converted: seq<(Option<string>, Option<string>)>,
                    build: (string, map<string, string>) -> Construction,
                    globStatus: (Handle, string) -> GlobOutcome,
                    globListV2: seq<RemoteFile> -> (Status, seq<RemoteFile>))
      returns (st: Status)
      requires Valid()
      modifies this, result
      ensures Valid()
      ensures UsesObjStorageListing(old(properties)) ==>
                && (st, result.files) == globListV2(old(result.files))
                && dfsFileSystem == old(dfsFileSystem) && authenticator == old(authenticator)
                && registered == old(registered) && constructions == old(constructions)
      ensures !UsesObjStorageListing(old(properties)) ==>
                var native := NativeOutcome(old(closed), old(dfsFileSystem), build(remotePath, ApplyEntries(baseConf, converted)));
                var glob := if native.Success? then globStatus(native.value, remotePath) else NoMatches;
                var outcome := ListingOutcome(native, glob, fileNameOnly);
                st == outcome.0 && result.files == old(result.files) + outcome.1
      ensures !UsesObjStorageListing(old(properties)) && (old(closed) || old(dfsFileSystem).Some?) ==>
                && dfsFileSystem == old(dfsFileSystem) && authenticator == old(authenticator)
                && registered == old(registered) && constructions == old(constructions)
      ensures !UsesObjStorageListing(old(properties)) && !old(closed) && old(dfsFileSystem).None? ==>
                var conf := ApplyEntries(baseConf, converted);
                && constructions == old(constructions) + 1
                && match build(remotePath, conf)
                   case Built(h) =>
                     && dfsFileSystem == Some(h) && authenticator == Some(SimpleAuthenticator(conf))
                     && registered == old(registered) + [h]
                   case Threw(_) =>
                     && dfsFileSystem == None && authenticator == None
                     && registered == old(registered)
      ensures closed == old(closed) && properties == old(properties)
    {
      if UsesObjStorageListing(properties) {
        var listed;
        st, listed := globListV2(result.files).0, globListV2(result.files).1;
        result.files := listed;
        return;
      }
      st := GlobListImplV1(remotePath, result, fileNameOnly, baseConf, converted, build, globStatus);
    }
  }

  /** Once closed, acquiring the handle fails with the closed error even
      though a handle was built before, and nothing is built again. */
  method ClosedAlwaysFails(props: map<string, string>, h: Handle) returns (before: Result<Handle, Exception>, after: Result<Handle, Exception>)
    ensures before == Success(h)
    ensures after == Failure(ClosedException)
  {
    var fs := new S3FileSystem(props);
    var build := (uri: string, conf: map<string, string>) => Built(h);
    before := fs.NativeFileSystem("s3://bucket/key", map[], [], build);
    fs.Close();
    after := fs.NativeFileSystem("s3://bucket/key", map[], [], build);
  }

  /** The handle is built once: a second call returns the same handle
      without a second construction, whatever building would now give. */
  method BuiltAtMostOnce(props: map<string, string>, h1: Handle, h2: Handle)
    returns (first: Result<Handle, Exception>, second: Result<Handle, Exception>, constructions: nat)
    ensures first == Success(h1) && second == Success(h1)
    ensures constructions == 1
  {
    var fs := new S3FileSystem(props);
    first := fs.NativeFileSystem("s3://bucket/a", map[], [], (uri: string, conf: map<string, string>) => Built(h1));
    second := fs.NativeFileSystem("s3://bucket/b", map[], [], (uri: string, conf: map<string, string>) => Built(h2));
    constructions := fs.constructions;
  }

  /** A failed construction does not poison the filesystem: the next call
      builds again and succeeds. */
  method RetryAfterFailure(props: map<string, string>, cause: Exception, h: Handle)
    returns (first: Result<Handle, Exception>, second: Result<Handle, Exception>, constructions: nat)
    ensures first == Failure(ConstructionFailure(cause))
    ensures second == Success(h)
    ensures constructions == 2
  {
    var fs := new S3FileSystem(props);
    first := fs.NativeFileSystem("s3://bucket/a", map[], [], (uri: string, conf: map<string, string>) => Threw(cause));
    second := fs.NativeFileSystem("s3://bucket/a", map[], [], (uri: string, conf: map<string, string>) => Built(h));
    constructions := fs.constructions;
  }

  /** Two native listings build the handle once: the second lists through
      the handle the first one built. */
  method ListTwiceBuildsOnce(path: string, h: Handle, status: FileStatus)
    returns (first: Status, second: Status, files: seq<RemoteFile>, constructions: nat)
    ensures first == OK && second == OK
    ensures files == [ToRemoteFile(status, true), ToRemoteFile(status, true)]
    ensures constructions == 1
  {
    var fs := new S3FileSystem(map[]);
    var result := new RemoteFileList();
    var build := (uri: string, conf: map<string, string>) => Built(h);
    var glob := (handle: Handle, p: string) => Matches([status]);
    ToRemoteFilesSnoc([status], true);
    assert [status][..0] == [];
    first := fs.GlobListImplV1(path, result, true, map[], [], build, glob);
    second := fs.GlobListImplV1(path, result, true, map[], [], build, glob);
    files := result.files;
    constructions := fs.constructions;
  }
}
