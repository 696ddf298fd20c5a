# Apache Doris: storage connectors, result buffers and load writers, modelled in Dafny

This project models five pieces of Apache Doris and proves properties of them:

- **The S3 remote filesystem connector** (`RemoteFs`, `remote_fs.dfy`). It builds the native Hadoop
  filesystem handle lazily and at most once, and fails once closed. It does not memoise a
  failed construction. It lists wildcard paths either through the handle or, in assumed-role
  mode, through the object-storage client. Listing errors are folded into a
  `Status` of OK, NOT_FOUND or COMMON_ERROR. A MinIO error header gets special treatment.
- **Storage-vault statement analysis** (`Analysis`, `analysis.dfy`): `CREATE STORAGE VAULT`.
  Analysis looks up `type` case-insensitively, parses `path_version` and `shard_num`, parses
  `set_as_default`, rejects unknown types, and defaults `use_path_style` for S3 vaults.
- **The backend result-buffer registry** (`Runtime`, `result_buffer_mgr.dfy`). It holds a map
  from query-fragment id to result buffer and an ordered map from cancel time to ids. It
  supports duplicate-rejecting registration, lookup by buffer kind, cancel, scheduling, and
  one sweep of expired ids.
- **The delta writer's lifecycle and slave-replica bookkeeping** (`Olap`, `delta_writer.dfy`).
  This covers idempotent init and cancel, when write and close trigger init, and the unfinished
  and successful slave-node sets that decide "replicas done".
- **The string-masking Java UDF** of the regression suite (`Udf`, `string_udf.dfy`).

`wrappers.dfy` holds the `Option` (Java null, C++ nullptr) and `Result` (value or thrown
exception) datatypes.

Calls into code that is not part of this model become parameters of the operations that make
them. These are Hadoop `FileSystem.get` and `globStatus`, the object-storage listing, the
rowset-builder and memtable calls, the brpc stub lookup and RPC outcome,
`StorageVaultType.fromString`, `PrintableMap`, the vault-name check, and the clock. Each one
is an input: a function value, a status, or a record of what happened.

`ImmutableMap` properties are an ordered list of entries with distinct keys, in iteration
order. The C++ `std::map` of cancel times is a list of buckets with strictly increasing times,
and `ToMap` gives the map it stands for.

The storage-vault analysis follows the code as written, not what it evidently intends. After
parsing `path_version` and `shard_num`, `analyze` calls `properties.remove` on each key
(`CreateStorageVaultStmt.java:137-146`), so the keys were meant to be stripped from the stored
properties. But the constructor makes `properties` a Guava `ImmutableMap` (`:58`), and its
`remove` always throws `UnsupportedOperationException`. So a statement that carries
`path_version` or `shard_num` does not validate: the field is assigned, then the `remove`
throws before the type is set (`Analysis.PathVersionExample` shows this for the example
`{type: "S3", path_version: "1"}`).

## Model

| member | source | states |
|---|---|---|
| RemoteFs.ConstructionFailure | fe/fe-core/src/main/java/org/apache/doris/fs/remote/S3FileSystem.java:97-98 | a failed construction is rethrown as a user exception whose message is "Failed to get S3 FileSystem for " plus the cause's message, with the original exception as its cause |
| RemoteFs.ApplyEntriesKeys | fe/fe-core/src/main/java/org/apache/doris/fs/remote/S3FileSystem.java:77-82 | a key is in the Hadoop configuration exactly when the base configuration had it or some converted entry with that key has a non-null value |
| RemoteFs.ApplyEntriesValue | fe/fe-core/src/main/java/org/apache/doris/fs/remote/S3FileSystem.java:80-82 | the configuration holds the value of the last non-null converted entry for a key; a key with no such entry keeps its base value, so null keys and values are skipped |
| RemoteFs.LastSegment | fe/fe-core/src/main/java/org/apache/doris/fs/remote/S3FileSystem.java:117 | the file name is the suffix of the path after its last '/', contains no '/', and is the whole path when there is no '/' |
| RemoteFs.ToRemoteFile | fe/fe-core/src/main/java/org/apache/doris/fs/remote/S3FileSystem.java:116-119 | the name is the last path segment when only names are wanted, else the full path; isFile is the negation of isDirectory; size is -1 for a directory, else the length; block size and modification time are copied |
| RemoteFs.MinioDescription | fe/fe-core/src/main/java/org/apache/doris/fs/remote/S3FileSystem.java:130-140 | a MinIO description exists exactly when the exception's cause is an AmazonS3Exception whose non-null headers hold X-Minio-Error-Desc, and it is that header's value |
| RemoteFs.MapError | fe/fe-core/src/main/java/org/apache/doris/fs/remote/S3FileSystem.java:126-142 | every exception maps to an error status; NOT_FOUND ("file not found: " + message) exactly for a file-not-found; otherwise COMMON_ERROR, with "Minio request error: " + header value when the cause carries the MinIO header, else "errors while get file status " + message |
| RemoteFs.ClosedListingIsCommonError | fe/fe-core/src/main/java/org/apache/doris/fs/remote/S3FileSystem.java:68-69 | listing on a closed filesystem gives COMMON_ERROR "errors while get file status FileSystem is closed.", not NOT_FOUND |
| RemoteFs.UsesObjStorageListing | fe/fe-core/src/main/java/org/apache/doris/fs/remote/S3FileSystem.java:153-154 | the object-storage listing is chosen exactly when s3.role_arn or AWS_ROLE_ARN is present and non-empty |
| RemoteFs.NativeOutcome | fe/fe-core/src/main/java/org/apache/doris/fs/remote/S3FileSystem.java:66-104 | the closed error whenever closed, even with a handle built; else the memoised handle; else the built handle or the wrapped construction failure |
| RemoteFs.ListingOutcome | fe/fe-core/src/main/java/org/apache/doris/fs/remote/S3FileSystem.java:107-145 | OK exactly when the handle was obtained and globbing did not throw; records are appended only for matches, one per match; errors of either step are mapped by MapError |
| RemoteFs.ToRemoteFilesAt | fe/fe-core/src/main/java/org/apache/doris/fs/remote/S3FileSystem.java:115-121 | the listing produces one record per match, in match order, each built by ToRemoteFile |
| RemoteFs.ToRemoteFilesSnoc | fe/fe-core/src/main/java/org/apache/doris/fs/remote/S3FileSystem.java:115-121 | converting one more match appends exactly that match's record after the records of the earlier matches |
| RemoteFs.RemoteFileList.AddAll | fe/fe-core/src/main/java/org/apache/doris/fs/remote/S3FileSystem.java:115-121 | the listing loop appends the matches' records after the caller's existing entries, in match order |
| RemoteFs.S3FileSystem.constructor | fe/fe-core/src/main/java/org/apache/doris/fs/remote/S3FileSystem.java:50-63 | the filesystem takes the object storage's properties and starts open, with no handle, no authenticator and nothing registered |
| RemoteFs.S3FileSystem.Close | fe/fe-core/src/main/java/org/apache/doris/fs/remote/S3FileSystem.java:68 | closing sets the closed flag and leaves the handle, authenticator and registrations as they were |
| RemoteFs.S3FileSystem.GetAuthenticator | fe/fe-core/src/main/java/org/apache/doris/fs/remote/S3FileSystem.java:165-168 | an authenticator is present exactly when a handle has been built |
| RemoteFs.S3FileSystem.NativeFileSystem | fe/fe-core/src/main/java/org/apache/doris/fs/remote/S3FileSystem.java:66-104 | returns NativeOutcome; closed or already built: nothing changes and nothing is built; otherwise exactly one construction, from the filtered configuration; on success the handle and its simple authenticator are set together and the handle is registered once; on failure neither is set, so a later call retries |
| RemoteFs.S3FileSystem.GlobListImplV1 | fe/fe-core/src/main/java/org/apache/doris/fs/remote/S3FileSystem.java:107-145 | the status is that of ListingOutcome; the caller's list becomes its old contents followed by the new records, so no existing entry is removed and a null match array leaves it as it was; the handle, authenticator, registrations and construction count change exactly as NativeFileSystem changes them, so a listing after a built handle builds nothing |
| RemoteFs.S3FileSystem.GlobList | fe/fe-core/src/main/java/org/apache/doris/fs/remote/S3FileSystem.java:151-163 | with a role ARN set, the outcome is the object-storage listing's and the handle, authenticator, registrations and construction count are untouched; otherwise the outcome and the new handle state are exactly the native listing's |
| RemoteFs.ClosedAlwaysFails | fe/fe-core/src/main/java/org/apache/doris/fs/remote/S3FileSystem.java:68-76 | a handle obtained before closing does not help: after close the same call fails with the closed error |
| RemoteFs.BuiltAtMostOnce | fe/fe-core/src/main/java/org/apache/doris/fs/remote/S3FileSystem.java:71-76 | a second call returns the first handle, whatever a new construction would give, and only one construction happens |
| RemoteFs.RetryAfterFailure | fe/fe-core/src/main/java/org/apache/doris/fs/remote/S3FileSystem.java:87-99 | after a failed construction the next call constructs again and succeeds: two constructions, the first failing with the wrapped cause |
| RemoteFs.ListTwiceBuildsOnce | fe/fe-core/src/main/java/org/apache/doris/fs/remote/S3FileSystem.java:66-121 | two native listings of one match each both succeed, leave the two records in the caller's list, and build the handle once |
| Analysis.Get | fe/fe-core/src/main/java/org/apache/doris/analysis/CreateStorageVaultStmt.java:137 | a value is found exactly when an entry has the key, and it is that entry's value |
| Analysis.GetEntry | fe/fe-core/src/main/java/org/apache/doris/analysis/CreateStorageVaultStmt.java:137 | with distinct keys, looking up an entry's key gives that entry's value |
| Analysis.EqualsIgnoreCase | fe/fe-core/src/main/java/org/apache/doris/analysis/CreateStorageVaultStmt.java:126 | two strings are equal ignoring case exactly when they have the same length and agree character by character after case folding |
| Analysis.TypeValueIsLastMatch | fe/fe-core/src/main/java/org/apache/doris/analysis/CreateStorageVaultStmt.java:124-129 | the type is the value of the last entry, in iteration order, whose key matches "type" ignoring case; it is absent exactly when no key matches |
| Analysis.FindType | fe/fe-core/src/main/java/org/apache/doris/analysis/CreateStorageVaultStmt.java:124-129 | the entry loop ends with the type TypeValue describes, the last case-insensitive match |
| Analysis.ParseInt | fe/fe-core/src/main/java/org/apache/doris/analysis/CreateStorageVaultStmt.java:137-146 | Integer.parseInt succeeds exactly when the string without its one optional leading sign is a non-empty run of decimal digits whose signed value fits in an int, and then returns that signed value; every other string, the empty one included, throws a number-format error naming the input |
| Analysis.NatToDigitsValue | fe/fe-core/src/main/java/org/apache/doris/analysis/CreateStorageVaultStmt.java:139 | the decimal digits of a number are non-empty, all digits, and spell that number |
| Analysis.ParseIntOfToString | fe/fe-core/src/main/java/org/apache/doris/analysis/CreateStorageVaultStmt.java:137-146 | parsing reads back every int that Integer.toString writes |
| Analysis.ParseIntExamples | fe/fe-core/src/main/java/org/apache/doris/analysis/CreateStorageVaultStmt.java:137-146 | a plus sign and leading zeros are accepted ("+5" is 5, "-007" is -7); a trailing non-digit ("1a") and a lone sign ("-") throw |
| Analysis.ParseBoolean | fe/fe-core/src/main/java/org/apache/doris/analysis/CreateStorageVaultStmt.java:147 | true exactly for "true" in any case |
| Analysis.SetAsDefaultValue | fe/fe-core/src/main/java/org/apache/doris/analysis/CreateStorageVaultStmt.java:147 | set_as_default is true exactly when its value is "true" ignoring case, and false when the key is absent |
| Analysis.WithPathStyle | fe/fe-core/src/main/java/org/apache/doris/analysis/CreateStorageVaultStmt.java:150-156 | an S3 map without an exact use_path_style key gains use_path_style = "true" at the end; an existing value is kept; non-S3 maps are unchanged; no other key's value changes |
| Analysis.GetAppend | fe/fe-core/src/main/java/org/apache/doris/analysis/CreateStorageVaultStmt.java:152-155 | appending an entry leaves every existing key's value alone and adds the new key's value |
| Analysis.WithPathStyleDistinct | fe/fe-core/src/main/java/org/apache/doris/analysis/CreateStorageVaultStmt.java:152-155 | the map stays a map (no duplicate key) after the path-style default |
| Analysis.EnvironmentError | fe/fe-core/src/main/java/org/apache/doris/analysis/CreateStorageVaultStmt.java:100-117 | analysis gets past its first checks exactly in cloud mode, with storage vaults enabled or under unit test, with the ADMIN privilege and a valid name; outside cloud mode the error is "Storage Vault is only supported for cloud mode" |
| Analysis.AnalyzeEffect | fe/fe-core/src/main/java/org/apache/doris/analysis/CreateStorageVaultStmt.java:99-157 | environment errors come first, then "Storage Vault properties can't be null" for an empty map, "Missing property type" when no key matches type, "Property type cannot be empty" for an empty type value; an unknown type throws the unsupported-type error after setting the default flag and sets no type; a type is only ever set to a known type; an assigned path version or shard number is always followed by the remove exception |
| Analysis.AnalyzeSucceeds | fe/fe-core/src/main/java/org/apache/doris/analysis/CreateStorageVaultStmt.java:99-157 | analysis succeeds exactly when the environment allows it, the map is non-empty, the last type entry is non-empty and known, and neither path_version nor shard_num is present; it then sets the type, the default flag and the path-style default, and leaves both numeric options alone |
| Analysis.PathVersionAssignedThenRemoveThrows | fe/fe-core/src/main/java/org/apache/doris/analysis/CreateStorageVaultStmt.java:137-141 | a present path_version that parses is assigned, then the remove throws; one that does not parse throws a number-format error and assigns nothing |
| Analysis.ShardNumAssignedThenRemoveThrows | fe/fe-core/src/main/java/org/apache/doris/analysis/CreateStorageVaultStmt.java:142-146 | without path_version, a present shard_num that parses is assigned, then the remove throws; one that does not parse throws a number-format error and assigns nothing |
| Analysis.CreateStorageVaultStmt.constructor | fe/fe-core/src/main/java/org/apache/doris/analysis/CreateStorageVaultStmt.java:52-61 | the statement keeps the flag, name and property copy, with type UNKNOWN and both numeric options 0 |
| Analysis.CreateStorageVaultStmt.SetStorageVaultType | fe/fe-core/src/main/java/org/apache/doris/analysis/CreateStorageVaultStmt.java:91-96 | UNKNOWN is rejected with "Unsupported Storage Vault type: UNKNOWN" and the type kept; any other type is stored |
| Analysis.CreateStorageVaultStmt.Analyze | fe/fe-core/src/main/java/org/apache/doris/analysis/CreateStorageVaultStmt.java:99-157 | the exception and every field after the call are those AnalyzeEffect gives, and the properties stay a map |
| Analysis.CreateStorageVaultStmt.ToSql | fe/fe-core/src/main/java/org/apache/doris/analysis/CreateStorageVaultStmt.java:159-166 | the text starts with "CREATE STORAGE VAULT '" + name + "' PROPERTIES(", continues with the rendered properties and ends with ")" |
| Analysis.UpToQuoteOfQuoted | fe/fe-core/src/main/java/org/apache/doris/analysis/CreateStorageVaultStmt.java:163 | reading up to the closing quote recovers a name that holds no quote |
| Analysis.ToSqlNameRoundTrip | fe/fe-core/src/main/java/org/apache/doris/analysis/CreateStorageVaultStmt.java:159-166 | the vault name can be read back from the statement text whenever it holds no quote |
| Analysis.PathVersionExample | fe/fe-core/src/main/java/org/apache/doris/analysis/CreateStorageVaultStmt.java:137-141 | {type: "S3", path_version: "1"} fails with the remove exception after pathVersion is set to 1, with the type still UNKNOWN |
| Analysis.S3ExampleEffect | fe/fe-core/src/main/java/org/apache/doris/analysis/CreateStorageVaultStmt.java:124-156 | analysing {TYPE: "s3", set_as_default: "True"} throws nothing, sets the default flag and type S3, and appends use_path_style = "true" |
| Analysis.S3Example | fe/fe-core/src/main/java/org/apache/doris/analysis/CreateStorageVaultStmt.java:124-156 | {TYPE: "s3", set_as_default: "True"} validates as the default S3 vault and gains use_path_style = "true" |
| Runtime.TimesCons | be/src/runtime/result_buffer_mgr.cpp:145-156 | the times of a bucket list are its first bucket's time and the rest's times |
| Runtime.ToMapKeys | be/src/runtime/result_buffer_mgr.cpp:145-156 | the timeout map's keys are exactly the buckets' times |
| Runtime.AppendTimes | be/src/runtime/result_buffer_mgr.cpp:147-153 | scheduling adds the cancel time to the timeout map's keys and no other |
| Runtime.AppendSorted | be/src/runtime/result_buffer_mgr.cpp:145-156 | scheduling keeps the timeout map ordered by time |
| Runtime.AppendCorrect | be/src/runtime/result_buffer_mgr.cpp:145-156 | scheduling appends the id to the end of its time's bucket, which starts empty if new; every other bucket is unchanged and duplicates are kept |
| Runtime.UpperBound | be/src/runtime/result_buffer_mgr.cpp:167 | every bucket before the bound is due (time at most the limit) and every bucket from it on is later |
| Runtime.FlattenSnoc | be/src/runtime/result_buffer_mgr.cpp:169-173 | collecting one more bucket appends its ids in bucket order |
| Runtime.FlattenHolds | be/src/runtime/result_buffer_mgr.cpp:169-173 | an id is collected exactly when some collected bucket holds it |
| Runtime.ToMapAt | be/src/runtime/result_buffer_mgr.cpp:147 | each bucket's time maps to that bucket's ids |
| Runtime.SweepKeepsLater | be/src/runtime/result_buffer_mgr.cpp:167-175 | after erasing up to the bound, the timeout map is the old one restricted to times after the limit |
| Runtime.SweepCollectsDue | be/src/runtime/result_buffer_mgr.cpp:167-173 | an id is collected exactly when it is scheduled at a time at most the limit |
| Runtime.KindFor | be/src/runtime/result_buffer_mgr.cpp:86-92 | the buffer is Arrow Flight exactly when arrow_flight is set, else MySQL |
| Runtime.MaxTimeout | be/src/runtime/result_buffer_mgr.cpp:102 | the buffer's deadline is execution_timeout + 5 seconds after now |
| Runtime.ResultBufferMgr.constructor | be/src/runtime/result_buffer_mgr.cpp:46-61 | the registry starts with no buffer and no timeout |
| Runtime.ResultBufferMgr.CreateSender | be/src/runtime/result_buffer_mgr.cpp:70-107 | an id already registered gives InternalError and changes neither map; a fresh id is added with a buffer of the requested kind and size, and scheduled at now + execution_timeout + 5 |
| Runtime.ResultBufferMgr.FindControlBlock | be/src/runtime/result_buffer_mgr.cpp:109-120 | a buffer comes back exactly when the id is registered with a buffer of the requested kind, and it is that buffer |
| Runtime.ResultBufferMgr.FindBuffer | be/src/runtime/result_buffer_mgr.cpp:122-131 | OK with the buffer exactly when a buffer of the requested kind is registered; otherwise InternalError naming the id, and no buffer |
| Runtime.ResultBufferMgr.Cancel | be/src/runtime/result_buffer_mgr.cpp:133-143 | returns whether the id was registered; afterwards it is absent and every other entry is unchanged; an absent id changes nothing |
| Runtime.ResultBufferMgr.CancelAtTime | be/src/runtime/result_buffer_mgr.cpp:145-156 | the id is appended to its time's bucket, as AppendCorrect states, and the buffer map is unchanged |
| Runtime.ResultBufferMgr.CollectDue | be/src/runtime/result_buffer_mgr.cpp:169-173 | the collection loops gather the ids of the due buckets in deadline order, then bucket order, duplicates kept |
| Runtime.ResultBufferMgr.SweepOnce | be/src/runtime/result_buffer_mgr.cpp:161-182 | the ids collected are those of every bucket due at now + 1, in ascending time order then bucket order; exactly those buckets are erased; every collected id is cancelled, already-gone ones being no-ops |
| Olap.InitStatus | be/src/olap/delta_writer.cpp:111-118 | init succeeds exactly when the rowset-builder init and the memtable init both succeed, and otherwise returns the first failure |
| Olap.FixPartitionId | be/src/olap/delta_writer.cpp:264-273 | a rowset meta whose partition id is set and 0 gets the request's partition id; any other meta is sent as it is |
| Olap.AfterRequestsMembers | be/src/olap/delta_writer.cpp:185-194 | after requesting distinct replicas, a node is awaited exactly when its request went out and did not fail, or it was awaited before and no request for it failed |
| Olap.NumRowsFiltered | be/src/olap/delta_writer.cpp:362-365 | 0 when there is no rowset writer, else the writer's count |
| Olap.InsertIfAbsent | be/src/olap/delta_writer.cpp:196-210 | inserting into a protobuf map adds the key with the value when absent and keeps the existing value when present; other keys are unchanged |
| Olap.DeltaWriter.constructor | be/src/olap/delta_writer.cpp:63-75 | a new writer is neither initialised nor cancelled and awaits no replica |
| Olap.DeltaWriter.Init | be/src/olap/delta_writer.cpp:103-119 | an initialised writer returns OK without calling the sub-inits; otherwise it becomes initialised exactly when both sub-inits succeed, and the memtable writer is registered only then |
| Olap.DeltaWriter.Write | be/src/olap/delta_writer.cpp:121-139 | no rows: OK with no change; otherwise init runs only when neither initialised nor cancelled, a failed init is returned, and the memtable write follows |
| Olap.DeltaWriter.Close | be/src/olap/delta_writer.cpp:145-158 | init runs only when neither initialised nor cancelled, a failed init is returned, and the memtable close follows |
| Olap.DeltaWriter.CancelWithStatus | be/src/olap/delta_writer.cpp:216-228 | a cancelled writer returns OK and does nothing; otherwise it becomes cancelled exactly when the memtable cancel succeeds |
| Olap.DeltaWriter.Cancel | be/src/olap/delta_writer.cpp:212-214 | cancel is cancel_with_status with the reason "already cancelled" |
| Olap.DeltaWriter.RequestSlaveTabletPullRowset | be/src/olap/delta_writer.cpp:234-350 | no stub: nothing is sent and the unfinished set is unchanged; otherwise the fixed rowset meta is sent and the node is added, and erased again exactly when the RPC failed |
| Olap.DeltaWriter.CommitTxn | be/src/olap/delta_writer.cpp:185-194 | a failed commit is returned before any request; otherwise every slave node is requested in turn |
| Olap.DeltaWriter.FinishSlaveTabletPullRowset | be/src/olap/delta_writer.cpp:352-360 | the node is no longer awaited and is appended to the success ids exactly when it succeeded |
| Olap.DeltaWriter.CheckSlaveReplicasDone | be/src/olap/delta_writer.cpp:196-204 | done exactly when no replica is awaited, and only then is tablet_id to success ids inserted |
| Olap.DeltaWriter.AddFinishedSlaveReplicas | be/src/olap/delta_writer.cpp:206-210 | tablet_id to success ids is inserted unless the map already has the tablet |
| Udf.Repeat | regression-test/java-udf-src/src/main/java/org/apache/doris/udf/StringTest.java:28 | repeating a character a non-positive number of times gives the empty string; otherwise n copies of it |
| Udf.Evaluate | regression-test/java-udf-src/src/main/java/org/apache/doris/udf/StringTest.java:24-29 | a null argument gives null; otherwise the call succeeds exactly when 0 <= a <= len and 0 <= b <= len, and throws otherwise |
| Udf.MaskKeepsEnds | regression-test/java-udf-src/src/main/java/org/apache/doris/udf/StringTest.java:28 | the result starts with the first a characters and ends with the last b characters of the field |
| Udf.MaskWithoutOverlap | regression-test/java-udf-src/src/main/java/org/apache/doris/udf/StringTest.java:28 | when a + b <= len the result has the field's length, equals the position-by-position mask, and holds '*' at each middle position |
| Udf.MaskWithOverlap | regression-test/java-udf-src/src/main/java/org/apache/doris/udf/StringTest.java:28 | when a + b > len (both in range) no star is inserted: the result is the prefix then the suffix, a + b characters long |

## Left out

- Locks and threads are not modelled: the `synchronized` double check in `nativeFileSystem`, the shared and exclusive locks of the result-buffer registry and the delta writer, the `cancel_thread` loop with its one-second latch wait, and `Thread::create`. Each operation is modelled as one sequential step, and the sweep as one pass of the loop.
- The delta writer's wait for the memtable flush count to drop below its limit (be/src/olap/delta_writer.cpp:131-137) is left out. It only sleeps until other threads have flushed.
- The clock (`time(nullptr)`) and `execution_timeout` are parameters. The 64-bit sum of the deadline is not checked for overflow.
- Hadoop `FileSystem.get` and `globStatus`, `HadoopAuthenticator.doAs`, `PropertyConverter`, `DFSFileSystem.getHdfsConf` (the base configuration) and `S3ObjStorage` (the object storage's properties and the V2 listing) are not part of this model. Their results are parameters.
- `System.setProperty("com.amazonaws.services.s3.enableV4", "true")` and logging are left out.
- RemoteFs.S3FileSystem.Close: only the closed flag of the base class is modelled. Whatever else the base class's close releases is not part of this model.
- `RemoteFSPhantomManager` is modelled as a log of registered handles. Its reclamation of unreachable filesystems is not modelled.
- `S3Properties.ROLE_ARN` and `S3Properties.Env.ROLE_ARN` are taken as "s3.role_arn" and "AWS_ROLE_ARN". The properties class is not part of this model.
- `Status.OK`'s message is not modelled. A `Status` is OK, or an error code with a message.
- The cloud-mode, vault-enable and ADMIN privilege checks and `FeNameFormat.checkStorageVaultName` are environment inputs. The access-denied message formatting of `ErrorReport` is not part of this model. `super.analyze` (`DdlStmt.analyze`) is not modelled.
- `StorageVaultType.fromString` is a parameter. Its mapping of names to types is not part of this model.
- `PrintableMap` is a parameter of `toSql`. Only the framing of the statement text is modelled.
- `UserException` and `AnalysisException` are modelled by their detail message. Any prefix their `getMessage` adds is not part of this model.
- Analysis.ParseInt: only ASCII decimal digits are accepted. Java's `Character.digit` also accepts other Unicode decimal digits, which the model rejects.
- Analysis.EqualsIgnoreCase: only ASCII letters are case-folded. This is exact for the comparisons the statement makes, against "type" and "true".
- The getters of `CreateStorageVaultStmt` and `needAuditEncryption` are plain field reads or constants, read directly from the class.
- Udf.Evaluate: Java strings are UTF-16 code-unit sequences; the model uses sequences of `char`. `StringUtils.repeat` running out of memory is not modelled.
- The per-buffer `cancel(reason)` that `ResultBufferMgr::cancel` calls is not part of this model; only its removal from the registry is.
- `find_buffer`'s two instantiations (Arrow Flight and MySQL) are modelled by a buffer-kind argument. A buffer of the other kind gives null, like the `dynamic_pointer_cast`.
- The delta writer's brpc stub cache and closure handling, segment and inverted-index file sizes, the request's host, port and token fields, `add_txn_tablet_delta_writer`, profile timers and `build_rowset` are I/O or RPC plumbing. The RPC's outcome and the stub lookup are inputs.
- The memtable writer and rowset builder are modelled only by the statuses their calls return. The model keeps a log of the calls made.
- `ResultBufferMgr::init` (starting the thread) and the buffers' own behaviour are not modelled.
