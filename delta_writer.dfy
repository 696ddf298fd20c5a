/** The lifecycle flags of a tablet's `DeltaWriter` during a load, and its
    bookkeeping of the slave replicas asked to pull the finished rowset. */
module Olap {
  import opened Wrappers

  /** The part of `doris::Status` the writer passes on. */
  datatype Status = OK | Error(msg: string)

  /** The status `cancel()` hands to `cancel_with_status`. */
  const ALREADY_CANCELLED := Error("already cancelled")

  /** The calls the writer makes into its memtable writer, its rowset
      builder and the memtable memory limiter, in the order made. */
  datatype Call =
    | RowsetBuilderInit
    | MemTableInit
    | RegisterWriter
    | MemTableWrite(rows: nat)
    | MemTableClose
    | MemTableCancel(reason: Status)

  /** What `init` calls when it runs: the rowset builder's init; the
      memtable writer's init only when that succeeded; the registration with
      the memory limiter only when both succeeded. */
  function InitCalls(rowsetBuilderInit: Status, memtableInit: Status): seq<Call>
  {
    [RowsetBuilderInit]
    + (if rowsetBuilderInit == OK then [MemTableInit] else [])
    + (if rowsetBuilderInit == OK && memtableInit == OK then [RegisterWriter] else [])
  }

  /** The status `init` returns when it runs: the first failure, else OK. */
  function InitStatus(rowsetBuilderInit: Status, memtableInit: Status): (st: Status)
    ensures st == OK <==> rowsetBuilderInit == OK && memtableInit == OK
    ensures rowsetBuilderInit != OK ==> st == rowsetBuilderInit
    ensures rowsetBuilderInit == OK ==> st == memtableInit
  {
    if rowsetBuilderInit != OK then rowsetBuilderInit else memtableInit
  }

  /** The fields of the rowset meta protobuf that the slave request patches. */
  datatype RowsetMetaPb = RowsetMetaPb(hasPartitionId: bool, partitionId: int, numSegments: nat)

  /** The partition-id fix in `_request_slave_tablet_pull_rowset`: a present
      partition id of 0 is replaced by the load request's partition id;
      anything else is sent as it is. */
  function FixPartitionId(meta: RowsetMetaPb, reqPartitionId: int): (r: RowsetMetaPb)
    ensures r.hasPartitionId == meta.hasPartitionId && r.numSegments == meta.numSegments
    ensures meta.hasPartitionId && meta.partitionId == 0 ==> r.partitionId == reqPartitionId
    ensures !(meta.hasPartitionId && meta.partitionId == 0) ==> r == meta
    ensures r.hasPartitionId && r.partitionId == 0 ==> reqPartitionId == 0
  {
    if meta.hasPartitionId && meta.partitionId == 0 then meta.(partitionId := reqPartitionId) else meta
  }

  /** A slave replica named in `commit_txn`, with what happened when the
      writer asked it to pull the rowset: whether an RPC stub could be had,
      and whether the RPC then failed. */
  datatype SlaveNode = SlaveNode(id: int, stubAvailable: bool, rpcFailed: bool)

  /** The effect of one `_request_slave_tablet_pull_rowset` on the set of
      unfinished slave nodes: no stub, no change; otherwise the node is
      added, and erased again when the RPC failed. */
  function RequestEffect(unfinished: set<int>, node: SlaveNode): set<int>
  {
    if !node.stubAvailable then unfinished
    else if node.rpcFailed then (unfinished + {node.id}) - {node.id}
    else unfinished + {node.id}
  }

  /** The unfinished set after requesting each node of `nodes` in turn. */
  function AfterRequests(unfinished: set<int>, nodes: seq<SlaveNode>): set<int>
  {
    if nodes == [] then unfinished
    else RequestEffect(AfterRequests(unfinished, nodes[..|nodes| - 1]), nodes[|nodes| - 1])
  }

  /** Node ids named by a `PSlaveTabletNodes` are those of distinct replicas. */
  ghost predicate DistinctIds(nodes: seq<SlaveNode>)
  {
    forall i, j :: 0 <= i < j < |nodes| ==> nodes[i].id != nodes[j].id
  }

  /** After `commit_txn` has requested distinct replicas, a node is still
      awaited exactly when its request went out and did not fail, or it was
      awaited before and was not among the requests that failed. */
  lemma {:induction false} AfterRequestsMembers(unfinished: set<int>, nodes: seq<SlaveNode>, x: int)
    requires DistinctIds(nodes)
    ensures x in AfterRequests(unfinished, nodes) <==>
              (exists i :: 0 <= i < |nodes| && nodes[i].id == x && nodes[i].stubAvailable && !nodes[i].rpcFailed)
              || (x in unfinished &&
                  forall i :: 0 <= i < |nodes| && nodes[i].id == x ==> !(nodes[i].stubAvailable && nodes[i].rpcFailed))
  {
    if nodes != [] {
      var init, last := nodes[..|nodes| - 1], nodes[|nodes| - 1];
      assert DistinctIds(init);
      AfterRequestsMembers(unfinished, init, x);
      assert forall i :: 0 <= i < |init| ==> init[i] == nodes[i];
      if last.id == x {
        assert forall i :: 0 <= i < |init| ==> init[i].id != x;
      }
    }
  }

  /** `num_rows_filtered`: the rowset writer's count, or 0 when there is no
      rowset writer yet. */
  function NumRowsFiltered(rowsetWriterFiltered: Option<int>): (n: int)
    ensures rowsetWriterFiltered.None? ==> n == 0
    ensures rowsetWriterFiltered.Some? ==> n == rowsetWriterFiltered.value
  {
    if rowsetWriterFiltered.None? then 0 else rowsetWriterFiltered.value
  }

  /** protobuf `Map::insert`: adds the pair only when the key is absent. */
  function InsertIfAbsent(m: map<int, seq<int>>, k: int, v: seq<int>): (r: map<int, seq<int>>)
    ensures k in r && r.Keys == m.Keys + {k}
    ensures r[k] == if k in m then m[k] else v
    ensures forall j :: j in m && j != k ==> r[j] == m[j]
  {
    if k in m then m else m[k := v]
  }

  class DeltaWriter {
    /** `_req.tablet_id` and `_req.partition_id`. */
    const tabletId: int
    const partitionId: int
    var isInit: bool
    var isCancelled: bool
    /** `_unfinished_slave_node`: replicas asked to pull and not yet answered. */
    var unfinishedSlaveNode: set<int>
    /** `_success_slave_node_ids`: replicas that reported success, in order. */
    var successSlaveNodeIds: seq<int>
    /** The calls made into the collaborators so far. */
    var calls: seq<Call>

    constructor (tabletId: int, partitionId: int)
      ensures this.tabletId == tabletId && this.partitionId == partitionId
      ensures !isInit && !isCancelled
      ensures unfinishedSlaveNode == {} && successSlaveNodeIds == [] && calls == []
    {
      this.tabletId, this.partitionId := tabletId, partitionId;
      isInit, isCancelled := false, false;
      unfinishedSlaveNode, successSlaveNodeIds, calls := {}, [], [];
    }

    /** `init`: a no-op on an initialised writer; otherwise initialise the
        rowset builder, then the memtable writer, and only when both succeed
        register with the memory limiter and become initialised. */
    method Init(rowsetBuilderInit: Status, memtableInit: Status) returns (st: Status)
      modifies this
      ensures old(isInit) ==> st == OK && calls == old(calls)
      ensures !old(isInit) ==>
                && st == InitStatus(rowsetBuilderInit, memtableInit)
                && calls == old(calls) + InitCalls(rowsetBuilderInit, memtableInit)
      ensures isInit == (old(isInit) || st == OK)
      ensures isCancelled == old(isCancelled)
      ensures unfinishedSlaveNode == old(unfinishedSlaveNode) && successSlaveNodeIds == old(successSlaveNodeIds)
    {
      if isInit {
        return OK;
      }
      calls := calls + [RowsetBuilderInit];
      if rowsetBuilderInit != OK {
        return rowsetBuilderInit;
      }
      calls := calls + [MemTableInit];
      if memtableInit != OK {
        return memtableInit;
      }
      calls := calls + [RegisterWriter];
      isInit := true;
      st := OK;
    }

    /** `write`: an empty row selection is an OK no-op; otherwise a writer
        that is neither initialised nor cancelled is initialised first, and
        the rows go to the memtable writer unless that init failed. */
    method Write(rows: nat, rowsetBuilderInit: Status, memtableInit: Status, memtableWrite: Status)
      returns (st: Status)
      modifies this
      ensures rows == 0 ==>
                && st == OK && calls == old(calls)
                && isInit == old(isInit) && isCancelled == old(isCancelled)
      ensures rows > 0 && (old(isInit) || old(isCancelled)) ==>
                && st == memtableWrite && calls == old(calls) + [MemTableWrite(rows)]
                && isInit == old(isInit)
      ensures rows > 0 && !old(isInit) && !old(isCancelled) ==>
                var init := InitStatus(rowsetBuilderInit, memtableInit);
                && st == (if init == OK then memtableWrite else init)
                && calls == old(calls) + InitCalls(rowsetBuilderInit, memtableInit)
                     + (if init == OK then [MemTableWrite(rows)] else [])
                && isInit == (init == OK)
      ensures isCancelled == old(isCancelled)
      ensures unfinishedSlaveNode == old(unfinishedSlaveNode) && successSlaveNodeIds == old(successSlaveNodeIds)
    {
      if rows == 0 {
        return OK;
      }
      if !isInit && !isCancelled {
        st := Init(rowsetBuilderInit, memtableInit);
        if st != OK {
          return;
        }
      }
      calls := calls + [MemTableWrite(rows)];
      st := memtableWrite;
    }

    /** `close`: a writer that is neither initialised nor cancelled is
        initialised first (so that an empty rowset can be built for it), then
        the memtable writer is closed unless that init failed. */
    method Close(rowsetBuilderInit: Status, memtableInit: Status, memtableClose: Status)
      returns (st: Status)
      modifies this
      ensures old(isInit) || old(isCancelled) ==>
                && st == memtableClose && calls == old(calls) + [MemTableClose]
                && isInit == old(isInit)
      ensures !old(isInit) && !old(isCancelled) ==>
                var init := InitStatus(rowsetBuilderInit, memtableInit);
                && st == (if init == OK then memtableClose else init)
                && calls == old(calls) + InitCalls(rowsetBuilderInit, memtableInit)
                     + (if init == OK then [MemTableClose] else [])
                && isInit == (init == OK)
      ensures isCancelled == old(isCancelled)
      ensures unfinishedSlaveNode == old(unfinishedSlaveNode) && successSlaveNodeIds == old(successSlaveNodeIds)
    {
      if !isInit && !isCancelled {
        st := Init(rowsetBuilderInit, memtableInit);
        if st != OK {
          return;
        }
      }
      calls := calls + [MemTableClose];
      st := memtableClose;
    }

    /** `cancel_with_status`: an OK no-op on a cancelled writer; otherwise
        cancel the memtable writer and become cancelled only if that
        succeeded, passing its failure on. */
    method CancelWithStatus(reason: Status, memtableCancel: Status) returns (st: Status)
      modifies this
      ensures old(isCancelled) ==> st == OK && calls == old(calls) && isCancelled
      ensures !old(isCancelled) ==>
                && st == memtableCancel
                && calls == old(calls) + [MemTableCancel(reason)]
                && isCancelled == (memtableCancel == OK)
      ensures isInit == old(isInit)
      ensures unfinishedSlaveNode == old(unfinishedSlaveNode) && successSlaveNodeIds == old(successSlaveNodeIds)
    {
      if isCancelled {
        return OK;
      }
      calls := calls + [MemTableCancel(reason)];
      if memtableCancel != OK {
        return memtableCancel;
      }
      isCancelled := true;
      st := OK;
    }

    /** `cancel`: `cancel_with_status` with the status "already cancelled". */
    method Cancel(memtableCancel: Status) returns (st: Status)
      modifies this
      ensures old(isCancelled) ==> st == OK && calls == old(calls) && isCancelled
      ensures !old(isCancelled) ==>
                && st == memtableCancel
                && calls == old(calls) + [MemTableCancel(ALREADY_CANCELLED)]
                && isCancelled == (memtableCancel == OK)
      ensures isInit == old(isInit)
      ensures unfinishedSlaveNode == old(unfinishedSlaveNode) && successSlaveNodeIds == old(successSlaveNodeIds)
    {
      st := CancelWithStatus(ALREADY_CANCELLED, memtableCancel);
    }

    /** `_request_slave_tablet_pull_rowset`, its bookkeeping part: with no
        RPC stub nothing is sent and nothing recorded; otherwise the node is
        recorded as unfinished, the rowset meta is sent with its partition id
        fixed, and the node is forgotten again when the RPC failed. */
    method RequestSlaveTabletPullRowset(node: SlaveNode, meta: RowsetMetaPb) returns (sent: Option<RowsetMetaPb>)
      modifies this
      ensures !node.stubAvailable ==> sent == None
      ensures node.stubAvailable ==> sent == Some(FixPartitionId(meta, partitionId))
      ensures unfinishedSlaveNode == RequestEffect(old(unfinishedSlaveNode), node)
      ensures node.stubAvailable && !node.rpcFailed ==> node.id in unfinishedSlaveNode
      ensures node.stubAvailable && node.rpcFailed ==> node.id !in unfinishedSlaveNode
      ensures successSlaveNodeIds == old(successSlaveNodeIds) && calls == old(calls)
      ensures isInit == old(isInit) && isCancelled == old(isCancelled)
    {
      if !node.stubAvailable {
        return None;
      }
      unfinishedSlaveNode := unfinishedSlaveNode + {node.id};
      var request := FixPartitionId(meta, partitionId);
      if node.rpcFailed {
        unfinishedSlaveNode := unfinishedSlaveNode - {node.id};
      }
      sent := Some(request);
    }

    /** `commit_txn`: commit through the rowset builder, then ask each slave
        replica in turn to pull the rowset. */
    method CommitTxn(commit: Status, nodes: seq<SlaveNode>, meta: RowsetMetaPb) returns (st: Status)
      modifies this
      ensures st == commit
      ensures commit != OK ==> unfinishedSlaveNode == old(unfinishedSlaveNode)
      ensures commit == OK ==> unfinishedSlaveNode == AfterRequests(old(unfinishedSlaveNode), nodes)
      ensures successSlaveNodeIds == old(successSlaveNodeIds) && calls == old(calls)
      ensures isInit == old(isInit) && isCancelled == old(isCancelled)
    {
      if commit != OK {
        return commit;
      }
      var i := 0;
      while i < |nodes|
        invariant 0 <= i <= |nodes|
        invariant unfinishedSlaveNode == AfterRequests(old(unfinishedSlaveNode), nodes[..i])
        invariant successSlaveNodeIds == old(successSlaveNodeIds) && calls == old(calls)
        invariant isInit == old(isInit) && isCancelled == old(isCancelled)
      {
        var _ := RequestSlaveTabletPullRowset(nodes[i], meta);
        assert nodes[..i + 1][..i] == nodes[..i];
        i := i + 1;
      }
      assert nodes[..i] == nodes;
      st := OK;
    }

    /** `finish_slave_tablet_pull_rowset`: the replica answered; it is no
        longer awaited, and it is recorded as a success iff it succeeded. */
    method FinishSlaveTabletPullRowset(nodeId: int, isSucceed: bool)
      modifies this
      ensures unfinishedSlaveNode == old(unfinishedSlaveNode) - {nodeId}
      ensures successSlaveNodeIds == old(successSlaveNodeIds) + (if isSucceed then [nodeId] else [])
      ensures calls == old(calls) && isInit == old(isInit) && isCancelled == old(isCancelled)
    {
      if isSucceed {
        successSlaveNodeIds := successSlaveNodeIds + [nodeId];
      }
      unfinishedSlaveNode := unfinishedSlaveNode - {nodeId};
    }

    /** `check_slave_replicas_done`: done exactly when no replica is awaited,
        and only then is this tablet's list of successful replicas entered
        into the caller's map (protobuf `insert`, which keeps an existing
        entry). */
    method CheckSlaveReplicasDone(successIds: map<int, seq<int>>) returns (done: bool, result: map<int, seq<int>>)
      ensures done <==> unfinishedSlaveNode == {}
      ensures done ==> result == InsertIfAbsent(successIds, tabletId, successSlaveNodeIds)
      ensures !done ==> result == successIds
    {
      if unfinishedSlaveNode == {} {
        return true, InsertIfAbsent(successIds, tabletId, successSlaveNodeIds);
      }
      return false, successIds;
    }

    /** `add_finished_slave_replicas`: enter this tablet's list of successful
        replicas into the caller's map whether or not replicas are awaited. */
    method AddFinishedSlaveReplicas(successIds: map<int, seq<int>>) returns (result: map<int, seq<int>>)
      ensures tabletId in result && result.Keys == successIds.Keys + {tabletId}
      ensures tabletId !in successIds ==> result[tabletId] == successSlaveNodeIds
      ensures tabletId in successIds ==> result == successIds
    {
      result := InsertIfAbsent(successIds, tabletId, successSlaveNodeIds);
    }
  }
}
