/** The executor as it runs: records changed through a pointer and saved, proved against the functions
    of the profit-sharing model. */
module Executor {
  import opened Wrappers
  import opened Commission
  import opened ProfitSharing

  /** A record in memory, changed through a pointer. */
  class RecordRef {
    const base: Record
    var wxOrderId: string
    var status: LocalStatus
    var failReason: string
    var returnNo: string

    constructor (ps: Record)
      ensures Value() == ps
    {
      base := ps;
      wxOrderId, status, failReason, returnNo := ps.wxOrderId, ps.status, ps.failReason, ps.returnNo;
    }

    function Value(): Record
      reads this
    {
      base.(wxOrderId := wxOrderId, status := status, failReason := failReason, returnNo := returnNo)
    }
  }

  // ----- one pass over a snapshot -----

  /** The records a sync pass lists, oldest first. */
  predicate IsSnapshot(w: World, rows: seq<Record>) {
    && (forall k :: 0 <= k < |rows| ==> rows[k].orderNo in w.local && w.local[rows[k].orderNo] == rows[k])
    && (forall j, k :: 0 <= j < k < |rows| ==> rows[j].orderNo != rows[k].orderNo)
  }

  /** What the pass meets at each record. */
  datatype SyncIn = SyncIn(launch: LaunchIn, query: QueryIn, resave: Write)

  function SyncStep(row: Record, i: SyncIn): Step {
    DoSync(row.orderNo, i.launch, i.query, i.resave)
  }

  function SyncSteps(rows: seq<Record>, meets: nat -> SyncIn, n: nat): (steps: seq<Step>)
    requires n <= |rows|
    ensures |steps| == n
  {
    if n == 0 then [] else SyncSteps(rows, meets, n - 1) + [SyncStep(rows[n - 1], meets(n - 1))]
  }

  lemma SyncAdvances(w: World, rows: seq<Record>, meets: nat -> SyncIn, n: nat)
    requires n < |rows|
    ensures Run(w, SyncSteps(rows, meets, n + 1)) == Next(Run(w, SyncSteps(rows, meets, n)), SyncStep(rows[n], meets(n)))
  {
    var steps := SyncSteps(rows, meets, n + 1);
    assert steps[..n] == SyncSteps(rows, meets, n);
  }

  lemma SyncTouchesOwnRow(w: World, orderNo: string, i: SyncIn, o: string)
    requires o != orderNo && (orderNo in w.local ==> w.local[orderNo].orderNo == orderNo)
    ensures SameRow(w, SyncOne(w, orderNo, i.launch, i.query, i.resave), o)
  {
    if orderNo in w.local {
      LaunchOrNoteTouchesOwnRow(w, w.local[orderNo], i.launch, i.resave, o);
      QueryTouchesOwnRow(w, w.local[orderNo], i.query, o);
    }
  }

  /** The pass works on records read beforehand, yet each is still current when its turn comes. */
  lemma {:induction false} SnapshotStaysCurrent(w: World, rows: seq<Record>, meets: nat -> SyncIn, n: nat, k: nat)
    requires IsSnapshot(w, rows) && n <= k < |rows|
    ensures
      var later := Run(w, SyncSteps(rows, meets, n));
      rows[k].orderNo in later.local && later.local[rows[k].orderNo] == rows[k]
  {
    hide SyncOne;
    if n == 0 {
      assert Run(w, SyncSteps(rows, meets, 0)) == w;
    } else {
      hide Run, SyncSteps;
      SnapshotStaysCurrent(w, rows, meets, n - 1, k);
      SnapshotStaysCurrent(w, rows, meets, n - 1, n - 1);
      SyncAdvances(w, rows, meets, n - 1);
      var before := Run(w, SyncSteps(rows, meets, n - 1));
      SyncTouchesOwnRow(before, rows[n - 1].orderNo, meets(n - 1), rows[k].orderNo);
    }
  }

  // ----- the executor -----

  /** Local rows and the remote service together; every call is a transition of this world. */
  class PSExecutor {
    var world: World

    constructor ()
      ensures world == Start
    {
      world := Start;
    }

    method Store(ps: RecordRef, write: Write) returns (failed: bool)
      modifies this
      ensures world == Save(old(world), ps.Value(), write)
      ensures failed <==> !write.Stored?
    {
      if !write.NotStored? {
        world := world.(local := world.local[ps.base.orderNo := ps.Value()]);
      }
      failed := !write.Stored?;
    }

    method Launch(ps: RecordRef, i: LaunchIn) returns (failed: bool)
      modifies this, ps
      ensures Outcome(world, ps.Value(), failed) == ProfitSharing.Launch(old(world), old(ps.Value()), i)
    {
      if !i.ready {
        return true;
      }
      var no := ps.base.outOrderNo;
      if !i.net.RequestLost? {
        world := world.(remote := OpenShare(world.remote, no, ps.base.commissionCent, i.orderId, i.state));
      }
      if !i.net.Answered? {
        return true;
      }
      var share := world.remote.shares[no];
      ps.wxOrderId := share.orderId;
      if share.state.Finished? {
        if share.state.success {
          ps.status, ps.failReason := Succeeded, "";
        } else {
          ps.status, ps.failReason := Failed, "closed";
        }
      } else {
        ps.status, ps.failReason := Processing, "";
      }
      failed := Store(ps, i.save);
    }

    method QueryAndUpdate(ps: RecordRef, q: QueryIn)
      modifies this, ps
      ensures Outcome(world, ps.Value(), false) == ProfitSharing.QueryAndUpdate(old(world), old(ps.Value()), q)
    {
      var no := ps.base.outOrderNo;
      if !q.ready || !q.net.Answered? || no !in world.remote.shares {
        return;
      }
      var share := world.remote.shares[no];
      if share.state.Finished? && share.state.success {
        ps.status, ps.failReason, ps.wxOrderId := Succeeded, "", share.orderId;
      } else if share.state.Finished? {
        ps.status, ps.failReason, ps.wxOrderId := Failed, "closed", share.orderId;
      } else {
        return;
      }
      var ignored := Store(ps, q.save);
    }

    /** Submitting an order twice changes nothing the second time. */
    method Submit(inp: Input, cfg: Option<Config>, create: Write, i: LaunchIn, resave: Write) returns (accepted: bool)
      modifies this
      ensures world == ProfitSharing.Submit(old(world), inp, cfg, create, i, resave)
      ensures accepted ==> inp.orderNo in world.local
      ensures inp.orderNo in old(world).local ==> world == old(world)
    {
      if !ValidInput(inp) {
        return false;
      }
      if inp.orderNo in world.local {
        return true;
      }
      if cfg.None? {
        return false;
      }
      var commission := Calc(inp.paidCent, cfg.value);
      if commission <= 0 {
        return false;
      }
      var ps := new RecordRef(NewRecord(inp, cfg.value));
      var failed := Store(ps, create);
      if failed {
        return false;
      }
      failed := Launch(ps, i);
      if failed {
        ps.status, ps.failReason := Pending, "launch";
        failed := Store(ps, resave);
      }
      accepted := true;
    }

    method LaunchOrNote(ps: RecordRef, i: LaunchIn, resave: Write) returns (failed: bool)
      modifies this, ps
      ensures world == ProfitSharing.LaunchOrNote(old(world), old(ps.Value()), i, resave)
      ensures failed == ProfitSharing.Launch(old(world), old(ps.Value()), i).failed
    {
      failed := Launch(ps, i);
      if failed {
        ps.failReason := "launch";
        var ignored := Store(ps, resave);
      }
    }

    method Retry(orderNo: string, i: LaunchIn, resave: Write) returns (failed: bool)
      modifies this
      ensures world == ProfitSharing.Retry(old(world), orderNo, i, resave)
      ensures !failed ==> orderNo in old(world).local
      ensures !failed ==> !old(world).local[orderNo].status.Succeeded? && !old(world).local[orderNo].status.Refunded?
    {
      if orderNo !in world.local {
        return true;
      }
      var ps := new RecordRef(world.local[orderNo]);
      if ps.status.Succeeded? || ps.status.Refunded? {
        return true;
      }
      failed := LaunchOrNote(ps, i, resave);
    }

    method SyncRecord(row: Record, i: SyncIn)
      requires row.orderNo in world.local && world.local[row.orderNo] == row
      modifies this
      ensures world == SyncOne(old(world), row.orderNo, i.launch, i.query, i.resave)
    {
      hide ProfitSharing.LaunchOrNote, ProfitSharing.QueryAndUpdate;
      var ps := new RecordRef(row);
      match ps.status
      case Pending =>
        var ignored := LaunchOrNote(ps, i.launch, i.resave);
      case Failed =>
        var ignored := LaunchOrNote(ps, i.launch, i.resave);
      case Processing =>
        QueryAndUpdate(ps, i.query);
      case _ =>
    }

    /** One pass over the listed records is a run of single syncs. */
    method Sync(rows: seq<Record>, meets: nat -> SyncIn)
      requires IsSnapshot(world, rows)
      modifies this
      ensures world == Run(old(world), SyncSteps(rows, meets, |rows|))
    {
      assert Run(world, SyncSteps(rows, meets, 0)) == world;
      hide Run, SyncSteps, SyncOne;
      for k := 0 to |rows|
        invariant world == Run(old(world), SyncSteps(rows, meets, k))
      {
        SnapshotStaysCurrent(old(world), rows, meets, k, k);
        SyncAdvances(old(world), rows, meets, k);
        SyncRecord(rows[k], meets(k));
      }
    }

    method SendReturn(ps: RecordRef, i: RefundIn) returns (returned: bool, failed: bool)
      modifies this, ps
      ensures RefundOut(world, returned, failed) == ProfitSharing.SendReturn(old(world), old(ps.Value()), i)
    {
      if !i.ready {
        return true, true;
      }
      var no := OutReturnNo(ps.base.orderNo);
      if !i.net.RequestLost? {
        world := world.(remote := OpenReturn(world.remote, ps.base.outOrderNo, no, ps.base.commissionCent, i.state));
      }
      if !i.net.Answered? || no !in world.remote.returned {
        return true, true;
      }
      match world.remote.returned[no].state
      case ReturnSucceeded =>
        ps.status, ps.returnNo := Refunded, no;
        var ignored := Store(ps, i.save);
        return true, false;
      case ReturnFailed(reason) =>
        ps.failReason := reason;
        var ignored := Store(ps, i.save);
        return true, true;
      case ReturnInProgress =>
        return true, true;
    }

    method ReturnForRefund(orderNo: string, i: RefundIn) returns (returned: bool, failed: bool)
      modifies this
      ensures RefundOut(world, returned, failed) == ProfitSharing.ReturnForRefund(old(world), orderNo, i)
    {
      if orderNo !in world.local {
        return false, false;
      }
      var ps := new RecordRef(world.local[orderNo]);
      if ps.status.Refunded? {
        return true, false;
      }
      if !ps.status.Succeeded? {
        QueryAndUpdate(ps, i.query);
        if !ps.status.Succeeded? {
          if !ps.status.Failed? && !ps.status.Processing? {
            ps.status, ps.failReason := Failed, "refunded";
            var ignored := Store(ps, i.cancelSave);
          }
          return false, false;
        }
      }
      returned, failed := SendReturn(ps, i);
    }
  }
}
