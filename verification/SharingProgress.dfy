/** What the profit-sharing calls achieve when the remote service answers and the write is stored. */
module SharingProgress {
  import opened Wrappers
  import opened Commission
  import opened ProfitSharing
  import Executor

  /** The record says of its order what the remote share says. */
  predicate Reports(row: Record, share: Share) {
    && row.wxOrderId == share.orderId
    && match share.state
       case Finished(true) => row.status == Succeeded && row.failReason == ""
       case Finished(false) => row.status == Failed && row.failReason == "closed"
       case InProgress => row.status == Processing && row.failReason == ""
  }

  /** Two versions of a record that differ at most in what a share decides. */
  predicate SameTerms(a: Record, b: Record) {
    && a.tenantId == b.tenantId && a.orderNo == b.orderNo && a.outOrderNo == b.outOrderNo
    && a.transactionId == b.transactionId && a.amountCent == b.amountCent
    && a.commissionCent == b.commissionCent && a.rateBP == b.rateBP && a.returnNo == b.returnNo
  }

  predicate ShareFinished(w: World, no: string) {
    no in w.remote.shares && w.remote.shares[no].state != InProgress
  }

  predicate QueryArrives(q: QueryIn) {
    q.ready && q.net == Answered && q.save != NotStored
  }

  /** An answered launch leaves its mark when its own write or the one that notes the failure takes effect. */
  predicate LaunchArrives(i: LaunchIn, resave: Write) {
    i.ready && i.net == Answered && (i.save != NotStored || resave != NotStored)
  }

  // ----- one record -----

  lemma OwnNumber(w: World, o: string)
    requires Inv(w) && o in w.local
    ensures w.local[o].orderNo == o && w.local[o].outOrderNo == "PS" + o && w.local[o].commissionCent > 0
  {
    assert RecordOk(o, w.local[o]);
  }

  lemma QueryRecords(w: World, ps: Record, q: QueryIn)
    requires QueryArrives(q) && ps.orderNo in w.local
    ensures
      var after := QueryAndUpdate(w, ps, q);
      if ShareFinished(w, ps.outOrderNo)
      then after.world.local == w.local[ps.orderNo := after.ps]
           && Reports(after.ps, w.remote.shares[ps.outOrderNo]) && SameTerms(after.ps, ps)
      else after.world == w && after.ps == ps
  {
  }

  /** Syncing a processing record whose query is answered and whose write takes effect records the outcome of the
      finished share, and waits otherwise. Nothing remote changes. */
  lemma ProcessingIsSynced(w: World, o: string, i: LaunchIn, q: QueryIn, resave: Write)
    requires Inv(w) && o in w.local && w.local[o].status == Processing && QueryArrives(q)
    ensures
      var after := SyncOne(w, o, i, q, resave);
      && after.remote == w.remote && o in after.local
      && (ShareFinished(w, "PS" + o) ==>
            Reports(after.local[o], w.remote.shares["PS" + o]) && SameTerms(after.local[o], w.local[o]))
      && (!ShareFinished(w, "PS" + o) ==> after == w)
  {
    hide Inv;
    OwnNumber(w, o);
    QueryRecords(w, w.local[o], q);
  }

  lemma LaunchRecords(w: World, ps: Record, i: LaunchIn, resave: Write)
    requires LaunchArrives(i, resave)
    ensures
      var after := LaunchOrNote(w, ps, i, resave);
      var share := if ps.outOrderNo in w.remote.shares then w.remote.shares[ps.outOrderNo]
                   else Share(i.orderId, ps.commissionCent, i.state);
      && after.remote.shares == w.remote.shares[ps.outOrderNo := share]
      && after.remote.returned == w.remote.returned
      && ps.orderNo in after.local && SameTerms(after.local[ps.orderNo], ps)
      && after.local[ps.orderNo].wxOrderId == share.orderId
      && after.local[ps.orderNo].status == WithShare(ps, share).status
      && (i.save == Stored ==> Reports(after.local[ps.orderNo], share))
  {
    hide Inv;
  }

  /** Status and order id of a record follow its share. */
  predicate Follows(row: Record, share: Share) {
    && row.wxOrderId == share.orderId
    && (row.status == Succeeded <==> share.state == Finished(true))
    && (row.status == Failed <==> share.state == Finished(false))
    && (row.status == Processing <==> share.state == InProgress)
  }

  /** Syncing a pending or failed record whose launch is answered and stored leaves its share open, for the record's
      commission when it was not open before, and the record in the share's state. */
  lemma PendingIsLaunched(w: World, o: string, i: LaunchIn, q: QueryIn, resave: Write)
    requires Inv(w) && o in w.local && (w.local[o].status == Pending || w.local[o].status == Failed)
    requires LaunchArrives(i, resave)
    ensures
      var after, no := SyncOne(w, o, i, q, resave), "PS" + o;
      && no in after.remote.shares && o in after.local
      && after.remote.shares[no] ==
           (if no in w.remote.shares then w.remote.shares[no] else Share(i.orderId, w.local[o].commissionCent, i.state))
      && Follows(after.local[o], after.remote.shares[no]) && SameTerms(after.local[o], w.local[o])
      && (i.save == Stored ==> Reports(after.local[o], after.remote.shares[no]))
  {
    hide Inv;
    OwnNumber(w, o);
    LaunchRecords(w, w.local[o], i, resave);
  }

  /** Without an answer a sync leaves the record's state: a launch only notes that it failed, its share being open
      exactly when it was before or the request arrived, and a query leaves everything as it was. */
  lemma UnansweredChangesNoState(w: World, o: string, i: LaunchIn, q: QueryIn, resave: Write)
    requires Inv(w) && o in w.local
    requires (!i.ready || i.net != Answered) && (!q.ready || q.net != Answered)
    ensures
      var after, no, row := SyncOne(w, o, i, q, resave), "PS" + o, w.local[o];
      if row.status == Pending || row.status == Failed then
        && o in after.local
        && after.local == w.local[o := if resave == NotStored then row else row.(failReason := "launch")]
        && (no in after.remote.shares <==> no in w.remote.shares || (i.ready && i.net == ReplyLost))
        && (no in w.remote.shares ==> after.remote == w.remote)
      else after == w
  {
    hide Inv;
    OwnNumber(w, o);
    assert w.local[o := w.local[o]] == w.local;
  }

  /** A retry does the same for every record that is neither succeeded nor refunded, and nothing for the others. */
  lemma RetryLaunches(w: World, o: string, i: LaunchIn, resave: Write)
    requires Inv(w) && o in w.local && LaunchArrives(i, resave)
    ensures
      var after, no := Retry(w, o, i, resave), "PS" + o;
      if w.local[o].status == Succeeded || w.local[o].status == Refunded then after == w
      else
        && no in after.remote.shares && o in after.local
        && after.remote.shares[no] ==
             (if no in w.remote.shares then w.remote.shares[no] else Share(i.orderId, w.local[o].commissionCent, i.state))
        && Follows(after.local[o], after.remote.shares[no]) && SameTerms(after.local[o], w.local[o])
  {
    hide Inv;
    OwnNumber(w, o);
    LaunchRecords(w, w.local[o], i, resave);
  }

  /** A new order with a commission is recorded under the terms of the moment. When the launch is answered and stored
      its share is open for the commission; otherwise the record waits as pending. Orders without all their
      particulars, without commission terms or with a commission of nothing leave no trace. */
  lemma SubmitRecords(w: World, inp: Input, cfg: Option<Config>, i: LaunchIn, resave: Write)
    requires Inv(w) && inp.orderNo !in w.local
    ensures
      var after := Submit(w, inp, cfg, Stored, i, resave);
      if inp.tenantId == 0 || inp.orderNo == "" || inp.transactionId == "" || inp.paidCent <= 0
         || cfg == None || Calc(inp.paidCent, cfg.value) <= 0
      then after == w
      else
        && inp.orderNo in after.local
        && SameTerms(after.local[inp.orderNo],
             Record(inp.tenantId, inp.orderNo, "PS" + inp.orderNo, inp.transactionId, "", inp.paidCent,
                    Calc(inp.paidCent, cfg.value), cfg.value.rateBP, Pending, "", ""))
        && (i.ready && i.net == Answered && i.save == Stored ==>
              && "PS" + inp.orderNo in after.remote.shares
              && after.remote.shares["PS" + inp.orderNo] == Share(i.orderId, Calc(inp.paidCent, cfg.value), i.state)
              && Reports(after.local[inp.orderNo], after.remote.shares["PS" + inp.orderNo]))
        && (!i.ready || i.net != Answered ==> after.local[inp.orderNo].status == Pending)
  {
    hide Calc, Inv, Launch, Reports;
    NothingSharedYet(w, inp.orderNo);
    if ValidInput(inp) && cfg.Some? && Calc(inp.paidCent, cfg.value) > 0 {
      var ps := NewRecord(inp, cfg.value);
      NewRecordLaunched(Save(w, ps, Stored), ps, i);
    }
  }

  lemma NewRecordLaunched(w: World, ps: Record, i: LaunchIn)
    requires ps.orderNo in w.local && w.local[ps.orderNo] == ps && ps.outOrderNo !in w.remote.shares && ps.status == Pending
    ensures
      var launched := Launch(w, ps, i);
      var share := Share(i.orderId, ps.commissionCent, i.state);
      && SameTerms(launched.ps, ps) && launched.ps.orderNo == ps.orderNo
      && ps.orderNo in launched.world.local && SameTerms(launched.world.local[ps.orderNo], ps)
      && (i.ready && i.net == Answered && i.save == Stored ==>
            && !launched.failed && launched.world.remote.shares == w.remote.shares[ps.outOrderNo := share]
            && Reports(launched.world.local[ps.orderNo], share))
      && (!i.ready || i.net != Answered ==> launched.failed && launched.world.local == w.local)
  {
  }

  lemma NothingSharedYet(w: World, o: string)
    requires Inv(w) && o !in w.local
    ensures "PS" + o !in w.remote.shares
  {
    if "PS" + o in w.remote.shares {
      assert ShareOwned(w, "PS" + o);
      var p :| p in w.local && "PS" + o == OutOrderNo(p);
      OutNumbersAreInjective(o, p);
    }
  }

  // ----- a refund -----

  /** What the refund hook does with an order whose commission was taken, now or as its query finds. */
  predicate Returned(w: World, before: Record, i: RefundIn, out: RefundOut) {
    var no := "PSR" + before.orderNo;
    && out.returned
    && (!out.failed <==> i.ready && i.net == Answered && no in out.world.remote.returned
                         && out.world.remote.returned[no].state == ReturnSucceeded)
    && (!out.failed && i.save != NotStored ==>
          && before.orderNo in out.world.local
          && out.world.local[before.orderNo].status == Refunded && out.world.local[before.orderNo].returnNo == no)
    && (i.ready && i.net != RequestLost && no !in w.remote.returned
        && before.outOrderNo in w.remote.shares && w.remote.shares[before.outOrderNo].state == Finished(true)
        && before.commissionCent <= w.remote.shares[before.outOrderNo].amount ==>
          && no in out.world.remote.returned
          && out.world.remote.returned[no] == Return(before.outOrderNo, before.commissionCent, i.state))
    && (no in w.remote.returned ==>
          no in out.world.remote.returned && out.world.remote.returned[no] == w.remote.returned[no])
  }

  lemma SendReturnOutcome(w: World, ps: Record, i: RefundIn)
    ensures Returned(w, ps, i, SendReturn(w, ps, i))
  {
  }

  /** The refund hook case by case: never shared goes through; already returned is reported; a commission that was
      taken is returned first; a share that has not started is cancelled; anything else goes through unchanged. */
  lemma RefundOutcome(w: World, o: string, i: RefundIn)
    requires Inv(w)
    requires i.query.ready && i.query.net == Answered
    ensures
      var out := ReturnForRefund(w, o, i);
      if o !in w.local then out == RefundOut(w, false, false)
      else if w.local[o].status == Refunded then out == RefundOut(w, true, false)
      else if w.local[o].status == Succeeded || (ShareFinished(w, "PS" + o) && w.remote.shares["PS" + o].state == Finished(true))
      then Returned(w, w.local[o], i, out)
      else
        && !out.returned && !out.failed && out.world.remote == w.remote && o in out.world.local
        && (w.local[o].status == Pending && !ShareFinished(w, "PS" + o) ==>
              out.world.local[o] ==
                if i.cancelSave == NotStored then w.local[o] else w.local[o].(status := Failed, failReason := "refunded"))
        && (w.local[o].status != Pending && !ShareFinished(w, "PS" + o) ==> out.world == w)
        && (ShareFinished(w, "PS" + o) && i.query.save != NotStored ==> out.world.local[o].status == Failed)
  {
    hide Inv, SendReturn, Returned;
    if o in w.local {
      OwnNumber(w, o);
      var ps := w.local[o];
      var queried := QueryAndUpdate(w, ps, i.query);
      SendReturnOutcome(w, ps, i);
      SendReturnOutcome(queried.world, queried.ps, i);
      if !ps.status.Refunded? && !ps.status.Succeeded? && queried.ps.status.Succeeded? {
        ReturnedSame(w, queried.world, ps, queried.ps, i, SendReturn(queried.world, queried.ps, i));
      }
    }
  }

  lemma ReturnedSame(w: World, v: World, a: Record, b: Record, i: RefundIn, out: RefundOut)
    requires w.remote == v.remote && a.orderNo == b.orderNo && a.outOrderNo == b.outOrderNo && a.commissionCent == b.commissionCent
    ensures Returned(w, a, i, out) <==> Returned(v, b, i, out)
  {
  }

  // ----- a whole pass -----

  /** Row and share of an order are the same in both worlds. */
  predicate SameOrder(w: World, w': World, o: string) {
    && SameRow(w, w', o)
    && ("PS" + o in w.remote.shares <==> "PS" + o in w'.remote.shares)
    && ("PS" + o in w.remote.shares ==> w'.remote.shares["PS" + o] == w.remote.shares["PS" + o])
  }

  lemma LaunchKeepsOthers(w: World, ps: Record, i: LaunchIn, resave: Write, o: string)
    requires o != ps.orderNo && ps.outOrderNo != "PS" + o
    ensures SameOrder(w, LaunchOrNote(w, ps, i, resave), o)
  {
  }

  lemma QueryKeepsOthers(w: World, ps: Record, q: QueryIn, o: string)
    requires o != ps.orderNo
    ensures SameOrder(w, QueryAndUpdate(w, ps, q).world, o)
  {
  }

  lemma SyncKeepsOthers(w: World, p: string, i: Executor.SyncIn, o: string)
    requires Inv(w) && o != p
    ensures SameOrder(w, SyncOne(w, p, i.launch, i.query, i.resave), o)
  {
    hide Inv, LaunchOrNote, QueryAndUpdate, SameOrder;
    Unchanged(w, o);
    if p in w.local {
      OwnNumber(w, p);
      OutNumbersAreInjective(o, p);
      LaunchKeepsOthers(w, w.local[p], i.launch, i.resave, o);
      QueryKeepsOthers(w, w.local[p], i.query, o);
    }
  }

  lemma Unchanged(w: World, o: string)
    ensures SameOrder(w, w, o)
  {
  }

  lemma SameOrderTwice(u: World, v: World, w: World, o: string)
    requires SameOrder(u, v, o) && SameOrder(v, w, o)
    ensures SameOrder(u, w, o)
  {
  }

  /** The world when the pass has handled n records. */
  function AfterRecords(w: World, rows: seq<Record>, meets: nat -> Executor.SyncIn, n: nat): World
    requires n <= |rows|
  {
    Run(w, Executor.SyncSteps(rows, meets, n))
  }

  lemma NextRecord(w: World, rows: seq<Record>, meets: nat -> Executor.SyncIn, n: nat)
    requires Inv(w) && n < |rows|
    ensures
      var m := meets(n);
      AfterRecords(w, rows, meets, n + 1) ==
        SyncOne(AfterRecords(w, rows, meets, n), rows[n].orderNo, m.launch, m.query, m.resave)
    ensures Inv(AfterRecords(w, rows, meets, n))
  {
    hide SyncOne, Inv, Executor.SyncSteps;
    Executor.SyncAdvances(w, rows, meets, n);
    RunKeepsInv(w, Executor.SyncSteps(rows, meets, n));
  }

  lemma {:induction false} PassKeepsOthers(w: World, rows: seq<Record>, meets: nat -> Executor.SyncIn, a: nat, b: nat, o: string)
    requires Inv(w) && a <= b <= |rows|
    requires forall j :: a <= j < b ==> rows[j].orderNo != o
    ensures SameOrder(AfterRecords(w, rows, meets, a), AfterRecords(w, rows, meets, b), o)
    decreases b - a
  {
    hide AfterRecords, SameOrder, Inv, SyncOne;
    if a == b {
      Unchanged(AfterRecords(w, rows, meets, a), o);
    } else {
      PassKeepsOthers(w, rows, meets, a, b - 1, o);
      NextRecord(w, rows, meets, b - 1);
      SyncKeepsOthers(AfterRecords(w, rows, meets, b - 1), rows[b - 1].orderNo, meets(b - 1), o);
      SameOrderTwice(AfterRecords(w, rows, meets, a), AfterRecords(w, rows, meets, b - 1), AfterRecords(w, rows, meets, b), o);
    }
  }

  lemma NoRecordsYet(w: World, rows: seq<Record>, meets: nat -> Executor.SyncIn)
    ensures AfterRecords(w, rows, meets, 0) == w
  {
  }

  /** A whole pass over the listed records handles each as if it were alone: a processing record takes over the outcome
      of its finished share, a pending or failed one ends with its share open and in that share's state, and a
      succeeded or refunded one stays as it is. */
  lemma PassSyncsEveryRecord(w: World, rows: seq<Record>, meets: nat -> Executor.SyncIn, k: nat)
    requires Inv(w) && Executor.IsSnapshot(w, rows) && k < |rows|
    ensures
      var after, o := Run(w, Executor.SyncSteps(rows, meets, |rows|)), rows[k].orderNo;
      && o in after.local
      && (rows[k].status == Processing && QueryArrives(meets(k).query) ==>
            && (ShareFinished(w, "PS" + o) ==> Reports(after.local[o], w.remote.shares["PS" + o]))
            && (!ShareFinished(w, "PS" + o) ==> after.local[o] == rows[k]))
      && ((rows[k].status == Pending || rows[k].status == Failed) && LaunchArrives(meets(k).launch, meets(k).resave) ==>
            "PS" + o in after.remote.shares && Follows(after.local[o], after.remote.shares["PS" + o]))
      && (rows[k].status == Succeeded || rows[k].status == Refunded ==> after.local[o] == rows[k])
  {
    hide *;
    var o := rows[k].orderNo;
    ListedOnce(w, rows, k);
    TurnOf(w, rows, meets, k, o);
    KeptTo(w, AfterRecords(w, rows, meets, k), o);
    TurnSyncs(AfterRecords(w, rows, meets, k), o, meets(k));
    KeptTo(AfterRecords(w, rows, meets, k + 1), AfterRecords(w, rows, meets, |rows|), o);
    FinishedToo(w, AfterRecords(w, rows, meets, k), o);
    PassIs(w, rows, meets);
  }

  lemma ListedOnce(w: World, rows: seq<Record>, k: nat)
    requires Executor.IsSnapshot(w, rows) && k < |rows|
    ensures rows[k].orderNo in w.local && w.local[rows[k].orderNo] == rows[k]
    ensures forall j :: 0 <= j < |rows| && j != k ==> rows[j].orderNo != rows[k].orderNo
  {
  }

  /** Nothing happens to an order before its turn or after it. */
  lemma TurnOf(w: World, rows: seq<Record>, meets: nat -> Executor.SyncIn, k: nat, o: string)
    requires Inv(w) && k < |rows| && o == rows[k].orderNo
    requires forall j :: 0 <= j < |rows| && j != k ==> rows[j].orderNo != o
    ensures SameOrder(w, AfterRecords(w, rows, meets, k), o) && Inv(AfterRecords(w, rows, meets, k))
    ensures
      var m := meets(k);
      AfterRecords(w, rows, meets, k + 1) == SyncOne(AfterRecords(w, rows, meets, k), o, m.launch, m.query, m.resave)
    ensures SameOrder(AfterRecords(w, rows, meets, k + 1), AfterRecords(w, rows, meets, |rows|), o)
  {
    hide *;
    NoRecordsYet(w, rows, meets);
    NextRecord(w, rows, meets, k);
    PassKeepsOthers(w, rows, meets, 0, k, o);
    PassKeepsOthers(w, rows, meets, k + 1, |rows|, o);
  }

  lemma KeptTo(w: World, w': World, o: string)
    requires SameOrder(w, w', o)
    ensures o in w.local <==> o in w'.local
    ensures o in w.local ==> w'.local[o] == w.local[o]
    ensures "PS" + o in w.remote.shares <==> "PS" + o in w'.remote.shares
    ensures "PS" + o in w.remote.shares ==> w'.remote.shares["PS" + o] == w.remote.shares["PS" + o]
  {
  }

  lemma FinishedToo(w: World, w': World, o: string)
    requires SameOrder(w, w', o)
    ensures ShareFinished(w, "PS" + o) <==> ShareFinished(w', "PS" + o)
    ensures ShareFinished(w, "PS" + o) ==> "PS" + o in w.remote.shares
  {
  }

  lemma PassIs(w: World, rows: seq<Record>, meets: nat -> Executor.SyncIn)
    ensures AfterRecords(w, rows, meets, |rows|) == Run(w, Executor.SyncSteps(rows, meets, |rows|))
  {
  }

  lemma TurnSyncs(w: World, o: string, m: Executor.SyncIn)
    requires Inv(w) && o in w.local
    ensures
      var after := SyncOne(w, o, m.launch, m.query, m.resave);
      && o in after.local
      && (w.local[o].status == Processing && QueryArrives(m.query) ==>
            && (ShareFinished(w, "PS" + o) ==> Reports(after.local[o], w.remote.shares["PS" + o]))
            && (!ShareFinished(w, "PS" + o) ==> after.local[o] == w.local[o]))
      && ((w.local[o].status == Pending || w.local[o].status == Failed) && LaunchArrives(m.launch, m.resave) ==>
            "PS" + o in after.remote.shares && Follows(after.local[o], after.remote.shares["PS" + o]))
      && (w.local[o].status == Succeeded || w.local[o].status == Refunded ==> after.local[o] == w.local[o])
  {
    hide Inv, LaunchArrives, QueryArrives, Reports, Follows, SameTerms, ShareFinished;
    OwnNumber(w, o);
    if w.local[o].status == Processing && QueryArrives(m.query) {
      ProcessingIsSynced(w, o, m.launch, m.query, m.resave);
    }
    if (w.local[o].status == Pending || w.local[o].status == Failed) && LaunchArrives(m.launch, m.resave) {
      PendingIsLaunched(w, o, m.launch, m.query, m.resave);
    }
  }
}
