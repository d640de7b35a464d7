/** The profit-sharing executor against a remote service that is idempotent by order number: requests
    and replies may be lost, local writes may fail, and calls may come in any order. Each call works on
    one order and is one step. */
module ProfitSharing {
  import opened Wrappers
  import opened Commission

  // ----- local records -----

  datatype LocalStatus = Pending | Processing | Succeeded | Failed | Refunded

  datatype Record = Record(
    tenantId: nat, orderNo: string, outOrderNo: string, transactionId: string, wxOrderId: string,
    amountCent: int, commissionCent: int, rateBP: int,
    status: LocalStatus, failReason: string, returnNo: string)

  function OutOrderNo(orderNo: string): string { "PS" + orderNo }

  function OutReturnNo(orderNo: string): string { "PSR" + orderNo }

  // ----- the remote service -----

  datatype ShareState = InProgress | Finished(success: bool)

  datatype Share = Share(orderId: string, amount: int, state: ShareState)

  datatype ReturnState = ReturnInProgress | ReturnSucceeded | ReturnFailed(reason: string)

  datatype Return = Return(outOrderNo: string, amount: int, state: ReturnState)

  /** Shares by out-order number and returns by out-return number. */
  datatype Remote = Remote(shares: map<string, Share>, returned: map<string, Return>)

  datatype World = World(local: map<string, Record>, remote: Remote)

  /** A request lost on the way has no effect; one whose reply is lost has its effect unseen. */
  datatype Net = RequestLost | ReplyLost | Answered

  /** A write can fail with or without having taken effect. */
  datatype Write = Stored | NotStored | StoredButFailed

  /** The remote service opens at most one share per out-order number. */
  function OpenShare(r: Remote, outOrderNo: string, amount: int, orderId: string, state: ShareState): Remote {
    if outOrderNo in r.shares then r else r.(shares := r.shares[outOrderNo := Share(orderId, amount, state)])
  }

  /** A return is opened once per out-return number, and only against a share that went through. */
  predicate CanReturn(r: Remote, outOrderNo: string, outReturnNo: string, amount: int) {
    || outReturnNo in r.returned
    || (outOrderNo in r.shares && r.shares[outOrderNo].state == Finished(true) && amount <= r.shares[outOrderNo].amount)
  }

  function OpenReturn(r: Remote, outOrderNo: string, outReturnNo: string, amount: int, state: ReturnState): Remote {
    if outReturnNo in r.returned || !CanReturn(r, outOrderNo, outReturnNo, amount) then r
    else r.(returned := r.returned[outReturnNo := Return(outOrderNo, amount, state)])
  }

  function Save(w: World, ps: Record, write: Write): World {
    if write.NotStored? then w else w.(local := w.local[ps.orderNo := ps])
  }

  // ----- launch and query -----

  /** What one launch meets: whether its preconditions hold, the network, the remote's choices for a
      fresh share, and the write of the result. */
  datatype LaunchIn = LaunchIn(ready: bool, net: Net, orderId: string, state: ShareState, save: Write)

  /** The record in memory after a call, and whether the call returned an error. */
  datatype Outcome = Outcome(world: World, ps: Record, failed: bool)

  /** A finished share decides the record; an unfinished one leaves it to a later query. */
  function WithShare(ps: Record, share: Share): Record {
    match share.state
    case Finished(true) => ps.(wxOrderId := share.orderId, status := Succeeded, failReason := "")
    case Finished(false) => ps.(wxOrderId := share.orderId, status := Failed, failReason := "closed")
    case InProgress => ps.(wxOrderId := share.orderId, status := Processing, failReason := "")
  }

  function Launch(w: World, ps: Record, i: LaunchIn): Outcome {
    if !i.ready then Outcome(w, ps, true)
    else
      var remote := if i.net.RequestLost? then w.remote
                    else OpenShare(w.remote, ps.outOrderNo, ps.commissionCent, i.orderId, i.state);
      var w' := w.(remote := remote);
      if !i.net.Answered? then Outcome(w', ps, true)
      else
        var ps' := WithShare(ps, remote.shares[ps.outOrderNo]);
        Outcome(Save(w', ps', i.save), ps', !i.save.Stored?)
  }

  datatype QueryIn = QueryIn(ready: bool, net: Net, save: Write)

  /** A query changes nothing remotely; it only records a final state, and ignores a failed write. */
  function QueryAndUpdate(w: World, ps: Record, q: QueryIn): Outcome {
    if !q.ready || !q.net.Answered? || ps.outOrderNo !in w.remote.shares
       || w.remote.shares[ps.outOrderNo].state.InProgress?
    then Outcome(w, ps, false)
    else
      var ps' := WithShare(ps, w.remote.shares[ps.outOrderNo]);
      Outcome(Save(w, ps', q.save), ps', false)
  }

  // ----- the executor's calls -----

  datatype Input = Input(tenantId: nat, orderNo: string, transactionId: string, paidCent: int)

  predicate ValidInput(inp: Input) {
    inp.tenantId != 0 && inp.orderNo != "" && inp.transactionId != "" && inp.paidCent > 0
  }

  function NewRecord(inp: Input, cfg: Config): Record {
    Record(inp.tenantId, inp.orderNo, OutOrderNo(inp.orderNo), inp.transactionId, "",
           inp.paidCent, Calc(inp.paidCent, cfg), cfg.rateBP, Pending, "", "")
  }

  function Submit(w: World, inp: Input, cfg: Option<Config>, create: Write, i: LaunchIn, resave: Write): World {
    if !ValidInput(inp) || inp.orderNo in w.local || cfg.None? || Calc(inp.paidCent, cfg.value) <= 0 then w
    else
      var ps := NewRecord(inp, cfg.value);
      var w' := Save(w, ps, create);
      if !create.Stored? then w'
      else
        var launched := Launch(w', ps, i);
        if !launched.failed then launched.world
        else Save(launched.world, launched.ps.(status := Pending, failReason := "launch"), resave)
  }

  /** A failed launch keeps whatever status the record had reached in memory. */
  function LaunchOrNote(w: World, ps: Record, i: LaunchIn, resave: Write): World {
    var launched := Launch(w, ps, i);
    if !launched.failed then launched.world
    else Save(launched.world, launched.ps.(failReason := "launch"), resave)
  }

  function Retry(w: World, orderNo: string, i: LaunchIn, resave: Write): World {
    if orderNo !in w.local || w.local[orderNo].status.Succeeded? || w.local[orderNo].status.Refunded? then w
    else LaunchOrNote(w, w.local[orderNo], i, resave)
  }

  function SyncOne(w: World, orderNo: string, i: LaunchIn, q: QueryIn, resave: Write): World {
    if orderNo !in w.local then w
    else
      var ps := w.local[orderNo];
      match ps.status
      case Pending => LaunchOrNote(w, ps, i, resave)
      case Failed => LaunchOrNote(w, ps, i, resave)
      case Processing => QueryAndUpdate(w, ps, q).world
      case _ => w
  }

  /** What one refund hook meets after its query: configuration, network, the remote's choice for a
      fresh return, and the writes. */
  datatype RefundIn = RefundIn(query: QueryIn, cancelSave: Write, ready: bool, net: Net, state: ReturnState, save: Write)

  /** The new world and the pair the hook returns. */
  datatype RefundOut = RefundOut(world: World, returned: bool, failed: bool)

  function SendReturn(w: World, ps: Record, i: RefundIn): RefundOut {
    if !i.ready then RefundOut(w, true, true)
    else
      var no := OutReturnNo(ps.orderNo);
      var remote := if i.net.RequestLost? then w.remote
                    else OpenReturn(w.remote, ps.outOrderNo, no, ps.commissionCent, i.state);
      var w' := w.(remote := remote);
      if !i.net.Answered? || no !in remote.returned then RefundOut(w', true, true)
      else match remote.returned[no].state
        case ReturnSucceeded => RefundOut(Save(w', ps.(status := Refunded, returnNo := no), i.save), true, false)
        case ReturnFailed(reason) => RefundOut(Save(w', ps.(failReason := reason), i.save), true, true)
        case ReturnInProgress => RefundOut(w', true, true)
  }

  function ReturnForRefund(w: World, orderNo: string, i: RefundIn): RefundOut {
    if orderNo !in w.local then RefundOut(w, false, false)
    else
      var ps := w.local[orderNo];
      if ps.status.Refunded? then RefundOut(w, true, false)
      else if ps.status.Succeeded? then SendReturn(w, ps, i)
      else
        var queried := QueryAndUpdate(w, ps, i.query);
        if queried.ps.status.Succeeded? then SendReturn(queried.world, queried.ps, i)
        else if queried.ps.status.Pending?
        then RefundOut(Save(queried.world, queried.ps.(status := Failed, failReason := "refunded"), i.cancelSave), false, false)
        else RefundOut(queried.world, false, false)
  }

  // ----- runs -----

  datatype Step =
    | DoSubmit(inp: Input, cfg: Option<Config>, create: Write, launch: LaunchIn, resave: Write)
    | DoRetry(orderNo: string, launch: LaunchIn, resave: Write)
    | DoSync(orderNo: string, launch: LaunchIn, query: QueryIn, resave: Write)
    | DoRefund(orderNo: string, refund: RefundIn)
    | ShareFinishes(outOrderNo: string, success: bool)
    | ReturnFinishes(outReturnNo: string, state: ReturnState)

  function Next(w: World, step: Step): World {
    match step
    case DoSubmit(inp, cfg, create, launch, resave) => Submit(w, inp, cfg, create, launch, resave)
    case DoRetry(orderNo, launch, resave) => Retry(w, orderNo, launch, resave)
    case DoSync(orderNo, launch, query, resave) => SyncOne(w, orderNo, launch, query, resave)
    case DoRefund(orderNo, refund) => ReturnForRefund(w, orderNo, refund).world
    case ShareFinishes(no, success) =>
      if no in w.remote.shares && w.remote.shares[no].state.InProgress?
      then w.(remote := w.remote.(shares := w.remote.shares[no := w.remote.shares[no].(state := Finished(success))]))
      else w
    case ReturnFinishes(no, state) =>
      if no in w.remote.returned && w.remote.returned[no].state.ReturnInProgress?
      then w.(remote := w.remote.(returned := w.remote.returned[no := w.remote.returned[no].(state := state)]))
      else w
  }

  const Start: World := World(map[], Remote(map[], map[]))

  function Run(w: World, steps: seq<Step>): World
    decreases |steps|
  {
    if steps == [] then w else Next(Run(w, steps[..|steps| - 1]), steps[|steps| - 1])
  }

  // ----- agreement -----

  predicate RecordOk(orderNo: string, ps: Record) {
    ps.orderNo == orderNo && ps.outOrderNo == OutOrderNo(orderNo) && ps.commissionCent > 0
  }

  /** The remote share of a record went through, for exactly the record's commission. */
  predicate SharedRemotely(r: Remote, ps: Record) {
    ps.outOrderNo in r.shares && r.shares[ps.outOrderNo].state == Finished(true)
  }

  predicate ReturnedRemotely(r: Remote, ps: Record) {
    OutReturnNo(ps.orderNo) in r.returned && r.returned[OutReturnNo(ps.orderNo)].state.ReturnSucceeded?
  }

  predicate StatusOk(r: Remote, ps: Record) {
    && (ps.status.Succeeded? || ps.status.Refunded? ==> SharedRemotely(r, ps))
    && (ps.status.Refunded? ==> ReturnedRemotely(r, ps))
  }

  ghost predicate LocalOk(w: World) {
    forall o :: o in w.local ==> RecordOk(o, w.local[o]) && StatusOk(w.remote, w.local[o])
  }

  /** A share belongs to a local record and carries its commission. */
  ghost predicate ShareOwned(w: World, no: string)
    requires no in w.remote.shares
  {
    exists o :: o in w.local && no == OutOrderNo(o) && w.remote.shares[no].amount == w.local[o].commissionCent
  }

  /** A return belongs to a local record, carries its commission, and follows a finished share. */
  ghost predicate ReturnOwned(w: World, no: string)
    requires no in w.remote.returned
  {
    exists o :: o in w.local && no == OutReturnNo(o)
      && w.remote.returned[no].outOrderNo == OutOrderNo(o)
      && w.remote.returned[no].amount == w.local[o].commissionCent
      && OutOrderNo(o) in w.remote.shares && w.remote.shares[OutOrderNo(o)].state == Finished(true)
  }

  ghost predicate RemoteOk(w: World) {
    && (forall no :: no in w.remote.shares ==> ShareOwned(w, no))
    && (forall no :: no in w.remote.returned ==> ReturnOwned(w, no))
  }

  ghost predicate Inv(w: World) {
    LocalOk(w) && RemoteOk(w)
  }

  lemma OutNumbersAreInjective(a: string, b: string)
    ensures OutOrderNo(a) == OutOrderNo(b) ==> a == b
    ensures OutReturnNo(a) == OutReturnNo(b) ==> a == b
  {
    assert OutOrderNo(a)[2..] == a && OutOrderNo(b)[2..] == b;
    assert OutReturnNo(a)[3..] == a && OutReturnNo(b)[3..] == b;
  }

  /** A record in memory still belongs to the row it was read from. */
  predicate InStep(w: World, ps: Record) {
    && ps.orderNo in w.local && RecordOk(ps.orderNo, ps)
    && ps.commissionCent == w.local[ps.orderNo].commissionCent
    && StatusOk(w.remote, ps)
  }

  lemma SaveKeepsInv(w: World, ps: Record, write: Write)
    requires Inv(w) && RecordOk(ps.orderNo, ps) && StatusOk(w.remote, ps)
    requires ps.orderNo in w.local ==> ps.commissionCent == w.local[ps.orderNo].commissionCent
    ensures Inv(Save(w, ps, write))
  {
    hide OutOrderNo, OutReturnNo;
    var w' := Save(w, ps, write);
    forall no | no in w'.remote.shares
      ensures ShareOwned(w', no)
    {
      assert ShareOwned(w, no);
    }
    forall no | no in w'.remote.returned
      ensures ReturnOwned(w', no)
    {
      assert ReturnOwned(w, no);
    }
  }

  lemma OpenShareKeepsInv(w: World, ps: Record, orderId: string, state: ShareState)
    requires Inv(w) && InStep(w, ps)
    ensures
      var w' := w.(remote := OpenShare(w.remote, ps.outOrderNo, ps.commissionCent, orderId, state));
      Inv(w') && InStep(w', ps)
  {
    hide OutOrderNo, OutReturnNo;
    var w' := w.(remote := OpenShare(w.remote, ps.outOrderNo, ps.commissionCent, orderId, state));
    forall no | no in w'.remote.shares
      ensures ShareOwned(w', no)
    {
      if no in w.remote.shares {
        assert ShareOwned(w, no);
      } else {
        assert no == OutOrderNo(ps.orderNo);
      }
    }
    forall no | no in w'.remote.returned
      ensures ReturnOwned(w', no)
    {
      assert ReturnOwned(w, no);
    }
  }

  lemma OpenReturnKeepsInv(w: World, ps: Record, state: ReturnState)
    requires Inv(w) && InStep(w, ps)
    ensures
      var w' := w.(remote := OpenReturn(w.remote, ps.outOrderNo, OutReturnNo(ps.orderNo), ps.commissionCent, state));
      Inv(w') && InStep(w', ps)
  {
    hide OutOrderNo, OutReturnNo;
    var w' := w.(remote := OpenReturn(w.remote, ps.outOrderNo, OutReturnNo(ps.orderNo), ps.commissionCent, state));
    forall no | no in w'.remote.shares
      ensures ShareOwned(w', no)
    {
      assert ShareOwned(w, no);
    }
    forall no | no in w'.remote.returned
      ensures ReturnOwned(w', no)
    {
      if no in w.remote.returned {
        assert ReturnOwned(w, no);
      } else {
        assert no == OutReturnNo(ps.orderNo);
      }
    }
  }

  lemma LaunchKeepsInv(w: World, ps: Record, i: LaunchIn)
    requires Inv(w) && InStep(w, ps) && !ps.status.Refunded?
    ensures Inv(Launch(w, ps, i).world) && InStep(Launch(w, ps, i).world, Launch(w, ps, i).ps)
    ensures !Launch(w, ps, i).ps.status.Refunded?
  {
    hide OutOrderNo, OutReturnNo;
    if i.ready && !i.net.RequestLost? {
      OpenShareKeepsInv(w, ps, i.orderId, i.state);
      var w' := w.(remote := OpenShare(w.remote, ps.outOrderNo, ps.commissionCent, i.orderId, i.state));
      if i.net.Answered? {
        SaveKeepsInv(w', WithShare(ps, w'.remote.shares[ps.outOrderNo]), i.save);
      }
    }
  }

  lemma QueryKeepsInv(w: World, ps: Record, q: QueryIn)
    requires Inv(w) && InStep(w, ps) && !ps.status.Refunded?
    ensures Inv(QueryAndUpdate(w, ps, q).world) && InStep(QueryAndUpdate(w, ps, q).world, QueryAndUpdate(w, ps, q).ps)
  {
    if ps.outOrderNo in w.remote.shares && !w.remote.shares[ps.outOrderNo].state.InProgress? {
      SaveKeepsInv(w, WithShare(ps, w.remote.shares[ps.outOrderNo]), q.save);
    }
  }

  lemma SendReturnKeepsInv(w: World, ps: Record, i: RefundIn)
    requires Inv(w) && InStep(w, ps) && ps.status.Succeeded?
    ensures Inv(SendReturn(w, ps, i).world)
    ensures SendReturn(w, ps, i).returned
    ensures !SendReturn(w, ps, i).failed ==> ReturnedRemotely(SendReturn(w, ps, i).world.remote, ps)
  {
    hide OutOrderNo, OutReturnNo;
    if i.ready && !i.net.RequestLost? {
      OpenReturnKeepsInv(w, ps, i.state);
      var no := OutReturnNo(ps.orderNo);
      var w' := w.(remote := OpenReturn(w.remote, ps.outOrderNo, no, ps.commissionCent, i.state));
      if i.net.Answered? && no in w'.remote.returned {
        match w'.remote.returned[no].state
        case ReturnSucceeded => SaveKeepsInv(w', ps.(status := Refunded, returnNo := no), i.save);
        case ReturnFailed(reason) => SaveKeepsInv(w', ps.(failReason := reason), i.save);
        case ReturnInProgress =>
      }
    }
  }

  lemma SubmitKeepsInv(w: World, inp: Input, cfg: Option<Config>, create: Write, i: LaunchIn, resave: Write)
    requires Inv(w)
    ensures Inv(Submit(w, inp, cfg, create, i, resave))
  {
    if !(!ValidInput(inp) || inp.orderNo in w.local || cfg.None? || Calc(inp.paidCent, cfg.value) <= 0) {
      var ps := NewRecord(inp, cfg.value);
      SaveKeepsInv(w, ps, create);
      if create.Stored? {
        var w' := Save(w, ps, create);
        LaunchKeepsInv(w', ps, i);
        var launched := Launch(w', ps, i);
        SaveKeepsInv(launched.world, launched.ps.(status := Pending, failReason := "launch"), resave);
      }
    }
  }

  lemma LaunchOrNoteKeepsInv(w: World, ps: Record, i: LaunchIn, resave: Write)
    requires Inv(w) && InStep(w, ps) && !ps.status.Refunded?
    ensures Inv(LaunchOrNote(w, ps, i, resave))
  {
    LaunchKeepsInv(w, ps, i);
    var launched := Launch(w, ps, i);
    SaveKeepsInv(launched.world, launched.ps.(failReason := "launch"), resave);
  }

  lemma RefundKeepsInv(w: World, orderNo: string, i: RefundIn)
    requires Inv(w)
    ensures Inv(ReturnForRefund(w, orderNo, i).world)
    ensures
      var out := ReturnForRefund(w, orderNo, i);
      out.returned && !out.failed ==> orderNo in w.local && ReturnedRemotely(out.world.remote, w.local[orderNo])
  {
    if orderNo in w.local && !w.local[orderNo].status.Refunded? {
      var ps := w.local[orderNo];
      if ps.status.Succeeded? {
        SendReturnKeepsInv(w, ps, i);
      } else {
        QueryKeepsInv(w, ps, i.query);
        var queried := QueryAndUpdate(w, ps, i.query);
        if queried.ps.status.Succeeded? {
          SendReturnKeepsInv(queried.world, queried.ps, i);
        } else if queried.ps.status.Pending? {
          SaveKeepsInv(queried.world, queried.ps.(status := Failed, failReason := "refunded"), i.cancelSave);
        }
      }
    }
  }

  lemma RemoteProgressKeepsInv(w: World, step: Step)
    requires Inv(w) && (step.ShareFinishes? || step.ReturnFinishes?)
    ensures Inv(Next(w, step))
  {
    hide OutOrderNo, OutReturnNo;
    var w' := Next(w, step);
    forall no | no in w'.remote.shares
      ensures ShareOwned(w', no)
    {
      assert ShareOwned(w, no);
    }
    forall no | no in w'.remote.returned
      ensures ReturnOwned(w', no)
    {
      assert ReturnOwned(w, no);
    }
  }

  lemma NextKeepsInv(w: World, step: Step)
    requires Inv(w)
    ensures Inv(Next(w, step))
  {
    match step
    case DoSubmit(inp, cfg, create, launch, resave) => SubmitKeepsInv(w, inp, cfg, create, launch, resave);
    case DoRetry(o, launch, resave) =>
      if o in w.local && !w.local[o].status.Succeeded? && !w.local[o].status.Refunded? {
        LaunchOrNoteKeepsInv(w, w.local[o], launch, resave);
      }
    case DoSync(o, launch, query, resave) =>
      if o in w.local {
        if w.local[o].status.Pending? || w.local[o].status.Failed? {
          LaunchOrNoteKeepsInv(w, w.local[o], launch, resave);
        } else if w.local[o].status.Processing? {
          QueryKeepsInv(w, w.local[o], query);
        }
      }
    case DoRefund(o, refund) => RefundKeepsInv(w, o, refund);
    case _ => RemoteProgressKeepsInv(w, step);
  }

  lemma {:induction false} RunKeepsInv(w: World, steps: seq<Step>)
    requires Inv(w)
    ensures Inv(Run(w, steps))
    decreases |steps|
  {
    if steps != [] {
      RunKeepsInv(w, steps[..|steps| - 1]);
      NextKeepsInv(Run(w, steps[..|steps| - 1]), steps[|steps| - 1]);
    }
  }

  // ----- what every run keeps -----

  /** No money moves without a record: every remote share is some record's, for its commission, and a
      record that says succeeded has exactly that share finished on the remote side. */
  lemma Agreement(steps: seq<Step>, o: string)
    ensures
      var w := Run(Start, steps);
      && (OutOrderNo(o) in w.remote.shares ==>
            o in w.local && w.remote.shares[OutOrderNo(o)].amount == w.local[o].commissionCent)
      && (forall no :: no in w.remote.shares ==> exists p :: p in w.local && no == OutOrderNo(p))
      && (o in w.local && (w.local[o].status.Succeeded? || w.local[o].status.Refunded?) ==>
            && OutOrderNo(o) in w.remote.shares
            && w.remote.shares[OutOrderNo(o)].state == Finished(true)
            && w.remote.shares[OutOrderNo(o)].amount == w.local[o].commissionCent)
  {
    RunKeepsInv(Start, steps);
    var w := Run(Start, steps);
    forall no | no in w.remote.shares
      ensures exists p :: p in w.local && no == OutOrderNo(p)
    {
      assert ShareOwned(w, no);
    }
    if OutOrderNo(o) in w.remote.shares {
      assert ShareOwned(w, OutOrderNo(o));
      var p :| p in w.local && OutOrderNo(o) == OutOrderNo(p)
        && w.remote.shares[OutOrderNo(o)].amount == w.local[p].commissionCent;
      OutNumbersAreInjective(o, p);
    }
  }

  /** A return exists only for a record whose share went through, for its commission, under its one
      return number; a refunded record has it, and it succeeded. */
  lemma ReturnAgreement(steps: seq<Step>, o: string)
    ensures
      var w := Run(Start, steps);
      && (OutReturnNo(o) in w.remote.returned ==>
            && o in w.local
            && w.remote.returned[OutReturnNo(o)].outOrderNo == OutOrderNo(o)
            && w.remote.returned[OutReturnNo(o)].amount == w.local[o].commissionCent
            && OutOrderNo(o) in w.remote.shares && w.remote.shares[OutOrderNo(o)].state == Finished(true))
      && (forall no :: no in w.remote.returned && w.remote.returned[no].outOrderNo == OutOrderNo(o) ==> no == OutReturnNo(o))
      && (o in w.local && w.local[o].status.Refunded? ==>
            OutReturnNo(o) in w.remote.returned && w.remote.returned[OutReturnNo(o)].state.ReturnSucceeded?)
  {
    RunKeepsInv(Start, steps);
    var w := Run(Start, steps);
    forall no | no in w.remote.returned && w.remote.returned[no].outOrderNo == OutOrderNo(o)
      ensures no == OutReturnNo(o)
    {
      assert ReturnOwned(w, no);
      var p :| p in w.local && no == OutReturnNo(p) && w.remote.returned[no].outOrderNo == OutOrderNo(p);
      OutNumbersAreInjective(o, p);
    }
    if OutReturnNo(o) in w.remote.returned {
      assert ReturnOwned(w, OutReturnNo(o));
      var p :| p in w.local && OutReturnNo(o) == OutReturnNo(p)
        && w.remote.returned[OutReturnNo(o)].outOrderNo == OutOrderNo(p)
        && w.remote.returned[OutReturnNo(o)].amount == w.local[p].commissionCent
        && OutOrderNo(p) in w.remote.shares && w.remote.shares[OutOrderNo(p)].state == Finished(true);
      OutNumbersAreInjective(o, p);
    }
  }

  /** What the platform holds of one order: its finished share less its successful return. */
  function PlatformHolds(r: Remote, o: string): int {
    (if OutOrderNo(o) in r.shares && r.shares[OutOrderNo(o)].state == Finished(true) then r.shares[OutOrderNo(o)].amount else 0)
    - (if OutReturnNo(o) in r.returned && r.returned[OutReturnNo(o)].state.ReturnSucceeded? then r.returned[OutReturnNo(o)].amount else 0)
  }

  /** However often calls repeat and replies get lost, the platform holds the commission once or not at
      all; nothing when the record is refunded. */
  lemma PaidAtMostOnce(steps: seq<Step>, o: string)
    ensures
      var w := Run(Start, steps);
      && (PlatformHolds(w.remote, o) == 0 || (o in w.local && PlatformHolds(w.remote, o) == w.local[o].commissionCent))
      && (o in w.local && w.local[o].status.Refunded? ==> PlatformHolds(w.remote, o) == 0)
  {
    Agreement(steps, o);
    ReturnAgreement(steps, o);
  }

  /** When the refund hook reports (true, nil), the return has happened for the full commission. */
  lemma RefundReportIsTrue(steps: seq<Step>, o: string, i: RefundIn)
    requires
      var out := ReturnForRefund(Run(Start, steps), o, i);
      out.returned && !out.failed
    ensures
      var w := ReturnForRefund(Run(Start, steps), o, i).world;
      && OutReturnNo(o) in w.remote.returned
      && w.remote.returned[OutReturnNo(o)].state.ReturnSucceeded?
      && o in w.local && w.remote.returned[OutReturnNo(o)].amount == w.local[o].commissionCent
      && PlatformHolds(w.remote, o) == 0
  {
    RunKeepsInv(Start, steps);
    RefundKeepsInv(Run(Start, steps), o, i);
    var all := steps + [DoRefund(o, i)];
    assert all[..|all| - 1] == steps;
    ReturnAgreement(all, o);
    PaidAtMostOnce(all, o);
    Agreement(all, o);
  }

  /** A world in which the row of `o` is untouched. */
  predicate SameRow(w: World, w': World, o: string) {
    (o in w.local <==> o in w'.local) && (o in w.local ==> w'.local[o] == w.local[o])
  }

  lemma LaunchTouchesOwnRow(w: World, ps: Record, i: LaunchIn, o: string)
    requires o != ps.orderNo
    ensures SameRow(w, Launch(w, ps, i).world, o) && Launch(w, ps, i).ps.orderNo == ps.orderNo
  {
  }

  lemma LaunchOrNoteTouchesOwnRow(w: World, ps: Record, i: LaunchIn, resave: Write, o: string)
    requires o != ps.orderNo
    ensures SameRow(w, LaunchOrNote(w, ps, i, resave), o)
  {
    LaunchTouchesOwnRow(w, ps, i, o);
  }

  lemma QueryTouchesOwnRow(w: World, ps: Record, q: QueryIn, o: string)
    requires o != ps.orderNo
    ensures SameRow(w, QueryAndUpdate(w, ps, q).world, o) && QueryAndUpdate(w, ps, q).ps.orderNo == ps.orderNo
  {
  }

  lemma SendReturnTouchesOwnRow(w: World, ps: Record, i: RefundIn, o: string)
    requires o != ps.orderNo
    ensures SameRow(w, SendReturn(w, ps, i).world, o)
  {
  }

  lemma RefundTouchesOwnRow(w: World, orderNo: string, i: RefundIn, o: string)
    requires Inv(w) && (o != orderNo || (o in w.local && w.local[o].status.Refunded?))
    ensures SameRow(w, ReturnForRefund(w, orderNo, i).world, o)
  {
    if orderNo in w.local && o != orderNo {
      var ps := w.local[orderNo];
      assert RecordOk(orderNo, ps);
      QueryTouchesOwnRow(w, ps, i.query, o);
      SendReturnTouchesOwnRow(w, ps, i, o);
      var queried := QueryAndUpdate(w, ps, i.query);
      SendReturnTouchesOwnRow(queried.world, queried.ps, i, o);
    }
  }

  lemma NextKeepsRefunded(w: World, step: Step, o: string)
    requires Inv(w) && o in w.local && w.local[o].status.Refunded?
    ensures SameRow(w, Next(w, step), o)
  {
    match step
    case DoSubmit(inp, cfg, create, launch, resave) =>
      if !(!ValidInput(inp) || inp.orderNo in w.local || cfg.None? || Calc(inp.paidCent, cfg.value) <= 0) {
        LaunchTouchesOwnRow(Save(w, NewRecord(inp, cfg.value), create), NewRecord(inp, cfg.value), launch, o);
      }
    case DoRetry(p, launch, resave) =>
      if p in w.local && p != o {
        LaunchOrNoteTouchesOwnRow(w, w.local[p], launch, resave, o);
      }
    case DoSync(p, launch, query, resave) =>
      if p in w.local && p != o {
        LaunchOrNoteTouchesOwnRow(w, w.local[p], launch, resave, o);
      }
    case DoRefund(p, refund) => RefundTouchesOwnRow(w, p, refund, o);
    case _ =>
  }

  /** Refunded is final: no later call changes the record. */
  lemma {:induction false} RefundedIsForever(w: World, steps: seq<Step>, o: string)
    requires Inv(w) && o in w.local && w.local[o].status.Refunded?
    ensures o in Run(w, steps).local && Run(w, steps).local[o] == w.local[o]
    decreases |steps|
  {
    if steps != [] {
      var front := steps[..|steps| - 1];
      RefundedIsForever(w, front, o);
      RunKeepsInv(w, front);
      NextKeepsRefunded(Run(w, front), steps[|steps| - 1], o);
    }
  }

  // ----- what a refund without a return promises -----

  predicate Kept(w: World, w': World, no: string) {
    no in w.remote.shares ==> no in w'.remote.shares && w'.remote.shares[no] == w.remote.shares[no]
  }

  lemma LaunchKeepsShares(w: World, ps: Record, i: LaunchIn, no: string)
    ensures Kept(w, Launch(w, ps, i).world, no)
  {
  }

  lemma QueryKeepsShares(w: World, ps: Record, q: QueryIn, no: string)
    ensures Kept(w, QueryAndUpdate(w, ps, q).world, no)
  {
  }

  lemma SendReturnKeepsShares(w: World, ps: Record, i: RefundIn, no: string)
    ensures Kept(w, SendReturn(w, ps, i).world, no)
  {
  }

  lemma RefundKeepsShares(w: World, o: string, i: RefundIn, no: string)
    ensures Kept(w, ReturnForRefund(w, o, i).world, no)
  {
    hide QueryAndUpdate, SendReturn;
    if o in w.local {
      var queried := QueryAndUpdate(w, w.local[o], i.query);
      SendReturnKeepsShares(w, w.local[o], i, no);
      QueryKeepsShares(w, w.local[o], i.query, no);
      SendReturnKeepsShares(queried.world, queried.ps, i, no);
    }
  }

  lemma NextKeepsFinished(w: World, step: Step, no: string)
    requires no in w.remote.shares && w.remote.shares[no].state.Finished?
    ensures no in Next(w, step).remote.shares && Next(w, step).remote.shares[no] == w.remote.shares[no]
  {
    hide Launch, QueryAndUpdate, SendReturn, ReturnForRefund, Calc;
    match step
    case DoSubmit(inp, cfg, create, launch, resave) =>
      if cfg.Some? {
        LaunchKeepsShares(Save(w, NewRecord(inp, cfg.value), create), NewRecord(inp, cfg.value), launch, no);
      }
    case DoRetry(o, launch, resave) =>
      if o in w.local {
        LaunchKeepsShares(w, w.local[o], launch, no);
      }
    case DoSync(o, launch, query, resave) =>
      if o in w.local {
        LaunchKeepsShares(w, w.local[o], launch, no);
        QueryKeepsShares(w, w.local[o], query, no);
      }
    case DoRefund(o, refund) => RefundKeepsShares(w, o, refund, no);
    case _ =>
  }

  /** A finished share stays as it is. */
  lemma {:induction false} FinishedIsForever(w: World, steps: seq<Step>, no: string)
    requires no in w.remote.shares && w.remote.shares[no].state.Finished?
    ensures no in Run(w, steps).remote.shares && Run(w, steps).remote.shares[no] == w.remote.shares[no]
    decreases |steps|
  {
    hide Next;
    if steps != [] {
      FinishedIsForever(w, steps[..|steps| - 1], no);
      NextKeepsFinished(Run(w, steps[..|steps| - 1]), steps[|steps| - 1], no);
    }
  }

  lemma RunOne(w: World, step: Step)
    ensures Run(w, [step]) == Next(w, step)
  {
    assert [step][..0] == [];
  }

  const LAUNCH: LaunchIn := LaunchIn(true, Answered, "", Finished(true), Stored)

  /** A retry whose every part works shares an order that has no share yet. */
  lemma RetryShares(w: World, o: string)
    requires Inv(w) && o in w.local && OutOrderNo(o) !in w.remote.shares
    ensures SharedRemotely(Next(w, DoRetry(o, LAUNCH, Stored)).remote, w.local[o])
  {
    assert RecordOk(o, w.local[o]) && StatusOk(w.remote, w.local[o]);
  }

  ghost predicate SharedLater(w: World, o: string)
    requires o in w.local
  {
    exists steps :: SharedRemotely(Run(w, steps).remote, w.local[o])
  }

  /** An order can still come to be shared exactly as long as its share has not finished unsuccessfully.
      Cancelling the record does not matter. */
  lemma ShareableUnlessClosed(w: World, o: string)
    requires Inv(w) && o in w.local
    ensures SharedLater(w, o) <==>
      !(OutOrderNo(o) in w.remote.shares && w.remote.shares[OutOrderNo(o)].state == Finished(false))
  {
    hide Next, Inv;
    var no := OutOrderNo(o);
    assert w.local[o].outOrderNo == no by { LocalNumbers(w, o); }
    if no !in w.remote.shares {
      RetryShares(w, o);
      RunOne(w, DoRetry(o, LAUNCH, Stored));
    } else if w.remote.shares[no].state.InProgress? {
      RunOne(w, ShareFinishes(no, true));
      SharesWhenFinished(w, no);
    } else {
      forall steps
        ensures no in Run(w, steps).remote.shares && Run(w, steps).remote.shares[no] == w.remote.shares[no]
      {
        FinishedIsForever(w, steps, no);
      }
      assert Run(w, []) == w;
    }
  }

  lemma LocalNumbers(w: World, o: string)
    requires Inv(w) && o in w.local
    ensures w.local[o].outOrderNo == OutOrderNo(o)
  {
  }

  lemma SharesWhenFinished(w: World, no: string)
    requires no in w.remote.shares && w.remote.shares[no].state.InProgress?
    ensures no in Next(w, ShareFinishes(no, true)).remote.shares
    ensures Next(w, ShareFinishes(no, true)).remote.shares[no].state == Finished(true)
  {
  }

  /** A refund let through without a return leaves the remote side as it was. So a later share stays possible
      exactly as it was before the refund. */
  lemma CancelledShareStillLaunches(steps: seq<Step>, o: string, i: RefundIn)
    requires o in Run(Start, steps).local
    requires !ReturnForRefund(Run(Start, steps), o, i).returned
    ensures
      var w, out := Run(Start, steps), ReturnForRefund(Run(Start, steps), o, i);
      && out.world.remote == w.remote && o in out.world.local
      && (SharedLater(out.world, o) <==>
            !(OutOrderNo(o) in w.remote.shares && w.remote.shares[OutOrderNo(o)].state == Finished(false)))
  {
    hide Run, SharedLater;
    var w := Run(Start, steps);
    RunKeepsInv(Start, steps);
    RefundKeepsInv(w, o, i);
    ReleaseKeepsRemote(w, o, i);
    ShareableUnlessClosed(ReturnForRefund(w, o, i).world, o);
  }

  lemma ReleaseKeepsRemote(w: World, o: string, i: RefundIn)
    requires o in w.local && !ReturnForRefund(w, o, i).returned
    requires w.local[o].orderNo == o
    ensures ReturnForRefund(w, o, i).world.remote == w.remote && o in ReturnForRefund(w, o, i).world.local
    ensures !w.local[o].status.Succeeded? && !w.local[o].status.Refunded?
    ensures SharedRemotely(w.remote, w.local[o]) ==> !i.query.ready || !i.query.net.Answered?
  {
  }

  /** The refund hook asked the remote service and got an answer. */
  predicate QueryAnswered(i: RefundIn) {
    i.query.ready && i.query.net.Answered?
  }

  lemma UnansweredIsReleased(w: World, o: string, i: RefundIn)
    requires o in w.local && !w.local[o].status.Succeeded? && !w.local[o].status.Refunded?
    requires !QueryAnswered(i)
    ensures !ReturnForRefund(w, o, i).returned
  {
  }

  /** When the hook lets a refund through without a return, the platform still holds the commission exactly
      when the order's share had gone through and not been returned, the record did not say so, and the
      query got no answer: its error is swallowed. */
  lemma ReleaseIsSafeUnlessUnanswered(steps: seq<Step>, o: string, i: RefundIn)
    ensures
      var w, out := Run(Start, steps), ReturnForRefund(Run(Start, steps), o, i);
      !out.returned && PlatformHolds(out.world.remote, o) != 0 <==>
        && o in w.local && !w.local[o].status.Succeeded? && !w.local[o].status.Refunded?
        && SharedRemotely(w.remote, w.local[o]) && !ReturnedRemotely(w.remote, w.local[o])
        && !QueryAnswered(i)
  {
    hide Run;
    var w, out := Run(Start, steps), ReturnForRefund(Run(Start, steps), o, i);
    RunKeepsInv(Start, steps);
    Agreement(steps, o);
    ReturnAgreement(steps, o);
    if o in w.local {
      assert RecordOk(o, w.local[o]);
      if !out.returned {
        ReleaseKeepsRemote(w, o, i);
      } else if !w.local[o].status.Succeeded? && !w.local[o].status.Refunded? && !QueryAnswered(i) {
        UnansweredIsReleased(w, o, i);
      }
    }
  }

  /** An order whose launch went through with its reply lost, then a refund whose query reply is lost. */
  function SwallowedRun(): seq<Step> {
    [DoSubmit(Input(1, "o", "t", 10000), Some(Config(1000, 0, true)), Stored,
              LaunchIn(true, ReplyLost, "", Finished(true), Stored), Stored)]
  }

  const SWALLOWED: RefundIn :=
    RefundIn(QueryIn(true, ReplyLost, Stored), Stored, true, Answered, ReturnSucceeded, Stored)

  /** A run in which the hook reports (false, nil) while the commission is held. */
  lemma LostQueryReleasesRefund()
    ensures
      var w := Run(Start, SwallowedRun());
      var out := ReturnForRefund(w, "o", SWALLOWED);
      && "o" in w.local && w.local["o"].status.Pending?
      && !out.returned && !out.failed && PlatformHolds(out.world.remote, "o") == 1000
  {
    RunOne(Start, SwallowedRun()[0]);
    assert SwallowedRun() == [SwallowedRun()[0]];
    assert OutOrderNo("o") == "PSo" && OutReturnNo("o") == "PSRo";
  }
}
