/** Database transactions of one shape, interleaved statement by statement: read a row, update it under a
    guard while holding its lock, then commit or roll back. Runs of them are shown to be serial: what the
    commits leave behind is what the same operations leave when applied one after another, each with
    whatever row it had read earlier. */
module Transactions {
  import opened Wrappers

  /** `update` sees the row read at the start and the current row; None means no row was affected. The
      committed update leaves its traces elsewhere by `record`. `direct` is an operation of a single step
      that adds rows. */
  datatype Rules<!K, !Op, !Row, !Side> = Rules(
    keyOf: Op -> K,
    update: (Op, Option<Row>, Option<Row>) -> Option<Row>,
    record: (Op, Option<Row>, Row, Side) -> Side,
    direct: (Op, map<K, Row>, Side) -> (map<K, Row>, Side))

  datatype Tx<Op, Row> =
    | Reading(op: Op, seen: Option<Row>)
    | Holding(op: Op, seen: Option<Row>, row: Row)

  datatype Db<!K(==), !Op, !Row, !Side> = Db(rows: map<K, Row>, side: Side, txs: map<nat, Tx<Op, Row>>)

  datatype Step<Op> = Begin(id: nat, op: Op) | Update(id: nat) | Commit(id: nat) | Rollback(id: nat) | Direct(op: Op)

  function Find<K(==), Row>(rows: map<K, Row>, key: K): Option<Row> {
    if key in rows then Some(rows[key]) else None
  }

  /** Another transaction's lock on a key. */
  predicate Locked<K(==), Op, Row, Side>(rules: Rules<K, Op, Row, Side>, s: Db<K, Op, Row, Side>, key: K) {
    exists id :: id in s.txs && s.txs[id].Holding? && rules.keyOf(s.txs[id].op) == key
  }

  predicate CanAdd<K(==), Op, Row, Side>(rules: Rules<K, Op, Row, Side>, s: Db<K, Op, Row, Side>, added: map<K, Row>) {
    forall key :: key in added ==> key !in s.rows && !Locked(rules, s, key)
  }

  function Next<K(==), Op, Row, Side>(rules: Rules<K, Op, Row, Side>, s: Db<K, Op, Row, Side>, step: Step<Op>)
    : Db<K, Op, Row, Side>
  {
    match step
    case Begin(id, op) =>
      if id in s.txs then s else s.(txs := s.txs[id := Reading(op, Find(s.rows, rules.keyOf(op)))])
    case Update(id) =>
      if id !in s.txs || !s.txs[id].Reading? || Locked(rules, s, rules.keyOf(s.txs[id].op)) then s
      else
        var tx := s.txs[id];
        (match rules.update(tx.op, tx.seen, Find(s.rows, rules.keyOf(tx.op)))
         case None => s.(txs := s.txs - {id})
         case Some(row) => s.(txs := s.txs[id := Holding(tx.op, tx.seen, row)]))
    case Commit(id) =>
      if id !in s.txs || !s.txs[id].Holding? then s
      else
        var tx := s.txs[id];
        Db(s.rows[rules.keyOf(tx.op) := tx.row], rules.record(tx.op, tx.seen, tx.row, s.side), s.txs - {id})
    case Rollback(id) => s.(txs := s.txs - {id})
    case Direct(op) =>
      var (added, side) := rules.direct(op, s.rows, s.side);
      if CanAdd(rules, s, added) then s.(rows := s.rows + added, side := side) else s
  }

  function Run<K(==), Op, Row, Side>(rules: Rules<K, Op, Row, Side>, s: Db<K, Op, Row, Side>, steps: seq<Step<Op>>)
    : Db<K, Op, Row, Side>
    decreases |steps|
  {
    if steps == [] then s else Next(rules, Run(rules, s, steps[..|steps| - 1]), steps[|steps| - 1])
  }

  // ----- the serial form -----

  datatype Effect<Op, Row> = Committed(op: Op, seen: Option<Row>) | Done(op: Op)

  /** One operation applied at once, to the rows as they are, with the row it had read before. */
  function Apply<K(==), Op, Row, Side>(rules: Rules<K, Op, Row, Side>, rows: map<K, Row>, side: Side, e: Effect<Op, Row>)
    : (map<K, Row>, Side)
  {
    match e
    case Committed(op, seen) =>
      (match rules.update(op, seen, Find(rows, rules.keyOf(op)))
       case None => (rows, side)
       case Some(row) => (rows[rules.keyOf(op) := row], rules.record(op, seen, row, side)))
    case Done(op) =>
      var (added, side') := rules.direct(op, rows, side);
      if added.Keys !! rows.Keys then (rows + added, side') else (rows, side)
  }

  lemma DoneAdds<K, Op, Row, Side>(rules: Rules<K, Op, Row, Side>, rows: map<K, Row>, side: Side, op: Op, added: map<K, Row>, side': Side)
    requires rules.direct(op, rows, side) == (added, side') && added.Keys !! rows.Keys
    ensures Apply(rules, rows, side, Done(op)) == (rows + added, side')
  {
  }

  function Serial<K(==), Op, Row, Side>(rules: Rules<K, Op, Row, Side>, rows: map<K, Row>, side: Side, es: seq<Effect<Op, Row>>)
    : (map<K, Row>, Side)
    decreases |es|
  {
    if es == [] then (rows, side)
    else
      var before := Serial(rules, rows, side, es[..|es| - 1]);
      Apply(rules, before.0, before.1, es[|es| - 1])
  }

  /** The effect a step has on the committed state, if any. */
  function EffectOf<K(==), Op, Row, Side>(rules: Rules<K, Op, Row, Side>, s: Db<K, Op, Row, Side>, step: Step<Op>)
    : seq<Effect<Op, Row>>
  {
    match step
    case Commit(id) => if id in s.txs && s.txs[id].Holding? then [Committed(s.txs[id].op, s.txs[id].seen)] else []
    case Direct(op) => if CanAdd(rules, s, rules.direct(op, s.rows, s.side).0) then [Done(op)] else []
    case _ => []
  }

  function Effects<K(==), Op, Row, Side>(rules: Rules<K, Op, Row, Side>, s: Db<K, Op, Row, Side>, steps: seq<Step<Op>>)
    : seq<Effect<Op, Row>>
    decreases |steps|
  {
    if steps == [] then []
    else
      var front := steps[..|steps| - 1];
      Effects(rules, s, front) + EffectOf(rules, Run(rules, s, front), steps[|steps| - 1])
  }

  /** A committed update affects its row when its turn comes. */
  predicate Bites<K(==), Op, Row, Side>(rules: Rules<K, Op, Row, Side>, rows: map<K, Row>, e: Effect<Op, Row>) {
    e.Committed? ==> rules.update(e.op, e.seen, Find(rows, rules.keyOf(e.op))).Some?
  }

  ghost predicate AllBite<K, Op, Row, Side>(
      rules: Rules<K, Op, Row, Side>, rows: map<K, Row>, side: Side, es: seq<Effect<Op, Row>>)
  {
    forall i: nat :: i < |es| ==> Bites(rules, Serial(rules, rows, side, es[..i]).0, es[i])
  }

  /** A held row is still what its update makes of the current row, and no key is held twice. */
  ghost predicate LocksOk<K, Op, Row, Side>(rules: Rules<K, Op, Row, Side>, s: Db<K, Op, Row, Side>) {
    && (forall id :: id in s.txs && s.txs[id].Holding? ==>
          rules.update(s.txs[id].op, s.txs[id].seen, Find(s.rows, rules.keyOf(s.txs[id].op))) == Some(s.txs[id].row))
    && (forall i, j :: i in s.txs && j in s.txs && i != j && s.txs[i].Holding? && s.txs[j].Holding? ==>
          rules.keyOf(s.txs[i].op) != rules.keyOf(s.txs[j].op))
  }

  lemma StepIsSerial<K, Op, Row, Side>(rules: Rules<K, Op, Row, Side>, s: Db<K, Op, Row, Side>, step: Step<Op>)
    requires LocksOk(rules, s)
    ensures LocksOk(rules, Next(rules, s, step))
    ensures
      var s' := Next(rules, s, step);
      (s'.rows, s'.side) == Serial(rules, s.rows, s.side, EffectOf(rules, s, step))
    ensures forall e :: e in EffectOf(rules, s, step) ==> Bites(rules, s.rows, e)
  {
    var s' := Next(rules, s, step);
    var es := EffectOf(rules, s, step);
    if es != [] {
      assert es[..0] == [];
      assert Serial(rules, s.rows, s.side, es) == Apply(rules, s.rows, s.side, es[0]);
    }
    match step
    case Direct(op) =>
      var (added, side) := rules.direct(op, s.rows, s.side);
      if CanAdd(rules, s, added) {
        forall id | id in s.txs && s.txs[id].Holding?
          ensures rules.keyOf(s.txs[id].op) !in added
        {
          assert Locked(rules, s, rules.keyOf(s.txs[id].op));
        }
      }
    case _ =>
  }

  lemma {:induction false} SerialConcat<K, Op, Row, Side>(
      rules: Rules<K, Op, Row, Side>, rows: map<K, Row>, side: Side, a: seq<Effect<Op, Row>>, b: seq<Effect<Op, Row>>)
    ensures
      var mid := Serial(rules, rows, side, a);
      Serial(rules, rows, side, a + b) == Serial(rules, mid.0, mid.1, b)
    decreases |b|
  {
    if b == [] {
      assert a + b == a;
    } else {
      SerialConcat(rules, rows, side, a, b[..|b| - 1]);
      assert (a + b)[..|a + b| - 1] == a + b[..|b| - 1];
    }
  }

  lemma OneMoreBites<K, Op, Row, Side>(
      rules: Rules<K, Op, Row, Side>, rows: map<K, Row>, side: Side, es: seq<Effect<Op, Row>>, more: seq<Effect<Op, Row>>)
    requires AllBite(rules, rows, side, es) && |more| <= 1
    requires forall e :: e in more ==> Bites(rules, Serial(rules, rows, side, es).0, e)
    ensures AllBite(rules, rows, side, es + more)
  {
    hide Serial, Bites;
    forall i: nat | i < |es + more|
      ensures Bites(rules, Serial(rules, rows, side, (es + more)[..i]).0, (es + more)[i])
    {
      if i < |es| {
        assert (es + more)[..i] == es[..i];
      } else {
        assert (es + more)[..i] == es;
        assert (es + more)[i] in more;
      }
    }
  }

  /** Every interleaved run leaves what its committed effects leave one after another, and each of them
      affects its row when its turn comes. */
  lemma {:induction false} RunIsSerial<K, Op, Row, Side>(
      rules: Rules<K, Op, Row, Side>, s: Db<K, Op, Row, Side>, steps: seq<Step<Op>>)
    requires LocksOk(rules, s)
    ensures LocksOk(rules, Run(rules, s, steps))
    ensures
      var e := Run(rules, s, steps);
      (e.rows, e.side) == Serial(rules, s.rows, s.side, Effects(rules, s, steps))
    ensures AllBite(rules, s.rows, s.side, Effects(rules, s, steps))
    decreases |steps|
  {
    hide Next, LocksOk, Apply, Bites, AllBite;
    if steps != [] {
      var front := steps[..|steps| - 1];
      RunIsSerial(rules, s, front);
      var mid := Run(rules, s, front);
      StepIsSerial(rules, mid, steps[|steps| - 1]);
      SerialConcat(rules, s.rows, s.side, Effects(rules, s, front), EffectOf(rules, mid, steps[|steps| - 1]));
      OneMoreBites(rules, s.rows, s.side, Effects(rules, s, front), EffectOf(rules, mid, steps[|steps| - 1]));
    } else {
      NothingBites(rules, s.rows, s.side);
    }
  }

  lemma NothingBites<K, Op, Row, Side>(rules: Rules<K, Op, Row, Side>, rows: map<K, Row>, side: Side)
    ensures AllBite(rules, rows, side, [])
  {
  }

  // ----- what happens between a transaction's read and its update -----

  lemma {:induction false} RunConcat<K, Op, Row, Side>(
      rules: Rules<K, Op, Row, Side>, s: Db<K, Op, Row, Side>, a: seq<Step<Op>>, b: seq<Step<Op>>)
    ensures Run(rules, s, a + b) == Run(rules, Run(rules, s, a), b)
    decreases |b|
  {
    if b == [] {
      assert a + b == a;
    } else {
      RunConcat(rules, s, a, b[..|b| - 1]);
      assert (a + b)[..|a + b| - 1] == a + b[..|b| - 1];
    }
  }

  lemma {:induction false} EffectsConcat<K, Op, Row, Side>(
      rules: Rules<K, Op, Row, Side>, s: Db<K, Op, Row, Side>, a: seq<Step<Op>>, b: seq<Step<Op>>)
    ensures Effects(rules, s, a + b) == Effects(rules, s, a) + Effects(rules, Run(rules, s, a), b)
    decreases |b|
  {
    hide EffectOf, Next, Locked, CanAdd;
    if b == [] {
      assert a + b == a;
    } else {
      EffectsConcat(rules, s, a, b[..|b| - 1]);
      RunConcat(rules, s, a, b[..|b| - 1]);
      assert (a + b)[..|a + b| - 1] == a + b[..|b| - 1];
    }
  }

  /** What has committed from the k-th statement on. */
  function EffectsSince<K(==), Op, Row, Side>(
      rules: Rules<K, Op, Row, Side>, s: Db<K, Op, Row, Side>, steps: seq<Step<Op>>, k: nat): seq<Effect<Op, Row>>
    requires k <= |steps|
  {
    Effects(rules, Run(rules, s, steps[..k]), steps[k..])
  }

  /** Statement k began the transaction that is still open at the end of the run, by reading its row. */
  ghost predicate BegunAt<K, Op, Row, Side>(
      rules: Rules<K, Op, Row, Side>, s: Db<K, Op, Row, Side>, steps: seq<Step<Op>>, id: nat, k: nat)
  {
    var e := Run(rules, s, steps);
    && k < |steps| && id in e.txs
    && steps[k] == Begin(id, e.txs[id].op)
    && e.txs[id].seen == Find(Run(rules, s, steps[..k]).rows, rules.keyOf(e.txs[id].op))
    && (forall j: nat :: k < j <= |steps| ==> StillOpen(rules, s, steps, id, j))
  }

  ghost predicate StillOpen<K, Op, Row, Side>(
      rules: Rules<K, Op, Row, Side>, s: Db<K, Op, Row, Side>, steps: seq<Step<Op>>, id: nat, j: nat)
    requires j <= |steps|
  {
    id in Run(rules, s, steps[..j]).txs
  }

  lemma StepKeepsTx<K, Op, Row, Side>(rules: Rules<K, Op, Row, Side>, s: Db<K, Op, Row, Side>, step: Step<Op>, id: nat)
    requires id in Next(rules, s, step).txs
    ensures
      var tx := Next(rules, s, step).txs[id];
      if id in s.txs then tx.op == s.txs[id].op && tx.seen == s.txs[id].seen
      else step == Begin(id, tx.op) && tx.seen == Find(s.rows, rules.keyOf(tx.op))
  {
    hide Locked, CanAdd;
  }

  /** Every open transaction was begun by some statement of the run. */
  lemma {:induction false} OpenWasBegun<K, Op, Row, Side>(
      rules: Rules<K, Op, Row, Side>, s: Db<K, Op, Row, Side>, steps: seq<Step<Op>>, id: nat)
    requires s.txs == map[] && id in Run(rules, s, steps).txs
    ensures exists k: nat :: BegunAt(rules, s, steps, id, k)
    decreases |steps|
  {
    hide Next;
    var front, step := steps[..|steps| - 1], steps[|steps| - 1];
    var mid := Run(rules, s, front);
    StepKeepsTx(rules, mid, step, id);
    assert steps[..|steps|] == steps && steps[..|front|] == front;
    if id in mid.txs {
      OpenWasBegun(rules, s, front, id);
      var k: nat :| BegunAt(rules, s, front, id, k);
      forall j: nat | k < j <= |steps|
        ensures StillOpen(rules, s, steps, id, j)
      {
        if j < |steps| {
          assert StillOpen(rules, s, front, id, j);
          assert steps[..j] == front[..j];
        }
      }
      assert steps[..k] == front[..k];
      assert BegunAt(rules, s, steps, id, k);
    } else {
      assert BegunAt(rules, s, steps, id, |front|);
    }
  }

  /** The effects of a run fall into those before a statement and those since. */
  lemma EffectsSplit<K, Op, Row, Side>(
      rules: Rules<K, Op, Row, Side>, s: Db<K, Op, Row, Side>, steps: seq<Step<Op>>, k: nat)
    requires k <= |steps|
    ensures Effects(rules, s, steps) == Effects(rules, s, steps[..k]) + EffectsSince(rules, s, steps, k)
  {
    hide Effects, Run;
    EffectsConcat(rules, s, steps[..k], steps[k..]);
    assert steps[..k] + steps[k..] == steps;
  }

  lemma NextKeepsKeys<K, Op, Row, Side>(rules: Rules<K, Op, Row, Side>, s: Db<K, Op, Row, Side>, step: Step<Op>)
    ensures s.rows.Keys <= Next(rules, s, step).rows.Keys
  {
  }

  /** Rows are never deleted. */
  lemma {:induction false} RunKeepsKeys<K, Op, Row, Side>(
      rules: Rules<K, Op, Row, Side>, s: Db<K, Op, Row, Side>, steps: seq<Step<Op>>, k: nat)
    requires k <= |steps|
    ensures Run(rules, s, steps[..k]).rows.Keys <= Run(rules, s, steps).rows.Keys
    decreases |steps|
  {
    hide Next;
    if k < |steps| {
      RunKeepsKeys(rules, s, steps[..|steps| - 1], k);
      assert steps[..|steps| - 1][..k] == steps[..k];
      NextKeepsKeys(rules, Run(rules, s, steps[..|steps| - 1]), steps[|steps| - 1]);
    } else {
      assert steps[..k] == steps;
    }
  }

  predicate Touches<K(==), Op, Row, Side>(rules: Rules<K, Op, Row, Side>, e: Effect<Op, Row>, key: K) {
    e.Committed? && rules.keyOf(e.op) == key
  }

  /** A row that was there and that no committed update touches stays as it is. */
  lemma {:induction false} UntouchedStays<K, Op, Row, Side>(
      rules: Rules<K, Op, Row, Side>, s: Db<K, Op, Row, Side>, steps: seq<Step<Op>>, key: K)
    requires key in s.rows && forall e :: e in Effects(rules, s, steps) ==> !Touches(rules, e, key)
    ensures key in Run(rules, s, steps).rows && Run(rules, s, steps).rows[key] == s.rows[key]
    decreases |steps|
  {
    if steps != [] {
      var front := steps[..|steps| - 1];
      UntouchedStays(rules, s, front, key);
      StepTouches(rules, Run(rules, s, front), steps[|steps| - 1], key);
    }
  }

  lemma StepTouches<K, Op, Row, Side>(rules: Rules<K, Op, Row, Side>, s: Db<K, Op, Row, Side>, step: Step<Op>, key: K)
    requires key in s.rows && forall e :: e in EffectOf(rules, s, step) ==> !Touches(rules, e, key)
    ensures key in Next(rules, s, step).rows && Next(rules, s, step).rows[key] == s.rows[key]
  {
    hide Locked;
    if step.Commit? && step.id in s.txs && s.txs[step.id].Holding? {
      assert Committed(s.txs[step.id].op, s.txs[step.id].seen) in EffectOf(rules, s, step);
    }
  }

  ghost predicate Named<Op>(steps: seq<Step<Op>>, op: Op) {
    exists i :: 0 <= i < |steps| && (steps[i].Begin? || steps[i].Direct?) && steps[i].op == op
  }

  /** Every effect is of an operation that some statement of the run names. */
  lemma {:induction false} EffectsAreNamed<K, Op, Row, Side>(
      rules: Rules<K, Op, Row, Side>, s: Db<K, Op, Row, Side>, steps: seq<Step<Op>>, e: Effect<Op, Row>)
    requires s.txs == map[] && e in Effects(rules, s, steps)
    ensures Named(steps, e.op)
    decreases |steps|
  {
    hide Next, CanAdd, BegunAt;
    var front, step := steps[..|steps| - 1], steps[|steps| - 1];
    var mid := Run(rules, s, front);
    if e in Effects(rules, s, front) {
      EffectsAreNamed(rules, s, front, e);
      var i :| 0 <= i < |front| && (front[i].Begin? || front[i].Direct?) && front[i].op == e.op;
      assert steps[i] == front[i];
    } else {
      assert e in EffectOf(rules, mid, step);
      if step.Commit? {
        NamedByBegin(rules, s, front, step.id);
        var i :| 0 <= i < |front| && (front[i].Begin? || front[i].Direct?) && front[i].op == e.op;
        assert steps[i] == front[i];
      } else {
        assert steps[|front|] == step;
      }
    }
  }

  lemma NamedByBegin<K, Op, Row, Side>(
      rules: Rules<K, Op, Row, Side>, s: Db<K, Op, Row, Side>, steps: seq<Step<Op>>, id: nat)
    requires s.txs == map[] && id in Run(rules, s, steps).txs
    ensures Named(steps, Run(rules, s, steps).txs[id].op)
  {
    OpenWasBegun(rules, s, steps, id);
    var k: nat :| BegunAt(rules, s, steps, id, k);
    assert steps[k].Begin?;
  }

  /** What a transaction had read was a committed row at some earlier moment of the run. */
  ghost predicate WasRead<K, Op, Row, Side>(
      rules: Rules<K, Op, Row, Side>, s: Db<K, Op, Row, Side>, steps: seq<Step<Op>>, op: Op, seen: Option<Row>)
  {
    exists k: nat :: k <= |steps| && Find(Run(rules, s, steps[..k]).rows, rules.keyOf(op)) == seen
  }

  lemma ReadsWereCommitted<K, Op, Row, Side>(
      rules: Rules<K, Op, Row, Side>, s: Db<K, Op, Row, Side>, steps: seq<Step<Op>>, id: nat)
    requires s.txs == map[] && id in Run(rules, s, steps).txs
    ensures WasRead(rules, s, steps, Run(rules, s, steps).txs[id].op, Run(rules, s, steps).txs[id].seen)
  {
    OpenWasBegun(rules, s, steps, id);
    var k: nat :| BegunAt(rules, s, steps, id, k);
  }

  // ----- a transaction on its own -----

  /** A transaction that nobody disturbs commits what its operation makes of the row it read, or leaves everything as
      it was when it rolls back. */
  lemma AloneIsApplied<K, Op, Row, Side>(rules: Rules<K, Op, Row, Side>, s: Db<K, Op, Row, Side>, id: nat, op: Op)
    requires id !in s.txs && !Locked(rules, s, rules.keyOf(op))
    ensures
      var held := Next(rules, Next(rules, s, Begin(id, op)), Update(id));
      var after := Apply(rules, s.rows, s.side, Committed(op, Find(s.rows, rules.keyOf(op))));
      && Next(rules, held, Commit(id)) == Db(after.0, after.1, s.txs)
      && Next(rules, held, Rollback(id)) == s
      && (held.txs == s.txs <==> rules.update(op, Find(s.rows, rules.keyOf(op)), Find(s.rows, rules.keyOf(op))).None?)
  {
    var begun := Next(rules, s, Begin(id, op));
    assert !Locked(rules, begun, rules.keyOf(op));
    assert begun.txs - {id} == s.txs;
    var held := Next(rules, begun, Update(id));
    assert held.txs - {id} == s.txs;
    assert id !in held.txs <==> held.txs == s.txs;
  }
}
