/** Plan purchases: paying an order grants one subscription window. Every call locks its order row and the
    tenant's subscription row, so calls are single steps. */
module PlanOrders {
  import opened Wrappers
  import opened Calendar

  datatype OrderStatus = Pending | Paid | Closed

  datatype Order = Order(
    tenantId: nat, planId: nat, billingCycle: string, amountCents: int, payDeadline: int, status: OrderStatus,
    transactionId: string, payTime: int, startedAt: int, expireAt: int, remark: string)

  datatype Plan = Plan(monthlyPriceCents: int, yearlyPriceCents: int, enabled: bool)

  const PAY_DEADLINE: int := 2 * 3600 * 1_000_000_000

  /** A zero expiry means the subscription never ends. */
  datatype Subscription = Subscription(planId: nat, startedAt: int, expireAt: int)

  datatype Error =
    OrderNotFound | OrderStateInvalid | InvalidCycle | PlanNotFound | PlanDisabled | FreePlan | InvalidOrder | DuplicateOrder

  /** `granted` lists, per tenant, the orders whose payment took effect, in that order. */
  datatype State = State(
    orders: map<string, Order>, plans: map<nat, Plan>, subs: map<nat, Subscription>, granted: map<nat, seq<string>>)

  function Grants(s: State, tenant: nat): seq<string> {
    if tenant in s.granted then s.granted[tenant] else []
  }

  // ----- the operations -----

  predicate ValidCycle(cycle: string) {
    cycle == "monthly" || cycle == "yearly"
  }

  function WindowEnd(start: int, cycle: string): int {
    if cycle == "yearly" then AddMonths(start, 12) else AddMonths(start, 1)
  }

  /** A running subscription of the same plan is extended; otherwise the window starts when paid. */
  function WindowStart(subs: map<nat, Subscription>, tenant: nat, plan: nat, payTime: int): int {
    if tenant in subs && subs[tenant].planId == plan && subs[tenant].expireAt != ZERO && subs[tenant].expireAt > payTime
    then subs[tenant].expireAt
    else payTime
  }

  function Grant(s: State, no: string, o: Order): State
  {
    State(s.orders[no := o], s.plans, s.subs[o.tenantId := Subscription(o.planId, o.startedAt, o.expireAt)],
          s.granted[o.tenantId := Grants(s, o.tenantId) + [no]])
  }

  /** The order as it stands after its payment took effect. */
  function PaidOrder(s: State, o: Order, transactionId: string, payTime: int): Order {
    var start := WindowStart(s.subs, o.tenantId, o.planId, payTime);
    o.(status := Paid, transactionId := transactionId, payTime := payTime,
       startedAt := start, expireAt := WindowEnd(start, o.billingCycle))
  }

  function EffectivePayTime(payTime: int, now: int): int {
    if payTime == ZERO then now else payTime
  }

  function MarkPaid(s: State, no: string, transactionId: string, payTime: int, now: int): (State, Result<Order, Error>) {
    if no !in s.orders then (s, Failure(OrderNotFound))
    else
      var o := s.orders[no];
      if o.status.Paid? then (s, Success(o))
      else if o.status.Closed? then (s, Failure(OrderStateInvalid))
      else if !ValidCycle(o.billingCycle) then (s, Failure(InvalidCycle))
      else if o.planId !in s.plans then (s, Failure(PlanNotFound))
      else
        var paid := PaidOrder(s, o, transactionId, EffectivePayTime(payTime, now));
        (Grant(s, no, paid), Success(paid))
  }

  /** Whether a payment call takes effect. */
  predicate TakesEffect(s: State, no: string) {
    && no in s.orders && s.orders[no].status.Pending?
    && ValidCycle(s.orders[no].billingCycle) && s.orders[no].planId in s.plans
  }

  function Close(s: State, no: string, reason: string): (State, Option<Error>) {
    if no !in s.orders then (s, Some(OrderNotFound))
    else if s.orders[no].status.Paid? then (s, Some(OrderStateInvalid))
    else if s.orders[no].status.Closed? then (s, None)
    else (s.(orders := s.orders[no := s.orders[no].(status := Closed, remark := reason)]), None)
  }

  function PriceFor(plan: Plan, cycle: string): int {
    if cycle == "yearly" then plan.yearlyPriceCents else plan.monthlyPriceCents
  }

  function NewOrder(tenant: nat, plan: nat, cycle: string, amount: int, deadline: int, now: int): Order {
    Order(tenant, plan, cycle, amount, if deadline == ZERO then now + PAY_DEADLINE else deadline,
          Pending, "", ZERO, ZERO, ZERO, "")
  }

  /** Free plans are not sold by order, and the unique index refuses a number already in use. */
  function Create(s: State, no: string, tenant: nat, plan: nat, cycle: string, deadline: int, now: int): (State, Option<Error>) {
    if tenant == 0 || plan == 0 || no == "" then (s, Some(InvalidOrder))
    else if !ValidCycle(cycle) then (s, Some(InvalidCycle))
    else if plan !in s.plans then (s, Some(PlanNotFound))
    else if !s.plans[plan].enabled then (s, Some(PlanDisabled))
    else
      var amount := PriceFor(s.plans[plan], cycle);
      if amount <= 0 then (s, Some(FreePlan))
      else if no in s.orders then (s, Some(DuplicateOrder))
      else (s.(orders := s.orders[no := NewOrder(tenant, plan, cycle, amount, deadline, now)]), None)
  }

  // ----- runs -----

  datatype Step =
    | Pay(no: string, transactionId: string, payTime: int, now: int)
    | DoClose(no: string, reason: string)
    | DoCreate(no: string, tenantId: nat, planId: nat, cycle: string, deadline: int, now: int)
    | SetPlans(plans: map<nat, Plan>)
    | Assign(tenantId: nat, sub: Subscription)
    | Revoke(tenantId: nat)

  function Next(s: State, step: Step): State {
    match step
    case Pay(no, transactionId, payTime, now) => MarkPaid(s, no, transactionId, payTime, now).0
    case DoClose(no, reason) => Close(s, no, reason).0
    case DoCreate(no, tenant, plan, cycle, deadline, now) => Create(s, no, tenant, plan, cycle, deadline, now).0
    case SetPlans(plans) => s.(plans := plans)
    case Assign(tenant, sub) => s.(subs := s.subs[tenant := sub])
    case Revoke(tenant) => s.(subs := s.subs - {tenant})
  }

  function Run(s: State, steps: seq<Step>): State
    decreases |steps|
  {
    if steps == [] then s else Next(Run(s, steps[..|steps| - 1]), steps[|steps| - 1])
  }

  /** Nothing but purchases of one plan touches the tenant, and clocks are past the zero time. */
  predicate Steady(step: Step, tenant: nat, plan: nat) {
    match step
    case Pay(_, _, payTime, now) => payTime >= ZERO && now > ZERO
    case DoCreate(_, t, p, _, _, _) => t == tenant ==> p == plan
    case Assign(t, _) => t != tenant
    case Revoke(t) => t != tenant
    case _ => true
  }

  // ----- paying and closing are final -----

  /** Each step leaves a settled order alone; the only ways out of pending are payment and closing. */
  lemma SettledOnce(s: State, step: Step, no: string)
    requires no in s.orders
    ensures
      var s' := Next(s, step);
      && no in s'.orders
      && (!s.orders[no].status.Pending? ==> s'.orders[no] == s.orders[no])
      && s'.orders[no].tenantId == s.orders[no].tenantId && s'.orders[no].planId == s.orders[no].planId
      && s'.orders[no].billingCycle == s.orders[no].billingCycle
      && s'.orders[no].amountCents == s.orders[no].amountCents
      && s'.orders[no].payDeadline == s.orders[no].payDeadline
  {
  }

  /** Paid and closed orders never change again, whatever calls follow. */
  lemma {:induction false} SettledForever(s: State, steps: seq<Step>, no: string)
    requires no in s.orders && !s.orders[no].status.Pending?
    ensures no in Run(s, steps).orders && Run(s, steps).orders[no] == s.orders[no]
    decreases |steps|
  {
    if steps != [] {
      SettledForever(s, steps[..|steps| - 1], no);
      SettledOnce(Run(s, steps[..|steps| - 1]), steps[|steps| - 1], no);
    }
  }

  /** A payment changes something exactly when the order was pending, valid and its plan exists; a replay
      succeeds, changes nothing, and returns the order as first paid. */
  lemma PaymentTakesEffectOnce(s: State, no: string, t1: string, p1: int, n1: int, steps: seq<Step>, t2: string, p2: int, n2: int)
    requires MarkPaid(s, no, t1, p1, n1).1.Success?
    ensures
      var first := MarkPaid(s, no, t1, p1, n1);
      var later := Run(first.0, steps);
      MarkPaid(later, no, t2, p2, n2) == (later, first.1)
    ensures (MarkPaid(s, no, t1, p1, n1).0 != s) <==> TakesEffect(s, no)
  {
    SettledForever(MarkPaid(s, no, t1, p1, n1).0, steps, no);
  }

  /** Exactly which payments take effect, and what each leaves behind. A tenant whose subscription is for the
      same plan, has an end and has not reached it when the payment counts, gets the window after that end.
      Everybody else, without a subscription, with one of another plan, an endless or a run-out one, gets it
      from the payment on, which counts from its own time or, when that is missing, from now. */
  lemma PaymentOutcome(s: State, no: string, transactionId: string, payTime: int, now: int)
    ensures
      var result := MarkPaid(s, no, transactionId, payTime, now).1;
      result.Success? <==>
        && no in s.orders && s.orders[no].status != Closed
        && (s.orders[no].status == Pending ==>
              s.orders[no].billingCycle in {"monthly", "yearly"} && s.orders[no].planId in s.plans)
    ensures
      var result := MarkPaid(s, no, transactionId, payTime, now).1;
      result.Failure? ==>
        (if no !in s.orders then result.error == OrderNotFound
         else if s.orders[no].status == Closed then result.error == OrderStateInvalid
         else if s.orders[no].billingCycle !in {"monthly", "yearly"} then result.error == InvalidCycle
         else result.error == PlanNotFound)
    ensures
      var (s', result) := MarkPaid(s, no, transactionId, payTime, now);
      if no in s.orders && s.orders[no].status == Pending && result.Success? then
        var o, paid := s.orders[no], result.value;
        var paidAt := if payTime == ZERO then now else payTime;
        && s'.plans == s.plans && s'.orders == s.orders[no := paid]
        && s'.subs == s.subs[o.tenantId := Subscription(o.planId, paid.startedAt, paid.expireAt)]
        && paid == o.(status := Paid, transactionId := transactionId, payTime := paidAt,
                      startedAt := paid.startedAt, expireAt := paid.expireAt)
        && paid.expireAt == AddMonths(paid.startedAt, if o.billingCycle == "yearly" then 12 else 1)
        && (|| (&& o.tenantId in s.subs && s.subs[o.tenantId].planId == o.planId && s.subs[o.tenantId].expireAt != ZERO
                && s.subs[o.tenantId].expireAt > paidAt && paid.startedAt == s.subs[o.tenantId].expireAt)
            || (&& (o.tenantId !in s.subs || s.subs[o.tenantId].planId != o.planId || s.subs[o.tenantId].expireAt == ZERO
                    || s.subs[o.tenantId].expireAt <= paidAt)
                && paid.startedAt == paidAt))
      else s' == s
  {
    hide AddMonths;
    if no in s.orders && s.orders[no].status == Pending {
      assert MarkPaid(s, no, transactionId, payTime, now).1.Success? <==>
        s.orders[no].billingCycle in {"monthly", "yearly"} && s.orders[no].planId in s.plans;
    }
  }

  /** Closing takes a pending order, stores the reason and touches nothing else; a closed one stays as it is, and a paid
      or unknown one is refused. */
  lemma CloseOutcome(s: State, no: string, reason: string)
    ensures
      var (s', error) := Close(s, no, reason);
      if no !in s.orders then s' == s && error == Some(OrderNotFound)
      else match s.orders[no].status
        case Pending =>
          && error == None && s' == s.(orders := s'.orders) && s'.orders.Keys == s.orders.Keys
          && s'.orders[no] == s.orders[no].(status := Closed, remark := reason)
          && forall other :: other in s.orders && other != no ==> s'.orders[other] == s.orders[other]
        case Closed => s' == s && error == None
        case Paid => s' == s && error == Some(OrderStateInvalid)
  {
  }

  /** Every order was created once, when its plan was on sale, at the plan's price for its cycle at that moment. */
  lemma {:induction false} OrderWasSold(s: State, steps: seq<Step>, no: string) returns (k: nat)
    requires NoOrders(s) && no in Run(s, steps).orders
    ensures k < |steps| && steps[k].DoCreate? && steps[k].no == no
    ensures
      var step, o, before := steps[k], Run(s, steps).orders[no], Run(s, steps[..k]);
      && no !in before.orders
      && o.tenantId == step.tenantId != 0 && o.planId == step.planId != 0 && o.billingCycle == step.cycle
      && o.planId in before.plans && before.plans[o.planId].enabled
      && (o.billingCycle == "yearly" ==> o.amountCents == before.plans[o.planId].yearlyPriceCents)
      && (o.billingCycle != "yearly" ==> o.amountCents == before.plans[o.planId].monthlyPriceCents)
      && o.payDeadline == (if step.deadline == ZERO then step.now + 7_200_000_000_000 else step.deadline)
    decreases |steps|
  {
    hide WindowStart, WindowEnd;
    var front, step := steps[..|steps| - 1], steps[|steps| - 1];
    if no in Run(s, front).orders {
      k := OrderWasSold(s, front, no);
      SettledOnce(Run(s, front), step, no);
      assert front[..k] == steps[..k];
    } else {
      k := |steps| - 1;
    }
  }

  /** A pending order is sold exactly to a named tenant for a plan on sale at a positive price, under a new number. */
  lemma SaleOutcome(s: State, no: string, tenant: nat, plan: nat, cycle: string, deadline: int, now: int)
    ensures
      var (s', error) := Create(s, no, tenant, plan, cycle, deadline, now);
      && (error == None <==>
            && tenant != 0 && plan != 0 && no != "" && no !in s.orders && plan in s.plans && s.plans[plan].enabled
            && (|| (cycle == "yearly" && s.plans[plan].yearlyPriceCents > 0)
                || (cycle == "monthly" && s.plans[plan].monthlyPriceCents > 0)))
      && (error != None ==> s' == s)
      && (error.Some? ==>
            if tenant == 0 || plan == 0 || no == "" then error.value == InvalidOrder
            else if cycle !in {"monthly", "yearly"} then error.value == InvalidCycle
            else if plan !in s.plans then error.value == PlanNotFound
            else if !s.plans[plan].enabled then error.value == PlanDisabled
            else if (if cycle == "yearly" then s.plans[plan].yearlyPriceCents else s.plans[plan].monthlyPriceCents) > 0
            then error.value == DuplicateOrder
            else error.value == FreePlan)
      && (error == None ==>
            && s' == s.(orders := s'.orders) && no in s'.orders && s'.orders[no].status == Pending
            && (forall other :: other != no ==> (other in s'.orders <==> other in s.orders))
            && (forall other :: other in s.orders ==> other in s'.orders && s'.orders[other] == s.orders[other]))
  {
  }

  /** Every order is for a valid cycle at a positive price. */
  ghost predicate Priced(s: State) {
    forall no :: no in s.orders ==> ValidCycle(s.orders[no].billingCycle) && s.orders[no].amountCents > 0
  }

  lemma NextKeepsPriced(s: State, step: Step)
    requires Priced(s)
    ensures Priced(Next(s, step))
  {
    hide WindowStart, WindowEnd;
    forall no | no in Next(s, step).orders
      ensures ValidCycle(Next(s, step).orders[no].billingCycle) && Next(s, step).orders[no].amountCents > 0
    {
      if no in s.orders {
        SettledOnce(s, step, no);
      }
    }
  }

  /** Whatever happens to prices, no run holds an order that is free or has an unknown cycle; so a payment of
      a pending order takes effect exactly as long as its plan exists, even a disabled one. */
  lemma OrdersArePriced(s: State, steps: seq<Step>, no: string)
    requires NoOrders(s) && no in Run(s, steps).orders
    ensures Priced(Run(s, steps))
    ensures
      var e := Run(s, steps);
      TakesEffect(e, no) <==> e.orders[no].status.Pending? && e.orders[no].planId in e.plans
  {
    hide Run;
    RunKeepsPriced(s, steps);
  }

  lemma {:induction false} RunKeepsPriced(s: State, steps: seq<Step>)
    requires Priced(s)
    ensures Priced(Run(s, steps))
    decreases |steps|
  {
    hide Next, Priced;
    if steps != [] {
      RunKeepsPriced(s, steps[..|steps| - 1]);
      NextKeepsPriced(Run(s, steps[..|steps| - 1]), steps[|steps| - 1]);
    }
  }

  /** Payment and closing exclude one another, and the first wins: after either has succeeded the other is
      refused for good and changes nothing. A pending order can always be closed. */
  lemma FirstWins(s: State, no: string, t: string, p: int, n: int, reason: string, steps: seq<Step>)
    ensures
      var (paid, result) := MarkPaid(s, no, t, p, n);
      var later := Run(paid, steps);
      result.Success? ==> Close(later, no, reason) == (later, Some(OrderStateInvalid))
    ensures
      var (closed, error) := Close(s, no, reason);
      var later := Run(closed, steps);
      error.None? ==> MarkPaid(later, no, t, p, n) == (later, Failure(OrderStateInvalid))
    ensures Close(s, no, reason).1.None? <==> no in s.orders && !s.orders[no].status.Paid?
  {
    hide Run, Next, WindowStart, WindowEnd;
    if MarkPaid(s, no, t, p, n).1.Success? {
      SettledForever(MarkPaid(s, no, t, p, n).0, steps, no);
    }
    if Close(s, no, reason).1.None? {
      SettledForever(Close(s, no, reason).0, steps, no);
    }
  }

  // ----- the windows of one tenant -----

  function Max(a: int, b: int): int {
    if a > b then a else b
  }

  /** An order's window: at or after its payment, as long as its cycle. */
  predicate WindowOk(o: Order) {
    && o.status.Paid? && o.payTime > ZERO && o.startedAt >= o.payTime
    && ValidCycle(o.billingCycle) && o.expireAt == WindowEnd(o.startedAt, o.billingCycle)
    && o.expireAt > o.startedAt
  }

  /** The orders of a tenant are all for one plan and its paid ones are the granted ones, each once. */
  ghost predicate BooksOk(s: State, tenant: nat, plan: nat) {
    var g := Grants(s, tenant);
    && (forall no :: no in s.orders && s.orders[no].tenantId == tenant ==> s.orders[no].planId == plan)
    && (forall no :: no in s.orders && s.orders[no].tenantId == tenant ==> (s.orders[no].status.Paid? <==> no in g))
    && (forall i :: 0 <= i < |g| ==> g[i] in s.orders && s.orders[g[i]].tenantId == tenant)
    && (forall i, j :: 0 <= i < j < |g| ==> g[i] != g[j])
  }

  /** The windows in the order granted: each starts at the end of the one before it or at its own payment,
      whichever is later, and the subscription runs to the end of the last. */
  ghost predicate WindowsOk(s: State, tenant: nat, plan: nat)
    requires BooksOk(s, tenant, plan)
  {
    var g := Grants(s, tenant);
    && (forall i :: 0 <= i < |g| ==> WindowOk(s.orders[g[i]]))
    && (forall i :: 0 < i < |g| ==> s.orders[g[i]].startedAt == Max(s.orders[g[i - 1]].expireAt, s.orders[g[i]].payTime))
    && (g != [] ==>
          && tenant in s.subs && s.subs[tenant].planId == plan
          && s.subs[tenant].startedAt == s.orders[g[|g| - 1]].startedAt
          && s.subs[tenant].expireAt == s.orders[g[|g| - 1]].expireAt)
  }

  ghost predicate Inv(s: State, tenant: nat, plan: nat) {
    BooksOk(s, tenant, plan) && WindowsOk(s, tenant, plan)
  }

  lemma CycleLength(start: int, cycle: string)
    ensures start + 28 * DAY <= WindowEnd(start, cycle) <= start + 366 * DAY
    ensures cycle != "yearly" ==> WindowEnd(start, cycle) <= start + 31 * DAY
    ensures cycle == "yearly" ==> WindowEnd(start, cycle) >= start + 365 * DAY
  {
    hide AddMonths, CivilOf, LeapAhead;
    MonthlyWindow(start);
    YearlyWindow(start);
  }

  lemma PaidOrderIsOk(s: State, no: string, transactionId: string, payTime: int)
    requires TakesEffect(s, no) && payTime > ZERO
    ensures
      var o := PaidOrder(s, s.orders[no], transactionId, payTime);
      && WindowOk(o)
      && (o.tenantId in s.subs && s.subs[o.tenantId].planId == o.planId && s.subs[o.tenantId].expireAt > ZERO ==>
            o.startedAt == Max(s.subs[o.tenantId].expireAt, payTime))
  {
    hide WindowEnd;
    CycleLength(WindowStart(s.subs, s.orders[no].tenantId, s.orders[no].planId, payTime), s.orders[no].billingCycle);
  }

  lemma GrantKeepsBooks(s: State, no: string, o: Order, tenant: nat, plan: nat)
    requires BooksOk(s, tenant, plan)
    requires no in s.orders && s.orders[no].status.Pending? && o.status.Paid?
    requires o.tenantId == s.orders[no].tenantId && o.planId == s.orders[no].planId
    ensures BooksOk(Grant(s, no, o), tenant, plan)
  {
    var s' := Grant(s, no, o);
    var g := Grants(s, tenant);
    if o.tenantId == tenant {
      assert Grants(s', tenant) == g + [no];
      assert no !in g;
      forall p | p in s'.orders && s'.orders[p].tenantId == tenant
        ensures s'.orders[p].status.Paid? <==> p in g + [no]
      {
        if p != no {
          assert p in g <==> p in g + [no];
        }
      }
    } else {
      assert Grants(s', tenant) == g;
    }
  }

  lemma GrantAddsWindow(s: State, no: string, o: Order, tenant: nat, plan: nat)
    requires Inv(s, tenant, plan) && o.tenantId == tenant && o.planId == plan && WindowOk(o)
    requires no in s.orders && s.orders[no].tenantId == tenant && s.orders[no].planId == plan && s.orders[no].status.Pending?
    requires Grants(s, tenant) != [] ==> o.startedAt == Max(s.subs[tenant].expireAt, o.payTime)
    ensures Inv(Grant(s, no, o), tenant, plan)
  {
    hide WindowOk, Max;
    var s' := Grant(s, no, o);
    var g := Grants(s, tenant);
    PaidWindow(o);
    GrantKeepsBooks(s, no, o, tenant, plan);
    assert Grants(s', tenant) == g + [no];
    assert no !in g;
    assert forall i :: 0 <= i < |g| ==> s'.orders[g[i]] == s.orders[g[i]];
  }

  lemma PaidWindow(o: Order)
    requires WindowOk(o)
    ensures o.status.Paid? && o.expireAt > ZERO
  {
  }

  lemma GrantKeepsOthers(s: State, no: string, o: Order, tenant: nat, plan: nat)
    requires Inv(s, tenant, plan) && o.tenantId != tenant && o.status.Paid?
    requires no in s.orders && s.orders[no].tenantId == o.tenantId && s.orders[no].planId == o.planId
    requires s.orders[no].status.Pending?
    ensures Inv(Grant(s, no, o), tenant, plan)
  {
    hide WindowOk, Max;
    var s' := Grant(s, no, o);
    GrantKeepsBooks(s, no, o, tenant, plan);
    assert Grants(s', tenant) == Grants(s, tenant);
  }

  lemma GrantKeepsInv(s: State, no: string, transactionId: string, payTime: int, tenant: nat, plan: nat)
    requires Inv(s, tenant, plan) && TakesEffect(s, no) && payTime > ZERO
    ensures Inv(Grant(s, no, PaidOrder(s, s.orders[no], transactionId, payTime)), tenant, plan)
  {
    hide WindowEnd, Grant, BooksOk;
    var o := PaidOrder(s, s.orders[no], transactionId, payTime);
    var g := Grants(s, tenant);
    PaidOrderIsOk(s, no, transactionId, payTime);
    if o.tenantId == tenant {
      BooksPlan(s, no, tenant, plan);
      LastWindow(s, tenant, plan);
      GrantAddsWindow(s, no, o, tenant, plan);
    } else {
      GrantKeepsOthers(s, no, o, tenant, plan);
    }
  }

  /** After a first grant the subscription is the tenant's plan and has an end. */
  lemma LastWindow(s: State, tenant: nat, plan: nat)
    requires Inv(s, tenant, plan)
    ensures Grants(s, tenant) != [] ==> Finite(s, tenant, plan)
  {
    hide WindowOk;
    var g := Grants(s, tenant);
    if g != [] {
      PaidWindow(s.orders[g[|g| - 1]]);
    }
  }

  lemma BooksPlan(s: State, no: string, tenant: nat, plan: nat)
    requires BooksOk(s, tenant, plan) && no in s.orders && s.orders[no].tenantId == tenant
    ensures s.orders[no].planId == plan
  {
  }

  lemma QuietStepKeepsInv(s: State, step: Step, tenant: nat, plan: nat)
    requires Inv(s, tenant, plan) && Steady(step, tenant, plan) && !step.Pay?
    ensures Inv(Next(s, step), tenant, plan)
  {
    hide WindowEnd, WindowOk, WindowStart, Max, AddMonths;
    var s' := Next(s, step);
    var g := Grants(s, tenant);
    assert Grants(s', tenant) == g;
    forall i | 0 <= i < |g|
      ensures g[i] in s'.orders && s'.orders[g[i]] == s.orders[g[i]]
    {
      SettledOnce(s, step, g[i]);
    }
    forall no | no in s'.orders && s'.orders[no].tenantId == tenant
      ensures s'.orders[no].planId == plan && (s'.orders[no].status.Paid? <==> no in g)
    {
      if no in s.orders {
        SettledOnce(s, step, no);
      }
    }
  }

  lemma NextKeepsInv(s: State, step: Step, tenant: nat, plan: nat)
    requires Inv(s, tenant, plan) && Steady(step, tenant, plan)
    ensures Inv(Next(s, step), tenant, plan)
  {
    hide Inv, Grant;
    match step
    case Pay(no, transactionId, payTime, now) =>
      if TakesEffect(s, no) {
        GrantKeepsInv(s, no, transactionId, EffectivePayTime(payTime, now), tenant, plan);
      }
    case _ => QuietStepKeepsInv(s, step, tenant, plan);
  }

  ghost predicate AllSteady(steps: seq<Step>, tenant: nat, plan: nat) {
    forall i :: 0 <= i < |steps| ==> Steady(steps[i], tenant, plan)
  }

  lemma {:induction false} RunKeepsInv(s: State, steps: seq<Step>, tenant: nat, plan: nat)
    requires Inv(s, tenant, plan) && AllSteady(steps, tenant, plan)
    ensures Inv(Run(s, steps), tenant, plan)
    decreases |steps|
  {
    hide Inv, Next;
    if steps != [] {
      RunKeepsInv(s, steps[..|steps| - 1], tenant, plan);
      NextKeepsInv(Run(s, steps[..|steps| - 1]), steps[|steps| - 1], tenant, plan);
    }
  }

  // ----- what every run keeps -----

  /** No orders yet; subscriptions may already exist. */
  predicate NoOrders(s: State) {
    s.orders == map[] && s.granted == map[]
  }

  lemma {:induction false} WindowsAscend(s: State, tenant: nat, plan: nat, i: nat, j: nat)
    requires Inv(s, tenant, plan) && i < j < |Grants(s, tenant)|
    ensures s.orders[Grants(s, tenant)[i]].expireAt <= s.orders[Grants(s, tenant)[j]].startedAt
    decreases j
  {
    hide WindowEnd;
    var g := Grants(s, tenant);
    assert WindowOk(s.orders[g[j - 1]]);
    if i < j - 1 {
      WindowsAscend(s, tenant, plan, i, j - 1);
    }
  }

  /** The paid windows of a tenant that buys one plan: every paid order has exactly one place among the
      grants, windows follow one another in that order without overlap, and a window starts later than
      its predecessor's end only when its payment came later. */
  lemma WindowsFollowOneAnother(s: State, steps: seq<Step>, tenant: nat, plan: nat)
    requires NoOrders(s) && AllSteady(steps, tenant, plan)
    ensures
      var e := Run(s, steps);
      var g := Grants(e, tenant);
      && (forall no :: no in e.orders && e.orders[no].tenantId == tenant ==> (e.orders[no].status.Paid? <==> no in g))
      && (forall i :: 0 <= i < |g| ==> g[i] in e.orders && WindowOk(e.orders[g[i]]))
      && (forall i, j :: 0 <= i < j < |g| ==> g[i] != g[j] && e.orders[g[i]].expireAt <= e.orders[g[j]].startedAt)
      && (forall i :: 0 < i < |g| ==>
            e.orders[g[i]].startedAt == Max(e.orders[g[i - 1]].expireAt, e.orders[g[i]].payTime))
  {
    hide WindowOk;
    RunKeepsInv(s, steps, tenant, plan);
    var e := Run(s, steps);
    var g := Grants(e, tenant);
    forall i, j | 0 <= i < j < |g|
      ensures e.orders[g[i]].expireAt <= e.orders[g[j]].startedAt
    {
      WindowsAscend(e, tenant, plan, i, j);
    }
  }

  /** Two paid orders of the tenant never share an instant. */
  lemma PaidWindowsAreDisjoint(s: State, steps: seq<Step>, tenant: nat, plan: nat, a: string, b: string, t: int)
    requires NoOrders(s) && AllSteady(steps, tenant, plan) && a != b
    requires
      var e := Run(s, steps);
      a in e.orders && b in e.orders && e.orders[a].tenantId == tenant && e.orders[b].tenantId == tenant
      && e.orders[a].status.Paid? && e.orders[b].status.Paid?
    ensures
      var e := Run(s, steps);
      !(e.orders[a].startedAt <= t < e.orders[a].expireAt && e.orders[b].startedAt <= t < e.orders[b].expireAt)
  {
    hide WindowOk, Run;
    WindowsFollowOneAnother(s, steps, tenant, plan);
    var g := Grants(Run(s, steps), tenant);
    var i :| 0 <= i < |g| && g[i] == a;
    var j :| 0 <= j < |g| && g[j] == b;
    if i < j {
      assert g[i] != g[j];
    } else {
      assert g[j] != g[i];
    }
  }

  /** The paid time of the first n grants. */
  function PaidTime(s: State, g: seq<string>): int
    requires forall i :: 0 <= i < |g| ==> g[i] in s.orders
  {
    if g == [] then 0
    else PaidTime(s, g[..|g| - 1]) + s.orders[g[|g| - 1]].expireAt - s.orders[g[|g| - 1]].startedAt
  }

  lemma {:induction false} PaidTimeFits(s: State, tenant: nat, plan: nat, n: nat)
    requires Inv(s, tenant, plan) && 0 < n <= |Grants(s, tenant)|
    ensures
      var g := Grants(s, tenant);
      PaidTime(s, g[..n]) <= s.orders[g[n - 1]].expireAt - s.orders[g[0]].startedAt
  {
    hide WindowOk;
    var g := Grants(s, tenant);
    assert g[..n][..n - 1] == g[..n - 1];
    if n > 1 {
      PaidTimeFits(s, tenant, plan, n - 1);
    }
  }

  /** Nothing paid for is lost: the subscription runs at least as long past the first start as the
      lengths of all paid windows together. */
  lemma NoPaidTimeIsLost(s: State, steps: seq<Step>, tenant: nat, plan: nat)
    requires NoOrders(s) && AllSteady(steps, tenant, plan) && Grants(Run(s, steps), tenant) != []
    ensures
      var e := Run(s, steps);
      var g := Grants(e, tenant);
      && tenant in e.subs && e.subs[tenant].planId == plan
      && (forall i :: 0 <= i < |g| ==> g[i] in e.orders)
      && e.subs[tenant].expireAt >= e.orders[g[0]].startedAt + PaidTime(e, g)
  {
    hide WindowOk, PaidTime;
    RunKeepsInv(s, steps, tenant, plan);
    var e := Run(s, steps);
    var g := Grants(e, tenant);
    PaidTimeFits(e, tenant, plan, |g|);
    assert g[..|g|] == g;
  }

  // ----- expiry -----

  predicate Finite(s: State, tenant: nat, plan: nat) {
    tenant in s.subs && s.subs[tenant].planId == plan && s.subs[tenant].expireAt > ZERO
  }

  lemma StepMovesExpiry(s: State, step: Step, tenant: nat, plan: nat)
    requires Inv(s, tenant, plan) && Steady(step, tenant, plan) && Finite(s, tenant, plan)
    ensures
      var s' := Next(s, step);
      && Finite(s', tenant, plan)
      && (Grants(s', tenant) == Grants(s, tenant) ==> s'.subs[tenant] == s.subs[tenant])
      && (Grants(s', tenant) != Grants(s, tenant) ==>
            |Grants(s', tenant)| > |Grants(s, tenant)| && s'.subs[tenant].expireAt > s.subs[tenant].expireAt)
  {
    hide WindowEnd;
    if step.Pay? && TakesEffect(s, step.no) {
      PaidOrderIsOk(s, step.no, step.transactionId, EffectivePayTime(step.payTime, step.now));
    }
  }

  /** Once the subscription has an end, that end only moves later, and moves exactly when a payment takes
      effect. */
  lemma {:induction false} ExpiryOnlyMovesLater(s: State, steps: seq<Step>, tenant: nat, plan: nat)
    requires Inv(s, tenant, plan) && AllSteady(steps, tenant, plan) && Finite(s, tenant, plan)
    ensures
      var e := Run(s, steps);
      && Finite(e, tenant, plan) && |Grants(e, tenant)| >= |Grants(s, tenant)|
      && e.subs[tenant].expireAt >= s.subs[tenant].expireAt
      && (e.subs[tenant].expireAt == s.subs[tenant].expireAt <==> |Grants(e, tenant)| == |Grants(s, tenant)|)
    decreases |steps|
  {
    hide Inv, Next;
    if steps != [] {
      var front := steps[..|steps| - 1];
      ExpiryOnlyMovesLater(s, front, tenant, plan);
      RunKeepsInv(s, front, tenant, plan);
      StepMovesExpiry(Run(s, front), steps[|steps| - 1], tenant, plan);
    }
  }

  // ----- the engine as it runs -----

  class PlanEngine {
    var state: State

    constructor (plans: map<nat, Plan>)
      ensures NoOrders(state) && state.plans == plans && state.subs == map[]
    {
      state := State(map[], plans, map[], map[]);
    }

    /** The subscription row is read under a lock. */
    method NextWindow(tenant: nat, plan: nat, cycle: string, payTime: int) returns (window: Result<(int, int), Error>)
      ensures window.Failure? <==> !ValidCycle(cycle)
      ensures window.Failure? ==> window.error == InvalidCycle
      ensures window.Success? ==> window.value.0 == WindowStart(state.subs, tenant, plan, payTime)
      ensures window.Success? ==> window.value.1 == WindowEnd(window.value.0, cycle)
      ensures window.Success? ==>
        if tenant in state.subs && state.subs[tenant].planId == plan
           && state.subs[tenant].expireAt != ZERO && state.subs[tenant].expireAt > payTime
        then window.value.0 == state.subs[tenant].expireAt
        else window.value.0 == payTime
    {
      if cycle != "monthly" && cycle != "yearly" {
        return Failure(InvalidCycle);
      }
      var startedAt := payTime;
      if tenant in state.subs {
        var sub := state.subs[tenant];
        if sub.planId == plan && sub.expireAt != ZERO && sub.expireAt > payTime {
          startedAt := sub.expireAt;
        }
      }
      if cycle == "yearly" {
        return Success((startedAt, AddMonths(startedAt, 12)));
      }
      return Success((startedAt, AddMonths(startedAt, 1)));
    }

    method UpsertSubscription(tenant: nat, plan: nat, startedAt: int, expireAt: int)
      modifies this
      ensures state == old(state).(subs := old(state).subs[tenant := Subscription(plan, startedAt, expireAt)])
    {
      state := state.(subs := state.subs[tenant := Subscription(plan, startedAt, expireAt)]);
    }

    method MarkPurchasePaid(no: string, transactionId: string, payTime: int, now: int) returns (result: Result<Order, Error>)
      modifies this
      ensures (state, result) == MarkPaid(old(state), no, transactionId, payTime, now)
    {
      if no !in state.orders {
        return Failure(OrderNotFound);
      }
      var record := state.orders[no];
      if record.status.Paid? {
        return Success(record);
      }
      if record.status.Closed? {
        return Failure(OrderStateInvalid);
      }
      var paidAt := payTime;
      if payTime == ZERO {
        paidAt := now;
      }
      var window := NextWindow(record.tenantId, record.planId, record.billingCycle, paidAt);
      if window.Failure? {
        return Failure(window.error);
      }
      if record.planId !in state.plans {
        return Failure(PlanNotFound);
      }
      UpsertSubscription(record.tenantId, record.planId, window.value.0, window.value.1);
      record := record.(transactionId := transactionId, payTime := paidAt,
                        startedAt := window.value.0, expireAt := window.value.1, status := Paid);
      state := state.(orders := state.orders[no := record],
                      granted := state.granted[record.tenantId := Grants(state, record.tenantId) + [no]]);
      result := Success(record);
    }

    method ClosePurchase(no: string, reason: string) returns (error: Option<Error>)
      modifies this
      ensures (state, error) == Close(old(state), no, reason)
    {
      if no !in state.orders {
        return Some(OrderNotFound);
      }
      var record := state.orders[no];
      if record.status.Paid? {
        return Some(OrderStateInvalid);
      }
      if record.status.Closed? {
        return None;
      }
      state := state.(orders := state.orders[no := record.(status := Closed, remark := reason)]);
      error := None;
    }

    method CreatePurchase(no: string, tenant: nat, plan: nat, cycle: string, deadline: int, now: int) returns (error: Option<Error>)
      modifies this
      ensures (state, error) == Create(old(state), no, tenant, plan, cycle, deadline, now)
    {
      if tenant == 0 || plan == 0 || no == "" {
        return Some(InvalidOrder);
      }
      if cycle != "monthly" && cycle != "yearly" {
        return Some(InvalidCycle);
      }
      if plan !in state.plans {
        return Some(PlanNotFound);
      }
      var row := state.plans[plan];
      if !row.enabled {
        return Some(PlanDisabled);
      }
      var amount := PriceFor(row, cycle);
      if amount <= 0 {
        return Some(FreePlan);
      }
      var payDeadline := deadline;
      if deadline == ZERO {
        payDeadline := now + PAY_DEADLINE;
      }
      if no in state.orders {
        return Some(DuplicateOrder);
      }
      var record := Order(tenant, plan, cycle, amount, payDeadline, Pending, "", ZERO, ZERO, ZERO, "");
      state := state.(orders := state.orders[no := record]);
      error := None;
    }
  }
}
