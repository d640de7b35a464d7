/** Monthly counted entitlements. A call locks the tenant's subscription row first, so the calls of one
    tenant are single steps. */
module Quota {
  import opened Wrappers
  import opened Calendar

  datatype ValueType = Count | Boolean

  datatype Entitlement = Entitlement(valueType: ValueType, limit: int, enabled: bool)

  /** One consumption on record. */
  datatype Usage = Usage(
    tenantId: nat, code: string, operatorId: nat, value: int, sourceType: string, sourceKey: string, createdAt: int)

  /** Subscriptions name a plan; a plan grants entitlements by code. */
  datatype Catalogue = Catalogue(subs: map<nat, nat>, entitlements: map<(nat, string), Entitlement>)

  datatype State = State(catalogue: Catalogue, events: seq<Usage>)

  datatype Error = InvalidOrder | SubscriptionMissing | EntitlementMissing | QuotaExceeded(limit: int, used: int)

  datatype Call = Call(tenantId: nat, code: string, operatorId: nat, sourceType: string, sourceKey: string, now: int)

  predicate IsSpace(c: char) {
    var n := c as int;
    9 <= n <= 13 || n == 32 || n == 0x85 || n == 0xA0 || n == 0x1680 || 0x2000 <= n <= 0x200A
    || n == 0x2028 || n == 0x2029 || n == 0x202F || n == 0x205F || n == 0x3000
  }

  predicate Blank(s: string) {
    forall i :: 0 <= i < |s| ==> IsSpace(s[i])
  }

  /** An event recorded for the same source. */
  predicate SameSource(e: Usage, c: Call) {
    e.tenantId == c.tenantId && e.code == c.code && e.sourceType == c.sourceType && e.sourceKey == c.sourceKey
  }

  predicate IsReplay(events: seq<Usage>, c: Call) {
    !Blank(c.sourceKey) && exists i :: 0 <= i < |events| && SameSource(events[i], c)
  }

  /** What a tenant has consumed of an entitlement in a calendar month. */
  function Used(events: seq<Usage>, tenant: nat, code: string, month: int): int {
    if events == [] then 0
    else
      var e := events[|events| - 1];
      Used(events[..|events| - 1], tenant, code, month)
      + if e.tenantId == tenant && e.code == code && CivilOf(e.createdAt).month == month then e.value else 0
  }

  function EnforceCount(ent: Entitlement, used: int): Option<Error> {
    if !ent.valueType.Count? then Some(EntitlementMissing)
    else if !ent.enabled then Some(QuotaExceeded(0, 0))
    else if used >= ent.limit then Some(QuotaExceeded(ent.limit, used))
    else None
  }

  function Recorded(c: Call): Usage {
    Usage(c.tenantId, c.code, c.operatorId, 1, c.sourceType, c.sourceKey, c.now)
  }

  function Consume(s: State, c: Call): (State, Option<Error>) {
    if c.tenantId == 0 || c.code == "" || c.sourceType == "" then (s, Some(InvalidOrder))
    else if c.tenantId !in s.catalogue.subs then (s, Some(SubscriptionMissing))
    else if IsReplay(s.events, c) then (s, None)
    else
      var key := (s.catalogue.subs[c.tenantId], c.code);
      if key !in s.catalogue.entitlements then (s, Some(EntitlementMissing))
      else
        var error := EnforceCount(s.catalogue.entitlements[key], Used(s.events, c.tenantId, c.code, CivilOf(c.now).month));
        if error.Some? then (s, error) else (s.(events := s.events + [Recorded(c)]), None)
  }

  // ----- runs -----

  /** The catalogue and subscriptions may change in any way between calls. */
  datatype Step = DoConsume(call: Call) | SetCatalogue(catalogue: Catalogue)

  function Next(s: State, step: Step): State {
    match step
    case DoConsume(call) => Consume(s, call).0
    case SetCatalogue(catalogue) => s.(catalogue := catalogue)
  }

  function Run(s: State, steps: seq<Step>): State
    decreases |steps|
  {
    if steps == [] then s else Next(Run(s, steps[..|steps| - 1]), steps[|steps| - 1])
  }

  const Start: State := State(Catalogue(map[], map[]), [])

  /** Each non-blank source is on record at most once, and every event counts one. */
  ghost predicate Inv(s: State) {
    && (forall i :: 0 <= i < |s.events| ==> s.events[i].value == 1)
    && (forall i, j :: 0 <= i < j < |s.events| && !Blank(s.events[i].sourceKey) ==> !SameEventSource(s.events[i], s.events[j]))
  }

  predicate SameEventSource(a: Usage, b: Usage) {
    a.tenantId == b.tenantId && a.code == b.code && a.sourceType == b.sourceType && a.sourceKey == b.sourceKey
  }

  lemma NextKeepsInv(s: State, step: Step)
    requires Inv(s)
    ensures Inv(Next(s, step))
  {
    hide Used, CivilOf, Blank;
    var s' := Next(s, step);
    if s'.events != s.events {
      var c := step.call;
      assert s'.events == s.events + [Recorded(c)] && !IsReplay(s.events, c);
      forall i | 0 <= i < |s.events| && !Blank(s.events[i].sourceKey)
        ensures !SameEventSource(s.events[i], Recorded(c))
      {
        assert SameSource(s.events[i], c) ==> Blank(c.sourceKey);
      }
    }
  }

  lemma {:induction false} RunKeepsInv(s: State, steps: seq<Step>)
    requires Inv(s)
    ensures Inv(Run(s, steps))
    decreases |steps|
  {
    hide Inv, Next;
    if steps != [] {
      RunKeepsInv(s, steps[..|steps| - 1]);
      NextKeepsInv(Run(s, steps[..|steps| - 1]), steps[|steps| - 1]);
    }
  }

  /** However calls repeat and the catalogue changes, a non-blank source is charged at most once. */
  lemma ChargedAtMostOnce(steps: seq<Step>, i: nat, j: nat)
    requires i < j < |Run(Start, steps).events| && !Blank(Run(Start, steps).events[i].sourceKey)
    ensures !SameEventSource(Run(Start, steps).events[i], Run(Start, steps).events[j])
  {
    hide Run;
    RunKeepsInv(Start, steps);
  }

  lemma {:induction false} EventsOnlyGrow(s: State, steps: seq<Step>, e: Usage)
    requires e in s.events
    ensures e in Run(s, steps).events
    decreases |steps|
  {
    hide Used, CivilOf, IsReplay, EnforceCount;
    if steps != [] {
      EventsOnlyGrow(s, steps[..|steps| - 1], e);
    }
  }

  /** Once a call with a non-blank key has succeeded, every replay of it adds nothing; it succeeds as long as
      the tenant has a subscription, even when the entitlement is gone, disabled or used up. */
  lemma ReplaySucceeds(s: State, c: Call, steps: seq<Step>, again: Call)
    requires Consume(s, c).1.None? && !Blank(c.sourceKey)
    requires again.tenantId == c.tenantId && again.code == c.code
    requires again.sourceType == c.sourceType && again.sourceKey == c.sourceKey
    ensures
      var later := Run(Consume(s, c).0, steps);
      Consume(later, again) == (later, if c.tenantId in later.catalogue.subs then None else Some(SubscriptionMissing))
  {
    hide Used, CivilOf, Run, Blank;
    var s' := Consume(s, c).0;
    var e :| e in s'.events && SameSource(e, c) by {
      if IsReplay(s.events, c) {
        var i :| 0 <= i < |s.events| && SameSource(s.events[i], c);
        assert s.events[i] in s'.events;
      } else {
        assert Recorded(c) in s'.events;
      }
    }
    EventsOnlyGrow(s', steps, e);
    assert SameSource(e, again);
  }

  // ----- the limit -----

  lemma UsedAppend(events: seq<Usage>, e: Usage, tenant: nat, code: string, month: int)
    ensures Used(events + [e], tenant, code, month) == Used(events, tenant, code, month)
      + if e.tenantId == tenant && e.code == code && CivilOf(e.createdAt).month == month then e.value else 0
  {
    assert (events + [e])[..|events|] == events;
  }

  /** The recorded events that count against a tenant's entitlement between two instants. */
  function Counting(events: seq<Usage>, tenant: nat, code: string, from: int, to: int): set<nat> {
    set i: nat | i < |events| && events[i].tenantId == tenant && events[i].code == code && from <= events[i].createdAt < to
  }

  lemma {:induction false} UsedIsCounting(events: seq<Usage>, tenant: nat, code: string, month: int)
    requires forall i :: 0 <= i < |events| ==> events[i].value == 1
    ensures Used(events, tenant, code, month) ==
      |Counting(events, tenant, code, Date(Civil(month, 1, 0)), Date(Civil(month + 1, 1, 0)))|
  {
    hide CivilOf, Date;
    var from, to := Date(Civil(month, 1, 0)), Date(Civil(month + 1, 1, 0));
    if events == [] {
      assert Counting(events, tenant, code, from, to) == {};
    } else {
      var n := |events| - 1;
      UsedIsCounting(events[..n], tenant, code, month);
      MonthMembership(events[n].createdAt, month);
      var before := Counting(events[..n], tenant, code, from, to);
      if events[n].tenantId == tenant && events[n].code == code && from <= events[n].createdAt < to {
        assert Counting(events, tenant, code, from, to) == before + {n};
      } else {
        assert Counting(events, tenant, code, from, to) == before;
      }
    }
  }

  /** In every run, what a tenant has used of an entitlement in a month is the number of its recorded events for it
      between the month's first midnight and the next month's; other tenants, entitlements and months do not count. */
  lemma MonthIsCounted(steps: seq<Step>, tenant: nat, code: string, month: int)
    ensures
      var events := Run(Start, steps).events;
      Used(events, tenant, code, month) ==
        |Counting(events, tenant, code, Date(Civil(month, 1, 0)), Date(Civil(month + 1, 1, 0)))|
  {
    hide Run, Used, CivilOf;
    RunKeepsInv(Start, steps);
    UsedIsCounting(Run(Start, steps).events, tenant, code, month);
  }

  /** White space as trimming a source key understands it. */
  lemma BlankMeansWhiteSpace(s: string)
    ensures Blank(s) <==> forall i :: 0 <= i < |s| ==>
      s[i] as int in {9, 10, 11, 12, 13, 32, 0x85, 0xA0, 0x1680, 0x2000, 0x2001, 0x2002, 0x2003, 0x2004, 0x2005,
                      0x2006, 0x2007, 0x2008, 0x2009, 0x200A, 0x2028, 0x2029, 0x202F, 0x205F, 0x3000}
  {
  }

  /** A call without its particulars or a subscription is refused. Any other succeeds at once when its non-blank source
      is on record. Otherwise it is recorded, as one use by its operator from its source at its time, exactly when the
      tenant's plan grants the entitlement as an enabled count with something left of the calendar month; the error of
      every other call names what is missing. */
  lemma ConsumeOutcome(s: State, c: Call)
    ensures
      var (s', error) := Consume(s, c);
      && (error == Some(InvalidOrder) <==> c.tenantId == 0 || c.code == "" || c.sourceType == "")
      && (error == Some(SubscriptionMissing) <==>
            c.tenantId != 0 && c.code != "" && c.sourceType != "" && c.tenantId !in s.catalogue.subs)
      && (error != None ==> s' == s)
    ensures c.tenantId != 0 && c.code != "" && c.sourceType != "" && c.tenantId in s.catalogue.subs ==>
      var (s', error) := Consume(s, c);
      var key := (s.catalogue.subs[c.tenantId], c.code);
      var used := Used(s.events, c.tenantId, c.code, CivilOf(c.now).month);
      if !Blank(c.sourceKey) && exists e :: e in s.events && e.tenantId == c.tenantId && e.code == c.code
                                              && e.sourceType == c.sourceType && e.sourceKey == c.sourceKey
      then error == None && s' == s
      else
        && (error == None <==>
              && key in s.catalogue.entitlements && s.catalogue.entitlements[key].valueType == Count
              && s.catalogue.entitlements[key].enabled && used < s.catalogue.entitlements[key].limit)
        && s'.catalogue == s.catalogue
        && s'.events == s.events + (if error == None
             then [Usage(c.tenantId, c.code, c.operatorId, 1, c.sourceType, c.sourceKey, c.now)] else [])
        && (error == Some(EntitlementMissing) <==>
              key !in s.catalogue.entitlements || s.catalogue.entitlements[key].valueType != Count)
        && (error.Some? && error.value.QuotaExceeded? ==>
              error.value == if s.catalogue.entitlements[key].enabled
                             then QuotaExceeded(s.catalogue.entitlements[key].limit, used) else QuotaExceeded(0, 0))
  {
    hide CivilOf, Blank, Used;
    if e :| e in s.events && SameSource(e, c) {
      var i :| 0 <= i < |s.events| && s.events[i] == e;
      assert SameSource(s.events[i], c);
    }
    assert s.events + [] == s.events;
  }

  /** Right after a recorded consumption the month's total is one more than before and within the limit
      then in force; a call that records nothing leaves the table as it was. */
  lemma RecordedWithinLimit(s: State, c: Call)
    ensures
      var s' := Consume(s, c).0;
      var key := if c.tenantId in s.catalogue.subs then (s.catalogue.subs[c.tenantId], c.code) else (0, "");
      var before, after := Used(s.events, c.tenantId, c.code, CivilOf(c.now).month), Used(s'.events, c.tenantId, c.code, CivilOf(c.now).month);
      s'.events != s.events ==>
        && key in s.catalogue.entitlements && s.catalogue.entitlements[key].enabled
        && after == before + 1 <= s.catalogue.entitlements[key].limit
  {
    hide CivilOf;
    UsedAppend(s.events, Recorded(c), c.tenantId, c.code, CivilOf(c.now).month);
  }

  /** A catalogue in which no plan grants more than `bound` of a code. */
  ghost predicate Bounded(catalogue: Catalogue, code: string, bound: int) {
    forall plan :: (plan, code) in catalogue.entitlements ==> catalogue.entitlements[(plan, code)].limit <= bound
  }

  ghost predicate AllBounded(steps: seq<Step>, code: string, bound: int) {
    forall i :: 0 <= i < |steps| && steps[i].SetCatalogue? ==> Bounded(steps[i].catalogue, code, bound)
  }

  /** No run takes a calendar month over the highest limit ever in force, whichever clocks the calls saw. */
  lemma {:induction false} MonthWithinBound(steps: seq<Step>, tenant: nat, code: string, month: int, bound: nat)
    requires AllBounded(steps, code, bound)
    ensures Used(Run(Start, steps).events, tenant, code, month) <= bound
    ensures Bounded(Run(Start, steps).catalogue, code, bound)
  {
    hide CivilOf, IsReplay;
    if steps != [] {
      var front, step := steps[..|steps| - 1], steps[|steps| - 1];
      MonthWithinBound(front, tenant, code, month, bound);
      var s := Run(Start, front);
      if step.DoConsume? && Next(s, step).events != s.events {
        RecordedWithinLimit(s, step.call);
        UsedAppend(s.events, Recorded(step.call), tenant, code, month);
      }
    }
  }

  /** Calls of one tenant for one code within one month, without source keys. */
  ghost predicate Keyless(steps: seq<Step>, tenant: nat, code: string, month: int) {
    forall i :: 0 <= i < |steps| ==>
      && steps[i].DoConsume? && steps[i].call.tenantId == tenant && steps[i].call.code == code
      && steps[i].call.sourceType != "" && Blank(steps[i].call.sourceKey) && CivilOf(steps[i].call.now).month == month
  }

  /** The limit is met exactly: of n calls the first `limit` are recorded and the rest refused. */
  lemma {:induction false} LimitIsMet(s: State, steps: seq<Step>, tenant: nat, code: string, month: int, plan: nat, limit: nat)
    requires tenant != 0 && code != "" && tenant in s.catalogue.subs && s.catalogue.subs[tenant] == plan
    requires (plan, code) in s.catalogue.entitlements
    requires s.catalogue.entitlements[(plan, code)] == Entitlement(Count, limit, true)
    requires s.events == [] && Keyless(steps, tenant, code, month)
    ensures Run(s, steps).catalogue == s.catalogue
    ensures Used(Run(s, steps).events, tenant, code, month) == if |steps| <= limit then |steps| else limit
    decreases |steps|
  {
    hide CivilOf, Blank;
    if steps != [] {
      var front, step := steps[..|steps| - 1], steps[|steps| - 1];
      LimitIsMet(s, front, tenant, code, month, plan, limit);
      UsedAppend(Run(s, front).events, Recorded(step.call), tenant, code, month);
    }
  }

  // ----- the engine as it runs -----

  class UsageEngine {
    var state: State

    constructor ()
      ensures state == Start
    {
      state := Start;
    }

    /** COUNT over events of the same source. */
    method CountSource(c: Call) returns (existing: nat)
      ensures existing > 0 <==> exists i :: 0 <= i < |state.events| && SameSource(state.events[i], c)
    {
      existing := 0;
      for k := 0 to |state.events|
        invariant existing > 0 <==> exists i :: 0 <= i < k && SameSource(state.events[i], c)
      {
        if SameSource(state.events[k], c) {
          existing := existing + 1;
        }
      }
    }

    /** SUM over events created from the month's first midnight up to the next one's. */
    method SumMonth(tenant: nat, code: string, now: int) returns (used: int)
      ensures used == Used(state.events, tenant, code, CivilOf(now).month)
    {
      hide CivilOf;
      var month := CivilOf(now).month;
      var monthStart := Date(Civil(month, 1, 0));
      var monthEnd := AddMonths(monthStart, 1);
      NextMonth(month);
      used := 0;
      for k := 0 to |state.events|
        invariant used == Used(state.events[..k], tenant, code, month)
      {
        var e := state.events[k];
        MonthMembership(e.createdAt, month);
        UsedAppend(state.events[..k], e, tenant, code, month);
        assert state.events[..k + 1] == state.events[..k] + [e];
        if e.tenantId == tenant && e.code == code && monthStart <= e.createdAt && e.createdAt < monthEnd {
          used := used + e.value;
        }
      }
      assert state.events[..|state.events|] == state.events;
    }

    lemma NextMonth(month: int)
      ensures AddMonths(Date(Civil(month, 1, 0)), 1) == Date(Civil(month + 1, 1, 0))
    {
      CivilRoundTrip(0, Civil(month, 1, 0));
    }

    method ConsumeMonthly(c: Call) returns (error: Option<Error>)
      modifies this
      ensures (state, error) == Consume(old(state), c)
    {
      hide CivilOf, Blank, Used;
      if c.tenantId == 0 || c.code == "" || c.sourceType == "" {
        return Some(InvalidOrder);
      }
      if c.tenantId !in state.catalogue.subs {
        return Some(SubscriptionMissing);
      }
      var plan := state.catalogue.subs[c.tenantId];
      if !Blank(c.sourceKey) {
        var existing := CountSource(c);
        if existing > 0 {
          return None;
        }
      }
      if (plan, c.code) !in state.catalogue.entitlements {
        return Some(EntitlementMissing);
      }
      var ent := state.catalogue.entitlements[(plan, c.code)];
      var used := SumMonth(c.tenantId, c.code, c.now);
      error := EnforceCount(ent, used);
      if error.None? {
        state := state.(events := state.events + [Recorded(c)]);
      }
    }
  }
}
