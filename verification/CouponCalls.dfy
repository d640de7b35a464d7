/** What each call of the coupon store does to the columns of its rows. */
module CouponCalls {
  import opened Wrappers
  import opened Transactions
  import opened Numbering
  import opened Coupons
  import opened CouponStore

  // ----- issuing -----

  lemma HandedOut(t: Template, id: nat, holders: seq<nat>, now: int)
    ensures |NewCoupons(t, id, holders, now)| == |holders|
    ensures forall i :: 0 <= i < |holders| ==>
      NewCoupons(t, id, holders, now)[i] ==
        Coupon(t.tenantId, id, holders[i], t.name, t.amount, t.minSpend, t.shopScoped, t.verifyShopId,
                Unused, now + t.validDays * 86_400_000_000_000, None, Wallet.Ref("", 0, ""))
  {
  }

  /** An issue goes through exactly for the tenant's own enabled template with enough left. It hands each holder one
      coupon with the template's name, amount, minimum spend and shop, unused and valid for the template's days, and
      raises the template's counter; everything else stays. Otherwise nothing happens. */
  lemma IssueHandsOut(s: Store, call: Call)
    requires call.DoIssue? && forall id :: id in s.rows ==> id < call.firstId
    ensures
      var (after, answer) := Do(s, call);
      answer.Issued? && (answer.issued.Success? <==>
        && call.templateId in s.templates && s.templates[call.templateId].tenantId == call.tenantId
        && s.templates[call.templateId].enabled
        && (s.templates[call.templateId].totalCount <= 0
            || s.templates[call.templateId].issuedCount + |call.holders| <= s.templates[call.templateId].totalCount))
    ensures
      var (after, answer) := Do(s, call);
      if answer.issued.Success? then
        var t := s.templates[call.templateId];
        && answer.issued.value == |call.holders|
        && after.templates == s.templates[call.templateId := t.(issuedCount := t.issuedCount + |call.holders|)]
        && (forall id :: id in s.rows ==> id in after.rows && after.rows[id] == s.rows[id])
        && (forall id :: id in after.rows <==> id in s.rows || call.firstId <= id < call.firstId + |call.holders|)
        && forall i: nat :: i < |call.holders| ==>
             after.rows[call.firstId + i] ==
               Coupon(call.tenantId, call.templateId, call.holders[i], t.name, t.amount, t.minSpend, t.shopScoped,
                      t.verifyShopId, Unused, call.now + t.validDays * 86_400_000_000_000, None, Wallet.Ref("", 0, ""))
      else after == s
  {
    hide Do, Grown, NewCoupons;
    IssueOutcome(s, call);
    if IssueRefusal(s.templates, call.templateId, call.tenantId, |call.holders|).None? {
      var t := s.templates[call.templateId];
      GrownRows(s.rows, NewCoupons(t, call.templateId, call.holders, call.now), call.firstId);
      HandedOut(t, call.templateId, call.holders, call.now);
    }
  }

  // ----- listing -----

  /** A coupon as it stands after a sweep. */
  function AtTime(coupon: Coupon, now: int): Coupon {
    if coupon.status == Unused && coupon.validUntil < now then coupon.(status := Expired) else coupon
  }

  /** A listing shows exactly the tenant's coupons of the given holder, or of every holder when none is given, in the
      given state, if any: unused ones past their validity count as expired, and are so from then on. */
  lemma ListingIsExact(s: Store, tenantId: nat, holderId: nat, status: Option<Status>, now: int)
    ensures
      var (after, answer) := Do(s, DoList(tenantId, holderId, status, now));
      && answer.Listed? && after.templates == s.templates && after.rows.Keys == s.rows.Keys
      && (forall id :: id in s.rows ==>
            after.rows[id] == if s.rows[id].tenantId == tenantId then AtTime(s.rows[id], now) else s.rows[id])
      && (forall id :: id in answer.coupons <==>
            && id in s.rows && s.rows[id].tenantId == tenantId
            && (holderId == 0 || s.rows[id].holderId == holderId)
            && (status == None || AtTime(s.rows[id], now).status == status.value))
      && (forall id :: id in answer.coupons ==> answer.coupons[id] == AtTime(s.rows[id], now))
  {
  }

  // ----- claiming -----

  /** A claim goes through exactly for an unused coupon of this tenant and holder that is still valid, whose minimum
      spend the order meets and, when a shop is given, that is not bound to another shop. It takes the coupon's amount
      and name, marks the coupon used with the time and the reference, and counts the use; a refused one changes
      nothing. */
  lemma ClaimOutcome(s: Store, c: Claim)
    ensures
      var (after, answer) := Do(s, DoClaim(c));
      answer.Claimed? && (answer.claimed.Success? <==>
        && c.couponId in s.rows && s.rows[c.couponId].tenantId == c.tenantId
        && s.rows[c.couponId].holderId == c.holderId && s.rows[c.couponId].status == Unused
        && c.now <= s.rows[c.couponId].validUntil && s.rows[c.couponId].minSpend <= c.orderAmount
        && (c.shop == None || !s.rows[c.couponId].shopScoped || s.rows[c.couponId].verifyShopId == c.shop.value))
    ensures
      var (after, answer) := Do(s, DoClaim(c));
      if answer.claimed.Success? then
        var coupon := s.rows[c.couponId];
        && answer.claimed.value == (coupon.amount, coupon.name)
        && after.rows == s.rows[c.couponId := coupon.(status := Used, usedAt := Some(c.now), ref := c.ref)]
        && after.templates.Keys == s.templates.Keys
        && forall t :: t in s.templates ==>
             after.templates[t] ==
               if t == coupon.templateId then s.templates[t].(usedCount := s.templates[t].usedCount + 1) else s.templates[t]
      else
        && after == s
        && (answer.claimed.error == CouponNotFound <==>
              c.couponId !in s.rows || s.rows[c.couponId].tenantId != c.tenantId)
        && (answer.claimed.error == CouponShopMismatch <==>
              && c.couponId in s.rows && s.rows[c.couponId].tenantId == c.tenantId
              && s.rows[c.couponId].holderId == c.holderId && s.rows[c.couponId].status == Unused
              && c.now <= s.rows[c.couponId].validUntil && s.rows[c.couponId].minSpend <= c.orderAmount)
  {
    hide AtOnce;
  }

  /** A coupon just issued can be claimed by its holder, at any shop it is not kept from, as long as its days have not
      passed and the order meets the template's minimum, and is worth the template's amount. */
  lemma IssuedCanBeClaimed(s: Store, call: Call, i: nat, c: Claim)
    requires call.DoIssue? && forall id :: id in s.rows ==> id < call.firstId
    requires Do(s, call).1.issued.Success? && i < |call.holders|
    requires c.couponId == call.firstId + i && c.tenantId == call.tenantId && c.holderId == call.holders[i]
    ensures
      var t, answer := s.templates[call.templateId], Do(Do(s, call).0, DoClaim(c)).1;
      && (answer.claimed.Success? <==>
            && c.now <= call.now + t.validDays * 86_400_000_000_000 && t.minSpend <= c.orderAmount
            && (c.shop == None || !t.shopScoped || t.verifyShopId == c.shop.value))
      && (answer.claimed.Success? ==> answer.claimed.value == (t.amount, t.name))
  {
    hide Do;
    IssueHandsOut(s, call);
    ClaimOutcome(Do(s, call).0, c);
    var after := Do(s, call).0;
    assert after.rows[call.firstId + i].holderId == call.holders[i];
  }

  // ----- templates -----

  /** Creating takes a free id and starts the counters at zero; updating and deleting take the tenant's own template.
      An update keeps both counters, and a template that has coupons cannot be deleted. */
  lemma TemplateOutcome(rows: Rows, templates: Templates, op: Op)
    requires op.CreateTemplate? || op.UpdateTemplate? || op.DeleteTemplate?
    ensures
      var (added, after) := AtOnce(op, rows, templates);
      && added == map[]
      && match op
         case CreateTemplate(id, t) =>
           if id in templates then after == templates
           else after == templates[id := t.(issuedCount := 0, usedCount := 0, enabled := true)]
         case UpdateTemplate(id, tenantId, t) =>
           if id in templates && templates[id].tenantId == tenantId then
             && after.Keys == templates.Keys && (forall other :: other in templates && other != id ==> after[other] == templates[other])
             && after[id].issuedCount == templates[id].issuedCount && after[id].usedCount == templates[id].usedCount
             && after[id].tenantId == tenantId
             && after[id] == t.(tenantId := tenantId, issuedCount := after[id].issuedCount, usedCount := after[id].usedCount)
           else after == templates
         case DeleteTemplate(id, tenantId) =>
           if id in templates && templates[id].tenantId == tenantId && (forall c :: c in rows ==> rows[c].templateId != id)
           then after == templates - {id}
           else after == templates
         case _ => true
  {
    if op.DeleteTemplate? {
      assert CouponsOf(rows, op.templateId) == {} <==> forall c :: c in rows ==> rows[c].templateId != op.templateId by {
        if c :| c in rows && rows[c].templateId == op.templateId {
          assert c in CouponsOf(rows, op.templateId);
        }
      }
    }
  }
}
