/** Slot accounting and the scheduled-order tasks of app/services/reservations.py. */
module Reservations {
  import opened Wrappers
  import opened Tables
  import opened OpenHours

  datatype Shop = Shop(
    reservationEnabled: bool, utcOffset: int, openHours: seq<Entry>,
    reminderMinutes: int, slotMinutes: int, slotCapacity: int)

  datatype Plan = Plan(scheduledAt: int, slotStart: int, slotEnd: int)

  datatype PlanError = Disabled | OutsideOpenHours | NotInFuture | BeyondOneDay | TooSoon | SlotFull

  // ---------- when ----------

  function ToLocal(shop: Shop, t: int): Local {
    Local((t + shop.utcOffset) / DAY, (t + shop.utcOffset) % DAY)
  }

  function ToUtc(shop: Shop, t: Local): int { t.day * DAY + t.tick - shop.utcOffset }

  function PlanTime(shop: Shop, now: int, wanted: int): Result<Plan, PlanError> {
    if !shop.reservationEnabled then Err(Disabled)
    else
      var aligned := if shop.openHours == [] then Some(ToLocal(shop, wanted))
                     else Align(ToLocal(shop, wanted), shop.openHours);
      if aligned == None then Err(OutsideOpenHours)
      else
        var target := ToUtc(shop, aligned.value);
        if target <= now then Err(NotInFuture)
        else if target - now > DAY then Err(BeyondOneDay)
        else if target < now + Max(shop.reminderMinutes, 5) * MINUTE then Err(TooSoon)
        else
          var length := Max(shop.slotMinutes, 5);
          var start := ToUtc(shop, FloorToSlot(aligned.value, length));
          Ok(Plan(target, start, start + length * MINUTE))
  }

  lemma LocalRoundTrip(shop: Shop, t: int)
    ensures Proper(ToLocal(shop, t)) && ToUtc(shop, ToLocal(shop, t)) == t
    ensures ToLocal(shop, t).day * DAY + ToLocal(shop, t).tick == t + shop.utcOffset
  {
  }

  /**
   An accepted time is at least the lead time and at most a day away, is no earlier
   than asked and lies in its slot; it is the wanted one without opening hours, and
   in opening hours that do not run past midnight.
   */
  lemma PlanFits(shop: Shop, now: int, wanted: int, plan: Plan)
    requires PlanTime(shop, now, wanted) == Ok(plan)
    ensures now + Max(shop.reminderMinutes, 5) * MINUTE <= plan.scheduledAt <= now + DAY
    ensures wanted <= plan.scheduledAt && plan.slotStart <= plan.scheduledAt < plan.slotEnd
    ensures plan.slotEnd == plan.slotStart + Max(shop.slotMinutes, 5) * MINUTE
    ensures shop.openHours == [] ==> plan.scheduledAt == wanted
    ensures shop.openHours != [] && Ordered(shop.openHours) ==>
      OpenAt(ToLocal(shop, plan.scheduledAt), shop.openHours)
  {
    hide Align, OpenAt, FloorToSlot, Ordered;
    var local := ToLocal(shop, wanted);
    LocalRoundTrip(shop, wanted);
    var r := local;
    if shop.openHours != [] {
      r := Align(local, shop.openHours).value;
      AlignedLater(local, shop.openHours, r);
      AlignLeast(local, shop.openHours, r);
    }
    assert ToLocal(shop, plan.scheduledAt) == r;
    SlotContains(r, Max(shop.slotMinutes, 5));
  }

  /**
   Without opening hours a time is accepted exactly when reservations are on and it is
   the lead time to a day away; with them, when that holds of the aligned time.
   */
  lemma PlanExactly(shop: Shop, now: int, wanted: int)
    ensures PlanTime(shop, now, wanted).Ok? <==>
            && shop.reservationEnabled && (shop.openHours != [] ==> !Unconfigured(shop.openHours))
            && exists target ::
                 && now + Max(shop.reminderMinutes, 5) * MINUTE <= target <= now + DAY
                 && if shop.openHours == [] then target == wanted
                    else Align(ToLocal(shop, wanted), shop.openHours) == Some(ToLocal(shop, target))
  {
    hide Align, Unconfigured, FloorToSlot;
    LocalRoundTrip(shop, wanted);
    if shop.openHours != [] {
      AlignNone(ToLocal(shop, wanted), shop.openHours);
      if Align(ToLocal(shop, wanted), shop.openHours).Some? {
        var r := Align(ToLocal(shop, wanted), shop.openHours).value;
        AlignedLater(ToLocal(shop, wanted), shop.openHours, r);
        assert ToLocal(shop, ToUtc(shop, r)) == r;
        forall target | ToLocal(shop, target) == r
          ensures target == ToUtc(shop, r)
        {
          LocalRoundTrip(shop, target);
        }
      }
    }
  }

  // ---------- how many ----------

  /** The unique key on slot_start makes the position well defined. */
  function FindSlot(slots: seq<Slot>, start: int): (r: Option<nat>)
    ensures r.Some? ==> r.value < |slots| && slots[r.value].start == start
    ensures r.None? ==> forall j :: 0 <= j < |slots| ==> slots[j].start != start
  {
    First(slots, (slot: Slot) => slot.start == start)
  }

  function Reserve(slots: seq<Slot>, start: int, end: int, capacity: int): Result<(seq<Slot>, nat), PlanError> {
    match FindSlot(slots, start)
    case None =>
      Ok((slots + [Slot(start, end, Max(capacity, 1), 1)], |slots|))
    case Some(j) =>
      if slots[j].reserved >= slots[j].capacity then Err(SlotFull)
      else Ok((slots[j := slots[j].(end := end, reserved := slots[j].reserved + 1)], j))
  }

  /**
   A reservation is refused exactly when a slot of that start is full.  It counts the
   slot once more, or opens one with the configured capacity, at least one.
   */
  lemma ReserveExactly(slots: seq<Slot>, start: int, end: int, capacity: int)
    requires forall i, j :: 0 <= i < j < |slots| ==> slots[i].start != slots[j].start
    ensures Reserve(slots, start, end, capacity).Err? <==>
            exists j :: 0 <= j < |slots| && slots[j].start == start && slots[j].reserved >= slots[j].capacity
    ensures Reserve(slots, start, end, capacity).Ok? ==>
            var (after, j) := Reserve(slots, start, end, capacity).value;
            && j < |after| && after[j].start == start && after[j].end == end
            && (if j < |slots| then
                  && |after| == |slots| && slots[j].start == start
                  && after[j].capacity == slots[j].capacity && after[j].reserved == slots[j].reserved + 1
                else
                  && |after| == |slots| + 1 && after[j].reserved == 1
                  && after[j].capacity == (if capacity >= 1 then capacity else 1))
            && forall i :: 0 <= i < |slots| && i != j ==> after[i] == slots[i]
  {
  }

  function Release(slots: seq<Slot>, slot: Option<nat>): seq<Slot> {
    if slot.None? || slot.value >= |slots| then slots
    else
      var j := slot.value;
      slots[j := slots[j].(reserved := if slots[j].reserved == 0 then 0 else slots[j].reserved - 1)]
  }

  method ReserveSlot(db: Session, start: int, end: int, capacity: int) returns (r: Result<nat, PlanError>)
    modifies db
    ensures match Reserve(old(db.slots), start, end, capacity)
      case Err(e) => r == Err(e)
      case Ok((slots, j)) => r == Ok(j) && db.View() == old(db.View()).(slots := slots)
  {
    var found := FindSlot(db.slots, start);
    var j: nat;
    if found.None? {
      j := |db.slots|;
      db.slots := db.slots + [Slot(start, end, Max(capacity, 1), 0)];
    } else {
      j := found.value;
      db.slots := db.slots[j := db.slots[j].(end := end)];
    }
    if db.slots[j].reserved >= db.slots[j].capacity {
      return Err(SlotFull);
    }
    db.slots := db.slots[j := db.slots[j].(reserved := db.slots[j].reserved + 1)];
    return Ok(j);
  }

  method ReleaseSlot(db: Session, slot: Option<nat>)
    modifies db
    ensures db.View() == old(db.View()).(slots := Release(old(db.slots), slot))
  {
    if slot.None? || slot.value >= |db.slots| {
      return;
    }
    var j := slot.value;
    if db.slots[j].reserved <= 0 {
      db.slots := db.slots[j := db.slots[j].(reserved := 0)];
      return;
    }
    db.slots := db.slots[j := db.slots[j].(reserved := db.slots[j].reserved - 1)];
  }

  // ---------- activation ----------

  predicate IsDue(o: Order, now: int) {
    o.isScheduled && o.scheduledAt.Some? && o.scheduledAt.value <= now && o.status == Paid && o.payment == Settled
  }

  function Activated(orders: seq<Order>, now: int): (r: seq<Order>)
    ensures |r| == |orders|
    ensures forall k :: 0 <= k < |orders| ==>
      r[k] == if IsDue(orders[k], now) then orders[k].(status := InProduction) else orders[k]
  {
    seq(|orders|, k requires 0 <= k < |orders| =>
      if IsDue(orders[k], now) then orders[k].(status := InProduction) else orders[k])
  }

  function Activate(s: Store, shop: Shop, now: int): Store {
    if shop.reservationEnabled then s.(orders := Activated(s.orders, now)) else s
  }

  method ActivateDueOrders(db: Session, shop: Shop, now: int) returns (progressed: seq<nat>)
    modifies db
    ensures db.View() == Activate(old(db.View()), shop, now)
    ensures forall k :: k in progressed <==>
      0 <= k < |old(db.orders)| && shop.reservationEnabled && IsDue(old(db.orders)[k], now)
  {
    progressed := [];
    if !shop.reservationEnabled {
      return;
    }
    var rows := db.orders;
    for k := 0 to |rows|
      invariant |db.orders| == |rows|
      invariant forall i :: 0 <= i < k ==> db.orders[i] == Activated(rows, now)[i]
      invariant forall i :: k <= i < |rows| ==> db.orders[i] == rows[i]
      invariant db.View() == old(db.View()).(orders := db.orders)
      invariant forall i :: i in progressed <==> 0 <= i < k && IsDue(rows[i], now)
    {
      var o := rows[k];
      if !o.isScheduled || o.scheduledAt.None? {
        continue;
      }
      if o.scheduledAt.value > now {
        continue;
      }
      if o.status != Paid || o.payment != Settled {
        continue;
      }
      db.orders := db.orders[k := o.(status := InProduction)];
      progressed := progressed + [k];
    }
    assert db.orders == Activated(rows, now);
  }
}
