/** The rent-a-vehicle step of the customer menu, without its prompts: the vehicle must
    exist and have a unit, the customer must be under the number of concurrent rentals
    their badge allows, the end date must not precede the start date; the price is the
    number of days, both ends included, times the daily rate; the rental gets the next
    "R" identifier and is added through the rental store. Dates are day numbers, and
    `isoDate` is the text `LocalDate.toString` gives for one. */
module RentalDesk {
  import opened Wrappers
  import opened Text
  import opened Numbers
  import opened Records
  import opened Rentals
  import V = Vehicles
  import VS = VehicleServices
  import C = Customers
  import CS = CustomerServices
  import RS = RentalServices

  /** Why the step creates no rental. */
  datatype Refusal =
    | VehicleNotFound
    | NoUnits
    | LimitReached(active: nat, allowed: int)
    | EndBeforeStart
    | Unavailable(message: string)

  /** A rental that counts against the customer's allowance: theirs, and RENTED in some
      letter case. */
  predicate IsActive(r: Rental, customerId: string) {
    r.customerId == customerId && EqualsIgnoreCase("RENTED", r.status)
  }

  /** The number of the customer's active rentals. */
  function Active(rs: seq<Rental>, customerId: string): nat {
    if rs == [] then 0
    else Active(rs[..|rs| - 1], customerId) + if IsActive(rs[|rs| - 1], customerId) then 1 else 0
  }

  /** `ChronoUnit.DAYS.between(start, end) + 1`: the days of the stay, both ends included. */
  function Days(start: int, end: int): int {
    end - start + 1
  }

  /** `days * veh.getRatePerDay()`: the price of a stay. */
  function Price(days: int, rate: real): real {
    days as real * rate
  }

  /** The checks of the step on the stored vehicles and rentals: the refusal, or the
      rental it then asks the rental store to add. */
  function Proposal(vs: seq<V.VehicleRecord>, rs: seq<Rental>, customer: C.CustomerRecord, vid: string,
                    start: int, end: int, isoDate: int -> string): Result<Rental, Refusal>
  {
    match VS.FirstWithId(vs, Trim(vid))
    case None => Err(VehicleNotFound)
    case Some(i) =>
      Terms(vs[i], Active(rs, customer.id), CS.AllowedConcurrentRentals(Some(customer)), |rs|, customer.id,
            start, end, isoDate)
  }

  /** The checks once the vehicle `veh` is found, given the customer's active rentals, their
      allowance and the number of stored rentals. */
  function Terms(veh: V.VehicleRecord, active: nat, allowed: int, count: nat, customerId: string,
                 start: int, end: int, isoDate: int -> string): Result<Rental, Refusal>
  {
    if veh.quantity <= 0 then Err(NoUnits)
    else if active >= allowed then Err(LimitReached(active, allowed))
    else if end < start then Err(EndBeforeStart)
    else
      Ok(Rental(SequenceId('R', count + 1), customerId, veh.id, isoDate(start), isoDate(end),
                Price(Days(start, end), veh.ratePerDay), "RENTED"))
  }

  /** What the step does: the refusal of the checks, the refusal of `addRental` when it
      cannot take a unit, or the rental added. */
  function Plan(vs: seq<V.VehicleRecord>, rs: seq<Rental>, customer: C.CustomerRecord, vid: string,
                start: int, end: int, isoDate: int -> string): Result<Rental, Refusal>
  {
    match Proposal(vs, rs, customer, vid, start, end, isoDate)
    case Err(e) => Err(e)
    case Ok(r) =>
      if VS.Decremented(vs, r.vehicleId).None? then Err(Unavailable("No vehicles available for id: " + r.vehicleId))
      else Ok(r)
  }

  /** The step creates a rental exactly when the vehicle is stored under the trimmed id
      with a unit left, the customer is under their allowance and the dates are in order;
      the reservation in `addRental` then always succeeds. The rental is the customer's,
      for that vehicle, RENTED, priced at the days of the stay times the daily rate, and
      numbered after the stored rentals. */
  lemma PlanCases(vs: seq<V.VehicleRecord>, rs: seq<Rental>, customer: C.CustomerRecord, vid: string,
                  start: int, end: int, isoDate: int -> string)
    ensures var p := Plan(vs, rs, customer, vid, start, end, isoDate);
      var i := VS.FirstWithId(vs, Trim(vid));
      && (p.Ok? <==>
            && i.Some? && vs[i.value].quantity > 0
            && Active(rs, customer.id) < CS.AllowedConcurrentRentals(Some(customer))
            && start <= end)
      && (p.Ok? ==>
            && p.value.customerId == customer.id && p.value.vehicleId == Trim(vid)
            && p.value.status == "RENTED" && p.value.id == SequenceId('R', |rs| + 1)
            && Days(start, end) >= 1
            && p.value.totalPrice == Price(Days(start, end), vs[i.value].ratePerDay))
      && !(p.Err? && p.error.Unavailable?)
  {
    var i := VS.FirstWithId(vs, Trim(vid));
    if i.Some? {
      VS.FirstWithIdIs(vs, vs[i.value].id, i.value);
    }
  }

  /** A customer under their allowance who rents one more vehicle stays within it: after
      the new rental's line is appended, the next load counts at most the allowance. */
  lemma CreateKeepsLimit(vs: seq<V.VehicleRecord>, lines: seq<string>, customer: C.CustomerRecord,
                         vid: string, start: int, end: int, isoDate: int -> string)
    requires Plan(vs, RS.Stored(lines), customer, vid, start, end, isoDate).Ok?
    requires WellFormed(Plan(vs, RS.Stored(lines), customer, vid, start, end, isoDate).value)
    ensures var r := Plan(vs, RS.Stored(lines), customer, vid, start, end, isoDate).value;
      Active(RS.Stored(lines + [ToCSV(r)]), customer.id)
        == Active(RS.Stored(lines), customer.id) + 1
        <= CS.AllowedConcurrentRentals(Some(customer))
  {
    var rs := RS.Stored(lines);
    var r := Plan(vs, rs, customer, vid, start, end, isoDate).value;
    PlanCases(vs, rs, customer, vid, start, end, isoDate);
    RS.AddPersists(lines, r);
    var after := rs + [Reread(r)];
    assert after[..|after| - 1] == rs;
  }

  lemma {:induction false} ActiveUpdate(rs: seq<Rental>, i: nat, r: Rental, customerId: string)
    requires i < |rs|
    ensures Active(rs[i := r], customerId) + (if IsActive(rs[i], customerId) then 1 else 0)
         == Active(rs, customerId) + (if IsActive(r, customerId) then 1 else 0)
  {
    var n := |rs| - 1;
    if i < n {
      assert rs[i := r][..n] == rs[..n][i := r];
      ActiveUpdate(rs[..n], i, r, customerId);
    } else {
      assert rs[i := r][..n] == rs[..n];
    }
  }

  /** Returning a rental frees one of its customer's slots and no one else's. */
  lemma ReturnFreesSlot(rs: seq<Rental>, id: string, customerId: string)
    requires RS.Returned(rs, id).Some?
    ensures var i := RS.FirstReturnable(rs, id).value;
      Active(RS.Returned(rs, id).value, customerId)
        == Active(rs, customerId) - (if rs[i].customerId == customerId then 1 else 0)
  {
    var i := RS.FirstReturnable(rs, id).value;
    RS.ReturnedShape(rs, id);
    ActiveUpdate(rs, i, rs[i].(status := "RETURNED"), customerId);
  }

  /** The active-rental count of the allowance check. */
  method CountActive(list: seq<Rental>, customerId: string) returns (active: nat)
    ensures active == Active(list, customerId)
  {
    active := 0;
    for k := 0 to |list|
      invariant active == Active(list[..k], customerId)
    {
      assert list[..k + 1][..k] == list[..k];
      if list[k].customerId == customerId && EqualsIgnoreCase("RENTED", list[k].status) {
        active := active + 1;
      }
    }
    assert list[..|list|] == list;
  }

  /** The checks of the step, which write nothing. */
  method Check(desk: RS.RentalService, customer: C.CustomerRecord, vid: string,
               start: int, end: int, isoDate: int -> string)
    returns (result: Result<Rental, Refusal>)
    ensures result == Proposal(VS.Stored(desk.vehicles.lines), RS.Stored(desk.lines), customer, vid,
                               start, end, isoDate)
  {
    var veh := desk.vehicles.FindById(Trim(vid));
    if veh == null {
      return Err(VehicleNotFound);
    }
    var v := veh.Data();
    if v.quantity <= 0 {
      return Err(NoUnits);
    }
    var rentals := desk.LoadAll();
    var active := CountActive(rentals, customer.id);
    var allowed := CS.AllowedConcurrentRentals(Some(customer));
    if active >= allowed {
      return Err(LimitReached(active, allowed));
    }
    if end < start {
      return Err(EndBeforeStart);
    }
    var days := Days(start, end);
    var total := Price(days, v.ratePerDay);
    rentals := desk.LoadAll();
    var rid := SequenceId('R', |rentals| + 1);
    result := Ok(Rental(rid, customer.id, v.id, isoDate(start), isoDate(end), total, "RENTED"));
  }

  /** The step itself, for the signed-in `customer` and the vehicle id typed as `vid`:
      the refusal it reports, or the rental it added. A refusal writes nothing; a rental
      is added with its vehicle's unit taken. */
  method CreateRental(desk: RS.RentalService, customer: C.CustomerRecord, vid: string,
                      start: int, end: int, isoDate: int -> string)
    returns (result: Result<Rental, Refusal>)
    modifies desk, desk.vehicles
    ensures result == Plan(VS.Stored(old(desk.vehicles.lines)), RS.Stored(old(desk.lines)), customer, vid,
                           start, end, isoDate)
    ensures result.Err? ==> desk.lines == old(desk.lines) && desk.vehicles.lines == old(desk.vehicles.lines)
    ensures result.Ok? ==>
      && desk.lines == old(desk.lines) + [ToCSV(result.value)]
      && desk.vehicles.lines == VS.AfterDecrement(old(desk.vehicles.lines), result.value.vehicleId)
  {
    result := Check(desk, customer, vid, start, end, isoDate);
    if result.Err? {
      return;
    }
    var outcome := desk.AddRental(result.value);
    if outcome.Fail? {
      result := Err(Unavailable(outcome.error));
    }
  }
}
