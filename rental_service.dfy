/** The rentals file and the rental operations on it: opening a rental reserves a unit of
    the vehicle first; returning one marks it RETURNED, gives the unit back and credits the
    customer with a completed rental; the income is the sum of all prices. */
module RentalServices {
  import opened Wrappers
  import opened Text
  import opened Numbers
  import opened Records
  import opened Rentals
  import VS = VehicleServices
  import CS = CustomerServices

  /** What `loadAll` returns for the file `lines`. */
  function Stored(lines: seq<string>): seq<Rental> {
    LoadRecords(lines, FromCSV)
  }

  /** The test of `returnRental`: the id is exactly `id` and the status is RENTED in some
      letter case. */
  predicate Returnable(r: Rental, id: string) {
    r.id == id && EqualsIgnoreCase("RENTED", r.status)
  }

  /** The position of the first returnable rental with the id. */
  function FirstReturnable(rs: seq<Rental>, id: string): (r: Option<nat>)
    ensures r.Some? ==> r.value < |rs| && Returnable(rs[r.value], id)
    ensures r.Some? ==> forall j :: 0 <= j < r.value ==> !Returnable(rs[j], id)
    ensures r.None? ==> forall j :: 0 <= j < |rs| ==> !Returnable(rs[j], id)
  {
    if rs == [] then None
    else if Returnable(rs[0], id) then Some(0)
    else match FirstReturnable(rs[1..], id)
      case Some(i) => Some(i + 1)
      case None => None
  }

  /** The list `returnRental` saves, or None when it writes nothing. */
  function Returned(rs: seq<Rental>, id: string): Option<seq<Rental>> {
    match FirstReturnable(rs, id)
    case None => None
    case Some(i) => Some(rs[i := rs[i].(status := "RETURNED")])
  }

  /** The sum of the prices of `rs`, whatever their status. */
  function Income(rs: seq<Rental>): real {
    if rs == [] then 0.0 else Income(rs[..|rs| - 1]) + rs[|rs| - 1].totalPrice
  }

  /** `returnRental` acts exactly when some rental with the id is RENTED; it then marks the
      first one RETURNED, copies every other field of it, and keeps every other rental, the
      count and the order. The returned rental is no longer returnable. */
  lemma ReturnedShape(rs: seq<Rental>, id: string)
    ensures var i := FirstReturnable(rs, id); var r := Returned(rs, id);
      && (r.Some? <==> exists j :: 0 <= j < |rs| && Returnable(rs[j], id))
      && (r.Some? ==>
            && |r.value| == |rs|
            && r.value[i.value] == rs[i.value].(status := "RETURNED")
            && !Returnable(r.value[i.value], id)
            && forall j :: 0 <= j < |rs| && j != i.value ==> r.value[j] == rs[j])
  {
    if Returned(rs, id).Some? {
      assert !EqualsIgnoreCase("RENTED", "RETURNED");
    }
  }

  lemma {:induction false} IncomeUpdate(rs: seq<Rental>, i: nat, r: Rental)
    requires i < |rs|
    ensures Income(rs[i := r]) == Income(rs) - rs[i].totalPrice + r.totalPrice
  {
    var n := |rs| - 1;
    if i < n {
      assert rs[i := r][..n] == rs[..n][i := r];
      IncomeUpdate(rs[..n], i, r);
    } else {
      assert rs[i := r][..n] == rs[..n];
    }
  }

  /** Returning a rental keeps its price, so the income does not change. */
  lemma ReturnKeepsIncome(rs: seq<Rental>, id: string)
    requires Returned(rs, id).Some?
    ensures Income(Returned(rs, id).value) == Income(rs)
  {
    var i := FirstReturnable(rs, id).value;
    IncomeUpdate(rs, i, rs[i].(status := "RETURNED"));
  }

  /** A second return of the same id acts only on a later rental with that id, so when ids
      are unique it changes nothing. */
  lemma ReturnTwice(rs: seq<Rental>, id: string)
    requires Returned(rs, id).Some?
    ensures var i := FirstReturnable(rs, id).value;
      var again := FirstReturnable(Returned(rs, id).value, id);
      again.None? || again.value > i
    ensures (forall a, b :: 0 <= a < b < |rs| ==> rs[a].id != rs[b].id) ==>
      Returned(Returned(rs, id).value, id).None?
  {
    ReturnedShape(rs, id);
  }

  /** The rentals are as a rewrite of the file keeps them: a status, and a price that
      `%.2f` shows exactly. */
  predicate Rewritable(r: Rental) {
    r.status != "" && Round2(r.totalPrice) == r.totalPrice
  }

  /** Saving rewritable, well-formed rentals and loading them again gives them back. */
  lemma StoredOfSaved(rs: seq<Rental>)
    requires forall k :: 0 <= k < |rs| ==> WellFormed(rs[k]) && Rewritable(rs[k])
    ensures Stored(EncodeAll(rs, ToCSV)) == rs
  {
    forall k | 0 <= k < |rs|
      ensures !IsBlank(ToCSV(rs[k])) && FromCSV(ToCSV(rs[k])) == Some(rs[k])
    {
      JoinNotBlank(Fields(rs[k]));
      FromCSVOfToCSV(rs[k]);
    }
    LoadOfEncoded(rs, rs, ToCSV, FromCSV);
  }

  /** When every stored rental is rewritable, the next load after `returnRental` returns
      exactly the returned list, and the total income is unchanged. */
  lemma ReturnPersists(lines: seq<string>, id: string)
    requires Returned(Stored(lines), id).Some?
    requires forall k :: 0 <= k < |Stored(lines)| ==> Rewritable(Stored(lines)[k])
    ensures var after := Stored(EncodeAll(Returned(Stored(lines), id).value, ToCSV));
      after == Returned(Stored(lines), id).value && Income(after) == Income(Stored(lines))
  {
    var rs := Stored(lines);
    LoadedSatisfy(lines, FromCSV, WellFormed);
    ReturnedRewritable(rs, id);
    StoredOfSaved(Returned(rs, id).value);
    ReturnKeepsIncome(rs, id);
  }

  /** Marking a rental RETURNED keeps well-formed, rewritable rentals so. */
  lemma ReturnedRewritable(rs: seq<Rental>, id: string)
    requires Returned(rs, id).Some?
    requires forall k :: 0 <= k < |rs| ==> WellFormed(rs[k]) && Rewritable(rs[k])
    ensures var after := Returned(rs, id).value;
      forall k :: 0 <= k < |after| ==> WellFormed(after[k]) && Rewritable(after[k])
  {
    var i := FirstReturnable(rs, id).value;
    var after := Returned(rs, id).value;
    assert WellFormed(after[i]) by {
      assert IsField("RETURNED");
    }
  }

  /** After a successful `addRental` of a well-formed rental with a status, the next load
      returns the stored rentals followed by it (price rounded to cents), and the income
      grows by that price. */
  lemma AddPersists(lines: seq<string>, r: Rental)
    requires WellFormed(r) && r.status != ""
    ensures Stored(lines + [ToCSV(r)]) == Stored(lines) + [Reread(r)]
    ensures Income(Stored(lines + [ToCSV(r)])) == Income(Stored(lines)) + Round2(r.totalPrice)
  {
    JoinNotBlank(Fields(r));
    FromCSVOfToCSV(r);
    LoadAfterAppend(lines, ToCSV(r), FromCSV);
    var rs := Stored(lines) + [Reread(r)];
    assert rs[..|rs| - 1] == Stored(lines);
  }

  /** The scan of `returnRental`: the position of the first returnable rental with the id,
      or the list's length. (The loaded rentals are distinct objects, so `list.indexOf`
      finds the one the scan stopped at.) */
  method FindReturnable(list: seq<Rental>, id: string) returns (i: nat)
    ensures i <= |list|
    ensures i < |list| ==> FirstReturnable(list, id) == Some(i)
    ensures i == |list| ==> FirstReturnable(list, id).None?
  {
    i := 0;
    while i < |list| && !(list[i].id == id && EqualsIgnoreCase("RENTED", list[i].status))
      invariant i <= |list|
      invariant forall j :: 0 <= j < i ==> !Returnable(list[j], id)
    {
      i := i + 1;
    }
  }

  class RentalService {
    /** The lines of the rentals file. */
    var lines: seq<string>
    /** The vehicle and customer stores the rental operations update. */
    const vehicles: VS.VehicleService
    const customers: CS.CustomerService

    constructor (lines: seq<string>, vehicles: VS.VehicleService, customers: CS.CustomerService)
      ensures this.lines == lines && this.vehicles == vehicles && this.customers == customers
    {
      this.lines := lines;
      this.vehicles := vehicles;
      this.customers := customers;
    }

    /** `loadAll`: the rentals of the non-blank lines that decode, in file order. */
    method LoadAll() returns (list: seq<Rental>)
      ensures list == Stored(lines)
    {
      list := [];
      for i := 0 to |lines|
        invariant list == Stored(lines[..i])
      {
        var line := lines[i];
        var decoded := if IsBlank(line) then None else FromCSV(line);
        if decoded.None? {
          LoadStepSkip(lines, i, FromCSV);
        } else {
          LoadStepAccept(lines, i, FromCSV, decoded.value);
          list := list + [decoded.value];
        }
      }
      assert lines[..|lines|] == lines;
    }

    /** `addRental`: takes a unit of the rental's vehicle first; when that fails the rental
        is refused and not written, otherwise its line is appended. */
    method AddRental(r: Rental) returns (outcome: Outcome<string>)
      modifies this, vehicles
      ensures vehicles.lines == VS.AfterDecrement(old(vehicles.lines), r.vehicleId)
      ensures var ok := VS.Decremented(VS.Stored(old(vehicles.lines)), r.vehicleId).Some?;
        && (ok ==> outcome == Pass && lines == old(lines) + [ToCSV(r)])
        && (!ok ==> outcome == Fail("No vehicles available for id: " + r.vehicleId) && lines == old(lines))
    {
      var ok := vehicles.DecrementQuantity(r.vehicleId);
      if !ok {
        return Fail("No vehicles available for id: " + r.vehicleId);
      }
      lines := lines + [ToCSV(r)];
      outcome := Pass;
    }

    /** `returnRental`: the first rental with the id that is RENTED becomes RETURNED; the
        vehicle gets its unit back and the customer one more completed rental, and then the
        rentals are saved. Without such a rental nothing is written anywhere. */
    method ReturnRental(rentalId: string)
      modifies this, vehicles, customers
      ensures var rs := Stored(old(lines)); var i := FirstReturnable(rs, rentalId);
        && (i.None? ==>
              && lines == old(lines)
              && vehicles.lines == old(vehicles.lines)
              && customers.lines == old(customers.lines))
        && (i.Some? ==>
              && lines == EncodeAll(Returned(rs, rentalId).value, ToCSV)
              && vehicles.lines == VS.AfterIncrement(old(vehicles.lines), rs[i.value].vehicleId)
              && customers.lines == CS.AfterBump(old(customers.lines), rs[i.value].customerId))
    {
      var list := LoadAll();
      var i := FindReturnable(list, rentalId);
      if i == |list| {
        return;
      }
      var r := list[i];
      var updated := Rental(r.id, r.customerId, r.vehicleId, r.startDate, r.endDate, r.totalPrice, "RETURNED");
      list := list[i := updated];
      vehicles.IncrementQuantity(r.vehicleId);
      customers.IncrementCompletedRentals(r.customerId);
      Overwrite(list);
    }

    /** The rewrite at the end of `returnRental`: one `toCSV` line per rental. */
    method Overwrite(list: seq<Rental>)
      modifies this
      ensures lines == EncodeAll(list, ToCSV)
    {
      var out: seq<string> := [];
      for k := 0 to |list|
        invariant |out| == k && forall j :: 0 <= j < k ==> out[j] == ToCSV(list[j])
      {
        out := out + [ToCSV(list[k])];
      }
      lines := out;
    }

    /** `totalIncome`: the sum of the prices of all loaded rentals. */
    method TotalIncome() returns (sum: real)
      ensures sum == Income(Stored(lines))
    {
      var list := LoadAll();
      sum := 0.0;
      for k := 0 to |list|
        invariant sum == Income(list[..k])
      {
        assert list[..k + 1][..k] == list[..k];
        sum := sum + list[k].totalPrice;
      }
      assert list[..|list|] == list;
    }
  }
}
