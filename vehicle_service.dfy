/** The vehicles file and the inventory operations on it: every change loads the whole
    file, changes one vehicle object in place and writes the whole list back. */
module VehicleServices {
  import opened Wrappers
  import opened Text
  import opened Numbers
  import opened Records
  import opened Vehicles

  function VehicleId(v: VehicleRecord): string {
    v.id
  }

  /** What `loadAll` returns for the file `lines`. */
  function Stored(lines: seq<string>): seq<VehicleRecord> {
    LoadRecords(lines, FromCSV)
  }

  /** The vehicle `findById` and the inventory updates act on: the first one whose id is
      exactly `id`. */
  function FirstWithId(vs: seq<VehicleRecord>, id: string): Option<nat> {
    FirstIndexOfKey(vs, VehicleId, id, Exact)
  }

  /** Every vehicle's flag agrees with its unit count, as `setQuantity` leaves it. */
  predicate Consistent(v: VehicleRecord) {
    v.available == (v.quantity > 0)
  }

  /** The units in stock over all vehicles. */
  function TotalUnits(vs: seq<VehicleRecord>): int {
    if vs == [] then 0 else TotalUnits(vs[..|vs| - 1]) + vs[|vs| - 1].quantity as int
  }

  /** The list `decrementQuantity` saves, or None when it writes nothing. */
  function Decremented(vs: seq<VehicleRecord>, id: string): Option<seq<VehicleRecord>> {
    match FirstWithId(vs, id)
    case None => None
    case Some(i) =>
      if vs[i].quantity <= 0 then None
      else Some(vs[i := WithQuantity(vs[i], vs[i].quantity - 1)])
  }

  /** The list `incrementQuantity` saves, or None when it writes nothing. */
  function Incremented(vs: seq<VehicleRecord>, id: string): Option<seq<VehicleRecord>> {
    match FirstWithId(vs, id)
    case None => None
    case Some(i) => Some(vs[i := WithQuantity(vs[i], Inc32(vs[i].quantity))])
  }

  /** The vehicles file after `decrementQuantity(id)`. */
  function AfterDecrement(lines: seq<string>, id: string): seq<string> {
    match Decremented(Stored(lines), id)
    case Some(vs) => EncodeAll(vs, ToCSV)
    case None => lines
  }

  /** The vehicles file after `incrementQuantity(id)`. */
  function AfterIncrement(lines: seq<string>, id: string): seq<string> {
    match Incremented(Stored(lines), id)
    case Some(vs) => EncodeAll(vs, ToCSV)
    case None => lines
  }

  /** `i` is the first vehicle whose id is exactly `id`. */
  predicate IsFirstWithId(vs: seq<VehicleRecord>, id: string, i: nat) {
    i < |vs| && vs[i].id == id && forall j :: 0 <= j < i ==> vs[j].id != id
  }

  lemma FirstWithIdIs(vs: seq<VehicleRecord>, id: string, i: nat)
    requires IsFirstWithId(vs, id, i)
    ensures FirstWithId(vs, id) == Some(i)
  {
    assert Same(VehicleId(vs[i]), id, Exact);
  }

  /** `decrementQuantity` refuses an id no vehicle has. */
  lemma DecrementUnknownId(vs: seq<VehicleRecord>, id: string)
    requires forall j :: 0 <= j < |vs| ==> vs[j].id != id
    ensures Decremented(vs, id).None?
  {
  }

  /** On the first vehicle with the id, `decrementQuantity` succeeds exactly when it has a
      unit left; it then takes one unit, recomputes the flag, and changes nothing else. */
  lemma DecrementAt(vs: seq<VehicleRecord>, id: string, i: nat)
    requires IsFirstWithId(vs, id, i)
    ensures var r := Decremented(vs, id);
      && (r.Some? <==> vs[i].quantity > 0)
      && (r.Some? ==>
            && |r.value| == |vs|
            && r.value[i].quantity as int == vs[i].quantity as int - 1
            && Consistent(r.value[i])
            && r.value[i] == vs[i].(quantity := r.value[i].quantity, available := r.value[i].available)
            && forall j :: 0 <= j < |vs| && j != i ==> r.value[j] == vs[j])
  {
    FirstWithIdIs(vs, id, i);
  }

  /** `incrementQuantity` writes exactly when some vehicle has the id. */
  lemma IncrementWrites(vs: seq<VehicleRecord>, id: string)
    ensures Incremented(vs, id).None? <==> forall j :: 0 <= j < |vs| ==> vs[j].id != id
  {
  }

  /** On the first vehicle with the id, `incrementQuantity` adds one unit (below the
      largest `int`), recomputes the flag, and changes nothing else. */
  lemma IncrementAt(vs: seq<VehicleRecord>, id: string, i: nat)
    requires IsFirstWithId(vs, id, i)
    ensures var r := Incremented(vs, id);
      && r.Some?
      && |r.value| == |vs|
      && (vs[i].quantity < 0x7fff_ffff ==> r.value[i].quantity as int == vs[i].quantity as int + 1)
      && Consistent(r.value[i])
      && r.value[i] == vs[i].(quantity := r.value[i].quantity, available := r.value[i].available)
      && forall j :: 0 <= j < |vs| && j != i ==> r.value[j] == vs[j]
  {
    FirstWithIdIs(vs, id, i);
  }

  lemma {:induction false} TotalUnitsUpdate(vs: seq<VehicleRecord>, i: nat, v: VehicleRecord)
    requires i < |vs|
    ensures TotalUnits(vs[i := v]) == TotalUnits(vs) - vs[i].quantity as int + v.quantity as int
  {
    var n := |vs| - 1;
    if i < n {
      assert vs[i := v][..n] == vs[..n][i := v];
      TotalUnitsUpdate(vs[..n], i, v);
    } else {
      assert vs[i := v][..n] == vs[..n];
    }
  }

  /** A successful decrement takes exactly one unit out of the whole stock. */
  lemma DecrementTakesOneUnit(vs: seq<VehicleRecord>, id: string)
    requires Decremented(vs, id).Some?
    ensures TotalUnits(Decremented(vs, id).value) == TotalUnits(vs) - 1
  {
    var i := FirstWithId(vs, id).value;
    TotalUnitsUpdate(vs, i, WithQuantity(vs[i], vs[i].quantity - 1));
  }

  /** A successful decrement never leaves a negative count, and a store with no negative
      count keeps none. */
  lemma DecrementNeverNegative(vs: seq<VehicleRecord>, id: string)
    requires Decremented(vs, id).Some?
    ensures var r := Decremented(vs, id).value;
      |r| == |vs| && forall j :: 0 <= j < |vs| ==> vs[j].quantity >= 0 ==> r[j].quantity >= 0
  {
  }

  /** Decrementing and incrementing keep the ids, so later lookups see the same positions. */
  lemma UpdatesKeepIds(vs: seq<VehicleRecord>, id: string, other: string)
    ensures Decremented(vs, id).Some? ==> FirstWithId(Decremented(vs, id).value, other) == FirstWithId(vs, other)
    ensures Incremented(vs, id).Some? ==> FirstWithId(Incremented(vs, id).value, other) == FirstWithId(vs, other)
  {
    if Decremented(vs, id).Some? {
      FirstIndexOfSameKeys(Decremented(vs, id).value, vs, VehicleId, other, Exact);
    }
    if Incremented(vs, id).Some? {
      FirstIndexOfSameKeys(Incremented(vs, id).value, vs, VehicleId, other, Exact);
    }
  }

  /** Returning the unit a decrement took restores the count and sets the flag; a
      vehicle whose flag agreed with its count is restored exactly. */
  lemma DecrementThenIncrement(vs: seq<VehicleRecord>, id: string)
    requires Decremented(vs, id).Some?
    ensures var i := FirstWithId(vs, id).value;
      Incremented(Decremented(vs, id).value, id) == Some(vs[i := vs[i].(available := true)])
    ensures var i := FirstWithId(vs, id).value;
      Consistent(vs[i]) ==> Incremented(Decremented(vs, id).value, id) == Some(vs)
  {
    var i := FirstWithId(vs, id).value;
    var d := Decremented(vs, id).value;
    assert d == vs[i := WithQuantity(vs[i], vs[i].quantity - 1)];
    UpdatesKeepIds(vs, id, id);
    assert Inc32(d[i].quantity) == vs[i].quantity;
    assert Incremented(d, id) == Some(d[i := WithQuantity(d[i], vs[i].quantity)]);
    assert d[i := WithQuantity(d[i], vs[i].quantity)] == vs[i := vs[i].(available := true)];
    if Consistent(vs[i]) {
      assert vs[i].(available := true) == vs[i];
      assert vs[i := vs[i]] == vs;
    }
  }

  /** Everything `loadAll` returns is well formed. */
  lemma StoredWellFormed(lines: seq<string>)
    ensures forall k :: 0 <= k < |Stored(lines)| ==> WellFormed(Stored(lines)[k])
  {
    LoadedSatisfy(lines, FromCSV, WellFormed);
  }

  /** What reading back a saved list gives: each vehicle with its rate as `%.2f` shows it. */
  function RereadAll(vs: seq<VehicleRecord>): (r: seq<VehicleRecord>)
    ensures |r| == |vs| && forall k :: 0 <= k < |vs| ==> r[k] == Reread(vs[k])
  {
    seq(|vs|, k requires 0 <= k < |vs| => Reread(vs[k]))
  }

  /** Saving well-formed vehicles and loading them again gives them back, rates rounded
      to cents. */
  lemma StoredOfSaved(vs: seq<VehicleRecord>)
    requires forall k :: 0 <= k < |vs| ==> WellFormed(vs[k])
    ensures Stored(EncodeAll(vs, ToCSV)) == RereadAll(vs)
  {
    var ys := RereadAll(vs);
    forall k | 0 <= k < |vs|
      ensures !IsBlank(ToCSV(vs[k])) && FromCSV(ToCSV(vs[k])) == Some(ys[k])
    {
      JoinNotBlank(Fields(vs[k]));
      FromCSVOfToCSV(vs[k]);
    }
    LoadOfEncoded(vs, ys, ToCSV, FromCSV);
  }

  /** After a successful `decrementQuantity` the next load sees the vehicle with one unit
      fewer, and every vehicle in the same place with the same id. */
  lemma DecrementPersists(lines: seq<string>, id: string)
    requires Decremented(Stored(lines), id).Some?
    ensures var vs := Stored(lines);
      var after := Stored(EncodeAll(Decremented(vs, id).value, ToCSV));
      var i := FirstWithId(vs, id).value;
      && |after| == |vs|
      && after[i].quantity as int == vs[i].quantity as int - 1
      && forall j :: 0 <= j < |vs| ==> after[j].id == vs[j].id
  {
    var vs := Stored(lines);
    var d := Decremented(vs, id).value;
    StoredWellFormed(lines);
    assert forall k :: 0 <= k < |d| ==> WellFormed(d[k]);
    StoredOfSaved(d);
  }

  class VehicleService {
    /** The lines of the vehicles file. */
    var lines: seq<string>

    constructor (lines: seq<string>)
      ensures this.lines == lines
    {
      this.lines := lines;
    }

    /** `loadAll`: one new vehicle object per non-blank line that decodes, in file order. */
    method LoadAll() returns (list: seq<Vehicle>)
      ensures Snapshot(list) == Stored(lines)
      ensures forall k :: 0 <= k < |list| ==> fresh(list[k])
      ensures Distinct(list)
    {
      list := LoadVehicles(lines, FromCSV);
    }

    /** `saveAll`: the file becomes one `toCSV` line per vehicle, in list order. */
    method SaveAll(list: seq<Vehicle>)
      modifies this
      ensures lines == EncodeAll(Snapshot(list), ToCSV)
    {
      var out: seq<string> := [];
      for k := 0 to |list|
        invariant |out| == k && forall j :: 0 <= j < k ==> out[j] == ToCSV(list[j].Data())
      {
        out := out + [ToCSV(list[k].Data())];
      }
      lines := out;
    }

    /** `addVehicle`: appends the vehicle's line. */
    method AddVehicle(v: Vehicle)
      modifies this
      ensures lines == old(lines) + [ToCSV(v.Data())]
    {
      lines := lines + [ToCSV(v.Data())];
    }

    /** `findById`: a new object holding the first loaded vehicle whose id is exactly `id`,
        or null. */
    method FindById(id: string) returns (v: Vehicle?)
      ensures var i := FirstWithId(Stored(lines), id);
        && (v == null <==> i.None?)
        && (v != null ==> fresh(v) && v.Data() == Stored(lines)[i.value])
    {
      var list := LoadAll();
      var i := FindIndex(list, id);
      if i < |list| {
        v := list[i];
      } else {
        v := null;
      }
    }

    /** `decrementQuantity`: takes one unit of the first vehicle with the id and saves the
        list; returns false and writes nothing for an unknown id or a vehicle with no units. */
    method DecrementQuantity(id: string) returns (changed: bool)
      modifies this
      ensures changed == Decremented(Stored(old(lines)), id).Some?
      ensures lines == AfterDecrement(old(lines), id)
    {
      var list := LoadAll();
      changed := DecrementFirst(list, id);
      if changed {
        SaveAll(list);
      }
    }

    /** `incrementQuantity`: adds one unit to the first vehicle with the id and saves the
        list; an unknown id writes nothing. */
    method IncrementQuantity(id: string)
      modifies this
      ensures lines == AfterIncrement(old(lines), id)
    {
      var list := LoadAll();
      var changed := IncrementFirst(list, id);
      if changed {
        SaveAll(list);
      }
    }
  }

  /** The loop of `decrementQuantity` over the loaded list: the first vehicle with the id
      loses a unit when it has one. */
  method DecrementFirst(list: seq<Vehicle>, id: string) returns (changed: bool)
    requires Distinct(list)
    modifies set k | 0 <= k < |list| :: list[k]
    ensures var d := Decremented(old(Snapshot(list)), id);
      changed == d.Some? && Snapshot(list) == if changed then d.value else old(Snapshot(list))
  {
    var i := FindIndex(list, id);
    if i == |list| || list[i].quantity <= 0 {
      return false;
    }
    SetQuantityAt(list, i, list[i].quantity - 1);
    changed := true;
  }

  /** The loop of `incrementQuantity` over the loaded list: the first vehicle with the id
      gains a unit. */
  method IncrementFirst(list: seq<Vehicle>, id: string) returns (changed: bool)
    requires Distinct(list)
    modifies set k | 0 <= k < |list| :: list[k]
    ensures var r := Incremented(old(Snapshot(list)), id);
      changed == r.Some? && Snapshot(list) == if changed then r.value else old(Snapshot(list))
  {
    var i := FindIndex(list, id);
    if i == |list| {
      return false;
    }
    SetQuantityAt(list, i, Inc32(list[i].quantity));
    changed := true;
  }

  /** The loop of `loadAll`, over the lines and with the line decoder it calls. */
  method LoadVehicles(lines: seq<string>, decode: string -> Option<VehicleRecord>) returns (list: seq<Vehicle>)
    ensures Snapshot(list) == LoadRecords(lines, decode)
    ensures forall k :: 0 <= k < |list| ==> fresh(list[k])
    ensures Distinct(list)
  {
    list := [];
    for i := 0 to |lines|
      invariant Snapshot(list) == LoadRecords(lines[..i], decode)
      invariant forall k :: 0 <= k < |list| ==> fresh(list[k])
      invariant Distinct(list)
    {
      list := LoadLine(lines, i, decode, list);
    }
    assert lines[..|lines|] == lines;
  }

  /** One turn of the load loop: line `i` adds a new vehicle object when it is not blank and
      decodes, and nothing otherwise. */
  method LoadLine(lines: seq<string>, i: nat, decode: string -> Option<VehicleRecord>, list: seq<Vehicle>)
    returns (r: seq<Vehicle>)
    requires i < |lines| && Distinct(list) && Snapshot(list) == LoadRecords(lines[..i], decode)
    ensures Snapshot(r) == LoadRecords(lines[..i + 1], decode) && Distinct(r)
    ensures |list| <= |r|
    ensures forall k :: 0 <= k < |r| ==> (k < |list| && r[k] == list[k]) || fresh(r[k])
  {
    var line := lines[i];
    var decoded := if IsBlank(line) then None else decode(line);
    if decoded.None? {
      LoadStepSkip(lines, i, decode);
      r := list;
    } else {
      var d := decoded.value;
      LoadStepAccept(lines, i, decode, d);
      ghost var before := Snapshot(list);
      var v := new Vehicle(d.id, d.kind, d.make, d.model, d.year, d.ratePerDay, d.available, d.quantity);
      assert Snapshot(list) == before;
      SnapshotAppend(list, v);
      DistinctAppend(list, v);
      r := list + [v];
    }
  }

  /** The scan every lookup in the service does: the position of the first vehicle whose
      id is exactly `id`, or the list's length when there is none. */
  method FindIndex(list: seq<Vehicle>, id: string) returns (i: nat)
    ensures i <= |list|
    ensures i < |list| ==> FirstWithId(Snapshot(list), id) == Some(i)
    ensures i == |list| ==> FirstWithId(Snapshot(list), id).None?
  {
    i := 0;
    while i < |list| && list[i].id != id
      invariant i <= |list|
      invariant forall j :: 0 <= j < i ==> list[j].id != id
    {
      i := i + 1;
    }
    ghost var vs := Snapshot(list);
    if i < |list| {
      assert Same(VehicleId(vs[i]), id, Exact);
    }
  }
}
