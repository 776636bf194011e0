/** A vehicle record: its fields, the setters that change them in place, and its line
    in the vehicles file (`id,type,make,model,year,rate,available,quantity`). */
module Vehicles {
  import opened Wrappers
  import opened Text
  import opened Numbers
  import opened Records

  /** The eight persisted fields of a vehicle, in file order (`kind` is Java's `type`). */
  datatype VehicleRecord = VehicleRecord(
    id: string, kind: string, make: string, model: string,
    year: int32, ratePerDay: real, available: bool, quantity: int32)

  /** The record after `setQuantity(q)`. */
  function WithQuantity(v: VehicleRecord, q: int32): VehicleRecord {
    v.(quantity := q, available := q > 0)
  }

  class Vehicle {
    var id: string
    var kind: string
    var make: string
    var model: string
    var year: int32
    var ratePerDay: real
    var available: bool
    var quantity: int32

    /** The current values of the fields. */
    function Data(): VehicleRecord
      reads this
    {
      VehicleRecord(id, kind, make, model, year, ratePerDay, available, quantity)
    }

    /** Stores the eight arguments as given; `available` is not checked against
        `quantity`. */
    constructor (id: string, kind: string, make: string, model: string,
                 year: int32, ratePerDay: real, available: bool, quantity: int32)
      ensures Data() == VehicleRecord(id, kind, make, model, year, ratePerDay, available, quantity)
    {
      this.id, this.kind, this.make, this.model := id, kind, make, model;
      this.year, this.ratePerDay, this.available, this.quantity := year, ratePerDay, available, quantity;
    }

    /** `setQuantity`: sets the unit count and recomputes the availability flag from it;
        no other field changes. */
    method SetQuantity(q: int32)
      modifies this
      ensures Data() == old(Data()).(quantity := q, available := q > 0)
      ensures available == (quantity > 0)
    {
      quantity := q;
      available := q > 0;
    }

    /** `setAvailable`: changes the flag only; the unit count stays. */
    method SetAvailable(a: bool)
      modifies this
      ensures Data() == old(Data()).(available := a)
    {
      available := a;
    }
  }

  /** The field values of a list of vehicle objects, position by position. */
  function Snapshot(list: seq<Vehicle>): (r: seq<VehicleRecord>)
    reads list
    ensures |r| == |list| && forall k :: 0 <= k < |list| ==> r[k] == list[k].Data()
  {
    seq(|list|, k requires 0 <= k < |list| reads list => list[k].Data())
  }

  /** Appending an object appends its field values. */
  lemma SnapshotAppend(list: seq<Vehicle>, v: Vehicle)
    ensures Snapshot(list + [v]) == Snapshot(list) + [v.Data()]
  {
  }

  /** `list.get(i).setQuantity(q)` on a list of distinct objects: only position `i` changes. */
  method SetQuantityAt(list: seq<Vehicle>, i: nat, q: int32)
    requires i < |list| && Distinct(list)
    modifies list[i]
    ensures Snapshot(list) == old(Snapshot(list))[i := WithQuantity(old(list[i].Data()), q)]
  {
    ghost var before := Snapshot(list);
    list[i].SetQuantity(q);
    forall k | 0 <= k < |list|
      ensures Snapshot(list)[k] == before[i := WithQuantity(before[i], q)][k]
    {
      if k != i {
        assert list[k] != list[i];
      }
    }
  }

  /** `toCSV`: the eight fields joined by commas, numbers as `%d`, the rate as `%.2f`
      and the flag as `%b`. */
  function ToCSV(v: VehicleRecord): string {
    Join(Fields(v))
  }

  /** The text fields are as a loader produces them: trimmed and free of commas. */
  predicate WellFormed(v: VehicleRecord) {
    IsField(v.id) && IsField(v.kind) && IsField(v.make) && IsField(v.model)
  }

  /** `fromCSV`: at least seven pieces of `split(",")`, each trimmed; year and rate must
      parse; `available` is `Boolean.parseBoolean`; the quantity is the eighth piece, or 1
      when it is missing or does not parse. What it returns is well formed. */
  function FromCSV(line: string): (r: Option<VehicleRecord>)
    ensures r.Some? ==> WellFormed(r.value)
  {
    var p := Split(line);
    if |p| < 7 then None
    else
      TrimIsField(p[0]); TrimIsField(p[1]); TrimIsField(p[2]); TrimIsField(p[3]);
      match (ParseInt(Trim(p[4])), ParseDecimal(Trim(p[5])))
      case (Some(year), Some(rate)) =>
        var quantity := if |p| >= 8 then ParseInt(Trim(p[7])).GetOr(1) else 1;
        Some(VehicleRecord(Trim(p[0]), Trim(p[1]), Trim(p[2]), Trim(p[3]), year, rate,
                           ParseBool(Trim(p[6])), quantity))
      case _ => None
  }

  /** A line that splits into fewer than seven pieces is rejected. */
  lemma FromCSVRejectsShortLine(line: string)
    requires |Split(line)| < 7
    ensures FromCSV(line) == None
  {
  }

  /** A year or a rate that does not parse rejects the line. */
  lemma FromCSVRejectsBadNumber(line: string)
    requires |Split(line)| >= 7
    requires ParseInt(Trim(Split(line)[4])).None? || ParseDecimal(Trim(Split(line)[5])).None?
    ensures FromCSV(line) == None
  {
  }

  /** An accepted line yields its trimmed pieces; the flag is true only for "true" in
      some letter case; a seven-piece line or an unparseable eighth piece gives quantity 1. */
  lemma FromCSVFields(line: string)
    requires FromCSV(line).Some?
    ensures var p, v := Split(line), FromCSV(line).value;
      && |p| >= 7
      && v.id == Trim(p[0]) && v.kind == Trim(p[1]) && v.make == Trim(p[2]) && v.model == Trim(p[3])
      && Some(v.year) == ParseInt(Trim(p[4])) && Some(v.ratePerDay) == ParseDecimal(Trim(p[5]))
      && v.available == EqualsIgnoreCase(Trim(p[6]), "true")
      && (|p| == 7 ==> v.quantity == 1)
      && (|p| >= 8 && ParseInt(Trim(p[7])).None? ==> v.quantity == 1)
      && (|p| >= 8 && ParseInt(Trim(p[7])).Some? ==> v.quantity == ParseInt(Trim(p[7])).value)
  {
  }

  /** `fromCSV` accepts a line exactly when it splits into at least seven pieces whose
      year and rate parse; a missing or unparsable eighth piece never rejects it. */
  lemma FromCSVAccepts(line: string)
    ensures var p := Split(line);
      FromCSV(line).Some? <==>
        |p| >= 7 && ParseInt(Trim(p[4])).Some? && ParseDecimal(Trim(p[5])).Some?
  {
  }

  /** What reading back a written vehicle gives: the rate as `%.2f` shows it. */
  function Reread(v: VehicleRecord): VehicleRecord {
    v.(ratePerDay := Round2(v.ratePerDay))
  }

  /** The pieces `toCSV` joins. */
  function Fields(v: VehicleRecord): seq<string> {
    [v.id, v.kind, v.make, v.model, IntToString(v.year as int), FormatFixed2(v.ratePerDay),
     FormatBool(v.available), IntToString(v.quantity as int)]
  }

  lemma SplitToCSV(v: VehicleRecord)
    requires WellFormed(v)
    ensures ToCSV(v) == Join(Fields(v)) && Split(ToCSV(v)) == Fields(v)
    ensures forall k :: 4 <= k < 8 ==> IsToken(Fields(v)[k])
  {
    IntToStringIsToken(v.year as int);
    IntToStringIsToken(v.quantity as int);
    FormatFixed2IsToken(v.ratePerDay);
    FormatBoolIsToken(v.available);
    SplitOfLine(Fields(v));
  }

  /** Four fields and then four tokens, joined by commas, split back into themselves. */
  lemma SplitOfLine(f: seq<string>)
    requires |f| == 8
    requires forall k :: 0 <= k < 4 ==> IsField(f[k])
    requires forall k :: 4 <= k < 8 ==> IsToken(f[k])
    ensures Split(Join(f)) == f
  {
    LineIsCommaFree(f);
    SplitOfJoin(f);
  }

  lemma LineIsCommaFree(f: seq<string>)
    requires |f| == 8
    requires forall k :: 0 <= k < 4 ==> IsField(f[k])
    requires forall k :: 4 <= k < 8 ==> IsToken(f[k])
    ensures CommaFree(f) && f[7] != []
  {
    forall k | 0 <= k < 8
      ensures ',' !in f[k]
    {
      if k >= 4 {
        TokenIsTrimmed(f[k]);
      }
    }
  }

  /** `fromCSV(toCSV(v))` restores every field of a well-formed vehicle, with the rate
      rounded to cents. */
  lemma FromCSVOfToCSV(v: VehicleRecord)
    requires WellFormed(v)
    ensures FromCSV(ToCSV(v)) == Some(Reread(v))
  {
    SplitToCSV(v);
    ParseIntOfIntToString(v.year);
    ParseIntOfIntToString(v.quantity);
    ParseDecimalOfFormatFixed2(v.ratePerDay);
    ParseBoolOfFormatBool(v.available);
    var p := Fields(v);
    FromCSVOfPieces(ToCSV(v), p[0], p[1], p[2], p[3], p[4], p[5], p[6], p[7],
                    v.year, Round2(v.ratePerDay), v.quantity);
  }

  /** A line whose eight pieces are fields and tokens decodes to those pieces. */
  lemma FromCSVOfPieces(line: string, id: string, kind: string, make: string, model: string,
                        year: string, rate: string, available: string, quantity: string,
                        y: int32, r: real, q: int32)
    requires Split(line) == [id, kind, make, model, year, rate, available, quantity]
    requires IsField(id) && IsField(kind) && IsField(make) && IsField(model)
    requires IsToken(year) && IsToken(rate) && IsToken(available) && IsToken(quantity)
    requires ParseInt(year) == Some(y) && ParseDecimal(rate) == Some(r) && ParseInt(quantity) == Some(q)
    ensures FromCSV(line) == Some(VehicleRecord(id, kind, make, model, y, r, ParseBool(available), q))
  {
    TrimOfTrimmed(id); TrimOfTrimmed(kind); TrimOfTrimmed(make); TrimOfTrimmed(model);
    TokensTrimmed(year, rate, available, quantity);
    FromCSVOfTrimmedPieces(line, id, kind, make, model, year, rate, available, quantity, y, r, q);
  }

  lemma TokensTrimmed(a: string, b: string, c: string, d: string)
    requires IsToken(a) && IsToken(b) && IsToken(c) && IsToken(d)
    ensures Trim(a) == a && Trim(b) == b && Trim(c) == c && Trim(d) == d
  {
    TokenIsTrimmed(a); TokenIsTrimmed(b); TokenIsTrimmed(c); TokenIsTrimmed(d);
  }

  lemma FromCSVOfTrimmedPieces(line: string, id: string, kind: string, make: string, model: string,
                               year: string, rate: string, available: string, quantity: string,
                               y: int32, r: real, q: int32)
    requires Split(line) == [id, kind, make, model, year, rate, available, quantity]
    requires Trim(id) == id && Trim(kind) == kind && Trim(make) == make && Trim(model) == model
    requires Trim(year) == year && Trim(rate) == rate && Trim(available) == available && Trim(quantity) == quantity
    requires ParseInt(year) == Some(y) && ParseDecimal(rate) == Some(r) && ParseInt(quantity) == Some(q)
    ensures FromCSV(line) == Some(VehicleRecord(id, kind, make, model, y, r, ParseBool(available), q))
  {
  }
}
