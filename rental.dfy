/** A rental: an immutable record of who rented which vehicle, for which dates, at what
    price and in which state, and its line in the rentals file
    (`id,customerId,vehicleId,start,end,price,status`). */
module Rentals {
  import opened Wrappers
  import opened Text
  import opened Numbers

  /** The seven fields of a rental; it has no setters, so a rental never changes once
      built. Dates are kept as the text the file holds. */
  datatype Rental = Rental(
    id: string, customerId: string, vehicleId: string, startDate: string, endDate: string,
    totalPrice: real, status: string)

  /** `toCSV`: the seven fields joined by commas, the price as `%.2f`. */
  function ToCSV(r: Rental): string {
    Join(Fields(r))
  }

  /** The pieces `toCSV` joins. */
  function Fields(r: Rental): seq<string> {
    [r.id, r.customerId, r.vehicleId, r.startDate, r.endDate, FormatFixed2(r.totalPrice), r.status]
  }

  /** The text fields are trimmed and free of commas. */
  predicate WellFormed(r: Rental) {
    IsField(r.id) && IsField(r.customerId) && IsField(r.vehicleId) && IsField(r.startDate)
    && IsField(r.endDate) && IsField(r.status)
  }

  /** `fromCSV`: at least seven pieces of `split(",")`, the first seven trimmed and any
      further ones ignored; the price must parse. What it returns is well formed. */
  function FromCSV(line: string): (r: Option<Rental>)
    ensures r.Some? ==> WellFormed(r.value)
  {
    var p := Split(line);
    if |p| < 7 then None
    else
      TrimIsField(p[0]); TrimIsField(p[1]); TrimIsField(p[2]); TrimIsField(p[3]);
      TrimIsField(p[4]); TrimIsField(p[6]);
      match ParseDecimal(Trim(p[5]))
      case None => None
      case Some(price) =>
        Some(Rental(Trim(p[0]), Trim(p[1]), Trim(p[2]), Trim(p[3]), Trim(p[4]), price, Trim(p[6])))
  }

  /** A line of fewer than seven pieces, or whose price does not parse, is rejected; an
      accepted line gives its first seven pieces trimmed, whatever follows them. */
  lemma FromCSVCases(line: string)
    ensures var p := Split(line);
      && (FromCSV(line).None? <==> |p| < 7 || ParseDecimal(Trim(p[5])).None?)
      && (FromCSV(line).Some? ==>
            FromCSV(line).value
              == Rental(Trim(p[0]), Trim(p[1]), Trim(p[2]), Trim(p[3]), Trim(p[4]),
                        ParseDecimal(Trim(p[5])).value, Trim(p[6])))
  {
  }

  /** What reading back a written rental gives: the price as `%.2f` shows it. */
  function Reread(r: Rental): Rental {
    r.(totalPrice := Round2(r.totalPrice))
  }

  /** A well-formed rental with a status splits back into its seven pieces. */
  lemma SplitToCSV(r: Rental)
    requires WellFormed(r) && r.status != ""
    ensures Split(ToCSV(r)) == Fields(r)
  {
    FormatFixed2IsToken(r.totalPrice);
    LineIsCommaFree(Fields(r));
    SplitOfJoin(Fields(r));
  }

  lemma LineIsCommaFree(f: seq<string>)
    requires |f| == 7
    requires forall k :: 0 <= k < 7 && k != 5 ==> IsField(f[k])
    requires IsToken(f[5])
    ensures CommaFree(f)
  {
    forall k | 0 <= k < 7
      ensures ',' !in f[k]
    {
      if k == 5 {
        TokenIsTrimmed(f[k]);
      }
    }
  }

  /** `fromCSV(toCSV(r))` restores a well-formed rental with a status, the price rounded
      to cents. */
  lemma FromCSVOfToCSV(r: Rental)
    requires WellFormed(r) && r.status != ""
    ensures FromCSV(ToCSV(r)) == Some(Reread(r))
  {
    var price := FormatFixed2(r.totalPrice);
    SplitToCSV(r);
    ParseDecimalOfFormatFixed2(r.totalPrice);
    FormatFixed2IsToken(r.totalPrice);
    TokenIsTrimmed(price);
    FromCSVOfPieces(ToCSV(r), r.id, r.customerId, r.vehicleId, r.startDate, r.endDate, price,
                    r.status, Round2(r.totalPrice));
  }

  /** A line whose seven pieces are fields, the sixth a price, decodes to them. */
  lemma FromCSVOfPieces(line: string, id: string, customerId: string, vehicleId: string,
                        start: string, end: string, price: string, status: string, v: real)
    requires Split(line) == [id, customerId, vehicleId, start, end, price, status]
    requires IsField(id) && IsField(customerId) && IsField(vehicleId) && IsField(start)
    requires IsField(end) && IsField(status) && Trim(price) == price
    requires ParseDecimal(price) == Some(v)
    ensures FromCSV(line) == Some(Rental(id, customerId, vehicleId, start, end, v, status))
  {
    TrimOfTrimmed(id); TrimOfTrimmed(customerId); TrimOfTrimmed(vehicleId);
    TrimOfTrimmed(start); TrimOfTrimmed(end); TrimOfTrimmed(status);
  }

  /** A rental with an empty status is written with a trailing comma, which `split(",")`
      drops: the line no longer has seven pieces and is lost on the next load. */
  lemma EmptyStatusIsLost(r: Rental)
    requires WellFormed(r) && r.status == ""
    ensures FromCSV(ToCSV(r)).None?
  {
    FormatFixed2IsToken(r.totalPrice);
    LineIsCommaFree(Fields(r));
    SplitOfJoinEmptyLast(Fields(r));
  }
}
