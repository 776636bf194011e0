/** A customer record: its fields, the setters that change them in place, identity by
    email, and its line in the customers file
    (`id,name,email,phone,password,completedRentals,badge`). */
module Customers {
  import opened Wrappers
  import opened Text
  import opened Numbers
  import opened Records

  /** The seven persisted fields of a customer; a null password or badge is `None`. */
  datatype CustomerRecord = CustomerRecord(
    id: string, name: string, email: string, phone: string,
    password: Option<string>, completedRentals: int32, badge: Option<string>)

  class Customer {
    var id: string
    var name: string
    var email: string
    var phone: string
    var password: Option<string>
    var completedRentals: int32
    var badge: Option<string>

    /** The current values of the fields. */
    function Data(): CustomerRecord
      reads this
    {
      CustomerRecord(id, name, email, phone, password, completedRentals, badge)
    }

    /** The five-argument constructor: no completed rentals and the empty badge. */
    constructor (id: string, name: string, email: string, phone: string, password: Option<string>)
      ensures Data() == CustomerRecord(id, name, email, phone, password, 0, Some(""))
    {
      this.id, this.name, this.email, this.phone, this.password := id, name, email, phone, password;
      this.completedRentals, this.badge := 0, Some("");
    }

    /** The seven-argument constructor: a null badge is stored as the empty badge. */
    constructor WithHistory(id: string, name: string, email: string, phone: string,
                            password: Option<string>, completed: int32, badge: Option<string>)
      ensures Data() == CustomerRecord(id, name, email, phone, password, completed, Some(OrEmpty(badge)))
    {
      this.id, this.name, this.email, this.phone, this.password := id, name, email, phone, password;
      this.completedRentals := completed;
      this.badge := if badge.None? then Some("") else badge;
    }

    method SetName(n: string)
      modifies this
      ensures Data() == old(Data()).(name := n)
    {
      name := n;
    }

    method SetEmail(e: string)
      modifies this
      ensures Data() == old(Data()).(email := e)
    {
      email := e;
    }

    method SetPhone(p: string)
      modifies this
      ensures Data() == old(Data()).(phone := p)
    {
      phone := p;
    }

    method SetPassword(pw: Option<string>)
      modifies this
      ensures Data() == old(Data()).(password := pw)
    {
      password := pw;
    }

    /** `setCompletedRentals`: the counter only; the badge is not recomputed. */
    method SetCompletedRentals(v: int32)
      modifies this
      ensures Data() == old(Data()).(completedRentals := v)
    {
      completedRentals := v;
    }

    method SetBadge(b: Option<string>)
      modifies this
      ensures Data() == old(Data()).(badge := b)
    {
      badge := b;
    }

    /** `equals`: the same object, or another customer with the same email; no other
        field takes part. */
    predicate Equals(o: Customer?)
      reads this, o
      ensures Equals(o) <==> o != null && o.email == email
    {
      this == o || (o != null && email == o.email)
    }
  }

  /** `Customer.equals` is an equivalence: reflexive, symmetric and transitive. */
  lemma EqualsIsEquivalence(a: Customer, b: Customer, c: Customer)
    ensures a.Equals(a)
    ensures a.Equals(b) <==> b.Equals(a)
    ensures a.Equals(b) && b.Equals(c) ==> a.Equals(c)
  {
  }

  /** The field values of a list of customer objects, position by position. */
  function Snapshot(list: seq<Customer>): (r: seq<CustomerRecord>)
    reads list
    ensures |r| == |list| && forall k :: 0 <= k < |list| ==> r[k] == list[k].Data()
  {
    seq(|list|, k requires 0 <= k < |list| reads list => list[k].Data())
  }

  lemma SnapshotAppend(list: seq<Customer>, c: Customer)
    ensures Snapshot(list + [c]) == Snapshot(list) + [c.Data()]
  {
  }

  /** `toCSV`: the seven fields joined by commas, a null password or badge as "". */
  function ToCSV(c: CustomerRecord): string {
    Join(Fields(c))
  }

  /** The pieces `toCSV` joins. */
  function Fields(c: CustomerRecord): seq<string> {
    [c.id, c.name, c.email, c.phone, OrEmpty(c.password), IntToString(c.completedRentals as int),
     OrEmpty(c.badge)]
  }

  /** The text fields are trimmed and free of commas (the empty text included). */
  predicate WellFormed(c: CustomerRecord) {
    IsField(c.id) && IsField(c.name) && IsField(c.email) && IsField(c.phone)
    && IsField(OrEmpty(c.password)) && IsField(OrEmpty(c.badge))
  }

  /** As a loader produces it: well formed, with a password and a badge. */
  predicate Loaded(c: CustomerRecord) {
    WellFormed(c) && c.password.Some? && c.badge.Some?
  }

  /** `fromCSV`: decodes the pieces of `split(",", -1)`; what it accepts is as a loader
      keeps it. */
  function FromCSV(line: string): (r: Option<CustomerRecord>)
    ensures r.Some? ==> Loaded(r.value)
  {
    var p := SplitAll(line);
    PiecesLoaded(p);
    FromPieces(p)
  }

  /** The decoding of `fromCSV` on its pieces: four, five, or seven and more pieces are
      accepted, six or fewer than four rejected. */
  function FromPieces(p: seq<string>): (r: Option<CustomerRecord>)
    ensures r.Some? <==> |p| == 4 || |p| == 5 || |p| >= 7
  {
    if |p| < 4 || |p| == 6 then None else Some(Decoded(p))
  }

  /** The customer an accepted line gives, each piece trimmed: with seven or more pieces
      whose sixth parses, all seven fields; with seven or more otherwise, or five, no
      history (0 and the empty badge); with four, in addition the empty password. */
  function Decoded(p: seq<string>): CustomerRecord
    requires |p| >= 4
  {
    var password := if |p| == 4 then "" else Trim(p[4]);
    var history := if |p| >= 7 then ParseInt(Trim(p[5])) else None;
    CustomerRecord(Trim(p[0]), Trim(p[1]), Trim(p[2]), Trim(p[3]), Some(password),
                   history.GetOr(0), Some(if history.Some? then Trim(p[6]) else ""))
  }

  /** The field-count fallbacks of `fromCSV`: six pieces or fewer than four are refused;
      four pieces give the empty password; four, five, or seven and more whose sixth does
      not parse give no history (0 and the empty badge); otherwise the count and badge
      are read. The first four fields are always the trimmed pieces. */
  lemma FromCSVByFieldCount(line: string)
    ensures var p := SplitAll(line); var r := FromCSV(line);
      && (r.None? <==> |p| < 4 || |p| == 6)
      && (r.Some? ==> r.value.id == Trim(p[0]) && r.value.name == Trim(p[1])
                      && r.value.email == Trim(p[2]) && r.value.phone == Trim(p[3]))
      && (|p| == 4 ==> r.value.password == Some("") && r.value.completedRentals == 0
                       && r.value.badge == Some(""))
      && ((|p| == 5 || (|p| >= 7 && ParseInt(Trim(p[5])).None?)) ==>
            r.value.password == Some(Trim(p[4])) && r.value.completedRentals == 0
            && r.value.badge == Some(""))
      && (|p| >= 7 && ParseInt(Trim(p[5])).Some? ==>
            r.value.password == Some(Trim(p[4]))
            && r.value.completedRentals == ParseInt(Trim(p[5])).value
            && r.value.badge == Some(Trim(p[6])))
  {
  }

  lemma PiecesLoaded(p: seq<string>)
    requires CommaFree(p)
    ensures FromPieces(p).Some? ==> Loaded(FromPieces(p).value)
  {
    if FromPieces(p).Some? {
      var c := Decoded(p);
      TrimIsField(p[0]); TrimIsField(p[1]); TrimIsField(p[2]); TrimIsField(p[3]);
      assert IsField(c.password.value) by {
        if |p| >= 5 { TrimIsField(p[4]); }
      }
      assert IsField(c.badge.value) by {
        if |p| >= 7 { TrimIsField(p[6]); }
      }
      LoadedOf(c);
    }
  }

  lemma LoadedOf(c: CustomerRecord)
    requires IsField(c.id) && IsField(c.name) && IsField(c.email) && IsField(c.phone)
    requires c.password.Some? && IsField(c.password.value) && c.badge.Some? && IsField(c.badge.value)
    ensures Loaded(c)
  {
  }

  /** What reading back a written customer gives: a null password or badge becomes "". */
  function Reread(c: CustomerRecord): CustomerRecord {
    c.(password := Some(OrEmpty(c.password)), badge := Some(OrEmpty(c.badge)))
  }

  lemma RereadLoaded(c: CustomerRecord)
    requires Loaded(c)
    ensures Reread(c) == c
  {
  }

  /** `split(",", -1)` of a written well-formed customer gives back its seven pieces,
      empty password and badge included. */
  lemma SplitAllToCSV(c: CustomerRecord)
    requires WellFormed(c)
    ensures SplitAll(ToCSV(c)) == Fields(c)
    ensures IsToken(Fields(c)[5])
  {
    IntToStringIsToken(c.completedRentals as int);
    LineIsCommaFree(Fields(c));
    SplitAllOfJoin(Fields(c));
  }

  lemma LineIsCommaFree(f: seq<string>)
    requires |f| == 7
    requires forall k :: 0 <= k < 7 && k != 5 ==> IsField(f[k])
    requires IsToken(f[5])
    ensures CommaFree(f)
  {
    forall k | 0 <= k < 7
      ensures ',' !in f[k]
    {
      if k == 5 {
        TokenIsTrimmed(f[k]);
      }
    }
  }

  /** `fromCSV(toCSV(c))` restores every field of a well-formed customer, with a null
      password or badge read back as "". */
  lemma FromCSVOfToCSV(c: CustomerRecord)
    requires WellFormed(c)
    ensures FromCSV(ToCSV(c)) == Some(Reread(c))
  {
    var count := IntToString(c.completedRentals as int);
    SplitAllToCSV(c);
    ParseIntOfIntToString(c.completedRentals);
    IntToStringIsToken(c.completedRentals as int);
    TokenIsTrimmed(count);
    FromCSVOfPieces(ToCSV(c), c.id, c.name, c.email, c.phone, OrEmpty(c.password), count,
                    OrEmpty(c.badge), c.completedRentals);
  }

  /** A line whose seven pieces are fields, the sixth an integer, decodes to them. */
  lemma FromCSVOfPieces(line: string, id: string, name: string, email: string, phone: string,
                        password: string, completed: string, badge: string, n: int32)
    requires SplitAll(line) == [id, name, email, phone, password, completed, badge]
    requires IsField(id) && IsField(name) && IsField(email) && IsField(phone)
    requires IsField(password) && IsField(badge) && Trim(completed) == completed
    requires ParseInt(completed) == Some(n)
    ensures FromCSV(line) == Some(CustomerRecord(id, name, email, phone, Some(password), n, Some(badge)))
  {
    TrimOfTrimmed(id); TrimOfTrimmed(name); TrimOfTrimmed(email); TrimOfTrimmed(phone);
    TrimOfTrimmed(password); TrimOfTrimmed(badge);
    FromCSVOfTrimmedPieces(line, id, name, email, phone, password, completed, badge, n);
  }

  lemma FromCSVOfTrimmedPieces(line: string, id: string, name: string, email: string, phone: string,
                               password: string, completed: string, badge: string, n: int32)
    requires SplitAll(line) == [id, name, email, phone, password, completed, badge]
    requires Trim(id) == id && Trim(name) == name && Trim(email) == email && Trim(phone) == phone
    requires Trim(password) == password && Trim(completed) == completed && Trim(badge) == badge
    requires ParseInt(completed) == Some(n)
    ensures FromCSV(line) == Some(CustomerRecord(id, name, email, phone, Some(password), n, Some(badge)))
  {
  }
}
