/** The customers file and the customer operations on it: registration, sign-in, lookup,
    profile update and the completed-rentals counter with its loyalty badge. */
module CustomerServices {
  import opened Wrappers
  import opened Text
  import opened Numbers
  import opened Records
  import opened Customers
  import opened Credentials

  function CustomerId(c: CustomerRecord): string {
    c.id
  }

  function CustomerEmail(c: CustomerRecord): string {
    c.email
  }

  /** What `loadAll` returns for the file `lines`. */
  function Stored(lines: seq<string>): seq<CustomerRecord> {
    LoadRecords(lines, FromCSV)
  }

  /** Some stored customer has `email`, ignoring case: `register` refuses it. */
  predicate EmailTaken(cs: seq<CustomerRecord>, email: string) {
    FirstIndexOfKey(cs, CustomerEmail, email, IgnoreCase).Some?
  }

  /** `generateId`: "C" followed by the count plus one, zero-padded to three digits. */
  function GenerateId(count: nat): string {
    SequenceId('C', count + 1)
  }

  /** The customer a successful `register` creates when `count` customers are stored. */
  function NewCustomer(count: nat, name: string, email: string, phone: string, password: Option<string>): CustomerRecord {
    CustomerRecord(GenerateId(count), name, email, phone, password, 0, Some(""))
  }

  /** The position of the customer `authenticate` returns: the last one whose email
      matches ignoring case, provided the passwords match. */
  function Authenticated(cs: seq<CustomerRecord>, email: string, password: Option<string>,
                         normalize: string -> string): Option<nat>
  {
    match LastIndexOfKey(cs, CustomerEmail, email, IgnoreCase)
    case None => None
    case Some(i) => if PasswordsMatch(cs[i].password, password, normalize) then Some(i) else None
  }

  /** The loyalty badge for a completed-rentals count. */
  function BadgeFor(v: int32): string {
    if v >= 25 then "SILVER" else if v >= 10 then "BRONZE" else ""
  }

  /** One more completed rental (Java `int` arithmetic) and the badge recomputed from it. */
  function Bump(c: CustomerRecord): CustomerRecord {
    var v := Inc32(c.completedRentals);
    c.(completedRentals := v, badge := Some(BadgeFor(v)))
  }

  /** The list `incrementCompletedRentals` saves, or None when it writes nothing. */
  function Bumped(cs: seq<CustomerRecord>, id: string): Option<seq<CustomerRecord>> {
    match FirstIndexOfKey(cs, CustomerId, id, IgnoreCase)
    case None => None
    case Some(i) => Some(cs[i := Bump(cs[i])])
  }

  /** The customers file after `incrementCompletedRentals(id)`. */
  function AfterBump(lines: seq<string>, id: string): seq<string> {
    match Bumped(Stored(lines), id)
    case Some(cs) => EncodeAll(cs, ToCSV)
    case None => lines
  }

  /** `allowedConcurrentRentals`: how many rentals a customer may hold at once, from the
      badge alone (ignoring case); 1 for no customer. */
  function AllowedConcurrentRentals(c: Option<CustomerRecord>): (r: int)
    ensures 1 <= r <= 3
    ensures c.None? || c.value.badge.None? ==> r == 1
  {
    if c.None? || c.value.badge.None? then 1
    else if EqualsIgnoreCase("SILVER", c.value.badge.value) then 3
    else if EqualsIgnoreCase("BRONZE", c.value.badge.value) then 2
    else 1
  }

  /** For any badge text, as stored: 3 for SILVER and 2 for BRONZE in any letter case,
      1 for every other badge and for none. */
  lemma AllowanceOfBadge(c: CustomerRecord)
    ensures var b := c.badge;
      AllowedConcurrentRentals(Some(c))
        == if b.Some? && EqualsIgnoreCase(b.value, "SILVER") then 3
           else if b.Some? && EqualsIgnoreCase(b.value, "BRONZE") then 2
           else 1
  {
    if c.badge.Some? {
      var b := c.badge.value;
      EqualsIgnoreCaseSymmetric(b, "SILVER");
      EqualsIgnoreCaseSymmetric(b, "BRONZE");
    }
  }

  /** The allowance depends on the badge alone, and not on its letter case: customers
      whose badges are equal ignoring case may hold the same number of rentals. */
  lemma AllowanceDependsOnBadgeOnly(c: CustomerRecord, d: CustomerRecord)
    requires c.badge.None? <==> d.badge.None?
    requires c.badge.Some? ==> EqualsIgnoreCase(c.badge.value, d.badge.value)
    ensures AllowedConcurrentRentals(Some(c)) == AllowedConcurrentRentals(Some(d))
  {
    AllowanceOfBadge(c);
    AllowanceOfBadge(d);
    if c.badge.Some? {
      var b, e := c.badge.value, d.badge.value;
      EqualsIgnoreCaseTransitive(b, e, "SILVER");
      EqualsIgnoreCaseTransitive(b, e, "BRONZE");
    }
  }

  /** With the badge the counter earns, the allowance is 3 from 25 completed rentals on,
      2 from 10, and 1 below. */
  lemma AllowanceOfEarnedBadge(c: CustomerRecord)
    requires c.badge == Some(BadgeFor(c.completedRentals))
    ensures AllowedConcurrentRentals(Some(c))
         == if c.completedRentals >= 25 then 3 else if c.completedRentals >= 10 then 2 else 1
  {
    var b := c.badge.value;
    if c.completedRentals < 10 {
      assert !EqualsIgnoreCase("SILVER", b) && !EqualsIgnoreCase("BRONZE", b);
    } else if c.completedRentals < 25 {
      assert !EqualsIgnoreCase("SILVER", b) by {
        assert UpperAscii("SILVER"[0]) != UpperAscii(b[0]);
      }
      assert EqualsIgnoreCase("BRONZE", b);
    } else {
      assert EqualsIgnoreCase("SILVER", b);
    }
  }

  /** For a customer whose badge matches the counter, one more completed rental never
      lowers the allowance (below the largest `int`). */
  lemma BumpNeverLowersAllowance(c: CustomerRecord)
    requires c.badge == Some(BadgeFor(c.completedRentals))
    requires c.completedRentals < 0x7fff_ffff
    ensures AllowedConcurrentRentals(Some(Bump(c))) >= AllowedConcurrentRentals(Some(c))
  {
    AllowanceOfEarnedBadge(c);
    AllowanceOfEarnedBadge(Bump(c));
  }

  /** `i` is the first customer whose id matches `id` ignoring case. */
  predicate IsFirstWithId(cs: seq<CustomerRecord>, id: string, i: nat) {
    i < |cs| && EqualsIgnoreCase(cs[i].id, id) && forall j :: 0 <= j < i ==> !EqualsIgnoreCase(cs[j].id, id)
  }

  /** `incrementCompletedRentals` writes exactly when some customer has the id. */
  lemma BumpedWrites(cs: seq<CustomerRecord>, id: string)
    ensures Bumped(cs, id).None? <==> forall j :: 0 <= j < |cs| ==> !EqualsIgnoreCase(cs[j].id, id)
  {
    if Bumped(cs, id).Some? {
      var i := FirstIndexOfKey(cs, CustomerId, id, IgnoreCase).value;
      assert EqualsIgnoreCase(cs[i].id, id);
    } else {
      forall j | 0 <= j < |cs| ensures !EqualsIgnoreCase(cs[j].id, id) {
        assert !Same(CustomerId(cs[j]), id, IgnoreCase);
      }
    }
  }

  /** On the first customer with the id, `incrementCompletedRentals` adds one to the
      counter (below the largest `int`), sets the badge it earns, and changes nothing else. */
  lemma BumpedAt(cs: seq<CustomerRecord>, id: string, i: nat)
    requires IsFirstWithId(cs, id, i)
    ensures var r := Bumped(cs, id);
      && r.Some?
      && |r.value| == |cs|
      && (cs[i].completedRentals < 0x7fff_ffff ==>
            r.value[i].completedRentals as int == cs[i].completedRentals as int + 1)
      && r.value[i].badge == Some(BadgeFor(r.value[i].completedRentals))
      && r.value[i] == cs[i].(completedRentals := r.value[i].completedRentals, badge := r.value[i].badge)
      && forall j :: 0 <= j < |cs| && j != i ==> r.value[j] == cs[j]
  {
    assert Same(CustomerId(cs[i]), id, IgnoreCase);
  }

  /** Everything `loadAll` returns is as the loader keeps it. */
  lemma StoredLoaded(lines: seq<string>)
    ensures forall k :: 0 <= k < |Stored(lines)| ==> Loaded(Stored(lines)[k])
  {
    LoadedSatisfy(lines, FromCSV, Loaded);
  }

  /** What reading back a saved list gives: null passwords and badges as "". */
  function RereadAll(cs: seq<CustomerRecord>): (r: seq<CustomerRecord>)
    ensures |r| == |cs| && forall k :: 0 <= k < |cs| ==> r[k] == Reread(cs[k])
  {
    seq(|cs|, k requires 0 <= k < |cs| => Reread(cs[k]))
  }

  /** Saving well-formed customers and loading them again gives them back, null passwords
      and badges read as "". */
  lemma StoredOfSaved(cs: seq<CustomerRecord>)
    requires forall k :: 0 <= k < |cs| ==> WellFormed(cs[k])
    ensures Stored(EncodeAll(cs, ToCSV)) == RereadAll(cs)
  {
    var ys := RereadAll(cs);
    forall k | 0 <= k < |cs|
      ensures !IsBlank(ToCSV(cs[k])) && FromCSV(ToCSV(cs[k])) == Some(ys[k])
    {
      JoinNotBlank(Fields(cs[k]));
      FromCSVOfToCSV(cs[k]);
    }
    LoadOfEncoded(cs, ys, ToCSV, FromCSV);
  }

  /** A successful `register` of well-formed fields makes the next load return the stored
      customers followed by the new one, who is then the last with that email, and any
      later registration of the same email, in any case, is refused. */
  lemma RegisterPersists(lines: seq<string>, name: string, email: string, phone: string,
                         password: Option<string>, other: string)
    requires IsField(name) && IsField(email) && IsField(phone) && IsField(OrEmpty(password))
    requires EqualsIgnoreCase(email, other)
    ensures var cs := Stored(lines);
      var n := NewCustomer(|cs|, name, email, phone, password);
      var after := Stored(lines + [ToCSV(n)]);
      && after == cs + [Reread(n)]
      && LastIndexOfKey(after, CustomerEmail, email, IgnoreCase) == Some(|cs|)
      && EmailTaken(after, other)
  {
    var cs := Stored(lines);
    var n := NewCustomer(|cs|, name, email, phone, password);
    SequenceIdIsField('C', |cs| + 1);
    StoredAfterAppend(lines, n);
    LastIsFound(cs, Reread(n), email, other);
  }

  /** Appending a well-formed customer's line makes the next load end with it. */
  lemma StoredAfterAppend(lines: seq<string>, c: CustomerRecord)
    requires WellFormed(c)
    ensures Stored(lines + [ToCSV(c)]) == Stored(lines) + [Reread(c)]
  {
    JoinNotBlank(Fields(c));
    FromCSVOfToCSV(c);
    LoadAfterAppend(lines, ToCSV(c), FromCSV);
  }

  /** A customer appended with email `email` is the last match for it, and makes any
      email equal to it ignoring case taken. */
  lemma LastIsFound(cs: seq<CustomerRecord>, c: CustomerRecord, email: string, other: string)
    requires c.email == email && EqualsIgnoreCase(email, other)
    ensures LastIndexOfKey(cs + [c], CustomerEmail, email, IgnoreCase) == Some(|cs|)
    ensures EmailTaken(cs + [c], other)
  {
    var after := cs + [c];
    assert Same(CustomerEmail(after[|cs|]), email, IgnoreCase);
    assert Same(CustomerEmail(after[|cs|]), other, IgnoreCase);
    FirstIndexOfKeyExists(after, CustomerEmail, other, IgnoreCase);
  }

  /** Right after registering, signing in with the same email and password returns the
      new customer. */
  lemma RegisterThenAuthenticate(lines: seq<string>, name: string, email: string, phone: string,
                                 password: Option<string>, normalize: string -> string)
    requires IsField(name) && IsField(email) && IsField(phone) && IsField(OrEmpty(password))
    ensures var cs := Stored(lines);
      var n := NewCustomer(|cs|, name, email, phone, password);
      var after := Stored(lines + [ToCSV(n)]);
      Authenticated(after, email, password, normalize) == Some(|cs|)
  {
    RegisterPersists(lines, name, email, phone, password, email);
  }

  /** `register` does not refuse a comma inside a field, and `toCSV` does not escape it:
      a name "a,b" becomes two pieces when the line is read back, every later field moves
      one place, and the registered e-mail is no longer taken, so it can be registered
      again. */
  lemma RegisterCommaNameShiftsFields()
    ensures var n := NewCustomer(0, "a,b", "e@f.g", "p", Some("pw"));
      var after := Stored([ToCSV(n)]);
      && after == [CustomerRecord(n.id, "a", "b", "e@f.g", Some("p"), 0, Some(""))]
      && !EmailTaken(after, "e@f.g")
  {
    var n := NewCustomer(0, "a,b", "e@f.g", "p", Some("pw"));
    var c := CustomerRecord(n.id, "a", "b", "e@f.g", Some("p"), 0, Some(""));
    var line := ToCSV(n);
    CommaNameLineSplits(n);
    SequenceIdIsField('C', 1);
    IntToStringIsToken(0);
    JoinNotBlank(Fields(n));
    CommaNameDecodes(n.id, IntToString(0));
    StoredOfOneLine(line);
    assert !EqualsIgnoreCase(CustomerEmail(c), "e@f.g");
  }

  /** A file of one non-blank line loads as that line's record, if it has one. */
  lemma StoredOfOneLine(line: string)
    requires !IsBlank(line)
    ensures Stored([line]) == if FromCSV(line).Some? then [FromCSV(line).value] else []
  {
    LoadAfterAppend([], line, FromCSV);
    assert [] + [line] == [line];
  }

  /** The line of the customer registered as "a,b" splits into eight pieces. */
  lemma CommaNameLineSplits(n: CustomerRecord)
    requires n == NewCustomer(0, "a,b", "e@f.g", "p", Some("pw"))
    ensures SplitAll(ToCSV(n)) == [n.id] + (["a"] + (["b"] + ["e@f.g", "p", "pw", IntToString(0), ""]))
  {
    var rest := ["e@f.g", "p", "pw", IntToString(0), ""];
    SequenceIdIsField('C', 1);
    IntToStringIsToken(0);
    assert CommaFree(rest);
    CommaNameLine(n, rest);
    SplitAllOfCommaInField(n.id, "a", "b", rest);
  }

  /** The line of the customer registered as "a,b", written out around the name. */
  lemma CommaNameLine(n: CustomerRecord, rest: seq<string>)
    requires n == NewCustomer(0, "a,b", "e@f.g", "p", Some("pw"))
    requires rest == ["e@f.g", "p", "pw", IntToString(0), ""]
    ensures ToCSV(n) == n.id + "," + ("a" + "," + ("b" + "," + Join(rest)))
  {
    var j := Join(rest);
    assert Fields(n) == [n.id] + (["a,b"] + rest);
    JoinCons(n.id, ["a,b"] + rest);
    JoinCons("a,b", rest);
    assert "a,b" + "," + j == "a" + "," + ("b" + "," + j);
  }

  /** The eight pieces decode with every field after the name one place on. */
  lemma CommaNameDecodes(id: string, zero: string)
    requires IsField(id) && IsToken(zero)
    ensures FromPieces([id] + (["a"] + (["b"] + ["e@f.g", "p", "pw", zero, ""])))
         == Some(CustomerRecord(id, "a", "b", "e@f.g", Some("p"), 0, Some("")))
  {
    TrimOfTrimmed(id);
    assert ParseInt(Trim("pw")).None?;
  }

  /** After `updateCustomer` with a well-formed customer, the next load returns the
      stored list with every record of that id (ignoring case) replaced by it, or with it
      appended, and a lookup by its id finds it. */
  lemma UpdatePersists(lines: seq<string>, u: CustomerRecord)
    requires WellFormed(u)
    ensures var cs := Stored(lines);
      var after := Stored(EncodeAll(Upsert(cs, u, CustomerId), ToCSV));
      var i := FirstIndexOfKey(after, CustomerId, u.id, IgnoreCase);
      && after == Upsert(cs, Reread(u), CustomerId)
      && i.Some? && after[i.value] == Reread(u)
  {
    var cs := Stored(lines);
    var up := Upsert(cs, u, CustomerId);
    StoredLoaded(lines);
    UpsertShape(cs, u, CustomerId);
    UpsertShape(cs, Reread(u), CustomerId);
    forall k | 0 <= k < |up| ensures WellFormed(up[k]) {
      if k < |cs| && !EqualsIgnoreCase(cs[k].id, u.id) {
        assert up[k] == cs[k];
      }
    }
    StoredOfSaved(up);
    var want := Upsert(cs, Reread(u), CustomerId);
    forall k | 0 <= k < |up| ensures RereadAll(up)[k] == want[k] {
      if k < |cs| && !EqualsIgnoreCase(cs[k].id, u.id) {
        assert up[k] == cs[k];
        RereadLoaded(cs[k]);
      }
    }
    UpsertThenFind(cs, Reread(u), CustomerId);
  }

  /** A bump keeps a loaded customer loaded. */
  lemma BumpLoaded(c: CustomerRecord)
    requires Loaded(c)
    ensures Loaded(Bump(c))
  {
    var b := BadgeFor(Inc32(c.completedRentals));
    assert IsField(b);
    LoadedOf(Bump(c));
  }

  /** Saving loaded customers and loading them again gives exactly them back. */
  lemma StoredOfSavedLoaded(cs: seq<CustomerRecord>)
    requires forall k :: 0 <= k < |cs| ==> Loaded(cs[k])
    ensures Stored(EncodeAll(cs, ToCSV)) == cs
  {
    StoredOfSaved(cs);
    forall k | 0 <= k < |cs| ensures RereadAll(cs)[k] == cs[k] {
      RereadLoaded(cs[k]);
    }
  }

  /** After `incrementCompletedRentals`, the next load returns exactly the bumped list. */
  lemma BumpPersists(lines: seq<string>, id: string)
    requires Bumped(Stored(lines), id).Some?
    ensures Stored(EncodeAll(Bumped(Stored(lines), id).value, ToCSV)) == Bumped(Stored(lines), id).value
  {
    var cs := Stored(lines);
    var i := FirstIndexOfKey(cs, CustomerId, id, IgnoreCase).value;
    StoredLoaded(lines);
    BumpLoaded(cs[i]);
    var b := cs[i := Bump(cs[i])];
    assert forall k :: 0 <= k < |b| ==> Loaded(b[k]);
    StoredOfSavedLoaded(b);
  }

  class CustomerService {
    /** The lines of the customers file. */
    var lines: seq<string>

    constructor (lines: seq<string>)
      ensures this.lines == lines
    {
      this.lines := lines;
    }

    /** `loadAll`: one new customer object per non-blank line that decodes, in file order. */
    method LoadAll() returns (list: seq<Customer>)
      ensures Snapshot(list) == Stored(lines)
      ensures forall k :: 0 <= k < |list| ==> fresh(list[k])
      ensures Distinct(list)
    {
      list := LoadCustomers(lines, FromCSV);
    }

    /** `saveAll`: the file becomes one `toCSV` line per customer, in list order. */
    method SaveAll(list: seq<Customer>)
      modifies this
      ensures lines == EncodeAll(Snapshot(list), ToCSV)
    {
      var out: seq<string> := [];
      for k := 0 to |list|
        invariant |out| == k && forall j :: 0 <= j < k ==> out[j] == ToCSV(list[j].Data())
      {
        out := out + [ToCSV(list[k].Data())];
      }
      lines := out;
    }

    /** `register`: refuses an email already stored (ignoring case) and writes nothing;
        otherwise appends a new customer with the next identifier, no completed rentals
        and the empty badge. */
    method Register(name: string, email: string, phone: string, password: Option<string>)
      returns (r: Result<Customer, string>)
      modifies this
      ensures var cs := Stored(old(lines));
        && (EmailTaken(cs, email) ==> r == Err("Email already registered: " + email) && lines == old(lines))
        && (!EmailTaken(cs, email) ==>
              && r.Ok? && fresh(r.value)
              && r.value.Data() == NewCustomer(|cs|, name, email, phone, password)
              && lines == old(lines) + [ToCSV(r.value.Data())])
    {
      var existing := LoadAll();
      var i := FirstMatch(existing, CustomerEmail, email);
      if i < |existing| {
        return Err("Email already registered: " + email);
      }
      var c := new Customer(GenerateId(|existing|), name, email, phone, password);
      lines := lines + [ToCSV(c.Data())];
      r := Ok(c);
    }

    /** `authenticate`: the last customer whose email matches ignoring case, when the
        passwords match; null otherwise. */
    method Authenticate(email: string, password: Option<string>, normalize: string -> string)
      returns (found: Customer?)
      ensures var cs := Stored(lines);
        var i := Authenticated(cs, email, password, normalize);
        && (found == null <==> i.None?)
        && (found != null ==> fresh(found) && found.Data() == cs[i.value])
    {
      var existing := LoadAll();
      found := AuthenticateIn(existing, email, password, normalize);
    }

    /** `findById`: null for a null id, without reading; otherwise the first customer whose
        id matches ignoring case, or null. */
    method FindById(id: Option<string>) returns (c: Customer?)
      ensures id.None? ==> c == null
      ensures id.Some? ==>
        var i := FirstIndexOfKey(Stored(lines), CustomerId, id.value, IgnoreCase);
        && (c == null <==> i.None?)
        && (c != null ==> fresh(c) && c.Data() == Stored(lines)[i.value])
    {
      if id.None? {
        return null;
      }
      var existing := LoadAll();
      var i := FirstMatch(existing, CustomerId, id.value);
      c := if i < |existing| then existing[i] else null;
    }

    /** `updateCustomer`: every stored customer whose id matches ignoring case is replaced
        by `updated`, which is appended when none matches; the list is saved. */
    method UpdateCustomer(updated: Customer)
      modifies this
      ensures lines == EncodeAll(Upsert(Stored(old(lines)), updated.Data(), CustomerId), ToCSV)
    {
      var list := LoadAll();
      var out := UpsertObjects(list, updated);
      SaveAll(out);
    }

    /** `incrementCompletedRentals`: the first customer with the id (ignoring case) gets one
        more completed rental and the badge it earns, and the list is saved; an unknown id
        writes nothing. */
    method IncrementCompletedRentals(customerId: string)
      modifies this
      ensures lines == AfterBump(old(lines), customerId)
    {
      var list := LoadAll();
      var changed := BumpFirst(list, customerId);
      if changed {
        SaveAll(list);
      }
    }
  }

  /** The first-match scan of `register` and `findById`: the position of the first
      customer whose key matches `k` ignoring case, or the list's length. (`findById`
      compares the other way round; the comparison is symmetric.) */
  method FirstMatch(list: seq<Customer>, key: CustomerRecord -> string, k: string) returns (i: nat)
    ensures i <= |list|
    ensures i < |list| ==> FirstIndexOfKey(Snapshot(list), key, k, IgnoreCase) == Some(i)
    ensures i == |list| ==> FirstIndexOfKey(Snapshot(list), key, k, IgnoreCase).None?
  {
    i := 0;
    while i < |list| && !EqualsIgnoreCase(key(list[i].Data()), k)
      invariant i <= |list|
      invariant forall j :: 0 <= j < i ==> !EqualsIgnoreCase(key(list[j].Data()), k)
    {
      i := i + 1;
    }
    ghost var cs := Snapshot(list);
    if i < |list| {
      assert Same(key(cs[i]), k, IgnoreCase);
    } else {
      FirstIndexOfKeyExists(cs, key, k, IgnoreCase);
    }
  }

  /** The body of `authenticate` on the loaded list. */
  method AuthenticateIn(list: seq<Customer>, email: string, password: Option<string>,
                        normalize: string -> string) returns (found: Customer?)
    ensures var i := Authenticated(Snapshot(list), email, password, normalize);
      && (found == null <==> i.None?)
      && (found != null ==> found == list[i.value])
  {
    var last := LastMatch(list, CustomerEmail, email);
    if last == null {
      return null;
    }
    var ok := ComparePasswords(last.password, password, normalize);
    found := if ok then last else null;
  }

  /** The last-match loop of `authenticate`: every matching customer replaces the one
      found so far. */
  method LastMatch(list: seq<Customer>, key: CustomerRecord -> string, k: string) returns (found: Customer?)
    ensures var i := LastIndexOfKey(Snapshot(list), key, k, IgnoreCase);
      && (found == null <==> i.None?)
      && (found != null ==> found == list[i.value])
  {
    ghost var cs := Snapshot(list);
    found := null;
    ghost var at: Option<nat> := None;
    for j := 0 to |list|
      invariant at == LastIndexOfKey(cs[..j], key, k, IgnoreCase)
      invariant at.None? <==> found == null
      invariant at.Some? ==> at.value < j && found == list[at.value]
    {
      LastIndexOfKeyStep(cs, j, key, k, IgnoreCase);
      if EqualsIgnoreCase(key(list[j].Data()), k) {
        found := list[j];
        at := Some(j);
      }
    }
    assert cs[..|list|] == cs;
  }

  /** The loop of `updateCustomer`: the output list holds `u` in place of each customer
      whose id matches, and `u` at the end when none did. */
  method UpsertObjects(list: seq<Customer>, u: Customer) returns (out: seq<Customer>)
    ensures Snapshot(out) == Upsert(Snapshot(list), u.Data(), CustomerId)
  {
    ghost var cs := Snapshot(list);
    out := [];
    var replaced := false;
    for k := 0 to |list|
      invariant |out| == k
      invariant forall j :: 0 <= j < k ==> out[j].Data() == if EqualsIgnoreCase(cs[j].id, u.id) then u.Data() else cs[j]
      invariant replaced <==> exists j :: 0 <= j < k && EqualsIgnoreCase(cs[j].id, u.id)
    {
      if EqualsIgnoreCase(list[k].id, u.id) {
        out := out + [u];
        replaced := true;
      } else {
        out := out + [list[k]];
      }
    }
    FirstIndexOfKeyExists(cs, CustomerId, u.id, IgnoreCase);
    if !replaced {
      out := out + [u];
    }
  }

  /** The loop of `incrementCompletedRentals` over the loaded list. */
  method BumpFirst(list: seq<Customer>, id: string) returns (changed: bool)
    requires Distinct(list)
    modifies set k | 0 <= k < |list| :: list[k]
    ensures var b := Bumped(old(Snapshot(list)), id);
      changed == b.Some? && Snapshot(list) == if changed then b.value else old(Snapshot(list))
  {
    var i := FirstMatch(list, CustomerId, id);
    if i == |list| {
      return false;
    }
    BumpAt(list, i);
    changed := true;
  }

  /** `setCompletedRentals(v)` then `setBadge` with the badge `v` earns, on one customer of
      a list of distinct objects: only position `i` changes. */
  method BumpAt(list: seq<Customer>, i: nat)
    requires i < |list| && Distinct(list)
    modifies list[i]
    ensures Snapshot(list) == old(Snapshot(list))[i := Bump(old(list[i].Data()))]
  {
    ghost var before := Snapshot(list);
    var c := list[i];
    var v := Inc32(c.completedRentals);
    c.SetCompletedRentals(v);
    if v >= 25 {
      c.SetBadge(Some("SILVER"));
    } else if v >= 10 {
      c.SetBadge(Some("BRONZE"));
    } else {
      c.SetBadge(Some(""));
    }
    forall k | 0 <= k < |list|
      ensures Snapshot(list)[k] == before[i := Bump(before[i])][k]
    {
      if k != i {
        assert list[k] != list[i];
      }
    }
  }

  /** The loop of `loadAll`, over the lines and with the line decoder it calls, which
      always gives a badge. */
  method LoadCustomers(lines: seq<string>, decode: string -> Option<CustomerRecord>) returns (list: seq<Customer>)
    requires forall line :: decode(line).Some? ==> decode(line).value.badge.Some?
    ensures Snapshot(list) == LoadRecords(lines, decode)
    ensures forall k :: 0 <= k < |list| ==> fresh(list[k])
    ensures Distinct(list)
  {
    list := [];
    for i := 0 to |lines|
      invariant Snapshot(list) == LoadRecords(lines[..i], decode)
      invariant forall k :: 0 <= k < |list| ==> fresh(list[k])
      invariant Distinct(list)
    {
      list := LoadLine(lines, i, decode, list);
    }
    assert lines[..|lines|] == lines;
  }

  /** One turn of the load loop: line `i` adds a new customer object when it is not blank
      and decodes, and nothing otherwise. */
  method LoadLine(lines: seq<string>, i: nat, decode: string -> Option<CustomerRecord>, list: seq<Customer>)
    returns (r: seq<Customer>)
    requires forall line :: decode(line).Some? ==> decode(line).value.badge.Some?
    requires i < |lines| && Distinct(list) && Snapshot(list) == LoadRecords(lines[..i], decode)
    ensures Snapshot(r) == LoadRecords(lines[..i + 1], decode) && Distinct(r)
    ensures |list| <= |r|
    ensures forall k :: 0 <= k < |r| ==> (k < |list| && r[k] == list[k]) || fresh(r[k])
  {
    var line := lines[i];
    var decoded := if IsBlank(line) then None else decode(line);
    if decoded.None? {
      LoadStepSkip(lines, i, decode);
      r := list;
    } else {
      var d := decoded.value;
      LoadStepAccept(lines, i, decode, d);
      ghost var before := Snapshot(list);
      assert d.badge.Some?;
      var c := new Customer.WithHistory(d.id, d.name, d.email, d.phone, d.password, d.completedRentals, d.badge);
      assert c.Data() == d;
      assert Snapshot(list) == before;
      SnapshotAppend(list, c);
      DistinctAppend(list, c);
      r := list + [c];
    }
  }
}
