/** The admins file and the admin operations on it: the default account written into an
    empty store, sign-in, adding an admin and updating one. */
module AdminServices {
  import opened Wrappers
  import opened Text
  import opened Numbers
  import opened Records
  import opened Credentials
  import opened Admins

  function AdminId(a: Admin): string {
    a.id
  }

  function Username(a: Admin): string {
    a.username
  }

  /** What `loadAll` returns for the file `lines`. */
  function Stored(lines: seq<string>): seq<Admin> {
    LoadRecords(lines, FromCSV)
  }

  /** The account `ensureDefaultAdmin` writes. */
  const DefaultAdmin := Admin("A001", "admin", Some("admin123"))

  /** The file after construction: the default admin is appended when no admin loads. */
  function WithDefault(lines: seq<string>): seq<string> {
    if Stored(lines) == [] then lines + [ToCSV(DefaultAdmin)] else lines
  }

  /** The position of the admin `authenticate` returns: the last one whose username
      matches ignoring case, provided the passwords match. */
  function Authenticated(admins: seq<Admin>, username: string, password: Option<string>,
                         normalize: string -> string): Option<nat>
  {
    match LastIndexOfKey(admins, Username, username, IgnoreCase)
    case None => None
    case Some(i) => if PasswordsMatch(admins[i].password, password, normalize) then Some(i) else None
  }

  /** Some stored admin has exactly this username: `addAdmin` refuses it. */
  predicate UsernameTaken(admins: seq<Admin>, username: string) {
    FirstIndexOfKey(admins, Username, username, Exact).Some?
  }

  /** The admin a successful `addAdmin` creates when `count` admins are stored. */
  function NewAdmin(count: nat, username: string, password: Option<string>): Admin {
    Admin(SequenceId('A', count + 1), username, password)
  }

  lemma DefaultAdminWellFormed()
    ensures WellFormed(DefaultAdmin) && HasPassword(DefaultAdmin)
  {
    assert IsField("A001") && IsField("admin") && IsField("admin123");
  }

  /** After construction at least one admin loads; when none loaded before, exactly the
      default one does. A second construction writes nothing. */
  lemma DefaultAdminPersists(lines: seq<string>)
    ensures |Stored(WithDefault(lines))| >= 1
    ensures Stored(lines) == [] ==> Stored(WithDefault(lines)) == [DefaultAdmin]
    ensures WithDefault(WithDefault(lines)) == WithDefault(lines)
  {
    if Stored(lines) == [] {
      DefaultAdminWellFormed();
      JoinNotBlank(Fields(DefaultAdmin));
      FromCSVOfToCSV(DefaultAdmin);
      LoadAfterAppend(lines, ToCSV(DefaultAdmin), FromCSV);
    }
  }

  /** In a store where no admin loaded, the default account signs in with "admin123"
      under any letter case of "admin". */
  lemma DefaultAdminSignsIn(lines: seq<string>, username: string, normalize: string -> string)
    requires Stored(lines) == [] && EqualsIgnoreCase("admin", username)
    ensures Authenticated(Stored(WithDefault(lines)), username, Some("admin123"), normalize) == Some(0)
  {
    DefaultAdminPersists(lines);
    LastIsNewest([], DefaultAdmin, username);
    assert [] + [DefaultAdmin] == [DefaultAdmin];
  }

  /** After a successful `addAdmin` of well-formed fields, the next load returns the
      stored admins followed by the new one — unless its password is empty or null, in
      which case its line is rejected and the load is unchanged. */
  lemma AddPersists(lines: seq<string>, username: string, password: Option<string>)
    requires IsField(username) && IsField(OrEmpty(password))
    ensures var admins := Stored(lines);
      var n := NewAdmin(|admins|, username, password);
      Stored(lines + [ToCSV(n)]) == admins + (if HasPassword(n) then [n] else [])
  {
    var n := NewAdmin(|Stored(lines)|, username, password);
    SequenceIdIsField('A', |Stored(lines)| + 1);
    JoinNotBlank(Fields(n));
    FromCSVOfToCSV(n);
    LoadAfterAppend(lines, ToCSV(n), FromCSV);
  }

  /** Right after adding an admin with a password, signing in with that password and the
      username in any letter case returns the new admin, even when an older admin has the
      same username in another case (`addAdmin` only refuses an exact match). */
  lemma AddThenAuthenticate(lines: seq<string>, username: string, password: Option<string>,
                            other: string, normalize: string -> string)
    requires IsField(username) && IsField(OrEmpty(password)) && OrEmpty(password) != ""
    requires EqualsIgnoreCase(username, other)
    ensures var admins := Stored(lines);
      var n := NewAdmin(|admins|, username, password);
      Authenticated(Stored(lines + [ToCSV(n)]), other, password, normalize) == Some(|admins|)
  {
    var admins := Stored(lines);
    var n := NewAdmin(|admins|, username, password);
    AddPersists(lines, username, password);
    LastIsNewest(admins, n, other);
  }

  /** An admin appended with a username equal to `other` ignoring case is the last match
      for `other`. */
  lemma LastIsNewest(admins: seq<Admin>, n: Admin, other: string)
    requires EqualsIgnoreCase(n.username, other)
    ensures LastIndexOfKey(admins + [n], Username, other, IgnoreCase) == Some(|admins|)
  {
    assert Same(Username((admins + [n])[|admins|]), other, IgnoreCase);
  }

  /** After `updateAdmin` with a well-formed admin, the next load returns the upserted
      list without the admins whose password is empty: those are written as a line with
      two pieces and lost. */
  lemma UpdatePersists(lines: seq<string>, u: Admin)
    requires WellFormed(u)
    ensures var up := Upsert(Stored(lines), u, AdminId);
      Stored(EncodeAll(up, ToCSV)) == Kept(up, HasPassword)
  {
    var admins := Stored(lines);
    LoadedSatisfy(lines, FromCSV, WellFormed);
    UpsertRereads(admins, u);
    LoadOfEncodedKept(Upsert(admins, u, AdminId), ToCSV, FromCSV, HasPassword);
  }

  /** Each admin of an upsert of well-formed admins reads back as itself, or is rejected
      when its password is empty. */
  lemma UpsertRereads(admins: seq<Admin>, u: Admin)
    requires WellFormed(u) && forall k :: 0 <= k < |admins| ==> WellFormed(admins[k])
    ensures var up := Upsert(admins, u, AdminId);
      forall k :: 0 <= k < |up| ==>
        !IsBlank(ToCSV(up[k])) && FromCSV(ToCSV(up[k])) == (if HasPassword(up[k]) then Some(up[k]) else None)
  {
    var up := Upsert(admins, u, AdminId);
    UpsertShape(admins, u, AdminId);
    forall k | 0 <= k < |up|
      ensures !IsBlank(ToCSV(up[k])) && FromCSV(ToCSV(up[k])) == (if HasPassword(up[k]) then Some(up[k]) else None)
    {
      if k < |admins| && !EqualsIgnoreCase(admins[k].id, u.id) {
        assert up[k] == admins[k];
      }
      JoinNotBlank(Fields(up[k]));
      FromCSVOfToCSV(up[k]);
    }
  }

  /** When the update and every stored admin have a password, the next load after
      `updateAdmin` returns exactly the upserted list, and a lookup by the updated id
      finds the update. */
  lemma UpdateKeepsAll(lines: seq<string>, u: Admin)
    requires WellFormed(u) && HasPassword(u)
    requires forall k :: 0 <= k < |Stored(lines)| ==> HasPassword(Stored(lines)[k])
    ensures var up := Upsert(Stored(lines), u, AdminId);
      && Stored(EncodeAll(up, ToCSV)) == up
      && var i := FirstIndexOfKey(up, AdminId, u.id, IgnoreCase); i.Some? && up[i.value] == u
  {
    var admins := Stored(lines);
    var up := Upsert(admins, u, AdminId);
    UpdatePersists(lines, u);
    UpsertShape(admins, u, AdminId);
    forall k | 0 <= k < |up| ensures HasPassword(up[k]) {
      if k < |admins| && !EqualsIgnoreCase(admins[k].id, u.id) {
        assert up[k] == admins[k];
      }
    }
    KeptAll(up, HasPassword);
    UpsertThenFind(admins, u, AdminId);
  }

  class AdminService {
    /** The lines of the admins file. */
    var lines: seq<string>

    /** The constructor runs `ensureDefaultAdmin`. */
    constructor (lines: seq<string>)
      ensures this.lines == WithDefault(lines)
    {
      this.lines := lines;
      new;
      EnsureDefaultAdmin();
    }

    /** `ensureDefaultAdmin`: appends the default admin when no admin loads. */
    method EnsureDefaultAdmin()
      modifies this
      ensures lines == WithDefault(old(lines))
    {
      var all := LoadAll();
      if |all| == 0 {
        lines := lines + [ToCSV(DefaultAdmin)];
      }
    }

    /** `loadAll`: the admins of the non-blank lines that decode, in file order. */
    method LoadAll() returns (list: seq<Admin>)
      ensures list == Stored(lines)
    {
      list := [];
      for i := 0 to |lines|
        invariant list == Stored(lines[..i])
      {
        var line := lines[i];
        var decoded := if IsBlank(line) then None else FromCSV(line);
        if decoded.None? {
          LoadStepSkip(lines, i, FromCSV);
        } else {
          LoadStepAccept(lines, i, FromCSV, decoded.value);
          list := list + [decoded.value];
        }
      }
      assert lines[..|lines|] == lines;
    }

    /** `authenticate`: the last admin whose username matches ignoring case, when the
        passwords match; nothing otherwise. */
    method Authenticate(username: string, password: Option<string>, normalize: string -> string)
      returns (found: Option<Admin>)
      ensures var admins := Stored(lines);
        var i := Authenticated(admins, username, password, normalize);
        && (found.None? <==> i.None?)
        && (found.Some? ==> found.value == admins[i.value])
    {
      var all := LoadAll();
      var last := LastUsernameMatch(all, username);
      if last.None? {
        return None;
      }
      var ok := ComparePasswords(last.value.password, password, normalize);
      found := if ok then last else None;
    }

    /** `addAdmin`: refuses a username already stored with exactly that spelling and
        writes nothing; otherwise appends an admin with the next identifier. */
    method AddAdmin(username: string, password: Option<string>) returns (outcome: Outcome<string>)
      modifies this
      ensures var admins := Stored(old(lines));
        && (UsernameTaken(admins, username) ==> outcome == Fail("username exists") && lines == old(lines))
        && (!UsernameTaken(admins, username) ==>
              outcome == Pass && lines == old(lines) + [ToCSV(NewAdmin(|admins|, username, password))])
    {
      var all := LoadAll();
      var taken := ExactUsernameMatch(all, username);
      if taken {
        return Fail("username exists");
      }
      var id := SequenceId('A', |all| + 1);
      lines := lines + [ToCSV(Admin(id, username, password))];
      outcome := Pass;
    }

    /** `updateAdmin`: every stored admin whose id matches ignoring case is replaced by
        `updated`, which is appended when none matches; the list is written back. */
    method UpdateAdmin(updated: Admin)
      modifies this
      ensures lines == EncodeAll(Upsert(Stored(old(lines)), updated, AdminId), ToCSV)
    {
      var list := LoadAll();
      var out := UpsertAdmins(list, updated);
      Overwrite(out);
    }

    /** The rewrite at the end of `updateAdmin`: one `toCSV` line per admin. */
    method Overwrite(list: seq<Admin>)
      modifies this
      ensures lines == EncodeAll(list, ToCSV)
    {
      var written: seq<string> := [];
      for k := 0 to |list|
        invariant |written| == k && forall j :: 0 <= j < k ==> written[j] == ToCSV(list[j])
      {
        written := written + [ToCSV(list[k])];
      }
      lines := written;
    }
  }

  /** The last-match loop of `authenticate`: every admin whose username matches ignoring
      case replaces the one found so far. */
  method LastUsernameMatch(list: seq<Admin>, username: string) returns (found: Option<Admin>)
    ensures var i := LastIndexOfKey(list, Username, username, IgnoreCase);
      && (found.None? <==> i.None?)
      && (found.Some? ==> found.value == list[i.value])
  {
    found := None;
    ghost var at: Option<nat> := None;
    for j := 0 to |list|
      invariant at == LastIndexOfKey(list[..j], Username, username, IgnoreCase)
      invariant at.None? <==> found.None?
      invariant at.Some? ==> at.value < j && found == Some(list[at.value])
    {
      LastIndexOfKeyStep(list, j, Username, username, IgnoreCase);
      if EqualsIgnoreCase(list[j].username, username) {
        found := Some(list[j]);
        at := Some(j);
      }
    }
    assert list[..|list|] == list;
  }

  /** The duplicate test of `addAdmin`: some admin has exactly this username. */
  method ExactUsernameMatch(list: seq<Admin>, username: string) returns (taken: bool)
    ensures taken == UsernameTaken(list, username)
  {
    var i := 0;
    while i < |list| && list[i].username != username
      invariant i <= |list|
      invariant forall j :: 0 <= j < i ==> list[j].username != username
    {
      i := i + 1;
    }
    taken := i < |list|;
    FirstIndexOfKeyExists(list, Username, username, Exact);
    if taken {
      assert Same(Username(list[i]), username, Exact);
    }
  }

  /** The loop of `updateAdmin`: `u` in place of each admin whose id matches ignoring case,
      and `u` at the end when none did. */
  method UpsertAdmins(list: seq<Admin>, u: Admin) returns (out: seq<Admin>)
    ensures out == Upsert(list, u, AdminId)
  {
    out := [];
    var replaced := false;
    for k := 0 to |list|
      invariant |out| == k
      invariant forall j :: 0 <= j < k ==> out[j] == if EqualsIgnoreCase(list[j].id, u.id) then u else list[j]
      invariant replaced <==> exists j :: 0 <= j < k && EqualsIgnoreCase(list[j].id, u.id)
    {
      if EqualsIgnoreCase(list[k].id, u.id) {
        out := out + [u];
        replaced := true;
      } else {
        out := out + [list[k]];
      }
    }
    FirstIndexOfKeyExists(list, AdminId, u.id, IgnoreCase);
    if !replaced {
      out := out + [u];
    }
  }
}
