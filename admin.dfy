/** An administrator account and its line in the admins file (`id,username,password`). */
module Admins {
  import opened Wrappers
  import opened Text

  /** The three fields of an admin; it has no setters. A null password is `None`. */
  datatype Admin = Admin(id: string, username: string, password: Option<string>)

  /** `toCSV`: the three fields joined by commas, a null password as "". */
  function ToCSV(a: Admin): string {
    Join(Fields(a))
  }

  /** The pieces `toCSV` joins. */
  function Fields(a: Admin): seq<string> {
    [a.id, a.username, OrEmpty(a.password)]
  }

  /** The fields are trimmed and free of commas. */
  predicate WellFormed(a: Admin) {
    IsField(a.id) && IsField(a.username) && IsField(OrEmpty(a.password))
  }

  /** The password as the file keeps it: "" for a null one. */
  predicate HasPassword(a: Admin) {
    OrEmpty(a.password) != ""
  }

  /** `fromCSV`: at least three pieces of `split(",")`, the first three trimmed and any
      further ones ignored. What it returns is well formed and has a password field. */
  function FromCSV(line: string): (r: Option<Admin>)
    ensures r.Some? ==> WellFormed(r.value) && r.value.password.Some?
  {
    var p := Split(line);
    if |p| < 3 then None
    else
      TrimIsField(p[0]); TrimIsField(p[1]); TrimIsField(p[2]);
      Some(Admin(Trim(p[0]), Trim(p[1]), Some(Trim(p[2]))))
  }

  /** A line of fewer than three pieces is rejected; any other gives its first three
      pieces trimmed. */
  lemma FromCSVCases(line: string)
    ensures var p := Split(line);
      && (FromCSV(line).None? <==> |p| < 3)
      && (FromCSV(line).Some? ==> FromCSV(line).value == Admin(Trim(p[0]), Trim(p[1]), Some(Trim(p[2]))))
  {
  }

  /** What a written admin reads back as: its fields when its password is not empty, and
      nothing when it is. An empty (or null) password is written as a trailing comma,
      which `split(",")` drops, so the line has two pieces and is rejected. */
  lemma FromCSVOfToCSV(a: Admin)
    requires WellFormed(a)
    ensures FromCSV(ToCSV(a)) == if HasPassword(a) then Some(a) else None
  {
    var f := Fields(a);
    assert CommaFree(f);
    if HasPassword(a) {
      SplitOfJoin(f);
      TrimOfTrimmed(a.id);
      TrimOfTrimmed(a.username);
      TrimOfTrimmed(a.password.value);
    } else {
      SplitOfJoinEmptyLast(f);
    }
  }
}
