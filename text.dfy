/** The java.lang.String operations the ledger relies on, with their Java meaning:
    trimming, ASCII case-insensitive comparison, splitting on commas and joining. */
module Text {

  /** `String.trim` removes every leading and trailing character at or below U+0020. */
  predicate IsSpace(c: char) {
    c <= ' '
  }

  function TrimStart(s: string): (r: string)
    ensures |r| <= |s|
    ensures r == [] || !IsSpace(r[0])
  {
    if |s| > 0 && IsSpace(s[0]) then TrimStart(s[1..]) else s
  }

  function TrimEnd(s: string): (r: string)
    ensures |r| <= |s|
    ensures r == [] || !IsSpace(r[|r| - 1])
  {
    if |s| > 0 && IsSpace(s[|s| - 1]) then TrimEnd(s[..|s| - 1]) else s
  }

  /** `TrimStart` keeps a suffix of its input... */
  lemma {:induction false} TrimStartIsSuffix(s: string)
    ensures TrimStart(s) == s[|s| - |TrimStart(s)|..]
  {
    if |s| > 0 && IsSpace(s[0]) {
      TrimStartIsSuffix(s[1..]);
    }
  }

  /** ...and `TrimEnd` a prefix. */
  lemma {:induction false} TrimEndIsPrefix(s: string)
    ensures TrimEnd(s) == s[..|TrimEnd(s)|]
  {
    if |s| > 0 && IsSpace(s[|s| - 1]) {
      TrimEndIsPrefix(s[..|s| - 1]);
    }
  }

  /** Neither end of `s` is a space character. */
  predicate IsTrimmed(s: string) {
    s == [] || (!IsSpace(s[0]) && !IsSpace(s[|s| - 1]))
  }

  /** `String.trim`: drops leading then trailing space characters; the result has no
      space at either end. */
  function Trim(s: string): (r: string)
    ensures IsTrimmed(r)
  {
    var t := TrimStart(s);
    TrimEndIsPrefix(t);
    TrimEnd(t)
  }

  lemma TrimOfTrimmed(s: string)
    requires IsTrimmed(s)
    ensures Trim(s) == s
  {
  }

  lemma {:induction false} CommaFreeTrim(s: string)
    requires ',' !in s
    ensures ',' !in Trim(s)
  {
    var t := TrimStart(s);
    var r := TrimEnd(t);
    TrimStartIsSuffix(s);
    TrimEndIsPrefix(t);
    forall k | 0 <= k < |r| ensures r[k] != ',' {
      assert r[k] == t[k] == s[|s| - |t| + k];
    }
  }

  /** A field as a loader produces it: trimmed and free of commas. */
  predicate IsField(s: string) {
    IsTrimmed(s) && ',' !in s
  }

  /** Trimming a piece of a comma split gives a field. */
  lemma TrimIsField(s: string)
    requires ',' !in s
    ensures IsField(Trim(s))
  {
    CommaFreeTrim(s);
  }

  /** `s.trim().isEmpty()`, the test every loader uses to skip a line. */
  predicate IsBlank(s: string) {
    Trim(s) == []
  }

  lemma {:induction false} TrimStartEmpty(s: string)
    ensures TrimStart(s) == [] <==> forall k :: 0 <= k < |s| ==> IsSpace(s[k])
  {
    if |s| > 0 && IsSpace(s[0]) {
      TrimStartEmpty(s[1..]);
      assert forall k :: 1 <= k < |s| ==> s[k] == s[1..][k - 1];
    }
  }

  lemma {:induction false} TrimEndEmpty(s: string)
    ensures TrimEnd(s) == [] <==> forall k :: 0 <= k < |s| ==> IsSpace(s[k])
  {
    if |s| > 0 && IsSpace(s[|s| - 1]) {
      TrimEndEmpty(s[..|s| - 1]);
      assert forall k :: 0 <= k < |s| - 1 ==> s[k] == s[..|s| - 1][k];
    }
  }

  /** A line is blank exactly when every character of it is a space character. */
  lemma BlankIffAllSpace(s: string)
    ensures IsBlank(s) <==> forall k :: 0 <= k < |s| ==> IsSpace(s[k])
  {
    var t := TrimStart(s);
    TrimStartEmpty(s);
    TrimEndEmpty(t);
  }

  /** ASCII upper-casing, the part of `Character.toUpperCase` the model keeps. */
  function UpperAscii(c: char): char {
    if 'a' <= c <= 'z' then (c as int - 32) as char else c
  }

  /** `String.equalsIgnoreCase`: same length, and each pair of characters equal after
      upper-casing. */
  predicate EqualsIgnoreCase(a: string, b: string) {
    |a| == |b| && forall i :: 0 <= i < |a| ==> UpperAscii(a[i]) == UpperAscii(b[i])
  }

  lemma EqualsIgnoreCaseSymmetric(a: string, b: string)
    ensures EqualsIgnoreCase(a, b) <==> EqualsIgnoreCase(b, a)
  {
  }

  lemma EqualsIgnoreCaseTransitive(a: string, b: string, c: string)
    requires EqualsIgnoreCase(a, b)
    ensures EqualsIgnoreCase(b, c) <==> EqualsIgnoreCase(a, c)
  {
  }

  /** The first position of `c` in `s`. */
  function IndexOf(s: string, c: char): (r: nat)
    requires c in s
    ensures r < |s| && s[r] == c && c !in s[..r]
  {
    if s[0] == c then 0 else 1 + IndexOf(s[1..], c)
  }

  lemma {:induction false} IndexOfAfterPrefix(a: string, c: char, b: string)
    requires c !in a
    ensures c in a + [c] + b && IndexOf(a + [c] + b, c) == |a|
  {
    var s := a + [c] + b;
    assert s[|a|] == c;
    assert s[..|a|] == a;
  }

  /** `s.split(",", -1)`: every piece between commas, trailing empty pieces included. */
  function SplitAll(s: string): (r: seq<string>)
    ensures |r| >= 1
    ensures forall k :: 0 <= k < |r| ==> ',' !in r[k]
    decreases |s|
  {
    if ',' !in s then [s]
    else
      var i := IndexOf(s, ',');
      [s[..i]] + SplitAll(s[i + 1..])
  }

  /** The trailing empty strings removed, as `String.split` does with limit 0. */
  function DropTrailingEmpty(ps: seq<string>): (r: seq<string>)
    ensures |r| <= |ps| && r == ps[..|r|]
    ensures r == [] || r[|r| - 1] != []
    ensures forall k :: |r| <= k < |ps| ==> ps[k] == []
  {
    if |ps| > 0 && ps[|ps| - 1] == [] then DropTrailingEmpty(ps[..|ps| - 1]) else ps
  }

  /** `s.split(",")`: a line with no comma comes back whole (even when empty); otherwise
      the pieces between commas, with trailing empty pieces dropped. */
  function Split(s: string): (r: seq<string>)
    ensures forall k :: 0 <= k < |r| ==> ',' !in r[k]
    ensures ',' in s ==> |r| <= |SplitAll(s)|
  {
    if ',' !in s then [s] else DropTrailingEmpty(SplitAll(s))
  }

  /** `String.join(",", fields)`. */
  function Join(fields: seq<string>): string {
    if |fields| == 0 then ""
    else if |fields| == 1 then fields[0]
    else fields[0] + "," + Join(fields[1..])
  }

  /** Every field is free of commas, so joining them loses no boundary. */
  predicate CommaFree(fields: seq<string>) {
    forall k :: 0 <= k < |fields| ==> ',' !in fields[k]
  }

  /** `split(",", -1)` undoes `String.join(",", …)` on comma-free fields. */
  lemma {:induction false} SplitAllOfJoin(fields: seq<string>)
    requires |fields| >= 1 && CommaFree(fields)
    ensures SplitAll(Join(fields)) == fields
  {
    if |fields| > 1 {
      var rest := Join(fields[1..]);
      IndexOfAfterPrefix(fields[0], ',', rest);
      var s := Join(fields);
      assert s == fields[0] + [','] + rest;
      assert s[..|fields[0]|] == fields[0];
      assert s[|fields[0]| + 1..] == rest;
      SplitAllOfJoin(fields[1..]);
    }
  }

  lemma {:induction false} JoinHasComma(fields: seq<string>)
    requires |fields| >= 2
    ensures ',' in Join(fields)
  {
    assert Join(fields)[|fields[0]|] == ',';
  }

  /** The join of two or more fields holds a comma, so it is never blank and a loader
      never skips a written line. */
  lemma JoinNotBlank(fields: seq<string>)
    requires |fields| >= 2
    ensures !IsBlank(Join(fields))
  {
    var line := Join(fields);
    JoinHasComma(fields);
    var i :| 0 <= i < |line| && line[i] == ',';
    BlankIffAllSpace(line);
  }

  /** `split(",")` undoes the join of two or more comma-free fields whose last field is
      not empty. */
  lemma SplitOfJoin(fields: seq<string>)
    requires |fields| >= 2 && CommaFree(fields) && fields[|fields| - 1] != []
    ensures Split(Join(fields)) == fields
  {
    JoinHasComma(fields);
    SplitAllOfJoin(fields);
  }

  /** `split(",", -1)` cuts a comma-free field off the front at the first comma. */
  lemma SplitAllCons(x: string, s: string, pieces: seq<string>)
    requires ',' !in x && SplitAll(s) == pieces
    ensures SplitAll(x + "," + s) == [x] + pieces
  {
    IndexOfAfterPrefix(x, ',', s);
    var t := x + "," + s;
    assert t[..|x|] == x;
    assert t[|x| + 1..] == s;
  }

  /** So a field `a,b` followed by comma-free fields comes back from `split(",", -1)` as
      the two pieces `a` and `b`. */
  lemma SplitAllOfCommaInField(x: string, a: string, b: string, rest: seq<string>)
    requires ',' !in x && ',' !in a && ',' !in b && |rest| >= 1 && CommaFree(rest)
    ensures SplitAll(x + "," + (a + "," + (b + "," + Join(rest)))) == [x] + ([a] + ([b] + rest))
  {
    var s1 := b + "," + Join(rest);
    SplitAllOfJoin(rest);
    SplitAllCons(b, Join(rest), rest);
    SplitAllCons(a, s1, [b] + rest);
    SplitAllCons(x, a + "," + s1, [a] + ([b] + rest));
  }

  /** Joining a field in front of a non-empty list puts one comma between them. */
  lemma JoinCons(s: string, rest: seq<string>)
    requires |rest| >= 1
    ensures Join([s] + rest) == s + "," + Join(rest)
  {
    assert ([s] + rest)[1..] == rest;
  }

  /** With an empty last field, `split(",")` returns fewer pieces than were joined. */
  lemma SplitOfJoinEmptyLast(fields: seq<string>)
    requires |fields| >= 2 && CommaFree(fields) && fields[|fields| - 1] == []
    ensures |Split(Join(fields))| < |fields|
  {
    JoinHasComma(fields);
    SplitAllOfJoin(fields);
  }
}
