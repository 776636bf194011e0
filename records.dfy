/** What every service does with its file: load all lines through a decoder, write all
    records back through an encoder, and find records by a text key. */
module Records {
  import opened Wrappers
  import opened Text

  /** The records `loadAll` returns for the file `lines`: in file order, every line that
      is not blank and that `decode` accepts. */
  function LoadRecords<T>(lines: seq<string>, decode: string -> Option<T>): (r: seq<T>)
    ensures |r| <= |lines|
  {
    if lines == [] then []
    else
      var rest := LoadRecords(lines[..|lines| - 1], decode);
      var line := lines[|lines| - 1];
      if IsBlank(line) then rest
      else match decode(line)
        case Some(x) => rest + [x]
        case None => rest
  }

  /** Appending one line to the file adds at most that line's record at the end of what
      the next load returns. */
  lemma LoadAfterAppend<T>(lines: seq<string>, line: string, decode: string -> Option<T>)
    ensures LoadRecords(lines + [line], decode)
         == LoadRecords(lines, decode) + (if IsBlank(line) || decode(line).None? then [] else [decode(line).value])
  {
    assert (lines + [line])[..|lines|] == lines;
  }

  /** One more line read by a load loop: an accepted line adds its record... */
  lemma LoadStepAccept<T>(lines: seq<string>, i: nat, decode: string -> Option<T>, x: T)
    requires i < |lines| && !IsBlank(lines[i]) && decode(lines[i]) == Some(x)
    ensures LoadRecords(lines[..i + 1], decode) == LoadRecords(lines[..i], decode) + [x]
  {
    assert lines[..i + 1][..i] == lines[..i];
  }

  /** ...and a blank or rejected line adds nothing. */
  lemma LoadStepSkip<T>(lines: seq<string>, i: nat, decode: string -> Option<T>)
    requires i < |lines| && (IsBlank(lines[i]) || decode(lines[i]).None?)
    ensures LoadRecords(lines[..i + 1], decode) == LoadRecords(lines[..i], decode)
  {
    assert lines[..i + 1][..i] == lines[..i];
  }

  /** Whatever every accepted line decodes to has property `P`, so every loaded record has it. */
  lemma {:induction false} LoadedSatisfy<T>(lines: seq<string>, decode: string -> Option<T>, P: T -> bool)
    requires forall line :: decode(line).Some? ==> P(decode(line).value)
    ensures forall k :: 0 <= k < |LoadRecords(lines, decode)| ==> P(LoadRecords(lines, decode)[k])
  {
    if lines != [] {
      LoadedSatisfy(lines[..|lines| - 1], decode, P);
    }
  }

  /** The lines `saveAll` writes: one encoded line per record, in order. */
  function EncodeAll<T>(xs: seq<T>, encode: T -> string): seq<string> {
    seq(|xs|, k requires 0 <= k < |xs| => encode(xs[k]))
  }

  /** Loading a file written by `EncodeAll` gives back, record by record, what decoding
      each encoded record gives. */
  lemma LoadOfEncoded<T>(xs: seq<T>, ys: seq<T>, encode: T -> string, decode: string -> Option<T>)
    requires |xs| == |ys|
    requires forall k :: 0 <= k < |xs| ==> !IsBlank(encode(xs[k])) && decode(encode(xs[k])) == Some(ys[k])
    ensures LoadRecords(EncodeAll(xs, encode), decode) == ys
  {
    var lines := EncodeAll(xs, encode);
    assert forall k :: 0 <= k < |lines| ==> lines[k] == encode(xs[k]);
    LoadOfAccepted(lines, ys, decode);
  }

  /** A file whose every line is accepted loads to exactly the decoded lines. */
  lemma {:induction false} LoadOfAccepted<T>(lines: seq<string>, ys: seq<T>, decode: string -> Option<T>)
    requires |lines| == |ys|
    requires forall k :: 0 <= k < |lines| ==> !IsBlank(lines[k]) && decode(lines[k]) == Some(ys[k])
    ensures LoadRecords(lines, decode) == ys
  {
    if lines != [] {
      var n := |lines| - 1;
      LoadOfAccepted(lines[..n], ys[..n], decode);
      LoadStepAccept(lines, n, decode, ys[n]);
      LastSplit(lines);
      LastSplit(ys);
    }
  }

  lemma LastSplit<T>(s: seq<T>)
    requires s != []
    ensures s[..|s| - 1] + [s[|s| - 1]] == s && s[..|s|] == s
  {
  }

  /** The records of `xs` that satisfy `keep`, in order. */
  function Kept<T>(xs: seq<T>, keep: T -> bool): (r: seq<T>)
    ensures |r| <= |xs|
    ensures forall k :: 0 <= k < |r| ==> keep(r[k])
  {
    if xs == [] then []
    else Kept(xs[..|xs| - 1], keep) + (if keep(xs[|xs| - 1]) then [xs[|xs| - 1]] else [])
  }

  /** When every record is kept, `Kept` is the identity. */
  lemma {:induction false} KeptAll<T>(xs: seq<T>, keep: T -> bool)
    requires forall k :: 0 <= k < |xs| ==> keep(xs[k])
    ensures Kept(xs, keep) == xs
  {
    if xs != [] {
      KeptAll(xs[..|xs| - 1], keep);
      LastSplit(xs);
    }
  }

  /** Loading a file written by `EncodeAll`, when each record either reads back as itself
      or is rejected, gives exactly the records that read back. */
  lemma LoadOfEncodedKept<T>(xs: seq<T>, encode: T -> string, decode: string -> Option<T>, keep: T -> bool)
    requires forall k :: 0 <= k < |xs| ==>
      !IsBlank(encode(xs[k])) && decode(encode(xs[k])) == (if keep(xs[k]) then Some(xs[k]) else None)
    ensures LoadRecords(EncodeAll(xs, encode), decode) == Kept(xs, keep)
  {
    var lines := EncodeAll(xs, encode);
    assert forall k :: 0 <= k < |lines| ==> lines[k] == encode(xs[k]);
    LoadOfKeptLines(lines, xs, decode, keep);
  }

  /** A file whose every line either decodes to its record or is rejected loads to exactly
      the records that decode. */
  lemma {:induction false} LoadOfKeptLines<T>(lines: seq<string>, xs: seq<T>, decode: string -> Option<T>,
                                              keep: T -> bool)
    requires |lines| == |xs|
    requires forall k :: 0 <= k < |lines| ==>
      !IsBlank(lines[k]) && decode(lines[k]) == (if keep(xs[k]) then Some(xs[k]) else None)
    ensures LoadRecords(lines, decode) == Kept(xs, keep)
  {
    if lines != [] {
      var n := |lines| - 1;
      LoadOfKeptLines(lines[..n], xs[..n], decode, keep);
      if keep(xs[n]) {
        LoadStepAccept(lines, n, decode, xs[n]);
      } else {
        LoadStepSkip(lines, n, decode);
      }
      LastSplit(lines);
    }
  }

  /** Java's `equals` or `equalsIgnoreCase`, whichever the caller uses. */
  datatype Comparison = Exact | IgnoreCase

  predicate Same(a: string, b: string, cmp: Comparison) {
    match cmp
    case Exact => a == b
    case IgnoreCase => EqualsIgnoreCase(a, b)
  }

  /** The position of the first record whose key is the same as `k`. */
  function FirstIndexOfKey<T>(xs: seq<T>, key: T -> string, k: string, cmp: Comparison): (r: Option<nat>)
    ensures r.Some? ==> r.value < |xs| && Same(key(xs[r.value]), k, cmp)
    ensures r.Some? ==> forall j :: 0 <= j < r.value ==> !Same(key(xs[j]), k, cmp)
    ensures r.None? ==> forall j :: 0 <= j < |xs| ==> !Same(key(xs[j]), k, cmp)
  {
    if xs == [] then None
    else if Same(key(xs[0]), k, cmp) then Some(0)
    else match FirstIndexOfKey(xs[1..], key, k, cmp)
      case Some(i) => Some(i + 1)
      case None => None
  }

  /** The position of the last record whose key is the same as `k`. */
  function LastIndexOfKey<T>(xs: seq<T>, key: T -> string, k: string, cmp: Comparison): (r: Option<nat>)
    ensures r.Some? ==> r.value < |xs| && Same(key(xs[r.value]), k, cmp)
    ensures r.Some? ==> forall j :: r.value < j < |xs| ==> !Same(key(xs[j]), k, cmp)
    ensures r.None? ==> forall j :: 0 <= j < |xs| ==> !Same(key(xs[j]), k, cmp)
  {
    if xs == [] then None
    else if Same(key(xs[|xs| - 1]), k, cmp) then Some(|xs| - 1)
    else LastIndexOfKey(xs[..|xs| - 1], key, k, cmp)
  }

  /** One more record scanned by a last-match loop: a match moves the answer to it. */
  lemma LastIndexOfKeyStep<T>(xs: seq<T>, j: nat, key: T -> string, k: string, cmp: Comparison)
    requires j < |xs|
    ensures LastIndexOfKey(xs[..j + 1], key, k, cmp)
         == if Same(key(xs[j]), k, cmp) then Some(j) else LastIndexOfKey(xs[..j], key, k, cmp)
  {
    assert xs[..j + 1][..j] == xs[..j];
  }

  /** A first match exists exactly when some record matches. */
  lemma FirstIndexOfKeyExists<T>(xs: seq<T>, key: T -> string, k: string, cmp: Comparison)
    ensures FirstIndexOfKey(xs, key, k, cmp).Some? <==> exists j :: 0 <= j < |xs| && Same(key(xs[j]), k, cmp)
  {
  }

  /** Two sequences whose keys agree position by position have their first match at the
      same place. */
  lemma {:induction false} FirstIndexOfSameKeys<T>(xs: seq<T>, ys: seq<T>, key: T -> string, k: string, cmp: Comparison)
    requires |xs| == |ys| && forall j :: 0 <= j < |xs| ==> key(xs[j]) == key(ys[j])
    ensures FirstIndexOfKey(xs, key, k, cmp) == FirstIndexOfKey(ys, key, k, cmp)
  {
    if xs != [] {
      FirstIndexOfSameKeys(xs[1..], ys[1..], key, k, cmp);
    }
  }

  /** The `updateCustomer`/`updateAdmin` rewrite: each record whose key equals `u`'s key
      ignoring case is replaced by `u`, and `u` is appended when none is. */
  function Upsert<T>(xs: seq<T>, u: T, key: T -> string): (r: seq<T>)
  {
    var replaced := seq(|xs|, j requires 0 <= j < |xs| => if EqualsIgnoreCase(key(xs[j]), key(u)) then u else xs[j]);
    if FirstIndexOfKey(xs, key, key(u), IgnoreCase).Some? then replaced else replaced + [u]
  }

  /** Upsert keeps the order and every other record; it replaces every match, and it
      grows the sequence by one exactly when nothing matched. */
  lemma UpsertShape<T>(xs: seq<T>, u: T, key: T -> string)
    ensures var r := Upsert(xs, u, key);
      && ((exists j :: 0 <= j < |xs| && EqualsIgnoreCase(key(xs[j]), key(u))) <==> |r| == |xs|)
      && |xs| <= |r| <= |xs| + 1
      && (forall j :: 0 <= j < |xs| ==> r[j] == if EqualsIgnoreCase(key(xs[j]), key(u)) then u else xs[j])
      && (|r| == |xs| + 1 ==> r[|xs|] == u)
  {
    var r := Upsert(xs, u, key);
    if exists j :: 0 <= j < |xs| && EqualsIgnoreCase(key(xs[j]), key(u)) {
      var j :| 0 <= j < |xs| && EqualsIgnoreCase(key(xs[j]), key(u));
      assert Same(key(xs[j]), key(u), IgnoreCase);
    }
  }

  /** After an upsert, a lookup of `u`'s key finds `u`. */
  lemma UpsertThenFind<T>(xs: seq<T>, u: T, key: T -> string)
    ensures var i := FirstIndexOfKey(Upsert(xs, u, key), key, key(u), IgnoreCase);
      i.Some? && Upsert(xs, u, key)[i.value] == u
  {
    var r := Upsert(xs, u, key);
    UpsertShape(xs, u, key);
    var w: nat :| w < |r| && r[w] == u by {
      if |r| == |xs| {
        var j :| 0 <= j < |xs| && EqualsIgnoreCase(key(xs[j]), key(u));
        assert r[j] == u;
      } else {
        assert r[|xs|] == u;
      }
    }
    assert Same(key(r[w]), key(u), IgnoreCase);
  }

  /** Updating twice with the same record changes nothing the second time. */
  lemma UpsertIdempotent<T>(xs: seq<T>, u: T, key: T -> string)
    ensures Upsert(Upsert(xs, u, key), u, key) == Upsert(xs, u, key)
  {
    var r := Upsert(xs, u, key);
    var r2 := Upsert(r, u, key);
    UpsertShape(xs, u, key);
    UpsertShape(r, u, key);
    UpsertThenFind(xs, u, key);
    var i := FirstIndexOfKey(r, key, key(u), IgnoreCase);
    assert EqualsIgnoreCase(key(r[i.value]), key(u));
    assert |r2| == |r|;
    forall j | 0 <= j < |r| ensures r2[j] == r[j] {
      if j < |xs| && !EqualsIgnoreCase(key(xs[j]), key(u)) {
        assert r[j] == xs[j];
      }
    }
  }

  /** No object appears twice in a loaded list. */
  predicate Distinct<T(==)>(s: seq<T>) {
    forall a, b :: 0 <= a < b < |s| ==> s[a] != s[b]
  }

  /** Appending an element that is not yet present keeps a list free of repeats. */
  lemma DistinctAppend<T>(s: seq<T>, x: T)
    requires Distinct(s) && x !in s
    ensures Distinct(s + [x])
  {
  }
}
