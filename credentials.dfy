/** The password check both sign-in operations use. */
module Credentials {
  import opened Wrappers
  import opened Text

  /** Both sides, a null one as "", trimmed and normalised (NFKC, passed in as
      `normalize`), then compared exactly. */
  predicate PasswordsMatch(stored: Option<string>, given: Option<string>, normalize: string -> string) {
    normalize(Trim(OrEmpty(stored))) == normalize(Trim(OrEmpty(given)))
  }

  /** The comparison step by step: null as "", trim, normalise, compare exactly. */
  method ComparePasswords(stored: Option<string>, given: Option<string>, normalize: string -> string)
    returns (ok: bool)
    ensures ok == PasswordsMatch(stored, given, normalize)
  {
    var ns := Trim(OrEmpty(stored));
    var ng := Trim(OrEmpty(given));
    ns := normalize(ns);
    ng := normalize(ng);
    ok := ns == ng;
  }

  /** A null password compares exactly like the empty one, on either side. */
  lemma NullPasswordIsEmpty(stored: Option<string>, given: Option<string>, normalize: string -> string)
    ensures PasswordsMatch(None, given, normalize) == PasswordsMatch(Some(""), given, normalize)
    ensures PasswordsMatch(stored, None, normalize) == PasswordsMatch(stored, Some(""), normalize)
  {
  }

  /** Spaces around either password never matter: trimming it first changes nothing. */
  lemma SurroundingSpacesIgnored(s: string, stored: Option<string>, given: Option<string>,
                                 normalize: string -> string)
    ensures PasswordsMatch(Some(s), given, normalize) == PasswordsMatch(Some(Trim(s)), given, normalize)
    ensures PasswordsMatch(stored, Some(s), normalize) == PasswordsMatch(stored, Some(Trim(s)), normalize)
  {
    TrimOfTrimmed(Trim(s));
  }

  /** The comparison is an equivalence: every password matches itself, the order of the
      two sides does not matter, and matches chain. */
  lemma PasswordsMatchIsEquivalence(a: Option<string>, b: Option<string>, c: Option<string>,
                                    normalize: string -> string)
    ensures PasswordsMatch(a, a, normalize)
    ensures PasswordsMatch(a, b, normalize) <==> PasswordsMatch(b, a, normalize)
    ensures PasswordsMatch(a, b, normalize) && PasswordsMatch(b, c, normalize) ==> PasswordsMatch(a, c, normalize)
  {
  }
}
