/**
 * The pieces of Rails' validation machinery the ledger models rely on:
 * an error record (attribute, message), Object#blank? on strings, and the
 * `\A[a-zA-Z0-9_\.]*\Z` format shared by coin codes and usernames.
 */
module Validations {
  import opened Wrappers

  /** One entry of a record's `errors` collection. */
  datatype ValidationError = ValidationError(attribute: string, message: string)

  // The default messages of the built-in validators.
  const TAKEN := "has already been taken"
  const INVALID := "is invalid"
  const BLANK := "can't be blank"
  const NOT_INCLUDED := "is not included in the list"
  const RESERVED := "is reserved"
  const NOT_A_NUMBER := "is not a number"
  const NOT_NEGATIVE := "must be greater than or equal to 0"

  /** The standard messages are pairwise different, so each names its rule. */
  lemma MessagesDistinct()
    ensures TAKEN != INVALID && TAKEN != BLANK && TAKEN != NOT_INCLUDED && TAKEN != RESERVED
    ensures TAKEN != NOT_A_NUMBER && TAKEN != NOT_NEGATIVE
    ensures INVALID != BLANK && INVALID != NOT_INCLUDED && INVALID != RESERVED
    ensures INVALID != NOT_A_NUMBER && INVALID != NOT_NEGATIVE
    ensures BLANK != NOT_INCLUDED && BLANK != RESERVED && BLANK != NOT_A_NUMBER && BLANK != NOT_NEGATIVE
    ensures NOT_INCLUDED != RESERVED && NOT_INCLUDED != NOT_A_NUMBER && NOT_INCLUDED != NOT_NEGATIVE
    ensures RESERVED != NOT_A_NUMBER && RESERVED != NOT_NEGATIVE
    ensures NOT_A_NUMBER != NOT_NEGATIVE
  {
    assert TAKEN[0] == 'h' && BLANK[0] == 'c' && NOT_NEGATIVE[0] == 'm';
    assert INVALID[0] == 'i' && NOT_INCLUDED[0] == 'i' && RESERVED[0] == 'i' && NOT_A_NUMBER[0] == 'i';
    assert INVALID[3] == 'i' && NOT_INCLUDED[3] == 'n' && RESERVED[3] == 'r' && NOT_A_NUMBER[3] == 'n';
    assert NOT_INCLUDED[7] == 'i' && NOT_A_NUMBER[7] == 'a';
  }

  /** An error is reported by a run of several validations exactly when one of them reports it. */
  lemma InErrors(e: ValidationError, a: seq<ValidationError>, b: seq<ValidationError>, c: seq<ValidationError>,
                 d: seq<ValidationError>, f: seq<ValidationError>)
    ensures e in a + b + c + d + f <==> e in a || e in b || e in c || e in d || e in f
  {
  }

  /** The characters String#blank? treats as space (ASCII only). */
  predicate IsSpace(c: char)
  {
    c == ' ' || c == '\t' || c == '\n' || c == '\r' || c == '\U{0B}' || c == '\U{0C}'
  }

  /** Object#blank? on a possibly-nil string: nil, empty, or only spaces. */
  predicate Blank(s: Option<string>)
  {
    s.None? || forall i :: 0 <= i < |s.value| ==> IsSpace(s.value[i])
  }

  /** Object#present?, the test of `presence: true` and of attribute queries such as `country_code?`. */
  predicate Present(s: Option<string>)
  {
    !Blank(s)
  }

  /** nil.to_s is the empty string; validators of format match against to_s. */
  function ToS(s: Option<string>): string
  {
    if s.Some? then s.value else ""
  }

  /** A member of the character class [a-zA-Z0-9_.]. */
  predicate IsWordChar(c: char)
  {
    ('a' <= c <= 'z') || ('A' <= c <= 'Z') || ('0' <= c <= '9') || c == '_' || c == '.'
  }

  predicate AllWordChars(s: string)
  {
    forall i :: 0 <= i < |s| ==> IsWordChar(s[i])
  }

  /**
   * Whether s matches /\A[a-zA-Z0-9_\.]*\Z/. Ruby's \Z matches at the end of
   * the string or just before a final newline, so one trailing "\n" passes.
   */
  predicate WordFormat(s: string)
    ensures WordFormat(s) <==> forall i :: 0 <= i < |s| ==> IsWordChar(s[i]) || (i == |s| - 1 && s[i] == '\n')
  {
    AllWordChars(s) || (|s| > 0 && s[|s| - 1] == '\n' && AllWordChars(s[..|s| - 1]))
  }

  /**
   * The format accepts exactly the word strings, with or without one final
   * newline, and never a newline anywhere else.
   */
  lemma WordFormatShape(s: string)
    ensures WordFormat(s) <==> exists t :: AllWordChars(t) && (s == t || s == t + "\n")
    ensures WordFormat(s) ==> forall i :: 0 <= i < |s| - 1 ==> s[i] != '\n'
  {
    if WordFormat(s) && !AllWordChars(s) {
      var t := s[..|s| - 1];
      assert s == t + "\n";
    }
    if exists t :: AllWordChars(t) && (s == t || s == t + "\n") {
      var t :| AllWordChars(t) && (s == t || s == t + "\n");
      if s != t {
        assert s[..|s| - 1] == t;
      }
    }
  }
}
