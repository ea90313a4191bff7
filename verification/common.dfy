/**
 Shared vocabulary of the portal model: optional values, the outcome of a
 call into the hosted record store, and the character classes that the
 JavaScript string operations of the portal rely on.
 */
module Common {

  /** A value that may be missing (`null` / `undefined` in the portal). */
  datatype Option<+T> = None | Some(value: T) {
    /** The value, or `default` when missing. */
    function GetOr(default: T): T {
      match this
      case Some(v) => v
      case None => default
    }
  }

  /** What a rejected remote call threw: an `Error` object carries a message,
      anything else does not. */
  datatype Thrown = ErrorObject(message: string) | OtherValue

  /** How a call into the record store settled. */
  datatype RemoteOutcome = Succeeded | Failed(thrown: Thrown)

  /** A notification toast shown to the user. */
  datatype Toast = Toast(title: string, description: string, destructive: bool)

  /** The message a `catch (error)` block shows: the error's own message when
      it is an `Error`, the given fallback otherwise. */
  function FailureMessage(thrown: Thrown, fallback: string): (msg: string)
    ensures thrown.ErrorObject? ==> msg == thrown.message
    ensures thrown.OtherValue? ==> msg == fallback
  {
    match thrown
    case ErrorObject(m) => m
    case OtherValue => fallback
  }

  function Min(a: int, b: int): int {
    if a <= b then a else b
  }

  /** An ASCII capital letter. */
  predicate IsUpperAscii(c: char) {
    'A' <= c <= 'Z'
  }

  /** A decimal digit, as `\d` matches it in a JavaScript regular expression
      without the `u` flag. */
  predicate IsDecimalDigit(c: char) {
    '0' <= c <= '9'
  }

  /** The characters `\s` matches in a JavaScript regular expression:
      the ASCII blanks, the no-break and typographic spaces, the line and
      paragraph separators and the byte-order mark. */
  predicate IsJsSpace(c: char) {
    || c == ' ' || c == '\t' || c == '\n' || c == '\r' || c == '\U{000B}' || c == '\U{000C}'
    || c == '\U{00A0}' || c == '\U{1680}' || ('\U{2000}' <= c <= '\U{200A}')
    || c == '\U{2028}' || c == '\U{2029}' || c == '\U{202F}' || c == '\U{205F}'
    || c == '\U{3000}' || c == '\U{FEFF}'
  }

  /** `toLowerCase` on one character, restricted to ASCII letters. */
  function LowerChar(c: char): (d: char)
    ensures !IsUpperAscii(d)
    ensures IsJsSpace(d) <==> IsJsSpace(c)
    ensures IsUpperAscii(c) ==> d as int == c as int + 32
    ensures !IsUpperAscii(c) ==> d == c
  {
    if IsUpperAscii(c) then (c as int + 32) as char else c
  }

  /** `toLowerCase` on a string, restricted to ASCII letters: the result
      has no capital left, a text without capitals comes back unchanged,
      and each character is lower-cased where it stands. */
  function Lower(s: string): (r: string)
    ensures |r| == |s|
    ensures forall i :: 0 <= i < |s| ==> r[i] == LowerChar(s[i])
    ensures HasNoUpper(r)
    ensures HasNoUpper(s) ==> r == s
  {
    seq(|s|, i requires 0 <= i < |s| => LowerChar(s[i]))
  }

  /** Lower-casing works piece by piece. */
  lemma LowerConcat(a: string, b: string)
    ensures Lower(a + b) == Lower(a) + Lower(b)
  {
    assert forall i :: 0 <= i < |a + b| ==> Lower(a + b)[i] == (Lower(a) + Lower(b))[i];
  }

  /** No ASCII capital letter anywhere in `s`. */
  predicate HasNoUpper(s: string) {
    forall i :: 0 <= i < |s| ==> !IsUpperAscii(s[i])
  }

  /** Lower-casing leaves a string without capitals unchanged. */
  lemma LowerFixesLowercase(s: string)
    requires HasNoUpper(s)
    ensures Lower(s) == s
  {
  }

  /** A JavaScript string's `length`: characters outside the Basic
      Multilingual Plane count as two UTF-16 code units. */
  function Utf16Length(s: string): (n: nat)
    ensures |s| <= n <= 2 * |s|
    ensures n == 0 <==> |s| == 0
    decreases |s|
  {
    if |s| == 0 then 0
    else (if s[0] <= '\U{FFFF}' then 1 else 2) + Utf16Length(s[1..])
  }

  /** Without characters beyond the Basic Multilingual Plane, the code-unit
      count is the character count; with one, it is strictly larger. */
  lemma {:induction false} Utf16LengthOfBmp(s: string)
    ensures (forall i :: 0 <= i < |s| ==> s[i] <= '\U{FFFF}') <==> Utf16Length(s) == |s|
    decreases |s|
  {
    if |s| > 0 {
      Utf16LengthOfBmp(s[1..]);
      if forall i :: 0 <= i < |s| ==> s[i] <= '\U{FFFF}' {
        assert forall i :: 0 <= i < |s[1..]| ==> s[1..][i] <= '\U{FFFF}' by {
          forall i | 0 <= i < |s[1..]| ensures s[1..][i] <= '\U{FFFF}' {
            assert s[1..][i] == s[i + 1];
          }
        }
      } else if s[0] <= '\U{FFFF}' {
        var j :| 0 <= j < |s| && !(s[j] <= '\U{FFFF}');
        assert s[1..][j - 1] == s[j];
      }
    }
  }
}
