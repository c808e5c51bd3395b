/** Shared vocabulary of the main service: optional values, the exceptions the
    services throw (as values), time in seconds, Java string predicates and the
    rendering of ids into URIs. */
module Common {

  datatype Option<T> = None | Some(value: T)

  /** The exception a service call ends with, by class. */
  datatype Error =
    | NotFound          // NotFoundException
    | BadRequest        // BadRequestException
    | Conflict          // ConflictException
    | Validation        // jakarta.validation.ValidationException
    | IllegalArgument   // Enum.valueOf on a name the enum does not have
    | StatsUnavailable  // an exception out of the stats client that nothing catches

  /** A service call that returns a value or throws. */
  datatype Result<T> = Ok(value: T) | Err(error: Error)

  /** A void service call: it returns, or it throws. */
  datatype Outcome = Pass | Fail(error: Error)

  /** Timestamps (LocalDateTime) are whole seconds on one time line. */
  const SecondsPerHour: int := 3600

  /** Character.isWhitespace: the Unicode space, line and paragraph separators
      except the three non-breaking spaces, plus U+0009..U+000D and U+001C..U+001F. */
  predicate IsWhitespace(c: char)
  {
    var n := c as int;
    || n == 0x20 || 0x09 <= n <= 0x0D || 0x1C <= n <= 0x1F
    || n == 0x1680 || 0x2000 <= n <= 0x2006 || 0x2008 <= n <= 0x200A
    || n == 0x2028 || n == 0x2029 || n == 0x205F || n == 0x3000
  }

  /** String.isBlank: empty or made of whitespace only. */
  predicate IsBlank(s: string)
  {
    forall i :: 0 <= i < |s| ==> IsWhitespace(s[i])
  }

  /** Lower-casing as String.toLowerCase and SQL lower() do it on ASCII letters. */
  function LowerChar(c: char): char
  {
    if 'A' <= c <= 'Z' then (c as int - 'A' as int + 'a' as int) as char else c
  }

  function Lower(s: string): (r: string)
    ensures |r| == |s|
    ensures forall i :: 0 <= i < |s| ==> r[i] == LowerChar(s[i])
  {
    if s == [] then [] else [LowerChar(s[0])] + Lower(s[1..])
  }

  predicate OccursAt(s: string, t: string, i: nat)
  {
    i + |t| <= |s| && s[i..i + |t|] == t
  }

  /** `s LIKE '%t%'` with t read literally: t is a substring of s. */
  predicate Contains(s: string, t: string)
  {
    exists i: nat :: i <= |s| && OccursAt(s, t, i)
  }

  function DigitChar(d: nat): char
    requires d < 10
  {
    "0123456789"[d]
  }

  function NatToString(n: nat): string
    decreases n
  {
    if n < 10 then [DigitChar(n)] else NatToString(n / 10) + [DigitChar(n % 10)]
  }

  /** Long.toString, as String.format("%s", id) renders an id. */
  function IntToString(i: int): string
  {
    if i < 0 then "-" + NatToString(-i) else NatToString(i)
  }
}
