/** Shared vocabulary: optional values, instants, and the truncating division of the modelled program. */
module Base {
  datatype Option<+T> = None | Some(value: T)

  /** The outcome of an operation that may be refused, with the code of the refusal. */
  datatype Outcome = Done | Refused(code: string)

  /** Nanoseconds since 0000-01-01T00:00:00Z, proleptic Gregorian calendar. */
  type Time = int

  const SECOND: int := 1_000_000_000
  const MINUTE: int := 60 * SECOND
  const HOUR: int := 60 * MINUTE
  const DAY: int := 86_400 * SECOND

  /** Integer division that truncates toward zero, as a float-to-int conversion does. */
  function Trunc(x: int, d: int): (q: int)
    requires d > 0
    ensures x >= 0 ==> q * d <= x < (q + 1) * d
    ensures x < 0 ==> (q - 1) * d < x <= q * d
  {
    if x >= 0 then x / d else -(-x / d)
  }

  /** White space as Unicode has it. */
  predicate IsSpace(c: char) {
    c == ' ' || '\t' <= c <= '\r' || c == '\U{85}' || c == '\U{A0}' || c == '\U{1680}' ||
    '\U{2000}' <= c <= '\U{200A}' ||
    c == '\U{2028}' || c == '\U{2029}' || c == '\U{202F}' || c == '\U{205F}' || c == '\U{3000}'
  }

  /** Nothing is left of the text once it is trimmed. */
  predicate IsBlank(s: string) {
    forall i :: 0 <= i < |s| ==> IsSpace(s[i])
  }

  function Max(a: int, b: int): int {
    if a >= b then a else b
  }

  function Min(a: int, b: int): int {
    if a <= b then a else b
  }
}
