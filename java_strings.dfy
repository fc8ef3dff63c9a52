/** The two pieces of java.lang.String behaviour the customer store relies on:
    `equalsIgnoreCase` (with ASCII case folding) and the decimal rendering of a
    `Long` inside string concatenation. */
module JavaStrings {
  import opened Wrappers

  /** ASCII case folding: an upper-case Latin letter becomes lower-case, every other
      character is kept. */
  function FoldCase(ch: char): char
  {
    if 'A' <= ch <= 'Z' then (ch as int + 32) as char else ch
  }

  /** `s.equalsIgnoreCase(other)`: false for a null argument, otherwise the two strings
      have the same length and agree character by character after case folding. */
  predicate EqualsIgnoreCase(s: string, other: Option<string>)
  {
    other.Some? && |s| == |other.value| &&
    forall i :: 0 <= i < |s| ==> FoldCase(s[i]) == FoldCase(other.value[i])
  }

  /** Case-insensitive equality is an equivalence on non-null strings and never holds of null. */
  lemma EqualsIgnoreCaseIsEquivalence(s: string, t: string, u: string)
    ensures EqualsIgnoreCase(s, Some(s))
    ensures EqualsIgnoreCase(s, Some(t)) <==> EqualsIgnoreCase(t, Some(s))
    ensures EqualsIgnoreCase(s, Some(t)) && EqualsIgnoreCase(t, Some(u)) ==> EqualsIgnoreCase(s, Some(u))
    ensures !EqualsIgnoreCase(s, None)
  {
  }

  /** Strings that differ only in the case of their letters match; strings of
      different lengths never do. */
  lemma EqualsIgnoreCaseExample(s: string, t: string)
    ensures EqualsIgnoreCase("John", Some("jOHN"))
    ensures |s| != |t| ==> !EqualsIgnoreCase(s, Some(t))
  {
  }

  function DigitChar(d: nat): (ch: char)
    requires d < 10
    ensures '0' <= ch <= '9' && DigitValue(ch) == d
  {
    "0123456789"[d]
  }

  function DigitValue(ch: char): nat
    requires '0' <= ch <= '9'
  {
    ch as int - '0' as int
  }

  predicate AllDigits(s: string)
  {
    forall i :: 0 <= i < |s| ==> '0' <= s[i] <= '9'
  }

  /** The decimal digits of a natural number, most significant first. */
  function NatToString(n: nat): (s: string)
    ensures |s| > 0 && AllDigits(s)
    decreases n
  {
    if n < 10 then [DigitChar(n)] else NatToString(n / 10) + [DigitChar(n % 10)]
  }

  /** The value of a string of decimal digits. */
  function ParseDigits(s: string): nat
    requires AllDigits(s)
    decreases |s|
  {
    if s == [] then 0 else ParseDigits(s[..|s| - 1]) * 10 + DigitValue(s[|s| - 1])
  }

  /** The decimal rendering loses nothing: reading it back gives the number. */
  lemma {:induction false} NatToStringRoundTrip(n: nat)
    ensures ParseDigits(NatToString(n)) == n
    decreases n
  {
    var s := NatToString(n);
    if n >= 10 {
      NatToStringRoundTrip(n / 10);
      assert s[..|s| - 1] == NatToString(n / 10);
    }
  }

  /** How Java renders a `Long` in string concatenation: `null` for a null reference,
      a leading minus sign for a negative value, then the decimal digits. */
  function LongToString(id: Option<int>): string
  {
    match id
    case None => "null"
    case Some(n) => if n < 0 then "-" + NatToString(-n) else NatToString(n)
  }
}
