/** Strings that end at a NUL character or, at the latest, behind their last character. */
module CStrings {
  const NUL: char := '\0'

  /** The character at a position; past its end a string reads as its terminator. */
  function At(s: string, p: nat): char {
    if p < |s| then s[p] else NUL
  }

  /** strlen */
  function Length(s: string): (n: nat)
    ensures n <= |s|
    ensures forall i :: 0 <= i < n ==> s[i] != NUL
    ensures n < |s| ==> s[n] == NUL
  {
    if s == "" || s[0] == NUL then 0 else 1 + Length(s[1..])
  }

  /** The characters before the terminator. */
  function Text(s: string): string {
    s[..Length(s)]
  }
}
