/** The letters and digits, written out, and where each of them stands. */
module Alphabets {
  const UPPER := "ABCDEFGHIJKLMNOPQRSTUVWXYZ"
  const LOWER := "abcdefghijklmnopqrstuvwxyz"
  const DIGITS := "0123456789"

  lemma {:induction false} UpperAt(i: nat)
    ensures |UPPER| == 26
    ensures i < 26 ==> UPPER[i] == 'A' + i as char
  {
  }

  lemma {:induction false} LowerAt(i: nat)
    ensures |LOWER| == 26
    ensures i < 26 ==> LOWER[i] == 'a' + i as char
  {
  }

  lemma {:induction false} DigitAt(i: nat)
    ensures |DIGITS| == 10
    ensures i < 10 ==> DIGITS[i] == '0' + i as char
  {
  }
}
