/** What the modules share: a value that may be absent (Python's `None`), increasing positions, and
    decimal digits. */
module Prelude {
  datatype Option<+T> = None | Some(value: T)

  predicate Increasing(s: seq<nat>) {
    forall i, j :: 0 <= i < j < |s| ==> s[i] < s[j]
  }

  /** Decimal digits of a number, without leading zeros. */
  function Decimal(n: nat): (s: string)
    ensures s != "" && forall c :: c in s ==> '0' <= c <= '9'
  {
    if n < 10 then [Digit(n)] else Decimal(n / 10) + [Digit(n % 10)]
  }

  function Digit(n: nat): (c: char)
    requires n < 10
    ensures '0' <= c <= '9' && c as int == '0' as int + n
  {
    '0' + n as char
  }
}
