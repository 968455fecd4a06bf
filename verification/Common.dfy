// Small things that several modules share.
module Common {

  datatype Option<T> = None | Some(value: T)

  // The value of a guard. A condition of many cases that is wrapped so is proved as a whole, and not
  // each of its cases apart.
  datatype Guard = Met | Unmet

  function Gate(b: bool): Guard {
    if b then Met else Unmet
  }

  predicate Distinct(s: seq<string>) {
    forall i, j :: 0 <= i < j < |s| ==> s[i] != s[j]
  }

  // A digit of %x
  function HexDigit(d: nat): char
    requires d < 16
  {
    if d < 10 then (48 + d) as char else (87 + d) as char
  }

  // The value of a hex digit in either case
  function HexValue(c: int): (d: Option<nat>)
    ensures d.Some? ==> d.value < 16
  {
    if '0' as int <= c <= '9' as int then Some(c - '0' as int)
    else if 'a' as int <= c <= 'f' as int then Some(c - 'a' as int + 10)
    else if 'A' as int <= c <= 'F' as int then Some(c - 'A' as int + 10)
    else None
  }

  lemma HexDigitValue(d: nat)
    requires d < 16
    ensures HexValue(HexDigit(d) as int) == Some(d)
  {
  }
}
