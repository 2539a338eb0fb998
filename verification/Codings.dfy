/** Text and binary codings from outside libraries, as pairs of functions. */
module Codings {
  import opened ByteStrings
  import opened Options

  datatype Coding<!T> = Coding(enc: T -> Bytes, dec: Bytes -> Option<T>) {
    /** The decoder gives this value back. No coding does so for every value of an infinite type
        such as the real numbers, so theorems ask it of the values they are about. */
    ghost predicate Undoes(x: T) {
      dec(enc(x)) == Some(x)
    }
  }

  function IndexOf<T(==)>(xs: seq<T>, x: T): (i: nat)
    ensures i <= |xs|
    ensures x in xs ==> i < |xs| && xs[i] == x
  {
    if xs == [] || xs[0] == x then 0 else 1 + IndexOf(xs[1..], x)
  }

  /** For any list of values there is a coding that gives all of them back. */
  function Numbering<T(==)>(xs: seq<T>): Coding<T> {
    Coding(x => seq(IndexOf(xs, x), _ => 0), bytes => if |bytes| < |xs| then Some(xs[|bytes|]) else None)
  }

  lemma NumberingUndoes<T>(xs: seq<T>)
    ensures forall x :: x in xs ==> Numbering(xs).Undoes(x)
    ensures forall x :: |Numbering(xs).enc(x)| <= |xs|
  {
  }

  /** Bytes as characters, one each. */
  function ToText(bytes: Bytes): string {
    seq(|bytes|, i requires 0 <= i < |bytes| => bytes[i] as char)
  }

  function CharCode(c: char): Byte {
    if c as int < 256 then c as int else 0
  }

  function FromText(text: string): Option<Bytes> {
    if forall c :: c in text ==> c as int < 256
    then Some(seq(|text|, i requires 0 <= i < |text| => CharCode(text[i])))
    else None
  }

  lemma FromTextUndoesToText(bytes: Bytes)
    ensures FromText(ToText(bytes)) == Some(bytes)
  {
    assert FromText(ToText(bytes)).value == bytes;
  }
}
