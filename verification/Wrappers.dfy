/** Shared value types: optional values, byte strings and saturating machine arithmetic. */
module Wrappers {

  datatype Option<+T> = None | Some(value: T) {
    function GetOr(default: T): T {
      match this
      case Some(v) => v
      case None => default
    }

    function Or(other: Option<T>): Option<T> {
      if Some? then this else other
    }
  }

  type byte = x: int | 0 <= x < 256

  const U64_MAX: nat := 0xFFFF_FFFF_FFFF_FFFF

  /** `u64::saturating_sub`. */
  function SatSub(a: nat, b: nat): nat {
    if a < b then 0 else a - b
  }

  /** `u64::saturating_add`. */
  function SatAdd(a: nat, b: nat): nat {
    if a + b > U64_MAX then U64_MAX else a + b
  }

  /** Map lookup as an optional value. */
  function Get<K, V>(m: map<K, V>, k: K): Option<V> {
    if k in m then Some(m[k]) else None
  }

  /** The first value kept, as `Option::filter(|n| n != 0)`. */
  function NonZero(n: nat): Option<nat> {
    if n == 0 then None else Some(n)
  }

  /** `char::to_ascii_lowercase`. */
  function LowerChar(c: char): char {
    if 'A' <= c <= 'Z' then ((c as int) + 32) as char else c
  }

  /** `str::to_ascii_lowercase`. */
  function Lower(s: string): (r: string)
    ensures |r| == |s|
  {
    seq(|s|, i requires 0 <= i < |s| => LowerChar(s[i]))
  }

  /** Lowercasing, letter by letter; nothing else changes. */
  lemma Alphabet(c: char)
    ensures var upper, lower := "ABCDEFGHIJKLMNOPQRSTUVWXYZ", "abcdefghijklmnopqrstuvwxyz";
            && (forall i :: 0 <= i < 26 ==> LowerChar(upper[i]) == lower[i])
            && (c !in upper ==> LowerChar(c) == c)
  {
    var upper := "ABCDEFGHIJKLMNOPQRSTUVWXYZ";
    assert forall i :: 0 <= i < 26 ==> upper[i] as int == 65 + i;
    if 'A' <= c <= 'Z' {
      assert upper[c as int - 65] == c;
    }
  }

  /** `str::trim_end_matches('.')`. */
  function TrimDots(s: string): string {
    if s != "" && s[|s| - 1] == '.' then TrimDots(s[..|s| - 1]) else s
  }
}
