/** Character classes of the YAML library, on code points (yaml_private.h). */
module YamlChars {
  const TAB := 0x09
  const LF := 0x0A
  const CR := 0x0D
  const SPACE := 0x20
  const QUOTE := 0x22
  const BACKSLASH := 0x5C
  const NEL := 0x85
  const LS := 0x2028
  const PS := 0x2029
  const BOM := 0xFEFF

  /** What four octets of UTF-8 can hold: the numbers a checked value consists of. */
  const CODE_LIMIT := 0x20_0000

  predicate AllCodes(v: seq<nat>) {
    forall i :: 0 <= i < |v| ==> v[i] < CODE_LIMIT
  }

  /** The Unicode scalar values. */
  predicate IsScalar(c: nat) {
    c < 0xD800 || 0xE000 <= c <= 0x10FFFF
  }

  predicate AllScalars(v: seq<nat>) {
    forall i :: 0 <= i < |v| ==> IsScalar(v[i])
  }

  predicate IsBlank(c: nat) {
    c == SPACE || c == TAB
  }

  predicate IsBreak(c: nat) {
    c == CR || c == LF || c == NEL || c == LS || c == PS
  }

  predicate IsBlankz(c: nat) {
    IsBlank(c) || IsBreak(c) || c == 0
  }

  predicate IsPrintable(c: nat) {
    c == LF || 0x20 <= c <= 0x7E || 0xA0 <= c <= 0xD7FF || (0xE000 <= c <= 0xFFFD && c != BOM)
  }

  predicate IsHex(c: nat) {
    0x30 <= c <= 0x39 || 0x41 <= c <= 0x46 || 0x61 <= c <= 0x66
  }

  function AsHex(c: nat): nat
    requires IsHex(c)
  {
    if 0x41 <= c <= 0x46 then c - 0x41 + 10 else if 0x61 <= c <= 0x66 then c - 0x61 + 10 else c - 0x30
  }

  function HexDigit(d: nat): nat
    requires d < 16
  {
    if d < 10 then d + 0x30 else d + 0x41 - 10
  }

  /** The character at index i, NUL after the end. */
  function At(t: seq<nat>, i: nat): nat {
    if i < |t| then t[i] else 0
  }
}
