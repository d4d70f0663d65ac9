/** UTF-8 as section 3 of RFC 3629 defines it: the encoding of a character, and of a text. */
module Utf8 {
  import opened Words

  // A character number; surrogates are none.
  type Scalar = cp: nat | cp < 0xD800 || 0xE000 <= cp < 0x110000

  function Encode(cp: Scalar): (s: Bytes)
    ensures 1 <= |s| <= 4
  {
    if cp < 0x80 then [cp]
    else if cp < 0x800 then [0xC0 + cp / 64, 0x80 + cp % 64]
    else if cp < 0x10000 then [0xE0 + cp / 4096, 0x80 + cp / 64 % 64, 0x80 + cp % 64]
    else [0xF0 + cp / 262144, 0x80 + cp / 4096 % 64, 0x80 + cp / 64 % 64, 0x80 + cp % 64]
  }

  function EncodeAll(cps: seq<Scalar>): Bytes {
    if cps == [] then [] else Encode(cps[0]) + EncodeAll(cps[1..])
  }

  // A character number is the base-64 number of its parts.
  lemma Parts(cp: nat)
    requires cp < 0x110000
    ensures cp == cp / 64 * 64 + cp % 64
    ensures cp / 64 == cp / 4096 * 64 + cp / 64 % 64 && cp / 4096 == cp / 262144 * 64 + cp / 4096 % 64
  {
    assert cp / 64 / 64 == cp / 4096 && cp / 4096 / 64 == cp / 262144;
  }
}
