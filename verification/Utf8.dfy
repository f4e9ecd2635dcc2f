/** Texts: the well-formedness check accepts exactly the encodings of sequences of Unicode scalar values. */
module Utf8 {
  import opened Prelude
  import opened Wire

  /** A code point that is not a surrogate. */
  predicate IsScalar(cp: nat) {
    cp < 0xD800 || 0xE000 <= cp < 0x11_0000
  }

  /** Its encoding in one to four bytes, as section 3 of RFC 3629 lays it out. */
  function Spell(cp: nat): (b: Bytes)
    requires IsScalar(cp)
    ensures 1 <= |b| <= 4
  {
    if cp < 0x80 then [cp]
    else if cp < 0x800 then [0xC0 + cp / 0x40, 0x80 + cp % 0x40]
    else if cp < 0x1_0000 then [0xE0 + cp / 0x1000, 0x80 + cp / 0x40 % 0x40, 0x80 + cp % 0x40]
    else [0xF0 + cp / 0x4_0000, 0x80 + cp / 0x1000 % 0x40, 0x80 + cp / 0x40 % 0x40, 0x80 + cp % 0x40]
  }

  ghost predicate AllScalar(cps: seq<nat>) {
    forall i :: 0 <= i < |cps| ==> IsScalar(cps[i])
  }

  function SpellAll(cps: seq<nat>): Bytes
    requires AllScalar(cps)
  {
    if cps == [] then [] else Spell(cps[0]) + SpellAll(cps[1..])
  }

  // ---- One scalar value --------------------------------------------------------------------

  lemma SpelledIsFound(cp: nat, rest: Bytes)
    requires IsScalar(cp)
    ensures ScalarLength(Spell(cp) + rest) == |Spell(cp)|
  {
    var b := Spell(cp) + rest;
    assert forall i :: 0 <= i < |Spell(cp)| ==> b[i] == Spell(cp)[i];
  }

  lemma TwoBytes(x: byte, y: byte) returns (cp: nat)
    requires 0xC2 <= x <= 0xDF && 0x80 <= y <= 0xBF
    ensures IsScalar(cp) && Spell(cp) == [x, y]
  {
    cp := (x - 0xC0) * 0x40 + (y - 0x80);
    assert cp / 0x40 == x - 0xC0 && cp % 0x40 == y - 0x80;
  }

  lemma ThreeBytes(x: byte, y: byte, z: byte) returns (cp: nat)
    requires 0xE0 <= x <= 0xEF && 0x80 <= y <= 0xBF && 0x80 <= z <= 0xBF
    requires (x == 0xE0 ==> y >= 0xA0) && (x == 0xED ==> y <= 0x9F)
    ensures IsScalar(cp) && Spell(cp) == [x, y, z]
  {
    cp := (x - 0xE0) * 0x1000 + (y - 0x80) * 0x40 + (z - 0x80);
    assert cp / 0x40 == (x - 0xE0) * 0x40 + (y - 0x80) && cp % 0x40 == z - 0x80;
    assert cp / 0x1000 == x - 0xE0;
  }

  lemma FourBytes(x: byte, y: byte, z: byte, w: byte) returns (cp: nat)
    requires 0xF0 <= x <= 0xF4 && 0x80 <= y <= 0xBF && 0x80 <= z <= 0xBF && 0x80 <= w <= 0xBF
    requires (x == 0xF0 ==> y >= 0x90) && (x == 0xF4 ==> y <= 0x8F)
    ensures IsScalar(cp) && Spell(cp) == [x, y, z, w]
  {
    cp := (x - 0xF0) * 0x4_0000 + (y - 0x80) * 0x1000 + (z - 0x80) * 0x40 + (w - 0x80);
    assert cp / 0x40 == (x - 0xF0) * 0x1000 + (y - 0x80) * 0x40 + (z - 0x80) && cp % 0x40 == w - 0x80;
    assert cp / 0x1000 == (x - 0xF0) * 0x40 + (y - 0x80);
    assert cp / 0x4_0000 == x - 0xF0;
  }

  lemma FoundIsSpelled(b: Bytes) returns (cp: nat)
    requires ScalarLength(b) > 0
    ensures IsScalar(cp) && Spell(cp) == b[..ScalarLength(b)]
  {
    var n := ScalarLength(b);
    if n == 1 {
      cp := b[0];
    } else if n == 2 {
      cp := TwoBytes(b[0], b[1]);
    } else if n == 3 {
      cp := ThreeBytes(b[0], b[1], b[2]);
    } else {
      cp := FourBytes(b[0], b[1], b[2], b[3]);
    }
  }

  // ---- Whole texts -------------------------------------------------------------------------

  lemma {:induction false} SpelledIsValid(cps: seq<nat>)
    requires AllScalar(cps)
    ensures ValidUtf8(SpellAll(cps))
  {
    hide Spell, ScalarLength;
    if cps != [] {
      var rest := SpellAll(cps[1..]);
      SpelledIsFound(cps[0], rest);
      SpelledIsValid(cps[1..]);
      assert (Spell(cps[0]) + rest)[|Spell(cps[0])|..] == rest;
    }
  }

  lemma {:induction false} ValidIsSpelled(b: Bytes) returns (cps: seq<nat>)
    requires ValidUtf8(b)
    ensures AllScalar(cps) && SpellAll(cps) == b
    decreases |b|
  {
    hide Spell, ScalarLength;
    if b == [] {
      cps := [];
    } else {
      var n := ScalarLength(b);
      var cp := FoundIsSpelled(b);
      var rest := ValidIsSpelled(b[n..]);
      cps := [cp] + rest;
      assert cps[1..] == rest;
      assert b == b[..n] + b[n..];
    }
  }

  /** The check on texts accepts a byte string if and only if it spells some sequence of scalar values. */
  lemma ValidIffSpelled(b: Bytes)
    ensures ValidUtf8(b) <==> exists cps :: AllScalar(cps) && SpellAll(cps) == b
  {
    hide ValidUtf8, SpellAll;
    if ValidUtf8(b) {
      var cps := ValidIsSpelled(b);
    }
    if exists cps :: AllScalar(cps) && SpellAll(cps) == b {
      var cps :| AllScalar(cps) && SpellAll(cps) == b;
      SpelledIsValid(cps);
    }
  }
}
