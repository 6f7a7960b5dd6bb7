// The rotation_t values returned by process(), and the bit layout of a
// decoder state byte: the low nibble is the table row, bits 4 and 5 the
// emitted direction.
module Rotation {

  const DirNone: bv8 := 0x00
  const DirCw: bv8 := 0x10
  const DirCcw: bv8 := 0x20

  /** Mask selecting the direction bits of a state byte (`_state & 0x30`). */
  const EmitMask: bv8 := 0x30
  /** Mask selecting the table row of a state byte (`_state & 0xf`). */
  const RowMask: bv8 := 0x0f

  predicate IsRotation(r: bv8) {
    r == DirNone || r == DirCw || r == DirCcw
  }

  /** The three codes are distinct, inside the emit mask and clear of the row bits. */
  lemma EncodingDisjoint(r: bv8)
    requires IsRotation(r)
    ensures r & EmitMask == r && r & RowMask == 0
    ensures r != DirNone ==> (r == DirCw) != (r == DirCcw)
    ensures r & DirCw != 0 ==> r & DirCcw == 0
  {
  }
}
