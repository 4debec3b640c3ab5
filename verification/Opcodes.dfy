/** The bytecode of a compiled pattern: opcode values, instruction lengths and
  * the big-endian two-byte operands (LINK_SIZE == IMM2_SIZE == 2).
  */
module Opcodes {

  type byte = x: int | 0 <= x < 256

  const OP_END: byte := 0
  const OP_SOD: byte := 1
  const OP_NOT_DIGIT: byte := 6
  const OP_DIGIT: byte := 7
  const OP_NOT_WHITESPACE: byte := 8
  const OP_WHITESPACE: byte := 9
  const OP_NOT_WORDCHAR: byte := 10
  const OP_WORDCHAR: byte := 11
  const OP_ANY: byte := 12
  const OP_ALLANY: byte := 13
  const OP_EOD: byte := 24
  const OP_DOLL: byte := 25
  const OP_CIRC: byte := 27
  const OP_CHAR: byte := 29
  const OP_CHARI: byte := 30
  const OP_NOT: byte := 31
  const OP_NOTI: byte := 32
  const OP_STAR: byte := 33
  const OP_STARI: byte := 46
  const OP_NOTSTAR: byte := 59
  const OP_NOTSTARI: byte := 72
  const OP_TYPESTAR: byte := 85
  const OP_TYPEPOSUPTO: byte := 97
  const OP_CRSTAR: byte := 98
  const OP_CRRANGE: byte := 104
  const OP_CRMINRANGE: byte := 105
  const OP_CRPOSRANGE: byte := 109
  const OP_CLASS: byte := 110
  const OP_NCLASS: byte := 111
  const OP_RECURSE: byte := 117
  const OP_ALT: byte := 119
  const OP_KET: byte := 120
  const OP_KETRMAX: byte := 121
  const OP_KETRMIN: byte := 122
  const OP_KETRPOS: byte := 123
  const OP_ONCE: byte := 129
  const OP_BRA: byte := 131
  const OP_BRAPOS: byte := 132
  const OP_CBRA: byte := 133
  const OP_CBRAPOS: byte := 134
  const OP_SBRA: byte := 136
  const OP_SBRAPOS: byte := 137
  const OP_SCBRA: byte := 138
  const OP_SCBRAPOS: byte := 139
  const OP_BRAZERO: byte := 146
  const OP_BRAMINZERO: byte := 147
  const OP_BRAPOSZERO: byte := 148
  const OP_SKIPZERO: byte := 161

  /** Offsets within the six runs of thirteen repeat opcodes that start at
    * OP_STAR, OP_STARI, OP_NOTSTAR, OP_NOTSTARI and OP_TYPESTAR. */
  const K_STAR := 0
  const K_MINSTAR := 1
  const K_PLUS := 2
  const K_MINPLUS := 3
  const K_QUERY := 4
  const K_MINQUERY := 5
  const K_UPTO := 6
  const K_MINUPTO := 7
  const K_EXACT := 8
  const K_POSSTAR := 9
  const K_POSPLUS := 10
  const K_POSQUERY := 11
  const K_POSUPTO := 12

  /** Offsets from OP_CRSTAR where the class repeats differ from the above. */
  const K_CRRANGE := 6
  const K_CRMINRANGE := 7
  const K_CRPOSSTAR := 8
  const K_CRPOSPLUS := 9
  const K_CRPOSQUERY := 10
  const K_CRPOSRANGE := 11

  const BITMAP_SIZE := 32

  /** The two-byte operand at position i. */
  function Get(code: seq<byte>, i: nat): (r: nat)
    requires i + 1 < |code|
    ensures r < 65536
  {
    code[i] as int * 256 + code[i + 1]
  }

  /** Store a two-byte operand, dropping bits above sixteen as the C macro does. */
  function Put(code: seq<byte>, i: nat, v: nat): (r: seq<byte>)
    requires i + 1 < |code|
    ensures |r| == |code|
    ensures v < 65536 ==> Get(r, i) == v
  {
    code[i := v / 256 % 256][i + 1 := v % 256]
  }

  predicate IsSingleChar(op: byte) {
    OP_CHAR <= op <= OP_NOTI
  }

  predicate IsType(op: byte) {
    OP_NOT_DIGIT <= op <= OP_ALLANY
  }

  predicate IsClass(op: byte) {
    op == OP_CLASS || op == OP_NCLASS
  }

  predicate IsRepeat(op: byte) {
    OP_STAR <= op <= OP_TYPEPOSUPTO
  }

  predicate IsClassRepeat(op: byte) {
    OP_CRSTAR <= op <= OP_CRPOSRANGE
  }

  /** Brackets that carry a group number. */
  predicate IsCapturing(op: byte) {
    op == OP_CBRA || op == OP_SCBRA || op == OP_CBRAPOS || op == OP_SCBRAPOS
  }

  predicate IsBra(op: byte) {
    op == OP_BRA || op == OP_SBRA || op == OP_CBRA || op == OP_SCBRA
  }

  predicate IsKet(op: byte) {
    op == OP_KET || op == OP_KETRMAX || op == OP_KETRMIN
  }

  predicate IsAnyKet(op: byte) {
    IsKet(op) || op == OP_KETRPOS
  }

  predicate IsAnchor(op: byte) {
    op == OP_SOD || op == OP_EOD || op == OP_DOLL || op == OP_CIRC
  }

  predicate IsZero(op: byte) {
    op == OP_BRAZERO || op == OP_BRAMINZERO || op == OP_SKIPZERO
  }

  predicate IsAnyZero(op: byte) {
    IsZero(op) || op == OP_BRAPOSZERO
  }

  /** Does the repeat with this offset in its run carry a two-byte count? */
  predicate HasCount(k: int) {
    k == K_UPTO || k == K_MINUPTO || k == K_EXACT || k == K_POSUPTO
  }

  predicate HasRange(k: int) {
    k == K_CRRANGE || k == K_CRMINRANGE || k == K_CRPOSRANGE
  }

  /** The fixed part of each instruction's length. */
  function OpLength(op: byte): nat {
    if op == 15 || op == 16 then 3
    else if op <= 28 then 1
    else if op <= 32 then 2
    else if op <= OP_TYPEPOSUPTO then (if HasCount((op - OP_STAR) % 13) then 4 else 2)
    else if op == OP_CRRANGE || op == OP_CRMINRANGE || op == OP_CRPOSRANGE then 5
    else if op < OP_CLASS then 1
    else if op <= OP_NCLASS then 1 + BITMAP_SIZE
    else if op == 112 then 0
    else if op == 115 || op == 116 then 5
    else if op == 118 then 6
    else if IsCapturing(op) then 5
    else if op <= 141 || op == 143 then 3
    else if op == 142 || op == 144 then 5
    else if op == 149 || op == 151 || op == 153 || op == 155 || op == 160 then 3
    else 1
  }

  /** Bit k of a byte, counted from the least significant. */
  predicate Bit(b: byte, k: nat)
    requires k < 8
  {
    b / [1, 2, 4, 8, 16, 32, 64, 128][k] % 2 == 1
  }

  /** Is the character's bit set in a 32-byte bitmap? */
  predicate InBitmap(bits: seq<byte>, c: byte)
    requires |bits| == BITMAP_SIZE
  {
    Bit(bits[c / 8], c % 8)
  }
}
