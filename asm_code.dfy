/** The assembler's encoders (its `comp`, `dest` and `jump` module
    functions and `address_to_instruction`): the bit fields of a
    C-instruction and the 16-bit word of an A-instruction. */
module AsmCode {
  import opened Wrappers
  import opened Text
  import opened AsmParser

  // ---------------------------------------------------------------------------
  // comp

  /** `comp`'s table, in three groups: the computations on `D` and constants
      alone, those that read `A`, and those that read memory `M`. The bits
      are `a c1..c6`; `a` selects `M` over `A`. */
  const PlainComps: map<string, string> := map[
    "0" := "0101010", "1" := "0111111", "-1" := "0111010", "D" := "0001100",
    "!D" := "0001101", "-D" := "0001111", "D+1" := "0011111", "D-1" := "0001110"]

  const AComps: map<string, string> := map[
    "A" := "0110000", "!A" := "0110001", "-A" := "0110011", "A+1" := "0110111", "A-1" := "0110010",
    "D+A" := "0000010", "D-A" := "0010011", "A-D" := "0000111", "D&A" := "0000000", "D|A" := "0010101"]

  const MComps: map<string, string> := map[
    "M" := "1110000", "!M" := "1110001", "-M" := "1110011", "M+1" := "1110111", "M-1" := "1110010",
    "D+M" := "1000010", "D-M" := "1010011", "M-D" := "1000111", "D&M" := "1000000", "D|M" := "1010101"]

  /** The whole table: 28 computations. */
  const CompTable: map<string, string> := PlainComps + AComps + MComps

  /** `comp(mnemonic)`: the table entry, or `KeyError`. */
  function CompBits(mnemonic: string): Result<string> {
    if mnemonic in CompTable then Ok(CompTable[mnemonic]) else Err(KeyError(mnemonic))
  }

  lemma PlainShape()
    ensures forall m :: m in PlainComps ==>
      |PlainComps[m]| == 7 && IsBits(PlainComps[m]) && PlainComps[m][0] == '0' && 'M' !in m && 'A' !in m
  {
  }

  lemma AShape()
    ensures forall m :: m in AComps ==>
      |AComps[m]| == 7 && IsBits(AComps[m]) && AComps[m][0] == '0' && 'M' !in m && 'A' in m
  {
  }

  lemma MShape()
    ensures forall m :: m in MComps ==>
      |MComps[m]| == 7 && IsBits(MComps[m]) && MComps[m][0] == '1' && 'M' in m && 'A' !in m
  {
  }

  lemma PlainInjective(a: string, b: string)
    requires a in PlainComps && b in PlainComps && PlainComps[a] == PlainComps[b]
    ensures a == b
  {
  }

  lemma AInjective(a: string, b: string)
    requires a in AComps && b in AComps && AComps[a] == AComps[b]
    ensures a == b
  {
  }

  lemma MInjective(a: string, b: string)
    requires a in MComps && b in MComps && MComps[a] == MComps[b]
    ensures a == b
  {
  }

  lemma PlainNotA(a: string, b: string)
    requires a in PlainComps && b in AComps
    ensures PlainComps[a] != AComps[b]
  {
  }

  /** Where a computation's code comes from in the grouped table, and its
      first bit. */
  lemma CompLookup(m: string)
    requires m in CompTable
    ensures m in PlainComps || m in AComps || m in MComps
    ensures m in MComps ==> CompTable[m] == MComps[m] && |MComps[m]| == 7 && MComps[m][0] == '1'
    ensures m in AComps ==> m !in MComps && CompTable[m] == AComps[m] && |AComps[m]| == 7 && AComps[m][0] == '0'
    ensures m in PlainComps ==>
      m !in AComps && m !in MComps && CompTable[m] == PlainComps[m] && |PlainComps[m]| == 7 && PlainComps[m][0] == '0'
  {
    PlainShape();
    AShape();
    MShape();
  }

  /** Every computation is 7 bits, the first (`a`) set exactly for the
      forms that read memory. */
  lemma CompShape(m: string)
    requires m in CompTable
    ensures |CompTable[m]| == 7 && IsBits(CompTable[m])
    ensures CompTable[m][0] == '1' <==> 'M' in m
  {
    PlainShape();
    AShape();
    MShape();
  }

  /** Different computations have different codes: an instruction's comp
      field names one computation. */
  lemma CompInjective(a: string, b: string)
    requires a in CompTable && b in CompTable && CompTable[a] == CompTable[b]
    ensures a == b
  {
    CompLookup(a);
    CompLookup(b);
    if a in MComps && b in MComps {
      MInjective(a, b);
    } else if a in AComps && b in AComps {
      AInjective(a, b);
    } else if a in PlainComps && b in PlainComps {
      PlainInjective(a, b);
    } else if a in PlainComps && b in AComps {
      PlainNotA(a, b);
    } else if a in AComps && b in PlainComps {
      PlainNotA(b, a);
    }
  }

  /** Every computation the parser lets through has an entry: the `comp`
      lookup after a successful `comp()` never raises. */
  lemma ValidCompKnown(c: string)
    requires c in ValidComps || c in ValidJumpComps
    ensures c in CompTable
  {
  }

  // ---------------------------------------------------------------------------
  // dest

  /** `dest(mnemonic)`: one bit each for `A`, `D` and `M` present in the
      mnemonic, in that order; no destination gives `000`. */
  function DestBits(mnemonic: Option<string>): (r: string)
    ensures |r| == 3 && IsBits(r)
  {
    match mnemonic
    case None => "000"
    case Some(m) => [if 'A' in m then '1' else '0', if 'D' in m then '1' else '0', if 'M' in m then '1' else '0']
  }

  /** Each valid destination has its own non-zero code, so it is told apart
      from the others and from no destination. */
  lemma DestInjective(a: string, b: string)
    requires a in ValidDests && b in ValidDests
    ensures DestBits(Some(a)) != "000"
    ensures DestBits(Some(a)) == DestBits(Some(b)) ==> a == b
  {
  }

  /** The bits mark exactly the registers the destination names. */
  lemma DestMeaning(m: string)
    ensures DestBits(Some(m))[0] == '1' <==> 'A' in m
    ensures DestBits(Some(m))[1] == '1' <==> 'D' in m
    ensures DestBits(Some(m))[2] == '1' <==> 'M' in m
  {
  }

  // ---------------------------------------------------------------------------
  // jump

  /** `jump`'s table (no jump, `None`, is handled apart). */
  const JumpTable: map<string, string> := map[
    "JGT" := "001", "JEQ" := "010", "JGE" := "011", "JLT" := "100",
    "JNE" := "101", "JLE" := "110", "JMP" := "111"]

  /** `jump(mnemonic)`: `000` for no jump, the table entry, or `KeyError`. */
  function JumpBits(mnemonic: Option<string>): Result<string> {
    match mnemonic
    case None => Ok("000")
    case Some(j) => if j in JumpTable then Ok(JumpTable[j]) else Err(KeyError(j))
  }

  /** Whether the jump is taken when the computed value is `v`: the Hack
      condition each mnemonic names. */
  predicate JumpTaken(mnemonic: Option<string>, v: int) {
    match mnemonic
    case None => false
    case Some(j) =>
      || (j == "JGT" && v > 0) || (j == "JEQ" && v == 0) || (j == "JGE" && v >= 0)
      || (j == "JLT" && v < 0) || (j == "JNE" && v != 0) || (j == "JLE" && v <= 0)
      || j == "JMP"
  }

  /** The three jump bits are the conditions "negative", "zero" and
      "positive": the table agrees with what each mnemonic means. */
  lemma JumpMeaning(j: Option<string>, v: int)
    requires j.None? || j.value in JumpTable
    ensures var bits := JumpBits(j).value;
      |bits| == 3 && IsBits(bits)
      && (JumpTaken(j, v) <==> (v < 0 && bits[0] == '1') || (v == 0 && bits[1] == '1') || (v > 0 && bits[2] == '1'))
  {
    if j.Some? {
      JumpEntry(j.value);
    }
  }

  lemma JumpEntry(j: string)
    requires j in JumpTable
    ensures |JumpTable[j]| == 3 && IsBits(JumpTable[j])
    ensures JumpTable[j][0] == '1' <==> JumpTaken(Some(j), -1)
    ensures JumpTable[j][1] == '1' <==> JumpTaken(Some(j), 0)
    ensures JumpTable[j][2] == '1' <==> JumpTaken(Some(j), 1)
  {
  }

  /** Different jumps have different codes. */
  lemma JumpInjective(a: Option<string>, b: Option<string>)
    requires a.None? || a.value in JumpTable
    requires b.None? || b.value in JumpTable
    requires JumpBits(a) == JumpBits(b)
    ensures a == b
  {
  }

  // ---------------------------------------------------------------------------
  // instructions

  /** A C-instruction: `111`, then the comp, dest and jump fields. */
  function CInstruction(comp: string, dest: string, jump: string): string {
    "111" + comp + dest + jump
  }

  /** With a 7-bit comp field and a 3-bit dest field, a C-instruction
      determines its three fields. */
  lemma CInstructionFields(c: string, d: string, j: string, c': string, d': string, j': string)
    requires |c| == |c'| == 7 && |d| == |d'| == 3
    requires CInstruction(c, d, j) == CInstruction(c', d', j')
    ensures c == c' && d == d' && j == j'
  {
    var w, w' := CInstruction(c, d, j), CInstruction(c', d', j');
    assert c == w[3..10] && c' == w'[3..10];
    assert d == w[10..13] && d' == w'[10..13];
    assert j == w[13..] && j' == w'[13..];
  }

  /** `bin(n)[2:]`: the binary digits, after a stray `b` for a negative
      number (`bin(-5)` is `-0b101`). */
  function BinDigits(n: int): string {
    if n >= 0 then BinaryString(n) else "b" + BinaryString(-n)
  }

  /** `address_to_instruction(n)`: the binary digits, padded on the left
      with zeros to 16 characters. */
  function AddressToInstruction(address: int): string {
    RJust(BinDigits(address), 16, '0')
  }

  /** An address below 2^16 becomes a 16-bit word whose value is the address. */
  lemma AddressRoundTrip(n: int)
    requires 0 <= n < 65536
    ensures |AddressToInstruction(n)| == 16 && IsBits(AddressToInstruction(n))
    ensures BinaryValue(AddressToInstruction(n)) == n
  {
    var digits := BinaryString(n);
    assert Pow2(16) == 65536 by { Pow2Sixteen(); }
    BinaryLength(n, 16);
    var r := AddressToInstruction(n);
    assert r == Repeat('0', 16 - |digits|) + digits;
    LeadingZeros(16 - |digits|, digits);
    BinaryRoundTrip(n);
  }

  lemma Pow2Sixteen()
    ensures Pow2(16) == 65536
  {
    assert Pow2(4) == 16;
    assert Pow2(8) == 256;
    assert Pow2(12) == 4096;
  }

  /** Padding never truncates: a larger address gives a longer word. */
  lemma AddressTooWide(n: int)
    requires n >= 65536
    ensures |AddressToInstruction(n)| > 16
  {
    Pow2Sixteen();
    BinaryLength(n, 16);
  }

  /** A negative address keeps the `b` of Python's `-0b…`: the word is
      not a bit string. */
  lemma NegativeAddress(n: int)
    requires n < 0
    ensures !IsBits(AddressToInstruction(n))
  {
    var r := AddressToInstruction(n);
    var d := BinDigits(n);
    RJustPads(d, 16, '0');
    assert r[|r| - |d|..] == d;
    assert r[|r| - |d|] == d[0] == 'b';
  }
}
