/**
 Legacy EVM bytecode as the interpreter reads it: instruction lengths and stack arities of the
 opcode table (crates/evm2/src/interpreter/opcode.rs), the stack indices that `DUPN`, `SWAPN` and
 `EXCHANGE` decode (crates/evm2/src/interpreter/instructions/stack.rs) and the jump destination
 scan (crates/evm2/src/bytecode/analysis.rs).
 */
module Bytecode {
  import opened Common

  type Byte = n: nat | n < 256

  const STOP: Byte := 0x00
  const ADD: Byte := 0x01
  const MUL: Byte := 0x02
  const SUB: Byte := 0x03
  const DIV: Byte := 0x04
  const SDIV: Byte := 0x05
  const MOD: Byte := 0x06
  const SMOD: Byte := 0x07
  const ADDMOD: Byte := 0x08
  const MULMOD: Byte := 0x09
  const EXP: Byte := 0x0a
  const SIGNEXTEND: Byte := 0x0b
  const LT: Byte := 0x10
  const GT: Byte := 0x11
  const SLT: Byte := 0x12
  const SGT: Byte := 0x13
  const EQ: Byte := 0x14
  const ISZERO: Byte := 0x15
  const AND: Byte := 0x16
  const OR: Byte := 0x17
  const XOR: Byte := 0x18
  const NOT: Byte := 0x19
  const BYTE: Byte := 0x1a
  const SHL: Byte := 0x1b
  const SHR: Byte := 0x1c
  const SAR: Byte := 0x1d
  const CLZ: Byte := 0x1e
  const KECCAK256: Byte := 0x20
  const ADDRESS: Byte := 0x30
  const BALANCE: Byte := 0x31
  const ORIGIN: Byte := 0x32
  const CALLER: Byte := 0x33
  const CALLVALUE: Byte := 0x34
  const CALLDATALOAD: Byte := 0x35
  const CALLDATASIZE: Byte := 0x36
  const CALLDATACOPY: Byte := 0x37
  const CODESIZE: Byte := 0x38
  const CODECOPY: Byte := 0x39
  const GASPRICE: Byte := 0x3a
  const EXTCODESIZE: Byte := 0x3b
  const EXTCODECOPY: Byte := 0x3c
  const RETURNDATASIZE: Byte := 0x3d
  const RETURNDATACOPY: Byte := 0x3e
  const EXTCODEHASH: Byte := 0x3f
  const BLOCKHASH: Byte := 0x40
  const COINBASE: Byte := 0x41
  const TIMESTAMP: Byte := 0x42
  const NUMBER: Byte := 0x43
  const DIFFICULTY: Byte := 0x44
  const GASLIMIT: Byte := 0x45
  const CHAINID: Byte := 0x46
  const SELFBALANCE: Byte := 0x47
  const BASEFEE: Byte := 0x48
  const BLOBHASH: Byte := 0x49
  const BLOBBASEFEE: Byte := 0x4a
  const SLOTNUM: Byte := 0x4b
  const POP: Byte := 0x50
  const MLOAD: Byte := 0x51
  const MSTORE: Byte := 0x52
  const MSTORE8: Byte := 0x53
  const SLOAD: Byte := 0x54
  const SSTORE: Byte := 0x55
  const JUMP: Byte := 0x56
  const JUMPI: Byte := 0x57
  const PC: Byte := 0x58
  const MSIZE: Byte := 0x59
  const GAS: Byte := 0x5a
  const JUMPDEST: Byte := 0x5b
  const TLOAD: Byte := 0x5c
  const TSTORE: Byte := 0x5d
  const MCOPY: Byte := 0x5e
  const PUSH0: Byte := 0x5f
  const PUSH1: Byte := 0x60
  const PUSH2: Byte := 0x61
  const PUSH4: Byte := 0x63
  const PUSH32: Byte := 0x7f
  const DUP1: Byte := 0x80
  const DUP16: Byte := 0x8f
  const SWAP1: Byte := 0x90
  const SWAP16: Byte := 0x9f
  const LOG0: Byte := 0xa0
  const LOG4: Byte := 0xa4
  const DUPN: Byte := 0xe6
  const SWAPN: Byte := 0xe7
  const EXCHANGE: Byte := 0xe8
  const CREATE: Byte := 0xf0
  const CALL: Byte := 0xf1
  const CALLCODE: Byte := 0xf2
  const RETURN: Byte := 0xf3
  const DELEGATECALL: Byte := 0xf4
  const CREATE2: Byte := 0xf5
  const STATICCALL: Byte := 0xfa
  const REVERT: Byte := 0xfd
  const INVALID: Byte := 0xfe
  const SELFDESTRUCT: Byte := 0xff

  predicate IsPush(op: Byte) { PUSH1 <= op <= PUSH32 }

  function ImmediateSize(op: Byte): nat {
    if IsPush(op) then op - PUSH1 + 1
    else if op == DUPN || op == SWAPN || op == EXCHANGE then 1
    else 0
  }

  predicate Terminating(op: Byte) {
    op == STOP || op == RETURN || op == REVERT || op == INVALID || op == SELFDESTRUCT
  }

  /** Words an opcode reads from the stack. */
  function StackIn(op: Byte): nat {
    if op <= SIGNEXTEND then (if op == STOP then 0 else if op == ADDMOD || op == MULMOD then 3 else 2)
    else if LT <= op <= CLZ then (if op == ISZERO || op == NOT || op == CLZ then 1 else 2)
    else if op == KECCAK256 then 2
    else if ADDRESS <= op <= SLOTNUM then
      (if op == CALLDATACOPY || op == CODECOPY || op == RETURNDATACOPY then 3
       else if op == EXTCODECOPY then 4
       else if op in {BALANCE, CALLDATALOAD, EXTCODESIZE, EXTCODEHASH, BLOCKHASH, BLOBHASH} then 1
       else 0)
    else if POP <= op <= MCOPY then
      (if op in {POP, MLOAD, SLOAD, JUMP, TLOAD} then 1
       else if op in {MSTORE, MSTORE8, SSTORE, JUMPI, TSTORE} then 2
       else if op == MCOPY then 3
       else 0)
    else if DUP1 <= op <= DUP16 then op - DUP1 + 1
    else if SWAP1 <= op <= SWAP16 then op - SWAP1 + 2
    else if LOG0 <= op <= LOG4 then op - LOG0 + 2
    else if op == CREATE then 3
    else if op == CALL || op == CALLCODE then 7
    else if op == DELEGATECALL || op == STATICCALL then 6
    else if op == CREATE2 then 4
    else if op == RETURN || op == REVERT then 2
    else if op == SELFDESTRUCT then 1
    else 0
  }

  /** Words an opcode leaves in their place. */
  function StackOut(op: Byte): nat {
    if ADD <= op <= SIGNEXTEND || LT <= op <= CLZ || op == KECCAK256 then 1
    else if ADDRESS <= op <= SLOTNUM then
      (if op in {CALLDATACOPY, CODECOPY, EXTCODECOPY, RETURNDATACOPY} then 0 else 1)
    else if op in {MLOAD, SLOAD, PC, MSIZE, GAS, TLOAD} then 1
    else if PUSH0 <= op <= PUSH32 then 1
    else if DUP1 <= op <= DUP16 then op - DUP1 + 2
    else if SWAP1 <= op <= SWAP16 then op - SWAP1 + 2
    else if op == DUPN then 1
    else if op in {CREATE, CALL, CALLCODE, DELEGATECALL, CREATE2, STATICCALL} then 1
    else 0
  }

  /** The stack index of a `DUPN` or `SWAPN` immediate; 91 to 127 are not valid. */
  function DecodeSingle(x: Byte): Option<nat> {
    if x <= 90 || x >= 128 then Some((x + 145) % 256) else None
  }

  /** The stack indices of an `EXCHANGE` immediate; 82 to 127 are not valid. */
  function DecodePair(x: Byte): Option<(nat, nat)> {
    if 81 < x < 128 then None
    else
      var k := ((x as bv8) ^ 143) as nat;
      var q, r := k / 16, k % 16;
      if q < r then Some((q + 1, r + 1)) else Some((r + 1, if q <= 29 then 29 - q else 0))
  }

  // ----- instructions ---------------------------------------------------------------------------

  datatype Instr = Instr(op: Byte, immediate: seq<Byte>)
  {
    predicate WellFormed() { |immediate| == ImmediateSize(op) }

    function Length(): nat { 1 + |immediate| }

    /** The stack height the instruction needs; `None` when its immediate does not decode. */
    function Needs(): Option<nat> {
      if op == DUPN && |immediate| == 1 then DecodeSingle(immediate[0])
      else if op == SWAPN && |immediate| == 1 then
        match DecodeSingle(immediate[0]) case Some(n) => Some(n + 1) case None => None
      else if op == EXCHANGE && |immediate| == 1 then
        match DecodePair(immediate[0]) case Some((n, m)) => Some(1 + if n < m then m else n) case None => None
      else Some(StackIn(op))
    }

    /** The change of the stack height. */
    function Delta(): int { StackOut(op) - StackIn(op) }
  }

  function Encode(items: seq<Instr>): seq<Byte> {
    if items == [] then []
    else Encode(items[..|items| - 1]) + [Last(items).op] + Last(items).immediate
  }

  function Last(items: seq<Instr>): Instr requires items != [] { items[|items| - 1] }

  /** Decoding from the front; an instruction that runs past the end keeps the bytes there are. */
  function Parse(code: seq<Byte>): seq<Instr>
    decreases |code|
  {
    if code == [] then []
    else
      var n := ImmediateSize(code[0]);
      if |code| <= n then [Instr(code[0], code[1..])]
      else [Instr(code[0], code[1..n + 1])] + Parse(code[n + 1..])
  }

  /** The byte offset of instruction `k`. */
  function Offset(items: seq<Instr>, k: nat): nat
    requires k <= |items|
  {
    |Encode(items[..k])|
  }

  predicate WellFormed(items: seq<Instr>) {
    forall k :: 0 <= k < |items| ==> items[k].WellFormed()
  }

  lemma EncodeSnoc(items: seq<Instr>, i: Instr)
    ensures Encode(items + [i]) == Encode(items) + [i.op] + i.immediate
  {
    assert (items + [i])[..|items|] == items;
  }

  lemma Regroup(a: seq<Byte>, b: seq<Byte>, c: seq<Byte>, d: seq<Byte>)
    ensures a + (b + c + d) == a + b + c + d
  {
  }

  lemma {:induction false} EncodeAppend(xs: seq<Instr>, ys: seq<Instr>)
    ensures Encode(xs + ys) == Encode(xs) + Encode(ys)
  {
    if ys == [] {
      assert xs + ys == xs;
    } else {
      var init := ys[..|ys| - 1];
      EncodeAppend(xs, init);
      assert xs + ys == (xs + init) + [Last(ys)];
      EncodeSnoc(xs + init, Last(ys));
      Regroup(Encode(xs), Encode(init), [Last(ys).op], Last(ys).immediate);
    }
  }

  lemma EncodeOne(i: Instr)
    ensures Encode([i]) == [i.op] + i.immediate
  {
    assert [i][..0] == [];
    assert Encode([i]) == [] + [i.op] + i.immediate;
  }

  lemma EncodeCons(items: seq<Instr>)
    requires items != []
    ensures Encode(items) == [items[0].op] + items[0].immediate + Encode(items[1..])
  {
    assert items == [items[0]] + items[1..];
    EncodeAppend([items[0]], items[1..]);
    EncodeOne(items[0]);
  }

  /** Round trip: the byte stream of emitted instructions parses into exactly those instructions. */
  lemma {:induction false} ParseEncode(items: seq<Instr>)
    requires WellFormed(items)
    ensures Parse(Encode(items)) == items
  {
    if items != [] {
      EncodeCons(items);
      var code, n := Encode(items), ImmediateSize(items[0].op);
      assert code[1..n + 1] == items[0].immediate;
      assert code[n + 1..] == Encode(items[1..]);
      ParseEncode(items[1..]);
    }
  }

  lemma OffsetStep(items: seq<Instr>, k: nat)
    requires k < |items|
    ensures Offset(items, k + 1) == Offset(items, k) + items[k].Length()
    ensures Offset(items, k) < |Encode(items)| && Encode(items)[Offset(items, k)] == items[k].op
  {
    assert items[..k + 1] == items[..k] + [items[k]];
    EncodeSnoc(items[..k], items[k]);
    assert items == items[..k + 1] + items[k + 1..];
    EncodeAppend(items[..k + 1], items[k + 1..]);
  }

  lemma {:induction false} OffsetMonotone(items: seq<Instr>, j: nat, k: nat)
    requires j < k <= |items|
    ensures Offset(items, j) < Offset(items, k)
    decreases k
  {
    OffsetStep(items, k - 1);
    if j < k - 1 {
      OffsetMonotone(items, j, k - 1);
    }
  }

  /** Offsets of distinct instructions are distinct. */
  lemma OffsetInjective(items: seq<Instr>, j: nat, k: nat)
    requires j <= |items| && k <= |items| && Offset(items, j) == Offset(items, k)
    ensures j == k
  {
    if j < k { OffsetMonotone(items, j, k); }
    if k < j { OffsetMonotone(items, k, j); }
  }

  // ----- jump destinations -------------------------------------------------------------------------

  /**
   The jump destinations found by scanning from `pc`: a `JUMPDEST` byte outside the data of a
   `PUSH1` to `PUSH32`. The immediates of `DUPN`, `SWAPN` and `EXCHANGE` are scanned as opcodes.
   */
  function JumpDests(code: seq<Byte>, pc: nat): set<nat>
    decreases |code| - pc
  {
    if pc >= |code| then {}
    else if code[pc] == JUMPDEST then {pc} + JumpDests(code, pc + 1)
    else if IsPush(code[pc]) then JumpDests(code, pc + (code[pc] - PUSH1) + 2)
    else JumpDests(code, pc + 1)
  }

  /** A one-byte immediate that the scan passes over without losing instruction boundaries. */
  predicate ScansCleanly(i: Instr) {
    i.WellFormed() && (!IsPush(i.op) && |i.immediate| == 1 ==> i.immediate[0] != JUMPDEST && !IsPush(i.immediate[0]))
  }

  /** The offsets of the `JUMPDEST` instructions from instruction `k` on. */
  function DestOffsets(items: seq<Instr>, k: nat): set<nat>
    requires k <= |items|
  {
    set j | k <= j < |items| && items[j].op == JUMPDEST :: Offset(items, j)
  }

  /** The scan finds exactly the `JUMPDEST` instructions on the instruction boundaries. */
  lemma {:induction false} ScanIsExact(items: seq<Instr>, k: nat)
    requires k <= |items| && forall j :: 0 <= j < |items| ==> ScansCleanly(items[j])
    ensures JumpDests(Encode(items), Offset(items, k)) == DestOffsets(items, k)
    decreases |items| - k
  {
    var code, pc := Encode(items), Offset(items, k);
    if k == |items| {
      assert items[..k] == items;
    } else {
      OffsetStep(items, k);
      ScanIsExact(items, k + 1);
      var i := items[k];
      if i.op == JUMPDEST {
        assert DestOffsets(items, k) == {pc} + DestOffsets(items, k + 1);
      } else {
        assert DestOffsets(items, k) == DestOffsets(items, k + 1);
        if !IsPush(i.op) && |i.immediate| == 1 {
          ImmediateByte(items, k);
        }
      }
    }
  }

  lemma ImmediateByte(items: seq<Instr>, k: nat)
    requires k < |items| && |items[k].immediate| == 1
    ensures Offset(items, k) + 1 < |Encode(items)| && Encode(items)[Offset(items, k) + 1] == items[k].immediate[0]
  {
    assert items[..k + 1] == items[..k] + [items[k]];
    EncodeSnoc(items[..k], items[k]);
    assert items == items[..k + 1] + items[k + 1..];
    EncodeAppend(items[..k + 1], items[k + 1..]);
  }

  // ----- big-endian words -----------------------------------------------------------------------------

  function Pow256(n: nat): nat { if n == 0 then 1 else 256 * Pow256(n - 1) }

  function ToBytes(v: nat, n: nat): (s: seq<Byte>)
    ensures |s| == n
  {
    if n == 0 then [] else ToBytes(v / 256, n - 1) + [v % 256]
  }

  function FromBytes(s: seq<Byte>): nat {
    if s == [] then 0 else 256 * FromBytes(s[..|s| - 1]) + s[|s| - 1]
  }

  /** Round trip: a value that fits `n` bytes is read back from its big-endian bytes. */
  lemma {:induction false} BytesRoundTrip(v: nat, n: nat)
    requires v < Pow256(n)
    ensures FromBytes(ToBytes(v, n)) == v
  {
    if n > 0 {
      BytesRoundTrip(v / 256, n - 1);
      assert ToBytes(v, n)[..n - 1] == ToBytes(v / 256, n - 1);
    }
  }
}
