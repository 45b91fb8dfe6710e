/**
 The opcode gas inspector (crates/inspectors/src/opcode.rs): a stack of pending steps that books
 each step's gas to its opcode and leaves out what a spawned call or create spent; against the tree
 of frames and steps that the hooks walk.
 */
module OpcodeGas {
  import opened Common
  import opened Bytecode

  datatype MessageKind =
    | CallMessage
    | CallCodeMessage
    | DelegateCallMessage
    | StaticCallMessage
    | CreateMessage
    | Create2Message

  /** How a step left the interpreter: still running or stopped otherwise, or one of the two gas stops. */
  datatype Stop = Other | ReentrancySentry | OutOfGas

  datatype Pending = Pending(opcode: Option<Byte>, gasRemaining: nat, childGasUsed: nat)

  datatype State = State(counts: map<Byte, nat>, gas: map<Byte, nat>, pending: seq<Pending>)

  function SaturatingAdd64(x: nat, y: nat): nat { if x + y <= U64_MAX then x + y else U64_MAX }

  function Get(m: map<Byte, nat>, op: Byte): nat { if op in m then m[op] else 0 }

  /** Whether the opcode table defines a byte. */
  predicate Defined(op: Byte) {
    op <= SIGNEXTEND || LT <= op <= CLZ || op == KECCAK256 || ADDRESS <= op <= SLOTNUM || POP <= op <= LOG4 ||
    DUPN <= op <= EXCHANGE || CREATE <= op <= CREATE2 || op == STATICCALL || REVERT <= op <= SELFDESTRUCT
  }

  function OpCodeOf(op: Byte): Option<Byte> { if Defined(op) then Some(op) else None }

  // ----- hooks --------------------------------------------------------------------------------------------

  function OnStep(s: State, op: Byte, gasRemaining: nat): State {
    State(if Defined(op) then s.counts[op := Get(s.counts, op) + 1] else s.counts, s.gas,
          s.pending + [Pending(OpCodeOf(op), gasRemaining, 0)])
  }

  function StepCost(before: nat, after: nat, stop: Stop): nat {
    match stop
    case ReentrancySentry => 0
    case OutOfGas => before
    case Other => SaturatingSub(before, after)
  }

  function OnStepEnd(s: State, after: nat, stop: Stop): State {
    if s.pending == [] then s
    else
      var p := s.pending[|s.pending| - 1];
      var rest := s.(pending := s.pending[..|s.pending| - 1]);
      if p.opcode.None? then rest
      else
        var cost := SaturatingSub(StepCost(p.gasRemaining, after, stop), p.childGasUsed);
        rest.(gas := s.gas[p.opcode.value := Get(s.gas, p.opcode.value) + cost])
  }

  function SpawningOpcode(kind: MessageKind): Byte {
    match kind
    case CallMessage => CALL
    case CallCodeMessage => CALLCODE
    case DelegateCallMessage => DELEGATECALL
    case StaticCallMessage => STATICCALL
    case CreateMessage => CREATE
    case Create2Message => CREATE2
  }

  function Exclude(s: State, op: Byte, spent: nat): State {
    if s.pending == [] || !Defined(op) || s.pending[|s.pending| - 1].opcode != Some(op) then s
    else
      var p := s.pending[|s.pending| - 1];
      s.(pending := s.pending[|s.pending| - 1 := p.(childGasUsed := SaturatingAdd64(p.childGasUsed, spent))])
  }

  /** The end of a call or create; the root frame is skipped. */
  function OnMessageEnd(s: State, kind: MessageKind, spent: nat, root: bool): State {
    if root then s else Exclude(s, SpawningOpcode(kind), spent)
  }

  /** The kind of message that the interpreter's instruction at a byte spawns. */
  function SpawnedKind(op: Byte): Option<MessageKind> {
    if op == 0xf0 then Some(CreateMessage)
    else if op == 0xf1 then Some(CallMessage)
    else if op == 0xf2 then Some(CallCodeMessage)
    else if op == 0xf4 then Some(DelegateCallMessage)
    else if op == 0xf5 then Some(Create2Message)
    else if op == 0xfa then Some(StaticCallMessage)
    else None
  }

  /** The hooks look for the opcode that spawned the message, for each of the six kinds, and it is defined. */
  lemma SpawningOpcodeInverts(kind: MessageKind, op: Byte)
    ensures op == SpawningOpcode(kind) <==> SpawnedKind(op) == Some(kind)
    ensures SpawnedKind(op).Some? ==> Defined(op)
  {
  }

  /** The defined bytes, as the bytes no instruction is assigned to. */
  lemma DefinedBytes(op: Byte)
    ensures !Defined(op) <==>
            || 0x0c <= op <= 0x0f || op == 0x1f || 0x21 <= op <= 0x2f || 0x4c <= op <= 0x4f || 0xa5 <= op <= 0xe5
            || 0xe9 <= op <= 0xef || 0xf6 <= op <= 0xf9 || 0xfb <= op <= 0xfc
  {
  }

  class Inspector {
    var counts: map<Byte, nat>
    var gas: map<Byte, nat>
    var pending: seq<Pending>

    constructor ()
      ensures Contents() == State(map[], map[], [])
    {
      counts, gas, pending := map[], map[], [];
    }

    function Contents(): State
      reads this
    {
      State(counts, gas, pending)
    }

    method Step(op: Byte, gasRemaining: nat)
      modifies this
      ensures Contents() == OnStep(old(Contents()), op, gasRemaining)
    {
      var opcode := OpCodeOf(op);
      if opcode.Some? {
        counts := counts[opcode.value := Get(counts, opcode.value) + 1];
      }
      pending := pending + [Pending(opcode, gasRemaining, 0)];
    }

    method StepEnd(gasRemaining: nat, stop: Stop)
      modifies this
      ensures Contents() == OnStepEnd(old(Contents()), gasRemaining, stop)
    {
      if pending == [] { return; }
      var p := pending[|pending| - 1];
      pending := pending[..|pending| - 1];
      if p.opcode.None? { return; }
      var cost := SaturatingSub(StepCost(p.gasRemaining, gasRemaining, stop), p.childGasUsed);
      gas := gas[p.opcode.value := Get(gas, p.opcode.value) + cost];
    }

    method ExcludeChildGas(op: Byte, spent: nat)
      modifies this`pending
      ensures Contents() == Exclude(old(Contents()), op, spent)
    {
      var opcode := OpCodeOf(op);
      if opcode.None? { return; }
      if pending != [] && pending[|pending| - 1].opcode == opcode {
        var p := pending[|pending| - 1];
        pending := pending[|pending| - 1 := p.(childGasUsed := SaturatingAdd64(p.childGasUsed, spent))];
      }
    }

    method MessageEnd(kind: MessageKind, spent: nat, root: bool)
      modifies this`pending
      ensures Contents() == OnMessageEnd(old(Contents()), kind, spent, root)
      ensures var n := |old(pending)| - 1;
              if root || n < 0 || old(pending)[n].opcode.None?
                 || SpawnedKind(old(pending)[n].opcode.value) != Some(kind)
              then pending == old(pending)
              else
                && |pending| == n + 1 && pending[..n] == old(pending)[..n]
                && pending[n].opcode == old(pending)[n].opcode
                && pending[n].gasRemaining == old(pending)[n].gasRemaining
                && pending[n].childGasUsed == (if old(pending)[n].childGasUsed + spent > U64_MAX then U64_MAX
                                               else old(pending)[n].childGasUsed + spent)
    {
      if root { return; }
      ExcludeChildGas(SpawningOpcode(kind), spent);
    }
  }

  // ----- frames and steps ------------------------------------------------------------------------------------

  /** A step with the gas before and after it, and the call or create it spawned, if any. */
  datatype Step = Step(op: Byte, before: nat, after: nat, stop: Stop, child: Option<Child>)

  /** A spawned frame: its steps and the gas its result reports as spent. */
  datatype Child = Child(kind: MessageKind, steps: Steps, spent: nat)

  datatype Steps = Nil | Cons(head: Step, tail: Steps)

  /** Gas a step used up: all of it when it ran out, none when the sentry refused it, otherwise the drop. */
  function Used(x: Step): nat {
    if x.stop == OutOfGas then x.before
    else if x.stop == ReentrancySentry || x.before < x.after then 0
    else x.before - x.after
  }

  function RunStep(s: State, x: Step): State
    decreases x
  {
    var s1 := OnStep(s, x.op, x.before);
    var s2 := if x.child.Some? then
                OnMessageEnd(RunSteps(s1, x.child.value.steps), x.child.value.kind, x.child.value.spent, false)
              else s1;
    OnStepEnd(s2, x.after, x.stop)
  }

  function RunSteps(s: State, xs: Steps): State
    decreases xs
  {
    match xs case Nil => s case Cons(head, tail) => RunSteps(RunStep(s, head), tail)
  }

  /** Gas a frame's own steps consumed, each with what it spawned. */
  function Consumed(xs: Steps): nat
    decreases xs
  {
    match xs case Nil => 0 case Cons(x, tail) => Used(x) + Consumed(tail)
  }

  function Count(xs: Steps): nat
    decreases xs
  {
    match xs
    case Nil => 0
    case Cons(x, tail) =>
      (if Defined(x.op) then 1 else 0) + (if x.child.Some? then Count(x.child.value.steps) else 0) + Count(tail)
  }

  /** Gas excluded from a step: its child's, when the opcode spawns such a child. */
  function Excluded(x: Step): nat {
    if x.child.None? || SpawnedKind(x.op) != Some(x.child.value.kind) then 0
    else if x.child.value.spent > U64_MAX then U64_MAX
    else x.child.value.spent
  }

  /** Gas booked over all opcodes for a sequence of steps and everything they spawned. */
  function Booked(xs: Steps): nat
    decreases xs
  {
    match xs
    case Nil => 0
    case Cons(x, tail) =>
      (if Defined(x.op) then SaturatingSub(Used(x), Excluded(x)) else 0) +
      (if x.child.Some? then Booked(x.child.value.steps) else 0) +
      Booked(tail)
  }

  /** The sum of a table over all opcodes below `n`. */
  function Sum(m: map<Byte, nat>, n: nat): nat
    requires n <= 256
  {
    if n == 0 then 0 else Sum(m, n - 1) + Get(m, n - 1)
  }

  function Total(m: map<Byte, nat>): nat { Sum(m, 256) }

  lemma {:induction false} SumAdd(m: map<Byte, nat>, op: Byte, more: nat, n: nat)
    requires n <= 256
    ensures Sum(m[op := Get(m, op) + more], n) == Sum(m, n) + if op < n then more else 0
  {
    if n > 0 { SumAdd(m, op, more, n - 1); }
  }

  /** Each opcode's entry is at most the total. */
  lemma {:induction false} EntryAtMostSum(m: map<Byte, nat>, op: Byte, n: nat)
    requires op < n <= 256
    ensures Get(m, op) <= Sum(m, n)
  {
    if op < n - 1 { EntryAtMostSum(m, op, n - 1); }
  }

  /**
   Every walk of frames and steps returns the pending stack to where it was, books `Booked` gas in
   all, and counts every defined step once.
   */
  lemma {:induction false} RunBooks(s: State, xs: Steps)
    ensures RunSteps(s, xs).pending == s.pending
    ensures Total(RunSteps(s, xs).gas) == Total(s.gas) + Booked(xs)
    ensures Total(RunSteps(s, xs).counts) == Total(s.counts) + Count(xs)
    decreases xs
  {
    match xs
    case Nil =>
    case Cons(x, tail) =>
      StepBooks(s, x);
      RunBooks(RunStep(s, x), tail);
  }

  lemma BeginBooks(s: State, op: Byte, before: nat)
    ensures OnStep(s, op, before).pending == s.pending + [Pending(OpCodeOf(op), before, 0)]
    ensures OnStep(s, op, before).gas == s.gas
    ensures Total(OnStep(s, op, before).counts) == Total(s.counts) + if Defined(op) then 1 else 0
  {
    SumAdd(s.counts, op, 1, 256);
  }

  lemma EndBooks(s: State, rest: seq<Pending>, op: Byte, before: nat, excluded: nat, after: nat, stop: Stop)
    requires s.pending == rest + [Pending(OpCodeOf(op), before, excluded)]
    ensures OnStepEnd(s, after, stop).pending == rest
    ensures OnStepEnd(s, after, stop).counts == s.counts
    ensures Total(OnStepEnd(s, after, stop).gas) ==
            Total(s.gas) + if Defined(op) then SaturatingSub(StepCost(before, after, stop), excluded) else 0
  {
    assert s.pending[..|s.pending| - 1] == rest;
    SumAdd(s.gas, op, SaturatingSub(StepCost(before, after, stop), excluded), 256);
  }

  lemma {:induction false} StepBooks(s: State, x: Step)
    ensures RunStep(s, x).pending == s.pending
    ensures Total(RunStep(s, x).gas) == Total(s.gas) + Booked(Cons(x, Nil))
    ensures Total(RunStep(s, x).counts) == Total(s.counts) + Count(Cons(x, Nil))
    decreases x
  {
    var s1 := OnStep(s, x.op, x.before);
    BeginBooks(s, x.op, x.before);
    var s2 := s1;
    if x.child.Some? {
      var c := x.child.value;
      RunBooks(s1, c.steps);
      SpawningOpcodeInverts(c.kind, x.op);
      s2 := OnMessageEnd(RunSteps(s1, c.steps), c.kind, c.spent, false);
    }
    EndBooks(s2, s.pending, x.op, x.before, Excluded(x), x.after, x.stop);
  }

  // ----- attribution ----------------------------------------------------------------------------------------

  /** What one step books to `op`. */
  function OwnGas(x: Step, op: Byte): nat {
    if x.op == op && Defined(op) then SaturatingSub(Used(x), Excluded(x)) else 0
  }

  /** Gas booked to `op` for a sequence of steps and everything they spawned. */
  function BookedFor(xs: Steps, op: Byte): nat
    decreases xs
  {
    match xs
    case Nil => 0
    case Cons(x, tail) =>
      OwnGas(x, op) + (if x.child.Some? then BookedFor(x.child.value.steps, op) else 0) + BookedFor(tail, op)
  }

  /** How often `op` was stepped. */
  function CountFor(xs: Steps, op: Byte): nat
    decreases xs
  {
    match xs
    case Nil => 0
    case Cons(x, tail) =>
      (if x.op == op && Defined(op) then 1 else 0) +
      (if x.child.Some? then CountFor(x.child.value.steps, op) else 0) + CountFor(tail, op)
  }

  /** Attribution: every walk books each step's own gas, and counts the step, under the step's opcode. */
  lemma {:induction false} RunAttributes(s: State, xs: Steps, op: Byte)
    ensures Get(RunSteps(s, xs).gas, op) == Get(s.gas, op) + BookedFor(xs, op)
    ensures Get(RunSteps(s, xs).counts, op) == Get(s.counts, op) + CountFor(xs, op)
    decreases xs
  {
    match xs
    case Nil =>
    case Cons(x, tail) =>
      StepAttributes(s, x, op);
      RunAttributes(RunStep(s, x), tail, op);
  }

  lemma {:induction false} StepAttributes(s: State, x: Step, op: Byte)
    ensures Get(RunStep(s, x).gas, op) == Get(s.gas, op) + BookedFor(Cons(x, Nil), op)
    ensures Get(RunStep(s, x).counts, op) == Get(s.counts, op) + CountFor(Cons(x, Nil), op)
    decreases x
  {
    var s1 := OnStep(s, x.op, x.before);
    var s2 := s1;
    if x.child.Some? {
      var c := x.child.value;
      RunAttributes(s1, c.steps, op);
      RunBooks(s1, c.steps);
      SpawningOpcodeInverts(c.kind, x.op);
      s2 := OnMessageEnd(RunSteps(s1, c.steps), c.kind, c.spent, false);
    }
    EndAttributes(s2, s.pending, x, op);
  }

  lemma EndAttributes(s: State, rest: seq<Pending>, x: Step, op: Byte)
    requires s.pending == rest + [Pending(OpCodeOf(x.op), x.before, Excluded(x))]
    ensures Get(OnStepEnd(s, x.after, x.stop).gas, op) == Get(s.gas, op) + OwnGas(x, op)
    ensures OnStepEnd(s, x.after, x.stop).counts == s.counts
  {
  }

  // ----- conservation ---------------------------------------------------------------------------------------

  /**
   All opcodes are defined, a spawned frame fits its opcode, and the spawning step's gas drop covers
   what the frame spent.
   */
  predicate Regular(xs: Steps)
    decreases xs
  {
    match xs
    case Nil => true
    case Cons(x, tail) =>
      && Defined(x.op)
      && (x.child.Some? ==>
            && SpawnedKind(x.op) == Some(x.child.value.kind)
            && x.child.value.spent <= Used(x) <= U64_MAX
            && Regular(x.child.value.steps))
      && Regular(tail)
  }

  /** Gas that spawned frames report beyond what their own steps consumed, such as a precompile's. */
  function Unstepped(xs: Steps): int
    decreases xs
  {
    match xs
    case Nil => 0
    case Cons(x, tail) =>
      (if x.child.Some? then
         x.child.value.spent - Consumed(x.child.value.steps) + Unstepped(x.child.value.steps)
       else 0) + Unstepped(tail)
  }

  /** Every spawned frame reports exactly what its steps consumed. */
  predicate FramesExact(xs: Steps)
    decreases xs
  {
    match xs
    case Nil => true
    case Cons(x, tail) =>
      && (x.child.Some? ==>
            x.child.value.spent == Consumed(x.child.value.steps) && FramesExact(x.child.value.steps))
      && FramesExact(tail)
  }

  /** Every spawned frame reports at least what its steps consumed, as a frame that ran them does. */
  predicate Covered(xs: Steps)
    decreases xs
  {
    match xs
    case Nil => true
    case Cons(x, tail) =>
      && (x.child.Some? ==>
            x.child.value.spent >= Consumed(x.child.value.steps) && Covered(x.child.value.steps))
      && Covered(tail)
  }

  /** The booked gas is the root frame's consumption less the gas no step accounts for. */
  lemma {:induction false} BookedGas(xs: Steps)
    requires Regular(xs)
    ensures Booked(xs) == Consumed(xs) - Unstepped(xs)
    decreases xs
  {
    match xs
    case Nil =>
    case Cons(x, tail) =>
      if x.child.Some? { BookedGas(x.child.value.steps); }
      BookedGas(tail);
  }

  /** Among frames that report at least their steps, only exact ones leave nothing unstepped. */
  lemma {:induction false} NothingUnstepped(xs: Steps)
    requires Covered(xs)
    ensures Unstepped(xs) >= 0 && (Unstepped(xs) == 0 <==> FramesExact(xs))
    decreases xs
  {
    match xs
    case Nil =>
    case Cons(x, tail) =>
      if x.child.Some? { NothingUnstepped(x.child.value.steps); }
      NothingUnstepped(tail);
  }

  /** A frame that reports exactly its steps reports at least them. */
  lemma {:induction false} ExactIsCovered(xs: Steps)
    requires FramesExact(xs)
    ensures Covered(xs)
    decreases xs
  {
    match xs
    case Nil =>
    case Cons(x, tail) =>
      if x.child.Some? { ExactIsCovered(x.child.value.steps); }
      ExactIsCovered(tail);
  }

  /**
   Gas conservation: after every regular run from a fresh inspector no step is left pending, each
   opcode holds what its own steps cost, and together they hold the root frame's consumption less
   what frames report beyond their steps. Where no frame reports less than its steps, no opcode books
   more than the root frame consumed, and all of them book exactly that if and only if every frame
   below reports exactly what its steps consumed.
   */
  lemma GasIsConserved(xs: Steps)
    requires Regular(xs)
    ensures var s := RunSteps(State(map[], map[], []), xs);
            && s.pending == []
            && (forall op: Byte :: Get(s.gas, op) == BookedFor(xs, op))
            && Total(s.gas) == Consumed(xs) - Unstepped(xs)
            && (Covered(xs) ==>
                  && (forall op: Byte :: Get(s.gas, op) <= Total(s.gas) <= Consumed(xs))
                  && (Total(s.gas) == Consumed(xs) <==> FramesExact(xs)))
            && (FramesExact(xs) ==> Total(s.gas) == Consumed(xs))
  {
    if FramesExact(xs) { ExactIsCovered(xs); }
    var empty := State(map[], map[], []);
    var s := RunSteps(empty, xs);
    RunBooks(empty, xs);
    EmptySum(256);
    BookedGas(xs);
    if Covered(xs) { NothingUnstepped(xs); }
    forall op: Byte ensures Get(s.gas, op) == BookedFor(xs, op) && Get(s.gas, op) <= Total(s.gas) {
      RunAttributes(empty, xs, op);
      EntryAtMostSum(s.gas, op, 256);
    }
  }

  /** A frame without steps that reports five, and one that reports nothing of its step of five. */
  const CANCELLING: Steps :=
    Cons(Step(CALL, 100, 90, Other, Some(Child(CallMessage, Nil, 5))),
         Cons(Step(CALL, 90, 80, Other, Some(Child(CallMessage, Cons(Step(ADD, 10, 5, Other, None), Nil), 0))), Nil))

  lemma CancellingFrames(xs: Steps)
    requires xs == CANCELLING
    ensures Regular(xs) && !FramesExact(xs) && Unstepped(xs) == 0
  {
    assert Consumed(Cons(Step(ADD, 10, 5, Other, None), Nil)) == 5;
    assert Unstepped(xs.tail) == -5;
  }

  /** Without that, a frame that reports too much can hide one that reports too little. */
  lemma MisreportsCanCancel(xs: Steps)
    requires xs == CANCELLING
    ensures Regular(xs) && !FramesExact(xs) && Total(RunSteps(State(map[], map[], []), xs).gas) == Consumed(xs)
  {
    CancellingFrames(xs);
    GasIsConserved(xs);
  }

  lemma {:induction false} EmptySum(n: nat)
    requires n <= 256
    ensures Sum(map[], n) == 0
  {
    if n > 0 { EmptySum(n - 1); }
  }
}
