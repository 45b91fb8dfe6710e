/**
 The structured bytecode generator (crates/cli/src/fuzzer/program.rs): a one-pass assembler that
 tracks a stack height, writes placeholder jump targets and patches them. Random choices are
 arbitrary: every method below holds for every sequence of choices.
 */
module Generator {
  import opened Common
  import opened Bytecode

  // ----- arbitrary choices -------------------------------------------------------------------------

  method Range(end: nat) returns (k: nat)
    requires 0 < end
    ensures k < end
  {
    k :| 0 <= k < end;
  }

  method RangeInclusive(start: nat, end: nat) returns (k: nat)
    requires start <= end
    ensures start <= k <= end
  {
    k :| start <= k <= end;
  }

  method Flip() returns (b: bool) {
    b := *;
  }

  const WORD_BOUND: nat := U256_MAX + 1

  /** Any 256-bit word. */
  method Word() returns (w: nat)
    ensures w < WORD_BOUND
  {
    w :| 0 <= w < WORD_BOUND;
  }

  /** Zero, one, any 16-bit word or the greatest word. */
  method InvalidTarget() returns (w: nat)
    ensures w <= 0xffff || w == U256_MAX
  {
    w :| 0 <= w <= 0xffff || w == U256_MAX;
  }

  method Pick<T>(values: seq<T>) returns (v: T)
    requires values != []
    ensures v in values
  {
    var i := Range(|values|);
    v := values[i];
  }

  // ----- the abstract program ----------------------------------------------------------------------

  function Max(x: nat, y: nat): nat { if x < y then y else x }

  /** The stack height before instruction `k`, by the opcode table alone. */
  function Height(items: seq<Instr>, k: nat): int
    requires k <= |items|
  {
    if k == 0 then 0 else Height(items, k - 1) + items[k - 1].Delta()
  }

  /** Every instruction finds the words it needs, and no height passes `peak`. */
  predicate Supplied(items: seq<Instr>, peak: nat) {
    forall k :: 0 <= k < |items| ==> Supplies(items, k, peak)
  }

  predicate Supplies(items: seq<Instr>, k: nat, peak: nat)
    requires k < |items|
  {
    items[k].Needs().Some? && items[k].Needs().value <= Height(items, k) <= peak
  }

  /** Jump instruction `j` is preceded by a push of the offset of the `JUMPDEST` at `t`. */
  predicate LinkedAt(items: seq<Instr>, j: nat, t: nat) {
    && 1 <= j < t < |items|
    && (items[j].op == JUMP || items[j].op == JUMPI)
    && items[t].op == JUMPDEST
    && Offset(items, t) < 0x10000
    && items[j - 1] == Instr(PUSH2, ToBytes(Offset(items, t), 2))
    && Height(items, t) == Height(items, j + 1)
  }

  predicate Linked(items: seq<Instr>, jumps: map<nat, nat>) {
    forall j :: j in jumps ==> LinkedAt(items, j, jumps[j])
  }

  predicate Clean(items: seq<Instr>) {
    forall k :: 0 <= k < |items| ==> ScansCleanly(items[k])
  }

  predicate WellBuilt(code: seq<Byte>, items: seq<Instr>, jumps: map<nat, nat>, height: nat, peak: nat) {
    && code == Encode(items)
    && Clean(items)
    && Supplied(items, peak)
    && height == Height(items, |items|)
    && Linked(items, jumps)
  }

  /** The arity an emission declares is the opcode's, and the stack holds what it needs. */
  predicate Declares(i: Instr, pops: nat, pushes: nat, height: nat) {
    && ScansCleanly(i)
    && i.Delta() == pushes - pops
    && i.Needs().Some? && pops <= i.Needs().value <= height
  }

  lemma {:induction false} HeightPrefix(items: seq<Instr>, more: seq<Instr>, k: nat)
    requires k <= |items|
    ensures Height(items + more, k) == Height(items, k)
  {
    if k > 0 { HeightPrefix(items, more, k - 1); }
  }

  lemma OffsetPrefix(items: seq<Instr>, more: seq<Instr>, k: nat)
    requires k <= |items|
    ensures Offset(items + more, k) == Offset(items, k)
  {
    assert (items + more)[..k] == items[..k];
  }

  lemma LinkedAppend(items: seq<Instr>, i: Instr, j: nat, t: nat)
    requires LinkedAt(items, j, t)
    ensures LinkedAt(items + [i], j, t)
  {
    HeightPrefix(items, [i], t);
    HeightPrefix(items, [i], j + 1);
    OffsetPrefix(items, [i], t);
  }

  /** Appending an instruction that declares its real arity keeps the program well built. */
  lemma AppendWellBuilt(code: seq<Byte>, items: seq<Instr>, jumps: map<nat, nat>, height: nat, peak: nat,
                        i: Instr, pops: nat, pushes: nat, peak': nat)
    requires WellBuilt(code, items, jumps, height, peak) && Declares(i, pops, pushes, height)
    requires height <= peak <= peak'
    ensures WellBuilt(code + [i.op] + i.immediate, items + [i], jumps, height - pops + pushes, peak')
  {
    var more := items + [i];
    EncodeSnoc(items, i);
    forall k | 0 <= k < |more| ensures Supplies(more, k, peak') {
      HeightPrefix(items, [i], k);
      if k < |items| { assert Supplies(items, k, peak); }
    }
    HeightPrefix(items, [i], |items|);
    forall j | j in jumps ensures LinkedAt(more, j, jumps[j]) {
      LinkedAppend(items, i, j, jumps[j]);
    }
  }

  // ----- patching ------------------------------------------------------------------------------------

  function Splice(code: seq<Byte>, at: nat, bytes: seq<Byte>): seq<Byte>
    requires at + |bytes| <= |code|
  {
    code[..at] + bytes + code[at + |bytes|..]
  }

  lemma {:induction false} HeightPatch(items: seq<Instr>, p: nat, i: Instr, k: nat)
    requires p < |items| && k <= |items| && i.op == items[p].op
    ensures Height(items[p := i], k) == Height(items, k)
  {
    if k > 0 { HeightPatch(items, p, i, k - 1); }
  }

  lemma SplicePieces(head: seq<Byte>, op: Byte, was: seq<Byte>, bytes: seq<Byte>, tail: seq<Byte>)
    requires |bytes| == |was|
    ensures Splice(head + [op] + was + tail, |head| + 1, bytes) == head + [op] + bytes + tail
  {
    var code := head + [op] + was + tail;
    assert code[..|head| + 1] == head + [op];
    assert code[|head| + 1 + |bytes|..] == tail;
  }

  lemma EncodeSplit(items: seq<Instr>, p: nat)
    requires p < |items|
    ensures Encode(items) == Encode(items[..p]) + [items[p].op] + items[p].immediate + Encode(items[p + 1..])
  {
    var head, tail := items[..p], items[p..];
    assert items == head + tail;
    EncodeAppend(head, tail);
    EncodeCons(tail);
    assert tail[1..] == items[p + 1..];
    Regroup(Encode(head), [items[p].op], items[p].immediate, Encode(items[p + 1..]));
  }

  lemma EncodeSplitPatch(items: seq<Instr>, p: nat, i: Instr)
    requires p < |items|
    ensures Encode(items[p := i]) == Encode(items[..p]) + [i.op] + i.immediate + Encode(items[p + 1..])
  {
    var patched := items[p := i];
    assert patched[..p] == items[..p] && patched[p + 1..] == items[p + 1..];
    EncodeSplit(patched, p);
  }

  lemma EncodePatch(items: seq<Instr>, p: nat, bytes: seq<Byte>)
    requires p < |items| && |bytes| == |items[p].immediate|
    ensures Offset(items, p) + 1 + |bytes| <= |Encode(items)|
    ensures Encode(items[p := Instr(items[p].op, bytes)]) == Splice(Encode(items), Offset(items, p) + 1, bytes)
  {
    EncodeSplit(items, p);
    EncodeSplitPatch(items, p, Instr(items[p].op, bytes));
    SplicePieces(Encode(items[..p]), items[p].op, items[p].immediate, bytes, Encode(items[p + 1..]));
  }

  lemma OffsetPatch(items: seq<Instr>, p: nat, i: Instr, k: nat)
    requires p < |items| && k <= |items| && |i.immediate| == |items[p].immediate|
    ensures Offset(items[p := i], k) == Offset(items, k)
  {
    if p < k {
      EncodeSplit(items[..k], p);
      EncodeSplit(items[p := i][..k], p);
      assert items[..k][..p] == items[p := i][..k][..p];
      assert items[..k][p + 1..] == items[p := i][..k][p + 1..];
    } else {
      assert items[p := i][..k] == items[..k];
    }
  }

  /** Rewriting the immediate of an unlinked `PUSH2` keeps the program well built. */
  lemma PatchWellBuilt(code: seq<Byte>, items: seq<Instr>, jumps: map<nat, nat>, height: nat, peak: nat,
                       p: nat, bytes: seq<Byte>)
    requires WellBuilt(code, items, jumps, height, peak)
    requires p < |items| && items[p].op == PUSH2 && |bytes| == 2 && p + 1 !in jumps
    ensures Offset(items, p) + 3 <= |code|
    ensures WellBuilt(Splice(code, Offset(items, p) + 1, bytes), items[p := Instr(PUSH2, bytes)], jumps, height, peak)
  {
    var patched := items[p := Instr(PUSH2, bytes)];
    assert ScansCleanly(items[p]);
    EncodePatch(items, p, bytes);
    forall k | 0 <= k < |patched| ensures Supplies(patched, k, peak) {
      assert Supplies(items, k, peak);
      HeightPatch(items, p, patched[p], k);
    }
    HeightPatch(items, p, patched[p], |items|);
    forall j | j in jumps ensures LinkedAt(patched, j, jumps[j]) {
      assert LinkedAt(items, j, jumps[j]);
      HeightPatch(items, p, patched[p], jumps[j]);
      HeightPatch(items, p, patched[p], j + 1);
      OffsetPatch(items, p, patched[p], jumps[j]);
    }
  }

  lemma WholeCode(code: seq<Byte>, items: seq<Instr>, jumps: map<nat, nat>, height: nat, peak: nat)
    requires WellBuilt(code, items, jumps, height, peak)
    ensures Offset(items, |items|) == |code| && Height(items, |items|) == height
  {
    assert items[..|items|] == items;
  }

  /** A placeholder patched after a height-neutral block links its jump to the next instruction. */
  lemma LinkNew(jumped: seq<Instr>, block: seq<Instr>, p: nat, height: int)
    requires |jumped| == p + 2 && jumped <= block && Offset(block, |block|) < 0x10000
    requires jumped[p].op == PUSH2 && |jumped[p].immediate| == 2
    requires jumped[p + 1].op == JUMP || jumped[p + 1].op == JUMPI
    requires Height(jumped, p + 2) == height == Height(block, |block|)
    ensures var patched := block[p := Instr(PUSH2, ToBytes(Offset(block, |block|), 2))];
            LinkedAt(patched + [Instr(JUMPDEST, [])], p + 1, |block|)
  {
    var i := Instr(PUSH2, ToBytes(Offset(block, |block|), 2));
    var landing := [Instr(JUMPDEST, [])];
    PatchedPrefix(block, p, i, landing, |block|);
    PatchedPrefix(block, p, i, landing, p + 2);
    assert block == jumped + block[p + 2..];
    HeightPrefix(jumped, block[p + 2..], p + 2);
  }

  lemma PatchedPrefix(items: seq<Instr>, p: nat, i: Instr, more: seq<Instr>, k: nat)
    requires p < |items| && k <= |items| && i.op == items[p].op && |i.immediate| == |items[p].immediate|
    ensures Offset(items[p := i] + more, k) == Offset(items, k) && Height(items[p := i] + more, k) == Height(items, k)
  {
    OffsetPrefix(items[p := i], more, k);
    OffsetPatch(items, p, i, k);
    HeightPrefix(items[p := i], more, k);
    HeightPatch(items, p, i, k);
  }

  /** The same, for a patch with the position cut to 16 bits. */
  lemma LandedLink(jumped: seq<Instr>, block: seq<Instr>, p: nat, height: int, size: nat)
    requires |jumped| == p + 2 && jumped <= block && Offset(block, |block|) == size < 0x10000
    requires jumped[p].op == PUSH2 && |jumped[p].immediate| == 2
    requires jumped[p + 1].op == JUMP || jumped[p + 1].op == JUMPI
    requires Height(jumped, p + 2) == height == Height(block, |block|)
    ensures LinkedAt(block[p := Instr(PUSH2, ToBytes(size % 0x10000, 2))] + [Instr(JUMPDEST, [])], p + 1, |block|)
  {
    LinkNew(jumped, block, p, height);
  }

  lemma AddLink(code: seq<Byte>, items: seq<Instr>, jumps: map<nat, nat>, height: nat, peak: nat, j: nat, t: nat)
    requires WellBuilt(code, items, jumps, height, peak) && LinkedAt(items, j, t)
    ensures WellBuilt(code, items, jumps[j := t], height, peak)
  {
  }

  predicate Extends(jumps: map<nat, nat>, more: map<nat, nat>) {
    forall j :: j in jumps ==> j in more && more[j] == jumps[j]
  }

  /** The four kinds of jump statements. */
  datatype JumpKind = InvalidJump | InvalidJumpi | ForwardJump | ForwardJumpi
  {
    predicate Forward() { ForwardJump? || ForwardJumpi? }

    function Op(): Byte { if InvalidJump? || ForwardJump? then JUMP else JUMPI }
  }

  // ----- accounting for jumps ------------------------------------------------------------------------

  predicate IsJump(op: Byte) { op == JUMP || op == JUMPI }

  /** A jump to whatever word the instruction before it pushes. */
  predicate FollowsPush(items: seq<Instr>, k: nat) {
    1 <= k < |items| && IsJump(items[k].op) && IsPush(items[k - 1].op)
  }

  /** Patched, random and open jumps are instructions, random ones follow a push, and no jump is both. */
  predicate Marked(items: seq<Instr>, jumps: map<nat, nat>, random: set<nat>, open: set<nat>) {
    && (forall k :: k in random ==> FollowsPush(items, k) && k !in jumps && k !in open)
    && (forall k :: k in jumps ==> k < |items|)
    && (forall k :: k in open ==> k < |items|)
  }

  /** A jump instruction of the program. */
  datatype Site = Site(at: nat, op: Byte)

  /** The sites are the jump instructions of the program, in order. */
  predicate Listed(items: seq<Instr>, sites: seq<Site>) {
    && (forall n :: 0 <= n < |sites| ==>
                      sites[n].at < |items| && IsJump(sites[n].op) && items[sites[n].at].op == sites[n].op)
    && (forall m, n :: 0 <= m < n < |sites| ==> sites[m].at < sites[n].at)
    && (forall k :: 0 <= k < |items| && IsJump(items[k].op) ==> Site(k, items[k].op) in sites)
  }

  /** Every jump is patched, random or open. */
  predicate Known(sites: seq<Site>, jumps: map<nat, nat>, random: set<nat>, open: set<nat>) {
    forall n :: 0 <= n < |sites| ==> sites[n].at in jumps || sites[n].at in random || sites[n].at in open
  }

  /** Every jump instruction is a patched one, or follows the push of a random word, and not both. */
  predicate Accounted(items: seq<Instr>, sites: seq<Site>, jumps: map<nat, nat>, random: set<nat>) {
    Listed(items, sites) && Known(sites, jumps, random, {}) && Marked(items, jumps, random, {})
  }

  /** The `n`-th jump is of the kind chosen for it: patched if that is a forward jump, random otherwise. */
  predicate AsChosen(sites: seq<Site>, jumps: map<nat, nat>, kinds: nat -> JumpKind) {
    forall n :: 0 <= n < |sites| ==>
                  sites[n].op == kinds(n).Op() && (sites[n].at in jumps <==> kinds(n).Forward())
  }

  function Sites(sites: seq<Site>, at: nat, op: Byte): seq<Site> {
    if IsJump(op) then sites + [Site(at, op)] else sites
  }

  lemma ListedAppend(items: seq<Instr>, i: Instr, sites: seq<Site>)
    requires Listed(items, sites)
    ensures Listed(items + [i], Sites(sites, |items|, i.op))
  {
    var more, longer := items + [i], Sites(sites, |items|, i.op);
    forall k | 0 <= k < |more| && IsJump(more[k].op) ensures Site(k, more[k].op) in longer {
      if k == |items| {
        assert longer[|sites|] == Site(k, i.op);
      } else {
        assert Site(k, items[k].op) in sites;
      }
    }
  }

  lemma ListedPatch(items: seq<Instr>, p: nat, i: Instr, sites: seq<Site>)
    requires Listed(items, sites) && p < |items| && i.op == items[p].op
    ensures Listed(items[p := i], sites)
  {
    var patched := items[p := i];
    forall k | 0 <= k < |patched| && IsJump(patched[k].op) ensures Site(k, patched[k].op) in sites {
      assert Site(k, items[k].op) in sites;
    }
  }

  lemma MarkedAppend(items: seq<Instr>, i: Instr, jumps: map<nat, nat>, random: set<nat>, open: set<nat>)
    requires Marked(items, jumps, random, open)
    ensures Marked(items + [i], jumps, random, if IsJump(i.op) then open + {|items|} else open)
  {
    forall k | k in random ensures FollowsPush(items + [i], k) {
      assert FollowsPush(items, k);
    }
  }

  /** A jump emitted last after a push can be given up as random. */
  lemma CloseRandom(items: seq<Instr>, jumps: map<nat, nat>, random: set<nat>, open: set<nat>, before: set<nat>)
    requires Marked(items, jumps, random, open) && |items| >= 2 && FollowsPush(items, |items| - 1)
    requires open == before + {|items| - 1} && |items| - 1 !in jumps && |items| - 1 !in before
    ensures Marked(items, jumps, random + {|items| - 1}, before)
  {
  }

  /** The linked jump `j` leaves the open ones. */
  lemma CloseLinked(items: seq<Instr>, jumps: map<nat, nat>, random: set<nat>, open: set<nat>, j: nat, t: nat)
    requires Marked(items, jumps, random, open) && j in open
    ensures Marked(items, jumps[j := t], random, open - {j})
  {
  }

  lemma MarkedPatch(items: seq<Instr>, p: nat, i: Instr, jumps: map<nat, nat>, random: set<nat>, open: set<nat>)
    requires Marked(items, jumps, random, open) && p < |items| && i.op == items[p].op
    ensures Marked(items[p := i], jumps, random, open)
  {
    forall k | k in random ensures FollowsPush(items[p := i], k) {
      assert FollowsPush(items, k);
    }
  }

  // ----- the plan of a program ---------------------------------------------------------------------------

  /**
   What is known of a program beyond its bytes: its instructions, its jumps in order, the patched,
   random and open ones among them, whether every emission declared its opcode's arity and found the words it needs, and
   the greatest height so far.
   */
  datatype Plan = Plan(
    items: seq<Instr>,
    sites: seq<Site>,
    jumps: map<nat, nat>,
    random: set<nat>,
    open: set<nat>,
    exact: bool,
    peak: nat)

  const EMPTY_PLAN := Plan([], [], map[], {}, {}, true, 0)

  /** The plan is right about the program; about its code, if no push was truncated and offsets fit 16 bits. */
  predicate Planned(plan: Plan, code: seq<Byte>, height: nat, truncated: bool) {
    && Listed(plan.items, plan.sites)
    && Known(plan.sites, plan.jumps, plan.random, plan.open)
    && Marked(plan.items, plan.jumps, plan.random, plan.open)
    && height <= plan.peak
    && (!truncated && plan.exact && |code| < 0x10000 ==> WellBuilt(code, plan.items, plan.jumps, height, plan.peak))
  }

  function AfterEmit(plan: Plan, i: Instr, declared: bool, height: nat): Plan {
    Plan(plan.items + [i], Sites(plan.sites, |plan.items|, i.op), plan.jumps, plan.random,
         if IsJump(i.op) then plan.open + {|plan.items|} else plan.open,
         plan.exact && declared, Max(plan.peak, height))
  }

  lemma KnownAppend(sites: seq<Site>, at: nat, op: Byte, jumps: map<nat, nat>, random: set<nat>, open: set<nat>)
    requires Known(sites, jumps, random, open)
    ensures Known(Sites(sites, at, op), jumps, random, if IsJump(op) then open + {at} else open)
  {
  }

  /** Every emission keeps the plan right, whether or not it declares its opcode's arity. */
  lemma EmitPlanned(plan: Plan, code: seq<Byte>, height: nat, truncated: bool, i: Instr, pops: nat, pushes: nat,
                    declared: bool, after: nat)
    requires Planned(plan, code, height, truncated)
    requires declared == Declares(i, pops, pushes, height) && after == SaturatingSub(height, pops) + pushes
    ensures Planned(AfterEmit(plan, i, declared, after), code + [i.op] + i.immediate, after, truncated)
  {
    ListedAppend(plan.items, i, plan.sites);
    KnownAppend(plan.sites, |plan.items|, i.op, plan.jumps, plan.random, plan.open);
    MarkedAppend(plan.items, i, plan.jumps, plan.random, plan.open);
    if !truncated && plan.exact && |code| < 0x10000 && declared {
      AppendWellBuilt(code, plan.items, plan.jumps, height, plan.peak, i, pops, pushes, Max(plan.peak, after));
    }
  }

  lemma AppendPlanned(plan: Plan, code: seq<Byte>, height: nat, truncated: bool, bytes: seq<Byte>, i: Instr,
                      pops: nat, pushes: nat, declared: bool, after: nat)
    requires Planned(plan, code, height, truncated) && bytes == [i.op] + i.immediate
    requires declared == Declares(i, pops, pushes, height) && after == SaturatingSub(height, pops) + pushes
    ensures code + bytes == code + [i.op] + i.immediate
    ensures Planned(AfterEmit(plan, i, declared, after), code + bytes, after, truncated) == true
  {
    assert code + bytes == code + [i.op] + i.immediate;
    EmitPlanned(plan, code, height, truncated, i, pops, pushes, declared, after);
  }

  lemma PushDeclares(bytes: seq<Byte>, height: nat)
    requires 1 <= |bytes| <= 32
    ensures Declares(Instr(PUSH1 + |bytes| - 1, bytes), 0, 1, height)
  {
  }

  lemma SpliceLength(code: seq<Byte>, at: nat, bytes: seq<Byte>)
    requires at + |bytes| <= |code|
    ensures |Splice(code, at, bytes)| == |code|
  {
  }

  function AfterPatch(plan: Plan, p: nat, bytes: seq<Byte>): Plan
    requires p < |plan.items|
  {
    plan.(items := plan.items[p := Instr(PUSH2, bytes)])
  }

  lemma PatchPlanned(plan: Plan, code: seq<Byte>, height: nat, truncated: bool, p: nat, at: nat, bytes: seq<Byte>)
    requires Planned(plan, code, height, truncated)
    requires p < |plan.items| && plan.items[p].op == PUSH2 && p + 1 !in plan.jumps && |bytes| == 2 && at + 2 <= |code|
    requires !truncated && plan.exact && |code| < 0x10000 ==> Offset(plan.items, p) + 1 == at
    ensures Planned(AfterPatch(plan, p, bytes), Splice(code, at, bytes), height, truncated)
  {
    ListedPatch(plan.items, p, Instr(PUSH2, bytes), plan.sites);
    MarkedPatch(plan.items, p, Instr(PUSH2, bytes), plan.jumps, plan.random, plan.open);
    SpliceLength(code, at, bytes);
    if !truncated && plan.exact && |code| < 0x10000 {
      PatchWellBuilt(code, plan.items, plan.jumps, height, plan.peak, p, bytes);
    }
  }

  /** One more jump of the next kind keeps all jumps as chosen. */
  lemma ChosenNext(before: Plan, after: Plan, kinds: nat -> JumpKind)
    requires Listed(before.items, before.sites) && AsChosen(before.sites, before.jumps, kinds)
    requires forall k :: k in before.jumps ==> k < |before.items|
    requires |after.sites| == |before.sites| + 1 && before.sites <= after.sites
    requires var site, kind := after.sites[|before.sites|], kinds(|before.sites|);
             && |before.items| <= site.at && site.op == kind.Op()
             && (if kind.Forward() then after.jumps.Keys == before.jumps.Keys + {site.at}
                 else after.jumps == before.jumps)
    ensures AsChosen(after.sites, after.jumps, kinds)
  {
    forall n | 0 <= n < |after.sites|
      ensures after.sites[n].op == kinds(n).Op() && (after.sites[n].at in after.jumps <==> kinds(n).Forward())
    {
      if n < |before.sites| {
        assert after.sites[n] == before.sites[n];
        assert before.sites[n].at < |before.items|;
      }
    }
  }

  function AfterRandom(plan: Plan, open: set<nat>): Plan
    requires plan.items != []
  {
    plan.(random := plan.random + {|plan.items| - 1}, open := open)
  }

  /** A jump emitted right after a push can be given up as random. */
  lemma RandomPlanned(plan: Plan, code: seq<Byte>, height: nat, truncated: bool, before: Plan)
    requires Planned(plan, code, height, truncated) && |plan.items| == |before.items| + 2
    requires FollowsPush(plan.items, |before.items| + 1)
    requires plan.open == before.open + {|before.items| + 1} && plan.jumps == before.jumps
    requires Marked(before.items, before.jumps, before.random, before.open)
    ensures Planned(AfterRandom(plan, before.open), code, height, truncated) == true
  {
    CloseRandom(plan.items, plan.jumps, plan.random, plan.open, before.open);
  }

  lemma LinkPlanned(plan: Plan, code: seq<Byte>, height: nat, truncated: bool, j: nat, t: nat)
    requires Planned(plan, code, height, truncated) && j in plan.open
    requires !truncated && plan.exact && |code| < 0x10000 ==> LinkedAt(plan.items, j, t)
    ensures Planned(plan.(jumps := plan.jumps[j := t], open := plan.open - {j}), code, height, truncated)
  {
    CloseLinked(plan.items, plan.jumps, plan.random, plan.open, j, t);
    if !truncated && plan.exact && |code| < 0x10000 {
      AddLink(code, plan.items, plan.jumps, height, plan.peak, j, t);
    }
  }

  // ----- words -----------------------------------------------------------------------------------------

  function ByteLen(v: nat): nat { if v == 0 then 0 else 1 + ByteLen(v / 256) }

  /** The width of a word's push: its own length up to eight bytes, otherwise the full 32. */
  function Width(v: nat): nat {
    var n := Max(ByteLen(v), 1);
    if n > 8 then 32 else n
  }

  lemma {:induction false} ByteLenFits(v: nat)
    ensures v < Pow256(ByteLen(v))
  {
    if v > 0 { ByteLenFits(v / 256); }
  }

  lemma {:induction false} ByteLenAtMost(v: nat, n: nat)
    requires v < Pow256(n)
    ensures ByteLen(v) <= n
  {
    if v > 0 && n > 0 { ByteLenAtMost(v / 256, n - 1); }
  }

  lemma Powers()
    ensures Pow256(8) == U64_MAX + 1
    ensures Pow256(32) == WORD_BOUND
  {
    assert Pow256(2) == 0x1_0000;
    assert Pow256(4) == 0x1_0000_0000;
    assert Pow256(6) == 0x1_0000_0000_0000;
    assert Pow256(8) == 0x1_0000_0000_0000_0000;
    assert Pow256(12) == 0x1_0000_0000_0000_0000_0000_0000 by { assert Pow256(10) == 0x1_0000_0000_0000_0000_0000; }
    assert Pow256(14) == 0x1_0000_0000_0000_0000_0000_0000_0000;
    assert Pow256(16) == 0x1_0000_0000_0000_0000_0000_0000_0000_0000;
    PowAdd(16, 16);
  }

  lemma {:induction false} PowAdd(m: nat, n: nat)
    ensures Pow256(m + n) == Pow256(m) * Pow256(n)
  {
    if m > 0 {
      PowAdd(m - 1, n);
      assert Pow256(m + n) == 256 * (Pow256(m - 1) * Pow256(n));
    }
  }

  /** Round trip: the pushed bytes are the word, in one to eight bytes or in 32. */
  lemma PushedWord(v: nat)
    requires v < WORD_BOUND
    ensures 1 <= Width(v) <= 32
    ensures v <= U64_MAX ==> Width(v) <= 8
    ensures FromBytes(ToBytes(v, Width(v))) == v
  {
    Powers();
    ByteLenFits(v);
    ByteLenAtMost(v, 32);
    if v <= U64_MAX { ByteLenAtMost(v, 8); }
    assert v < Pow256(Width(v)) by {
      if v == 0 { assert Pow256(1) == 256; }
    }
    BytesRoundTrip(v, Width(v));
  }

  lemma {:induction false} FromBytesBound(s: seq<Byte>)
    ensures FromBytes(s) < Pow256(|s|)
  {
    if s != [] { FromBytesBound(s[..|s| - 1]); }
  }

  /** The word of up to 32 bytes, padded on the right. */
  function PaddedWord(bytes: seq<Byte>): nat
    requires |bytes| <= 32
  {
    FromBytes(bytes + seq(32 - |bytes|, _ => 0))
  }

  lemma PaddedWordFits(bytes: seq<Byte>)
    requires |bytes| <= 32
    ensures PaddedWord(bytes) < WORD_BOUND
  {
    FromBytesBound(bytes + seq(32 - |bytes|, _ => 0));
    Powers();
  }

  // ----- memory writes ------------------------------------------------------------------------------------

  function Pushed(v: nat): Instr
    requires v < WORD_BOUND
  {
    PushedWord(v);
    Instr(PUSH1 + Width(v) - 1, ToBytes(v, Width(v)))
  }

  /** The instructions that store the word `v` at `at`. */
  function Stored(v: nat, at: nat): seq<Instr>
    requires v < WORD_BOUND && at < WORD_BOUND
  {
    [Pushed(v), Pushed(at), Instr(MSTORE, [])]
  }

  function Chunks(bytes: seq<Byte>): nat { (|bytes| + 31) / 32 }

  lemma ChunkCount(bytes: seq<Byte>)
    requires |bytes| <= 864
    ensures 43 * Chunks(bytes) <= 1161
  {
  }

  function Chunk(bytes: seq<Byte>, k: nat): (chunk: seq<Byte>)
    requires k < Chunks(bytes)
    ensures |chunk| <= 32
  {
    bytes[32 * k..if 32 * k + 32 <= |bytes| then 32 * k + 32 else |bytes|]
  }

  /** The stores of the first `n` chunks. */
  function Writes(offset: nat, bytes: seq<Byte>, n: nat): seq<Instr>
    requires n <= Chunks(bytes) && offset <= 96 && |bytes| <= 864
  {
    if n == 0 then []
    else
      PaddedWordFits(Chunk(bytes, n - 1));
      Writes(offset, bytes, n - 1) + Stored(PaddedWord(Chunk(bytes, n - 1)), offset + 32 * (n - 1))
  }

  /** Round trip: the big-endian bytes of the word that bytes stand for are these bytes. */
  lemma {:induction false} BytesBack(s: seq<Byte>)
    ensures ToBytes(FromBytes(s), |s|) == s
  {
    if s != [] { BytesBack(s[..|s| - 1]); }
  }

  /** The stored words hold the bytes: byte `k` is the byte `k % 32` of the word stored for its chunk. */
  lemma WritesHoldBytes(bytes: seq<Byte>, k: nat)
    requires k < |bytes|
    ensures k / 32 < Chunks(bytes)
    ensures ToBytes(PaddedWord(Chunk(bytes, k / 32)), 32)[k % 32] == bytes[k]
  {
    var chunk := Chunk(bytes, k / 32);
    BytesBack(chunk + seq(32 - |chunk|, _ => 0));
    assert chunk[k % 32] == bytes[k];
  }

  /** The stack, top last, and the memory. */
  datatype Machine = Machine(stack: seq<nat>, memory: nat -> Byte)

  /** A word in memory, its most significant byte first. */
  ghost function StoreWord(memory: nat -> Byte, at: nat, v: nat): nat -> Byte {
    (k: nat) => if at <= k < at + 32 then ToBytes(v, 32)[k - at] else memory(k)
  }

  /** What a push does, and what `MSTORE` does with the offset on top and the word below it. */
  ghost function PlayOne(i: Instr, s: Machine): Option<Machine> {
    var n := |s.stack|;
    if IsPush(i.op) then Some(s.(stack := s.stack + [FromBytes(i.immediate)]))
    else if i.op == MSTORE && n >= 2 then
      Some(Machine(s.stack[..n - 2], StoreWord(s.memory, s.stack[n - 1], s.stack[n - 2])))
    else None
  }

  ghost function Play(items: seq<Instr>, s: Machine): Option<Machine> {
    if items == [] then Some(s)
    else
      match Play(items[..|items| - 1], s)
      case Some(s1) => PlayOne(items[|items| - 1], s1)
      case None => None
  }

  lemma PlaySnoc(items: seq<Instr>, i: Instr, s: Machine, s1: Machine)
    requires Play(items, s) == Some(s1)
    ensures Play(items + [i], s) == PlayOne(i, s1)
  {
    assert (items + [i])[..|items|] == items;
  }

  /** The push puts the word on the stack. */
  lemma PushedPlays(v: nat, s: Machine)
    requires v < WORD_BOUND
    ensures PlayOne(Pushed(v), s) == Some(s.(stack := s.stack + [v]))
  {
    PushedWord(v);
  }

  lemma MstorePlays(stack: seq<nat>, memory: nat -> Byte, v: nat, at: nat)
    ensures PlayOne(Instr(MSTORE, []), Machine(stack + [v] + [at], memory)) ==
            Some(Machine(stack, StoreWord(memory, at, v)))
  {
    assert (stack + [v] + [at])[..|stack|] == stack;
  }

  /** Appended to any code, the store leaves the stack alone and the word at its offset. */
  lemma StoredPlays(items: seq<Instr>, s: Machine, s1: Machine, v: nat, at: nat)
    requires v < WORD_BOUND && at < WORD_BOUND && Play(items, s) == Some(s1)
    ensures Play(items + Stored(v, at), s) == Some(Machine(s1.stack, StoreWord(s1.memory, at, v)))
  {
    var push, offset, store := Pushed(v), Pushed(at), Instr(MSTORE, []);
    PushedPlays(v, s1);
    PlaySnoc(items, push, s, s1);
    PushedPlays(at, s1.(stack := s1.stack + [v]));
    PlaySnoc(items + [push], offset, s, s1.(stack := s1.stack + [v]));
    MstorePlays(s1.stack, s1.memory, v, at);
    PlaySnoc(items + [push] + [offset], store, s, s1.(stack := s1.stack + [v] + [at]));
    assert items + Stored(v, at) == items + [push] + [offset] + [store];
  }

  /** Memory holds the bytes of the first `n` chunks from `offset` on, and is as before elsewhere. */
  ghost predicate Written(before: nat -> Byte, after: nat -> Byte, offset: nat, bytes: seq<Byte>, n: nat) {
    && (forall k: nat :: k < |bytes| && k < 32 * n ==> after(offset + k) == bytes[k])
    && (forall a: nat :: a < offset || a >= offset + 32 * n ==> after(a) == before(a))
  }

  lemma ChunkWritten(before: nat -> Byte, memory: nat -> Byte, offset: nat, bytes: seq<Byte>, n: nat)
    requires n < Chunks(bytes) && Written(before, memory, offset, bytes, n)
    ensures Written(before, StoreWord(memory, offset + 32 * n, PaddedWord(Chunk(bytes, n))), offset, bytes, n + 1)
  {
    var after := StoreWord(memory, offset + 32 * n, PaddedWord(Chunk(bytes, n)));
    forall k: nat | k < |bytes| && k < 32 * (n + 1) ensures after(offset + k) == bytes[k] {
      if k >= 32 * n {
        assert k / 32 == n && k % 32 == k - 32 * n;
        WritesHoldBytes(bytes, k);
      }
    }
  }

  lemma OneMoreChunk(offset: nat, bytes: seq<Byte>, n: nat, s: Machine, s1: Machine)
    requires 0 < n <= Chunks(bytes) && offset <= 96 && |bytes| <= 864
    requires Play(Writes(offset, bytes, n - 1), s) == Some(s1)
    ensures var memory := StoreWord(s1.memory, offset + 32 * (n - 1), PaddedWord(Chunk(bytes, n - 1)));
            Play(Writes(offset, bytes, n), s) == Some(Machine(s1.stack, memory))
  {
    PaddedWordFits(Chunk(bytes, n - 1));
    StoredPlays(Writes(offset, bytes, n - 1), s, s1, PaddedWord(Chunk(bytes, n - 1)), offset + 32 * (n - 1));
  }

  ghost function MemoryAfter(memory: nat -> Byte, offset: nat, bytes: seq<Byte>, n: nat): nat -> Byte
    requires n <= Chunks(bytes)
  {
    if n == 0 then memory
    else
      StoreWord(MemoryAfter(memory, offset, bytes, n - 1), offset + 32 * (n - 1), PaddedWord(Chunk(bytes, n - 1)))
  }

  lemma {:induction false} BytesWritten(memory: nat -> Byte, offset: nat, bytes: seq<Byte>, n: nat)
    requires n <= Chunks(bytes)
    ensures Written(memory, MemoryAfter(memory, offset, bytes, n), offset, bytes, n)
  {
    if n > 0 {
      BytesWritten(memory, offset, bytes, n - 1);
      ChunkWritten(memory, MemoryAfter(memory, offset, bytes, n - 1), offset, bytes, n - 1);
    }
  }

  lemma {:induction false} WritesReach(offset: nat, bytes: seq<Byte>, n: nat, s: Machine)
    requires n <= Chunks(bytes) && offset <= 96 && |bytes| <= 864
    ensures Play(Writes(offset, bytes, n), s) == Some(Machine(s.stack, MemoryAfter(s.memory, offset, bytes, n)))
  {
    if n > 0 {
      WritesReach(offset, bytes, n - 1, s);
      OneMoreChunk(offset, bytes, n, s, Machine(s.stack, MemoryAfter(s.memory, offset, bytes, n - 1)));
    }
  }

  /** Run on any stack and memory, the stores put the bytes into memory at the offset and leave the stack alone. */
  lemma WritesPlay(offset: nat, bytes: seq<Byte>, s: Machine)
    requires offset <= 96 && |bytes| <= 864
    ensures var played := Play(Writes(offset, bytes, Chunks(bytes)), s);
            && played.Some? && played.value.stack == s.stack
            && (forall k: nat :: k < |bytes| ==> played.value.memory(offset + k) == bytes[k])
            && (forall a: nat :: a < offset || a >= offset + 32 * Chunks(bytes) ==>
                                   played.value.memory(a) == s.memory(a))
  {
    WritesReach(offset, bytes, Chunks(bytes), s);
    BytesWritten(s.memory, offset, bytes, Chunks(bytes));
  }

  // ----- precompile inputs (crates/cli/src/fuzzer/precompile.rs) -----------------------------------------

  const PRECOMPILES: seq<nat> :=
    [0x01, 0x02, 0x03, 0x04, 0x05, 0x06, 0x07, 0x08, 0x09, 0x0a, 0x0b, 0x0c, 0x0d, 0x0e, 0x0f, 0x10, 0x11, 0x100]

  function ExactLens(number: nat): seq<nat> {
    if number == 0x01 then [128]
    else if 0x02 <= number <= 0x04 then [32, 64, 128]
    else if number == 0x05 then [96, 99]
    else if number == 0x06 then [128]
    else if number == 0x07 then [96]
    else if number == 0x08 then [192, 384]
    else if number == 0x09 then [213]
    else if number == 0x0a then [192]
    else if number == 0x0b then [256]
    else if number == 0x0c then [160, 320]
    else if number == 0x0d then [512]
    else if number == 0x0e then [288, 576]
    else if number == 0x0f then [384, 768]
    else if number == 0x10 then [64]
    else if number == 0x11 then [128]
    else if number == 0x100 then [160]
    else [32]
  }

  /** Arbitrary bytes of a length the generator can choose: exact, one short, or a little longer. */
  method PrecompileInput(number: nat) returns (bytes: seq<Byte>)
    ensures |bytes| <= 864
  {
    var len: nat;
    var exact := Pick(ExactLens(number));
    var choice := Range(5);
    if choice == 0 {
      len := 0;
    } else if choice == 1 {
      len := exact;
    } else if choice == 2 {
      len := exact - 1;
    } else if choice == 3 {
      var extra := Pick([1, 32, 96]);
      len := exact + extra;
    } else {
      len := Pick([1, 4, 20, 31, 32, 64, 96, 128, 192, 213, 256]);
    }
    bytes := RandomBytes(len);
  }

  method RandomBytes(len: nat) returns (bytes: seq<Byte>)
    ensures |bytes| == len
  {
    bytes := [];
    while |bytes| < len
      invariant |bytes| <= len
    {
      var b := Range(256);
      bytes := bytes + [b];
    }
  }

  // ----- opcode choices ---------------------------------------------------------------------------------

  predicate TakesAndLeaves(op: Byte, pops: nat, pushes: nat) {
    ImmediateSize(op) == 0 && StackIn(op) == pops && StackOut(op) == pushes
  }

  method BinaryOp() returns (op: Byte)
    ensures TakesAndLeaves(op, 2, 1)
  {
    op := Pick([ADD, MUL, SUB, DIV, SDIV, MOD, SMOD, EXP, SIGNEXTEND, LT, GT, SLT, SGT, EQ, AND, OR, XOR, BYTE,
                SHL, SHR, SAR]);
  }

  method UnaryOp() returns (op: Byte)
    ensures TakesAndLeaves(op, 1, 1)
  {
    op := Pick([ISZERO, NOT, CLZ]);
  }

  method ModularOp() returns (op: Byte)
    ensures TakesAndLeaves(op, 3, 1)
  {
    op := Pick([ADDMOD, MULMOD]);
  }

  method EnvironmentOp() returns (op: Byte)
    ensures TakesAndLeaves(op, 0, 1)
  {
    op := Pick([ADDRESS, ORIGIN, CALLER, CALLVALUE, CALLDATASIZE, CODESIZE, GASPRICE, COINBASE, TIMESTAMP, NUMBER,
                DIFFICULTY, GASLIMIT, GAS, CHAINID, BASEFEE, SLOTNUM]);
  }

  lemma ExchangePair()
    ensures DecodePair(0x8e) == Some((1, 2))
  {
  }

  method Initcode() returns (code: seq<Byte>)
    ensures |code| <= 10
  {
    code := Pick([[], [STOP], [PUSH1, 0, PUSH1, 0, RETURN], [PUSH1, 0, PUSH1, 0, REVERT],
                  [PUSH1, 0, PUSH1, 0, MSTORE, PUSH1, 1, PUSH1, 31, RETURN]]);
  }

  class Program {
    var code: seq<Byte>
    var height: nat
    /** Whether a truncated push was emitted. */
    var truncated: bool
    ghost var plan: Plan

    constructor ()
      ensures Valid() && code == [] && height == 0 && !truncated
      ensures plan == EMPTY_PLAN
    {
      code, height, truncated := [], 0, false;
      plan := EMPTY_PLAN;
    }

    ghost predicate Sound()
      reads this
    {
      !truncated && plan.exact && |code| < 0x10000
    }

    /** The plan is right; an equation, so that proofs take it as one fact. */
    ghost predicate Valid()
      reads this
    {
      Planned(plan, code, height, truncated) == true
    }

    twostate predicate Appended(i: Instr, declared: bool)
      reads this
    {
      && code == old(code) + [i.op] + i.immediate
      && plan == AfterEmit(old(plan), i, declared, height)
      && truncated == old(truncated)
    }

    /** At most `bytes` more code, every emission exact, and the height at most `limit` on the way. */
    twostate predicate Sized(bytes: nat, limit: nat)
      reads this
    {
      && Valid()
      && |old(code)| <= |code| <= |old(code)| + bytes
      && plan.exact == old(plan).exact
      && truncated == old(truncated)
      && plan.peak <= Max(old(plan).peak, limit)
    }

    /** No jump is added, patched or moved. */
    twostate predicate SameJumps()
      reads this
    {
      && plan.sites == old(plan).sites && plan.jumps == old(plan).jumps
      && plan.random == old(plan).random && plan.open == old(plan).open
    }

    twostate predicate Grew(bytes: nat, limit: nat)
      reads this
    {
      Sized(bytes, limit) && SameJumps()
    }

    /** A statement of at most `bytes` bytes, which needs at most seven more words on the way. */
    twostate predicate Statement(bytes: nat)
      reads this
    {
      Grew(bytes, Max(old(height) + 7, 19))
    }

    /** A snippet inside a skipped block: it only appends instructions. */
    twostate predicate OnlyAppends()
      reads this
    {
      old(plan).items <= plan.items
    }

    // ----- emitter ----------------------------------------------------------------------------------

    /** Appends the bytes of one instruction. */
    method Append(bytes: seq<Byte>, pops: nat, pushes: nat, ghost i: Instr)
      requires Valid() && bytes == [i.op] + i.immediate
      modifies this
      ensures Valid()
      ensures Appended(i, Declares(i, pops, pushes, old(height)))
      ensures height == SaturatingSub(old(height), pops) + pushes
    {
      var after := SaturatingSub(height, pops) + pushes;
      ghost var declared := Declares(i, pops, pushes, height);
      AppendPlanned(plan, code, height, truncated, bytes, i, pops, pushes, declared, after);
      plan := AfterEmit(plan, i, declared, after);
      code := code + bytes;
      height := after;
    }

    method Emit(op: Byte, pops: nat, pushes: nat)
      requires Valid()
      modifies this
      ensures Valid()
      ensures Appended(Instr(op, []), Declares(Instr(op, []), pops, pushes, old(height)))
      ensures height == SaturatingSub(old(height), pops) + pushes
    {
      Append([op], pops, pushes, Instr(op, []));
    }

    method EmitWithImmediate(op: Byte, immediate: Byte, pops: nat, pushes: nat)
      requires Valid()
      modifies this
      ensures Valid()
      ensures Appended(Instr(op, [immediate]), Declares(Instr(op, [immediate]), pops, pushes, old(height)))
      ensures height == SaturatingSub(old(height), pops) + pushes
    {
      Append([op, immediate], pops, pushes, Instr(op, [immediate]));
    }

    method PushImmediate(bytes: seq<Byte>)
      requires 1 <= |bytes| <= 32
      requires Valid()
      modifies this
      ensures Valid()
      ensures Appended(Instr(PUSH1 + |bytes| - 1, bytes), true)
      ensures height == old(height) + 1
    {
      PushDeclares(bytes, height);
      Append([PUSH1 + |bytes| - 1] + bytes, 0, 1, Instr(PUSH1 + |bytes| - 1, bytes));
    }

    method PushWord(v: nat)
      requires v < WORD_BOUND
      requires Valid()
      modifies this
      ensures Valid()
      ensures Appended(Instr(PUSH1 + Width(v) - 1, ToBytes(v, Width(v))), true)
      ensures FromBytes(ToBytes(v, Width(v))) == v
      ensures height == old(height) + 1
      ensures |code| <= |old(code)| + (if v <= U64_MAX then 9 else 33)
    {
      PushedWord(v);
      PushImmediate(ToBytes(v, Width(v)));
    }

    /** Leaves a two-byte placeholder and returns its position. */
    method PushJumpPlaceholder() returns (immediate: nat)
      requires Valid()
      modifies this
      ensures Valid()
      ensures Appended(Instr(PUSH2, [0, 0]), true)
      ensures height == old(height) + 1
      ensures immediate == |old(code)| + 1
    {
      PushImmediate([0, 0]);
      immediate := |code| - 2;
    }

    /** Writes the current position, cut to 16 bits, over the placeholder of instruction `p`. */
    method PatchJump(immediate: nat, ghost p: nat)
      requires immediate + 2 <= |code|
      requires Valid()
      requires p < |plan.items| && plan.items[p].op == PUSH2 && p + 1 !in plan.jumps
      requires Sound() ==> Offset(plan.items, p) + 1 == immediate
      modifies this
      ensures Valid()
      ensures |code| == |old(code)|
      ensures plan == AfterPatch(old(plan), p, ToBytes(|old(code)| % 0x10000, 2))
      ensures height == old(height) && truncated == old(truncated)
    {
      var dest := |code| % 0x10000;
      var bytes := ToBytes(dest, 2);
      PatchPlanned(plan, code, height, truncated, p, immediate, bytes);
      code := Splice(code, immediate, bytes);
      plan := AfterPatch(plan, p, bytes);
    }

    method PushAny()
      requires Valid()
      modifies this
      ensures Grew(33, height) && OnlyAppends() && height == old(height) + 1
    {
      var w := Word();
      PushWord(w);
    }

    /** A word below 2^64, as `push_u64` writes it. */
    method PushSmall(v: nat)
      requires v <= U64_MAX
      requires Valid()
      modifies this
      ensures Grew(9, height) && OnlyAppends() && height == old(height) + 1
    {
      PushWord(v);
    }

    method Op(op: Byte, pops: nat, pushes: nat)
      requires Valid() && Declares(Instr(op, []), pops, pushes, height) && !IsJump(op)
      modifies this
      ensures Grew(1, height) && OnlyAppends() && height == old(height) - pops + pushes
    {
      Emit(op, pops, pushes);
    }

    method OpWithImmediate(op: Byte, immediate: Byte, pops: nat, pushes: nat)
      requires Valid() && Declares(Instr(op, [immediate]), pops, pushes, height) && !IsJump(op)
      modifies this
      ensures Grew(2, height) && OnlyAppends() && height == old(height) - pops + pushes
    {
      EmitWithImmediate(op, immediate, pops, pushes);
    }

    // ----- statements -----------------------------------------------------------------------------------

    method Arithmetic()
      requires Valid()
      modifies this
      ensures Statement(100)
    {
      var choice := Range(24);
      PushAny();
      if choice <= 16 {
        PushAny();
        var op := BinaryOp();
        Op(op, 2, 1);
      } else if choice <= 18 {
        var op := UnaryOp();
        Op(op, 1, 1);
      } else {
        PushAny();
        PushAny();
        var op := ModularOp();
        Op(op, 3, 1);
      }
    }

    /** `MSTORE` or `MSTORE8` of any word. */
    method Store(op: Byte, offset: nat)
      requires (op == MSTORE || op == MSTORE8) && offset <= 1000
      requires Valid()
      modifies this
      ensures Grew(43, old(height) + 2) && OnlyAppends() && height == old(height)
    {
      PushAny();
      PushSmall(offset);
      Op(op, 2, 0);
    }

    method HashMemory(offset: nat)
      requires offset <= 128
      requires Valid()
      modifies this
      ensures Grew(62, old(height) + 2)
    {
      Store(MSTORE, offset);
      var len := Pick([0, 1, 31, 32, 64]);
      PushSmall(len);
      PushSmall(offset);
      Op(KECCAK256, 2, 1);
    }

    method Memory()
      requires Valid()
      modifies this
      ensures Statement(62)
    {
      var offset := Pick([0, 1, 31, 32, 33, 64, 96, 128]);
      var choice := Range(8);
      var allowed := Flip();
      if choice == 0 {
        Store(MSTORE, offset);
      } else if choice == 1 {
        PushSmall(offset);
        Op(MLOAD, 1, 1);
      } else if choice == 2 {
        Store(MSTORE8, offset);
      } else if choice == 3 {
        Op(MSIZE, 0, 1);
      } else if choice == 4 {
        HashMemory(offset);
      } else if choice == 5 {
        CopyMemory(CODECOPY, offset);
      } else if choice == 6 && allowed {
        CopyMemory(MCOPY, offset);
      } else {
        Op(PC, 0, 1);
      }
    }

    method CopyMemory(op: Byte, offset: nat)
      requires (op == CODECOPY || op == MCOPY) && offset <= 128
      requires Valid()
      modifies this
      ensures Grew(28, old(height) + 3)
    {
      CopyArguments(offset);
      Op(op, 3, 0);
    }

    /** An opcode that replaces the word on top, applied to any word. */
    method Query(op: Byte)
      requires op in {EXTCODESIZE, EXTCODEHASH, BALANCE, TLOAD, SLOAD}
      requires Valid()
      modifies this
      ensures Grew(34, old(height) + 1)
    {
      PushAny();
      Op(op, 1, 1);
    }

    method CopyArguments(offset: nat)
      requires Valid() && offset <= 128
      modifies this
      ensures Grew(27, height) && OnlyAppends() && height == old(height) + 3
    {
      var len := Pick([0, 1, 4, 31, 32, 64]);
      var src := Pick([0, 1, 31, 32, 64, 96]);
      PushSmall(len);
      PushSmall(src);
      PushSmall(offset);
    }

    method Storage()
      requires Valid()
      modifies this
      ensures Statement(67)
    {
      var write := Flip();
      if write {
        StorePair(SSTORE);
      } else {
        Query(SLOAD);
      }
    }

    /** A storage write of any word to any slot. */
    method StorePair(op: Byte)
      requires op == SSTORE || op == TSTORE
      requires Valid()
      modifies this
      ensures Grew(67, old(height) + 2) && OnlyAppends() && height == old(height)
    {
      PushAny();
      PushAny();
      Op(op, 2, 0);
    }

    method Environment()
      requires Valid()
      modifies this
      ensures Statement(10)
    {
      var choice := Range(8);
      if choice <= 4 {
        var op := EnvironmentOp();
        Op(op, 0, 1);
      } else {
        var number := RangeInclusive(0, 1_000_000);
        PushSmall(number);
        Op(BLOCKHASH, 1, 1);
      }
    }

    method Calldata()
      requires Valid()
      modifies this
      ensures Statement(28)
    {
      var choice := Range(3);
      if choice == 0 {
        var offset := Pick([0, 1, 4, 31, 32, 64]);
        PushSmall(offset);
        Op(CALLDATALOAD, 1, 1);
      } else if choice == 1 {
        Op(CALLDATASIZE, 0, 1);
      } else {
        var offset := Pick([0, 1, 4, 31, 32]);
        CopyArguments(offset);
        Op(CALLDATACOPY, 3, 0);
      }
    }

    /** Addresses are any 160-bit words. */
    method ExternalAccount()
      requires Valid()
      modifies this
      ensures Statement(61)
    {
      var choice := Range(5);
      var allowed := Flip();
      if choice == 1 {
        Query(EXTCODESIZE);
      } else if choice == 2 && allowed {
        Query(EXTCODEHASH);
      } else if choice == 3 {
        var dest := Pick([0, 1, 31, 32, 64]);
        CopyArguments(dest);
        PushAny();
        Op(EXTCODECOPY, 4, 0);
      } else if choice != 0 && allowed {
        Op(SELFBALANCE, 0, 1);
      } else {
        Query(BALANCE);
      }
    }

    method Log()
      requires Valid()
      modifies this
      ensures Statement(194)
    {
      var store := Flip();
      if store {
        var offset := Pick([0, 1, 31, 32, 33, 64, 96]);
        Store(MSTORE, offset);
      }
      var topics := Range(5);
      PushWords(topics);
      var len := Pick([0, 1, 2, 31, 32, 33, 64]);
      var offset := Pick([0, 1, 30, 31, 32, 64, 96]);
      EmitLog(topics, len, offset);
    }

    method EmitLog(topics: nat, len: nat, offset: nat)
      requires topics <= 4 && len <= 64 && offset <= 96
      requires Valid() && topics <= height
      modifies this
      ensures Grew(19, old(height) + 2)
    {
      PushSmall(len);
      PushSmall(offset);
      Op(LOG0 + topics, 2 + topics, 0);
    }

    method PushWords(n: nat)
      requires Valid()
      modifies this
      ensures Grew(33 * n, height) && height == old(height) + n
    {
      for i := 0 to n
        invariant Grew(33 * i, height) && height == old(height) + i
      {
        PushAny();
      }
    }

    /** Writes the bytes in chunks of 32, the last one padded, from `offset` on. */
    method WriteMemory(offset: nat, bytes: seq<Byte>)
      requires offset <= 96 && |bytes| <= 864
      requires Valid()
      modifies this
      ensures Grew(1161, old(height) + 2) && height == old(height)
      ensures plan.items == old(plan).items + Writes(offset, bytes, Chunks(bytes))
    {
      ChunkCount(bytes);
      WriteChunks(offset, bytes, Chunks(bytes));
    }

    method WriteChunks(offset: nat, bytes: seq<Byte>, n: nat)
      requires offset <= 96 && |bytes| <= 864 && n <= Chunks(bytes)
      requires Valid()
      modifies this
      ensures Grew(43 * n, old(height) + 2) && height == old(height)
      ensures plan.items == old(plan).items + Writes(offset, bytes, n)
    {
      ghost var start := plan.items;
      for index := 0 to n
        invariant Grew(43 * index, old(height) + 2) && height == old(height)
        invariant plan.items == start + Writes(offset, bytes, index)
      {
        WriteChunk(offset, bytes, index, start);
      }
    }

    method WriteChunk(offset: nat, bytes: seq<Byte>, index: nat, ghost start: seq<Instr>)
      requires offset <= 96 && |bytes| <= 864 && index < Chunks(bytes)
      requires Valid() && plan.items == start + Writes(offset, bytes, index)
      modifies this
      ensures Grew(43, old(height) + 2) && height == old(height)
      ensures plan.items == start + Writes(offset, bytes, index + 1)
    {
      PaddedWordFits(Chunk(bytes, index));
      StoreWord(PaddedWord(Chunk(bytes, index)), offset + 32 * index);
    }

    /** `MSTORE` of a word at an offset. */
    method StoreWord(v: nat, at: nat)
      requires v < WORD_BOUND && at <= 1000
      requires Valid()
      modifies this
      ensures Grew(43, old(height) + 2) && height == old(height)
      ensures plan.items == old(plan).items + Stored(v, at)
    {
      PushWord(v);
      PushWord(at);
      Emit(MSTORE, 2, 0);
    }

    /** Output range, input range and, for the two kinds that take one, a value; then target and gas. */
    method CallArguments(inputOffset: nat, inputLen: nat, withValue: bool)
      requires inputOffset <= 96 && inputLen <= 864
      requires Valid()
      modifies this
      ensures Grew(87, height) && height == old(height) + (if withValue then 7 else 6)
    {
      CallRanges(inputOffset, inputLen);
      if withValue {
        var value := Range(3);
        PushSmall(value);
      }
      PushAny();
      var gas := RangeInclusive(0, 2_000_000);
      PushSmall(gas);
    }

    method CallRanges(inputOffset: nat, inputLen: nat)
      requires inputOffset <= 96 && inputLen <= 864
      requires Valid()
      modifies this
      ensures Grew(36, height) && height == old(height) + 4
    {
      var returnLen := RangeInclusive(0, 256);
      var returnOffset := RangeInclusive(0, 128);
      PushSmall(returnLen);
      PushSmall(returnOffset);
      PushSmall(inputLen);
      PushSmall(inputOffset);
    }

    method PrecompileCall()
      requires Valid()
      modifies this
      ensures Statement(1249)
    {
      var number := Pick(PRECOMPILES);
      var input := PrecompileInput(number);
      var inputOffset := Pick([0, 32, 64, 96]);
      WriteMemory(inputOffset, input);
      var static_ := Flip();
      Call(if static_ then STATICCALL else CALL, inputOffset, |input|);
    }

    method WriteWords(offset: nat, words: nat)
      requires offset <= 96 && words <= 2
      requires Valid()
      modifies this
      ensures Grew(43 * words, old(height) + 2) && height == old(height)
    {
      for word := 0 to words
        invariant Grew(43 * word, old(height) + 2) && height == old(height)
      {
        Store(MSTORE, offset + word * 32);
      }
    }

    method GenericCall()
      requires Valid()
      modifies this
      ensures Statement(174) && height == old(height) + 1
    {
      var inputOffset := Pick([0, 32, 64, 96]);
      var inputLen := Pick([0, 1, 4, 31, 32, 64]);
      WriteWords(inputOffset, (inputLen + 31) / 32);
      var choice := Range(4);
      var allowed := Flip();
      if choice <= 1 && allowed {
        Call(if choice == 0 then STATICCALL else DELEGATECALL, inputOffset, inputLen);
      } else {
        Call(if choice == 2 then CALLCODE else CALL, inputOffset, inputLen);
      }
    }

    method Call(op: Byte, inputOffset: nat, inputLen: nat)
      requires op in {CALL, CALLCODE, DELEGATECALL, STATICCALL} && inputOffset <= 96 && inputLen <= 864
      requires Valid()
      modifies this
      ensures Grew(88, old(height) + 7) && height == old(height) + 1
    {
      var withValue := op == CALL || op == CALLCODE;
      CallArguments(inputOffset, inputLen, withValue);
      Op(op, if withValue then 7 else 6, 1);
    }

    method Returndata()
      requires Valid()
      modifies this
      ensures Statement(202)
    {
      var allowed := Flip();
      if !allowed {
        Literal();
        return;
      }
      var call := Flip();
      if call {
        GenericCall();
      }
      ReadReturndata();
    }

    method ReadReturndata()
      requires Valid()
      modifies this
      ensures Grew(28, old(height) + 3)
    {
      var choice := Range(3);
      if choice == 0 {
        Op(RETURNDATASIZE, 0, 1);
      } else {
        var dest := Pick([0, 1, 31, 32, 64, 128]);
        CopyArguments(dest);
        Op(RETURNDATACOPY, 3, 0);
      }
    }

    method Cancun()
      requires Valid()
      modifies this
      ensures Statement(67)
    {
      var allowed := Flip();
      if !allowed {
        Literal();
        return;
      }
      var choice := Range(4);
      if choice == 0 {
        Query(TLOAD);
      } else if choice == 1 {
        StorePair(TSTORE);
      } else if choice == 2 {
        var index := Pick([0, 1, 2, 255]);
        PushSmall(index);
        Op(BLOBHASH, 1, 1);
      } else {
        Op(BLOBBASEFEE, 0, 1);
      }
    }

    method Create()
      requires Valid()
      modifies this
      ensures Statement(104)
    {
      var initcode := Initcode();
      var offset := Pick([0, 32, 64]);
      if initcode != [] {
        WriteInitcode(initcode, offset);
      }
      var value := Range(2);
      var salted := Flip();
      if salted {
        PushAny();
      }
      EmitCreate(salted, |initcode|, offset, value);
    }

    method EmitCreate(salted: bool, len: nat, offset: nat, value: nat)
      requires len <= 32 && offset <= 64 && value < 2
      requires Valid() && (salted ==> 0 < height)
      modifies this
      ensures Grew(28, old(height) + 3)
    {
      PushSmall(len);
      PushSmall(offset);
      PushSmall(value);
      Op(if salted then CREATE2 else CREATE, if salted then 4 else 3, 1);
    }

    /** The init code is stored as one padded word. */
    method WriteInitcode(initcode: seq<Byte>, offset: nat)
      requires |initcode| <= 32 && offset <= 64
      requires Valid()
      modifies this
      ensures Grew(43, old(height) + 2) && height == old(height)
    {
      PaddedWordFits(initcode);
      StoreWord(PaddedWord(initcode), offset);
    }

    method Selfdestruct()
      requires Valid()
      modifies this
      ensures Statement(34)
    {
      PushAny();
      Op(SELFDESTRUCT, 1, 0);
    }

    method StackCleanup()
      requires Valid()
      modifies this
      ensures Statement(10)
    {
      if height == 0 {
        PushSmall(0);
      }
      Op(POP, 1, 0);
    }

    method Literal()
      requires Valid()
      modifies this
      ensures Statement(33) && height == old(height) + 1
    {
      var choice := Range(3);
      if choice == 0 {
        Op(PUSH0, 0, 1);
      } else if choice == 1 {
        var len := RangeInclusive(1, 32);
        var bytes := RandomBytes(len);
        PushImmediate(bytes);
      } else {
        PushAny();
      }
    }

    method FinishReturn(revert: bool)
      requires Valid()
      modifies this
      ensures Grew(19, old(height) + 2)
    {
      PushSmall(0);
      PushSmall(0);
      if revert {
        Op(REVERT, 2, 0);
      } else {
        Op(RETURN, 2, 0);
      }
    }

    // ----- jumps -------------------------------------------------------------------------------------------

    /** One new jump of the kind: linked to the destination emitted last if it is a forward one, else random. */
    twostate predicate AddsJump(kind: JumpKind)
      reads this
    {
      && plan.open == old(plan).open && plan.sites != []
      && var j := plan.sites[|plan.sites| - 1].at;
      && plan.sites == old(plan).sites + [Site(j, kind.Op())] && |old(plan).items| <= j < |plan.items|
      && if kind.Forward() then plan.random == old(plan).random && plan.jumps == old(plan).jumps[j := |plan.items| - 1]
         else plan.jumps == old(plan).jumps && plan.random == old(plan).random + {j}
    }

    method Jump(kind: JumpKind)
      requires Valid()
      modifies this
      ensures Sized(282, Max(old(height) + 7, 19)) && AddsJump(kind)
    {
      match kind
      case InvalidJump => RandomJump(kind);
      case InvalidJumpi =>
        var condition := Range(2);
        PushSmall(condition);
        RandomJump(kind);
      case ForwardJump => Forward(kind);
      case ForwardJumpi =>
        var condition := Range(2);
        PushSmall(condition);
        Forward(kind);
    }

    /** A jump to an "invalid" word, which may be a destination; `JUMPI` finds its condition on the stack. */
    method RandomJump(kind: JumpKind)
      requires !kind.Forward() && (kind.Op() == JUMPI ==> height >= 1)
      requires Valid()
      modifies this
      ensures Sized(34, old(height) + 1) && OnlyAppends() && AddsJump(kind)
    {
      PushTarget();
      Emit(kind.Op(), if kind.Op() == JUMPI then 2 else 1, 0);
      RandomPlanned(plan, code, height, truncated, old(plan));
      plan := AfterRandom(plan, old(plan).open);
    }

    method PushTarget()
      requires Valid()
      modifies this
      ensures Grew(33, height) && height == old(height) + 1 && |plan.items| == |old(plan).items| + 1
      ensures plan.items[..|old(plan).items|] == old(plan).items && IsPush(plan.items[|old(plan).items|].op)
    {
      var w := InvalidTarget();
      PushWord(w);
      assert plan.items[..|old(plan).items|] == old(plan).items;
    }

    /** A forward jump over a skipped block; `JUMPI` finds its condition on the stack. */
    method Forward(kind: JumpKind)
      requires kind.Forward() && (kind.Op() == JUMPI ==> height >= 1)
      requires Valid()
      modifies this
      ensures Sized(273, old(height) + 3) && AddsJump(kind)
      ensures height == old(height) - (if kind.Op() == JUMPI then 1 else 0)
    {
      ghost var p := |plan.items|;
      var dest := BeginForward(kind.Op());
      ghost var jumped := plan.items;
      SkippedBlock();
      FinishForward(dest, p, jumped);
    }

    method BeginForward(op: Byte) returns (dest: nat)
      requires op == JUMP || (op == JUMPI && height >= 1)
      requires Valid()
      modifies this
      ensures Sized(4, old(height) + 1)
      ensures plan.jumps == old(plan).jumps && plan.random == old(plan).random
      ensures plan.open == old(plan).open + {|old(plan).items| + 1}
      ensures plan.sites == old(plan).sites + [Site(|old(plan).items| + 1, op)]
      ensures |old(plan).items| + 1 !in old(plan).open && |old(plan).items| + 1 !in old(plan).jumps
      ensures height == old(height) - (if op == JUMPI then 1 else 0)
      ensures plan.items == old(plan).items + [Instr(PUSH2, [0, 0]), Instr(op, [])]
      ensures dest == |old(code)| + 1 && |code| == |old(code)| + 4
      ensures Sound() ==>
                Offset(plan.items, |old(plan).items|) + 1 == dest && Height(plan.items, |plan.items|) == height
    {
      ghost var p := |plan.items|;
      assert plan.items[..p] == plan.items;
      dest := PushJumpPlaceholder();
      Emit(op, if op == JUMPI then 2 else 1, 0);
      assert plan.items[..p] == old(plan).items;
    }

    method FinishForward(dest: nat, ghost p: nat, ghost jumped: seq<Instr>)
      requires dest + 2 <= |code|
      requires Valid()
      requires |jumped| == p + 2 && jumped <= plan.items && p + 1 !in plan.jumps && p + 1 in plan.open
      requires jumped[p] == Instr(PUSH2, [0, 0]) && IsJump(jumped[p + 1].op)
      requires Sound() ==> Offset(jumped, p) + 1 == dest && Height(jumped, p + 2) == height
      modifies this
      ensures Sized(1, height) && height == old(height) && |plan.items| == |old(plan).items| + 1
      ensures plan.jumps == old(plan).jumps[p + 1 := |old(plan).items|]
      ensures plan.random == old(plan).random && plan.open == old(plan).open - {p + 1} && plan.sites == old(plan).sites
    {
      ghost var block := plan.items;
      assert block[..p] == jumped[..p];
      if Sound() {
        WholeCode(code, block, plan.jumps, height, plan.peak);
        LandedLink(jumped, block, p, height, |code|);
      }
      Land(dest, p);
      LinkPlanned(plan, code, height, truncated, p + 1, |block|);
      plan := plan.(jumps := plan.jumps[p + 1 := |block|], open := plan.open - {p + 1});
    }

    /** Patches the placeholder with the current position and emits the destination there. */
    method Land(dest: nat, ghost p: nat)
      requires dest + 2 <= |code|
      requires Valid()
      requires p < |plan.items| && plan.items[p].op == PUSH2 && p + 1 !in plan.jumps
      requires Sound() ==> Offset(plan.items, p) + 1 == dest
      modifies this
      ensures Grew(1, height) && height == old(height) && |code| == |old(code)| + 1
      ensures plan.items ==
              old(plan).items[p := Instr(PUSH2, ToBytes(|old(code)| % 0x10000, 2))] + [Instr(JUMPDEST, [])]
    {
      PatchJump(dest, p);
      Emit(JUMPDEST, 0, 0);
    }

    method SkippedBlock()
      requires Valid()
      modifies this
      ensures Grew(268, old(height) + 2) && OnlyAppends() && height == old(height)
    {
      var n := RangeInclusive(1, 4);
      for i := 0 to n
        invariant Grew(67 * i, old(height) + 2) && OnlyAppends() && height == old(height)
      {
        StackNeutralStatement();
      }
    }

    method StackNeutralStatement()
      requires Valid()
      modifies this
      ensures Grew(67, old(height) + 2) && OnlyAppends() && height == old(height)
    {
      var choice := Range(4);
      if choice == 0 {
        PushAny();
        Op(POP, 1, 0);
      } else if choice == 1 {
        var offset := Pick([0, 1, 31, 32, 33, 64, 96, 128]);
        Store(MSTORE, offset);
      } else if choice == 2 {
        StorePair(SSTORE);
      } else {
        Op(JUMPDEST, 0, 0);
      }
    }

    // ----- stack shuffles ------------------------------------------------------------------------------------

    method StackShuffle()
      requires Valid()
      modifies this
      ensures Statement(662)
    {
      FillTo(2);
      var relative := Flip();
      var dup := Flip();
      if relative {
        RelativeStackShuffle();
      } else {
        PlainStackShuffle(dup);
      }
    }

    method PlainStackShuffle(dup: bool)
      requires Valid() && height >= 2
      modifies this
      ensures Grew(1, old(height) + 1)
    {
      if dup {
        var n := RangeInclusive(1, if height < 16 then height else 16);
        Op(DUP1 + n - 1, 0, 1);
      } else {
        var n := RangeInclusive(1, if height - 1 < 16 then height - 1 else 16);
        Op(SWAP1 + n - 1, 0, 0);
      }
    }

    method FillTo(n: nat)
      requires Valid()
      modifies this
      ensures Grew(33 * n, height) && height == Max(old(height), n)
    {
      ghost var pushed := 0;
      while height < n
        invariant height == old(height) + pushed && (pushed == 0 || height <= n) && pushed <= n
        invariant Grew(33 * pushed, height)
      {
        PushAny();
        pushed := pushed + 1;
      }
    }

    method RelativeStackShuffle()
      requires Valid()
      modifies this
      ensures Grew(596, Max(old(height) + 1, 19))
    {
      var choice := Range(3);
      if choice == 0 {
        FillAndShuffle(18, DUPN, 0x80, 1);
      } else if choice == 1 {
        FillAndShuffle(18, SWAPN, 0x80, 0);
      } else {
        ExchangePair();
        FillAndShuffle(3, EXCHANGE, 0x8e, 0);
      }
    }

    method FillAndShuffle(n: nat, op: Byte, immediate: Byte, pushes: nat)
      requires Declares(Instr(op, [immediate]), 0, pushes, n) && !IsJump(op)
      requires Valid()
      modifies this
      ensures Grew(33 * n + 2, Max(old(height), n) + pushes)
    {
      FillTo(n);
      OpWithImmediate(op, immediate, 0, pushes);
    }

    // ----- the program ------------------------------------------------------------------------------------------

    /** A truncated push, whose missing bytes swallow the code after it, or an invalid opcode. */
    method RawInvalidish()
      requires Valid()
      modifies this
      ensures Valid() && plan.exact == old(plan).exact && (old(truncated) ==> truncated)
      ensures |old(code)| <= |code| <= |old(code)| + 4
      ensures plan.peak <= Max(old(plan).peak, old(height) + 1) && SameJumps()
    {
      var cut := Flip();
      if cut {
        var len := RangeInclusive(0, 3);
        var bytes := RandomBytes(len);
        code := code + [PUSH4] + bytes;
        height, truncated := height + 1, true;
        plan := plan.(peak := Max(plan.peak, height));
      } else {
        Op(INVALID, 0, 0);
      }
    }

    /** Any statement; if it is a jump, then one of this kind. */
    method AnyStatement(kind: JumpKind) returns (jumped: bool)
      requires Valid()
      modifies this
      ensures Valid() && plan.exact == old(plan).exact && (old(truncated) ==> truncated)
      ensures |code| <= |old(code)| + 1249
      ensures plan.peak <= Max(old(plan).peak, Max(old(height) + 7, 19))
      ensures if jumped then AddsJump(kind) else SameJumps()
    {
      var choice := Range(100);
      var which := Range(3);
      if choice <= 24 { Arithmetic(); }
      else if choice <= 39 { Memory(); }
      else if choice <= 55 { Storage(); }
      else if choice <= 68 { Environment(); }
      else if choice <= 73 { Calldata(); }
      else if choice <= 79 { ExternalAccount(); }
      else if choice <= 83 { Log(); }
      else if choice <= 86 { PrecompileCall(); }
      else if choice <= 89 { GenericCall(); }
      else if choice <= 91 { Returndata(); }
      else if choice <= 93 { Create(); }
      else if choice <= 95 { Cancun(); }
      else if choice == 96 { Jump(kind); }
      else if choice == 97 && which == 0 { StackShuffle(); }
      else if choice == 97 && which == 1 { Selfdestruct(); }
      else if choice == 97 { StackCleanup(); }
      else if choice == 98 { RawInvalidish(); }
      else { Literal(); }
      jumped := choice == 96;
    }

    /** Pops back to sixteen words. */
    method Trim()
      requires Valid() && height <= 23
      modifies this
      ensures Grew(7, old(height)) && height <= 16
    {
      ghost var popped := 0;
      while height > 16
        invariant Grew(popped, old(height)) && popped + height == old(height)
        invariant popped == 0 || height >= 16
      {
        Op(POP, 1, 0);
        popped := popped + 1;
      }
    }

    /**
     Every generated program, for any kinds of jumps chosen in turn: no emission ever saturates or
     misdeclares its arity, the height stays at most 23, and the code fits 16-bit offsets; so without
     a truncated push it is well built. Every jump instruction is of the kind chosen for it: linked
     if that is a forward jump, and after the push of a random word otherwise.
     */
    method Generate(kinds: nat -> JumpKind)
      modifies this
      ensures plan.exact && plan.peak <= 23 && |code| <= 60_307
      ensures Accounted(plan.items, plan.sites, plan.jumps, plan.random) && AsChosen(plan.sites, plan.jumps, kinds)
      ensures !truncated ==> WellBuilt(code, plan.items, plan.jumps, height, plan.peak)
    {
      code, height, truncated := [], 0, false;
      plan := EMPTY_PLAN;
      var statements := RangeInclusive(1, 48);
      var drawn := 0;
      for i := 0 to statements
        invariant Valid() && plan.exact && plan.open == {} && height <= 16 && plan.peak <= 23 && |code| <= 1256 * i
        invariant drawn == |plan.sites| && AsChosen(plan.sites, plan.jumps, kinds)
      {
        drawn := Turn(kinds, drawn);
      }
      Finish();
    }

    /** A statement, which draws the next kind if it is a jump, and pops back to sixteen words. */
    method Turn(kinds: nat -> JumpKind, drawn: nat) returns (next: nat)
      requires Valid() && height <= 16 && plan.peak <= 23
      requires drawn == |plan.sites| && AsChosen(plan.sites, plan.jumps, kinds)
      modifies this
      ensures Valid() && height <= 16 && plan.peak <= 23
      ensures plan.exact == old(plan).exact && plan.open == old(plan).open && |code| <= |old(code)| + 1256
      ensures next == |plan.sites| && AsChosen(plan.sites, plan.jumps, kinds)
    {
      next := drawn;
      var jumped := AnyStatement(kinds(drawn));
      if jumped {
        ChosenNext(old(plan), plan, kinds);
        next := drawn + 1;
      }
      Trim();
    }

    method Finish()
      requires Valid()
      modifies this
      ensures Grew(19, old(height) + 2)
    {
      var last := Range(10);
      var allowed := Flip();
      if last == 0 {
        FinishReturn(false);
      } else if last == 1 && allowed {
        FinishReturn(true);
      } else {
        Op(STOP, 0, 0);
      }
    }
  }
}
