/**
 What the generator's bookkeeping means when the generated code runs: jumps land on `JUMPDEST`
 instructions found by the interpreter's own scan, and on every path the real stack height is the
 height the generator tracked.
 */
module GeneratorPaths {
  import opened Common
  import opened Bytecode
  import opened Generator

  /** A running program: the next instruction and the stack, top last. */
  datatype State = State(at: nat, stack: seq<nat>)

  /** Control moves to `t`, a jump destination of the code at the byte offset `dest`. */
  predicate LandsOn(items: seq<Instr>, dest: nat, t: nat) {
    t < |items| && dest in JumpDests(Encode(items), 0) && Offset(items, t) == dest
  }

  /** The height moves by the arity; the words below the instruction's reach stay, the others are any words. */
  predicate Executes(i: Instr, before: seq<nat>, after: seq<nat>) {
    && i.Needs().Some? && i.Needs().value <= |before|
    && |after| == |before| + i.Delta()
    && before[..|before| - i.Needs().value] <= after
    && (IsPush(i.op) ==> after == before + [FromBytes(i.immediate)])
  }

  /** One step; a jump goes to the word on top, which must be a jump destination of the code. */
  predicate Step(items: seq<Instr>, s: State, s': State) {
    && s.at < |items|
    && var i := items[s.at];
    && !Terminating(i.op)
    && Executes(i, s.stack, s'.stack)
    && if i.op == JUMP then Jumps(items, s, s')
       else if i.op == JUMPI && s.stack[|s.stack| - 2] != 0 then Jumps(items, s, s')
       else s'.at == s.at + 1
  }

  predicate Jumps(items: seq<Instr>, s: State, s': State) {
    s.stack != [] && LandsOn(items, s.stack[|s.stack| - 1], s'.at)
  }

  /** A run from the start with an empty stack. */
  predicate Path(items: seq<Instr>, path: seq<State>) {
    && path != [] && path[0] == State(0, [])
    && forall k, k' :: 0 <= k && k' == k + 1 < |path| ==> Step(items, path[k], path[k'])
  }

  /** A step that lands on a lucky random target: the generator did not patch this jump. */
  predicate Strays(items: seq<Instr>, jumps: map<nat, nat>, s: State, s': State) {
    s.at < |items| && s.at !in jumps && s'.at != s.at + 1
  }

  /** The generator tracks the same height behind the jump `j` as at `t`. */
  predicate Level(items: seq<Instr>, j: nat, t: nat) {
    j < |items| && t <= |items| && Height(items, j + 1) == Height(items, t)
  }

  /** Every stray landing on the path is on the level of its jump. */
  predicate StraysLevel(items: seq<Instr>, jumps: map<nat, nat>, path: seq<State>) {
    forall k, k' :: 0 <= k && k' == k + 1 < |path| && Strays(items, jumps, path[k], path[k']) ==>
                      Level(items, path[k].at, path[k'].at)
  }

  // ----- jumps -----------------------------------------------------------------------------------------

  lemma DestsOnBoundaries(items: seq<Instr>)
    requires Clean(items)
    ensures JumpDests(Encode(items), 0) == DestOffsets(items, 0)
  {
    assert items[..0] == [];
    ScanIsExact(items, 0);
  }

  /** The jump `j` follows a push of the untruncated offset of the later jump destination `t`. */
  predicate JumpIsValid(code: seq<Byte>, items: seq<Instr>, j: nat, t: nat) {
    && 1 <= j < t < |items|
    && items[j - 1].op == PUSH2
    && FromBytes(items[j - 1].immediate) == Offset(items, t)
    && Offset(items, t) in JumpDests(code, 0)
  }

  lemma LinkIsValid(items: seq<Instr>, j: nat, t: nat)
    requires Clean(items) && LinkedAt(items, j, t)
    ensures JumpIsValid(Encode(items), items, j, t)
  {
    DestsOnBoundaries(items);
    assert Pow256(2) == 0x10000;
    BytesRoundTrip(Offset(items, t), 2);
  }

  /**
   Jump soundness: the code parses into exactly the emitted instructions, and every patched jump is
   preceded by a push of the untruncated offset of a valid jump destination behind it.
   */
  lemma PatchedJumpsAreValid(code: seq<Byte>, items: seq<Instr>, jumps: map<nat, nat>, height: nat, peak: nat)
    requires WellBuilt(code, items, jumps, height, peak)
    ensures Parse(code) == items
    ensures forall j :: j in jumps ==> JumpIsValid(code, items, j, jumps[j])
  {
    assert WellFormed(items) by {
      forall k | 0 <= k < |items| ensures items[k].WellFormed() { assert ScansCleanly(items[k]); }
    }
    ParseEncode(items);
    forall j | j in jumps ensures JumpIsValid(code, items, j, jumps[j]) {
      LinkIsValid(items, j, jumps[j]);
    }
  }

  // ----- heights --------------------------------------------------------------------------------------------

  /** The stack is as high as tracked, and right after a placeholder push its top is the target. */
  predicate OnTrack(items: seq<Instr>, jumps: map<nat, nat>, s: State) {
    && s.at <= |items|
    && |s.stack| == Height(items, s.at)
    && (s.at in jumps ==> s.stack != [] && TargetAt(items, jumps[s.at], s.stack[|s.stack| - 1]))
  }

  predicate TargetAt(items: seq<Instr>, t: nat, dest: nat) {
    t < |items| && Offset(items, t) == dest
  }

  lemma FallsOnTrack(items: seq<Instr>, jumps: map<nat, nat>, s: State, s': State)
    requires Linked(items, jumps) && OnTrack(items, jumps, s) && Step(items, s, s') && s'.at == s.at + 1
    ensures OnTrack(items, jumps, s')
  {
    var j := s'.at;
    if j in jumps {
      assert LinkedAt(items, j, jumps[j]);
      assert Pow256(2) == 0x10000;
      BytesRoundTrip(Offset(items, jumps[j]), 2);
      assert items[s.at] == Instr(PUSH2, ToBytes(Offset(items, jumps[j]), 2));
      assert s'.stack == s.stack + [Offset(items, jumps[j])];
    }
  }

  lemma PatchedIsJump(items: seq<Instr>, jumps: map<nat, nat>, j: nat)
    requires Linked(items, jumps)
    ensures j in jumps ==> 1 <= j < |items| && (items[j].op == JUMP || items[j].op == JUMPI)
  {
    assert j in jumps ==> LinkedAt(items, j, jumps[j]);
  }

  lemma LandingIsDest(items: seq<Instr>, dest: nat, t: nat)
    requires Clean(items) && LandsOn(items, dest, t)
    ensures items[t].op == JUMPDEST
  {
    DestsOnBoundaries(items);
    var d :| 0 <= d < |items| && items[d].op == JUMPDEST && Offset(items, d) == dest;
    OffsetInjective(items, d, t);
  }

  /** Landing on a destination of the tracked level is on track: no patched jump is a destination. */
  lemma LandsOnTrack(items: seq<Instr>, jumps: map<nat, nat>, s: State, s': State)
    requires Clean(items) && Linked(items, jumps) && OnTrack(items, jumps, s) && Step(items, s, s')
    requires Jumps(items, s, s')
    ensures OnTrack(items, jumps, s') <==> Level(items, s.at, s'.at)
  {
    LandingIsDest(items, s.stack[|s.stack| - 1], s'.at);
    PatchedIsJump(items, jumps, s'.at);
  }

  /** A patched jump lands on its target, which has the tracked height of the jump. */
  lemma PatchedIsLevel(items: seq<Instr>, jumps: map<nat, nat>, s: State, s': State)
    requires Linked(items, jumps) && OnTrack(items, jumps, s)
    requires s.at in jumps && Jumps(items, s, s')
    ensures Level(items, s.at, s'.at)
  {
    var t := jumps[s.at];
    assert LinkedAt(items, s.at, t);
    OffsetInjective(items, s'.at, t);
  }

  /** A step leaves the tracked height exactly when it strays to a destination of another level. */
  lemma StepOnTrack(items: seq<Instr>, jumps: map<nat, nat>, s: State, s': State)
    requires Clean(items) && Linked(items, jumps) && OnTrack(items, jumps, s) && Step(items, s, s')
    ensures OnTrack(items, jumps, s') <==> (Strays(items, jumps, s, s') ==> Level(items, s.at, s'.at))
  {
    if s'.at == s.at + 1 {
      FallsOnTrack(items, jumps, s, s');
    } else {
      LandsOnTrack(items, jumps, s, s');
      if s.at in jumps { PatchedIsLevel(items, jumps, s, s'); }
    }
  }

  /** Every state of the path has exactly the tracked stack height. */
  predicate AllOnTrack(items: seq<Instr>, jumps: map<nat, nat>, path: seq<State>) {
    forall k :: 0 <= k < |path| ==> OnTrack(items, jumps, path[k])
  }

  /**
   Height exactness: a run of a generated program has exactly the tracked stack height at every
   instruction if and only if every unpatched jump it takes lands on its own level.
   */
  lemma {:induction false} TrackedHeightIsReal(
    code: seq<Byte>, items: seq<Instr>, jumps: map<nat, nat>, height: nat, peak: nat, path: seq<State>)
    requires WellBuilt(code, items, jumps, height, peak) && Path(items, path)
    ensures AllOnTrack(items, jumps, path) <==> StraysLevel(items, jumps, path)
    decreases |path|
  {
    var n := |path| - 1;
    if n == 0 {
      PatchedIsJump(items, jumps, 0);
    } else {
      var init := path[..n];
      assert Path(items, init);
      TrackedHeightIsReal(code, items, jumps, height, peak, init);
      AllSnoc(items, jumps, path, n);
      StraysSnoc(items, jumps, path, n);
      if AllOnTrack(items, jumps, init) {
        assert init[n - 1] == path[n - 1];
        StepOnTrack(items, jumps, path[n - 1], path[n]);
      }
    }
  }

  lemma AllSnoc(items: seq<Instr>, jumps: map<nat, nat>, path: seq<State>, n: nat)
    requires |path| == n + 1
    ensures AllOnTrack(items, jumps, path) <==> AllOnTrack(items, jumps, path[..n]) && OnTrack(items, jumps, path[n])
  {
    if AllOnTrack(items, jumps, path[..n]) && OnTrack(items, jumps, path[n]) {
      forall k | 0 <= k < |path| ensures OnTrack(items, jumps, path[k]) {
        assert k < n ==> path[..n][k] == path[k];
      }
    }
  }

  lemma StraysSnoc(items: seq<Instr>, jumps: map<nat, nat>, path: seq<State>, n: nat)
    requires |path| == n + 1 && 0 < n
    ensures StraysLevel(items, jumps, path) <==>
            && StraysLevel(items, jumps, path[..n])
            && (Strays(items, jumps, path[n - 1], path[n]) ==> Level(items, path[n - 1].at, path[n].at))
  {
    if StraysLevel(items, jumps, path[..n]) {
      forall k, k' | 0 <= k && k' == k + 1 < n && Strays(items, jumps, path[k], path[k'])
        ensures Level(items, path[k].at, path[k'].at)
      {
        assert path[..n][k] == path[k] && path[..n][k'] == path[k'];
      }
    }
  }

  /** The stack holds what the instruction needs and is at most `peak` high. */
  predicate Supported(i: Instr, stack: seq<nat>, peak: nat) {
    i.Needs().Some? && i.Needs().value <= |stack| <= peak
  }

  /** On the tracked height every instruction finds the words it needs, and no height passes `peak`. */
  lemma OnTrackIsSupplied(items: seq<Instr>, jumps: map<nat, nat>, peak: nat, s: State)
    requires Supplied(items, peak) && OnTrack(items, jumps, s) && s.at < |items|
    ensures Supported(items[s.at], s.stack, peak)
  {
    assert Supplies(items, s.at, peak);
  }

  // ----- the program ---------------------------------------------------------------------------------------

  /** What the push before the jump `j` names, if it is a destination at all, is on the level of the jump. */
  predicate LevelAt(items: seq<Instr>, j: nat) {
    && 1 <= j < |items| && IsPush(items[j - 1].op)
    && forall t :: 0 <= t < |items| && LandsOn(items, FromBytes(items[j - 1].immediate), t) ==> Level(items, j, t)
  }

  /** A jump that is about to be taken. */
  predicate Jumping(items: seq<Instr>, s: State) {
    && s.at < |items| && IsJump(items[s.at].op) && |s.stack| >= StackIn(items[s.at].op)
    && (items[s.at].op == JUMPI ==> s.stack[|s.stack| - 2] != 0)
  }

  predicate Takes(items: seq<Instr>, path: seq<State>, j: nat) {
    Path(items, path) && path[|path| - 1].at == j && Jumping(items, path[|path| - 1])
  }

  /** Some run takes the jump `j`. */
  ghost predicate Taken(items: seq<Instr>, j: nat) {
    exists path :: Takes(items, path, j)
  }

  /** No jump is a landing place, so the word pushed before a jump is on top when the jump is reached. */
  lemma PushedOnTop(items: seq<Instr>, path: seq<State>, j: nat)
    requires Clean(items) && Path(items, path) && path[|path| - 1].at == j && FollowsPush(items, j)
    ensures var stack := path[|path| - 1].stack;
            stack != [] && stack[|stack| - 1] == FromBytes(items[j - 1].immediate)
  {
    var n := |path| - 1;
    var s, s' := path[n - 1], path[n];
    assert Step(items, s, s');
    if s.at != j - 1 {
      LandingIsDest(items, s.stack[|s.stack| - 1], j);
    }
  }

  /** Taking the jump of a run's last state is a run again. */
  lemma TakeJump(items: seq<Instr>, path: seq<State>, j: nat, t: nat) returns (s: State)
    requires Takes(items, path, j) && LandsOn(items, path[|path| - 1].stack[|path[|path| - 1].stack| - 1], t)
    ensures s.at == t && Path(items, path + [s])
  {
    var last := path[|path| - 1];
    s := State(t, last.stack[..|last.stack| - StackIn(items[j].op)]);
    assert Step(items, last, s);
  }

  lemma StrayIsRandom(items: seq<Instr>, sites: seq<Site>, jumps: map<nat, nat>, random: set<nat>, s: State, s': State)
    requires Accounted(items, sites, jumps, random) && Step(items, s, s') && Strays(items, jumps, s, s')
    ensures s.at in random && Jumping(items, s) && Jumps(items, s, s')
  {
  }

  lemma PrefixPath(items: seq<Instr>, path: seq<State>, n: nat)
    requires Path(items, path) && 0 < n <= |path|
    ensures Path(items, path[..n]) && path[..n][n - 1] == path[n - 1]
  {
  }

  lemma LandsLevel(items: seq<Instr>, j: nat, dest: nat, t: nat)
    requires LevelAt(items, j) && dest == FromBytes(items[j - 1].immediate) && LandsOn(items, dest, t)
    ensures Level(items, j, t)
  {
  }

  lemma StrayIsTaken(items: seq<Instr>, sites: seq<Site>, jumps: map<nat, nat>, random: set<nat>, path: seq<State>,
                     j: nat, s': State)
    requires Accounted(items, sites, jumps, random) && Path(items, path) && path[|path| - 1].at == j
    requires Step(items, path[|path| - 1], s') && Strays(items, jumps, path[|path| - 1], s')
    ensures j in random && FollowsPush(items, j) && Taken(items, j) && Jumps(items, path[|path| - 1], s')
  {
    StrayIsRandom(items, sites, jumps, random, path[|path| - 1], s');
    assert Takes(items, path, j);
  }

  lemma StrayIsLevel(items: seq<Instr>, sites: seq<Site>, jumps: map<nat, nat>, random: set<nat>, path: seq<State>,
                     j: nat, s': State)
    requires Clean(items) && Accounted(items, sites, jumps, random) && Path(items, path) && path[|path| - 1].at == j
    requires Step(items, path[|path| - 1], s') && Strays(items, jumps, path[|path| - 1], s')
    requires LevelAt(items, j)
    ensures Level(items, j, s'.at)
  {
    StrayIsTaken(items, sites, jumps, random, path, j, s');
    PushedOnTop(items, path, j);
    LandsLevel(items, j, path[|path| - 1].stack[|path[|path| - 1].stack| - 1], s'.at);
  }

  /** Where every taken random jump names its own level, no run strays to another one. */
  lemma LevelRun(items: seq<Instr>, sites: seq<Site>, jumps: map<nat, nat>, random: set<nat>, path: seq<State>)
    requires Clean(items) && Accounted(items, sites, jumps, random) && Path(items, path)
    requires forall j :: j in random && Taken(items, j) ==> LevelAt(items, j)
    ensures StraysLevel(items, jumps, path)
  {
    forall k, k' | 0 <= k && k' == k + 1 < |path| && Strays(items, jumps, path[k], path[k'])
      ensures Level(items, path[k].at, path[k'].at)
    {
      assert Step(items, path[k], path[k']);
      PrefixPath(items, path, k + 1);
      StrayIsTaken(items, sites, jumps, random, path[..k + 1], path[k].at, path[k']);
      StrayIsLevel(items, sites, jumps, random, path[..k + 1], path[k].at, path[k']);
    }
  }

  /** If every run is on track, the target of every taken random jump is on the level of the jump. */
  lemma TrackedIsLevel(items: seq<Instr>, jumps: map<nat, nat>, path: seq<State>, j: nat)
    requires Clean(items) && Linked(items, jumps) && Takes(items, path, j) && FollowsPush(items, j) && j !in jumps
    requires RunsOnTrack(items, jumps)
    ensures LevelAt(items, j)
  {
    PushedOnTop(items, path, j);
    forall t | 0 <= t < |items| && LandsOn(items, FromBytes(items[j - 1].immediate), t) ensures Level(items, j, t) {
      var s := TakeJump(items, path, j, t);
      var longer := path + [s];
      assert longer[|path| - 1] == path[|path| - 1] && longer[|path|] == s;
      assert OnTrack(items, jumps, longer[|path| - 1]) && OnTrack(items, jumps, longer[|path|]);
      assert Step(items, longer[|path| - 1], longer[|path|]);
    }
  }

  /** Every run has the tracked height at every instruction. */
  ghost predicate RunsOnTrack(items: seq<Instr>, jumps: map<nat, nat>) {
    forall path :: Path(items, path) ==> AllOnTrack(items, jumps, path)
  }

  /**
   The condition on the program: every run is on track if and only if each random jump that some
   run takes names no destination, or one on its own level.
   */
  lemma RunsOnTrackIff(code: seq<Byte>, items: seq<Instr>, sites: seq<Site>, jumps: map<nat, nat>, random: set<nat>,
                       height: nat, peak: nat)
    requires WellBuilt(code, items, jumps, height, peak) && Accounted(items, sites, jumps, random)
    ensures RunsOnTrack(items, jumps) <==> forall j :: j in random && Taken(items, j) ==> LevelAt(items, j)
  {
    if RunsOnTrack(items, jumps) {
      forall j | j in random && Taken(items, j) ensures LevelAt(items, j) {
        var path :| Takes(items, path, j);
        TrackedIsLevel(items, jumps, path, j);
      }
    }
    if forall j :: j in random && Taken(items, j) ==> LevelAt(items, j) {
      forall path | Path(items, path) ensures AllOnTrack(items, jumps, path) {
        LevelRun(items, sites, jumps, random, path);
        TrackedHeightIsReal(code, items, jumps, height, peak, path);
      }
    }
  }

  /** A forward jump is patched to a valid destination; any other is random and follows a push. */
  predicate JumpIsRight(code: seq<Byte>, plan: Plan, k: nat, kind: JumpKind) {
    if kind.Forward() then k in plan.jumps && JumpIsValid(code, plan.items, k, plan.jumps[k])
    else k in plan.random && FollowsPush(plan.items, k)
  }

  /** What a generated program without a truncated push is like when it runs. */
  ghost predicate RunsAsPlanned(code: seq<Byte>, plan: Plan, kinds: nat -> JumpKind) {
    && Parse(code) == plan.items && Listed(Parse(code), plan.sites)
    && (forall n :: 0 <= n < |plan.sites| ==>
                      plan.sites[n].op == kinds(n).Op() && JumpIsRight(code, plan, plan.sites[n].at, kinds(n)))
    && (RunsOnTrack(plan.items, plan.jumps) <==>
          forall j :: j in plan.random && Taken(plan.items, j) ==> LevelAt(plan.items, j))
    && (forall s: State :: OnTrack(plan.items, plan.jumps, s) && s.at < |plan.items| ==>
                             Supported(plan.items[s.at], s.stack, plan.peak))
  }

  lemma PlannedRuns(code: seq<Byte>, plan: Plan, height: nat, kinds: nat -> JumpKind)
    requires WellBuilt(code, plan.items, plan.jumps, height, plan.peak)
    requires Accounted(plan.items, plan.sites, plan.jumps, plan.random) && AsChosen(plan.sites, plan.jumps, kinds)
    ensures RunsAsPlanned(code, plan, kinds)
  {
    PatchedJumpsAreValid(code, plan.items, plan.jumps, height, plan.peak);
    RunsOnTrackIff(code, plan.items, plan.sites, plan.jumps, plan.random, height, plan.peak);
    forall n | 0 <= n < |plan.sites| ensures JumpIsRight(code, plan, plan.sites[n].at, kinds(n)) {
      assert plan.sites[n].at in plan.jumps || plan.sites[n].at in plan.random;
    }
    forall s: State | OnTrack(plan.items, plan.jumps, s) && s.at < |plan.items|
      ensures Supported(plan.items[s.at], s.stack, plan.peak)
    {
      OnTrackIsSupplied(plan.items, plan.jumps, plan.peak, s);
    }
  }

  /**
   Every generated program, whatever kinds of jumps are chosen in turn: its code fits 16-bit offsets
   and its height 23 words. Without a truncated push the code parses into the emitted instructions;
   the jumps in it are those chosen, in order, the forward ones patched with the untruncated offset of
   a destination the interpreter finds; and every run has the tracked stack height if and only if each
   random jump taken names no destination or one on its own level.
   */
  method GenerateProgram(kinds: nat -> JumpKind) returns (program: Program)
    ensures |program.code| < 0x10000 && program.plan.exact && program.plan.peak <= 23
    ensures !program.truncated ==> RunsAsPlanned(program.code, program.plan, kinds)
  {
    program := new Program();
    program.Generate(kinds);
    if !program.truncated {
      PlannedRuns(program.code, program.plan, program.height, kinds);
    }
  }

  /** A program the generator can emit: a patched jump, a literal and an "invalid" jump to byte 4. */
  const COINCIDENCE: seq<Instr> :=
    [Instr(PUSH2, [0, 5]), Instr(JUMP, []), Instr(JUMPDEST, []), Instr(JUMPDEST, []),
     Instr(PUSH1, [1]), Instr(PUSH1, [4]), Instr(JUMP, []), Instr(STOP, [])]

  lemma CoincidenceHeights(items: seq<Instr>)
    requires items == COINCIDENCE
    ensures Height(items, 0) == Height(items, 2) == Height(items, 3) == Height(items, 4) == 0
    ensures Height(items, 1) == Height(items, 5) == Height(items, 7) == Height(items, 8) == 1
    ensures Height(items, 6) == 2
  {
    assert Height(items, 1) == 1;
    assert Height(items, 2) == 0;
    assert Height(items, 3) == 0;
    assert Height(items, 4) == 0;
    assert Height(items, 5) == 1;
    assert Height(items, 6) == 2;
    assert Height(items, 7) == 1;
  }

  lemma CoincidenceOffsets(items: seq<Instr>)
    requires items == COINCIDENCE
    ensures Offset(items, 2) == 4 && Offset(items, 3) == 5
  {
    assert items[..0] == [];
    OffsetStep(items, 0);
    OffsetStep(items, 1);
    OffsetStep(items, 2);
  }

  lemma CoincidenceSupplied(items: seq<Instr>)
    requires items == COINCIDENCE
    ensures Supplied(items, 2) && Clean(items)
  {
    CoincidenceHeights(items);
  }

  /** The first jump lands where it was patched to, the second one on the byte it was given. */
  lemma CoincidenceLands(items: seq<Instr>)
    requires items == COINCIDENCE
    ensures LandsOn(items, 5, 3) && LandsOn(items, 4, 2)
    ensures FromBytes([0, 5]) == 5 && FromBytes([1]) == 1 && FromBytes([4]) == 4
  {
    CoincidenceOffsets(items);
    CoincidenceSupplied(items);
    DestsOnBoundaries(items);
    assert Offset(items, 2) in DestOffsets(items, 0) && Offset(items, 3) in DestOffsets(items, 0);
    assert [0, 5][..1] == [0] && [0][..0] == [] && [1][..0] == [] && [4][..0] == [];
    assert FromBytes([0]) == 0;
  }

  lemma CoincidenceLinks(items: seq<Instr>)
    requires items == COINCIDENCE
    ensures Linked(items, map[1 := 3])
  {
    CoincidenceHeights(items);
    CoincidenceOffsets(items);
    assert ToBytes(5, 2) == [0, 5] by {
      assert ToBytes(5 / 256, 1) == ToBytes(0, 0) + [0];
    }
  }

  /** Through the patched jump to the second destination, and from there back to the first one. */
  const STRAY_PATH: seq<State> :=
    [State(0, []), State(1, [5]), State(3, []), State(4, []), State(5, [1]), State(6, [1, 4]), State(2, [1])]

  lemma PushSteps(items: seq<Instr>, s: State, v: nat)
    requires s.at < |items| && IsPush(items[s.at].op) && FromBytes(items[s.at].immediate) == v
    ensures Step(items, s, State(s.at + 1, s.stack + [v]))
  {
  }

  lemma JumpSteps(items: seq<Instr>, s: State, rest: seq<nat>, dest: nat, t: nat)
    requires s.at < |items| && items[s.at].op == JUMP && s.stack == rest + [dest] && LandsOn(items, dest, t)
    ensures Step(items, s, State(t, rest))
  {
  }

  lemma MarkerSteps(items: seq<Instr>, s: State)
    requires s.at < |items| && items[s.at].op == JUMPDEST
    ensures Step(items, s, State(s.at + 1, s.stack))
  {
  }

  lemma StrayPathRuns(items: seq<Instr>, path: seq<State>)
    requires |items| == 8 && path == STRAY_PATH
    requires IsPush(items[0].op) && FromBytes(items[0].immediate) == 5
    requires IsPush(items[4].op) && FromBytes(items[4].immediate) == 1
    requires IsPush(items[5].op) && FromBytes(items[5].immediate) == 4
    requires items[1].op == JUMP && LandsOn(items, 5, 3)
    requires items[6].op == JUMP && LandsOn(items, 4, 2)
    requires items[3].op == JUMPDEST
    ensures Path(items, path)
  {
    PushSteps(items, path[0], 5);
    JumpSteps(items, path[1], [], 5, 3);
    MarkerSteps(items, path[2]);
    PushSteps(items, path[3], 1);
    PushSteps(items, path[4], 4);
    JumpSteps(items, path[5], [1], 4, 2);
  }

  lemma CoincidenceAccounted(items: seq<Instr>)
    requires items == COINCIDENCE
    ensures Accounted(items, [Site(1, JUMP), Site(6, JUMP)], map[1 := 3], {6})
  {
    var sites := [Site(1, JUMP), Site(6, JUMP)];
    assert sites[0] == Site(1, JUMP) && sites[1] == Site(6, JUMP);
    forall k | 0 <= k < |items| && IsJump(items[k].op) ensures Site(k, items[k].op) in sites {
      assert k == 1 || k == 6;
    }
  }

  /**
   Not every run has the tracked heights: a random "invalid" target can be a real destination of
   another level, and then the stack is higher there than tracked.
   */
  lemma UnpatchedJumpCanLand(items: seq<Instr>, path: seq<State>)
    requires items == COINCIDENCE && path == STRAY_PATH
    ensures WellBuilt(Encode(items), items, map[1 := 3], 1, 2)
    ensures Accounted(items, [Site(1, JUMP), Site(6, JUMP)], map[1 := 3], {6})
    ensures Path(items, path) && !AllOnTrack(items, map[1 := 3], path)
  {
    CoincidenceHeights(items);
    CoincidenceSupplied(items);
    CoincidenceLinks(items);
    CoincidenceLands(items);
    CoincidenceAccounted(items);
    StrayPathRuns(items, path);
    assert !OnTrack(items, map[1 := 3], path[6]);
  }
}
