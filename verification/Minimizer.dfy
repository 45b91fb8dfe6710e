/**
 The case minimizer (crates/cli/src/fuzzer/minimize.rs): four passes that replace the failing case
 by a smaller one as long as the two backends still differ on it. Whether they differ is a fixed
 predicate of the case here.
 */
module Minimizer {
  import opened Common

  const STOP: nat := 0
  const TARGET: nat := 0x2020202020202020202020202020202020202020

  /** `info` stands for the balance and the nonce, which no pass touches. */
  datatype Account = Account(address: nat, info: nat, code: seq<nat>, storage: map<nat, nat>)

  /** `rest` stands for the fork, the block, the other transactions and transaction fields. */
  datatype Case = Case(accounts: seq<Account>, input: seq<nat>, rest: nat)

  type Differs = Case -> bool

  /** Either nothing happened, or the backends differ on the new case. */
  predicate Sound(differs: Differs, before: Case, after: Case) {
    after == before || differs(after)
  }

  /** Indices of kept accounts: increasing, and the first two accounts are never dropped. */
  predicate Keeps(keep: seq<nat>, n: nat) {
    && |keep| <= n
    && (forall i :: 0 <= i < |keep| ==> keep[i] < n)
    && (forall i, j :: 0 <= i < j < |keep| ==> keep[i] < keep[j])
    && (forall i :: 0 <= i < 2 && i < n ==> i < |keep| && keep[i] == i)
  }

  function Selected<T>(s: seq<T>, keep: seq<nat>): seq<T>
    requires forall i :: 0 <= i < |keep| ==> keep[i] < |s|
  {
    seq(|keep|, i requires 0 <= i < |keep| => s[keep[i]])
  }

  function Without<T>(s: seq<T>, i: nat): seq<T>
    requires i < |s|
  {
    s[..i] + s[i + 1..]
  }

  lemma KeepFewer<T>(s: seq<T>, keep: seq<nat>, i: nat)
    requires Keeps(keep, |s|) && 2 <= i < |keep|
    ensures Keeps(Without(keep, i), |s|)
    ensures Selected(s, Without(keep, i)) == Without(Selected(s, keep), i)
  {
    var fewer := Without(keep, i);
    assert forall j :: 0 <= j < |fewer| ==> fewer[j] == if j < i then keep[j] else keep[j + 1];
  }

  lemma KeepAll<T>(s: seq<T>, keep: seq<nat>)
    requires |keep| == |s| && forall i :: 0 <= i < |keep| ==> keep[i] == i
    ensures Keeps(keep, |s|) && Selected(s, keep) == s
  {
  }

  function DropAccount(case_: Case, i: nat): Case
    requires i < |case_.accounts|
  {
    case_.(accounts := Without(case_.accounts, i))
  }

  /** An account the difference needs is still needed once a later account is gone. */
  ghost predicate Monotone(differs: Differs) {
    forall c: Case, i: nat, j: nat :: i < j < |c.accounts| && !differs(DropAccount(c, i)) ==>
                        !differs(DropAccount(DropAccount(c, j), i))
  }

  /** No account from the third on up to `n` can be dropped alone. */
  ghost predicate Needed(differs: Differs, case_: Case, n: nat)
    requires n <= |case_.accounts|
  {
    forall i :: 2 <= i < n ==> !differs(DropAccount(case_, i))
  }

  /** Drops accounts after the first two, one at a time; for a monotone difference none is left to drop. */
  method MinimizeAccounts(differs: Differs, start: Case) returns (case_: Case, ghost keep: seq<nat>)
    ensures Sound(differs, start, case_)
    ensures Keeps(keep, |start.accounts|)
    ensures case_ == start.(accounts := Selected(start.accounts, keep))
    ensures Monotone(differs) ==> Needed(differs, case_, |case_.accounts|)
  {
    case_ := start;
    keep := seq(|start.accounts|, i => i);
    KeepAll(start.accounts, keep);
    var index := 2;
    while index < |case_.accounts|
      invariant 2 <= index && (index == 2 || index <= |case_.accounts|)
      invariant Sound(differs, start, case_)
      invariant Keeps(keep, |start.accounts|)
      invariant case_ == start.(accounts := Selected(start.accounts, keep))
      invariant Monotone(differs) && index <= |case_.accounts| ==> Needed(differs, case_, index)
      decreases |case_.accounts| - index
    {
      var candidate := DropAccount(case_, index);
      if differs(candidate) {
        KeepFewer(start.accounts, keep, index);
        case_, keep := candidate, Without(keep, index);
      } else {
        index := index + 1;
      }
    }
  }

  method MinKey(m: map<nat, nat>) returns (key: nat)
    requires m != map[]
    ensures key in m && forall k :: k in m ==> key <= k
  {
    var rest := m.Keys;
    assert rest != {} by { var k :| k in m; assert k in rest; }
    key :| key in rest;
    rest := rest - {key};
    while rest != {}
      invariant rest <= m.Keys && key in m
      invariant forall k :: k in m && k !in rest ==> key <= k
    {
      var k :| k in rest;
      rest := rest - {k};
      if k < key { key := k; }
    }
  }

  /** What is left of a storage after its smallest keys were dropped. */
  predicate UpperPart(part: map<nat, nat>, whole: map<nat, nat>) {
    && (forall k :: k in part ==> k in whole && part[k] == whole[k])
    && (forall k, l :: k in part && l in whole && l !in part ==> l < k)
  }

  predicate StorageReduced(after: seq<Account>, before: seq<Account>) {
    && |after| == |before|
    && forall i :: 0 <= i < |after| ==>
                     && after[i] == before[i].(storage := after[i].storage)
                     && UpperPart(after[i].storage, before[i].storage)
  }

  function DropKey(case_: Case, i: nat, key: nat): Case
    requires i < |case_.accounts|
  {
    var account := case_.accounts[i];
    case_.(accounts := case_.accounts[i := account.(storage := account.storage - {key})])
  }

  /** Dropping the smallest key of the account would end the difference. */
  ghost predicate StorageStuck(differs: Differs, case_: Case, i: nat)
    requires i < |case_.accounts|
  {
    forall key :: key in case_.accounts[i].storage && (forall k :: k in case_.accounts[i].storage ==> key <= k) ==>
                    !differs(DropKey(case_, i, key))
  }

  function WithStorage(case_: Case, i: nat, storage: map<nat, nat>): Case
    requires i < |case_.accounts|
  {
    case_.(accounts := case_.accounts[i := case_.accounts[i].(storage := storage)])
  }

  lemma DropSmallest(part: map<nat, nat>, whole: map<nat, nat>, key: nat)
    requires UpperPart(part, whole) && key in part && forall k :: k in part ==> key <= k
    ensures UpperPart(part - {key}, whole) && (part - {key}).Keys < part.Keys
  {
    assert (part - {key}).Keys == part.Keys - {key};
    assert key in part.Keys;
  }

  lemma DropInStorage(start: Case, i: nat, storage: map<nat, nat>, key: nat)
    requires i < |start.accounts|
    ensures DropKey(WithStorage(start, i, storage), i, key) == WithStorage(start, i, storage - {key})
  {
  }

  /** There is only one smallest key. */
  lemma SmallestIsStuck(differs: Differs, case_: Case, i: nat, key: nat)
    requires i < |case_.accounts| && key in case_.accounts[i].storage
    requires forall k :: k in case_.accounts[i].storage ==> key <= k
    requires !differs(DropKey(case_, i, key))
    ensures StorageStuck(differs, case_, i)
  {
    forall other | other in case_.accounts[i].storage && (forall k :: k in case_.accounts[i].storage ==> other <= k)
      ensures !differs(DropKey(case_, i, other))
    {
      assert other == key;
    }
  }

  /** Drops the smallest storage keys of one account until it is stuck. */
  method MinimizeStorageOf(differs: Differs, start: Case, i: nat) returns (case_: Case)
    requires i < |start.accounts|
    ensures Sound(differs, start, case_)
    ensures |case_.accounts| == |start.accounts| && UpperPart(case_.accounts[i].storage, start.accounts[i].storage)
    ensures case_ == WithStorage(start, i, case_.accounts[i].storage)
    ensures StorageStuck(differs, case_, i)
  {
    case_ := start;
    var storage := start.accounts[i].storage;
    while storage != map[]
      invariant Sound(differs, start, case_) && case_ == WithStorage(start, i, storage)
      invariant UpperPart(storage, start.accounts[i].storage)
      decreases storage.Keys
    {
      var key := MinKey(storage);
      DropSmallest(storage, start.accounts[i].storage, key);
      DropInStorage(start, i, storage, key);
      var candidate := DropKey(case_, i, key);
      if !differs(candidate) {
        SmallestIsStuck(differs, case_, i, key);
        return;
      }
      case_, storage := candidate, storage - {key};
    }
  }

  /** Account `i` was minimized: only its storage changed, and it was stuck when the pass left it. */
  ghost predicate AccountPass(differs: Differs, before: Case, after: Case, i: nat) {
    && i < |before.accounts| == |after.accounts|
    && after == WithStorage(before, i, after.accounts[i].storage)
    && StorageStuck(differs, after, i)
  }

  /** The cases between the accounts of the storage pass: each account was minimized in its turn. */
  ghost predicate StorageStages(differs: Differs, start: Case, stages: seq<Case>) {
    && stages != [] && stages[0] == start
    && forall i, j :: 0 <= i && j == i + 1 < |stages| ==> AccountPass(differs, stages[i], stages[j], i)
  }

  /** Drops the smallest storage keys of each account in turn until it is stuck. */
  method MinimizeStorage(differs: Differs, start: Case) returns (case_: Case, ghost stages: seq<Case>)
    ensures |stages| == |start.accounts| + 1 && StorageStages(differs, start, stages) && stages[|stages| - 1] == case_
    ensures Sound(differs, start, case_)
    ensures case_ == start.(accounts := case_.accounts)
    ensures StorageReduced(case_.accounts, start.accounts)
    ensures start.accounts != [] ==> StorageStuck(differs, case_, |start.accounts| - 1)
  {
    case_, stages := start, [start];
    for i := 0 to |start.accounts|
      invariant |stages| == i + 1 && stages[i] == case_ && StorageStages(differs, start, stages)
      invariant Sound(differs, start, case_)
      invariant case_ == start.(accounts := case_.accounts)
      invariant StorageReduced(case_.accounts, start.accounts)
      invariant forall j :: i <= j < |start.accounts| ==> case_.accounts[j] == start.accounts[j]
      invariant i > 0 ==> StorageStuck(differs, case_, i - 1)
    {
      case_ := MinimizeStorageOf(differs, case_, i);
      stages := stages + [case_];
    }
  }

  /** Halves the calldata while that keeps the difference; at the end halving no longer does. */
  method MinimizeCalldata(differs: Differs, start: Case) returns (case_: Case)
    ensures Sound(differs, start, case_)
    ensures case_ == start.(input := case_.input) && case_.input <= start.input
    ensures case_.input == [] || !differs(case_.(input := case_.input[..|case_.input| / 2]))
  {
    case_ := start;
    var len := |case_.input|;
    while len > 0
      invariant len == |case_.input|
      invariant Sound(differs, start, case_)
      invariant case_ == start.(input := case_.input) && case_.input <= start.input
    {
      var next := len / 2;
      var candidate := case_.(input := case_.input[..next]);
      if differs(candidate) {
        case_, len := candidate, next;
      } else {
        break;
      }
    }
  }

  /** The original code, or a proper prefix of it followed by `STOP`. */
  predicate CodeReduced(after: seq<nat>, before: seq<nat>) {
    after == before || (|after| >= 2 && |after| < |before| && after == before[..|after| - 1] + [STOP])
  }

  /** The first account with the target's address. */
  method TargetIndex(accounts: seq<Account>) returns (r: Option<nat>)
    ensures r.Some? ==> r.value < |accounts| && accounts[r.value].address == TARGET
    ensures forall i :: 0 <= i < (if r.Some? then r.value else |accounts|) ==> accounts[i].address != TARGET
  {
    for i := 0 to |accounts|
      invariant forall j :: 0 <= j < i ==> accounts[j].address != TARGET
    {
      if accounts[i].address == TARGET { return Some(i); }
    }
    return None;
  }

  predicate TargetReduced(after: seq<Account>, before: seq<Account>) {
    && |after| == |before|
    && forall i :: 0 <= i < |after| ==>
                     && after[i] == before[i].(code := after[i].code)
                     && CodeReduced(after[i].code, before[i].code)
                     && (before[i].address != TARGET ==> after[i] == before[i])
  }

  function HalveCode(case_: Case, i: nat): Case
    requires i < |case_.accounts|
  {
    var account := case_.accounts[i];
    case_.(accounts := case_.accounts[i := account.(code := account.code[..|account.code| / 2] + [STOP])])
  }

  predicate FirstTarget(accounts: seq<Account>, i: nat) {
    && i < |accounts| && accounts[i].address == TARGET
    && forall j :: 0 <= j < i ==> accounts[j].address != TARGET
  }

  /** Halving the first target's code would end the difference, or no longer shorten the code. */
  ghost predicate CodeStuck(differs: Differs, case_: Case) {
    forall i: nat :: FirstTarget(case_.accounts, i) ==>
                  |case_.accounts[i].code| < 3 || !differs(HalveCode(case_, i))
  }

  /** Halves the target's code, always ending it with a `STOP`, until it is stuck. */
  method MinimizeTargetCode(differs: Differs, start: Case) returns (case_: Case)
    ensures Sound(differs, start, case_)
    ensures case_ == start.(accounts := case_.accounts)
    ensures TargetReduced(case_.accounts, start.accounts)
    ensures CodeStuck(differs, case_)
  {
    case_ := start;
    var position := TargetIndex(case_.accounts);
    if position.None? { return; }
    var target := position.value;
    var len := |case_.accounts[target].code|;
    while len > 1
      invariant Sound(differs, start, case_)
      invariant case_ == start.(accounts := case_.accounts)
      invariant TargetReduced(case_.accounts, start.accounts)
      invariant FirstTarget(case_.accounts, target)
      invariant len == |case_.accounts[target].code|
    {
      var next := len / 2;
      if next + 1 >= len { break; }
      HalvingReduces(case_.accounts[target].code, start.accounts[target].code, next);
      var candidate := HalveCode(case_, target);
      if differs(candidate) {
        case_, len := candidate, next + 1;
      } else {
        break;
      }
    }
  }

  /** Cutting a reduced code never reaches its `STOP`, so the rest is still a prefix of the original. */
  lemma HalvingReduces(code: seq<nat>, original: seq<nat>, next: nat)
    requires CodeReduced(code, original) && next == |code| / 2 && 1 <= next && next + 1 < |code|
    ensures CodeReduced(code[..next] + [STOP], original)
  {
    assert code[..next] == original[..next];
  }

  /** A minimized account: same identity, its largest storage keys, its code or a stopped prefix. */
  predicate AccountReduced(after: Account, before: Account) {
    && after.address == before.address && after.info == before.info
    && UpperPart(after.storage, before.storage)
    && CodeReduced(after.code, before.code)
    && (before.address != TARGET ==> after.code == before.code)
  }

  lemma PassesReduce(start: seq<Account>, middle: seq<Account>, end: seq<Account>)
    requires StorageReduced(middle, start) && TargetReduced(end, middle)
    ensures |end| == |start| && forall i :: 0 <= i < |end| ==> AccountReduced(end[i], start[i])
  {
  }

  /** What each pass leaves: no account to drop, no storage to drop, no calldata to halve. */
  datatype Passes = Passes(fewer: Case, stages: seq<Case>, shorter: Case)
  {
    ghost predicate Ran(differs: Differs, start: Case, case_: Case, keep: seq<nat>)
      requires Keeps(keep, |start.accounts|)
    {
      && fewer == start.(accounts := Selected(start.accounts, keep))
      && (Monotone(differs) ==> Needed(differs, fewer, |fewer.accounts|))
      && |stages| == |fewer.accounts| + 1 && StorageStages(differs, fewer, stages)
      && shorter == stages[|stages| - 1].(input := shorter.input)
      && (shorter.input == [] || !differs(shorter.(input := shorter.input[..|shorter.input| / 2])))
      && case_ == shorter.(accounts := case_.accounts)
      && TargetReduced(case_.accounts, shorter.accounts) && CodeStuck(differs, case_)
    }
  }

  /**
   Minimization keeps the difference and only shrinks: the accounts are a subsequence that keeps
   the first two, each reduced; the calldata is a prefix; everything else is as before. Each of the
   four passes goes on until it is stuck.
   */
  method MinimizeCase(differs: Differs, start: Case)
    returns (case_: Case, ghost keep: seq<nat>, ghost passes: Passes)
    ensures differs(start) ==> differs(case_)
    ensures Sound(differs, start, case_)
    ensures Keeps(keep, |start.accounts|) && |case_.accounts| == |keep|
    ensures forall i :: 0 <= i < |keep| ==> AccountReduced(case_.accounts[i], start.accounts[keep[i]])
    ensures case_.input <= start.input && case_.rest == start.rest
    ensures CodeStuck(differs, case_)
    ensures passes.Ran(differs, start, case_, keep)
  {
    case_, keep := MinimizeAccounts(differs, start);
    ghost var fewer, stages := case_, [];
    case_, stages := MinimizeStorage(differs, case_);
    ghost var stored := case_.accounts;
    case_ := MinimizeCalldata(differs, case_);
    passes := Passes(fewer, stages, case_);
    case_ := MinimizeTargetCode(differs, case_);
    PassesReduce(fewer.accounts, stored, case_.accounts);
  }
}
