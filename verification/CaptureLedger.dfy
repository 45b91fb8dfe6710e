/**
 The capture ledgers as the source runs them: an overlay and a builder whose maps and sets are
 updated in place, transaction by transaction (crates/cli/src/capture/overlay.rs,
 crates/cli/src/capture/builder.rs and the loop of crates/cli/src/capture/mod.rs).

 Every method is tied to the per-account rules of `CaptureAccount`, at every address at once.
 */
module CaptureLedger {
  import opened Common
  import opened CaptureAccount
  import Meaning = CaptureMeaning
  import Replay = CaptureReplay

  type Address = nat
  type Hash = nat

  const ONE_GWEI: nat := 1_000_000_000

  datatype Authorization = Authorization(chainId: nat, nonce: nat, authority: Option<Address>)

  /** `amount` is in gwei, a 64-bit field of the block body. */
  datatype BlockWithdrawal = BlockWithdrawal(address: Address, amount: nat)

  /** Whether an authorization marks `a`: right chain, usable nonce, recoverable authority. */
  predicate Authorizes(auth: Authorization, chainId: nat, a: Address) {
    && (auth.chainId == 0 || auth.chainId == chainId)
    && auth.nonce != U64_MAX
    && auth.authority == Some(a)
  }

  predicate IsAuthority(auths: seq<Authorization>, chainId: nat, a: Address) {
    exists i :: 0 <= i < |auths| && Authorizes(auths[i], chainId, a)
  }

  function SaturatingMul(x: nat, y: nat): nat {
    if x * y <= U256_MAX then x * y else U256_MAX
  }

  /** The amount of a withdrawal is a 64-bit number of gwei, so its wei never saturate. */
  lemma GweiNeverSaturates(amount: nat)
    requires amount <= U64_MAX
    ensures SaturatingMul(amount, ONE_GWEI) == amount * 1_000_000_000
  {
  }

  function AfterWithdrawals(o: OverlayAccount, ws: seq<BlockWithdrawal>, a: Address): OverlayAccount {
    if ws == [] then o
    else
      var before := AfterWithdrawals(o, ws[..|ws| - 1], a);
      var last := ws[|ws| - 1];
      if last.address == a then AfterWithdrawal(before, SaturatingMul(last.amount, ONE_GWEI)) else before
  }

  class Overlay {
    var accounts: map<Address, OverlayAccount>

    constructor ()
      ensures forall a :: At(a) == UNKNOWN
    {
      accounts := map[];
    }

    function At(a: Address): OverlayAccount
      reads this
    {
      if a in accounts then accounts[a] else UNKNOWN
    }

    method ApplyPost(post: map<Address, PostAccount>)
      modifies this
      ensures forall a :: At(a) == if a in post then AfterPost(old(At(a)), post[a]) else old(At(a))
    {
      var rest := post.Keys;
      while rest != {}
        invariant rest <= post.Keys
        invariant forall a ::
            At(a) == if a in post && a !in rest then AfterPost(old(At(a)), post[a]) else old(At(a))
      {
        var a :| a in rest;
        rest := rest - {a};
        accounts := accounts[a := AfterPost(At(a), post[a])];
      }
    }

    method ApplyAuthorizationWrites(auths: seq<Authorization>, chainId: nat)
      modifies this
      ensures forall a :: At(a) ==
                          if IsAuthority(auths, chainId, a) then AfterAuthorization(old(At(a))) else old(At(a))
    {
      for i := 0 to |auths|
        invariant forall a :: At(a) ==
                              if IsAuthority(auths[..i], chainId, a) then AfterAuthorization(old(At(a))) else old(At(a))
      {
        var auth := auths[i];
        assert forall a :: IsAuthority(auths[..i + 1], chainId, a) <==>
                           IsAuthority(auths[..i], chainId, a) || Authorizes(auth, chainId, a) by {
          AuthoritySnoc(auths, i, chainId);
        }
        if auth.chainId != 0 && auth.chainId != chainId { continue; }
        if auth.nonce == U64_MAX { continue; }
        if auth.authority.None? { continue; }
        var a := auth.authority.value;
        accounts := accounts[a := AfterAuthorization(At(a))];
      }
      assert auths[..|auths|] == auths;
    }

    method ApplyWithdrawals(ws: seq<BlockWithdrawal>)
      modifies this
      ensures forall a :: At(a) == AfterWithdrawals(old(At(a)), ws, a)
    {
      for i := 0 to |ws|
        invariant forall a :: At(a) == AfterWithdrawals(old(At(a)), ws[..i], a)
      {
        assert ws[..i + 1][..i] == ws[..i];
        ApplyWithdrawal(ws[i].address, SaturatingMul(ws[i].amount, ONE_GWEI));
      }
      assert ws[..|ws|] == ws;
    }

    method ApplyWithdrawal(a: Address, amount: nat)
      modifies this
      ensures forall b :: At(b) == if b == a then AfterWithdrawal(old(At(a)), amount) else old(At(b))
    {
      accounts := accounts[a := AfterWithdrawal(At(a), amount)];
    }
  }

  lemma AuthoritySnoc(auths: seq<Authorization>, i: nat, chainId: nat)
    requires i < |auths|
    ensures forall a :: IsAuthority(auths[..i + 1], chainId, a) <==>
                        IsAuthority(auths[..i], chainId, a) || Authorizes(auths[i], chainId, a)
  {
    forall a
      ensures IsAuthority(auths[..i + 1], chainId, a) <==>
              IsAuthority(auths[..i], chainId, a) || Authorizes(auths[i], chainId, a)
    {
      var s, t := auths[..i], auths[..i + 1];
      assert t == s + [auths[i]];
      if IsAuthority(s, chainId, a) {
        var k :| 0 <= k < |s| && Authorizes(s[k], chainId, a);
        assert Authorizes(t[k], chainId, a);
      }
      if Authorizes(auths[i], chainId, a) {
        assert Authorizes(t[i], chainId, a);
      }
    }
  }

  // ----- builder --------------------------------------------------------------------------------

  datatype AccountState = AccountState(balance: nat, nonce: nat, codeHash: Hash, storage: map<Slot, nat>)

  ghost predicate CollisionFree(keccak: Code -> Hash) {
    forall c, d :: keccak(c) == keccak(d) ==> c == d
  }

  class CaptureBuilder {
    const keccak: Code -> Hash
    var codes: map<Hash, Code>
    var accounts: map<Address, AccountState>
    var capturedBalances: set<Address>
    var capturedNonces: set<Address>
    var capturedCodes: set<Address>
    var absentAccounts: set<Address>
    var zeroStorageSlots: set<(Address, Slot)>

    constructor (keccak: Code -> Hash)
      ensures Valid() && this.keccak == keccak
      ensures forall a :: View(a) == UNTRACED
    {
      this.keccak := keccak;
      codes, accounts := map[], map[];
      capturedBalances, capturedNonces, capturedCodes, absentAccounts := {}, {}, {}, {};
      zeroStorageSlots := {};
    }

    /** The code table is keyed by hash, and an account's code hash is in it or the empty one. */
    ghost predicate Valid()
      reads this
    {
      && (forall h | h in codes :: keccak(codes[h]) == h)
      && (forall a | a in accounts :: accounts[a].codeHash in codes || accounts[a].codeHash == keccak([]))
    }

    function Empty(): AccountState { AccountState(0, 0, keccak([]), map[]) }

    function StateAt(a: Address): AccountState
      reads this
    {
      if a in accounts then accounts[a] else Empty()
    }

    function CodeAt(h: Hash): Code
      reads this
    {
      if h in codes then codes[h] else []
    }

    /** What the builder holds about one account, with its code looked up in the code table. */
    function View(a: Address): Captured
      reads this
    {
      var st := StateAt(a);
      Captured(a in accounts, st.balance, st.nonce,
               CodeAt(st.codeHash), st.storage,
               a in capturedBalances, a in capturedNonces, a in capturedCodes, a in absentAccounts,
               set p | p in zeroStorageSlots && p.0 == a :: p.1)
    }

    /** Nothing changes about any other account. */
    twostate predicate OnlyChanges(a: Address)
      reads this
    {
      forall b :: b != a ==> View(b) == old(View(b))
    }

    /** The base and what is recorded in it stay the same. */
    twostate predicate RecordsNothing()
      reads this
    {
      && accounts == old(accounts) && codes == old(codes)
      && capturedBalances == old(capturedBalances) && capturedNonces == old(capturedNonces)
      && capturedCodes == old(capturedCodes)
    }

    method CaptureBalanceField(a: Address, p: PreAccount, overlay: Overlay) returns (r: Result<(), CaptureError>)
      requires Valid()
      modifies this`accounts, this`capturedBalances
      ensures Valid() && OnlyChanges(a)
      ensures match CaptureBalance(old(View(a)), overlay.At(a), p)
              case Ok(v) => r.Ok? && View(a) == v
              case Err(e) => r == Err(e)
    {
      var o := overlay.At(a);
      if !o.SuppliesBalance() && a !in capturedBalances && p.balance.Some? {
        var traced := p.balance.value;
        if o.Exists() && traced == 0 { return Ok(()); }
        if traced < o.withdrawn { return Err(WithdrawalBalanceUnderflow(traced, o.withdrawn)); }
        if traced == o.withdrawn && o.withdrawn != 0 { return Ok(()); }
        accounts := accounts[a := StateAt(a).(balance := traced - o.withdrawn)];
        capturedBalances := capturedBalances + {a};
      }
      return Ok(());
    }

    method CaptureNonceField(a: Address, p: PreAccount, overlay: Overlay)
      requires Valid()
      modifies this`accounts, this`capturedNonces
      ensures Valid() && OnlyChanges(a)
      ensures View(a) == CaptureNonce(old(View(a)), overlay.At(a), p)
    {
      if !overlay.At(a).SuppliesNonce() && a !in capturedNonces && p.nonce.Some? {
        accounts := accounts[a := StateAt(a).(nonce := p.nonce.value)];
        capturedNonces := capturedNonces + {a};
      }
    }

    method CaptureCodeField(a: Address, p: PreAccount, overlay: Overlay) returns (r: Result<(), CaptureError>)
      requires Valid()
      modifies this`accounts, this`codes, this`capturedCodes
      ensures Valid()
      ensures r.Err? ==> r.error.CodeHashCollision? && !CollisionFree(keccak)
      ensures CollisionFree(keccak) ==>
                OnlyChanges(a) && View(a) == CaptureCode(old(View(a)), overlay.At(a), p)
    {
      if overlay.At(a).SuppliesCode() || a in capturedCodes || p.code.None? { return Ok(()); }
      r := StoreCode(a, p.code.value);
    }

    method StoreCode(a: Address, bytecode: Code) returns (r: Result<(), CaptureError>)
      requires Valid()
      modifies this`accounts, this`codes, this`capturedCodes
      ensures Valid()
      ensures r.Err? ==> r.error.CodeHashCollision? && !CollisionFree(keccak)
      ensures CollisionFree(keccak) ==>
                && OnlyChanges(a)
                && View(a) == old(View(a)).(materialized := true, code := bytecode, hasCode := true)
    {
      var h := keccak(bytecode);
      if h !in codes {
        codes := codes[h := bytecode];
      } else if codes[h] != bytecode {
        return Err(CodeHashCollision);
      }
      accounts := accounts[a := StateAt(a).(codeHash := h)];
      capturedCodes := capturedCodes + {a};
      return Ok(());
    }

    method CaptureStorageSlots(a: Address, p: PreAccount, overlay: Overlay)
      requires Valid()
      modifies this`accounts, this`zeroStorageSlots
      ensures Valid() && OnlyChanges(a)
      ensures View(a) == CaptureStorage(old(View(a)), overlay.At(a), p)
    {
      ghost var v, o := View(a), overlay.At(a);
      var storage := TracedSlots(p);
      var rest := storage.Keys;
      ghost var done: set<Slot> := {};
      CaptureNoSlots(v, o, p);
      while rest != {}
        invariant done !! rest && done + rest == storage.Keys
        invariant Valid() && OnlyChanges(a)
        invariant View(a) == CaptureStorage(v, o, Only(p, done))
      {
        var s :| s in rest;
        CaptureSlotStep(v, o, p, done, s);
        rest, done := rest - {s}, done + {s};
        CaptureSlot(a, s, storage[s], overlay);
      }
      CaptureAllSlots(v, o, p);
    }

    method CaptureSlot(a: Address, s: Slot, value: nat, overlay: Overlay)
      requires Valid()
      modifies this`accounts, this`zeroStorageSlots
      ensures Valid() && OnlyChanges(a)
      ensures View(a) == AfterSlot(old(View(a)), overlay.At(a), s, value)
    {
      if overlay.At(a).SuppliesSlot(s) || (a, s) in zeroStorageSlots { return; }
      if value == 0 {
        zeroStorageSlots := zeroStorageSlots + {(a, s)};
      } else {
        var st := StateAt(a);
        accounts := accounts[a := if s in st.storage then st else st.(storage := st.storage[s := value])];
      }
    }

    /** One entry of the pre-state trace. */
    method CaptureAccountEntry(a: Address, p: PreAccount, overlay: Overlay) returns (r: Result<(), CaptureError>)
      requires Valid()
      modifies this
      ensures Valid()
      ensures CollisionFree(keccak) ==> OnlyChanges(a)
      ensures CollisionFree(keccak) ==>
                match CaptureEntry(old(View(a)), overlay.At(a), p)
                case Ok(v) => r.Ok? && View(a) == v
                case Err(e) => r == Err(e)
      ensures Replay.ZeroOnly(p) || (a in old(absentAccounts) && !(overlay.At(a).known && !overlay.At(a).deleted)) ==>
                r.Ok? && RecordsNothing()
      ensures Replay.ZeroOnly(p) && !(overlay.At(a).known && !overlay.At(a).deleted) ==>
                a in absentAccounts && forall s | s in TracedSlots(p) :: (a, s) in zeroStorageSlots
    {
      var known := overlay.At(a).Exists();
      if IsAbsentProbe(p) {
        if !known {
          MarkAbsent(a, TracedSlots(p).Keys);
        }
        return Ok(());
      }
      if a in absentAccounts && !known { return Ok(()); }
      r := CaptureBalanceField(a, p, overlay);
      if r.Err? { return; }
      CaptureNonceField(a, p, overlay);
      r := CaptureCodeField(a, p, overlay);
      if r.Err? { return; }
      CaptureStorageSlots(a, p, overlay);
    }

    method MarkAbsent(a: Address, slots: set<Slot>)
      requires Valid()
      modifies this`absentAccounts, this`zeroStorageSlots
      ensures Valid() && OnlyChanges(a)
      ensures a in absentAccounts && forall s | s in slots :: (a, s) in zeroStorageSlots
      ensures View(a) == old(View(a)).(absent := true, zeroSlots := old(View(a)).zeroSlots + slots)
    {
      absentAccounts := absentAccounts + {a};
      zeroStorageSlots := zeroStorageSlots + set s | s in slots :: (a, s);
      assert View(a).zeroSlots == old(View(a)).zeroSlots + slots by {
        forall s | s in slots ensures s in View(a).zeroSlots {
          assert (a, s) in zeroStorageSlots;
        }
        forall s | s in old(View(a)).zeroSlots ensures s in View(a).zeroSlots {
          assert (a, s) in old(zeroStorageSlots);
          assert (a, s) in zeroStorageSlots;
        }
      }
      forall b | b != a ensures View(b) == old(View(b)) {
        assert View(b).zeroSlots == old(View(b)).zeroSlots;
      }
    }

    /**
     Decides which accounts and slots of one transaction's pre-state trace belong in the base. The
     entries are visited in no particular order.
     */
    method CaptureBaseRequirements(pre: map<Address, PreAccount>, overlay: Overlay)
      returns (r: Result<(), CaptureError>)
      requires Valid()
      modifies this
      ensures Valid()
      ensures CollisionFree(keccak) && r.Ok? ==>
                forall a :: Ok(View(a)) ==
                            if a in pre then CaptureEntry(old(View(a)), overlay.At(a), pre[a]) else Ok(old(View(a)))
      ensures CollisionFree(keccak) && r.Err? ==>
                exists a :: a in pre && CaptureEntry(old(View(a)), overlay.At(a), pre[a]) == Err(r.error)
    {
      var rest := pre.Keys;
      while rest != {}
        invariant Valid() && rest <= pre.Keys
        invariant CollisionFree(keccak) ==>
            forall a :: Ok(View(a)) ==
                        if a in pre && a !in rest then CaptureEntry(old(View(a)), overlay.At(a), pre[a])
                        else Ok(old(View(a)))
      {
        var a :| a in rest;
        rest := rest - {a};
        r := CaptureAccountEntry(a, pre[a], overlay);
        if r.Err? { return; }
      }
      return Ok(());
    }
  }

  // ----- one slot at a time -----------------------------------------------------------------------

  function AfterSlot(v: Captured, o: OverlayAccount, s: Slot, value: nat): Captured {
    if o.SuppliesSlot(s) || s in v.zeroSlots then v
    else if value == 0 then v.(zeroSlots := v.zeroSlots + {s})
    else v.(materialized := true, storage := if s in v.storage then v.storage else v.storage[s := value])
  }

  function Only(p: PreAccount, done: set<Slot>): PreAccount {
    p.(storage := Some(map s | s in TracedSlots(p) && s in done :: TracedSlots(p)[s]))
  }

  lemma CaptureNoSlots(v: Captured, o: OverlayAccount, p: PreAccount)
    ensures CaptureStorage(v, o, Only(p, {})) == v
  {
    assert v.storage + NewSlots(v, o, Only(p, {})) == v.storage;
    assert v.zeroSlots + NewZeroSlots(v, o, Only(p, {})) == v.zeroSlots;
  }

  lemma CaptureAllSlots(v: Captured, o: OverlayAccount, p: PreAccount)
    ensures CaptureStorage(v, o, Only(p, TracedSlots(p).Keys)) == CaptureStorage(v, o, p)
  {
    assert TracedSlots(Only(p, TracedSlots(p).Keys)) == TracedSlots(p);
  }

  lemma NewSlotsStep(v: Captured, o: OverlayAccount, p: PreAccount, done: set<Slot>, s: Slot)
    requires s in TracedSlots(p) && s !in done
    ensures var value := TracedSlots(p)[s];
            NewSlots(v, o, Only(p, done + {s})) ==
            if !o.SuppliesSlot(s) && s !in v.zeroSlots && value != 0 && s !in v.storage
            then NewSlots(v, o, Only(p, done))[s := value] else NewSlots(v, o, Only(p, done))
  {
  }

  lemma NewZeroSlotsStep(v: Captured, o: OverlayAccount, p: PreAccount, done: set<Slot>, s: Slot)
    requires s in TracedSlots(p) && s !in done
    ensures NewZeroSlots(v, o, Only(p, done + {s})) ==
            NewZeroSlots(v, o, Only(p, done)) + (if !o.SuppliesSlot(s) && TracedSlots(p)[s] == 0 then {s} else {})
  {
  }

  lemma TouchesStorageStep(v: Captured, o: OverlayAccount, p: PreAccount, done: set<Slot>, s: Slot)
    requires s in TracedSlots(p) && s !in done
    ensures TouchesStorage(v, o, Only(p, done + {s})) <==>
            TouchesStorage(v, o, Only(p, done)) ||
            (!o.SuppliesSlot(s) && s !in v.zeroSlots && TracedSlots(p)[s] != 0)
  {
    var q, q1 := TracedSlots(Only(p, done)), TracedSlots(Only(p, done + {s}));
    if TouchesStorage(v, o, Only(p, done)) {
      var k :| k in q && !o.SuppliesSlot(k) && k !in v.zeroSlots && q[k] != 0;
      assert k in q1 && q1[k] != 0;
    }
    if !o.SuppliesSlot(s) && s !in v.zeroSlots && TracedSlots(p)[s] != 0 {
      assert s in q1 && q1[s] != 0;
    }
    if TouchesStorage(v, o, Only(p, done + {s})) {
      var k :| k in q1 && !o.SuppliesSlot(k) && k !in v.zeroSlots && q1[k] != 0;
      assert k == s || (k in q && q[k] != 0);
    }
  }

  /** Slots are captured independently: one more slot of the loop is one more slot of the rule. */
  lemma CaptureSlotStep(v: Captured, o: OverlayAccount, p: PreAccount, done: set<Slot>, s: Slot)
    requires s in TracedSlots(p) && s !in done
    ensures CaptureStorage(v, o, Only(p, done + {s})) ==
            AfterSlot(CaptureStorage(v, o, Only(p, done)), o, s, TracedSlots(p)[s])
  {
    NewSlotsStep(v, o, p, done, s);
    NewZeroSlotsStep(v, o, p, done, s);
    TouchesStorageStep(v, o, p, done, s);
    MergeSlots(v, NewSlots(v, o, Only(p, done)), NewZeroSlots(v, o, Only(p, done)), o, s, TracedSlots(p)[s]);
  }

  lemma MergeSlots(v: Captured, slots: map<Slot, nat>, zeros: set<Slot>, o: OverlayAccount, s: Slot, value: nat)
    requires s !in slots && s !in zeros
    ensures s !in v.storage ==> v.storage + slots[s := value] == (v.storage + slots)[s := value]
    ensures v.zeroSlots + (zeros + {s}) == v.zeroSlots + zeros + {s}
    ensures s in v.zeroSlots ==> v.zeroSlots + (zeros + {s}) == v.zeroSlots + zeros
  {
  }

  // ----- the capture of a range ---------------------------------------------------------------------

  /**
   A transaction as the capture reads it (traces and authorizations), together with what it really
   did to each account, which the capture never reads.
   */
  datatype TxTrace = TxTrace(
    pre: map<Address, PreAccount>,
    post: map<Address, PostAccount>,
    authorizations: seq<Authorization>,
    effects: map<Address, Replay.Effect>)

  datatype Block = Block(txs: seq<TxTrace>, withdrawals: seq<BlockWithdrawal>)

  function Lookup<T>(m: map<Address, T>, a: Address): Option<T> {
    if a in m then Some(m[a]) else None
  }

  const NO_EFFECT := Replay.Write(None, None, None, map[])

  function TxEvent(tx: TxTrace, chainId: nat, a: Address): Replay.Event {
    Replay.Tx(Lookup(tx.pre, a), Lookup(tx.post, a), IsAuthority(tx.authorizations, chainId, a),
              if a in tx.effects then tx.effects[a] else NO_EFFECT)
  }

  function TxEvents(txs: seq<TxTrace>, chainId: nat, a: Address): seq<Replay.Event> {
    seq(|txs|, i requires 0 <= i < |txs| => TxEvent(txs[i], chainId, a))
  }

  function WithdrawalEvents(ws: seq<BlockWithdrawal>, a: Address): seq<Replay.Event> {
    if ws == [] then []
    else
      var last := ws[|ws| - 1];
      WithdrawalEvents(ws[..|ws| - 1], a) +
      if last.address == a then [Replay.Withdrawal(SaturatingMul(last.amount, ONE_GWEI))] else []
  }

  /** What happens to account `a` over the range: transactions in order, withdrawals after each block. */
  function History(blocks: seq<Block>, chainId: nat, a: Address): seq<Replay.Event> {
    if blocks == [] then []
    else
      var last := blocks[|blocks| - 1];
      History(blocks[..|blocks| - 1], chainId, a) + BlockEvents(last, chainId, a)
  }

  function BlockEvents(block: Block, chainId: nat, a: Address): seq<Replay.Event> {
    TxEvents(block.txs, chainId, a) + WithdrawalEvents(block.withdrawals, a)
  }

  /** Within a block every transaction is one event, in order, and the withdrawals come after all of them. */
  lemma TransactionsComeFirst(block: Block, chainId: nat, a: Address, k: nat)
    requires k < |BlockEvents(block, chainId, a)|
    ensures |block.txs| <= |BlockEvents(block, chainId, a)|
    ensures if k < |block.txs| then
              var e, tx := BlockEvents(block, chainId, a)[k], block.txs[k];
              && e.Tx? && (e.pre.Some? <==> a in tx.pre) && (e.post.Some? <==> a in tx.post)
              && (a in tx.pre ==> e.pre.value == tx.pre[a]) && (a in tx.post ==> e.post.value == tx.post[a])
              && (e.authorized <==> IsAuthority(tx.authorizations, chainId, a))
            else BlockEvents(block, chainId, a)[k].Withdrawal?
  {
    WithdrawalsOnly(block.withdrawals, a);
  }

  /** The events of block `i` follow those of the blocks before it and come before those of later ones. */
  lemma {:induction false} BlocksInOrder(blocks: seq<Block>, chainId: nat, a: Address, i: nat, k: nat)
    requires i < |blocks| && k < |BlockEvents(blocks[i], chainId, a)|
    ensures |History(blocks[..i], chainId, a)| + k < |History(blocks, chainId, a)|
    ensures History(blocks, chainId, a)[|History(blocks[..i], chainId, a)| + k] ==
            BlockEvents(blocks[i], chainId, a)[k]
    decreases |blocks|
  {
    var init := blocks[..|blocks| - 1];
    if i < |init| {
      assert init[..i] == blocks[..i];
      BlocksInOrder(init, chainId, a, i, k);
    }
  }

  lemma SnocTx(txs: seq<TxTrace>, i: nat, chainId: nat, a: Address)
    requires i < |txs|
    ensures TxEvents(txs[..i + 1], chainId, a) == TxEvents(txs[..i], chainId, a) + [TxEvent(txs[i], chainId, a)]
  {
  }

  lemma {:induction false} WithdrawalsRun(v: Captured, o: OverlayAccount, ws: seq<BlockWithdrawal>, a: Address)
    ensures Replay.Capture(v, o, WithdrawalEvents(ws, a)) == Ok(v)
    ensures Replay.OverlayAfter(o, WithdrawalEvents(ws, a)) == AfterWithdrawals(o, ws, a)
  {
    if ws != [] {
      var init, last := ws[..|ws| - 1], ws[|ws| - 1];
      WithdrawalsRun(v, o, init, a);
      if last.address == a {
        var w := [Replay.Withdrawal(SaturatingMul(last.amount, ONE_GWEI))];
        Replay.CaptureAppend(v, o, WithdrawalEvents(init, a), w);
        assert w[1..] == [];
      } else {
        assert WithdrawalEvents(ws, a) == WithdrawalEvents(init, a);
      }
    }
  }

  lemma OneEvent(v: Captured, o: OverlayAccount, e: Replay.Event)
    ensures Replay.Capture(v, o, [e]) == Replay.CaptureEvent(v, o, e)
    ensures Replay.OverlayAfter(o, [e]) == Replay.OverlayEvent(o, e)
  {
    assert [e][1..] == [];
  }

  /** One transaction: its requirements are captured before its writes enter the overlay. */
  method CaptureTx(builder: CaptureBuilder, overlay: Overlay, tx: TxTrace, chainId: nat)
    returns (r: Result<(), CaptureError>)
    requires builder.Valid() && CollisionFree(builder.keccak)
    modifies builder, overlay
    ensures builder.Valid()
    ensures r.Ok? ==> forall a :: OneStep(old(builder.View(a)), old(overlay.At(a)), TxEvent(tx, chainId, a),
                                          builder.View(a), overlay.At(a))
    ensures r.Err? ==>
              exists a :: Replay.CaptureEvent(old(builder.View(a)), old(overlay.At(a)), TxEvent(tx, chainId, a)).Err?
  {
    r := builder.CaptureBaseRequirements(tx.pre, overlay);
    if r.Err? {
      ghost var a :| a in tx.pre && CaptureEntry(old(builder.View(a)), overlay.At(a), tx.pre[a]) == Err(r.error);
      assert Replay.CaptureEvent(old(builder.View(a)), old(overlay.At(a)), TxEvent(tx, chainId, a)).Err?;
      return;
    }
    overlay.ApplyPost(tx.post);
    overlay.ApplyAuthorizationWrites(tx.authorizations, chainId);
    forall a
      ensures OneStep(old(builder.View(a)), old(overlay.At(a)), TxEvent(tx, chainId, a), builder.View(a), overlay.At(a))
    {
      TxStep(old(builder.View(a)), old(overlay.At(a)), tx, chainId, a, builder.View(a), overlay.At(a));
    }
  }

  lemma TxStep(v: Captured, o: OverlayAccount, tx: TxTrace, chainId: nat, a: Address, v1: Captured, o1: OverlayAccount)
    requires Ok(v1) == if a in tx.pre then CaptureEntry(v, o, tx.pre[a]) else Ok(v)
    requires var o2 := if a in tx.post then AfterPost(o, tx.post[a]) else o;
             o1 == if IsAuthority(tx.authorizations, chainId, a) then AfterAuthorization(o2) else o2
    ensures OneStep(v, o, TxEvent(tx, chainId, a), v1, o1)
  {
  }

  predicate OneStep(v: Captured, o: OverlayAccount, e: Replay.Event, v1: Captured, o1: OverlayAccount) {
    Replay.CaptureEvent(v, o, e) == Ok(v1) && Replay.OverlayEvent(o, e) == o1
  }

  predicate Steps(v: Captured, o: OverlayAccount, es: seq<Replay.Event>, v1: Captured, o1: OverlayAccount) {
    Replay.Capture(v, o, es) == Ok(v1) && Replay.OverlayAfter(o, es) == o1
  }

  lemma StepsSnoc(v: Captured, o: OverlayAccount, es: seq<Replay.Event>, v1: Captured, o1: OverlayAccount,
                  e: Replay.Event)
    requires Steps(v, o, es, v1, o1)
    ensures Replay.Capture(v, o, es + [e]) == Replay.CaptureEvent(v1, o1, e)
    ensures Replay.OverlayAfter(o, es + [e]) == Replay.OverlayEvent(o1, e)
  {
    Replay.CaptureAppend(v, o, es, [e]);
    OneEvent(v1, o1, e);
  }

  /** The transactions of one block. */
  method CaptureTxs(builder: CaptureBuilder, overlay: Overlay, txs: seq<TxTrace>, chainId: nat)
    returns (r: Result<(), CaptureError>)
    requires builder.Valid() && CollisionFree(builder.keccak)
    modifies builder, overlay
    ensures builder.Valid()
    ensures r.Ok? ==> forall a :: Steps(old(builder.View(a)), old(overlay.At(a)), TxEvents(txs, chainId, a),
                                        builder.View(a), overlay.At(a))
    ensures r.Err? ==>
              exists a :: Replay.Capture(old(builder.View(a)), old(overlay.At(a)), TxEvents(txs, chainId, a)).Err?
  {
    for i := 0 to |txs|
      invariant builder.Valid()
      invariant forall a :: Steps(old(builder.View(a)), old(overlay.At(a)), TxEvents(txs[..i], chainId, a),
                                  builder.View(a), overlay.At(a))
    {
      forall a
        ensures Replay.Capture(old(builder.View(a)), old(overlay.At(a)), TxEvents(txs[..i + 1], chainId, a)) ==
                Replay.CaptureEvent(builder.View(a), overlay.At(a), TxEvent(txs[i], chainId, a))
        ensures Replay.OverlayAfter(old(overlay.At(a)), TxEvents(txs[..i + 1], chainId, a)) ==
                Replay.OverlayEvent(overlay.At(a), TxEvent(txs[i], chainId, a))
      {
        SnocTx(txs, i, chainId, a);
        StepsSnoc(old(builder.View(a)), old(overlay.At(a)), TxEvents(txs[..i], chainId, a),
                  builder.View(a), overlay.At(a), TxEvent(txs[i], chainId, a));
      }
      r := CaptureTx(builder, overlay, txs[i], chainId);
      if r.Err? {
        ghost var a :|
          Replay.Capture(old(builder.View(a)), old(overlay.At(a)), TxEvents(txs[..i + 1], chainId, a)).Err?;
        FailsEarly(old(builder.View(a)), old(overlay.At(a)), txs, i + 1, chainId, a);
        return;
      }
    }
    assert txs[..|txs|] == txs;
    return Ok(());
  }

  lemma FailsEarly(v: Captured, o: OverlayAccount, txs: seq<TxTrace>, i: nat, chainId: nat, a: Address)
    requires i <= |txs| && Replay.Capture(v, o, TxEvents(txs[..i], chainId, a)).Err?
    ensures Replay.Capture(v, o, TxEvents(txs, chainId, a)).Err?
  {
    assert TxEvents(txs, chainId, a) == TxEvents(txs[..i], chainId, a) + TxEvents(txs[i..], chainId, a);
    Replay.CaptureAppend(v, o, TxEvents(txs[..i], chainId, a), TxEvents(txs[i..], chainId, a));
  }

  /** One block: its transactions, then its withdrawals. */
  method CaptureBlock(builder: CaptureBuilder, overlay: Overlay, block: Block, chainId: nat)
    returns (r: Result<(), CaptureError>)
    requires builder.Valid() && CollisionFree(builder.keccak)
    modifies builder, overlay
    ensures builder.Valid()
    ensures r.Ok? ==> forall a :: Steps(old(builder.View(a)), old(overlay.At(a)), BlockEvents(block, chainId, a),
                                        builder.View(a), overlay.At(a))
    ensures r.Err? ==>
              exists a :: Replay.Capture(old(builder.View(a)), old(overlay.At(a)), BlockEvents(block, chainId, a)).Err?
  {
    r := CaptureTxs(builder, overlay, block.txs, chainId);
    forall a {
      Replay.CaptureAppend(old(builder.View(a)), old(overlay.At(a)), TxEvents(block.txs, chainId, a),
                           WithdrawalEvents(block.withdrawals, a));
    }
    if r.Err? { return; }
    forall a {
      WithdrawalsRun(builder.View(a), overlay.At(a), block.withdrawals, a);
    }
    overlay.ApplyWithdrawals(block.withdrawals);
  }

  lemma HistorySnoc(blocks: seq<Block>, i: nat, chainId: nat, a: Address, v: Captured, o: OverlayAccount)
    requires i < |blocks| && Steps(UNTRACED, UNKNOWN, History(blocks[..i], chainId, a), v, o)
    ensures Replay.Capture(UNTRACED, UNKNOWN, History(blocks[..i + 1], chainId, a)) ==
            Replay.Capture(v, o, BlockEvents(blocks[i], chainId, a))
    ensures Replay.OverlayAfter(UNKNOWN, History(blocks[..i + 1], chainId, a)) ==
            Replay.OverlayAfter(o, BlockEvents(blocks[i], chainId, a))
  {
    assert blocks[..i + 1][..i] == blocks[..i];
    Replay.CaptureAppend(UNTRACED, UNKNOWN, History(blocks[..i], chainId, a), BlockEvents(blocks[i], chainId, a));
  }

  /** The accounts of the base are those with a recorded balance, nonce, code or slot. */
  ghost predicate BaseHoldsRecords(builder: CaptureBuilder)
    reads builder
  {
    forall a :: a in builder.accounts <==>
                || a in builder.capturedBalances || a in builder.capturedNonces || a in builder.capturedCodes
                || (a in builder.accounts && builder.accounts[a].storage != map[])
  }

  /** No pre-state entry of the range names `a` with more than zeros. */
  ghost predicate OnlyProbed(blocks: seq<Block>, a: Address) {
    forall i, j :: 0 <= i < |blocks| && 0 <= j < |blocks[i].txs| && a in blocks[i].txs[j].pre ==>
                     Replay.ZeroOnly(blocks[i].txs[j].pre[a])
  }

  lemma {:induction false} HistoryIsProbed(blocks: seq<Block>, chainId: nat, a: Address)
    requires OnlyProbed(blocks, a)
    ensures Replay.OnlyProbed(History(blocks, chainId, a))
  {
    if blocks != [] {
      var init, last := blocks[..|blocks| - 1], blocks[|blocks| - 1];
      assert OnlyProbed(init, a) by {
        assert forall i :: 0 <= i < |init| ==> init[i] == blocks[i];
      }
      HistoryIsProbed(init, chainId, a);
      WithdrawalsOnly(last.withdrawals, a);
    }
  }

  lemma {:induction false} WithdrawalsOnly(ws: seq<BlockWithdrawal>, a: Address)
    ensures forall i :: 0 <= i < |WithdrawalEvents(ws, a)| ==> WithdrawalEvents(ws, a)[i].Withdrawal?
  {
    if ws != [] { WithdrawalsOnly(ws[..|ws| - 1], a); }
  }

  /** Whatever the traces say: the base holds the recorded accounts, and none that was only probed. */
  lemma BaseOfRange(builder: CaptureBuilder, blocks: seq<Block>, chainId: nat)
    requires forall a :: Replay.Capture(UNTRACED, UNKNOWN, History(blocks, chainId, a)) == Ok(builder.View(a))
    ensures BaseHoldsRecords(builder)
    ensures forall a :: OnlyProbed(blocks, a) ==> a !in builder.accounts
  {
    forall a
      ensures Replay.OnlyRecordedInBase(builder.View(a))
      ensures OnlyProbed(blocks, a) ==> a !in builder.accounts
    {
      Replay.OnlyRecordsMaterialize(UNTRACED, UNKNOWN, History(blocks, chainId, a));
      if OnlyProbed(blocks, a) {
        HistoryIsProbed(blocks, chainId, a);
        Replay.ProbesRecordNothing(UNTRACED, UNKNOWN, History(blocks, chainId, a));
      }
    }
    forall a
      ensures a in builder.accounts <==>
              || a in builder.capturedBalances || a in builder.capturedNonces || a in builder.capturedCodes
              || (a in builder.accounts && builder.accounts[a].storage != map[])
    {
      assert Replay.OnlyRecordedInBase(builder.View(a));
    }
  }

  /** The fold of each address's history, told by that history. */
  lemma MeaningOfRange(blocks: seq<Block>, chainId: nat)
    ensures forall a :: Replay.Capture(UNTRACED, UNKNOWN, History(blocks, chainId, a)).Err? <==>
                        Meaning.Ever(History(blocks, chainId, a), Meaning.Underflows)
    ensures forall a, v :: Replay.Capture(UNTRACED, UNKNOWN, History(blocks, chainId, a)) == Ok(v) ==>
                             Meaning.Means(v, History(blocks, chainId, a))
  {
    forall a
      ensures Replay.Capture(UNTRACED, UNKNOWN, History(blocks, chainId, a)).Err? <==>
              Meaning.Ever(History(blocks, chainId, a), Meaning.Underflows)
      ensures Replay.Capture(UNTRACED, UNKNOWN, History(blocks, chainId, a)).Ok? ==>
                Meaning.Means(Replay.Capture(UNTRACED, UNKNOWN, History(blocks, chainId, a)).value,
                              History(blocks, chainId, a))
    {
      Meaning.CaptureMeans(History(blocks, chainId, a));
    }
  }

  /** The whole range, from empty ledgers. */
  method CaptureRange(blocks: seq<Block>, chainId: nat, keccak: Code -> Hash)
    returns (r: Result<(), CaptureError>, builder: CaptureBuilder)
    requires CollisionFree(keccak)
    ensures r.Ok? ==>
              forall a :: Replay.Capture(UNTRACED, UNKNOWN, History(blocks, chainId, a)) == Ok(builder.View(a))
    ensures r.Err? ==> exists a :: Replay.Capture(UNTRACED, UNKNOWN, History(blocks, chainId, a)).Err?
    ensures r.Ok? ==> BaseHoldsRecords(builder)
    ensures r.Ok? ==> forall a :: OnlyProbed(blocks, a) ==> a !in builder.accounts
    ensures r.Ok? ==> forall a :: Meaning.Means(builder.View(a), History(blocks, chainId, a))
    ensures r.Err? <==> exists a :: Meaning.Ever(History(blocks, chainId, a), Meaning.Underflows)
  {
    MeaningOfRange(blocks, chainId);
    builder := new CaptureBuilder(keccak);
    var overlay := new Overlay();
    for i := 0 to |blocks|
      invariant builder.Valid() && builder.keccak == keccak
      invariant forall a :: Steps(UNTRACED, UNKNOWN, History(blocks[..i], chainId, a), builder.View(a), overlay.At(a))
    {
      forall a
        ensures Replay.Capture(UNTRACED, UNKNOWN, History(blocks[..i + 1], chainId, a)) ==
                Replay.Capture(builder.View(a), overlay.At(a), BlockEvents(blocks[i], chainId, a))
        ensures Replay.OverlayAfter(UNKNOWN, History(blocks[..i + 1], chainId, a)) ==
                Replay.OverlayAfter(overlay.At(a), BlockEvents(blocks[i], chainId, a))
      {
        HistorySnoc(blocks, i, chainId, a, builder.View(a), overlay.At(a));
      }
      r := CaptureBlock(builder, overlay, blocks[i], chainId);
      if r.Err? {
        ghost var a :| Replay.Capture(UNTRACED, UNKNOWN, History(blocks[..i + 1], chainId, a)).Err?;
        RangeFailsEarly(blocks, i + 1, chainId, a);
        return;
      }
    }
    assert blocks[..|blocks|] == blocks;
    BaseOfRange(builder, blocks, chainId);
    r := Ok(());
  }

  lemma {:induction false} RangeFailsEarly(blocks: seq<Block>, i: nat, chainId: nat, a: Address)
    requires i <= |blocks| && Replay.Capture(UNTRACED, UNKNOWN, History(blocks[..i], chainId, a)).Err?
    ensures Replay.Capture(UNTRACED, UNKNOWN, History(blocks, chainId, a)).Err?
    decreases |blocks|
  {
    if i == |blocks| {
      assert blocks[..i] == blocks;
    } else {
      var init := blocks[..|blocks| - 1];
      assert init[..i] == blocks[..i];
      RangeFailsEarly(init, i, chainId, a);
      Replay.CaptureAppend(UNTRACED, UNKNOWN, History(init, chainId, a),
                           BlockEvents(blocks[|blocks| - 1], chainId, a));
    }
  }

  /** Every account's traces over the range are honest about it. */
  ghost predicate HonestRange(start: Address -> Replay.Account, blocks: seq<Block>, chainId: nat) {
    forall a :: start(a).balance <= U256_MAX && Replay.HonestRun(start(a), History(blocks, chainId, a))
  }

  /**
   Replay simulation for the whole range: capturing an honest range succeeds, and at every address
   the captured base replays to exactly what each transaction's pre-state trace saw, and records
   only values from the start of the range. The base holds the accounts with a record and no other.
   */
  method CaptureHonestRange(blocks: seq<Block>, chainId: nat, keccak: Code -> Hash,
                            ghost start: Address -> Replay.Account)
    returns (r: Result<(), CaptureError>, builder: CaptureBuilder)
    requires CollisionFree(keccak) && HonestRange(start, blocks, chainId)
    ensures r.Ok?
    ensures forall a :: Replay.ReadsMatch(Replay.Base(builder.View(a)), History(blocks, chainId, a))
    ensures forall a :: Replay.Recorded(start(a), builder.View(a)) && Replay.RecordsNonzero(builder.View(a))
    ensures BaseHoldsRecords(builder)
    ensures forall a :: OnlyProbed(blocks, a) ==> a !in builder.accounts
  {
    r, builder := CaptureRange(blocks, chainId, keccak);
    forall a
      ensures Replay.Capture(UNTRACED, UNKNOWN, History(blocks, chainId, a)).Ok?
      ensures Replay.ReadsMatch(Replay.Base(Replay.Capture(UNTRACED, UNKNOWN, History(blocks, chainId, a)).value),
                                History(blocks, chainId, a))
      ensures Replay.Recorded(start(a), Replay.Capture(UNTRACED, UNKNOWN, History(blocks, chainId, a)).value)
      ensures Replay.RecordsNonzero(Replay.Capture(UNTRACED, UNKNOWN, History(blocks, chainId, a)).value)
    {
      Replay.ReplaySeesTraces(start(a), History(blocks, chainId, a));
      Replay.RecordedIsRangeStart(start(a), History(blocks, chainId, a));
    }
  }
}
