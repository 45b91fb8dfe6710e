/**
 The capture ledger of one account: what the in-range overlay knows about it, what the capture
 builder has recorded for it, and how one transaction's pre-state entry is turned into recorded
 base state (crates/cli/src/capture/overlay.rs, crates/cli/src/capture/builder.rs).

 Both ledgers of the source are keyed by address and never mix two addresses, except through the
 shared code table, so the rules are stated per account here and lifted in `CaptureLedger`.
 */
module CaptureAccount {
  import opened Common

  type Slot = nat
  type Code = seq<nat>

  /** One account entry of a pre-state trace; a key the trace leaves out is `None`. */
  datatype PreAccount = PreAccount(
    balance: Option<nat>,
    nonce: Option<nat>,
    code: Option<Code>,
    storage: Option<map<Slot, nat>>,
    otherKey: bool)

  /** One account entry of a diff trace's `post`; only the presence of keys matters. */
  datatype PostAccount =
    | Deleted
    | Opaque
    | Changed(balance: bool, nonce: bool, code: bool, storage: Option<set<Slot>>)

  // ----- overlay ---------------------------------------------------------------------------

  datatype OverlayAccount = OverlayAccount(
    known: bool,
    deleted: bool,
    balance: bool,
    nonce: bool,
    code: bool,
    withdrawn: nat,
    slots: set<Slot>)
  {
    predicate Exists() { known && !deleted }

    predicate SuppliesBalance() { deleted || balance }

    predicate SuppliesNonce() { deleted || nonce }

    predicate SuppliesCode() { deleted || code }

    predicate SuppliesSlot(s: Slot) { deleted || s in slots }
  }

  const UNKNOWN := OverlayAccount(false, false, false, false, false, 0, {})

  function AfterPost(o: OverlayAccount, p: PostAccount): OverlayAccount {
    match p
    case Deleted => OverlayAccount(false, true, false, false, false, 0, {})
    case Opaque => o
    case Changed(balance, nonce, code, storage) =>
      var revived := balance || nonce || code || storage.Some?;
      OverlayAccount(
        o.known || revived, o.deleted && !revived,
        o.balance || balance, o.nonce || nonce, o.code || code,
        o.withdrawn,
        o.slots + (if storage.Some? then storage.value else {}))
  }

  function AfterAuthorization(o: OverlayAccount): OverlayAccount {
    o.(known := true, deleted := false, nonce := true, code := true)
  }

  function SaturatingAdd(x: nat, y: nat): nat {
    if x + y <= U256_MAX then x + y else U256_MAX
  }

  function AfterWithdrawal(o: OverlayAccount, amount: nat): OverlayAccount {
    o.(known := true, deleted := false, withdrawn := SaturatingAdd(o.withdrawn, amount))
  }

  // ----- builder ---------------------------------------------------------------------------

  /** Everything the capture builder holds about one account. */
  datatype Captured = Captured(
    materialized: bool,
    balance: nat,
    nonce: nat,
    code: Code,
    storage: map<Slot, nat>,
    hasBalance: bool,
    hasNonce: bool,
    hasCode: bool,
    absent: bool,
    zeroSlots: set<Slot>)

  const UNTRACED := Captured(false, 0, 0, [], map[], false, false, false, false, {})

  datatype CaptureError =
    | WithdrawalBalanceUnderflow(traced: nat, withdrawn: nat)
    | CodeHashCollision

  /** A zero-only observation: evidence of an absent account, not of an empty one. */
  predicate IsAbsentProbe(p: PreAccount) {
    && p.nonce.None? && p.code.None? && !p.otherKey
    && (p.balance.Some? ==> p.balance.value == 0)
    && (p.storage.Some? ==> forall s | s in p.storage.value :: p.storage.value[s] == 0)
  }

  function TracedSlots(p: PreAccount): map<Slot, nat> {
    if p.storage.Some? then p.storage.value else map[]
  }

  function CaptureBalance(v: Captured, o: OverlayAccount, p: PreAccount): Result<Captured, CaptureError> {
    if o.SuppliesBalance() || v.hasBalance || p.balance.None? then Ok(v)
    else
      var traced := p.balance.value;
      if o.Exists() && traced == 0 then Ok(v)
      else if traced < o.withdrawn then Err(WithdrawalBalanceUnderflow(traced, o.withdrawn))
      else if traced == o.withdrawn && o.withdrawn != 0 then Ok(v)
      else Ok(v.(materialized := true, balance := traced - o.withdrawn, hasBalance := true))
  }

  function CaptureNonce(v: Captured, o: OverlayAccount, p: PreAccount): Captured {
    if o.SuppliesNonce() || v.hasNonce || p.nonce.None? then v
    else v.(materialized := true, nonce := p.nonce.value, hasNonce := true)
  }

  function CaptureCode(v: Captured, o: OverlayAccount, p: PreAccount): Captured {
    if o.SuppliesCode() || v.hasCode || p.code.None? then v
    else v.(materialized := true, code := p.code.value, hasCode := true)
  }

  /** The slots of an entry that become base storage, and those noted as observed zero. */
  function NewSlots(v: Captured, o: OverlayAccount, p: PreAccount): map<Slot, nat> {
    var traced := TracedSlots(p);
    map s | s in traced && !o.SuppliesSlot(s) && s !in v.zeroSlots && traced[s] != 0 && s !in v.storage
      :: traced[s]
  }

  function NewZeroSlots(v: Captured, o: OverlayAccount, p: PreAccount): set<Slot> {
    var traced := TracedSlots(p);
    set s | s in traced && !o.SuppliesSlot(s) && traced[s] == 0
  }

  /** Whether some entry of the loop reaches `account_state`, which materializes the account. */
  predicate TouchesStorage(v: Captured, o: OverlayAccount, p: PreAccount) {
    var traced := TracedSlots(p);
    exists s :: s in traced && !o.SuppliesSlot(s) && s !in v.zeroSlots && traced[s] != 0
  }

  function CaptureStorage(v: Captured, o: OverlayAccount, p: PreAccount): Captured {
    v.(materialized := v.materialized || TouchesStorage(v, o, p),
       storage := v.storage + NewSlots(v, o, p),
       zeroSlots := v.zeroSlots + NewZeroSlots(v, o, p))
  }

  function CaptureFields(v: Captured, o: OverlayAccount, p: PreAccount): Result<Captured, CaptureError> {
    match CaptureBalance(v, o, p)
    case Err(e) => Err(e)
    case Ok(v1) => Ok(CaptureCode(CaptureNonce(v1, o, p), o, p))
  }

  function CaptureEntry(v: Captured, o: OverlayAccount, p: PreAccount): Result<Captured, CaptureError> {
    if IsAbsentProbe(p) then
      if o.Exists() then Ok(v)
      else Ok(v.(absent := true, zeroSlots := v.zeroSlots + TracedSlots(p).Keys))
    else if v.absent && !o.Exists() then Ok(v)
    else
      match CaptureFields(v, o, p)
      case Err(e) => Err(e)
      case Ok(v1) => Ok(CaptureStorage(v1, o, p))
  }
}
