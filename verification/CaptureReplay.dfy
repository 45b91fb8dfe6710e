/**
 The replay simulation for one account: replaying the same writes from the captured base (zero
 elsewhere) shows every transaction exactly the values its pre-state trace saw.

 An event carries both what the capture reads (traces, authorizations, withdrawals) and what the
 chain really did (`effect`), so that honesty of the traces is an explicit hypothesis.
 */
module CaptureReplay {
  import opened Common
  import opened CaptureAccount

  // ----- the chain ----------------------------------------------------------------------------

  datatype Account = Account(balance: nat, nonce: nat, code: Code, storage: map<Slot, nat>)
  {
    function Slot(s: Slot): nat { if s in storage then storage[s] else 0 }

    ghost predicate NoStorage() { forall s :: Slot(s) == 0 }

    ghost predicate Empty() { balance == 0 && nonce == 0 && code == [] && NoStorage() }
  }

  /** What a transaction really does to the account: destroy it, or write absolute values. */
  datatype Effect =
    | Wipe
    | Write(balance: Option<nat>, nonce: Option<nat>, code: Option<Code>, storage: map<Slot, nat>)

  datatype Event =
    | Tx(pre: Option<PreAccount>, post: Option<PostAccount>, authorized: bool, effect: Effect)
    | Withdrawal(amount: nat)

  function Or<T>(o: Option<T>, d: T): T { if o.Some? then o.value else d }

  function Step(w: Account, e: Event): Account {
    match e
    case Withdrawal(amount) => w.(balance := w.balance + amount)
    case Tx(_, _, _, Wipe) => Account(0, 0, [], map[])
    case Tx(_, _, _, Write(balance, nonce, code, storage)) =>
      Account(Or(balance, w.balance), Or(nonce, w.nonce), Or(code, w.code), w.storage + storage)
  }

  /** The values of a pre-state entry are the account's values. */
  predicate Sees(w: Account, p: PreAccount) {
    && (p.balance.Some? ==> w.balance == p.balance.value)
    && (p.nonce.Some? ==> w.nonce == p.nonce.value)
    && (p.code.Some? ==> w.code == p.code.value)
    && (forall s | s in TracedSlots(p) :: w.Slot(s) == TracedSlots(p)[s])
  }

  /** Running `es` from `w`, every transaction sees what its pre-state trace recorded. */
  ghost predicate ReadsMatch(w: Account, es: seq<Event>)
    decreases |es|
  {
    es != [] ==>
      && (es[0].Tx? && es[0].pre.Some? ==> Sees(w, es[0].pre.value))
      && ReadsMatch(Step(w, es[0]), es[1..])
  }

  // ----- honest traces ------------------------------------------------------------------------

  predicate PostBalance(e: Event) requires e.Tx? {
    e.post.Some? && e.post.value.Changed? && e.post.value.balance
  }

  predicate MarksNonce(e: Event) requires e.Tx? {
    e.authorized || (e.post.Some? && e.post.value.Changed? && e.post.value.nonce)
  }

  predicate MarksCode(e: Event) requires e.Tx? {
    e.authorized || (e.post.Some? && e.post.value.Changed? && e.post.value.code)
  }

  function MarkedSlots(e: Event): set<Slot> requires e.Tx? {
    if e.post.Some? && e.post.value.Changed? && e.post.value.storage.Some?
    then e.post.value.storage.value else {}
  }

  function Observed(e: Event): PreAccount requires e.Tx? {
    if e.pre.Some? then e.pre.value else PreAccount(None, None, None, None, false)
  }

  /**
   Honesty about one key: a change is marked unless it sets the key to zero, a rewrite with the
   same value was observed, and a marked key was observed, really written, or still zero.
   */
  predicate HonestKey(zero: bool, nextZero: bool, changed: bool, written: bool, observed: bool, marked: bool) {
    && (changed && !nextZero ==> marked)
    && (written && !changed ==> observed)
    && (marked ==> observed || written || zero)
  }

  /** A balance change is always marked, also a change to zero. */
  predicate HonestBalance(w: Account, e: Event) requires e.Tx? && e.effect.Write? {
    var changed := Or(e.effect.balance, w.balance) != w.balance;
    && HonestKey(w.balance == 0, false, changed, e.effect.balance.Some?, Observed(e).balance.Some?, PostBalance(e))
    && Or(e.effect.balance, w.balance) <= U256_MAX
  }

  predicate HonestNonce(w: Account, e: Event) requires e.Tx? && e.effect.Write? {
    var next := Or(e.effect.nonce, w.nonce);
    HonestKey(w.nonce == 0, next == 0, next != w.nonce, e.effect.nonce.Some?, Observed(e).nonce.Some?, MarksNonce(e))
  }

  predicate HonestCode(w: Account, e: Event) requires e.Tx? && e.effect.Write? {
    var next := Or(e.effect.code, w.code);
    HonestKey(w.code == [], next == [], next != w.code, e.effect.code.Some?, Observed(e).code.Some?, MarksCode(e))
  }

  predicate HonestSlot(w: Account, e: Event, s: Slot) requires e.Tx? && e.effect.Write? {
    var written := s in e.effect.storage;
    var next := if written then e.effect.storage[s] else w.Slot(s);
    HonestKey(w.Slot(s) == 0, next == 0, next != w.Slot(s), written, s in TracedSlots(Observed(e)), s in MarkedSlots(e))
  }

  /** Neither a nonce nor code nor a foreign key, and no balance and no slot other than zero. */
  predicate ZeroOnly(p: PreAccount) {
    && p.nonce == None && p.code == None && !p.otherKey
    && (p.balance == None || p.balance == Some(0))
    && (p.storage == None || forall s | s in p.storage.value :: p.storage.value[s] == 0)
  }

  /** An absent probe is an entry that holds nothing but zeros. */
  lemma ProbeIsZeroOnly(p: PreAccount)
    ensures IsAbsentProbe(p) <==> ZeroOnly(p)
  {
  }

  /**
   The hypotheses about one event at the account's true value `w`: the pre-state entry holds true
   values, a zero-only entry means an account without any state, the post trace reports exactly
   the deletions, and each key is reported honestly.
   */
  ghost predicate Honest(w: Account, e: Event) {
    match e
    case Withdrawal(amount) => w.balance + amount <= U256_MAX
    case Tx(pre, post, _, effect) =>
      && (pre.Some? ==> Sees(w, pre.value) && (ZeroOnly(pre.value) ==> w.Empty()))
      && (effect.Wipe? <==> post == Some(Deleted))
      && (effect.Write? ==>
            && HonestBalance(w, e) && HonestNonce(w, e) && HonestCode(w, e)
            && (forall s :: HonestSlot(w, e, s)))
  }

  ghost predicate HonestRun(w: Account, es: seq<Event>)
    decreases |es|
  {
    es != [] ==> Honest(w, es[0]) && HonestRun(Step(w, es[0]), es[1..])
  }

  // ----- the capture --------------------------------------------------------------------------

  function CaptureEvent(v: Captured, o: OverlayAccount, e: Event): Result<Captured, CaptureError> {
    if e.Tx? && e.pre.Some? then CaptureEntry(v, o, e.pre.value) else Ok(v)
  }

  function OverlayEvent(o: OverlayAccount, e: Event): OverlayAccount {
    match e
    case Withdrawal(amount) => AfterWithdrawal(o, amount)
    case Tx(_, post, authorized, _) =>
      var o1 := if post.Some? then AfterPost(o, post.value) else o;
      if authorized then AfterAuthorization(o1) else o1
  }

  /** The builder's account after the whole run: capture first, then apply, event by event. */
  function Capture(v: Captured, o: OverlayAccount, es: seq<Event>): Result<Captured, CaptureError>
    decreases |es|
  {
    if es == [] then Ok(v)
    else
      match CaptureEvent(v, o, es[0])
      case Err(e) => Err(e)
      case Ok(v1) => Capture(v1, OverlayEvent(o, es[0]), es[1..])
  }

  function OverlayAfter(o: OverlayAccount, es: seq<Event>): OverlayAccount
    decreases |es|
  {
    if es == [] then o else OverlayAfter(OverlayEvent(o, es[0]), es[1..])
  }

  /** A capture can be continued from where it stopped. */
  lemma {:induction false} CaptureAppend(v: Captured, o: OverlayAccount, xs: seq<Event>, ys: seq<Event>)
    ensures Capture(v, o, xs + ys) ==
            match Capture(v, o, xs) case Ok(v1) => Capture(v1, OverlayAfter(o, xs), ys) case Err(e) => Err(e)
    ensures OverlayAfter(o, xs + ys) == OverlayAfter(OverlayAfter(o, xs), ys)
    decreases |xs|
  {
    if xs == [] {
      assert xs + ys == ys;
    } else {
      assert (xs + ys)[1..] == xs[1..] + ys;
      var o1 := OverlayEvent(o, xs[0]);
      match CaptureEvent(v, o, xs[0])
      case Ok(v1) => CaptureAppend(v1, o1, xs[1..], ys);
      case Err(_) => CaptureAppend(v, o1, xs[1..], ys);
    }
  }

  /** The base account a replay starts from: recorded values, zero elsewhere. */
  function Base(v: Captured): Account { Account(v.balance, v.nonce, v.code, v.storage) }

  // ----- the invariant ------------------------------------------------------------------------

  /** The keys observed, written or marked so far. */
  datatype Touched = Touched(balance: bool, nonce: bool, code: bool, allSlots: bool, slots: set<Slot>)
  {
    predicate Has(s: Slot) { allSlots || s in slots }
  }

  const UNTOUCHED := Touched(false, false, false, false, {})
  const ALL_TOUCHED := Touched(true, true, true, true, {})

  /**
   An untouched key is unrecorded and not supplied by the overlay. A touched key that is neither
   recorded nor supplied is zero, up to withdrawals.
   */
  ghost predicate Inv(v: Captured, o: OverlayAccount, w: Account, t: Touched) {
    && BalanceInv(v.hasBalance, v.balance, o, w.balance, t.balance)
    && FieldInv(v.hasNonce, v.nonce == 0, o.deleted, o.nonce, w.nonce == 0, t.nonce)
    && FieldInv(v.hasCode, v.code == [], o.deleted, o.code, w.code == [], t.code)
    && SlotsInv(v, o, w, t)
    && (v.absent && !o.Exists() ==> w.Empty() && t.balance && t.nonce && t.code && t.allSlots)
    && w.balance <= U256_MAX
  }

  predicate BalanceInv(has: bool, recorded: nat, o: OverlayAccount, balance: nat, touched: bool) {
    && (!has ==> recorded == 0)
    && (o.deleted ==> balance == 0 && o.withdrawn == 0)
    && (!o.SuppliesBalance() ==> o.withdrawn <= balance)
    && if touched then !has && !o.SuppliesBalance() ==> balance == o.withdrawn
       else !has && !o.SuppliesBalance()
  }

  predicate FieldInv(has: bool, recordedZero: bool, deleted: bool, supplied: bool, zero: bool, touched: bool) {
    && (!has ==> recordedZero)
    && (deleted ==> zero)
    && if touched then !has && !supplied && !deleted ==> zero
       else !has && !supplied && !deleted
  }

  ghost predicate SlotsInv(v: Captured, o: OverlayAccount, w: Account, t: Touched) {
    forall s :: SlotInv(v, o, w, t, s)
  }

  predicate SlotInv(v: Captured, o: OverlayAccount, w: Account, t: Touched, s: Slot) {
    && (s in v.zeroSlots ==> t.Has(s))
    && (o.deleted ==> w.Slot(s) == 0)
    && if t.Has(s) then s !in v.storage && !o.SuppliesSlot(s) ==> w.Slot(s) == 0
       else s !in v.storage && !o.SuppliesSlot(s)
  }

  /** `r` is a replay state that started from base `b` and followed the same events as `w`. */
  ghost predicate Follows(b: Account, r: Account, o: OverlayAccount, w: Account, t: Touched) {
    && r.balance == (if t.balance then w.balance else b.balance + o.withdrawn)
    && r.nonce == (if t.nonce then w.nonce else b.nonce)
    && r.code == (if t.code then w.code else b.code)
    && (forall s :: r.Slot(s) == if t.Has(s) then w.Slot(s) else b.Slot(s))
  }

  /** Two bases agree on every touched key. */
  ghost predicate AgreeOn(t: Touched, b: Account, c: Account) {
    && (t.balance ==> b.balance == c.balance)
    && (t.nonce ==> b.nonce == c.nonce)
    && (t.code ==> b.code == c.code)
    && (forall s :: t.Has(s) ==> b.Slot(s) == c.Slot(s))
  }

  ghost predicate Within(t: Touched, u: Touched) {
    && (t.balance ==> u.balance) && (t.nonce ==> u.nonce) && (t.code ==> u.code)
    && (forall s :: t.Has(s) ==> u.Has(s))
  }

  // ----- one event ----------------------------------------------------------------------------

  /** The keys an observation touches. */
  function Observe(t: Touched, e: Event): Touched {
    if !(e.Tx? && e.pre.Some?) then t
    else if IsAbsentProbe(e.pre.value) then ALL_TOUCHED
    else See(t, e.pre.value)
  }

  function See(t: Touched, p: PreAccount): Touched {
    Touched(t.balance || p.balance.Some?, t.nonce || p.nonce.Some?, t.code || p.code.Some?,
            t.allSlots, t.slots + TracedSlots(p).Keys)
  }

  /** The keys an event's writes and marks touch. */
  function Affect(t: Touched, e: Event): Touched {
    match e
    case Withdrawal(_) => t
    case Tx(_, _, _, Wipe) => ALL_TOUCHED
    case Tx(_, _, _, Write(balance, nonce, code, storage)) =>
      Touched(t.balance || balance.Some? || PostBalance(e), t.nonce || nonce.Some? || MarksNonce(e),
              t.code || code.Some? || MarksCode(e), t.allSlots, t.slots + storage.Keys + MarkedSlots(e))
  }

  /** The base is settled at every observed key: a replay that reaches this point sees `w` there. */
  ghost predicate Settled(v: Captured, o: OverlayAccount, w: Account, t: Touched, u: Touched) {
    && (u.balance && !t.balance ==> v.balance + o.withdrawn == w.balance)
    && (u.nonce && !t.nonce ==> v.nonce == w.nonce)
    && (u.code && !t.code ==> v.code == w.code)
    && (forall s :: u.Has(s) && !t.Has(s) ==> Base(v).Slot(s) == w.Slot(s))
  }

  lemma BalanceStep(v: Captured, o: OverlayAccount, balance: nat, touched: bool, p: PreAccount)
    requires BalanceInv(v.hasBalance, v.balance, o, balance, touched)
    requires p.balance.Some? ==> balance == p.balance.value
    ensures CaptureBalance(v, o, p).Ok?
    ensures var v1 := CaptureBalance(v, o, p).value;
            && BalanceInv(v1.hasBalance, v1.balance, o, balance, touched || p.balance.Some?)
            && (touched ==> v1.balance == v.balance)
            && (p.balance.Some? && !touched ==> v1.balance + o.withdrawn == balance)
            && v1 == v.(balance := v1.balance, hasBalance := v1.hasBalance, materialized := v1.materialized)
  {
  }

  lemma SlotStep(v: Captured, o: OverlayAccount, w: Account, t: Touched, p: PreAccount, s: Slot)
    requires SlotInv(v, o, w, t, s) && (s in TracedSlots(p) ==> w.Slot(s) == TracedSlots(p)[s])
    ensures var v1 := CaptureStorage(v, o, p); var u := t.(slots := t.slots + TracedSlots(p).Keys);
            && SlotInv(v1, o, w, u, s)
            && (t.Has(s) ==> Base(v1).Slot(s) == Base(v).Slot(s))
            && (u.Has(s) && !t.Has(s) ==> Base(v1).Slot(s) == w.Slot(s))
  {
    var v1 := CaptureStorage(v, o, p);
    if s in TracedSlots(p) && s !in v.storage && !o.SuppliesSlot(s) && TracedSlots(p)[s] != 0 {
      assert !t.Has(s);
      assert s in NewSlots(v, o, p);
    }
  }

  /** What capturing an observation must establish. */
  ghost predicate Captures(v: Captured, v1: Captured, o: OverlayAccount, w: Account, t: Touched, u: Touched) {
    Inv(v1, o, w, u) && AgreeOn(t, Base(v1), Base(v)) && Settled(v1, o, w, t, u) && Within(t, u)
  }

  lemma ProbeStep(v: Captured, o: OverlayAccount, w: Account, t: Touched, p: PreAccount)
    requires Inv(v, o, w, t) && w.Empty() && IsAbsentProbe(p)
    ensures Captures(v, CaptureEntry(v, o, p).value, o, w, t, ALL_TOUCHED)
  {
    var v1 := CaptureEntry(v, o, p).value;
    forall s
      ensures SlotInv(v1, o, w, ALL_TOUCHED, s)
      ensures !t.Has(s) ==> Base(v1).Slot(s) == w.Slot(s)
    {
      assert SlotInv(v, o, w, t, s) && w.Slot(s) == 0;
    }
  }

  lemma SkipStep(v: Captured, o: OverlayAccount, w: Account, t: Touched, p: PreAccount)
    requires Inv(v, o, w, t) && v.absent && !o.Exists() && !IsAbsentProbe(p)
    ensures Captures(v, v, o, w, t, See(t, p))
  {
    forall s ensures SlotInv(v, o, w, See(t, p), s) {
      assert SlotInv(v, o, w, t, s);
    }
  }

  /** The fields of an account are captured independently of each other. */
  lemma FieldsStep(v: Captured, o: OverlayAccount, w: Account, t: Touched, p: PreAccount)
    requires BalanceInv(v.hasBalance, v.balance, o, w.balance, t.balance)
    requires FieldInv(v.hasNonce, v.nonce == 0, o.deleted, o.nonce, w.nonce == 0, t.nonce)
    requires FieldInv(v.hasCode, v.code == [], o.deleted, o.code, w.code == [], t.code)
    requires p.balance.Some? ==> w.balance == p.balance.value
    requires p.nonce.Some? ==> w.nonce == p.nonce.value
    requires p.code.Some? ==> w.code == p.code.value
    ensures CaptureFields(v, o, p).Ok?
    ensures var v1 := CaptureFields(v, o, p).value;
            && BalanceInv(v1.hasBalance, v1.balance, o, w.balance, t.balance || p.balance.Some?)
            && FieldInv(v1.hasNonce, v1.nonce == 0, o.deleted, o.nonce, w.nonce == 0, t.nonce || p.nonce.Some?)
            && FieldInv(v1.hasCode, v1.code == [], o.deleted, o.code, w.code == [], t.code || p.code.Some?)
            && (if t.balance then v1.balance == v.balance
                else p.balance.Some? ==> v1.balance + o.withdrawn == w.balance)
            && (if t.nonce then v1.nonce == v.nonce else p.nonce.Some? ==> v1.nonce == w.nonce)
            && (if t.code then v1.code == v.code else p.code.Some? ==> v1.code == w.code)
            && v1.absent == v.absent && v1.storage == v.storage && v1.zeroSlots == v.zeroSlots
  {
    BalanceStep(v, o, w.balance, t.balance, p);
  }

  lemma StorageStep(v: Captured, o: OverlayAccount, w: Account, t: Touched, u: Touched, p: PreAccount)
    requires SlotsInv(v, o, w, t)
    requires forall s | s in TracedSlots(p) :: w.Slot(s) == TracedSlots(p)[s]
    requires u.allSlots == t.allSlots && u.slots == t.slots + TracedSlots(p).Keys
    ensures var v1 := CaptureStorage(v, o, p);
            && SlotsInv(v1, o, w, u)
            && (forall s :: t.Has(s) ==> Base(v1).Slot(s) == Base(v).Slot(s))
            && (forall s :: u.Has(s) && !t.Has(s) ==> Base(v1).Slot(s) == w.Slot(s))
  {
    var v1 := CaptureStorage(v, o, p);
    forall s
      ensures SlotInv(v1, o, w, u, s)
      ensures t.Has(s) ==> Base(v1).Slot(s) == Base(v).Slot(s)
      ensures u.Has(s) && !t.Has(s) ==> Base(v1).Slot(s) == w.Slot(s)
    {
      assert SlotInv(v, o, w, t, s);
      SlotStep(v, o, w, t, p, s);
    }
  }

  lemma RecordInv(v: Captured, o: OverlayAccount, w: Account, t: Touched, p: PreAccount)
    requires Inv(v, o, w, t) && !(v.absent && !o.Exists()) && !IsAbsentProbe(p) && Sees(w, p)
    ensures CaptureEntry(v, o, p).Ok?
    ensures Inv(CaptureEntry(v, o, p).value, o, w, See(t, p))
  {
    FieldsStep(v, o, w, t, p);
    var v1 := CaptureFields(v, o, p).value;
    SlotsFrame(v, v1, o, w, t);
    StorageStep(v1, o, w, t, See(t, p), p);
  }

  lemma RecordBase(v: Captured, o: OverlayAccount, w: Account, t: Touched, p: PreAccount)
    requires Inv(v, o, w, t) && !(v.absent && !o.Exists()) && !IsAbsentProbe(p) && Sees(w, p)
    requires CaptureEntry(v, o, p).Ok?
    ensures var v1 := CaptureEntry(v, o, p).value;
            AgreeOn(t, Base(v1), Base(v)) && Settled(v1, o, w, t, See(t, p))
  {
    FieldsStep(v, o, w, t, p);
    var v1 := CaptureFields(v, o, p).value;
    SlotsFrame(v, v1, o, w, t);
    StorageStep(v1, o, w, t, See(t, p), p);
  }

  lemma SlotsFrame(v: Captured, v1: Captured, o: OverlayAccount, w: Account, t: Touched)
    requires SlotsInv(v, o, w, t) && v1.storage == v.storage && v1.zeroSlots == v.zeroSlots
    ensures SlotsInv(v1, o, w, t)
  {
    forall s ensures SlotInv(v1, o, w, t, s) {
      assert SlotInv(v, o, w, t, s);
    }
  }

  /** Capturing an entry never fails, keeps the base on touched keys and settles the observed rest. */
  lemma EntryStep(v: Captured, o: OverlayAccount, w: Account, t: Touched, p: PreAccount)
    requires Inv(v, o, w, t) && Sees(w, p) && (IsAbsentProbe(p) ==> w.Empty())
    ensures CaptureEntry(v, o, p).Ok?
    ensures Captures(v, CaptureEntry(v, o, p).value, o, w, t, if IsAbsentProbe(p) then ALL_TOUCHED else See(t, p))
  {
    if IsAbsentProbe(p) {
      ProbeStep(v, o, w, t, p);
    } else if v.absent && !o.Exists() {
      SkipStep(v, o, w, t, p);
    } else {
      RecordInv(v, o, w, t, p);
      RecordBase(v, o, w, t, p);
    }
  }

  lemma CaptureStep(v: Captured, o: OverlayAccount, w: Account, t: Touched, e: Event)
    requires Inv(v, o, w, t) && Honest(w, e)
    ensures CaptureEvent(v, o, e).Ok?
    ensures Captures(v, CaptureEvent(v, o, e).value, o, w, t, Observe(t, e))
  {
    if e.Tx? && e.pre.Some? {
      ProbeIsZeroOnly(e.pre.value);
      EntryStep(v, o, w, t, e.pre.value);
    }
  }

  lemma OverlayBalance(v: Captured, o: OverlayAccount, w: Account, t: Touched, e: Event)
    requires BalanceInv(v.hasBalance, v.balance, o, w.balance, t.balance)
    requires match e case Withdrawal(amount) => w.balance + amount <= U256_MAX
                     case Tx(_, post, _, Wipe) => post == Some(Deleted)
                     case _ => e.post != Some(Deleted) && HonestBalance(w, e)
    requires t == Observe(t, e)
    ensures BalanceInv(v.hasBalance, v.balance, OverlayEvent(o, e), Step(w, e).balance, Affect(t, e).balance)
  {
  }

  lemma OverlayNonce(v: Captured, o: OverlayAccount, w: Account, t: Touched, e: Event)
    requires FieldInv(v.hasNonce, v.nonce == 0, o.deleted, o.nonce, w.nonce == 0, t.nonce)
    requires e.Tx? ==> (e.effect.Wipe? <==> e.post == Some(Deleted)) && (e.effect.Write? ==> HonestNonce(w, e))
    requires t == Observe(t, e)
    ensures var o1, w1 := OverlayEvent(o, e), Step(w, e);
            FieldInv(v.hasNonce, v.nonce == 0, o1.deleted, o1.nonce, w1.nonce == 0, Affect(t, e).nonce)
  {
  }

  lemma OverlayCode(v: Captured, o: OverlayAccount, w: Account, t: Touched, e: Event)
    requires FieldInv(v.hasCode, v.code == [], o.deleted, o.code, w.code == [], t.code)
    requires e.Tx? ==> (e.effect.Wipe? <==> e.post == Some(Deleted)) && (e.effect.Write? ==> HonestCode(w, e))
    requires t == Observe(t, e)
    ensures var o1, w1 := OverlayEvent(o, e), Step(w, e);
            FieldInv(v.hasCode, v.code == [], o1.deleted, o1.code, w1.code == [], Affect(t, e).code)
  {
  }

  lemma OverlaySlot(v: Captured, o: OverlayAccount, w: Account, t: Touched, e: Event, s: Slot)
    requires SlotInv(v, o, w, t, s)
    requires e.Tx? ==> (e.effect.Wipe? <==> e.post == Some(Deleted)) && (e.effect.Write? ==> HonestSlot(w, e, s))
    requires e.Tx? && e.pre.Some? ==> forall s' | s' in TracedSlots(e.pre.value) :: t.Has(s')
    ensures SlotInv(v, OverlayEvent(o, e), Step(w, e), Affect(t, e), s)
  {
  }

  /** While an absent account stays unknown to the overlay, nothing but zero writes reach it. */
  lemma OverlayAbsent(o: OverlayAccount, w: Account, t: Touched, e: Event)
    requires Honest(w, e) && !OverlayEvent(o, e).Exists()
    requires !o.Exists() ==> w.Empty() && t.balance && t.nonce && t.code && t.allSlots
    ensures var u := Affect(t, e); Step(w, e).Empty() && u.balance && u.nonce && u.code && u.allSlots
  {
    if e.effect.Write? {
      forall s ensures Step(w, e).Slot(s) == 0 {
        assert HonestSlot(w, e, s);
      }
    }
  }

  /** Applying an event to the overlay keeps the invariant for the account it leads to. */
  lemma OverlayStep(v: Captured, o: OverlayAccount, w: Account, t: Touched, e: Event)
    requires Inv(v, o, w, t) && Honest(w, e) && t == Observe(t, e)
    ensures Inv(v, OverlayEvent(o, e), Step(w, e), Affect(t, e))
  {
    OverlayBalance(v, o, w, t, e);
    OverlayNonce(v, o, w, t, e);
    OverlayCode(v, o, w, t, e);
    var o1, w1, u := OverlayEvent(o, e), Step(w, e), Affect(t, e);
    forall s ensures SlotInv(v, o1, w1, u, s) {
      assert SlotInv(v, o, w, t, s);
      assert e.Tx? && e.effect.Write? ==> HonestSlot(w, e, s);
      OverlaySlot(v, o, w, t, e, s);
    }
    if v.absent && !o1.Exists() {
      OverlayAbsent(o, w, t, e);
    }
  }

  // ----- the replay -----------------------------------------------------------------------------

  /** Once the base is settled on the observed keys, a replay sees the true values there. */
  lemma FollowsObserved(b: Account, r: Account, v: Captured, o: OverlayAccount, w: Account, t: Touched, u: Touched)
    requires Follows(b, r, o, w, t) && Settled(v, o, w, t, u) && Within(t, u) && AgreeOn(u, b, Base(v))
    ensures Follows(b, r, o, w, u)
  {
  }

  lemma SeesObserved(b: Account, r: Account, o: OverlayAccount, w: Account, t: Touched, p: PreAccount)
    requires Follows(b, r, o, w, t) && Sees(w, p) && (IsAbsentProbe(p) ==> w.Empty() && t == ALL_TOUCHED)
    requires t == See(t, p) || t == ALL_TOUCHED
    ensures Sees(r, p)
  {
  }

  /** Replaying an event's writes keeps the replay on the true values at every touched key. */
  lemma FollowsStep(b: Account, r: Account, v: Captured, o: OverlayAccount, w: Account, t: Touched, e: Event)
    requires Inv(v, o, w, t) && Honest(w, e) && t == Observe(t, e)
    requires Follows(b, r, o, w, t) && AgreeOn(Affect(t, e), b, Base(v))
    ensures Follows(b, Step(r, e), OverlayEvent(o, e), Step(w, e), Affect(t, e))
  {
    var r1, w1, u := Step(r, e), Step(w, e), Affect(t, e);
    forall s ensures r1.Slot(s) == if u.Has(s) then w1.Slot(s) else b.Slot(s) {
      assert SlotInv(v, o, w, t, s);
      assert e.Tx? && e.effect.Write? ==> HonestSlot(w, e, s);
    }
  }

  /** One event: the capture goes through, keeps the base on touched keys, and keeps the invariant. */
  lemma RunStep(v: Captured, o: OverlayAccount, w: Account, t: Touched, e: Event)
    requires Inv(v, o, w, t) && Honest(w, e)
    ensures CaptureEvent(v, o, e).Ok?
    ensures AgreeOn(t, Base(CaptureEvent(v, o, e).value), Base(v))
    ensures Inv(CaptureEvent(v, o, e).value, OverlayEvent(o, e), Step(w, e), Affect(Observe(t, e), e))
    ensures Within(t, Affect(Observe(t, e), e))
  {
    CaptureStep(v, o, w, t, e);
    var u := Observe(t, e);
    assert u == Observe(u, e);
    OverlayStep(CaptureEvent(v, o, e).value, o, w, u, e);
  }

  /** One event of a replay whose base agrees with the capture on every key touched so far. */
  lemma ReadStep(b: Account, r: Account, v: Captured, o: OverlayAccount, w: Account, t: Touched, e: Event)
    requires Inv(v, o, w, t) && Honest(w, e) && Follows(b, r, o, w, t)
    requires CaptureEvent(v, o, e).Ok?
    requires AgreeOn(Affect(Observe(t, e), e), b, Base(CaptureEvent(v, o, e).value))
    ensures e.Tx? && e.pre.Some? ==> Sees(r, e.pre.value)
    ensures Follows(b, Step(r, e), OverlayEvent(o, e), Step(w, e), Affect(Observe(t, e), e))
  {
    CaptureStep(v, o, w, t, e);
    var v1, u := CaptureEvent(v, o, e).value, Observe(t, e);
    assert u == Observe(u, e);
    assert AgreeOn(u, b, Base(v1));
    FollowsObserved(b, r, v1, o, w, t, u);
    if e.Tx? && e.pre.Some? {
      ProbeIsZeroOnly(e.pre.value);
      SeesObserved(b, r, o, w, u, e.pre.value);
    }
    FollowsStep(b, r, v1, o, w, u, e);
  }

  lemma AgreeOnTrans(t: Touched, u: Touched, a: Account, b: Account, c: Account)
    requires AgreeOn(u, a, b) && AgreeOn(t, b, c) && Within(t, u)
    ensures AgreeOn(t, a, c)
  {
  }

  /**
   The simulation, from any point of a run: the rest of the capture succeeds, never changes the
   base on touched keys, and every replay of the final base sees the rest of the pre-state traces.
   */
  lemma {:induction false} Simulate(v: Captured, o: OverlayAccount, w: Account, t: Touched, es: seq<Event>)
    requires Inv(v, o, w, t) && HonestRun(w, es)
    ensures Capture(v, o, es).Ok?
    ensures AgreeOn(t, Base(Capture(v, o, es).value), Base(v))
    ensures forall r :: Follows(Base(Capture(v, o, es).value), r, o, w, t) ==> ReadsMatch(r, es)
    decreases |es|
  {
    if es != [] {
      var e := es[0];
      RunStep(v, o, w, t, e);
      var v1, o1, w1, u := CaptureEvent(v, o, e).value, OverlayEvent(o, e), Step(w, e), Affect(Observe(t, e), e);
      Simulate(v1, o1, w1, u, es[1..]);
      var b := Base(Capture(v1, o1, es[1..]).value);
      AgreeOnTrans(t, u, b, Base(v1), Base(v));
      forall r | Follows(b, r, o, w, t) ensures ReadsMatch(r, es) {
        ReadStep(b, r, v, o, w, t, e);
      }
    }
  }

  /**
   Replay simulation: for every honest run, the capture succeeds and replaying the same events
   from the captured base shows each transaction exactly what its pre-state trace saw.
   */
  lemma ReplaySeesTraces(start: Account, es: seq<Event>)
    requires start.balance <= U256_MAX && HonestRun(start, es)
    ensures Capture(UNTRACED, UNKNOWN, es).Ok?
    ensures ReadsMatch(Base(Capture(UNTRACED, UNKNOWN, es).value), es)
  {
    assert Inv(UNTRACED, UNKNOWN, start, UNTOUCHED);
    Simulate(UNTRACED, UNKNOWN, start, UNTOUCHED, es);
    var b := Base(Capture(UNTRACED, UNKNOWN, es).value);
    assert Follows(b, b, UNKNOWN, start, UNTOUCHED);
  }

  // ----- why marked keys must be observed --------------------------------------------------------

  const NO_WRITES := Write(None, None, None, map[])

  /** An authorization that the chain skips, of an authority that the pre-state trace leaves out. */
  function SkippedAuthorization(): Event { Tx(None, None, true, NO_WRITES) }

  function SeesNonce(nonce: nat): Event {
    Tx(Some(PreAccount(None, Some(nonce), None, None, false)), None, false, NO_WRITES)
  }

  /**
   The overlay takes the nonce of an authority for written, so it is not recorded, and a replay of
   a skipped authorization sees a zero nonce: it is right exactly if the nonce was zero all along.
   */
  lemma SkippedAuthorizationHidesNonce(start: Account)
    ensures var es := [SkippedAuthorization(), SeesNonce(start.nonce)];
            && Capture(UNTRACED, UNKNOWN, es).Ok?
            && ReadsMatch(start, es)
            && (ReadsMatch(Base(Capture(UNTRACED, UNKNOWN, es).value), es) <==> start.nonce == 0)
  {
    var es := [SkippedAuthorization(), SeesNonce(start.nonce)];
    var o1 := OverlayEvent(UNKNOWN, es[0]);
    assert es[1..] == [es[1]] && es[1..][1..] == [];
    assert o1.SuppliesNonce();
    var v := CaptureStorage(UNTRACED, o1, es[1].pre.value);
    assert CaptureEvent(UNTRACED, o1, es[1]) == Ok(v);
    assert Capture(v, OverlayEvent(o1, es[1]), []) == Ok(v);
    assert Capture(UNTRACED, o1, es[1..]) == Ok(v);
    assert Capture(UNTRACED, UNKNOWN, es) == Ok(v) && v.nonce == 0;
    assert start.storage + map[] == start.storage && Base(v).storage + map[] == Base(v).storage;
    assert Step(start, es[0]) == start && Step(Base(v), es[0]) == Base(v);
    assert ReadsMatch(start, es) <==> Sees(start, es[1].pre.value) && ReadsMatch(Step(start, es[1]), []);
    assert ReadsMatch(Base(v), es) <==> Sees(Base(v), es[1].pre.value) && ReadsMatch(Step(Base(v), es[1]), []);
  }

  // ----- what is recorded -------------------------------------------------------------------------

  /** Recorded values are values at the start of the range; untouched keys still hold theirs. */
  ghost predicate Grounded(start: Account, v: Captured, o: OverlayAccount, w: Account, t: Touched) {
    && GroundedBalance(start.balance, v, o, w.balance, t.balance)
    && GroundedFields(start, v, w, t)
    && (forall s :: GroundedSlot(start, v, w, t, s))
  }

  predicate GroundedBalance(start: nat, v: Captured, o: OverlayAccount, balance: nat, touched: bool) {
    && (v.hasBalance ==> v.balance == start)
    && (if touched then !v.hasBalance && !o.known && !o.deleted ==> start == 0
        else balance == start + o.withdrawn)
  }

  predicate GroundedFields(start: Account, v: Captured, w: Account, t: Touched) {
    && (v.nonce != 0 ==> v.nonce == start.nonce) && (!t.nonce ==> w.nonce == start.nonce)
    && (v.code != [] ==> v.code == start.code) && (!t.code ==> w.code == start.code)
  }

  predicate GroundedSlot(start: Account, v: Captured, w: Account, t: Touched, s: Slot) {
    && (Base(v).Slot(s) != 0 ==> Base(v).Slot(s) == start.Slot(s))
    && (!t.Has(s) ==> w.Slot(s) == start.Slot(s))
  }

  /** An entry's balance is captured on its own, unless the entry is a probe or skipped. */
  lemma EntryBalance(v: Captured, o: OverlayAccount, p: PreAccount)
    requires CaptureEntry(v, o, p).Ok?
    ensures var v1 := CaptureEntry(v, o, p).value;
            if IsAbsentProbe(p) || (v.absent && !o.Exists()) then
              v1.hasBalance == v.hasBalance && v1.balance == v.balance
            else
              && CaptureBalance(v, o, p).Ok?
              && v1.hasBalance == CaptureBalance(v, o, p).value.hasBalance
              && v1.balance == CaptureBalance(v, o, p).value.balance
  {
  }

  lemma GroundTracedBalance(start: nat, v: Captured, o: OverlayAccount, balance: nat, touched: bool, p: PreAccount)
    requires BalanceInv(v.hasBalance, v.balance, o, balance, touched) && GroundedBalance(start, v, o, balance, touched)
    requires p.balance.Some? ==> balance == p.balance.value
    requires CaptureBalance(v, o, p).Ok?
    ensures GroundedBalance(start, CaptureBalance(v, o, p).value, o, balance, touched || p.balance.Some?)
  {
  }

  lemma GroundObservedBalance(start: nat, v: Captured, o: OverlayAccount, w: Account, t: Touched, e: Event)
    requires Inv(v, o, w, t) && Honest(w, e) && GroundedBalance(start, v, o, w.balance, t.balance)
    requires CaptureEvent(v, o, e).Ok?
    ensures GroundedBalance(start, CaptureEvent(v, o, e).value, o, w.balance, Observe(t, e).balance)
  {
    if e.Tx? && e.pre.Some? {
      var p := e.pre.value;
      EntryBalance(v, o, p);
      if !IsAbsentProbe(p) && !(v.absent && !o.Exists()) {
        GroundTracedBalance(start, v, o, w.balance, t.balance, p);
      }
    }
  }

  lemma GroundAppliedBalance(start: nat, v: Captured, o: OverlayAccount, w: Account, t: Touched, e: Event)
    requires BalanceInv(v.hasBalance, v.balance, o, w.balance, t.balance)
    requires GroundedBalance(start, v, o, w.balance, t.balance)
    requires match e case Withdrawal(amount) => w.balance + amount <= U256_MAX
                     case Tx(_, post, _, Wipe) => post == Some(Deleted)
                     case _ => e.post != Some(Deleted) && HonestBalance(w, e)
    requires t == Observe(t, e)
    ensures GroundedBalance(start, v, OverlayEvent(o, e), Step(w, e).balance, Affect(t, e).balance)
  {
  }

  lemma GroundBalance(start: Account, v: Captured, o: OverlayAccount, w: Account, t: Touched, e: Event)
    requires Inv(v, o, w, t) && Honest(w, e) && GroundedBalance(start.balance, v, o, w.balance, t.balance)
    requires CaptureEvent(v, o, e).Ok?
    ensures GroundedBalance(start.balance, CaptureEvent(v, o, e).value, OverlayEvent(o, e), Step(w, e).balance,
                            Affect(Observe(t, e), e).balance)
  {
    var u := Observe(t, e);
    GroundObservedBalance(start.balance, v, o, w, t, e);
    CaptureStep(v, o, w, t, e);
    assert u == Observe(u, e);
    GroundAppliedBalance(start.balance, CaptureEvent(v, o, e).value, o, w, u, e);
  }

  lemma GroundObservedFields(
    start: Account, v: Captured, v1: Captured, o: OverlayAccount, w: Account, t: Touched, u: Touched)
    requires Captures(v, v1, o, w, t, u) && GroundedFields(start, v, w, t)
    ensures GroundedFields(start, v1, w, u)
  {
  }

  lemma GroundObservedSlot(
    start: Account, v: Captured, v1: Captured, o: OverlayAccount, w: Account, t: Touched, u: Touched, s: Slot)
    requires Captures(v, v1, o, w, t, u) && GroundedSlot(start, v, w, t, s)
    ensures GroundedSlot(start, v1, w, u, s)
  {
    assert SlotInv(v1, o, w, u, s);
  }

  lemma GroundAppliedFields(start: Account, v: Captured, w: Account, t: Touched, e: Event)
    requires GroundedFields(start, v, w, t)
    ensures GroundedFields(start, v, Step(w, e), Affect(t, e))
  {
  }

  lemma GroundAppliedSlot(start: Account, v: Captured, w: Account, t: Touched, e: Event, s: Slot)
    requires GroundedSlot(start, v, w, t, s)
    ensures GroundedSlot(start, v, Step(w, e), Affect(t, e), s)
  {
  }

  lemma GroundStep(start: Account, v: Captured, o: OverlayAccount, w: Account, t: Touched, e: Event)
    requires Inv(v, o, w, t) && Honest(w, e) && Grounded(start, v, o, w, t)
    requires CaptureEvent(v, o, e).Ok?
    ensures Grounded(start, CaptureEvent(v, o, e).value, OverlayEvent(o, e), Step(w, e), Affect(Observe(t, e), e))
  {
    GroundBalance(start, v, o, w, t, e);
    CaptureStep(v, o, w, t, e);
    var v1, u := CaptureEvent(v, o, e).value, Observe(t, e);
    GroundObservedFields(start, v, v1, o, w, t, u);
    GroundAppliedFields(start, v1, w, u, e);
    forall s ensures GroundedSlot(start, v1, Step(w, e), Affect(u, e), s) {
      assert GroundedSlot(start, v, w, t, s);
      GroundObservedSlot(start, v, v1, o, w, t, u, s);
      GroundAppliedSlot(start, v1, w, u, e, s);
    }
  }

  /** Zero slots are noted, never recorded. */
  predicate RecordsNonzero(v: Captured) {
    forall s | s in v.storage :: v.storage[s] != 0
  }

  lemma {:induction false} OnlyNonzeroRecorded(v: Captured, o: OverlayAccount, es: seq<Event>)
    requires RecordsNonzero(v)
    ensures Capture(v, o, es).Ok? ==> RecordsNonzero(Capture(v, o, es).value)
    decreases |es|
  {
    if es != [] && CaptureEvent(v, o, es[0]).Ok? {
      EventNonzero(v, o, es[0]);
      OnlyNonzeroRecorded(CaptureEvent(v, o, es[0]).value, OverlayEvent(o, es[0]), es[1..]);
    }
  }

  lemma EventNonzero(v: Captured, o: OverlayAccount, e: Event)
    requires RecordsNonzero(v) && CaptureEvent(v, o, e).Ok?
    ensures RecordsNonzero(CaptureEvent(v, o, e).value)
  {
    if e.Tx? && e.pre.Some? && !IsAbsentProbe(e.pre.value) && !(v.absent && !o.Exists()) {
      var fields := CaptureFields(v, o, e.pre.value).value;
      assert fields.storage == v.storage;
      StorageNonzero(fields, o, e.pre.value);
    }
  }

  lemma StorageNonzero(v: Captured, o: OverlayAccount, p: PreAccount)
    requires RecordsNonzero(v)
    ensures RecordsNonzero(CaptureStorage(v, o, p))
  {
  }

  /** An account is in the base exactly if a balance, a nonce, a code or a slot of it is recorded. */
  predicate OnlyRecordedInBase(v: Captured) {
    v.materialized <==> v.hasBalance || v.hasNonce || v.hasCode || v.storage != map[]
  }

  lemma StorageInBase(v: Captured, o: OverlayAccount, p: PreAccount)
    requires OnlyRecordedInBase(v)
    ensures OnlyRecordedInBase(CaptureStorage(v, o, p))
  {
    var v1, traced := CaptureStorage(v, o, p), TracedSlots(p);
    if TouchesStorage(v, o, p) {
      var s :| s in traced && !o.SuppliesSlot(s) && s !in v.zeroSlots && traced[s] != 0;
      assert s in v1.storage;
    } else {
      assert NewSlots(v, o, p) == map[];
      assert v1.storage == v.storage;
    }
  }

  lemma EventInBase(v: Captured, o: OverlayAccount, e: Event)
    requires OnlyRecordedInBase(v) && CaptureEvent(v, o, e).Ok?
    ensures OnlyRecordedInBase(CaptureEvent(v, o, e).value)
  {
    if e.Tx? && e.pre.Some? && !IsAbsentProbe(e.pre.value) && !(v.absent && !o.Exists()) {
      StorageInBase(CaptureFields(v, o, e.pre.value).value, o, e.pre.value);
    }
  }

  /** Whatever the traces say, honest or not, nothing but a record puts an account into the base. */
  lemma {:induction false} OnlyRecordsMaterialize(v: Captured, o: OverlayAccount, es: seq<Event>)
    requires OnlyRecordedInBase(v)
    ensures Capture(v, o, es).Ok? ==> OnlyRecordedInBase(Capture(v, o, es).value)
    decreases |es|
  {
    if es != [] && CaptureEvent(v, o, es[0]).Ok? {
      EventInBase(v, o, es[0]);
      OnlyRecordsMaterialize(CaptureEvent(v, o, es[0]).value, OverlayEvent(o, es[0]), es[1..]);
    }
  }

  /** No transaction's pre-state trace holds more than zeros of the account, if it names it at all. */
  predicate OnlyProbed(es: seq<Event>) {
    forall i :: 0 <= i < |es| && es[i].Tx? && es[i].pre.Some? ==> ZeroOnly(es[i].pre.value)
  }

  /** An account seen only by zero-only entries never enters the base, and its capture never fails. */
  lemma {:induction false} ProbesRecordNothing(v: Captured, o: OverlayAccount, es: seq<Event>)
    requires OnlyProbed(es)
    ensures Capture(v, o, es).Ok?
    ensures var v1 := Capture(v, o, es).value; v1 == v.(absent := v1.absent, zeroSlots := v1.zeroSlots)
    decreases |es|
  {
    if es != [] {
      assert CaptureEvent(v, o, es[0]).Ok?;
      ProbesRecordNothing(CaptureEvent(v, o, es[0]).value, OverlayEvent(o, es[0]), es[1..]);
    }
  }

  lemma {:induction false} GroundRun(
    start: Account, v: Captured, o: OverlayAccount, w: Account, t: Touched, es: seq<Event>)
    requires Inv(v, o, w, t) && HonestRun(w, es) && Grounded(start, v, o, w, t)
    ensures Capture(v, o, es).Ok? && Recorded(start, Capture(v, o, es).value)
    decreases |es|
  {
    if es == [] {
      forall s ensures Base(v).Slot(s) != 0 ==> Base(v).Slot(s) == start.Slot(s) {
        assert GroundedSlot(start, v, w, t, s);
      }
    } else {
      var e := es[0];
      RunStep(v, o, w, t, e);
      GroundStep(start, v, o, w, t, e);
      GroundRun(start, CaptureEvent(v, o, e).value, OverlayEvent(o, e), Step(w, e), Affect(Observe(t, e), e), es[1..]);
    }
  }

  /** A capture holds nothing but values of the account at the start of the range. */
  ghost predicate Recorded(start: Account, v: Captured) {
    && v.balance == (if v.hasBalance then start.balance else 0)
    && (v.nonce != 0 ==> v.nonce == start.nonce)
    && (v.code != [] ==> v.code == start.code)
    && (forall s :: Base(v).Slot(s) != 0 ==> Base(v).Slot(s) == start.Slot(s))
  }

  /**
   For every honest run, a recorded balance is the balance at the start of the range, with earlier
   withdrawals taken off, and every recorded nonce, code or slot is the one at the start of the
   range; so an account that the range itself creates leaves no value in the base.
   */
  lemma RecordedIsRangeStart(start: Account, es: seq<Event>)
    requires start.balance <= U256_MAX && HonestRun(start, es)
    ensures Capture(UNTRACED, UNKNOWN, es).Ok?
    ensures Recorded(start, Capture(UNTRACED, UNKNOWN, es).value)
    ensures RecordsNonzero(Capture(UNTRACED, UNKNOWN, es).value)
    ensures start.Empty() ==> Base(Capture(UNTRACED, UNKNOWN, es).value).Empty()
  {
    assert Inv(UNTRACED, UNKNOWN, start, UNTOUCHED);
    assert Grounded(start, UNTRACED, UNKNOWN, start, UNTOUCHED);
    GroundRun(start, UNTRACED, UNKNOWN, start, UNTOUCHED, es);
    OnlyNonzeroRecorded(UNTRACED, UNKNOWN, es);
    var v := Capture(UNTRACED, UNKNOWN, es).value;
    if start.Empty() {
      forall s ensures Base(v).Slot(s) == 0 {
        assert start.Slot(s) == 0;
      }
    }
  }
}