/**
 What the capture of one account means, told by its history alone: the overlay knows what was written
 since the last deletion, and each recorded value is the first one that was observed while nothing in
 the range had supplied it. Nothing here assumes honest traces.
 */
module CaptureMeaning {
  import opened Common
  import opened CaptureAccount
  import opened CaptureReplay

  type History = seq<Event>

  // ----- histories -----------------------------------------------------------------------------------------

  /** Some event of the history satisfies `p` after the events before it. */
  ghost predicate Ever(h: History, p: (History, Event) -> bool) {
    exists i :: 0 <= i < |h| && p(h[..i], h[i])
  }

  /** Event `i` is the first that does. */
  ghost predicate First(h: History, p: (History, Event) -> bool, i: nat) {
    i < |h| && p(h[..i], h[i]) && forall j :: 0 <= j < i ==> !p(h[..j], h[j])
  }

  lemma EverSnoc(h: History, e: Event, p: (History, Event) -> bool)
    ensures Ever(h + [e], p) <==> Ever(h, p) || p(h, e)
  {
    var g := h + [e];
    assert g[..|h|] == h && g[|h|] == e;
    assert forall i :: 0 <= i < |h| ==> g[..i] == h[..i] && g[i] == h[i];
    if Ever(h, p) {
      var i :| 0 <= i < |h| && p(h[..i], h[i]);
      assert p(g[..i], g[i]);
    }
    if p(h, e) {
      assert p(g[..|h|], g[|h|]);
    }
  }

  lemma FirstSnoc(h: History, e: Event, p: (History, Event) -> bool, i: nat)
    requires First(h, p, i)
    ensures First(h + [e], p, i)
  {
    var g := h + [e];
    assert forall j :: 0 <= j < |h| ==> g[..j] == h[..j] && g[j] == h[j];
  }

  lemma FirstIsLast(h: History, e: Event, p: (History, Event) -> bool)
    requires !Ever(h, p) && p(h, e)
    ensures First(h + [e], p, |h|)
  {
    var g := h + [e];
    assert g[..|h|] == h && g[|h|] == e;
    assert forall j :: 0 <= j < |h| ==> g[..j] == h[..j] && g[j] == h[j];
  }

  /**
   A value that the first event to satisfy `p` sets and no later one changes: `has` tells whether there
   is such an event, and `x` is what `f` reads there, or else `none`.
   */
  ghost predicate SetOnce<T>(
    has: bool, x: T, h: History, p: (History, Event) -> bool, f: (History, Event) -> T, none: T)
  {
    && (has <==> Ever(h, p))
    && (if has then exists i: nat :: First(h, p, i) && x == f(h[..i], h[i]) else x == none)
  }

  lemma SetOnceSnoc<T>(has: bool, x: T, h: History, p: (History, Event) -> bool, f: (History, Event) -> T, none: T,
                       e: Event, x1: T)
    requires SetOnce(has, x, h, p, f, none) && x1 == if !has && p(h, e) then f(h, e) else x
    ensures SetOnce(has || p(h, e), x1, h + [e], p, f, none)
  {
    var g := h + [e];
    EverSnoc(h, e, p);
    if has {
      var i: nat :| First(h, p, i) && x == f(h[..i], h[i]);
      FirstSnoc(h, e, p, i);
      assert g[..i] == h[..i] && g[i] == h[i];
    } else if p(h, e) {
      FirstIsLast(h, e, p);
      assert g[..|h|] == h && g[|h|] == e;
    }
  }

  // ----- the overlay ----------------------------------------------------------------------------------------

  predicate Deletes(e: Event) { e.Tx? && e.post == Some(Deleted) }

  /** A withdrawal, an authorization, or a reported change of any kind. */
  predicate Creates(e: Event) {
    match e
    case Withdrawal(_) => true
    case Tx(_, post, authorized, _) =>
      || authorized
      || (post.Some? && post.value.Changed? &&
          (post.value.balance || post.value.nonce || post.value.code || post.value.storage.Some?))
  }

  predicate WritesBalance(e: Event) { e.Tx? && PostBalance(e) }

  predicate WritesNonce(e: Event) { e.Tx? && MarksNonce(e) }

  predicate WritesCode(e: Event) { e.Tx? && MarksCode(e) }

  function WriterOf(s: Slot): Event -> bool { (e: Event) => e.Tx? && s in MarkedSlots(e) }

  /** Some event satisfies `p` and no later one deletes the account. */
  ghost predicate Since(h: History, p: Event -> bool) {
    exists i :: 0 <= i < |h| && p(h[i]) && forall j :: i < j < |h| ==> !Deletes(h[j])
  }

  lemma SinceSnoc(h: History, e: Event, p: Event -> bool)
    ensures Since(h + [e], p) <==> p(e) || (Since(h, p) && !Deletes(e))
  {
    var g := h + [e];
    assert g[|h|] == e;
    if p(e) {
      assert p(g[|h|]);
    }
    if Since(h, p) && !Deletes(e) {
      var i :| 0 <= i < |h| && p(h[i]) && forall j :: i < j < |h| ==> !Deletes(h[j]);
      assert p(g[i]) && forall j :: i < j < |g| ==> !Deletes(g[j]);
    }
    if Since(g, p) && !p(e) {
      var i :| 0 <= i < |g| && p(g[i]) && forall j :: i < j < |g| ==> !Deletes(g[j]);
      assert p(h[i]) && forall j :: i < j < |h| ==> !Deletes(h[j]) by {
        assert forall j :: 0 <= j < |h| ==> g[j] == h[j];
      }
    }
  }

  /** The account was deleted, and nothing created it again. */
  ghost predicate LeftDeleted(h: History) {
    exists i :: 0 <= i < |h| && Deletes(h[i]) && forall j :: i <= j < |h| ==> !Creates(h[j])
  }

  lemma LeftDeletedSnoc(h: History, e: Event)
    ensures LeftDeleted(h + [e]) <==> !Creates(e) && (Deletes(e) || LeftDeleted(h))
  {
    var g := h + [e];
    assert g[|h|] == e;
    if !Creates(e) && Deletes(e) {
      assert Deletes(g[|h|]);
    }
    if !Creates(e) && LeftDeleted(h) {
      var i :| 0 <= i < |h| && Deletes(h[i]) && forall j :: i <= j < |h| ==> !Creates(h[j]);
      assert Deletes(g[i]) && forall j :: i <= j < |g| ==> !Creates(g[j]);
    }
    if LeftDeleted(g) {
      var i :| 0 <= i < |g| && Deletes(g[i]) && forall j :: i <= j < |g| ==> !Creates(g[j]);
      assert !Creates(g[|h|]);
      if i < |h| {
        assert Deletes(h[i]) && forall j :: i <= j < |h| ==> !Creates(h[j]) by {
          assert forall j :: 0 <= j < |h| ==> g[j] == h[j];
        }
      }
    }
  }

  /** What was withdrawn to the account since it was last deleted. */
  function WithdrawnSince(h: History): nat {
    if h == [] then 0
    else
      var last := h[|h| - 1];
      if Deletes(last) then 0
      else WithdrawnSince(h[..|h| - 1]) + if last.Withdrawal? then last.amount else 0
  }

  function Capped(amount: nat): nat { if amount > U256_MAX then U256_MAX else amount }

  /** The overlay knows what the range has written since the last deletion. */
  ghost predicate OverlayMeans(o: OverlayAccount, h: History) {
    && (o.known <==> Since(h, Creates))
    && (o.deleted <==> LeftDeleted(h))
    && (o.balance <==> Since(h, WritesBalance))
    && (o.nonce <==> Since(h, WritesNonce))
    && (o.code <==> Since(h, WritesCode))
    && o.withdrawn == Capped(WithdrawnSince(h))
    && (forall s :: s in o.slots <==> Since(h, WriterOf(s)))
  }

  lemma SlotsMeanSnoc(o: OverlayAccount, h: History, e: Event, s: Slot)
    requires s in o.slots <==> Since(h, WriterOf(s))
    ensures s in OverlayEvent(o, e).slots <==> Since(h + [e], WriterOf(s))
  {
    SinceSnoc(h, e, WriterOf(s));
  }

  lemma FieldsMeanSnoc(o: OverlayAccount, h: History, e: Event)
    requires o.balance <==> Since(h, WritesBalance)
    requires o.nonce <==> Since(h, WritesNonce)
    requires o.code <==> Since(h, WritesCode)
    ensures OverlayEvent(o, e).balance <==> Since(h + [e], WritesBalance)
    ensures OverlayEvent(o, e).nonce <==> Since(h + [e], WritesNonce)
    ensures OverlayEvent(o, e).code <==> Since(h + [e], WritesCode)
  {
    SinceSnoc(h, e, WritesBalance);
    SinceSnoc(h, e, WritesNonce);
    SinceSnoc(h, e, WritesCode);
  }

  lemma StateMeansSnoc(o: OverlayAccount, h: History, e: Event)
    requires o.known <==> Since(h, Creates)
    requires o.deleted <==> LeftDeleted(h)
    ensures OverlayEvent(o, e).known <==> Since(h + [e], Creates)
    ensures OverlayEvent(o, e).deleted <==> LeftDeleted(h + [e])
  {
    SinceSnoc(h, e, Creates);
    LeftDeletedSnoc(h, e);
  }

  lemma WithdrawnSnoc(h: History, e: Event)
    ensures WithdrawnSince(h + [e]) ==
            if Deletes(e) then 0 else WithdrawnSince(h) + if e.Withdrawal? then e.amount else 0
  {
    var g := h + [e];
    assert g[..|g| - 1] == h && g[|g| - 1] == e;
  }

  lemma CappedSum(x: nat, y: nat)
    ensures SaturatingAdd(Capped(x), y) == Capped(x + y)
  {
  }

  lemma WithdrawnMeansSnoc(o: OverlayAccount, h: History, e: Event)
    requires o.withdrawn == Capped(WithdrawnSince(h))
    ensures OverlayEvent(o, e).withdrawn == Capped(WithdrawnSince(h + [e]))
  {
    WithdrawnSnoc(h, e);
    if e.Withdrawal? { CappedSum(WithdrawnSince(h), e.amount); }
  }

  lemma OverlayMeansSnoc(o: OverlayAccount, h: History, e: Event)
    requires OverlayMeans(o, h)
    ensures OverlayMeans(OverlayEvent(o, e), h + [e])
  {
    StateMeansSnoc(o, h, e);
    FieldsMeanSnoc(o, h, e);
    WithdrawnMeansSnoc(o, h, e);
    forall s ensures s in OverlayEvent(o, e).slots <==> Since(h + [e], WriterOf(s)) {
      SlotsMeanSnoc(o, h, e, s);
    }
  }

  lemma OneEvent(v: Captured, o: OverlayAccount, e: Event)
    ensures Capture(v, o, [e]) == CaptureEvent(v, o, e)
    ensures OverlayAfter(o, [e]) == OverlayEvent(o, e)
  {
    assert [e][1..] == [];
  }

  lemma OverlaySnoc(h: History, e: Event)
    ensures OverlayAfter(UNKNOWN, h + [e]) == OverlayEvent(OverlayAfter(UNKNOWN, h), e)
  {
    CaptureAppend(UNTRACED, UNKNOWN, h, [e]);
    OneEvent(UNTRACED, OverlayAfter(UNKNOWN, h), e);
  }

  /** Over every history, honest or not, the overlay means what it says. */
  lemma {:induction false} OverlayOfHistory(h: History, o: OverlayAccount)
    requires o == OverlayAfter(UNKNOWN, h)
    ensures OverlayMeans(o, h)
    decreases |h|
  {
    if h == [] {
      assert o == UNKNOWN;
    } else {
      var init, last := h[..|h| - 1], h[|h| - 1];
      var before := OverlayAfter(UNKNOWN, init);
      assert h == init + [last];
      OverlayOfHistory(init, before);
      OverlaySnoc(init, last);
      OverlayMeansSnoc(before, init, last);
    }
  }

  // ----- the builder ----------------------------------------------------------------------------------------

  /** The range itself created the account. */
  ghost predicate InRange(h: History) { Since(h, Creates) && !LeftDeleted(h) }

  predicate Observes(e: Event) { e.Tx? && e.pre.Some? }

  /** A zero-only observation of an account that the range did not create. */
  ghost predicate Probes(h: History, e: Event) {
    Observes(e) && ZeroOnly(e.pre.value) && !InRange(h)
  }

  ghost predicate KnownAbsent(h: History) { Ever(h, Probes) }

  /** An observation that counts: not zero-only, nor of an account known to be absent. */
  ghost predicate Counts(h: History, e: Event) {
    Observes(e) && !ZeroOnly(e.pre.value) && (KnownAbsent(h) ==> InRange(h))
  }

  ghost predicate RecordsNonce(h: History, e: Event) {
    Counts(h, e) && e.pre.value.nonce.Some? && !LeftDeleted(h) && !Since(h, WritesNonce)
  }

  ghost predicate RecordsCode(h: History, e: Event) {
    Counts(h, e) && e.pre.value.code.Some? && !LeftDeleted(h) && !Since(h, WritesCode)
  }

  ghost predicate TracesBalance(h: History, e: Event) {
    Counts(h, e) && e.pre.value.balance.Some? && !LeftDeleted(h) && !Since(h, WritesBalance)
  }

  /** More than was withdrawn to the account, or zero of an account that nothing created. */
  ghost predicate RecordsBalance(h: History, e: Event) {
    && TracesBalance(h, e)
    && var traced, withdrawn := e.pre.value.balance.value, Capped(WithdrawnSince(h));
       traced > withdrawn || (traced == withdrawn == 0 && !InRange(h))
  }

  /** Less than was withdrawn to the account, before a balance is recorded. */
  ghost predicate Underflows(h: History, e: Event) {
    && TracesBalance(h, e) && !Ever(h, RecordsBalance)
    && var traced, withdrawn := e.pre.value.balance.value, Capped(WithdrawnSince(h));
       traced < withdrawn && !(traced == 0 && InRange(h))
  }

  ghost predicate TracesSlot(h: History, e: Event, s: Slot) {
    Counts(h, e) && s in TracedSlots(e.pre.value) && !LeftDeleted(h) && !Since(h, WriterOf(s))
  }

  /** The slot was seen to be zero. */
  ghost function NotesZero(s: Slot): (History, Event) -> bool {
    (h: History, e: Event) =>
      || (Probes(h, e) && s in TracedSlots(e.pre.value))
      || (TracesSlot(h, e, s) && TracedSlots(e.pre.value)[s] == 0)
  }

  ghost function RecordsSlot(s: Slot): (History, Event) -> bool {
    (h: History, e: Event) =>
      TracesSlot(h, e, s) && TracedSlots(e.pre.value)[s] != 0 && !Ever(h, NotesZero(s))
  }

  ghost function NonceAt(h: History, e: Event): nat {
    if Observes(e) && e.pre.value.nonce.Some? then e.pre.value.nonce.value else 0
  }

  ghost function CodeAt(h: History, e: Event): Code {
    if Observes(e) && e.pre.value.code.Some? then e.pre.value.code.value else []
  }

  /** The traced balance less what had been withdrawn by then. */
  ghost function BalanceAt(h: History, e: Event): int {
    (if Observes(e) && e.pre.value.balance.Some? then e.pre.value.balance.value else 0) - Capped(WithdrawnSince(h))
  }

  ghost function SlotAt(s: Slot): (History, Event) -> nat {
    (h: History, e: Event) =>
      if Observes(e) && s in TracedSlots(e.pre.value) then TracedSlots(e.pre.value)[s] else 0
  }

  ghost predicate SlotMeans(v: Captured, h: History, s: Slot) {
    && (s in v.zeroSlots <==> Ever(h, NotesZero(s)))
    && SetOnce(s in v.storage, Base(v).Slot(s), h, RecordsSlot(s), SlotAt(s), 0)
  }

  /** What the builder holds of an account, by the account's history: of each key the first value recorded. */
  ghost predicate Means(v: Captured, h: History) {
    && (v.absent <==> KnownAbsent(h))
    && SetOnce(v.hasBalance, v.balance, h, RecordsBalance, BalanceAt, 0)
    && SetOnce(v.hasNonce, v.nonce, h, RecordsNonce, NonceAt, 0)
    && SetOnce(v.hasCode, v.code, h, RecordsCode, CodeAt, [])
    && forall s :: SlotMeans(v, h, s)
  }

  // ----- one entry ------------------------------------------------------------------------------------------

  /** The entry is neither zero-only nor skipped. */
  predicate Taken(v: Captured, o: OverlayAccount, p: PreAccount) { !ZeroOnly(p) && (v.absent ==> o.Exists()) }

  /** An entry is a probe, is skipped, or is taken field by field and then slot by slot. */
  lemma EntryIs(v: Captured, o: OverlayAccount, p: PreAccount)
    requires CaptureEntry(v, o, p).Ok?
    ensures var v1 := CaptureEntry(v, o, p).value;
            if Taken(v, o, p) then
              && CaptureFields(v, o, p).Ok? && v1 == CaptureStorage(CaptureFields(v, o, p).value, o, p)
            else if ZeroOnly(p) && !o.Exists() then
              v1 == v.(absent := true, zeroSlots := v.zeroSlots + TracedSlots(p).Keys)
            else v1 == v
  {
    ProbeIsZeroOnly(p);
  }

  lemma FieldsAre(v: Captured, o: OverlayAccount, p: PreAccount)
    requires CaptureFields(v, o, p).Ok?
    ensures var v1 := CaptureFields(v, o, p).value;
            && v1.absent == v.absent && v1.storage == v.storage && v1.zeroSlots == v.zeroSlots
            && CaptureBalance(v, o, p).Ok?
            && v1.hasBalance == CaptureBalance(v, o, p).value.hasBalance
            && v1.balance == CaptureBalance(v, o, p).value.balance
            && v1.hasNonce == CaptureNonce(v, o, p).hasNonce && v1.nonce == CaptureNonce(v, o, p).nonce
            && v1.hasCode == CaptureCode(v, o, p).hasCode && v1.code == CaptureCode(v, o, p).code
  {
  }

  lemma EntryNonce(v: Captured, o: OverlayAccount, p: PreAccount)
    requires CaptureEntry(v, o, p).Ok?
    ensures var v1 := CaptureEntry(v, o, p).value;
            var records := Taken(v, o, p) && p.nonce.Some? && !o.deleted && !o.nonce;
            && v1.hasNonce == (v.hasNonce || records)
            && v1.nonce == if !v.hasNonce && records then p.nonce.value else v.nonce
  {
    EntryIs(v, o, p);
    if Taken(v, o, p) { FieldsAre(v, o, p); }
  }

  lemma EntryCode(v: Captured, o: OverlayAccount, p: PreAccount)
    requires CaptureEntry(v, o, p).Ok?
    ensures var v1 := CaptureEntry(v, o, p).value;
            var records := Taken(v, o, p) && p.code.Some? && !o.deleted && !o.code;
            && v1.hasCode == (v.hasCode || records)
            && v1.code == if !v.hasCode && records then p.code.value else v.code
  {
    EntryIs(v, o, p);
    if Taken(v, o, p) { FieldsAre(v, o, p); }
  }

  lemma EntryBalances(v: Captured, o: OverlayAccount, p: PreAccount)
    requires CaptureEntry(v, o, p).Ok?
    ensures var v1 := CaptureEntry(v, o, p).value;
            var records := && Taken(v, o, p) && p.balance.Some? && !o.deleted && !o.balance
                           && (p.balance.value > o.withdrawn
                               || (p.balance.value == o.withdrawn == 0 && !o.Exists()));
            && v1.hasBalance == (v.hasBalance || records)
            && v1.balance == if !v.hasBalance && records then p.balance.value - o.withdrawn else v.balance
  {
    EntryIs(v, o, p);
    if Taken(v, o, p) { FieldsAre(v, o, p); }
  }

  lemma EntryFails(v: Captured, o: OverlayAccount, p: PreAccount)
    ensures CaptureEntry(v, o, p).Err? <==>
            && Taken(v, o, p) && p.balance.Some? && !o.deleted && !o.balance && !v.hasBalance
            && p.balance.value < o.withdrawn && !(p.balance.value == 0 && o.Exists())
  {
    ProbeIsZeroOnly(p);
  }

  lemma StorageSlot(v: Captured, o: OverlayAccount, p: PreAccount, s: Slot)
    ensures var v1, traced := CaptureStorage(v, o, p), TracedSlots(p);
            var seen := s in traced && !o.deleted && s !in o.slots;
            var records := seen && traced[s] != 0 && s !in v.zeroSlots;
            && (s in v1.zeroSlots <==> s in v.zeroSlots || (seen && traced[s] == 0))
            && (s in v1.storage <==> s in v.storage || records)
            && Base(v1).Slot(s) == if s !in v.storage && records then traced[s] else Base(v).Slot(s)
  {
  }

  lemma EntrySlot(v: Captured, o: OverlayAccount, p: PreAccount, s: Slot)
    requires CaptureEntry(v, o, p).Ok?
    ensures var v1, traced := CaptureEntry(v, o, p).value, TracedSlots(p);
            var seen := Taken(v, o, p) && s in traced && !o.deleted && s !in o.slots;
            var records := seen && traced[s] != 0 && s !in v.zeroSlots;
            && (s in v1.zeroSlots <==>
                s in v.zeroSlots || (ZeroOnly(p) && !o.Exists() && s in traced) || (seen && traced[s] == 0))
            && (s in v1.storage <==> s in v.storage || records)
            && Base(v1).Slot(s) == if s !in v.storage && records then traced[s] else Base(v).Slot(s)
  {
    EntryIs(v, o, p);
    if Taken(v, o, p) {
      FieldsAre(v, o, p);
      StorageSlot(CaptureFields(v, o, p).value, o, p, s);
    }
  }

  lemma EntryAbsent(v: Captured, o: OverlayAccount, p: PreAccount)
    requires CaptureEntry(v, o, p).Ok?
    ensures CaptureEntry(v, o, p).value.absent <==> v.absent || (ZeroOnly(p) && !o.Exists())
  {
    EntryIs(v, o, p);
    if Taken(v, o, p) { FieldsAre(v, o, p); }
  }

  // ----- one event ------------------------------------------------------------------------------------------

  /** What an event finds: the overlay and the absent mark of the history before it. */
  ghost predicate Finds(v: Captured, o: OverlayAccount, h: History) {
    && (v.absent <==> KnownAbsent(h))
    && (o.Exists() <==> InRange(h)) && (o.deleted <==> LeftDeleted(h))
    && (o.balance <==> Since(h, WritesBalance)) && o.withdrawn == Capped(WithdrawnSince(h))
    && (o.nonce <==> Since(h, WritesNonce))
    && (o.code <==> Since(h, WritesCode))
    && (forall s :: s in o.slots <==> Since(h, WriterOf(s)))
  }

  lemma AbsentSnoc(v: Captured, o: OverlayAccount, h: History, e: Event)
    requires Finds(v, o, h) && CaptureEvent(v, o, e).Ok?
    ensures CaptureEvent(v, o, e).value.absent <==> KnownAbsent(h + [e])
  {
    EverSnoc(h, e, Probes);
    if Observes(e) { EntryAbsent(v, o, e.pre.value); }
  }

  lemma NonceSnoc(v: Captured, o: OverlayAccount, h: History, e: Event)
    requires Finds(v, o, h) && CaptureEvent(v, o, e).Ok?
    requires SetOnce(v.hasNonce, v.nonce, h, RecordsNonce, NonceAt, 0)
    ensures var v1 := CaptureEvent(v, o, e).value; SetOnce(v1.hasNonce, v1.nonce, h + [e], RecordsNonce, NonceAt, 0)
  {
    if Observes(e) { EntryNonce(v, o, e.pre.value); }
    SetOnceSnoc(v.hasNonce, v.nonce, h, RecordsNonce, NonceAt, 0, e, CaptureEvent(v, o, e).value.nonce);
  }

  lemma CodeSnoc(v: Captured, o: OverlayAccount, h: History, e: Event)
    requires Finds(v, o, h) && CaptureEvent(v, o, e).Ok?
    requires SetOnce(v.hasCode, v.code, h, RecordsCode, CodeAt, [])
    ensures var v1 := CaptureEvent(v, o, e).value; SetOnce(v1.hasCode, v1.code, h + [e], RecordsCode, CodeAt, [])
  {
    if Observes(e) { EntryCode(v, o, e.pre.value); }
    SetOnceSnoc(v.hasCode, v.code, h, RecordsCode, CodeAt, [], e, CaptureEvent(v, o, e).value.code);
  }

  lemma BalanceSnoc(v: Captured, o: OverlayAccount, h: History, e: Event)
    requires Finds(v, o, h) && CaptureEvent(v, o, e).Ok?
    requires SetOnce(v.hasBalance, v.balance, h, RecordsBalance, BalanceAt, 0)
    ensures var v1 := CaptureEvent(v, o, e).value;
            SetOnce(v1.hasBalance, v1.balance, h + [e], RecordsBalance, BalanceAt, 0)
  {
    if Observes(e) { EntryBalances(v, o, e.pre.value); }
    SetOnceSnoc(v.hasBalance, v.balance, h, RecordsBalance, BalanceAt, 0, e, CaptureEvent(v, o, e).value.balance);
  }

  lemma SlotSnoc(v: Captured, o: OverlayAccount, h: History, e: Event, s: Slot)
    requires Finds(v, o, h) && CaptureEvent(v, o, e).Ok? && SlotMeans(v, h, s)
    ensures SlotMeans(CaptureEvent(v, o, e).value, h + [e], s)
  {
    var v1 := CaptureEvent(v, o, e).value;
    if Observes(e) { EntrySlot(v, o, e.pre.value, s); }
    EverSnoc(h, e, NotesZero(s));
    SetOnceSnoc(s in v.storage, Base(v).Slot(s), h, RecordsSlot(s), SlotAt(s), 0, e, Base(v1).Slot(s));
  }

  lemma EventFails(v: Captured, o: OverlayAccount, h: History, e: Event)
    requires Finds(v, o, h) && (v.hasBalance <==> Ever(h, RecordsBalance))
    ensures CaptureEvent(v, o, e).Err? <==> Underflows(h, e)
  {
    if Observes(e) { EntryFails(v, o, e.pre.value); }
  }

  // ----- the whole history ----------------------------------------------------------------------------------

  /**
   Over every history, honest or not: the capture fails exactly if a traced balance is below what was
   withdrawn to the account, and otherwise it holds, of each key, the first observation that counts
   and that the range had not supplied.
   */
  lemma {:induction false} CaptureMeans(h: History)
    ensures Capture(UNTRACED, UNKNOWN, h).Err? <==> Ever(h, Underflows)
    ensures Capture(UNTRACED, UNKNOWN, h).Ok? ==> Means(Capture(UNTRACED, UNKNOWN, h).value, h)
  {
    if h != [] {
      var init, e := h[..|h| - 1], h[|h| - 1];
      CaptureMeans(init);
      CaptureAppend(UNTRACED, UNKNOWN, init, [e]);
      assert init + [e] == h;
      EverSnoc(init, e, Underflows);
      if Capture(UNTRACED, UNKNOWN, init).Ok? {
        StepMeans(Capture(UNTRACED, UNKNOWN, init).value, init, e);
      }
    }
  }

  lemma StepMeans(v: Captured, h: History, e: Event)
    requires Means(v, h)
    ensures var r := Capture(v, OverlayAfter(UNKNOWN, h), [e]);
            (r.Err? <==> Underflows(h, e)) && (r.Ok? ==> Means(r.value, h + [e]))
  {
    var o := OverlayAfter(UNKNOWN, h);
    OverlayOfHistory(h, o);
    assert Finds(v, o, h);
    OneEvent(v, o, e);
    EventFails(v, o, h, e);
    if CaptureEvent(v, o, e).Ok? {
      AbsentSnoc(v, o, h, e);
      NonceSnoc(v, o, h, e);
      CodeSnoc(v, o, h, e);
      BalanceSnoc(v, o, h, e);
      forall s ensures SlotMeans(CaptureEvent(v, o, e).value, h + [e], s) {
        SlotSnoc(v, o, h, e, s);
      }
    }
  }
}
