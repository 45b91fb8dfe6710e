/**
 Sharded fuzzing (crates/cli/src/fuzzer/mod.rs, `run_generated`, and
 crates/cli/src/fuzzer/coverage.rs): workers draw case numbers from a shared counter, record
 coverage locally, and the main thread merges the counters.
 */
module FuzzShards {
  import opened Common

  // ----- coverage ----------------------------------------------------------------------------------------

  /** The keys of the seven counter maps, told apart by their map. */
  datatype Key =
    | Fork(spec: nat)
    | TxKind(kind: nat)
    | TxsPerCase(txs: nat)
    | Feature(feature: nat)
    | CaseOutcome(outcome: nat)
    | ReceiptOutcome(outcome: nat)
    | Error(error: nat)

  type Counts = map<Key, nat>

  function Get(m: Counts, k: Key): nat { if k in m then m[k] else 0 }

  function Inc(m: Counts, k: Key): Counts { m[k := Get(m, k) + 1] }

  function Merge(m: Counts, other: Counts): Counts {
    map k | k in m.Keys + other.Keys :: Get(m, k) + Get(other, k)
  }

  function IncAll(m: Counts, ks: seq<Key>): Counts
    decreases |ks|
  {
    if ks == [] then m else IncAll(Inc(m, ks[0]), ks[1..])
  }

  lemma MergeUnit(m: Counts)
    ensures Merge(m, map[]) == m && Merge(map[], m) == m
  {
  }

  lemma MergeCommutes(m: Counts, n: Counts)
    ensures Merge(m, n) == Merge(n, m)
  {
    assert m.Keys + n.Keys == n.Keys + m.Keys;
  }

  lemma MergeAssociates(a: Counts, b: Counts, c: Counts)
    ensures Merge(Merge(a, b), c) == Merge(a, Merge(b, c))
  {
    assert Merge(a, b).Keys + c.Keys == a.Keys + Merge(b, c).Keys;
  }

  lemma IncMerges(m: Counts, n: Counts, k: Key)
    ensures Inc(Merge(m, n), k) == Merge(m, Inc(n, k))
  {
    assert Inc(Merge(m, n), k).Keys == Merge(m, Inc(n, k)).Keys;
  }

  /** Recording on top of a table is merging in what was recorded on an empty one. */
  lemma {:induction false} IncAllMerges(m: Counts, n: Counts, ks: seq<Key>)
    ensures IncAll(Merge(m, n), ks) == Merge(m, IncAll(n, ks))
    decreases |ks|
  {
    if ks != [] {
      IncMerges(m, n, ks[0]);
      IncAllMerges(m, Inc(n, ks[0]), ks[1..]);
    }
  }

  /** A count grows by the number of times its key is recorded. */
  lemma {:induction false} CountsOccurrences(m: Counts, ks: seq<Key>, k: Key)
    ensures Get(IncAll(m, ks), k) == Get(m, k) + multiset(ks)[k]
    decreases |ks|
  {
    if ks != [] {
      CountsOccurrences(Inc(m, ks[0]), ks[1..], k);
      assert ks == [ks[0]] + ks[1..];
    }
  }

  /** What the coverage records of a transaction and of a case. */
  datatype Precompile = Precompile(feature: nat, inputShape: nat, enabled: bool)

  datatype CaseTx = CaseTx(kind: nat, isCreate: bool, precompile: Option<Precompile>, kindEnabled: bool)

  datatype Case = Case(spec: nat, txs: seq<CaseTx>, features: seq<nat>)

  datatype Receipt = Receipt(outcome: nat, error: Option<nat>)

  datatype Outcome = Outcome(kind: nat, receipts: seq<Receipt>)

  const TX_CREATE: nat := 0
  const PRECOMPILE_DIRECT_TX: nat := 1
  const PRECOMPILE_FUTURE_ADDRESS: nat := 2
  const FORK_INVALID_TX: nat := 3

  function When(holds: bool, k: Key): seq<Key> { if holds then [k] else [] }

  function PrecompileKeys(p: Precompile): seq<Key> {
    [Feature(PRECOMPILE_DIRECT_TX)] + [Feature(p.feature)] + [Feature(p.inputShape)] +
    When(!p.enabled, Feature(PRECOMPILE_FUTURE_ADDRESS))
  }

  function TxKeys(tx: CaseTx): seq<Key> {
    [TxKind(tx.kind)] +
    When(tx.isCreate, Feature(TX_CREATE)) +
    (if tx.precompile.Some? then PrecompileKeys(tx.precompile.value) else []) +
    When(!tx.kindEnabled, Feature(FORK_INVALID_TX))
  }

  function Flatten<T>(s: seq<seq<T>>): seq<T> {
    if s == [] then [] else Flatten(s[..|s| - 1]) + s[|s| - 1]
  }

  function Map<T, U>(f: T -> U, s: seq<T>): seq<U> {
    seq(|s|, i requires 0 <= i < |s| => f(s[i]))
  }

  function FeatureKeys(features: seq<nat>): seq<Key> {
    seq(|features|, i requires 0 <= i < |features| => Feature(features[i]))
  }

  function CaseKeys(c: Case): seq<Key> {
    [Fork(c.spec)] + [TxsPerCase(|c.txs|)] + Flatten(Map(TxKeys, c.txs)) + FeatureKeys(c.features)
  }

  function ReceiptKeys(r: Receipt): seq<Key> {
    [ReceiptOutcome(r.outcome)] + if r.error.Some? then [Error(r.error.value)] else []
  }

  function OutcomeKeys(o: Outcome): seq<Key> {
    [CaseOutcome(o.kind)] + Flatten(Map(ReceiptKeys, o.receipts))
  }

  lemma {:induction false} IncAllAppend(m: Counts, xs: seq<Key>, ys: seq<Key>)
    ensures IncAll(m, xs + ys) == IncAll(IncAll(m, xs), ys)
    decreases |xs|
  {
    if xs == [] {
      assert xs + ys == ys;
    } else {
      assert (xs + ys)[1..] == xs[1..] + ys;
      IncAllAppend(Inc(m, xs[0]), xs[1..], ys);
    }
  }

  class Coverage {
    var cases: nat
    var counts: Counts

    constructor ()
      ensures cases == 0 && counts == map[]
    {
      cases, counts := 0, map[];
    }

    /** Counts a key, if the record has it. */
    method Add(holds: bool, k: Key)
      modifies this`counts
      ensures counts == IncAll(old(counts), When(holds, k))
    {
      if holds {
        assert [k][1..] == [];
        counts := Inc(counts, k);
      }
    }

    method RecordTx(tx: CaseTx)
      modifies this`counts
      ensures counts == IncAll(old(counts), TxKeys(tx))
    {
      ghost var kind, create := [TxKind(tx.kind)], When(tx.isCreate, Feature(TX_CREATE));
      ghost var precompile := if tx.precompile.Some? then PrecompileKeys(tx.precompile.value) else [];
      IncAllAppend(counts, kind, create);
      IncAllAppend(counts, kind + create, precompile);
      IncAllAppend(counts, kind + create + precompile, When(!tx.kindEnabled, Feature(FORK_INVALID_TX)));
      Add(true, TxKind(tx.kind));
      Add(tx.isCreate, Feature(TX_CREATE));
      if tx.precompile.Some? {
        RecordPrecompile(tx.precompile.value);
      }
      Add(!tx.kindEnabled, Feature(FORK_INVALID_TX));
    }

    method RecordPrecompile(p: Precompile)
      modifies this`counts
      ensures counts == IncAll(old(counts), PrecompileKeys(p))
    {
      ghost var direct, feature := [Feature(PRECOMPILE_DIRECT_TX)], [Feature(p.feature)];
      ghost var shape := [Feature(p.inputShape)];
      IncAllAppend(counts, direct, feature);
      IncAllAppend(counts, direct + feature, shape);
      IncAllAppend(counts, direct + feature + shape, When(!p.enabled, Feature(PRECOMPILE_FUTURE_ADDRESS)));
      Add(true, Feature(PRECOMPILE_DIRECT_TX));
      Add(true, Feature(p.feature));
      Add(true, Feature(p.inputShape));
      Add(!p.enabled, Feature(PRECOMPILE_FUTURE_ADDRESS));
    }

    method RecordTxs(txs: seq<CaseTx>)
      modifies this`counts
      ensures counts == IncAll(old(counts), Flatten(Map(TxKeys, txs)))
    {
      for i := 0 to |txs|
        invariant counts == IncAll(old(counts), Flatten(Map(TxKeys, txs[..i])))
      {
        FlattenSnoc(TxKeys, txs, i);
        IncAllAppend(old(counts), Flatten(Map(TxKeys, txs[..i])), TxKeys(txs[i]));
        RecordTx(txs[i]);
      }
      assert txs[..|txs|] == txs;
    }

    method RecordFeatures(features: seq<nat>)
      modifies this`counts
      ensures counts == IncAll(old(counts), FeatureKeys(features))
    {
      for i := 0 to |features|
        invariant counts == IncAll(old(counts), FeatureKeys(features[..i]))
      {
        assert FeatureKeys(features[..i + 1]) == FeatureKeys(features[..i]) + [Feature(features[i])];
        IncAllAppend(old(counts), FeatureKeys(features[..i]), [Feature(features[i])]);
        Add(true, Feature(features[i]));
      }
      assert features[..|features|] == features;
    }

    method RecordCase(c: Case)
      modifies this
      ensures cases == old(cases) + 1
      ensures counts == IncAll(old(counts), CaseKeys(c))
    {
      ghost var head, txs := [Fork(c.spec)] + [TxsPerCase(|c.txs|)], Flatten(Map(TxKeys, c.txs));
      IncAllAppend(counts, [Fork(c.spec)], [TxsPerCase(|c.txs|)]);
      IncAllAppend(counts, head, txs);
      IncAllAppend(counts, head + txs, FeatureKeys(c.features));
      cases := cases + 1;
      Add(true, Fork(c.spec));
      Add(true, TxsPerCase(|c.txs|));
      RecordTxs(c.txs);
      RecordFeatures(c.features);
    }

    method RecordReceipt(r: Receipt)
      modifies this`counts
      ensures counts == IncAll(old(counts), ReceiptKeys(r))
    {
      IncAllAppend(counts, [ReceiptOutcome(r.outcome)], if r.error.Some? then [Error(r.error.value)] else []);
      Add(true, ReceiptOutcome(r.outcome));
      if r.error.Some? {
        Add(true, Error(r.error.value));
      }
    }

    method RecordOutcome(o: Outcome)
      modifies this`counts
      ensures counts == IncAll(old(counts), OutcomeKeys(o))
    {
      ghost var start := counts;
      Add(true, CaseOutcome(o.kind));
      ghost var head := counts;
      for i := 0 to |o.receipts|
        invariant counts == IncAll(head, Flatten(Map(ReceiptKeys, o.receipts[..i])))
      {
        FlattenSnoc(ReceiptKeys, o.receipts, i);
        IncAllAppend(head, Flatten(Map(ReceiptKeys, o.receipts[..i])), ReceiptKeys(o.receipts[i]));
        RecordReceipt(o.receipts[i]);
      }
      assert o.receipts[..|o.receipts|] == o.receipts;
      IncAllAppend(start, [CaseOutcome(o.kind)], Flatten(Map(ReceiptKeys, o.receipts)));
    }

    /** One turn of a worker: the case is recorded, compared and found equal, and its outcome recorded. */
    method RecordHandled(f: Fuzzed)
      modifies this
      ensures cases == old(cases) + 1
      ensures counts == IncAll(old(counts), CaseKeys(f.case_) + OutcomeKeys(f.outcome))
    {
      IncAllAppend(counts, CaseKeys(f.case_), OutcomeKeys(f.outcome));
      RecordCase(f.case_);
      RecordOutcome(f.outcome);
    }

    function Tally(executed: nat): (nat, nat, Counts)
      reads this
    {
      (executed, cases, counts)
    }

    method MergeFrom(other: Coverage)
      requires other != this
      modifies this
      ensures cases == old(cases) + other.cases && counts == Merge(old(counts), other.counts)
    {
      cases := cases + other.cases;
      var rest := other.counts.Keys;
      while rest != {}
        invariant rest <= other.counts.Keys && cases == old(cases) + other.cases
        invariant other.counts == old(other.counts)
        invariant counts.Keys == old(counts).Keys + (other.counts.Keys - rest)
        invariant forall k :: Get(counts, k) == Get(old(counts), k) + if k in rest then 0 else Get(other.counts, k)
      {
        var k :| k in rest;
        rest := rest - {k};
        counts := counts[k := Get(counts, k) + other.counts[k]];
      }
      assert counts == Merge(old(counts), other.counts);
    }
  }

  lemma FlattenSnoc<T>(f: T -> seq<Key>, s: seq<T>, i: nat)
    requires i < |s|
    ensures Flatten(Map(f, s[..i + 1])) == Flatten(Map(f, s[..i])) + f(s[i])
  {
    assert Map(f, s[..i + 1])[..i] == Map(f, s[..i]);
  }

  // ----- what the counts mean ---------------------------------------------------------------------------------

  function Indicator(holds: bool): nat { if holds then 1 else 0 }

  /** What a transaction's precompile adds to the count of a feature. */
  function PrecompileFeatures(p: Precompile, feature: nat): nat {
    Indicator(feature == PRECOMPILE_DIRECT_TX) + Indicator(feature == p.feature) + Indicator(feature == p.inputShape) +
    Indicator(!p.enabled && feature == PRECOMPILE_FUTURE_ADDRESS)
  }

  /** What a transaction adds to the count of a key: one to its kind, and to each feature it shows. */
  function TxShare(tx: CaseTx, k: Key): nat {
    match k
    case TxKind(kind) => Indicator(tx.kind == kind)
    case Feature(feature) =>
      Indicator(tx.isCreate && feature == TX_CREATE) +
      (if tx.precompile.Some? then PrecompileFeatures(tx.precompile.value, feature) else 0) +
      Indicator(!tx.kindEnabled && feature == FORK_INVALID_TX)
    case _ => 0
  }

  function TxShares(txs: seq<CaseTx>, k: Key): nat {
    if txs == [] then 0 else TxShares(txs[..|txs| - 1], k) + TxShare(txs[|txs| - 1], k)
  }

  function ReceiptsWith(receipts: seq<Receipt>, outcome: nat): nat {
    if receipts == [] then 0
    else
      var n := |receipts| - 1;
      ReceiptsWith(receipts[..n], outcome) + if receipts[n].outcome == outcome then 1 else 0
  }

  function ReceiptErrors(receipts: seq<Receipt>, error: nat): nat {
    if receipts == [] then 0
    else
      var n := |receipts| - 1;
      ReceiptErrors(receipts[..n], error) + if receipts[n].error == Some(error) then 1 else 0
  }

  lemma FourParts(a: seq<Key>, b: seq<Key>, c: seq<Key>, d: seq<Key>, k: Key)
    ensures multiset(a + b + c + d)[k] == multiset(a)[k] + multiset(b)[k] + multiset(c)[k] + multiset(d)[k]
  {
  }

  lemma WhenCounted(holds: bool, key: Key, k: Key)
    ensures multiset(When(holds, key))[k] == Indicator(holds && k == key)
    ensures multiset([key])[k] == Indicator(k == key)
  {
  }

  lemma PrecompileCounted(p: Precompile, k: Key)
    ensures multiset(PrecompileKeys(p))[k] == if k.Feature? then PrecompileFeatures(p, k.feature) else 0
  {
    var future := Feature(PRECOMPILE_FUTURE_ADDRESS);
    FourParts([Feature(PRECOMPILE_DIRECT_TX)], [Feature(p.feature)], [Feature(p.inputShape)],
              When(!p.enabled, future), k);
    WhenCounted(!p.enabled, future, k);
    WhenCounted(true, Feature(PRECOMPILE_DIRECT_TX), k);
    WhenCounted(true, Feature(p.feature), k);
    WhenCounted(true, Feature(p.inputShape), k);
  }

  lemma TxCounted(tx: CaseTx, k: Key)
    ensures multiset(TxKeys(tx))[k] == TxShare(tx, k)
  {
    var create, invalid := When(tx.isCreate, Feature(TX_CREATE)), When(!tx.kindEnabled, Feature(FORK_INVALID_TX));
    WhenCounted(true, TxKind(tx.kind), k);
    WhenCounted(tx.isCreate, Feature(TX_CREATE), k);
    WhenCounted(!tx.kindEnabled, Feature(FORK_INVALID_TX), k);
    if tx.precompile.Some? {
      PrecompileCounted(tx.precompile.value, k);
      FourParts([TxKind(tx.kind)], create, PrecompileKeys(tx.precompile.value), invalid, k);
    } else {
      FourParts([TxKind(tx.kind)], create, [], invalid, k);
    }
  }

  lemma {:induction false} TxsCounted(txs: seq<CaseTx>, k: Key)
    ensures multiset(Flatten(Map(TxKeys, txs)))[k] == TxShares(txs, k)
  {
    if txs != [] {
      var n := |txs| - 1;
      TxsCounted(txs[..n], k);
      TxCounted(txs[n], k);
      FlattenSnoc(TxKeys, txs, n);
      assert txs[..n + 1] == txs;
    }
  }

  lemma {:induction false} FeaturesCounted(features: seq<nat>, k: Key)
    ensures multiset(FeatureKeys(features))[k] == if k.Feature? then multiset(features)[k.feature] else 0
  {
    if features != [] {
      var n := |features| - 1;
      FeaturesCounted(features[..n], k);
      assert FeatureKeys(features) == FeatureKeys(features[..n]) + [Feature(features[n])];
      assert features == features[..n] + [features[n]];
    }
  }

  lemma {:induction false} ReceiptsCounted(receipts: seq<Receipt>, k: Key)
    ensures k.ReceiptOutcome? ==> multiset(Flatten(Map(ReceiptKeys, receipts)))[k] == ReceiptsWith(receipts, k.outcome)
    ensures k.Error? ==> multiset(Flatten(Map(ReceiptKeys, receipts)))[k] == ReceiptErrors(receipts, k.error)
    ensures !k.ReceiptOutcome? && !k.Error? ==> multiset(Flatten(Map(ReceiptKeys, receipts)))[k] == 0
  {
    if receipts != [] {
      var n := |receipts| - 1;
      ReceiptsCounted(receipts[..n], k);
      FlattenSnoc(ReceiptKeys, receipts, n);
      assert receipts[..n + 1] == receipts;
    }
  }

  /** How much a case and its outcome add to the count of a key. */
  function Contribution(f: Fuzzed, k: Key): nat {
    match k
    case Fork(spec) => if f.case_.spec == spec then 1 else 0
    case TxsPerCase(txs) => if |f.case_.txs| == txs then 1 else 0
    case TxKind(_) => TxShares(f.case_.txs, k)
    case CaseOutcome(outcome) => if f.outcome.kind == outcome then 1 else 0
    case ReceiptOutcome(outcome) => ReceiptsWith(f.outcome.receipts, outcome)
    case Error(error) => ReceiptErrors(f.outcome.receipts, error)
    case Feature(feature) => TxShares(f.case_.txs, k) + multiset(f.case_.features)[feature]
  }

  lemma NoTxShares(txs: seq<CaseTx>, k: Key)
    requires !k.TxKind? && !k.Feature?
    ensures TxShares(txs, k) == 0
  {
  }

  /**
   A case is counted once under its fork, its size and its outcome, each of its transactions once under
   its kind and each feature it shows, and each receipt once under its outcome and its error.
   */
  lemma CaseIsCounted(f: Fuzzed, k: Key)
    ensures multiset(CaseKeys(f.case_) + OutcomeKeys(f.outcome))[k] == Contribution(f, k)
  {
    TxsCounted(f.case_.txs, k);
    if !k.TxKind? && !k.Feature? { NoTxShares(f.case_.txs, k); }
    ReceiptsCounted(f.outcome.receipts, k);
    FeaturesCounted(f.case_.features, k);
    FourParts([Fork(f.case_.spec)], [TxsPerCase(|f.case_.txs|)], Flatten(Map(TxKeys, f.case_.txs)),
              FeatureKeys(f.case_.features), k);
  }

  lemma CaseAdds(m: Counts, f: Fuzzed, k: Key)
    ensures Get(IncAll(m, CaseKeys(f.case_) + OutcomeKeys(f.outcome)), k) == Get(m, k) + Contribution(f, k)
  {
    CountsOccurrences(m, CaseKeys(f.case_) + OutcomeKeys(f.outcome), k);
    CaseIsCounted(f, k);
  }

  /** The contributions of the first `n` cases. */
  function Contributions(fuzz: Fuzz, n: nat, k: Key): nat {
    if n == 0 then 0 else Contributions(fuzz, n - 1, k) + Contribution(fuzz(n - 1), k)
  }

  lemma {:induction false} SequentialContributions(fuzz: Fuzz, n: nat, k: Key)
    ensures Get(Sequential(RecordKeys(fuzz), n), k) == Contributions(fuzz, n, k)
  {
    if n > 0 {
      SequentialContributions(fuzz, n - 1, k);
      CaseAdds(Sequential(RecordKeys(fuzz), n - 1), fuzz(n - 1), k);
    }
  }

  // ----- sharding -------------------------------------------------------------------------------------------

  datatype Pc = Looping | Handling(case_: nat) | Exited

  /** A worker with its own coverage, the recorded cases and their counts, and its executed cases. */
  datatype Worker = Worker(pc: Pc, executed: nat, cases: nat, counts: Counts)

  /** `handled` is the history of the run: which of the cases have been handled. */
  datatype State = State(next: nat, workers: seq<Worker>, handled: seq<bool>)

  /** A case and what both backends make of it. */
  datatype Fuzzed = Fuzzed(case_: Case, outcome: Outcome)

  /** The case of each number: it depends on the seed and the number only, and the backends agree on it. */
  type Fuzz = nat -> Fuzzed

  /** What recording a case and its outcome counts. */
  type Keys = nat -> seq<Key>

  function RecordKeys(fuzz: Fuzz): Keys {
    (i: nat) => CaseKeys(fuzz(i).case_) + OutcomeKeys(fuzz(i).outcome)
  }

  function Start(cases: nat, threads: nat): State {
    State(0, Repeat(Worker(Looping, 0, 0, map[]), threads), Repeat(false, cases))
  }

  predicate Enabled(s: State, w: nat) {
    && w < |s.workers| && !s.workers[w].pc.Exited?
    && (s.workers[w].pc.Handling? ==> s.workers[w].pc.case_ < |s.handled|)
  }

  /** A worker draws a case number, or handles the case it drew. */
  function Step(s: State, w: nat, keys: Keys): State
    requires Enabled(s, w)
  {
    var worker := s.workers[w];
    match worker.pc
    case Looping =>
      s.(next := s.next + 1,
         workers := s.workers[w := worker.(pc := if s.next < |s.handled| then Handling(s.next) else Exited)])
    case Handling(i) =>
      s.(workers := s.workers[w := Worker(Looping, worker.executed + 1, worker.cases + 1,
                                          IncAll(worker.counts, keys(i)))],
         handled := s.handled[i := true])
  }

  function Execute(s: State, schedule: seq<nat>, keys: Keys): Option<State>
    decreases |schedule|
  {
    if schedule == [] then Some(s)
    else if Enabled(s, schedule[0]) then Execute(Step(s, schedule[0], keys), schedule[1..], keys)
    else None
  }

  predicate AllExited(s: State) { forall w :: 0 <= w < |s.workers| ==> s.workers[w].pc.Exited? }

  /** What the main thread gets by merging the workers' tallies in order. */
  function MergeAll(ws: seq<Worker>): Counts {
    if ws == [] then map[] else Merge(MergeAll(ws[..|ws| - 1]), ws[|ws| - 1].counts)
  }

  function Executed(ws: seq<Worker>): nat {
    if ws == [] then 0 else Executed(ws[..|ws| - 1]) + ws[|ws| - 1].executed
  }

  /** The merged number of recorded cases. */
  function Recorded(ws: seq<Worker>): nat {
    if ws == [] then 0 else Recorded(ws[..|ws| - 1]) + ws[|ws| - 1].cases
  }

  /** One recorder that handles the cases 0 to n - 1 in order. */
  function Sequential(keys: Keys, n: nat): Counts {
    if n == 0 then map[] else IncAll(Sequential(keys, n - 1), keys(n - 1))
  }

  // ----- join order ---------------------------------------------------------------------------------------

  function Without(ws: seq<Worker>, i: nat): seq<Worker>
    requires i < |ws|
  {
    ws[..i] + ws[i + 1..]
  }

  /** Any worker's table can be merged in last. */
  lemma {:induction false} MergeLast(ws: seq<Worker>, i: nat)
    requires i < |ws|
    ensures MergeAll(ws) == Merge(MergeAll(Without(ws, i)), ws[i].counts)
  {
    var n := |ws| - 1;
    if i == n {
      assert Without(ws, i) == ws[..n];
    } else {
      var init := ws[..n];
      MergeLast(init, i);
      WithoutSnoc(ws, i);
      MergeSwaps(MergeAll(Without(init, i)), ws[i].counts, ws[n].counts);
    }
  }

  lemma MergeSwaps(a: Counts, b: Counts, c: Counts)
    ensures Merge(Merge(a, b), c) == Merge(Merge(a, c), b)
  {
    MergeAssociates(a, b, c);
    MergeCommutes(b, c);
    MergeAssociates(a, c, b);
  }

  lemma WithoutSnoc(ws: seq<Worker>, i: nat)
    requires i < |ws| - 1
    ensures MergeAll(Without(ws, i)) == Merge(MergeAll(Without(ws[..|ws| - 1], i)), ws[|ws| - 1].counts)
  {
    var n := |ws| - 1;
    var shorter := Without(ws, i);
    assert shorter[..n - 1] == Without(ws[..n], i) && shorter[n - 1] == ws[n];
  }

  /** The merged table does not depend on the order in which the workers are joined. */
  lemma {:induction false} JoinOrderIsIrrelevant(ws: seq<Worker>, vs: seq<Worker>)
    requires multiset(ws) == multiset(vs)
    ensures MergeAll(ws) == MergeAll(vs)
    decreases |vs|
  {
    if vs == [] {
      assert |multiset(ws)| == 0;
    } else {
      var n := |vs| - 1;
      assert vs == vs[..n] + [vs[n]];
      assert vs[n] in multiset(ws);
      var i :| 0 <= i < |ws| && ws[i] == vs[n];
      MultisetWithout(ws, i);
      JoinOrderIsIrrelevant(Without(ws, i), vs[..n]);
      MergeLast(ws, i);
    }
  }

  lemma MultisetWithout(ws: seq<Worker>, i: nat)
    requires i < |ws|
    ensures multiset(Without(ws, i)) == multiset(ws) - multiset{ws[i]}
  {
    assert ws == ws[..i] + [ws[i]] + ws[i + 1..];
  }

  // Totals per key.

  function CaseCount(keys: Keys, i: nat, k: Key): nat { Get(IncAll(map[], keys(i)), k) }

  function WorkersCount(ws: seq<Worker>, k: Key): nat {
    if ws == [] then 0 else WorkersCount(ws[..|ws| - 1], k) + Get(ws[|ws| - 1].counts, k)
  }

  function HandledCount(handled: seq<bool>, keys: Keys, k: Key): nat {
    if handled == [] then 0
    else
      var n := |handled| - 1;
      HandledCount(handled[..n], keys, k) + if handled[n] then CaseCount(keys, n, k) else 0
  }

  function Handled(handled: seq<bool>): nat {
    if handled == [] then 0 else Handled(handled[..|handled| - 1]) + if handled[|handled| - 1] then 1 else 0
  }

  lemma IncAllCount(m: Counts, keys: Keys, i: nat, k: Key)
    ensures Get(IncAll(m, keys(i)), k) == Get(m, k) + CaseCount(keys, i, k)
  {
    MergeUnit(m);
    IncAllMerges(m, map[], keys(i));
  }

  lemma {:induction false} MergeAllCount(ws: seq<Worker>, k: Key)
    ensures Get(MergeAll(ws), k) == WorkersCount(ws, k)
  {
    if ws != [] { MergeAllCount(ws[..|ws| - 1], k); }
  }

  lemma {:induction false} WorkersUpdate(ws: seq<Worker>, w: nat, worker: Worker, k: Key)
    requires w < |ws|
    ensures WorkersCount(ws[w := worker], k) == WorkersCount(ws, k) - Get(ws[w].counts, k) + Get(worker.counts, k)
  {
    var n := |ws| - 1;
    if w == n {
      assert ws[w := worker][..n] == ws[..n];
    } else {
      WorkersUpdate(ws[..n], w, worker, k);
      assert ws[w := worker][..n] == ws[..n][w := worker];
    }
  }

  lemma {:induction false} ExecutedUpdate(ws: seq<Worker>, w: nat, worker: Worker)
    requires w < |ws|
    ensures Executed(ws[w := worker]) == Executed(ws) - ws[w].executed + worker.executed
  {
    var n := |ws| - 1;
    if w == n {
      assert ws[w := worker][..n] == ws[..n];
    } else {
      ExecutedUpdate(ws[..n], w, worker);
      assert ws[w := worker][..n] == ws[..n][w := worker];
    }
  }

  lemma {:induction false} HandledUpdate(handled: seq<bool>, i: nat, keys: Keys, k: Key)
    requires i < |handled| && !handled[i]
    ensures HandledCount(handled[i := true], keys, k) == HandledCount(handled, keys, k) + CaseCount(keys, i, k)
    ensures Handled(handled[i := true]) == Handled(handled) + 1
  {
    var n := |handled| - 1;
    if i == n {
      assert handled[i := true][..n] == handled[..n];
    } else {
      HandledUpdate(handled[..n], i, keys, k);
      assert handled[i := true][..n] == handled[..n][i := true];
    }
  }

  // ----- the invariant -------------------------------------------------------------------------------------------

  predicate Holds(s: State, w: nat, i: nat) {
    w < |s.workers| && s.workers[w].pc == Handling(i)
  }

  /** Every drawn case is handled, or in the hands of exactly one worker. */
  ghost predicate Drawn(s: State) {
    && (forall w :: 0 <= w < |s.workers| && s.workers[w].pc.Handling? ==>
                      var i := s.workers[w].pc.case_; i < |s.handled| && i < s.next && !s.handled[i])
    && (forall v, w :: 0 <= v < w < |s.workers| && s.workers[v].pc.Handling? ==> s.workers[v].pc != s.workers[w].pc)
    && (forall i :: 0 <= i < |s.handled| && s.handled[i] ==> i < s.next)
    && (forall i :: 0 <= i < |s.handled| && i < s.next && !s.handled[i] ==> exists w :: Holds(s, w, i))
    && (forall w :: 0 <= w < |s.workers| && s.workers[w].pc.Exited? ==> |s.handled| <= s.next)
  }

  /** Without a mismatch a worker executes every case it records. */
  predicate SameCases(ws: seq<Worker>) { forall w :: 0 <= w < |ws| ==> ws[w].cases == ws[w].executed }

  lemma {:induction false} RecordedIsExecuted(ws: seq<Worker>)
    requires SameCases(ws)
    ensures Recorded(ws) == Executed(ws)
  {
    if ws != [] { RecordedIsExecuted(ws[..|ws| - 1]); }
  }

  ghost predicate Tallied(s: State, keys: Keys) {
    && SameCases(s.workers)
    && Executed(s.workers) == Handled(s.handled)
    && forall k :: WorkersCount(s.workers, k) == HandledCount(s.handled, keys, k)
  }

  lemma DrawStep(s: State, w: nat, keys: Keys)
    requires Drawn(s) && Enabled(s, w)
    ensures Drawn(Step(s, w, keys))
  {
    var s1 := Step(s, w, keys);
    forall i | 0 <= i < |s1.handled| && i < s1.next && !s1.handled[i] ensures exists v :: Holds(s1, v, i) {
      if s.workers[w].pc.Looping? && i == s.next {
        assert Holds(s1, w, i);
      } else {
        var v :| Holds(s, v, i);
        assert Holds(s1, v, i);
      }
    }
  }

  lemma TallyStep(s: State, w: nat, keys: Keys)
    requires Drawn(s) && Tallied(s, keys) && Enabled(s, w)
    ensures Tallied(Step(s, w, keys), keys)
  {
    var s1 := Step(s, w, keys);
    ExecutedUpdate(s.workers, w, s1.workers[w]);
    forall k ensures WorkersCount(s1.workers, k) == HandledCount(s1.handled, keys, k) {
      WorkersUpdate(s.workers, w, s1.workers[w], k);
      if s.workers[w].pc.Handling? {
        var i := s.workers[w].pc.case_;
        IncAllCount(s.workers[w].counts, keys, i, k);
        HandledUpdate(s.handled, i, keys, k);
      }
    }
    if s.workers[w].pc.Handling? {
      HandledUpdate(s.handled, s.workers[w].pc.case_, keys, Fork(0));
    }
  }

  lemma {:induction false} RunKeeps(s: State, schedule: seq<nat>, keys: Keys)
    requires Drawn(s) && Tallied(s, keys) && Execute(s, schedule, keys).Some?
    ensures var t := Execute(s, schedule, keys).value;
            Drawn(t) && Tallied(t, keys) && |t.handled| == |s.handled| && |t.workers| == |s.workers|
    decreases |schedule|
  {
    if schedule != [] {
      var w := schedule[0];
      DrawStep(s, w, keys);
      TallyStep(s, w, keys);
      RunKeeps(Step(s, w, keys), schedule[1..], keys);
    }
  }

  lemma {:induction false} StartTallied(cases: nat, threads: nat, keys: Keys)
    ensures Drawn(Start(cases, threads)) && Tallied(Start(cases, threads), keys)
  {
    var s := Start(cases, threads);
    NothingHandled(s.handled, keys);
    NothingExecuted(s.workers);
  }

  lemma {:induction false} NothingHandled(handled: seq<bool>, keys: Keys)
    requires forall i :: 0 <= i < |handled| ==> !handled[i]
    ensures Handled(handled) == 0 && forall k :: HandledCount(handled, keys, k) == 0
  {
    if handled != [] { NothingHandled(handled[..|handled| - 1], keys); }
  }

  lemma {:induction false} NothingExecuted(ws: seq<Worker>)
    requires forall w :: 0 <= w < |ws| ==> ws[w].executed == 0 && ws[w].counts == map[]
    ensures Executed(ws) == 0 && forall k :: WorkersCount(ws, k) == 0
  {
    if ws != [] { NothingExecuted(ws[..|ws| - 1]); }
  }

  // ----- equal tables -----------------------------------------------------------------------------------------------

  /** Tables never hold a zero, so tables with the same counts are the same. */
  predicate Positive(m: Counts) { forall k :: k in m ==> m[k] > 0 }

  lemma SameCountsSameTable(m: Counts, n: Counts)
    requires Positive(m) && Positive(n) && forall k :: Get(m, k) == Get(n, k)
    ensures m == n
  {
    forall k ensures k in m <==> k in n {
      assert Get(m, k) == Get(n, k);
    }
    assert m.Keys == n.Keys;
    forall k | k in m ensures m[k] == n[k] {
      assert Get(m, k) == Get(n, k);
    }
  }

  lemma {:induction false} IncAllPositive(m: Counts, ks: seq<Key>)
    requires Positive(m)
    ensures Positive(IncAll(m, ks))
    decreases |ks|
  {
    if ks != [] { IncAllPositive(Inc(m, ks[0]), ks[1..]); }
  }

  predicate AllPositive(ws: seq<Worker>) { forall w :: 0 <= w < |ws| ==> Positive(ws[w].counts) }

  lemma {:induction false} RunPositive(s: State, schedule: seq<nat>, keys: Keys)
    requires AllPositive(s.workers) && Execute(s, schedule, keys).Some?
    ensures AllPositive(Execute(s, schedule, keys).value.workers)
    decreases |schedule|
  {
    if schedule != [] {
      var w := schedule[0];
      if s.workers[w].pc.Handling? { IncAllPositive(s.workers[w].counts, keys(s.workers[w].pc.case_)); }
      RunPositive(Step(s, w, keys), schedule[1..], keys);
    }
  }

  lemma {:induction false} MergeAllPositive(ws: seq<Worker>)
    requires AllPositive(ws)
    ensures Positive(MergeAll(ws))
  {
    if ws != [] {
      MergeAllPositive(ws[..|ws| - 1]);
      assert Positive(ws[|ws| - 1].counts);
    }
  }

  lemma {:induction false} SequentialCounts(keys: Keys, n: nat, k: Key)
    ensures Positive(Sequential(keys, n))
    ensures Get(Sequential(keys, n), k) == HandledCount(Repeat(true, n), keys, k)
  {
    if n > 0 {
      SequentialCounts(keys, n - 1, k);
      IncAllPositive(Sequential(keys, n - 1), keys(n - 1));
      IncAllCount(Sequential(keys, n - 1), keys, n - 1, k);
      assert Repeat(true, n)[..n - 1] == Repeat(true, n - 1);
    }
  }

  lemma {:induction false} AllHandled(n: nat)
    ensures Handled(Repeat(true, n)) == n
  {
    if n > 0 {
      AllHandled(n - 1);
      assert Repeat(true, n)[..n - 1] == Repeat(true, n - 1);
    }
  }

  /** The result of any schedule that lets all workers exit, for any keys recorded per case. */
  lemma AllExitedIsSequential(cases: nat, threads: nat, schedule: seq<nat>, keys: Keys)
    requires 0 < threads && Execute(Start(cases, threads), schedule, keys).Some?
    ensures var s := Execute(Start(cases, threads), schedule, keys).value;
            AllExited(s) ==>
              && s.handled == Repeat(true, cases)
              && Executed(s.workers) == Recorded(s.workers) == cases
              && MergeAll(s.workers) == Sequential(keys, cases)
  {
    var s := Execute(Start(cases, threads), schedule, keys).value;
    StartTallied(cases, threads, keys);
    RunKeeps(Start(cases, threads), schedule, keys);
    if AllExited(s) {
      assert s.workers[0].pc.Exited?;
      forall i: nat | i < cases ensures s.handled[i] {
        assert forall w: nat :: !Holds(s, w, i);
      }
      assert s.handled == Repeat(true, cases);
      AllHandled(cases);
      RecordedIsExecuted(s.workers);
      RunPositive(Start(cases, threads), schedule, keys);
      MergeAllPositive(s.workers);
      forall k ensures Get(MergeAll(s.workers), k) == Get(Sequential(keys, cases), k) {
        MergeAllCount(s.workers, k);
        SequentialCounts(keys, cases, k);
      }
      SequentialCounts(keys, cases, Fork(0));
      SameCountsSameTable(MergeAll(s.workers), Sequential(keys, cases));
    }
  }

  /**
   Sharded fuzzing equals sequential fuzzing: for any number of workers and any schedule that lets
   them all exit, every case is handled exactly once, as many cases are executed and recorded as
   were asked for, and the coverage merged in any join order is what one recorder gets from the
   cases in order: the count of a fork, a size, a kind, a feature, an outcome or an error is the
   number of cases, transactions or receipts that have it.
   */
  lemma ShardedIsSequential(cases: nat, threads: nat, schedule: seq<nat>, fuzz: Fuzz, joined: seq<Worker>)
    requires 0 < threads && Execute(Start(cases, threads), schedule, RecordKeys(fuzz)).Some?
    ensures var s := Execute(Start(cases, threads), schedule, RecordKeys(fuzz)).value;
            && AllExited(s)
            && multiset(joined) == multiset(s.workers) ==>
              && s.handled == Repeat(true, cases)
              && Executed(s.workers) == Recorded(s.workers) == cases
              && MergeAll(joined) == Sequential(RecordKeys(fuzz), cases)
              && forall k: Key :: Get(MergeAll(joined), k) == Contributions(fuzz, cases, k)
  {
    var s := Execute(Start(cases, threads), schedule, RecordKeys(fuzz)).value;
    forall k: Key
      ensures Get(Sequential(RecordKeys(fuzz), cases), k) == Contributions(fuzz, cases, k)
    {
      SequentialContributions(fuzz, cases, k);
    }
    AllExitedIsSequential(cases, threads, schedule, RecordKeys(fuzz));
    if multiset(joined) == multiset(s.workers) {
      JoinOrderIsIrrelevant(joined, s.workers);
    }
  }

  // ----- progress -----------------------------------------------------------------------------------------

  function Rank(pc: Pc): nat {
    match pc case Looping => 1 case Handling(_) => 2 case Exited => 0
  }

  function Ranks(ws: seq<Worker>, n: nat): nat
    requires n <= |ws|
  {
    if n == 0 then 0 else Ranks(ws, n - 1) + Rank(ws[n - 1].pc)
  }

  lemma {:induction false} RanksUpdate(ws: seq<Worker>, w: nat, worker: Worker, n: nat)
    requires w < |ws| && n <= |ws|
    ensures Ranks(ws[w := worker], n) == Ranks(ws, n) + if w < n then Rank(worker.pc) - Rank(ws[w].pc) else 0
  {
    if n > 0 { RanksUpdate(ws, w, worker, n - 1); }
  }

  /** Cases still to draw weigh more than a worker's turn. */
  function Measure(s: State): nat {
    2 * SaturatingSub(|s.handled|, s.next) + Ranks(s.workers, |s.workers|)
  }

  lemma StepDecreases(s: State, w: nat, keys: Keys)
    requires Enabled(s, w)
    ensures Measure(Step(s, w, keys)) < Measure(s)
  {
    RanksUpdate(s.workers, w, Step(s, w, keys).workers[w], |s.workers|);
  }

  lemma {:induction false} SchedulesEnd(s: State, schedule: seq<nat>, keys: Keys)
    requires Execute(s, schedule, keys).Some?
    ensures |schedule| + Measure(Execute(s, schedule, keys).value) <= Measure(s)
    decreases |schedule|
  {
    if schedule != [] {
      StepDecreases(s, schedule[0], keys);
      SchedulesEnd(Step(s, schedule[0], keys), schedule[1..], keys);
    }
  }

  /** A worker that has not exited can move. */
  lemma NoneWaits(s: State)
    requires Drawn(s) && !AllExited(s)
    ensures exists w :: Enabled(s, w)
  {
    var w :| 0 <= w < |s.workers| && !s.workers[w].pc.Exited?;
    assert Enabled(s, w);
  }

  lemma {:induction false} ExecuteAppend(s: State, schedule: seq<nat>, more: seq<nat>, keys: Keys)
    requires Execute(s, schedule, keys).Some?
    ensures Execute(s, schedule + more, keys) == Execute(Execute(s, schedule, keys).value, more, keys)
    decreases |schedule|
  {
    if schedule == [] {
      assert schedule + more == more;
    } else {
      assert (schedule + more)[1..] == schedule[1..] + more;
      ExecuteAppend(Step(s, schedule[0], keys), schedule[1..], more, keys);
    }
  }

  /** The schedule is executable and lets every worker exit. */
  predicate Finishes(s: State, schedule: seq<nat>, keys: Keys) {
    Execute(s, schedule, keys).Some? && AllExited(Execute(s, schedule, keys).value)
  }

  lemma {:induction false} CanFinish(s: State, keys: Keys) returns (more: seq<nat>)
    requires Drawn(s)
    ensures Finishes(s, more, keys)
    decreases Measure(s)
  {
    more := [];
    if !AllExited(s) {
      NoneWaits(s);
      var w :| Enabled(s, w);
      DrawStep(s, w, keys);
      StepDecreases(s, w, keys);
      var rest := CanFinish(Step(s, w, keys), keys);
      more := [w] + rest;
      assert more[1..] == rest;
    }
  }

  /**
   Every run of the workers ends: no schedule is longer than the measure of the start, one that
   cannot go on has let all workers exit, and every other one can be continued until it has.
   */
  lemma EveryScheduleFinishes(cases: nat, threads: nat, schedule: seq<nat>, fuzz: Fuzz)
    requires Execute(Start(cases, threads), schedule, RecordKeys(fuzz)).Some?
    ensures |schedule| <= Measure(Start(cases, threads))
    ensures (forall w :: !Enabled(Execute(Start(cases, threads), schedule, RecordKeys(fuzz)).value, w)) ==>
              AllExited(Execute(Start(cases, threads), schedule, RecordKeys(fuzz)).value)
    ensures exists more :: Finishes(Start(cases, threads), schedule + more, RecordKeys(fuzz))
  {
    var keys, start := RecordKeys(fuzz), Start(cases, threads);
    var s := Execute(start, schedule, keys).value;
    StartTallied(cases, threads, keys);
    RunKeeps(start, schedule, keys);
    SchedulesEnd(start, schedule, keys);
    if !AllExited(s) { NoneWaits(s); }
    var more := CanFinish(s, keys);
    ExecuteAppend(start, schedule, more, keys);
    assert Finishes(start, schedule + more, keys);
  }

  /** One recorder for all cases in order. */
  method RecordInOrder(fuzz: Fuzz, n: nat) returns (coverage: Coverage)
    ensures coverage.cases == n && coverage.counts == Sequential(RecordKeys(fuzz), n)
  {
    coverage := new Coverage();
    for i := 0 to n
      invariant coverage.cases == i && coverage.counts == Sequential(RecordKeys(fuzz), i)
      invariant fresh(coverage)
    {
      coverage.RecordHandled(fuzz(i));
    }
  }

  /** The main thread: it adds up the executed cases and merges the workers' coverage. */
  method JoinWorkers(parts: seq<(nat, Coverage)>, ghost ws: seq<Worker>) returns (executed: nat, coverage: Coverage)
    requires |ws| == |parts|
    requires forall i :: 0 <= i < |ws| ==> parts[i].1.Tally(parts[i].0) == (ws[i].executed, ws[i].cases, ws[i].counts)
    ensures executed == Executed(ws) && coverage.cases == Recorded(ws) && coverage.counts == MergeAll(ws)
  {
    executed := 0;
    coverage := new Coverage();
    for i := 0 to |parts|
      invariant executed == Executed(ws[..i]) && coverage.cases == Recorded(ws[..i])
      invariant coverage.counts == MergeAll(ws[..i]) && fresh(coverage)
    {
      assert ws[..i + 1][..i] == ws[..i];
      assert parts[i].1.Tally(parts[i].0) == (ws[i].executed, ws[i].cases, ws[i].counts);
      executed := executed + parts[i].0;
      coverage.MergeFrom(parts[i].1);
    }
    assert ws[..|ws|] == ws;
  }
}
