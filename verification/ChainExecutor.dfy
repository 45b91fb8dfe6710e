/**
 The block-chain executor (crates/eest/src/blockchaintest/execute.rs): each block runs on a
 database taken out of the caller and is committed or discarded, and a successful case is a
 hash-linked chain from its genesis block to its last block.

 What the block executor itself finds is an input: the verdict of each check in the order the
 source runs them, what was read, and the changes a commit would apply.
 */
module ChainExecutor {
  import opened Common
  import opened BlobFee

  type Hash = nat
  type StateKey = nat
  type Word = nat

  const MAX_RLP_BLOCK_SIZE: nat := 8 * 1024 * 1024

  datatype Header = Header(
    hash: Hash,
    parentHash: Hash,
    number: nat,
    excessBlobGas: Option<nat>,
    blobGasUsed: Option<nat>,
    baseFeePerGas: Option<nat>,
    coinbase: nat,
    timestamp: nat,
    gasLimit: nat,
    difficulty: nat,
    mixHash: nat,
    slotNumber: Option<nat>)
  {
    /** Header fields are 256-bit words. */
    predicate Wide() {
      baseFeePerGas.Some? ==> baseFeePerGas.value <= U256_MAX
    }
  }

  datatype Block = Block(header: Option<Header>, rlpLength: nat, expectsException: bool)
  {
    predicate Wide() { header.Some? ==> header.value.Wide() }
  }

  /** The block environment the executor runs a block in. */
  datatype BlockEnv = BlockEnv(
    number: nat,
    beneficiary: nat,
    timestamp: nat,
    gasLimit: nat,
    baseFee: nat,
    difficulty: nat,
    prevrandao: nat,
    blobBaseFee: nat,
    slotNumber: nat)

  /** The environment of a header, with the blob base fee that the fork schedule yields for it. */
  function EnvOf(header: Header, blobBaseFee: nat): BlockEnv {
    BlockEnv(header.number, header.coinbase, header.timestamp, header.gasLimit, OrZero(header.baseFeePerGas),
             header.difficulty, if header.difficulty == 0 then header.mixHash else 0, blobBaseFee,
             OrZero(header.slotNumber))
  }

  // ----- the database --------------------------------------------------------------------------------

  /** An in-memory database: it caches everything read through it. */
  datatype Database = Database(state: map<StateKey, Word>, hashes: map<nat, Hash>)

  const TAKEN := Database(map[], map[])

  /** The empty backing store: absent state is zero, unknown block hashes are made up from the number. */
  function BackingHash(n: nat): Hash { n }

  function StateAt(db: Database, k: StateKey): Word { if k in db.state then db.state[k] else 0 }

  function HashAt(db: Database, n: nat): Hash { if n in db.hashes then db.hashes[n] else BackingHash(n) }

  /** Reading caches what the backing store answers. */
  function ReadThrough(db: Database, keys: set<StateKey>, numbers: set<nat>): Database {
    Database((map k | k in keys :: 0) + db.state, (map n | n in numbers :: BackingHash(n)) + db.hashes)
  }

  /** No reader can tell the two databases apart. */
  ghost predicate SameView(db: Database, other: Database) {
    && (forall k :: StateAt(db, k) == StateAt(other, k))
    && (forall n :: HashAt(db, n) == HashAt(other, n))
  }

  lemma ReadsAreInvisible(db: Database, keys: set<StateKey>, numbers: set<nat>)
    ensures SameView(ReadThrough(db, keys, numbers), db)
  {
  }

  /** Applies a block's changes and records its hash. */
  function Committed(db: Database, changes: map<StateKey, Word>, n: nat, hash: Hash): Database {
    Database(db.state + changes, db.hashes[n := hash])
  }

  /** `after` is `before` with the changes applied and the block's hash recorded. */
  ghost predicate Applied(before: Database, after: Database, changes: map<StateKey, Word>, header: Header) {
    && (forall k :: StateAt(after, k) == if k in changes then changes[k] else StateAt(before, k))
    && (forall n :: HashAt(after, n) == if n == header.number then header.hash else HashAt(before, n))
  }

  lemma CommittedView(db: Database, changes: map<StateKey, Word>, header: Header)
    ensures Applied(db, Committed(db, changes, header.number, header.hash), changes, header)
  {
  }

  lemma AppliedView(before: Database, seen: Database, after: Database, changes: map<StateKey, Word>, header: Header)
    requires SameView(seen, before) && Applied(seen, after, changes, header)
    ensures Applied(before, after, changes, header)
  {
  }

  /** The database answers the hash of the latest committed block of each number. */
  ghost predicate Answers(db: Database, start: Database, chain: seq<Header>) {
    forall n :: HashAt(db, n) == RecordedHash(start, chain, n)
  }

  lemma SameAnswers(db: Database, other: Database, start: Database, chain: seq<Header>)
    requires Answers(db, start, chain) && SameView(other, db)
    ensures Answers(other, start, chain)
  {
    forall n ensures HashAt(other, n) == RecordedHash(start, chain, n) {
      assert HashAt(other, n) == HashAt(db, n);
    }
  }

  lemma AnswersSnoc(before: Database, after: Database, start: Database, chain: seq<Header>, header: Header,
                    changes: map<StateKey, Word>)
    requires Answers(before, start, chain) && Applied(before, after, changes, header)
    ensures Answers(after, start, chain + [header])
  {
    assert (chain + [header])[..|chain|] == chain;
    forall n ensures HashAt(after, n) == RecordedHash(start, chain + [header], n) {
      assert HashAt(before, n) == RecordedHash(start, chain, n);
    }
  }

  // ----- header checks ---------------------------------------------------------------------------------

  function OrZero(o: Option<nat>): nat { if o.Some? then o.value else 0 }

  predicate Usable(params: Option<BlobParams>) {
    params.Some? ==> params.value.Wide() && params.value.Checked()
  }

  /** The block-level checks, with the excess blob gas of EIP-4844 and EIP-7918 in unbounded arithmetic. */
  predicate HeaderValid(rlpLength: nat, header: Header, parent: Option<Header>, params: Option<BlobParams>, osaka: bool)
    requires Usable(params)
  {
    && !(osaka && rlpLength > MAX_RLP_BLOCK_SIZE)
    && match params
       case None => header.excessBlobGas.None? && header.blobGasUsed.None?
       case Some(p) =>
         && header.blobGasUsed.Some?
         && (parent.Some? ==>
               var excess, used := OrZero(parent.value.excessBlobGas), OrZero(parent.value.blobGasUsed);
               && excess + used <= U64_MAX
               && header.excessBlobGas == Some(NextExcess(p, excess, used, OrZero(parent.value.baseFeePerGas))))
  }

  /** The header's excess blob gas is the update of its parent's, whose blob gas adds up in 64 bits. */
  ghost predicate CarriesUpdate(params: BlobParams, parent: Header, header: Header)
    requires 0 < params.updateFraction
  {
    var excess := match parent.excessBlobGas case Some(gas) => gas case None => 0;
    var used := match parent.blobGasUsed case Some(gas) => gas case None => 0;
    var baseFee := match parent.baseFeePerGas case Some(fee) => fee case None => 0;
    && excess + used < 0x1_0000_0000_0000_0000
    && header.excessBlobGas.Some?
    && Updates(params, excess, used, ReserveExceeds(params, excess, baseFee), header.excessBlobGas.value)
  }

  /** The rules of the fork: the size limit of EIP-7934, and the blob fields with the excess blob gas update. */
  ghost predicate FollowsRules(rlpLength: nat, header: Header, parent: Option<Header>, params: Option<BlobParams>,
                               osaka: bool)
    requires Usable(params)
  {
    && (osaka ==> rlpLength <= 0x80_0000)
    && (params.None? ==> header.excessBlobGas.None? && header.blobGasUsed.None?)
    && (params.Some? ==> header.blobGasUsed.Some?)
    && (params.Some? && parent.Some? ==> CarriesUpdate(params.value, parent.value, header))
  }

  /** The checks pass exactly the headers that follow the rules. */
  lemma RulesOfHeader(rlpLength: nat, header: Header, parent: Option<Header>, params: Option<BlobParams>, osaka: bool)
    requires Usable(params)
    ensures HeaderValid(rlpLength, header, parent, params, osaka) <==>
            FollowsRules(rlpLength, header, parent, params, osaka)
  {
    if params.Some? && parent.Some? {
      var p, excess, used := params.value, OrZero(parent.value.excessBlobGas), OrZero(parent.value.blobGasUsed);
      var baseFee := OrZero(parent.value.baseFeePerGas);
      NextExcessUpdates(p, excess, used, baseFee);
      if CarriesUpdate(p, parent.value, header) {
        UpdateIsUnique(p, excess, used, ReserveExceeds(p, excess, baseFee), header.excessBlobGas.value,
                       NextExcess(p, excess, used, baseFee));
      }
    }
  }

  method ValidateBlockHeader(rlpLength: nat, header: Header, parent: Option<Header>, params: Option<BlobParams>,
                             osaka: bool)
    returns (ok: bool)
    requires Usable(params)
    requires parent.Some? ==> parent.value.Wide()
    ensures ok <==> HeaderValid(rlpLength, header, parent, params, osaka)
    ensures ok <==> FollowsRules(rlpLength, header, parent, params, osaka)
  {
    RulesOfHeader(rlpLength, header, parent, params, osaka);
    if osaka && rlpLength > MAX_RLP_BLOCK_SIZE { return false; }
    if params.None? {
      return !(header.excessBlobGas.Some? || header.blobGasUsed.Some?);
    }
    if header.blobGasUsed.None? { return false; }
    if parent.None? { return true; }
    var excess, used := OrZero(parent.value.excessBlobGas), OrZero(parent.value.blobGasUsed);
    if excess + used > U64_MAX { return false; }
    var expected := NextExcessBlobGas(params.value, excess, used, OrZero(parent.value.baseFeePerGas));
    return header.excessBlobGas == Some(expected);
  }

  // ----- one block ------------------------------------------------------------------------------------------

  /** A check inside the block: passed, the block is invalid, or the harness itself failed. */
  datatype Verdict = Pass | Invalid | Broken

  /** What the executor and the schedule yield for one block. */
  datatype Run = Run(
    accessListValid: bool,
    params: Result<Option<BlobParams>, ()>,
    blobBaseFee: nat,
    osaka: bool,
    verdicts: seq<Verdict>,
    keysRead: set<StateKey>,
    numbersRead: set<nat>,
    changes: map<StateKey, Word>,
    stateRootMatches: bool)
  {
    predicate Wide() {
      params.Ok? && params.value.Some? ==> params.value.value.Wide()
    }

    predicate AllPass() {
      forall i :: 0 <= i < |verdicts| ==> verdicts[i].Pass?
    }
  }

  datatype TestError =
    | InvalidAccessList
    | MissingBlobParams
    | InvalidBlobSchedule
    | ParentBlockHashMismatch
    | UnexpectedFailure
    | UnexpectedSuccess
    | NoHeader
    | StateRootMismatch
    | LastBlockHashMismatch

  datatype Resolution = Commit(hash: Hash) | Discard

  /** The first check that did not pass decides. */
  function FirstFailure(verdicts: seq<Verdict>): Verdict {
    if verdicts == [] then Pass
    else if !verdicts[0].Pass? then verdicts[0]
    else FirstFailure(verdicts[1..])
  }

  lemma {:induction false} FailureAt(verdicts: seq<Verdict>, i: nat)
    requires i < |verdicts| && !verdicts[i].Pass? && forall j :: 0 <= j < i ==> verdicts[j].Pass?
    ensures FirstFailure(verdicts) == verdicts[i]
  {
    if i > 0 { FailureAt(verdicts[1..], i - 1); }
  }

  lemma {:induction false} NoFailure(verdicts: seq<Verdict>)
    requires forall j :: 0 <= j < |verdicts| ==> verdicts[j].Pass?
    ensures FirstFailure(verdicts) == Pass
  {
    if verdicts != [] { NoFailure(verdicts[1..]); }
  }

  /** The judgement on a block after a parent with this hash: parent hash and header first, then the checks. */
  function Judge(block: Block, hash: Hash, parent: Option<Header>, params: Option<BlobParams>, run: Run): Verdict
    requires Usable(params)
  {
    if block.header.Some? && block.header.value.parentHash != hash then Invalid
    else if block.header.Some? && !HeaderValid(block.rlpLength, block.header.value, parent, params, run.osaka) then
      Invalid
    else FirstFailure(run.verdicts)
  }

  /** The same with the checks that come before: an invalid access list, and blob parameters that are no use. */
  function JudgeBlock(block: Block, hash: Hash, parent: Option<Header>, run: Run): Verdict
    requires run.Wide()
  {
    var params := if block.header.Some? then run.params else Ok(None);
    if !run.accessListValid then Invalid
    else if params.Err? || (params.value.Some? && !params.value.value.Checked()) then Broken
    else Judge(block, hash, parent, params.value, run)
  }

  /** The block turns out as the fixture says: invalid, or valid with a header and the state root it names. */
  predicate AsExpected(block: Block, hash: Hash, parent: Option<Header>, run: Run)
    requires run.Wide()
  {
    if block.expectsException then JudgeBlock(block, hash, parent, run) == Invalid
    else JudgeBlock(block, hash, parent, run) == Pass && block.header.Some? && run.stateRootMatches
  }

  /** The first check that did not pass found the block invalid. */
  ghost predicate FailsFirst(verdicts: seq<Verdict>) {
    exists i :: 0 <= i < |verdicts| && verdicts[i].Invalid? && forall j :: 0 <= j < i ==> verdicts[j].Pass?
  }

  lemma {:induction false} FirstFailureIs(verdicts: seq<Verdict>)
    ensures FirstFailure(verdicts) == Invalid <==> FailsFirst(verdicts)
    ensures FirstFailure(verdicts) == Pass <==> forall i :: 0 <= i < |verdicts| ==> verdicts[i].Pass?
  {
    if i :| 0 <= i < |verdicts| && !verdicts[i].Pass? && forall j :: 0 <= j < i ==> verdicts[j].Pass? {
      FailureAt(verdicts, i);
    } else {
      NoneFails(verdicts, |verdicts|);
      NoFailure(verdicts);
    }
  }

  lemma {:induction false} NoneFails(verdicts: seq<Verdict>, n: nat)
    requires n <= |verdicts|
    requires !exists i :: 0 <= i < |verdicts| && !verdicts[i].Pass? && forall j :: 0 <= j < i ==> verdicts[j].Pass?
    ensures forall j :: 0 <= j < n ==> verdicts[j].Pass?
  {
    if n > 0 { NoneFails(verdicts, n - 1); }
  }

  /** The fork schedule yields parameters for the block that the executor can use: their blob gas fits 64 bits. */
  predicate Scheduled(block: Block, run: Run) {
    block.header.Some? ==>
      && run.params.Ok?
      && (run.params.value.Some? ==>
            var p := run.params.value.value;
            0 < p.maxBlobCount && p.targetBlobCount <= p.maxBlobCount && p.maxBlobCount * 0x2_0000 <= U64_MAX)
  }

  /** The block names its parent and follows the rules. */
  ghost predicate Follows(block: Block, hash: Hash, parent: Option<Header>, run: Run)
    requires Scheduled(block, run) && run.Wide()
  {
    block.header.Some? ==>
      && block.header.value.parentHash == hash
      && FollowsRules(block.rlpLength, block.header.value, parent, run.params.value, run.osaka)
  }

  /** What makes a block invalid. */
  ghost predicate Faulty(block: Block, hash: Hash, parent: Option<Header>, run: Run)
    requires run.Wide()
  {
    || !run.accessListValid
    || (Scheduled(block, run) && (!Follows(block, hash, parent, run) || FailsFirst(run.verdicts)))
  }

  /** What makes a block valid. */
  ghost predicate Faultless(block: Block, hash: Hash, parent: Option<Header>, run: Run)
    requires run.Wide()
  {
    && run.accessListValid && block.header.Some?
    && Scheduled(block, run) && Follows(block, hash, parent, run) && run.AllPass()
  }

  lemma Judged(block: Block, hash: Hash, parent: Option<Header>, run: Run)
    requires run.Wide()
    ensures JudgeBlock(block, hash, parent, run) == Invalid <==> Faulty(block, hash, parent, run)
    ensures block.header.Some? && JudgeBlock(block, hash, parent, run) == Pass <==> Faultless(block, hash, parent, run)
  {
    FirstFailureIs(run.verdicts);
    if block.header.Some? && Scheduled(block, run) {
      RulesOfHeader(block.rlpLength, block.header.value, parent, run.params.value, run.osaka);
    }
  }

  class Chain {
    var database: Database
    var env: BlockEnv
    var parentHash: Option<Hash>
    var parentHeader: Header
    /** The blocks committed so far. */
    ghost var committed: seq<Header>
    ghost const genesis: Header
    /** The database the case started from. */
    ghost const start: Database

    constructor (genesis: Header, blobBaseFee: nat, database: Database)
      requires genesis.Wide()
      ensures Valid() && committed == []
      ensures this.genesis == genesis && this.start == database && this.database == database
    {
      this.database, this.genesis, this.start := database, genesis, database;
      this.env, this.parentHash, this.parentHeader := EnvOf(genesis, blobBaseFee), Some(genesis.hash), genesis;
      this.committed := [];
    }

    /**
     The tracked parent is the last committed block, or the genesis block; the committed blocks are
     linked by parent hash; and the database answers the committed block hashes.
     */
    ghost predicate Valid()
      reads this
    {
      Tracks(database)
    }

    /** `Valid` for a database that may be taken out. */
    ghost predicate Tracks(db: Database)
      reads this
    {
      && parentHeader == LastOf(genesis, committed)
      && parentHash == Some(parentHeader.hash)
      && env == EnvOf(parentHeader, env.blobBaseFee)
      && LinkedFrom(genesis, committed)
      && parentHeader.Wide()
      && Answers(db, start, committed)
    }

    /** Nothing the caller can observe has changed. */
    twostate predicate Unchanged()
      reads this
    {
      && SameView(database, old(database))
      && env == old(env) && parentHash == old(parentHash) && parentHeader == old(parentHeader)
      && committed == old(committed)
    }

    /** Everything has advanced to `header`. */
    twostate predicate AdvancedTo(header: Header, run: Run)
      reads this
    {
      && old(parentHash) == Some(header.parentHash)
      && Applied(old(database), database, run.changes, header)
      && env.number == header.number && env.beneficiary == header.coinbase && env.timestamp == header.timestamp
      && env.gasLimit == header.gasLimit && env.difficulty == header.difficulty
      && env.baseFee == (if header.baseFeePerGas.Some? then header.baseFeePerGas.value else 0)
      && env.prevrandao == (if header.difficulty == 0 then header.mixHash else 0)
      && env.blobBaseFee == run.blobBaseFee
      && env.slotNumber == (if header.slotNumber.Some? then header.slotNumber.value else 0)
      && parentHash == Some(header.hash) && parentHeader == header
      && committed == old(committed) + [header]
    }

    /** The checks on a block whose database has been taken out. */
    method Resolve(block: Block, parent: Option<Header>, params: Option<BlobParams>, run: Run)
      returns (r: Result<Resolution, TestError>)
      requires parentHash.Some?
      requires Usable(params)
      requires parent.Some? ==> parent.value.Wide()
      ensures r == Ok(Discard) <==>
                block.expectsException && Judge(block, parentHash.value, parent, params, run) == Invalid
      ensures r.Ok? && r.value.Commit? <==>
                && !block.expectsException && block.header.Some?
                && Judge(block, parentHash.value, parent, params, run) == Pass
      ensures r.Ok? && r.value.Commit? ==>
                && r.value.hash == block.header.value.hash
                && block.header.value.parentHash == parentHash.value && run.AllPass()
                && HeaderValid(block.rlpLength, block.header.value, parent, params, run.osaka)
      ensures block.header.Some? && !HeaderValid(block.rlpLength, block.header.value, parent, params, run.osaka) ==>
                if block.expectsException then r == Ok(Discard) else r.Err?
      ensures block.expectsException && Judge(block, parentHash.value, parent, params, run) == Pass ==>
                r == Err(UnexpectedSuccess)
    {
      if block.header.Some? && block.header.value.parentHash != parentHash.value {
        return Reject(block, ParentBlockHashMismatch);
      }
      if block.header.Some? {
        var ok := ValidateBlockHeader(block.rlpLength, block.header.value, parent, params, run.osaka);
        if !ok { return Reject(block, UnexpectedFailure); }
      }
      for i := 0 to |run.verdicts|
        invariant forall j :: 0 <= j < i ==> run.verdicts[j].Pass?
      {
        if !run.verdicts[i].Pass? {
          FailureAt(run.verdicts, i);
          return if run.verdicts[i].Broken? then Err(UnexpectedFailure) else Reject(block, UnexpectedFailure);
        }
      }
      NoFailure(run.verdicts);
      if block.expectsException { return Err(UnexpectedSuccess); }
      if block.header.None? { return Err(NoHeader); }
      return Ok(Commit(block.header.value.hash));
    }

    static function KnownParent(known: bool, parent: Header): Option<Header> {
      if known then Some(parent) else None
    }

    /** An invalid block is discarded when the fixture expects an exception, and fails the case otherwise. */
    static function Reject(block: Block, error: TestError): Result<Resolution, TestError> {
      if block.expectsException then Ok(Discard) else Err(error)
    }

    /**
     One block. On every exit path the caller's database, environment, parent hash and parent
     header are either all unchanged or all advanced to the block; a block that expects an
     exception never advances them, and a block that does not succeeds only by advancing them. It
     succeeds exactly when the block turns out as expected. A faulty block never commits and
     succeeds when an exception is expected; a faultless one succeeds when none is and its state
     root matches; any other fails.
     */
    method ExecuteBlock(block: Block, run: Run, parentKnown: bool) returns (r: Result<(), TestError>)
      requires Valid() && run.Wide() && block.Wide()
      modifies this
      ensures Valid()
      ensures Unchanged() || (block.header.Some? && AdvancedTo(block.header.value, run))
      ensures block.expectsException ==> Unchanged()
      ensures r.Ok? && !block.expectsException ==>
                && block.header.Some? && AdvancedTo(block.header.value, run)
                && run.AllPass()
      ensures r.Err? && r.error != StateRootMismatch ==> Unchanged()
      ensures r.Ok? <==> AsExpected(block, old(parentHash).value, KnownParent(parentKnown, old(parentHeader)), run)
      ensures Faulty(block, old(parentHash).value, KnownParent(parentKnown, old(parentHeader)), run) ==>
                Unchanged() && (r.Ok? <==> block.expectsException)
      ensures Faultless(block, old(parentHash).value, KnownParent(parentKnown, old(parentHeader)), run) ==>
                if block.expectsException then Unchanged() && r == Err(UnexpectedSuccess)
                else AdvancedTo(block.header.value, run) && (r.Ok? <==> run.stateRootMatches)
      ensures !Faulty(block, old(parentHash).value, KnownParent(parentKnown, old(parentHeader)), run) &&
              !Faultless(block, old(parentHash).value, KnownParent(parentKnown, old(parentHeader)), run) ==>
                Unchanged() && r.Err?
      ensures r.Ok? && !block.expectsException ==>
                && Scheduled(block, run)
                && HeaderValid(block.rlpLength, block.header.value, KnownParent(parentKnown, old(parentHeader)),
                               run.params.value, run.osaka)
    {
      Judged(block, parentHash.value, KnownParent(parentKnown, parentHeader), run);
      if !run.accessListValid {
        return if block.expectsException then Ok(()) else Err(InvalidAccessList);
      }
      var nextEnv := env;
      var params := None;
      if block.header.Some? {
        if run.params.Err? { return Err(MissingBlobParams); }
        nextEnv, params := EnvOf(block.header.value, run.blobBaseFee), run.params.value;
      }
      if params.Some? && !params.value.Checked() {
        return Err(InvalidBlobSchedule);
      }
      var taken := database;
      database := TAKEN;
      assert Tracks(taken);
      var parent := KnownParent(parentKnown, parentHeader);
      var resolution := Resolve(block, parent, params, run);
      var restored := ReadThrough(taken, run.keysRead, run.numbersRead);
      ReadsAreInvisible(taken, run.keysRead, run.numbersRead);
      SameAnswers(taken, restored, start, committed);
      match resolution
      case Ok(Commit(hash)) =>
        CommitBlock(block.header.value, nextEnv, run, restored);
        AppliedView(taken, restored, database, run.changes, block.header.value);
        if !run.stateRootMatches { return Err(StateRootMismatch); }
        return Ok(());
      case Ok(Discard) =>
        database := restored;
        return Ok(());
      case Err(e) =>
        database := restored;
        return Err(e);
    }

    method LastHash() returns (hash: Hash)
      requires Valid()
      ensures hash == LastOf(genesis, committed).hash
    {
      return parentHash.value;
    }

    /** Applies the block to the restored database and makes it the parent. */
    method CommitBlock(header: Header, nextEnv: BlockEnv, run: Run, restored: Database)
      requires Tracks(restored) && header.Wide() && parentHash == Some(header.parentHash)
      requires nextEnv == EnvOf(header, run.blobBaseFee)
      modifies this
      ensures Valid()
      ensures Applied(restored, database, run.changes, header)
      ensures env == nextEnv && parentHash == Some(header.hash) && parentHeader == header
      ensures committed == old(committed) + [header]
    {
      database := Committed(restored, run.changes, nextEnv.number, header.hash);
      CommittedView(restored, run.changes, header);
      env, parentHash, parentHeader := nextEnv, Some(header.hash), header;
      LinkSnoc(genesis, committed, header);
      AnswersSnoc(restored, database, start, committed, header, run.changes);
      committed := committed + [header];
    }
  }

  // ----- the chain --------------------------------------------------------------------------------------------

  function LastOf(genesis: Header, chain: seq<Header>): Header {
    if chain == [] then genesis else chain[|chain| - 1]
  }

  /** Every block names the one before it, back to the genesis block. */
  predicate LinkedFrom(genesis: Header, chain: seq<Header>) {
    && (chain != [] ==> chain[0].parentHash == genesis.hash)
    && forall i, j :: 0 <= i && j == i + 1 < |chain| ==> chain[j].parentHash == chain[i].hash
  }

  /** The hash of the latest committed block with number `n`, or what the starting database says. */
  function RecordedHash(start: Database, chain: seq<Header>, n: nat): Hash {
    if chain == [] then HashAt(start, n)
    else if chain[|chain| - 1].number == n then chain[|chain| - 1].hash
    else RecordedHash(start, chain[..|chain| - 1], n)
  }

  lemma LinkSnoc(genesis: Header, chain: seq<Header>, header: Header)
    requires LinkedFrom(genesis, chain) && header.parentHash == LastOf(genesis, chain).hash
    ensures LinkedFrom(genesis, chain + [header])
  {
  }

  // ----- the case -----------------------------------------------------------------------------------------------

  /** The headers of the blocks that do not expect an exception, in order. */
  function ExpectedChain(blocks: seq<Block>): seq<Header> {
    if blocks == [] then []
    else
      var last := blocks[|blocks| - 1];
      ExpectedChain(blocks[..|blocks| - 1]) +
      if !last.expectsException && last.header.Some? then [last.header.value] else []
  }

  /** Block `i`, after the expected blocks before it, turns out as expected; a captured case has no parent header. */
  predicate TurnsOut(genesis: Header, blocks: seq<Block>, runs: seq<Run>, captured: bool, i: nat)
    requires i < |blocks| == |runs| && runs[i].Wide()
  {
    var parent := LastOf(genesis, ExpectedChain(blocks[..i]));
    AsExpected(blocks[i], parent.hash, Chain.KnownParent(!(captured && i == 0), parent), runs[i])
  }

  /** The first `n` blocks turn out as expected. */
  predicate AllTurnOut(genesis: Header, blocks: seq<Block>, runs: seq<Run>, captured: bool, n: nat)
    requires n <= |blocks| == |runs| && forall i :: 0 <= i < |runs| ==> runs[i].Wide()
  {
    forall i :: 0 <= i < n ==> TurnsOut(genesis, blocks, runs, captured, i)
  }

  /** The parent of block `i`: the last block expected before it, or the genesis block. */
  function ParentOf(genesis: Header, blocks: seq<Block>, i: nat): Header
    requires i < |blocks|
  {
    LastOf(genesis, ExpectedChain(blocks[..i]))
  }

  /** Block `i` is faulty when an exception is expected, and otherwise faultless with the state root it names. */
  ghost predicate Told(genesis: Header, blocks: seq<Block>, runs: seq<Run>, captured: bool, i: nat)
    requires i < |blocks| == |runs| && runs[i].Wide()
  {
    var parent := ParentOf(genesis, blocks, i);
    var known := if captured && i == 0 then None else Some(parent);
    if blocks[i].expectsException then Faulty(blocks[i], parent.hash, known, runs[i])
    else Faultless(blocks[i], parent.hash, known, runs[i]) && runs[i].stateRootMatches
  }

  lemma TurnsOutAsTold(genesis: Header, blocks: seq<Block>, runs: seq<Run>, captured: bool, i: nat)
    requires i < |blocks| == |runs| && runs[i].Wide()
    ensures TurnsOut(genesis, blocks, runs, captured, i) <==> Told(genesis, blocks, runs, captured, i)
  {
    var parent := ParentOf(genesis, blocks, i);
    Judged(blocks[i], parent.hash, Chain.KnownParent(!(captured && i == 0), parent), runs[i]);
  }

  /** A committed block with blob parameters carries the update of the excess its parent left. */
  ghost predicate ExcessFollows(genesis: Header, blocks: seq<Block>, runs: seq<Run>, i: nat)
    requires i < |blocks| == |runs|
  {
    && blocks[i].header.Some? && runs[i].params.Ok?
    && (runs[i].params.value.Some? ==>
          && runs[i].params.value.value.updateFraction > 0
          && CarriesUpdate(runs[i].params.value.value, ParentOf(genesis, blocks, i), blocks[i].header.value))
  }

  lemma ExcessIsTold(genesis: Header, blocks: seq<Block>, runs: seq<Run>, captured: bool, i: nat)
    requires i < |blocks| == |runs| && runs[i].Wide() && Told(genesis, blocks, runs, captured, i)
    ensures !blocks[i].expectsException && !(captured && i == 0) ==> ExcessFollows(genesis, blocks, runs, i)
  {
  }

  /**
   The whole case. It succeeds exactly when every block turns out as the fixture expects, after the
   blocks expected before it, and the last of them has the hash `lastBlockHash`. Then the committed
   blocks are exactly the blocks that expect no exception, linked by parent hash from the genesis
   block, and each with blob parameters carries the update of the excess its parent left. Whatever
   happens, they are the ones expected of the first `done` blocks.
   */
  method ExecuteCase(chain: Chain, blocks: seq<Block>, runs: seq<Run>, captured: bool, lastBlockHash: Hash)
    returns (r: Result<(), TestError>, ghost done: nat)
    requires chain.Valid() && chain.committed == []
    requires |runs| == |blocks|
    requires forall i :: 0 <= i < |runs| ==> runs[i].Wide()
    requires forall i :: 0 <= i < |blocks| ==> blocks[i].Wide()
    modifies chain
    ensures chain.Valid()
    ensures done <= |blocks| && chain.committed == ExpectedChain(blocks[..done])
    ensures r.Ok? <==>
              && AllTurnOut(chain.genesis, blocks, runs, captured, |blocks|)
              && LastOf(chain.genesis, ExpectedChain(blocks)).hash == lastBlockHash
    ensures r.Ok? ==> done == |blocks| && LastOf(chain.genesis, chain.committed).hash == lastBlockHash
    ensures r.Ok? ==> forall i :: 0 <= i < |blocks| ==> Told(chain.genesis, blocks, runs, captured, i)
    ensures r.Ok? ==> forall i :: 0 <= i < |blocks| && !blocks[i].expectsException && !(captured && i == 0) ==>
                        ExcessFollows(chain.genesis, blocks, runs, i)
  {
    r, done := Ok(()), 0;
    for i := 0 to |blocks|
      invariant r.Ok? && done == i && chain.Valid()
      invariant chain.committed == ExpectedChain(blocks[..done])
      invariant AllTurnOut(chain.genesis, blocks, runs, captured, i)
    {
      r, done := ExecuteNext(chain, blocks, runs, captured, i);
      if r.Err? { return; }
    }
    assert blocks[..|blocks|] == blocks;
    forall i | 0 <= i < |blocks|
      ensures Told(chain.genesis, blocks, runs, captured, i)
      ensures !blocks[i].expectsException && !(captured && i == 0) ==> ExcessFollows(chain.genesis, blocks, runs, i)
    {
      TurnsOutAsTold(chain.genesis, blocks, runs, captured, i);
      ExcessIsTold(chain.genesis, blocks, runs, captured, i);
    }
    var last := chain.LastHash();
    if last != lastBlockHash { r := Err(LastBlockHashMismatch); }
  }

  /** Block `i` of the case; afterwards the committed blocks are the expected ones up to `done`. */
  method ExecuteNext(chain: Chain, blocks: seq<Block>, runs: seq<Run>, captured: bool, i: nat)
    returns (r: Result<(), TestError>, ghost done: nat)
    requires i < |blocks| == |runs| && chain.Valid() && runs[i].Wide() && blocks[i].Wide()
    requires chain.committed == ExpectedChain(blocks[..i])
    modifies chain
    ensures chain.Valid()
    ensures i <= done <= i + 1 && chain.committed == ExpectedChain(blocks[..done])
    ensures r.Ok? ==> done == i + 1
    ensures r.Ok? <==> TurnsOut(chain.genesis, blocks, runs, captured, i)
  {
    r := chain.ExecuteBlock(blocks[i], runs[i], !(captured && i == 0));
    ExpectedSnoc(blocks, i);
    done := if r.Ok? || chain.committed != ExpectedChain(blocks[..i]) then i + 1 else i;
  }

  lemma ExpectedSnoc(blocks: seq<Block>, i: nat)
    requires i < |blocks|
    ensures ExpectedChain(blocks[..i + 1]) ==
            if !blocks[i].expectsException && blocks[i].header.Some?
            then ExpectedChain(blocks[..i]) + [blocks[i].header.value] else ExpectedChain(blocks[..i])
  {
    assert blocks[..i + 1][..i] == blocks[..i];
  }

  // ----- block hashes --------------------------------------------------------------------------------------------

  /** Blocks with the same number have the same hash; in particular when all numbers are distinct. */
  predicate NumbersDetermineHashes(chain: seq<Header>) {
    forall i, j :: 0 <= i < j < |chain| && chain[i].number == chain[j].number ==> chain[i].hash == chain[j].hash
  }

  predicate AnswersEveryBlock(start: Database, chain: seq<Header>) {
    forall i :: 0 <= i < |chain| ==> RecordedHash(start, chain, chain[i].number) == chain[i].hash
  }

  lemma {:induction false} LatestWins(start: Database, chain: seq<Header>, i: nat, n: nat)
    requires i < |chain| && chain[i].number == n
    requires forall j :: i < j < |chain| ==> chain[j].number != n
    ensures RecordedHash(start, chain, n) == chain[i].hash
    decreases |chain|
  {
    if i < |chain| - 1 {
      LatestWins(start, chain[..|chain| - 1], i, n);
    }
  }

  /** The last block with number `n` from position `i` on. */
  lemma {:induction false} LastIndex(chain: seq<Header>, i: nat, k: nat) returns (j: nat)
    requires i <= k < |chain| && chain[k].number == chain[i].number
    ensures i <= j < |chain| && chain[j].number == chain[i].number
    ensures forall m :: j < m < |chain| ==> chain[m].number != chain[i].number
    decreases |chain| - k
  {
    if m :| k < m < |chain| && chain[m].number == chain[i].number {
      j := LastIndex(chain, i, m);
    } else {
      j := k;
    }
  }

  /** Every committed block is found under its number exactly when equal numbers mean equal hashes. */
  lemma BlockHashesAreKept(start: Database, chain: seq<Header>)
    ensures AnswersEveryBlock(start, chain) <==> NumbersDetermineHashes(chain)
  {
    if AnswersEveryBlock(start, chain) {
      forall i, j | 0 <= i < j < |chain| && chain[i].number == chain[j].number
        ensures chain[i].hash == chain[j].hash
      {
        assert RecordedHash(start, chain, chain[i].number) == chain[i].hash;
        assert RecordedHash(start, chain, chain[j].number) == chain[j].hash;
      }
    }
    if NumbersDetermineHashes(chain) {
      forall i | 0 <= i < |chain| ensures RecordedHash(start, chain, chain[i].number) == chain[i].hash {
        var j := LastIndex(chain, i, i);
        LatestWins(start, chain, j, chain[i].number);
      }
    }
  }
}
