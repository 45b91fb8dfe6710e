/**
 The post-state check of the block-chain executor
 (crates/eest/src/blockchaintest/execute.rs, `validate_post_state`): six loops over the cached
 accounts and slots, against the pointwise meaning of "the database holds the expected state".
 */
module PostState {
  import opened Common

  type Address = nat
  type Slot = nat
  type Word = nat
  type Hash = nat
  type Code = seq<nat>

  datatype Info = Info(balance: Word, nonce: nat, codeHash: Hash, code: Option<Code>)

  /** The cache of an in-memory database; a `None` account is known to be absent. */
  datatype Cache = Cache(
    accounts: map<Address, Option<Info>>,
    contracts: map<Hash, Code>,
    storage: map<Address, map<Slot, Word>>)

  datatype Expected = Expected(balance: Word, nonce: Word, code: Code, storage: map<Slot, Word>)

  const KECCAK256_EMPTY: Hash := 0
  const DEFAULT_INFO := Info(0, 0, KECCAK256_EMPTY, Some([]))

  function InfoAt(db: Cache, a: Address): Info {
    if a in db.accounts && db.accounts[a].Some? then db.accounts[a].value else DEFAULT_INFO
  }

  function CodeOf(db: Cache, info: Info): Code {
    if info.code.Some? then info.code.value
    else if info.codeHash in db.contracts then db.contracts[info.codeHash]
    else []
  }

  function SlotAt(db: Cache, a: Address, s: Slot): Word {
    if a in db.storage && s in db.storage[a] then db.storage[a][s] else 0
  }

  function ExpectedSlot(e: Expected, s: Slot): Word { if s in e.storage then e.storage[s] else 0 }

  // ----- meaning -------------------------------------------------------------------------------------

  /** The code stands in the account, or else in the contract table under its hash, or else is empty. */
  ghost predicate HoldsCode(db: Cache, info: Info, code: Code) {
    && (info.code.Some? ==> info.code.value == code)
    && (info.code.None? && info.codeHash in db.contracts ==> db.contracts[info.codeHash] == code)
    && (info.code.None? && info.codeHash !in db.contracts ==> code == [])
  }

  /** A live account has the expected fields; one that is absent or unknown has the fields of an empty account. */
  ghost predicate AccountAgrees(db: Cache, a: Address, e: Expected) {
    && (if a in db.accounts && db.accounts[a].Some? then
          var info := db.accounts[a].value;
          info.balance == e.balance && info.nonce == e.nonce && HoldsCode(db, info, e.code)
        else e.balance == 0 && e.nonce == 0 && e.code == [])
    && forall s :: SlotAt(db, a, s) == ExpectedSlot(e, s)
  }

  /** No live account and no nonzero slot. */
  ghost predicate Vacant(db: Cache, a: Address) {
    && !(a in db.accounts && db.accounts[a].Some?)
    && forall s :: SlotAt(db, a, s) == 0
  }

  ghost predicate Matches(db: Cache, expected: map<Address, Expected>) {
    forall a :: if a in expected then AccountAgrees(db, a, expected[a]) else Vacant(db, a)
  }

  /** Account nonces are 64-bit; an expected nonce is cut to that range before it is compared. */
  function Saturated(e: Expected): Expected {
    e.(nonce := if e.nonce <= U64_MAX then e.nonce else U64_MAX)
  }

  function AllSaturated(expected: map<Address, Expected>): map<Address, Expected> {
    map a | a in expected :: Saturated(expected[a])
  }

  // ----- the check -----------------------------------------------------------------------------------------

  method CheckAccount(db: Cache, a: Address, e: Expected) returns (ok: bool)
    ensures ok <==> AccountAgrees(db, a, Saturated(e))
  {
    var info := InfoAt(db, a);
    if info.balance != e.balance { return false; }
    if info.nonce != Saturated(e).nonce { return false; }
    if CodeOf(db, info) != e.code { return false; }
    var slots := if a in db.storage then db.storage[a] else map[];
    var unexpected := NonzeroOutside(slots, e.storage.Keys);
    if unexpected.Some? {
      assert SlotAt(db, a, unexpected.value) != ExpectedSlot(e, unexpected.value);
      return false;
    }
    var rest := e.storage.Keys;
    while rest != {}
      invariant rest <= e.storage.Keys
      invariant forall s :: s in e.storage && s !in rest ==> SlotAt(db, a, s) == e.storage[s]
    {
      var s :| s in rest;
      rest := rest - {s};
      if SlotAt(db, a, s) != e.storage[s] {
        assert SlotAt(db, a, s) != ExpectedSlot(e, s);
        return false;
      }
    }
    return true;
  }

  /** A nonzero slot that is not among the expected ones, if there is any. */
  method NonzeroOutside(slots: map<Slot, Word>, expected: set<Slot>) returns (r: Option<Slot>)
    ensures r.Some? ==> r.value in slots && slots[r.value] != 0 && r.value !in expected
    ensures r.None? ==> forall s :: s in slots && s !in expected ==> slots[s] == 0
  {
    var rest := slots.Keys;
    while rest != {}
      invariant rest <= slots.Keys
      invariant forall s :: s in slots && s !in rest && s !in expected ==> slots[s] == 0
    {
      var s :| s in rest;
      rest := rest - {s};
      if slots[s] != 0 && s !in expected { return Some(s); }
    }
    return None;
  }

  /** The accounts that must not be there: live ones and storage-only ones. */
  method CheckVacant(db: Cache, expected: set<Address>) returns (ok: bool)
    ensures ok <==> forall a :: a !in expected ==> Vacant(db, a)
  {
    var rest := db.accounts.Keys;
    while rest != {}
      invariant rest <= db.accounts.Keys
      invariant forall a :: a in db.accounts && a !in rest && a !in expected ==> db.accounts[a].None?
    {
      var a :| a in rest;
      rest := rest - {a};
      if db.accounts[a].Some? && a !in expected {
        assert !Vacant(db, a);
        return false;
      }
    }
    rest := db.storage.Keys;
    while rest != {}
      invariant rest <= db.storage.Keys
      invariant forall a, s :: a in db.storage && a !in rest && a !in expected ==> SlotAt(db, a, s) == 0
    {
      var a :| a in rest;
      rest := rest - {a};
      if a !in expected {
        var nonzero := NonzeroOutside(db.storage[a], {});
        if nonzero.Some? {
          assert SlotAt(db, a, nonzero.value) != 0;
          assert !Vacant(db, a);
          return false;
        }
      }
    }
    return true;
  }

  /** The check accepts exactly the databases that hold the expected state with saturated nonces. */
  method ValidatePostState(db: Cache, expected: map<Address, Expected>) returns (ok: bool)
    ensures ok <==> Matches(db, AllSaturated(expected))
  {
    var rest := expected.Keys;
    while rest != {}
      invariant rest <= expected.Keys
      invariant forall a :: a in expected && a !in rest ==> AccountAgrees(db, a, Saturated(expected[a]))
    {
      var a :| a in rest;
      rest := rest - {a};
      var agrees := CheckAccount(db, a, expected[a]);
      if !agrees {
        assert !AccountAgrees(db, a, AllSaturated(expected)[a]);
        return false;
      }
    }
    ok := CheckVacant(db, expected.Keys);
    if !ok {
      ghost var a :| a !in expected.Keys && !Vacant(db, a);
      assert a !in AllSaturated(expected);
    }
  }

  // ----- when the check is exact --------------------------------------------------------------------------------

  predicate NoncesFit(expected: map<Address, Expected>) {
    forall a :: a in expected ==> expected[a].nonce <= U64_MAX
  }

  /** The check means `Matches` for this expectation, whatever the database. */
  ghost predicate Exact(expected: map<Address, Expected>) {
    forall db :: Matches(db, AllSaturated(expected)) <==> Matches(db, expected)
  }

  /** A database that holds exactly an expected state. */
  function Holding(expected: map<Address, Expected>): Cache {
    Cache(map a | a in expected ::
            Some(Info(expected[a].balance, expected[a].nonce, KECCAK256_EMPTY, Some(expected[a].code))),
          map[],
          map a | a in expected :: expected[a].storage)
  }

  lemma HoldingMatches(expected: map<Address, Expected>)
    ensures Matches(Holding(expected), expected)
  {
  }

  /**
   The check is exact precisely when every expected nonce fits 64 bits: an oversized expected nonce
   is taken for the largest nonce an account can have.
   */
  lemma ExactIffNoncesFit(expected: map<Address, Expected>)
    ensures Exact(expected) <==> NoncesFit(expected)
  {
    if NoncesFit(expected) {
      assert AllSaturated(expected) == expected;
    } else {
      var a :| a in expected && expected[a].nonce > U64_MAX;
      var db := Holding(AllSaturated(expected));
      HoldingMatches(AllSaturated(expected));
      assert !AccountAgrees(db, a, expected[a]);
      assert Matches(db, AllSaturated(expected)) && !Matches(db, expected);
    }
  }
}
