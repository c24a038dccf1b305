/** The account database and the write-back of a finished transaction. */
module Database {
  import opened Primitives

  /** The status flags of an account. */
  datatype Status = Status(
    created: bool,
    selfDestructed: bool,
    touched: bool,
    loadedAsNotExisting: bool,
    cold: bool
  ) {
    /** Bitwise or of the flags. */
    function Union(other: Status): Status {
      Status(created || other.created,
             selfDestructed || other.selfDestructed,
             touched || other.touched,
             loadedAsNotExisting || other.loadedAsNotExisting,
             cold || other.cold)
    }

    function Warm(): Status {
      this.(cold := false)
    }
  }

  const LOADED := Status(false, false, false, false, false)
  const CREATED := Status(true, false, false, false, false)
  const SELF_DESTRUCTED := Status(false, true, false, false, false)
  const TOUCHED := Status(false, false, true, false, false)
  const COLD := Status(false, false, false, false, true)

  datatype DbAccount = DbAccount(
    nonce: nat,
    balance: nat,
    storage: map<U256, U256>,
    codeHash: Hash,
    status: Status
  )

  const EMPTY_ACCOUNT := DbAccount(0, 0, map[], EMPTY_CODE_HASH, CREATED)

  datatype AccountInfo = AccountInfo(balance: nat, nonce: nat, codeHash: Hash, code: Option<Bytecode>) {
    predicate IsEmpty() {
      balance == 0 && nonce == 0 && codeHash == EMPTY_CODE_HASH
    }
  }

  datatype EvmStorageSlot = EvmStorageSlot(original: U256, present: U256, isCold: bool)

  /** What a transaction leaves of one account. */
  datatype Account = Account(info: AccountInfo, storage: map<U256, EvmStorageSlot>, status: Status) {
    predicate NotModified() {
      !status.touched && !status.created && !status.selfDestructed
    }

    predicate CreatedAndDestroyed() {
      status.created && status.selfDestructed
    }

    /** Commit passes over this account. */
    predicate Skipped() {
      CreatedAndDestroyed() || NotModified()
    }

    /** Commit offers `code` to the contract table under `hash`. */
    predicate Stores(hash: Hash, code: Bytecode) {
      && !Skipped()
      && status.created
      && HasCode(info.codeHash)
      && info.codeHash == hash
      && info.code == Some(code)
    }
  }

  datatype DbState = DbState(
    accounts: map<Address, DbAccount>,
    contracts: map<Hash, Bytecode>,
    blockHashes: map<U256, Hash>
  ) {
    function Basic(address: Address): Option<AccountInfo> {
      if address in accounts then
        var acc := accounts[address];
        Some(AccountInfo(acc.balance, acc.nonce, acc.codeHash, None))
      else
        None
    }

    function CodeByHash(hash: Hash): Bytecode {
      if hash in contracts then contracts[hash] else []
    }

    function StorageAt(address: Address, key: U256): U256 {
      if address in accounts && key in accounts[address].storage then accounts[address].storage[key] else 0
    }

    function BlockHash(number: U256): Hash {
      if number in blockHashes then blockHashes[number] else Zero
    }

    /** Every stored code sits under its own hash, and every account with code has it stored. */
    ghost predicate WellFormed() {
      && (forall hash <- contracts :: hash == Keccak(contracts[hash]))
      && (forall a <- accounts :: HasCode(accounts[a].codeHash) ==> accounts[a].codeHash in contracts)
    }
  }

  function PresentValues(storage: map<U256, EvmStorageSlot>): map<U256, U256> {
    map k | k in storage :: storage[k].present
  }

  /** The database entry after writing `account` over `before`. */
  function Written(before: DbAccount, account: Account): DbAccount {
    DbAccount(account.info.nonce, account.info.balance, before.storage + PresentValues(account.storage),
              account.info.codeHash, COLD)
  }

  /** The accounts after a commit, described address by address, without any order. */
  function CommittedAccounts(accounts: map<Address, DbAccount>, changes: map<Address, Account>)
    : map<Address, DbAccount>
  {
    map a | a in accounts.Keys + changes.Keys && (a in accounts || !changes[a].Skipped()) ::
      var before := if a in accounts then accounts[a] else EMPTY_ACCOUNT;
      if a in changes && !changes[a].Skipped() then Written(before, changes[a]) else before
  }

  /** The contract table after a commit: old entries stay, new ones come from some stored account. */
  ghost predicate CommittedContracts(
    before: map<Hash, Bytecode>, changes: map<Address, Account>, after: map<Hash, Bytecode>)
  {
    && (forall h <- before :: h in after && after[h] == before[h])
    && (forall h <- after :: h in before || exists a <- changes :: changes[a].Stores(h, after[h]))
    && (forall a <- changes, code: Bytecode | changes[a].Stores(changes[a].info.codeHash, code) ::
          changes[a].info.codeHash in after)
  }

  /** One more account, whichever comes next, extends the committed accounts. */
  lemma CommitOneMore(
    accounts: map<Address, DbAccount>, done: map<Address, Account>, address: Address, account: Account)
    requires address !in done
    ensures var now := CommittedAccounts(accounts, done);
            var before := if address in now then now[address] else EMPTY_ACCOUNT;
            CommittedAccounts(accounts, done[address := account]) ==
            if account.Skipped() then now else now[address := Written(before, account)]
  {
  }

  /** The contract table follows one more account too. */
  lemma StoreOneMore(
    before: map<Hash, Bytecode>, done: map<Address, Account>, now: map<Hash, Bytecode>,
    address: Address, account: Account, after: map<Hash, Bytecode>)
    requires address !in done
    requires CommittedContracts(before, done, now)
    requires after == if !account.Skipped() && account.status.created then Stored(now, account.info) else now
    ensures CommittedContracts(before, done[address := account], after)
  {
    var next := done[address := account];
    forall h | h in after && h !in before
      ensures exists a <- next :: next[a].Stores(h, after[h])
    {
      if h in now {
        var a :| a in done && done[a].Stores(h, now[h]);
        assert next[a].Stores(h, after[h]);
      } else {
        assert next[address].Stores(h, after[h]);
      }
    }
  }

  /** The contract table with the code of `info` entered, unless its hash is already there. */
  function Stored(contracts: map<Hash, Bytecode>, info: AccountInfo): map<Hash, Bytecode> {
    if HasCode(info.codeHash) && info.code.Some? && info.codeHash !in contracts
    then contracts[info.codeHash := info.code.value] else contracts
  }

  class Db {
    var accounts: map<Address, DbAccount>
    var contracts: map<Hash, Bytecode>
    var blockHashes: map<U256, Hash>

    ghost function State(): DbState
      reads this
    {
      DbState(accounts, contracts, blockHashes)
    }

    constructor ()
      ensures State() == DbState(map[], map[], map[])
    {
      accounts, contracts, blockHashes := map[], map[], map[];
    }

    method InsertContract(address: Address, bytecode: Bytecode, balance: nat)
      modifies this
      ensures State() == DbState(
                old(accounts)[address := DbAccount(1, balance, map[], Keccak(bytecode), CREATED)],
                old(contracts)[Keccak(bytecode) := bytecode],
                old(blockHashes))
      ensures old(State().WellFormed()) ==> State().WellFormed()
    {
      var hash := Keccak(bytecode);
      accounts := accounts[address := DbAccount(1, balance, map[], hash, CREATED)];
      contracts := contracts[hash := bytecode];
    }

    method Basic(address: Address) returns (info: Option<AccountInfo>)
      ensures info == State().Basic(address)
    {
      if address in accounts {
        var acc := accounts[address];
        return Some(AccountInfo(acc.balance, acc.nonce, acc.codeHash, None));
      }
      return None;
    }

    method CodeByHash(hash: Hash) returns (code: Bytecode)
      ensures code == State().CodeByHash(hash)
    {
      code := if hash in contracts then contracts[hash] else [];
    }

    method ReadStorage(address: Address, key: U256) returns (value: U256)
      ensures value == State().StorageAt(address, key)
    {
      value := if address in accounts && key in accounts[address].storage
               then accounts[address].storage[key] else 0;
    }

    method BlockHash(number: U256) returns (hash: Hash)
      ensures hash == State().BlockHash(number)
    {
      hash := if number in blockHashes then blockHashes[number] else Zero;
    }

    /** Keeps an entry that is already there. */
    method StoreContract(info: AccountInfo)
      modifies this`contracts
      ensures contracts == Stored(old(contracts), info)
      ensures info.code.Some? && info.codeHash != Zero && info.codeHash != Keccak([]) ==> info.codeHash in contracts
      ensures forall hash <- contracts :: hash in old(contracts) || Some(contracts[hash]) == info.code
    {
      if HasCode(info.codeHash) && info.code.Some? && info.codeHash !in contracts {
        contracts := contracts[info.codeHash := info.code.value];
      }
    }

    method CommitAccount(address: Address, account: Account)
      modifies this
      ensures var before := if address in old(accounts) then old(accounts)[address] else EMPTY_ACCOUNT;
              accounts == if account.Skipped() then old(accounts)
                          else old(accounts)[address := Written(before, account)]
      ensures contracts == if !account.Skipped() && account.status.created
                           then Stored(old(contracts), account.info) else old(contracts)
      ensures blockHashes == old(blockHashes)
    {
      if account.Skipped() {
        return;
      }
      if account.status.created {
        StoreContract(account.info);
      }
      var before := if address in accounts then accounts[address] else EMPTY_ACCOUNT;
      accounts := accounts[address := Written(before, account)];
    }

    /** Writes the changed accounts back, visiting them in whatever order the choice picks. */
    method Commit(changes: map<Address, Account>)
      modifies this
      ensures accounts == CommittedAccounts(old(accounts), changes)
      ensures CommittedContracts(old(contracts), changes, contracts)
      ensures blockHashes == old(blockHashes)
    {
      var remaining := changes.Keys;
      ghost var done: map<Address, Account> := map[];
      while remaining != {}
        invariant remaining <= changes.Keys && done == changes - remaining
        invariant accounts == CommittedAccounts(old(accounts), done)
        invariant CommittedContracts(old(contracts), done, contracts)
        invariant blockHashes == old(blockHashes)
        decreases remaining
      {
        var address :| address in remaining;
        ghost var stored := contracts;
        CommitAccount(address, changes[address]);
        CommitOneMore(old(accounts), done, address, changes[address]);
        StoreOneMore(old(contracts), done, stored, address, changes[address], contracts);
        remaining := remaining - {address};
        done := done[address := changes[address]];
      }
      assert done == changes;
    }
  }
}
