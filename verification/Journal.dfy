/** The journal: a write-back cache of accounts, slots and code over the database. */
module Journaling {
  import opened Primitives
  import opened Database

  datatype Slot = Slot(original: U256, present: U256)

  datatype JournalAccount = JournalAccount(
    nonce: nat,
    balance: nat,
    storage: map<U256, Slot>,
    codeHash: Hash,
    status: Status
  ) {
    function Info(): AccountInfo {
      AccountInfo(balance, nonce, codeHash, None)
    }
  }

  function FromDb(acc: DbAccount): JournalAccount {
    JournalAccount(acc.nonce, acc.balance, map[], acc.codeHash, LOADED)
  }

  function NewCreated(balance: nat): JournalAccount {
    JournalAccount(0, balance, map[], EMPTY_CODE_HASH, CREATED)
  }

  /**
   The contents of a journal, and what each operation makes of them. `base` is the database
   as seen through the journal's handle; a journal that has handed its handle down sees None.
   */
  datatype JournalState = JournalState(
    accounts: map<Address, JournalAccount>,
    contracts: map<Hash, Bytecode>,
    blockHashes: map<U256, Hash>
  ) {
    function Put(address: Address, acc: JournalAccount): JournalState {
      this.(accounts := accounts[address := acc])
    }

    /** The contents once the account has been asked for. */
    function Loaded(base: Option<DbState>, address: Address): JournalState {
      if base.Some? && address !in accounts && address in base.value.accounts
      then Put(address, FromDb(base.value.accounts[address])) else this
    }

    /** The account handed out: nothing without a handle, even for a cached address. */
    function Lookup(base: Option<DbState>, address: Address): Option<JournalAccount> {
      if base.None? then None
      else if address in accounts then Some(accounts[address])
      else if address in base.value.accounts then Some(FromDb(base.value.accounts[address]))
      else None
    }

    function NewAccount(address: Address, balance: nat): JournalState {
      Put(address, NewCreated(balance))
    }

    function AddAccountAsWarm(address: Address): JournalState {
      var acc := if address in accounts then accounts[address] else NewCreated(0);
      Put(address, acc.(status := acc.status.Warm()))
    }

    function NewContract(address: Address, bytecode: Bytecode, balance: nat): JournalState {
      var hash := Keccak(bytecode);
      Put(address, JournalAccount(1, balance, map[], hash, CREATED))
        .(contracts := contracts[hash := bytecode])
    }

    function SetBalance(base: Option<DbState>, address: Address, balance: nat): JournalState {
      match Lookup(base, address)
      case None => this
      case Some(acc) => Put(address, acc.(balance := balance, status := acc.status.Union(TOUCHED)))
    }

    function SetNonce(base: Option<DbState>, address: Address, nonce: nat): JournalState {
      match Lookup(base, address)
      case None => this
      case Some(acc) => Put(address, acc.(nonce := nonce, status := acc.status.Union(TOUCHED)))
    }

    function SetStatus(base: Option<DbState>, address: Address, status: Status): JournalState {
      match Lookup(base, address)
      case None => this
      case Some(acc) => Put(address, acc.(status := acc.status.Union(status)))
    }

    /** The code of an account, from the journal's own table or else from the database. */
    function Code(base: Option<DbState>, address: Address): Bytecode {
      match Lookup(base, address)
      case None => []
      case Some(acc) => if HasCode(acc.codeHash) then CodeOf(base, acc.codeHash) else []
    }

    function CodeOf(base: Option<DbState>, hash: Hash): Bytecode {
      if hash in contracts then contracts[hash]
      else if base.Some? then base.value.CodeByHash(hash)
      else []
    }

    /** Asking for code also warms the account. */
    function CodeAsked(base: Option<DbState>, address: Address): JournalState {
      match Lookup(base, address)
      case None => this
      case Some(acc) => Put(address, acc.(status := acc.status.Warm()))
    }

    predicate AccountIsWarm(address: Address) {
      address in accounts && !accounts[address].status.cold
    }

    predicate KeyIsWarm(address: Address, key: U256) {
      address in accounts && key in accounts[address].storage
    }

    function Fetched(base: Option<DbState>, address: Address, key: U256): Slot {
      var value := if base.Some? then base.value.StorageAt(address, key) else 0;
      Slot(value, value)
    }

    /** The slot a read returns: the cached one, or a clean one fetched from the database. */
    function SlotAt(base: Option<DbState>, address: Address, key: U256): Option<Slot> {
      match Lookup(base, address)
      case None => None
      case Some(acc) => Some(if key in acc.storage then acc.storage[key] else Fetched(base, address, key))
    }

    function ReadStorage(base: Option<DbState>, address: Address, key: U256): JournalState {
      match Lookup(base, address)
      case None => this
      case Some(acc) => Put(address, acc.(storage := acc.storage[key := SlotAt(base, address, key).value]))
    }

    function WriteStorage(base: Option<DbState>, address: Address, key: U256, value: U256): JournalState {
      match Lookup(base, address)
      case None => this
      case Some(acc) =>
        var slot := SlotAt(base, address, key).value.(present := value);
        Put(address, acc.(storage := acc.storage[key := slot], status := acc.status.Union(TOUCHED)))
    }

    function BlockHash(base: Option<DbState>, number: U256): Hash {
      if number in blockHashes then blockHashes[number]
      else if base.Some? then base.value.BlockHash(number)
      else Zero
    }

    function BlockHashAsked(base: Option<DbState>, number: U256): JournalState {
      this.(blockHashes := blockHashes[number := BlockHash(base, number)])
    }

    /** The finished account handed to the commit; only code held by the journal goes along. */
    function Finished(acc: JournalAccount): Account {
      var code := if HasCode(acc.codeHash) && acc.codeHash in contracts
                  then Some(contracts[acc.codeHash]) else None;
      var storage := map k | k in acc.storage ::
        EvmStorageSlot(acc.storage[k].original, acc.storage[k].present, false);
      Account(AccountInfo(acc.balance, acc.nonce, acc.codeHash, code), storage, acc.status)
    }

    function IntoState(): map<Address, Account> {
      map a | a in accounts :: Finished(accounts[a])
    }
  }

  const EMPTY_JOURNAL := JournalState(map[], map[], map[])

  class Journal {
    var accounts: map<Address, JournalAccount>
    var contracts: map<Hash, Bytecode>
    var blockHashes: map<U256, Hash>
    var db: Db?

    ghost function State(): JournalState
      reads this
    {
      JournalState(accounts, contracts, blockHashes)
    }

    ghost function Base(): Option<DbState>
      reads this, db
    {
      if db == null then None else Some(db.State())
    }

    constructor (db: Db)
      ensures State() == EMPTY_JOURNAL && this.db == db
    {
      accounts, contracts, blockHashes, this.db := map[], map[], map[], db;
    }

    constructor Ejected(state: JournalState, db: Db?)
      ensures State() == state && this.db == db
    {
      accounts, contracts, blockHashes, this.db := state.accounts, state.contracts, state.blockHashes, db;
    }

    /** Looks an account up, loading it from the database on first use. */
    method GetAccountMut(address: Address) returns (acc: Option<JournalAccount>)
      modifies this`accounts
      ensures State() == old(State()).Loaded(old(Base()), address)
      ensures acc == old(State()).Lookup(old(Base()), address)
      ensures acc.Some? ==> address in accounts && accounts[address] == acc.value
    {
      if db == null {
        return None;
      }
      if address !in accounts {
        if address !in db.accounts {
          return None;
        }
        accounts := accounts[address := FromDb(db.accounts[address])];
      }
      return Some(accounts[address]);
    }

    method NewAccount(address: Address, balance: nat)
      modifies this`accounts
      ensures State() == old(State()).NewAccount(address, balance)
    {
      accounts := accounts[address := NewCreated(balance)];
    }

    method AddAccountAsWarm(address: Address)
      modifies this`accounts
      ensures State() == old(State()).AddAccountAsWarm(address)
    {
      if address !in accounts {
        accounts := accounts[address := NewCreated(0)];
      }
      var acc := accounts[address];
      accounts := accounts[address := acc.(status := acc.status.Warm())];
    }

    method NewContract(address: Address, bytecode: Bytecode, balance: nat)
      modifies this`accounts, this`contracts
      ensures State() == old(State()).NewContract(address, bytecode, balance)
    {
      var hash := Keccak(bytecode);
      accounts := accounts[address := JournalAccount(1, balance, map[], hash, CREATED)];
      contracts := contracts[hash := bytecode];
    }

    method SetBalance(address: Address, balance: nat)
      modifies this`accounts
      ensures State() == old(State()).SetBalance(old(Base()), address, balance)
    {
      var found := GetAccountMut(address);
      if found.Some? {
        var acc := found.value;
        accounts := accounts[address := acc.(balance := balance, status := acc.status.Union(TOUCHED))];
      }
    }

    method SetNonce(address: Address, nonce: nat)
      modifies this`accounts
      ensures State() == old(State()).SetNonce(old(Base()), address, nonce)
    {
      var found := GetAccountMut(address);
      if found.Some? {
        var acc := found.value;
        accounts := accounts[address := acc.(nonce := nonce, status := acc.status.Union(TOUCHED))];
      }
    }

    method SetStatus(address: Address, status: Status)
      modifies this`accounts
      ensures State() == old(State()).SetStatus(old(Base()), address, status)
    {
      var found := GetAccountMut(address);
      if found.Some? {
        var acc := found.value;
        accounts := accounts[address := acc.(status := acc.status.Union(status))];
      }
    }

    method GetAccount(address: Address) returns (info: Option<AccountInfo>)
      modifies this`accounts
      ensures State() == old(State()).Loaded(old(Base()), address)
      ensures var acc := old(State()).Lookup(old(Base()), address);
              info == if acc.Some? then Some(acc.value.Info()) else None
    {
      var found := GetAccountMut(address);
      info := if found.Some? then Some(found.value.Info()) else None;
    }

    method CodeByAddress(address: Address) returns (code: Bytecode)
      modifies this`accounts
      ensures State() == old(State()).CodeAsked(old(Base()), address)
      ensures code == old(State()).Code(old(Base()), address)
    {
      var found := GetAccountMut(address);
      if found.None? {
        return [];
      }
      var acc := found.value;
      accounts := accounts[address := acc.(status := acc.status.Warm())];
      if !HasCode(acc.codeHash) {
        return [];
      }
      if acc.codeHash in contracts {
        return contracts[acc.codeHash];
      }
      code := db.CodeByHash(acc.codeHash);
    }

    method FetchStorageFromDb(address: Address, key: U256) returns (slot: Slot)
      ensures slot == State().Fetched(Base(), address, key)
    {
      var value := 0;
      if db != null {
        value := db.ReadStorage(address, key);
      }
      slot := Slot(value, value);
    }

    method ReadStorage(address: Address, key: U256) returns (slot: Option<Slot>)
      modifies this`accounts
      ensures State() == old(State()).ReadStorage(old(Base()), address, key)
      ensures slot == old(State()).SlotAt(old(Base()), address, key)
    {
      var found := GetAccountMut(address);
      if found.None? {
        return None;
      }
      var acc := found.value;
      var read := FetchStorageFromDb(address, key);
      if key in acc.storage {
        read := acc.storage[key];
      }
      accounts := accounts[address := acc.(storage := acc.storage[key := read])];
      slot := Some(read);
    }

    /** The account has to exist: an absent one ends the program. */
    method WriteStorage(address: Address, key: U256, value: U256)
      requires State().Lookup(Base(), address).Some?
      modifies this`accounts
      ensures State() == old(State()).WriteStorage(old(Base()), address, key, value)
    {
      var found := GetAccountMut(address);
      var acc := found.value;
      var slot := FetchStorageFromDb(address, key);
      if key in acc.storage {
        slot := acc.storage[key];
      }
      slot := slot.(present := value);
      accounts := accounts[address := acc.(storage := acc.storage[key := slot],
                                           status := acc.status.Union(TOUCHED))];
    }

    method GetBlockHash(number: U256) returns (hash: Hash)
      modifies this`blockHashes
      ensures State() == old(State()).BlockHashAsked(old(Base()), number)
      ensures hash == old(State()).BlockHash(old(Base()), number)
    {
      if number in blockHashes {
        hash := blockHashes[number];
        assert blockHashes == blockHashes[number := hash];
        return;
      }
      hash := Zero;
      if db != null {
        hash := db.BlockHash(number);
      }
      blockHashes := blockHashes[number := hash];
    }

    /** Hands a copy and the database handle down; this journal keeps its contents but no handle. */
    method EjectBase() returns (child: Journal)
      modifies this`db
      ensures fresh(child) && child.State() == old(State()) && child.db == old(db)
      ensures db == null
    {
      child := new Journal.Ejected(JournalState(accounts, contracts, blockHashes), db);
      db := null;
    }

    method ExtendFromSuccessful(other: Journal)
      modifies this
      ensures State() == old(other.State()) && db == old(other.db)
    {
      accounts, contracts, blockHashes, db := other.accounts, other.contracts, other.blockHashes, other.db;
    }

    method ExtendFromReverted(other: Journal)
      modifies this`db
      ensures db == old(other.db)
    {
      db := other.db;
    }
  }
}
