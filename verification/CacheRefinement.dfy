/**
 The journal over its database behaves like one plain world of accounts, slots, code and
 block hashes, through every operation and every nesting of call frames.
 */
module CacheRefinement {
  import opened Primitives
  import opened Database
  import opened Journaling

  type Cell = (Address, U256)

  datatype PlainAccount = PlainAccount(nonce: nat, balance: nat, codeHash: Hash)

  /** The world without any cache: finitely many accounts, a value in every slot. */
  datatype World = World(
    accounts: map<Address, PlainAccount>,
    storage: imap<Cell, U256>,
    code: imap<Hash, Bytecode>,
    blockHashes: imap<U256, Hash>
  )

  // ----- The view of a journal -----

  ghost function SlotValue(j: JournalState, db: DbState, cell: Cell): U256 {
    if j.KeyIsWarm(cell.0, cell.1) then j.accounts[cell.0].storage[cell.1].present
    else db.StorageAt(cell.0, cell.1)
  }

  ghost function PlainOf(j: JournalState, db: DbState, a: Address): PlainAccount
    requires a in j.accounts || a in db.accounts
  {
    if a in j.accounts
    then PlainAccount(j.accounts[a].nonce, j.accounts[a].balance, j.accounts[a].codeHash)
    else PlainAccount(db.accounts[a].nonce, db.accounts[a].balance, db.accounts[a].codeHash)
  }

  ghost function ViewAccounts(j: JournalState, db: DbState): map<Address, PlainAccount> {
    map a | a in j.accounts.Keys + db.accounts.Keys :: PlainOf(j, db, a)
  }

  ghost function ViewStorage(j: JournalState, db: DbState): imap<Cell, U256> {
    imap cell: Cell :: SlotValue(j, db, cell)
  }

  ghost function ViewCode(j: JournalState, db: DbState): imap<Hash, Bytecode> {
    imap h: Hash :: j.CodeOf(Some(db), h)
  }

  ghost function ViewHashes(j: JournalState, db: DbState): imap<U256, Hash> {
    imap n: U256 :: j.BlockHash(Some(db), n)
  }

  /** The overlay of the journal on the database. */
  ghost function View(j: JournalState, db: DbState): World {
    World(ViewAccounts(j, db), ViewStorage(j, db), ViewCode(j, db), ViewHashes(j, db))
  }

  // ----- Journal operations and their plain counterparts -----

  datatype Op =
    | NewAccount(address: Address, balance: nat)
    | AddAccountAsWarm(address: Address)
    | NewContract(address: Address, bytecode: Bytecode, balance: nat)
    | SetBalance(address: Address, balance: nat)
    | SetNonce(address: Address, nonce: nat)
    | SetStatus(address: Address, status: Status)
    | GetAccount(address: Address)
    | CodeByAddress(address: Address)
    | ReadStorage(address: Address, key: U256)
    | WriteStorage(address: Address, key: U256, value: U256)
    | GetBlockHash(number: U256)

  /** What the caller of an operation gets to see. */
  datatype Answer =
    | Nothing
    | AccountAnswer(account: Option<PlainAccount>)
    | SlotAnswer(value: Option<U256>)
    | CodeAnswer(code: Bytecode)
    | HashAnswer(hash: Hash)

  ghost function Apply(j: JournalState, base: Option<DbState>, op: Op): JournalState {
    match op
    case NewAccount(a, b) => j.NewAccount(a, b)
    case AddAccountAsWarm(a) => j.AddAccountAsWarm(a)
    case NewContract(a, code, b) => j.NewContract(a, code, b)
    case SetBalance(a, b) => j.SetBalance(base, a, b)
    case SetNonce(a, n) => j.SetNonce(base, a, n)
    case SetStatus(a, s) => j.SetStatus(base, a, s)
    case GetAccount(a) => j.Loaded(base, a)
    case CodeByAddress(a) => j.CodeAsked(base, a)
    case ReadStorage(a, k) => j.ReadStorage(base, a, k)
    case WriteStorage(a, k, v) => j.WriteStorage(base, a, k, v)
    case GetBlockHash(n) => j.BlockHashAsked(base, n)
  }

  ghost function AnswerOf(j: JournalState, base: Option<DbState>, op: Op): Answer {
    match op
    case GetAccount(a) =>
      AccountAnswer(match j.Lookup(base, a)
                    case None => None
                    case Some(acc) => Some(PlainAccount(acc.nonce, acc.balance, acc.codeHash)))
    case CodeByAddress(a) => CodeAnswer(j.Code(base, a))
    case ReadStorage(a, k) =>
      SlotAnswer(match j.SlotAt(base, a, k)
                 case None => None
                 case Some(slot) => Some(slot.present))
    case GetBlockHash(n) => HashAnswer(j.BlockHash(base, n))
    case _ => Nothing
  }

  ghost function PlainApply(w: World, op: Op): World {
    match op
    case NewAccount(a, b) => Fresh(w, a, PlainAccount(0, b, EMPTY_CODE_HASH))
    case AddAccountAsWarm(a) =>
      if a in w.accounts then w else Fresh(w, a, PlainAccount(0, 0, EMPTY_CODE_HASH))
    case NewContract(a, code, b) =>
      Fresh(w, a, PlainAccount(1, b, Keccak(code))).(code := w.code[Keccak(code) := code])
    case SetBalance(a, b) =>
      if a in w.accounts then w.(accounts := w.accounts[a := w.accounts[a].(balance := b)]) else w
    case SetNonce(a, n) =>
      if a in w.accounts then w.(accounts := w.accounts[a := w.accounts[a].(nonce := n)]) else w
    case WriteStorage(a, k, v) =>
      if a in w.accounts then w.(storage := w.storage[(a, k) := v]) else w
    case _ => w
  }

  /** A new account starts with every slot at zero. */
  ghost function Fresh(w: World, a: Address, acc: PlainAccount): World {
    w.(accounts := w.accounts[a := acc],
       storage := imap cell: Cell :: if cell.0 == a || cell !in w.storage then 0 else w.storage[cell])
  }

  ghost function PlainAnswer(w: World, op: Op): Answer {
    match op
    case GetAccount(a) => AccountAnswer(if a in w.accounts then Some(w.accounts[a]) else None)
    case CodeByAddress(a) =>
      CodeAnswer(if a in w.accounts && HasCode(w.accounts[a].codeHash) && w.accounts[a].codeHash in w.code
                 then w.code[w.accounts[a].codeHash] else [])
    case ReadStorage(a, k) =>
      SlotAnswer(if a in w.accounts && (a, k) in w.storage then Some(w.storage[(a, k)]) else None)
    case GetBlockHash(n) => HashAnswer(if n in w.blockHashes then w.blockHashes[n] else Zero)
    case _ => Nothing
  }

  /** Accounts are brought into being only where the database has none. */
  ghost predicate Admissible(j: JournalState, db: DbState, op: Op) {
    match op
    case NewAccount(a, _) => a !in db.accounts
    case NewContract(a, _, _) => a !in db.accounts
    case AddAccountAsWarm(a) => a in j.accounts || a !in db.accounts
    case _ => true
  }

  // ----- The cache invariant -----

  ghost predicate CoherentAccount(acc: JournalAccount, a: Address, contracts: map<Hash, Bytecode>, db: DbState) {
    && (forall k <- acc.storage :: acc.storage[k].original == db.StorageAt(a, k))
    && (!acc.status.created ==> a in db.accounts && acc.codeHash == db.accounts[a].codeHash)
    && (HasCode(acc.codeHash) ==> acc.codeHash in contracts || acc.codeHash in db.contracts)
    && (!acc.status.created && !acc.status.touched ==>
          && acc.nonce == db.accounts[a].nonce
          && acc.balance == db.accounts[a].balance
          && forall k <- acc.storage :: acc.storage[k].present == acc.storage[k].original)
  }

  /**
   Each cached slot remembers the database value as its original, and an account that differs
   from the database is marked Touched or Created.
   */
  ghost predicate Coherent(j: JournalState, db: DbState) {
    && (forall a <- j.accounts :: CoherentAccount(j.accounts[a], a, j.contracts, db))
    && (forall h <- j.contracts :: h == Keccak(j.contracts[h]))
    && (forall n <- j.blockHashes :: j.blockHashes[n] == db.BlockHash(n))
  }

  lemma NewJournalIsCoherent(db: DbState)
    ensures Coherent(EMPTY_JOURNAL, db)
  {
  }

  lemma PutCoherent(j: JournalState, db: DbState, a: Address, acc: JournalAccount)
    requires Coherent(j, db) && CoherentAccount(acc, a, j.contracts, db)
    ensures Coherent(j.Put(a, acc), db)
  {
  }

  lemma NewCodeCoherent(j: JournalState, db: DbState, code: Bytecode)
    requires Coherent(j, db)
    ensures Coherent(j.(contracts := j.contracts[Keccak(code) := code]), db)
  {
  }

  /** Looking an account up gives a coherent entry. */
  lemma LookupCoherent(j: JournalState, db: DbState, a: Address)
    requires db.WellFormed() && Coherent(j, db) && j.Lookup(Some(db), a).Some?
    ensures CoherentAccount(j.Lookup(Some(db), a).value, a, j.contracts, db)
  {
  }

  /** One operation keeps the cache coherent. */
  lemma ApplyCoherent(j: JournalState, db: DbState, op: Op)
    requires db.WellFormed() && Coherent(j, db) && Admissible(j, db, op)
    ensures Coherent(Apply(j, Some(db), op), db)
  {
    match op
    case NewAccount(a, b) => PutCoherent(j, db, a, NewCreated(b));
    case NewContract(a, code, b) =>
      NewCodeCoherent(j, db, code);
      PutCoherent(j.(contracts := j.contracts[Keccak(code) := code]), db, a,
                  JournalAccount(1, b, map[], Keccak(code), CREATED));
    case AddAccountAsWarm(a) => PutCoherent(j, db, a, j.AddAccountAsWarm(a).accounts[a]);
    case GetBlockHash(_) =>
    case _ =>
      var a := op.address;
      if j.Lookup(Some(db), a).Some? {
        LookupCoherent(j, db, a);
        PutCoherent(j, db, a, Apply(j, Some(db), op).accounts[a]);
      }
  }

  lemma AccountsOfPut(j: JournalState, db: DbState, a: Address, acc: JournalAccount)
    ensures ViewAccounts(j.Put(a, acc), db) ==
            ViewAccounts(j, db)[a := PlainAccount(acc.nonce, acc.balance, acc.codeHash)]
  {
  }

  /** The slots of one account entry, over the database. */
  ghost function SlotsOf(acc: JournalAccount, db: DbState, a: Address, key: U256): U256 {
    if key in acc.storage then acc.storage[key].present else db.StorageAt(a, key)
  }

  lemma StorageOfPut(j: JournalState, db: DbState, a: Address, acc: JournalAccount)
    ensures forall cell: Cell :: SlotValue(j.Put(a, acc), db, cell) ==
                                 if cell.0 == a then SlotsOf(acc, db, a, cell.1) else SlotValue(j, db, cell)
  {
  }

  lemma TablesOfPut(j: JournalState, db: DbState, a: Address, acc: JournalAccount)
    ensures ViewCode(j.Put(a, acc), db) == ViewCode(j, db)
    ensures ViewHashes(j.Put(a, acc), db) == ViewHashes(j, db)
  {
  }

  /** Replacing an entry by one with the same slots changes the world in its account fields only. */
  lemma PutSameSlots(j: JournalState, db: DbState, a: Address, acc: JournalAccount)
    requires forall k: U256 :: SlotsOf(acc, db, a, k) == SlotValue(j, db, (a, k))
    ensures View(j.Put(a, acc), db) ==
            View(j, db).(accounts := ViewAccounts(j, db)[a := PlainAccount(acc.nonce, acc.balance, acc.codeHash)])
  {
    AccountsOfPut(j, db, a, acc);
    StorageOfPut(j, db, a, acc);
    TablesOfPut(j, db, a, acc);
    assert ViewStorage(j.Put(a, acc), db) == ViewStorage(j, db);
  }

  /** Caching what is already visible is invisible. */
  lemma PutVisible(j: JournalState, db: DbState, a: Address, acc: JournalAccount)
    requires a in j.accounts || a in db.accounts
    requires PlainAccount(acc.nonce, acc.balance, acc.codeHash) == PlainOf(j, db, a)
    requires forall k: U256 :: SlotsOf(acc, db, a, k) == SlotValue(j, db, (a, k))
    ensures View(j.Put(a, acc), db) == View(j, db)
  {
    PutSameSlots(j, db, a, acc);
    assert ViewAccounts(j, db)[a := PlainOf(j, db, a)] == ViewAccounts(j, db);
  }

  /** A new entry where the database has none starts from zeroed slots. */
  lemma PutFresh(j: JournalState, db: DbState, a: Address, acc: JournalAccount)
    requires a !in db.accounts && acc.storage == map[]
    ensures View(j.Put(a, acc), db) == Fresh(View(j, db), a, PlainAccount(acc.nonce, acc.balance, acc.codeHash))
  {
    AccountsOfPut(j, db, a, acc);
    StorageOfPut(j, db, a, acc);
    TablesOfPut(j, db, a, acc);
    assert ViewStorage(j.Put(a, acc), db) ==
           Fresh(View(j, db), a, PlainAccount(acc.nonce, acc.balance, acc.codeHash)).storage;
  }

  lemma ViewOfNewCode(j: JournalState, db: DbState, code: Bytecode)
    ensures View(j.(contracts := j.contracts[Keccak(code) := code]), db) ==
            View(j, db).(code := ViewCode(j, db)[Keccak(code) := code])
  {
    var j' := j.(contracts := j.contracts[Keccak(code) := code]);
    assert ViewStorage(j', db) == ViewStorage(j, db);
    assert ViewCode(j', db) == ViewCode(j, db)[Keccak(code) := code];
    assert ViewHashes(j', db) == ViewHashes(j, db);
  }

  lemma ViewOfNewContract(j: JournalState, db: DbState, a: Address, code: Bytecode, balance: nat)
    requires a !in db.accounts
    ensures View(j.NewContract(a, code, balance), db) == PlainApply(View(j, db), NewContract(a, code, balance))
  {
    ViewOfNewCode(j, db, code);
    PutFresh(j.(contracts := j.contracts[Keccak(code) := code]), db, a,
             JournalAccount(1, balance, map[], Keccak(code), CREATED));
  }

  lemma ViewOfWriteStorage(j: JournalState, db: DbState, a: Address, key: U256, value: U256)
    requires j.Lookup(Some(db), a).Some?
    ensures View(j.WriteStorage(Some(db), a, key, value), db) == PlainApply(View(j, db), WriteStorage(a, key, value))
  {
    var acc := j.WriteStorage(Some(db), a, key, value).accounts[a];
    AccountsOfPut(j, db, a, acc);
    TablesOfPut(j, db, a, acc);
    assert ViewAccounts(j.Put(a, acc), db) == ViewAccounts(j, db);
    PutOneSlot(j, db, a, acc, key, value);
  }

  lemma PutOneSlot(j: JournalState, db: DbState, a: Address, acc: JournalAccount, key: U256, value: U256)
    requires forall k: U256 ::
               SlotsOf(acc, db, a, k) == if k == key then value else SlotValue(j, db, (a, k))
    ensures ViewStorage(j.Put(a, acc), db) == ViewStorage(j, db)[(a, key) := value]
  {
    StorageOfPut(j, db, a, acc);
  }

  /** What the caller is told is what the plain world holds. */
  lemma AnswersAgree(j: JournalState, db: DbState, op: Op)
    ensures AnswerOf(j, Some(db), op) == PlainAnswer(View(j, db), op)
  {
  }

  lemma ViewOfBlockHash(j: JournalState, db: DbState, n: U256)
    ensures View(j.BlockHashAsked(Some(db), n), db) == View(j, db)
  {
    var j' := j.BlockHashAsked(Some(db), n);
    assert ViewStorage(j', db) == ViewStorage(j, db);
    assert ViewCode(j', db) == ViewCode(j, db);
    assert ViewHashes(j', db) == ViewHashes(j, db);
  }

  /** Reads and status changes leave the world alone: lazy loading is invisible. */
  lemma ReadsAreInvisible(j: JournalState, db: DbState, op: Op)
    requires op.SetStatus? || op.GetAccount? || op.CodeByAddress? || op.ReadStorage?
    ensures View(Apply(j, Some(db), op), db) == View(j, db)
  {
    var j', a := Apply(j, Some(db), op), op.address;
    if j' != j {
      PutVisible(j, db, a, j'.accounts[a]);
    }
  }

  lemma SetsAreSeen(j: JournalState, db: DbState, op: Op)
    requires op.SetBalance? || op.SetNonce?
    ensures View(Apply(j, Some(db), op), db) == PlainApply(View(j, db), op)
  {
    var j', a := Apply(j, Some(db), op), op.address;
    if j.Lookup(Some(db), a).Some? {
      PutSameSlots(j, db, a, j'.accounts[a]);
    }
  }

  /** One operation on the journal is the same operation on the plain world. */
  lemma ApplyRefines(j: JournalState, db: DbState, op: Op)
    requires Coherent(j, db) && Admissible(j, db, op)
    ensures View(Apply(j, Some(db), op), db) == PlainApply(View(j, db), op)
    ensures AnswerOf(j, Some(db), op) == PlainAnswer(View(j, db), op)
  {
    AnswersAgree(j, db, op);
    match op
    case NewAccount(a, b) => PutFresh(j, db, a, NewCreated(b));
    case AddAccountAsWarm(a) =>
      if a in j.accounts {
        PutVisible(j, db, a, j.accounts[a].(status := j.accounts[a].status.Warm()));
      } else {
        PutFresh(j, db, a, NewCreated(0));
      }
    case NewContract(a, code, b) => ViewOfNewContract(j, db, a, code, b);
    case WriteStorage(a, k, v) =>
      if j.Lookup(Some(db), a).Some? {
        ViewOfWriteStorage(j, db, a, k, v);
      }
    case GetBlockHash(n) => ViewOfBlockHash(j, db, n);
    case SetBalance(_, _) => SetsAreSeen(j, db, op);
    case SetNonce(_, _) => SetsAreSeen(j, db, op);
    case _ => ReadsAreInvisible(j, db, op);
  }
}
