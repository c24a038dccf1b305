/** Net gas metering of storage: charges, refunds, and what they add up to over any history. */
module StorageGas {
  import opened Primitives
  import opened Database
  import opened Journaling

  const SLOAD_WARM := 100
  const SLOAD_COLD := 2100

  function LoadCost(cold: bool): int {
    if cold then SLOAD_COLD else SLOAD_WARM
  }

  function StoreCost(original: U256, current: U256, value: U256, cold: bool): int {
    (if original == 0 && current == 0 && current != value then 20_000
     else if original == current && current != value then 2_900
     else 100)
    + (if cold then 2_100 else 0)
  }

  function StoreRefund(original: U256, current: U256, value: U256): int {
    var undoReset := original != 0 && current == 0 && value != 0;
    if original != 0 && current != 0 && value == 0 then 4_800
    else if undoReset && value == original then -2_000
    else if undoReset then -4_800
    else if original == 0 && current != 0 && value == 0 then 19_900
    else if current != value && original == value then 2_800
    else 0
  }

  /** The refund counter is unsigned, and a negative refund stops at zero. */
  function AddRefund(counter: nat, refund: int): nat {
    if refund > 0 then counter + refund else SaturatingSub(counter, -refund)
  }

  // ----- Histories of loads and stores in one frame -----

  datatype Access = Load(key: U256) | Store(key: U256, value: U256)

  /** The slot an access finds, cached or fetched. */
  function Found(j: JournalState, db: DbState, a: Address, key: U256): Slot
    requires j.Lookup(Some(db), a).Some?
  {
    j.SlotAt(Some(db), a, key).value
  }

  function AfterAccess(j: JournalState, db: DbState, a: Address, access: Access): JournalState {
    match access
    case Load(k) => j.ReadStorage(Some(db), a, k)
    case Store(k, v) => j.ReadStorage(Some(db), a, k).WriteStorage(Some(db), a, k, v)
  }

  function Charge(j: JournalState, db: DbState, a: Address, access: Access): int
    requires j.Lookup(Some(db), a).Some?
  {
    var cold := !j.KeyIsWarm(a, access.key);
    match access
    case Load(_) => LoadCost(cold)
    case Store(k, v) => StoreCost(Found(j, db, a, k).original, Found(j, db, a, k).present, v, cold)
  }

  function RefundOf(j: JournalState, db: DbState, a: Address, access: Access): int
    requires j.Lookup(Some(db), a).Some?
  {
    match access
    case Load(_) => 0
    case Store(k, v) => StoreRefund(Found(j, db, a, k).original, Found(j, db, a, k).present, v)
  }

  /** One access changes what later accesses find in its own slot only. */
  lemma AccessFrame(j: JournalState, db: DbState, a: Address, access: Access, key: U256)
    requires j.Lookup(Some(db), a).Some?
    ensures AfterAccess(j, db, a, access).Lookup(Some(db), a).Some?
    ensures Found(AfterAccess(j, db, a, access), db, a, key) ==
            if access.Store? && access.key == key then Found(j, db, a, key).(present := access.value)
            else Found(j, db, a, key)
    ensures AfterAccess(j, db, a, access).KeyIsWarm(a, key) <==> j.KeyIsWarm(a, key) || access.key == key
  {
  }

  ghost function Final(j: JournalState, db: DbState, a: Address, accesses: seq<Access>): JournalState
    decreases |accesses|
  {
    if accesses == [] then j else Final(AfterAccess(j, db, a, accesses[0]), db, a, accesses[1..])
  }

  /** Gas charged minus signed refunds, over the accesses to one slot. */
  ghost function NetOn(j: JournalState, db: DbState, a: Address, accesses: seq<Access>, key: U256): int
    requires j.Lookup(Some(db), a).Some?
    decreases |accesses|
  {
    if accesses == [] then 0
    else
      AccessFrame(j, db, a, accesses[0], key);
      (if accesses[0].key == key then Charge(j, db, a, accesses[0]) - RefundOf(j, db, a, accesses[0]) else 0)
      + NetOn(AfterAccess(j, db, a, accesses[0]), db, a, accesses[1..], key)
  }

  ghost function CountOn(accesses: seq<Access>, key: U256): nat {
    if accesses == [] then 0 else (if accesses[0].key == key then 1 else 0) + CountOn(accesses[1..], key)
  }

  /** What the first access to a cold slot pays on top. */
  ghost function Surcharge(accesses: seq<Access>, key: U256, cold: bool): int {
    if accesses == [] || !cold then 0
    else if accesses[0].key == key then (if accesses[0].Load? then 2_000 else 2_100)
    else Surcharge(accesses[1..], key, cold)
  }

  /** The price of holding `present` in a slot whose original value is `original`. */
  ghost function Price(slot: Slot): int {
    (if slot.present == slot.original then 0 else if slot.original == 0 then 19_900 else 2_800)
    - (if slot.original != 0 && slot.present == 0 then 4_800 else 0)
  }

  /** One store costs the flat charge plus the difference in price. */
  lemma StoreMovesPrice(original: U256, current: U256, value: U256, cold: bool)
    ensures StoreCost(original, current, value, cold) - StoreRefund(original, current, value) ==
            100 + (if cold then 2_100 else 0)
            + Price(Slot(original, value)) - Price(Slot(original, current))
  {
  }

  lemma {:induction false} NetTelescopes(
    j: JournalState, db: DbState, a: Address, accesses: seq<Access>, key: U256)
    requires j.Lookup(Some(db), a).Some?
    ensures Final(j, db, a, accesses).Lookup(Some(db), a).Some?
    ensures Found(Final(j, db, a, accesses), db, a, key).original == Found(j, db, a, key).original
    ensures NetOn(j, db, a, accesses, key) ==
            100 * CountOn(accesses, key) + Surcharge(accesses, key, !j.KeyIsWarm(a, key))
            + Price(Found(Final(j, db, a, accesses), db, a, key)) - Price(Found(j, db, a, key))
    decreases |accesses|
  {
    if accesses != [] {
      var access := accesses[0];
      var next := AfterAccess(j, db, a, access);
      AccessFrame(j, db, a, access, key);
      NetTelescopes(next, db, a, accesses[1..], key);
      if access.Store? && access.key == key {
        var slot := Found(j, db, a, key);
        StoreMovesPrice(slot.original, slot.present, access.value, !j.KeyIsWarm(a, key));
      }
    }
  }

  /**
   Path independence: what a slot costs over a whole frame depends on how often it was accessed,
   how it was first touched, and where it starts and ends, not on the values in between.
   */
  lemma PathIndependence(j: JournalState, db: DbState, a: Address, accesses: seq<Access>, key: U256)
    requires j.Lookup(Some(db), a).Some?
    requires Found(j, db, a, key).present == Found(j, db, a, key).original
    ensures Final(j, db, a, accesses).Lookup(Some(db), a).Some?
    ensures var original := Found(j, db, a, key).original;
            var final := Found(Final(j, db, a, accesses), db, a, key).present;
            NetOn(j, db, a, accesses, key) ==
            100 * CountOn(accesses, key) + Surcharge(accesses, key, !j.KeyIsWarm(a, key))
            + (if final == original then 0 else if original == 0 then 19_900 else 2_800)
            - (if original != 0 && final == 0 then 4_800 else 0)
  {
    NetTelescopes(j, db, a, accesses, key);
  }

  // ----- The refund counter -----

  ghost function CounterAfter(j: JournalState, db: DbState, a: Address, accesses: seq<Access>, counter: nat): nat
    requires j.Lookup(Some(db), a).Some?
    decreases |accesses|
  {
    if accesses == [] then counter
    else
      AccessFrame(j, db, a, accesses[0], 0);
      CounterAfter(AfterAccess(j, db, a, accesses[0]), db, a, accesses[1..],
                   AddRefund(counter, RefundOf(j, db, a, accesses[0])))
  }

  /** The exact signed sum of refunds, without any counter. */
  ghost function RefundSum(j: JournalState, db: DbState, a: Address, accesses: seq<Access>): int
    requires j.Lookup(Some(db), a).Some?
    decreases |accesses|
  {
    if accesses == [] then 0
    else
      AccessFrame(j, db, a, accesses[0], 0);
      RefundOf(j, db, a, accesses[0]) + RefundSum(AfterAccess(j, db, a, accesses[0]), db, a, accesses[1..])
  }

  /** How much of the counter is owed back should a cleared slot be filled again. */
  ghost function Owed(slot: Slot): nat {
    if slot.original != 0 && slot.present == 0 then 4_800 else 0
  }

  /** The reward for bringing a changed slot back to its original value. */
  ghost function Bonus(original: U256): nat {
    if original == 0 then 19_900 else 2_800
  }

  ghost predicate Returns(slot: Slot, value: U256) {
    slot.present != slot.original && value == slot.original
  }

  lemma RefundSplits(original: U256, current: U256, value: U256)
    ensures StoreRefund(original, current, value) ==
            Owed(Slot(original, value)) - Owed(Slot(original, current))
            + (if Returns(Slot(original, current), value) then Bonus(original) else 0)
  {
  }

  ghost function OwedOver(j: JournalState, db: DbState, a: Address, keys: seq<U256>): nat
    requires j.Lookup(Some(db), a).Some?
  {
    if keys == [] then 0 else Owed(Found(j, db, a, keys[0])) + OwedOver(j, db, a, keys[1..])
  }

  ghost predicate Distinct(keys: seq<U256>) {
    forall i, k | 0 <= i < k < |keys| :: keys[i] != keys[k]
  }

  ghost function KeysOf(accesses: seq<Access>): (keys: seq<U256>)
    ensures Distinct(keys)
    ensures forall i | 0 <= i < |accesses| :: accesses[i].key in keys
  {
    if accesses == [] then []
    else
      var rest := KeysOf(accesses[1..]);
      if accesses[0].key in rest then rest else [accesses[0].key] + rest
  }

  lemma {:induction false} OwedAfterAccess(
    j: JournalState, db: DbState, a: Address, access: Access, keys: seq<U256>)
    requires j.Lookup(Some(db), a).Some? && Distinct(keys)
    ensures AfterAccess(j, db, a, access).Lookup(Some(db), a).Some?
    ensures var next := AfterAccess(j, db, a, access);
            OwedOver(next, db, a, keys) ==
            OwedOver(j, db, a, keys)
            + if access.key in keys
              then Owed(Found(next, db, a, access.key)) - Owed(Found(j, db, a, access.key)) else 0
  {
    AccessFrame(j, db, a, access, access.key);
    if keys != [] {
      AccessFrame(j, db, a, access, keys[0]);
      OwedAfterAccess(j, db, a, access, keys[1..]);
    }
  }

  lemma {:induction false} CounterIsExactOver(
    j: JournalState, db: DbState, a: Address, accesses: seq<Access>, counter: nat, keys: seq<U256>)
    requires j.Lookup(Some(db), a).Some? && Distinct(keys)
    requires forall i | 0 <= i < |accesses| :: accesses[i].key in keys
    requires OwedOver(j, db, a, keys) <= counter
    ensures CounterAfter(j, db, a, accesses, counter) == counter + RefundSum(j, db, a, accesses)
    decreases |accesses|
  {
    if accesses != [] {
      var access := accesses[0];
      var key := access.key;
      AccessFrame(j, db, a, access, key);
      OwedAfterAccess(j, db, a, access, keys);
      var slot := Found(j, db, a, key);
      if access.Store? {
        RefundSplits(slot.original, slot.present, access.value);
      }
      CounterIsExactOver(AfterAccess(j, db, a, access), db, a, accesses[1..],
                         AddRefund(counter, RefundOf(j, db, a, access)), keys);
    }
  }

  lemma {:induction false} NothingOwed(j: JournalState, db: DbState, a: Address, keys: seq<U256>)
    requires j.Lookup(Some(db), a).Some?
    requires forall k: U256 :: Found(j, db, a, k).present == Found(j, db, a, k).original
    ensures OwedOver(j, db, a, keys) == 0
  {
    if keys != [] {
      NothingOwed(j, db, a, keys[1..]);
    }
  }

  /**
   In a frame whose slots start clean the counter is the exact signed sum of all refunds, however
   the stores to different slots interleave: the unsigned subtraction never saturates.
   */
  lemma RefundsAreExact(j: JournalState, db: DbState, a: Address, accesses: seq<Access>, counter: nat)
    requires j.Lookup(Some(db), a).Some?
    requires forall k: U256 :: Found(j, db, a, k).present == Found(j, db, a, k).original
    ensures CounterAfter(j, db, a, accesses, counter) == counter + RefundSum(j, db, a, accesses)
  {
    NothingOwed(j, db, a, KeysOf(accesses));
    CounterIsExactOver(j, db, a, accesses, counter, KeysOf(accesses));
  }

  /** The signed refunds of one slot. */
  ghost function RefundOn(j: JournalState, db: DbState, a: Address, accesses: seq<Access>, key: U256): int
    requires j.Lookup(Some(db), a).Some?
    decreases |accesses|
  {
    if accesses == [] then 0
    else
      AccessFrame(j, db, a, accesses[0], key);
      (if accesses[0].key == key then RefundOf(j, db, a, accesses[0]) else 0)
      + RefundOn(AfterAccess(j, db, a, accesses[0]), db, a, accesses[1..], key)
  }

  /** How often a slot comes back to its original value. */
  ghost function ReturnsOn(j: JournalState, db: DbState, a: Address, accesses: seq<Access>, key: U256): nat
    requires j.Lookup(Some(db), a).Some?
    decreases |accesses|
  {
    if accesses == [] then 0
    else
      AccessFrame(j, db, a, accesses[0], key);
      (if accesses[0].Store? && accesses[0].key == key && Returns(Found(j, db, a, key), accesses[0].value)
       then 1 else 0)
      + ReturnsOn(AfterAccess(j, db, a, accesses[0]), db, a, accesses[1..], key)
  }

  /** Each slot's share: what it still owes now, plus one bonus per return to its original value. */
  lemma {:induction false} RefundShare(
    j: JournalState, db: DbState, a: Address, accesses: seq<Access>, key: U256)
    requires j.Lookup(Some(db), a).Some?
    ensures Final(j, db, a, accesses).Lookup(Some(db), a).Some?
    ensures RefundOn(j, db, a, accesses, key) ==
            Owed(Found(Final(j, db, a, accesses), db, a, key)) - Owed(Found(j, db, a, key))
            + Bonus(Found(j, db, a, key).original) * ReturnsOn(j, db, a, accesses, key)
    decreases |accesses|
  {
    if accesses != [] {
      var access := accesses[0];
      AccessFrame(j, db, a, access, key);
      RefundShare(AfterAccess(j, db, a, access), db, a, accesses[1..], key);
      if access.Store? && access.key == key {
        var slot := Found(j, db, a, key);
        RefundSplits(slot.original, slot.present, access.value);
      }
    }
  }

  ghost function ShareSum(j: JournalState, db: DbState, a: Address, accesses: seq<Access>, keys: seq<U256>): int
    requires j.Lookup(Some(db), a).Some?
  {
    if keys == [] then 0 else RefundOn(j, db, a, accesses, keys[0]) + ShareSum(j, db, a, accesses, keys[1..])
  }

  lemma {:induction false} ShareSumStep(
    j: JournalState, db: DbState, a: Address, accesses: seq<Access>, keys: seq<U256>)
    requires j.Lookup(Some(db), a).Some? && Distinct(keys) && accesses != []
    ensures AfterAccess(j, db, a, accesses[0]).Lookup(Some(db), a).Some?
    ensures ShareSum(j, db, a, accesses, keys) ==
            ShareSum(AfterAccess(j, db, a, accesses[0]), db, a, accesses[1..], keys)
            + if accesses[0].key in keys then RefundOf(j, db, a, accesses[0]) else 0
  {
    AccessFrame(j, db, a, accesses[0], 0);
    if keys != [] {
      ShareSumStep(j, db, a, accesses, keys[1..]);
    }
  }

  /** The shares of the slots add up to the whole. */
  lemma {:induction false} SharesAddUp(
    j: JournalState, db: DbState, a: Address, accesses: seq<Access>, keys: seq<U256>)
    requires j.Lookup(Some(db), a).Some? && Distinct(keys)
    requires forall i | 0 <= i < |accesses| :: accesses[i].key in keys
    ensures RefundSum(j, db, a, accesses) == ShareSum(j, db, a, accesses, keys)
    decreases |accesses|
  {
    if accesses != [] {
      ShareSumStep(j, db, a, accesses, keys);
      SharesAddUp(AfterAccess(j, db, a, accesses[0]), db, a, accesses[1..], keys);
    } else {
      NoShares(j, db, a, keys);
    }
  }

  lemma {:induction false} NoShares(j: JournalState, db: DbState, a: Address, keys: seq<U256>)
    requires j.Lookup(Some(db), a).Some?
    ensures ShareSum(j, db, a, [], keys) == 0
  {
    if keys != [] {
      NoShares(j, db, a, keys[1..]);
    }
  }
}
