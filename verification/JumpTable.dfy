/** The jump table: cases listed in program order, destinations taken from an ordered map. */
module JumpTables {
  /** A jump destination: its program counter and the block generated for it. */
  datatype Landing = Landing(pc: nat, block: nat)

  // ----- The ordered map of registered destinations -----

  /** The entries of a BTreeMap, smallest key first. */
  datatype Tree = Empty | Entry(key: nat, value: nat, rest: Tree)

  function Insert(tree: Tree, key: nat, value: nat): Tree {
    match tree
    case Empty => Entry(key, value, Empty)
    case Entry(k, v, rest) =>
      if key < k then Entry(key, value, tree)
      else if key == k then Entry(key, value, rest)
      else Entry(k, v, Insert(rest, key, value))
  }

  function Values(tree: Tree): seq<nat> {
    match tree
    case Empty => []
    case Entry(_, v, rest) => [v] + Values(rest)
  }

  function Keys(tree: Tree): seq<nat> {
    match tree
    case Empty => []
    case Entry(k, _, rest) => [k] + Keys(rest)
  }

  predicate Increasing(s: seq<nat>) {
    forall i, j | 0 <= i < j < |s| :: s[i] < s[j]
  }

  /** Every element of `s` is below `bound`. */
  predicate Below(s: seq<nat>, bound: nat) {
    forall x | x in s :: x < bound
  }

  lemma BelowCons(x: nat, s: seq<nat>, bound: nat)
    ensures Below([x] + s, bound) <==> x < bound && Below(s, bound)
  {
    assert x in [x] + s;
    assert forall y | y in s :: y in [x] + s;
  }

  lemma {:induction false} SameSize(tree: Tree)
    ensures |Keys(tree)| == |Values(tree)|
  {
    match tree
    case Empty =>
    case Entry(_, _, rest) => SameSize(rest);
  }

  lemma {:induction false} InsertKeys(tree: Tree, key: nat, value: nat)
    requires Increasing(Keys(tree))
    ensures Increasing(Keys(Insert(tree, key, value)))
    ensures forall k :: k in Keys(Insert(tree, key, value)) <==> k in Keys(tree) || k == key
    ensures |Keys(Insert(tree, key, value))| <= |Keys(tree)| + 1
  {
    match tree
    case Empty =>
    case Entry(k, v, rest) =>
      assert Keys(tree)[1..] == Keys(rest);
      IncreasingHead(Keys(tree));
      if key > k {
        InsertKeys(rest, key, value);
        IncreasingCons(k, Keys(Insert(rest, key, value)));
      } else if key < k {
        IncreasingCons(key, Keys(tree));
      }
  }

  lemma IncreasingCons(k: nat, s: seq<nat>)
    requires Increasing(s) && forall x | x in s :: k < x
    ensures Increasing([k] + s)
  {
    var t := [k] + s;
    forall i, j | 0 <= i < j < |t|
      ensures t[i] < t[j]
    {
      assert t[j] == s[j - 1] && s[j - 1] in s;
      if i > 0 {
        assert t[i] == s[i - 1];
      }
    }
  }

  lemma IncreasingHead(s: seq<nat>)
    requires s != [] && Increasing(s)
    ensures Increasing(s[1..]) && forall x | x in s[1..] :: s[0] < x
  {
    var t := s[1..];
    forall x | x in t
      ensures s[0] < x
    {
      var j :| 0 <= j < |t| && t[j] == x;
      assert s[j + 1] == x;
    }
    assert forall i | 0 <= i < |t| :: t[i] == s[i + 1];
  }

  /** A key above all others goes to the end. */
  lemma {:induction false} InsertAbove(tree: Tree, key: nat, value: nat)
    requires Below(Keys(tree), key)
    ensures Values(Insert(tree, key, value)) == Values(tree) + [value]
  {
    match tree
    case Empty =>
    case Entry(k, v, rest) =>
      BelowCons(k, Keys(rest), key);
      InsertAbove(rest, key, value);
  }

  lemma NotAbove(tree: Tree, key: nat, value: nat)
    requires tree.Entry? && key <= tree.key
    ensures var after := Values(Insert(tree, key, value));
            |after| > |Values(tree)| ==> after[|after| - 1] in Values(tree)
  {
    if key < tree.key {
      assert Values(Insert(tree, key, value)) == [value] + Values(tree);
    }
  }

  /** If a value not seen before ends up last and the map grew, its key is above all others. */
  lemma {:induction false} LastIsAbove(tree: Tree, key: nat, value: nat)
    requires Increasing(Keys(tree)) && Below(Values(tree), value)
    requires var after := Values(Insert(tree, key, value));
             |after| > |Values(tree)| && after[|after| - 1] == value
    ensures Below(Keys(tree), key)
  {
    match tree
    case Empty =>
    case Entry(k, v, rest) =>
      assert Keys(rest) == Keys(tree)[1..] && Values(rest) == Values(tree)[1..];
      IncreasingHead(Keys(tree));
      BelowCons(k, Keys(rest), key);
      BelowCons(v, Values(rest), value);
      var after := Values(Insert(tree, key, value));
      if key > k {
        assert after[1..] == Values(Insert(rest, key, value));
        LastIsAbove(rest, key, value);
      } else {
        NotAbove(tree, key, value);
        assert false;
      }
  }

  // ----- Cases and destinations -----

  /** The map after registering `landings` one after the other. */
  function Registered(landings: seq<Landing>): Tree {
    if landings == [] then Empty
    else
      var last := landings[|landings| - 1];
      Insert(Registered(landings[..|landings| - 1]), last.pc, last.block)
  }

  function Pcs(landings: seq<Landing>): seq<nat> {
    seq(|landings|, i requires 0 <= i < |landings| => landings[i].pc)
  }

  function Blocks(landings: seq<Landing>): seq<nat> {
    seq(|landings|, i requires 0 <= i < |landings| => landings[i].block)
  }

  lemma {:induction false} RegisteredKeys(landings: seq<Landing>)
    ensures Increasing(Keys(Registered(landings)))
    ensures forall k :: k in Keys(Registered(landings)) <==> k in Pcs(landings)
    ensures |Keys(Registered(landings))| <= |landings|
  {
    if landings != [] {
      var init, last := landings[..|landings| - 1], landings[|landings| - 1];
      RegisteredKeys(init);
      InsertKeys(Registered(init), last.pc, last.block);
      assert Pcs(landings) == Pcs(init) + [last.pc];
    }
  }

  lemma {:induction false} RegisteredValues(landings: seq<Landing>)
    ensures forall v :: v in Values(Registered(landings)) ==> v in Blocks(landings)
  {
    if landings != [] {
      var init, last := landings[..|landings| - 1], landings[|landings| - 1];
      RegisteredValues(init);
      InsertValues(Registered(init), last.pc, last.block);
      assert Blocks(landings) == Blocks(init) + [last.block];
    }
  }

  lemma {:induction false} InsertValues(tree: Tree, key: nat, value: nat)
    ensures forall v :: v in Values(Insert(tree, key, value)) ==> v in Values(tree) || v == value
  {
    match tree
    case Empty =>
    case Entry(k, _, rest) =>
      if key > k {
        InsertValues(rest, key, value);
      }
  }

  /**
   The destinations taken from the map line up with the cases taken from the program exactly when the
   program's counters are strictly increasing. Blocks are numbered in the order they are generated.
   */
  lemma {:induction false} LinesUp(landings: seq<Landing>)
    requires Increasing(Blocks(landings))
    ensures Values(Registered(landings)) == Blocks(landings) <==> Increasing(Pcs(landings))
  {
    if landings != [] {
      var n := |landings| - 1;
      var init, last := landings[..n], landings[n];
      assert Blocks(landings) == Blocks(init) + [last.block];
      assert Pcs(landings) == Pcs(init) + [last.pc];
      PrefixIncreasing(Blocks(init), last.block);
      LinesUp(init);
      LastLinesUp(init, last);
    }
  }

  lemma PrefixIncreasing(s: seq<nat>, x: nat)
    ensures Increasing(s + [x]) <==> Increasing(s) && Below(s, x)
  {
    var t := s + [x];
    if Increasing(t) {
      forall y | y in s
        ensures y < x
      {
        var i :| 0 <= i < |s| && s[i] == y;
        assert t[i] < t[|s|];
      }
      assert forall i | 0 <= i < |s| :: t[i] == s[i];
    }
    if Increasing(s) && Below(s, x) {
      forall i, j | 0 <= i < j < |t|
        ensures t[i] < t[j]
      {
        assert t[i] == s[i] && s[i] in s;
      }
    }
  }

  lemma LastLinesUp(init: seq<Landing>, last: Landing)
    requires Increasing(Blocks(init)) && Below(Blocks(init), last.block)
    requires Values(Registered(init)) == Blocks(init) <==> Increasing(Pcs(init))
    ensures Values(Insert(Registered(init), last.pc, last.block)) == Blocks(init) + [last.block] <==>
            Increasing(Pcs(init) + [last.pc])
  {
    var tree := Registered(init);
    RegisteredKeys(init);
    RegisteredValues(init);
    SameSize(tree);
    PrefixIncreasing(Pcs(init), last.pc);
    if Below(Pcs(init), last.pc) {
      InsertAbove(tree, last.pc, last.block);
      assert Values(tree) + [last.block] == Blocks(init) + [last.block] <==> Values(tree) == Blocks(init) by {
        assert (Values(tree) + [last.block])[..|Values(tree)|] == Values(tree);
        assert (Blocks(init) + [last.block])[..|Blocks(init)|] == Blocks(init);
      }
    } else if Values(Insert(tree, last.pc, last.block)) == Blocks(init) + [last.block] {
      LastIsAbove(tree, last.pc, last.block);
      assert false;
    }
  }

  /** A hand-built program with two destinations in the wrong order sends each jump to the other's block. */
  lemma UnorderedDestinationsSwap()
    ensures var landings := [Landing(7, 3), Landing(2, 5)];
            && Increasing(Blocks(landings))
            && Values(Registered(landings)) == [5, 3]
            && SwitchTarget(Pcs(landings), Values(Registered(landings)), 1, 7) == 5
            && SwitchTarget(Pcs(landings), Values(Registered(landings)), 1, 2) == 3
  {
    var landings := [Landing(7, 3), Landing(2, 5)];
    assert landings[..1] == [Landing(7, 3)] && landings[..1][..0] == [];
    assert Registered(landings[..1]) == Entry(7, 3, Empty);
    assert Registered(landings) == Entry(2, 5, Entry(7, 3, Empty));
    assert Pcs(landings) == [7, 2] && Blocks(landings) == [3, 5];
    assert [7, 2][1..] == [2] && [5, 3][1..] == [3];
  }

  /** Where a switch over `cases` sends `v`. */
  function SwitchTarget(cases: seq<nat>, destinations: seq<nat>, default: nat, v: nat): nat
    requires |cases| == |destinations|
  {
    if cases == [] then default
    else if cases[0] == v then destinations[0]
    else SwitchTarget(cases[1..], destinations[1..], default, v)
  }

  /** With the cases lined up, each counter goes to its own block and anything else to the default. */
  lemma {:induction false} SwitchLands(landings: seq<Landing>, default: nat, v: nat)
    requires Increasing(Pcs(landings))
    ensures forall landing | landing in landings ::
              SwitchTarget(Pcs(landings), Blocks(landings), default, landing.pc) == landing.block
    ensures v !in Pcs(landings) ==> SwitchTarget(Pcs(landings), Blocks(landings), default, v) == default
  {
    if landings != [] {
      var rest := landings[1..];
      assert Pcs(landings)[1..] == Pcs(rest) && Blocks(landings)[1..] == Blocks(rest);
      assert Increasing(Pcs(rest)) by {
        assert forall i | 0 <= i < |rest| :: Pcs(rest)[i] == Pcs(landings)[i + 1];
      }
      SwitchLands(rest, default, v);
      forall landing | landing in landings
        ensures SwitchTarget(Pcs(landings), Blocks(landings), default, landing.pc) == landing.block
      {
        var i :| 0 <= i < |landings| && landings[i] == landing;
        if i > 0 {
          assert Pcs(landings)[0] < Pcs(landings)[i];
          assert landing == rest[i - 1];
        }
      }
    }
  }
}
