/**
 * The pool allocator as a state machine over block numbers and offsets, and what holds over
 * every run of it.
 */
module PoolRuns {

  /** `cursor` is the number of the current block; without blocks `slot` and `end` are both null. */
  datatype State = State(blocks: nat, cursor: nat, slot: nat, active: nat)

  /** A returned address: a block and an offset into the bytes behind its header. */
  datatype Address = Address(block: nat, offset: nat)

  const FRESH := State(0, 0, 0, 0)

  predicate Valid(s: State) {
    if s.blocks == 0 then s.cursor == 0 && s.slot == 0 else s.cursor < s.blocks
  }

  function End(blockSize: nat, s: State): nat {
    if s.blocks == 0 then 0 else blockSize
  }

  /** The block that `allocateBlock` makes current: the next in the chain, or a new one behind it. */
  function NextBlock(s: State): nat {
    if s.blocks == 0 then 0 else s.cursor + 1
  }

  function Place(blockSize: nat, s: State, size: nat): Address {
    if s.slot + size > End(blockSize, s) then Address(NextBlock(s), 0) else Address(s.cursor, s.slot)
  }

  function Allocate(blockSize: nat, s: State, size: nat): State {
    var a := Place(blockSize, s, size);
    State(if a.block < s.blocks then s.blocks else a.block + 1, a.block, a.offset + size, s.active + 1)
  }

  function Clear(s: State): State {
    if s.blocks == 0 then s.(active := 0) else State(s.blocks, 0, 0, 0)
  }

  // ---------- Runs ----------

  datatype Request = Alloc(size: nat) | ClearAll

  /** An allocation that has been handed out since the last clear. */
  datatype Live = Live(at: Address, size: nat)

  datatype Run = Run(state: State, live: seq<Live>)

  predicate Sized(requests: seq<Request>) {
    forall i :: 0 <= i < |requests| && requests[i].Alloc? ==> requests[i].size >= 1
  }

  function Perform(blockSize: nat, requests: seq<Request>): Run {
    if requests == [] then Run(FRESH, [])
    else
      var before := Perform(blockSize, requests[..|requests| - 1]);
      match requests[|requests| - 1]
      case ClearAll => Run(Clear(before.state), [])
      case Alloc(size) =>
        Run(Allocate(blockSize, before.state, size),
            before.live + [Live(Place(blockSize, before.state, size), size)])
  }

  predicate Disjoint(a: Live, b: Live) {
    a.at.block != b.at.block || a.at.offset + a.size <= b.at.offset || b.at.offset + b.size <= a.at.offset
  }

  /** Entirely behind the bump pointer. */
  predicate Behind(s: State, a: Live) {
    s.blocks > 0 && (a.at.block < s.cursor || (a.at.block == s.cursor && a.at.offset + a.size <= s.slot))
  }

  ghost predicate Safe(r: Run) {
    && Valid(r.state)
    && r.state.active == |r.live|
    && (forall i :: 0 <= i < |r.live| ==> Behind(r.state, r.live[i]))
    && (forall i, j :: 0 <= i < j < |r.live| ==> Disjoint(r.live[i], r.live[j]))
  }

  lemma AllocateIsSafe(blockSize: nat, r: Run, size: nat)
    requires Safe(r) && size >= 1
    ensures Safe(Run(Allocate(blockSize, r.state, size), r.live + [Live(Place(blockSize, r.state, size), size)]))
  {
    var a := Live(Place(blockSize, r.state, size), size);
    var s := Allocate(blockSize, r.state, size);
    forall i | 0 <= i < |r.live| ensures Behind(s, r.live[i]) && Disjoint(r.live[i], a) {
      assert Behind(r.state, r.live[i]);
    }
  }

  /** Over every run, what is alive is counted, behind the bump pointer, and pairwise disjoint. */
  lemma {:induction false} EveryRunIsSafe(blockSize: nat, requests: seq<Request>)
    requires Sized(requests)
    ensures Safe(Perform(blockSize, requests))
  {
    if requests != [] {
      var before := requests[..|requests| - 1];
      EveryRunIsSafe(blockSize, before);
      var last := requests[|requests| - 1];
      if last.Alloc? {
        AllocateIsSafe(blockSize, Perform(blockSize, before), last.size);
      }
    }
  }

  /** An allocation stays inside the block's bytes if and only if it asks for no more than there are. */
  lemma {:induction false} InsidePayloadIff(blockSize: nat, requests: seq<Request>, i: nat)
    requires Sized(requests) && i < |Perform(blockSize, requests).live|
    ensures var a := Perform(blockSize, requests).live[i];
            a.at.block < Perform(blockSize, requests).state.blocks
            && (a.at.offset + a.size <= blockSize <==> a.size <= blockSize)
  {
    EveryRunIsSafe(blockSize, requests);
    var before := requests[..|requests| - 1];
    var r := Perform(blockSize, before);
    var last := requests[|requests| - 1];
    assert last.Alloc?;
    if i < |r.live| {
      InsidePayloadIff(blockSize, before, i);
      EveryRunIsSafe(blockSize, before);
    }
  }

  /** The state stands behind the last allocation since the last clear. */
  lemma {:induction false} StandsBehindLast(blockSize: nat, requests: seq<Request>)
    requires Sized(requests)
    ensures var r := Perform(blockSize, requests);
            r.live != [] ==>
              var a := r.live[|r.live| - 1];
              r.state.blocks > 0 && r.state.cursor == a.at.block && r.state.slot == a.at.offset + a.size
    ensures var r := Perform(blockSize, requests);
            r.live == [] ==> r.state.cursor == 0 && r.state.slot == 0
  {
    if requests != [] {
      StandsBehindLast(blockSize, requests[..|requests| - 1]);
    }
  }

  /**
   * No space is wasted: an allocation stands right behind the one before it if both fit their
   * block, and at the start of the next block if they do not. The first one after a clear stands
   * at the start of the first block if that can hold it, and of the first or second if not.
   */
  lemma {:induction false} NeighboursAdjoin(blockSize: nat, requests: seq<Request>, i: nat)
    requires Sized(requests) && i < |Perform(blockSize, requests).live|
    ensures var live := Perform(blockSize, requests).live;
            var b := live[i];
            if i == 0 then b.at.offset == 0 && b.at.block <= (if b.size <= blockSize then 0 else 1)
            else
              var a := live[i - 1];
              b.at == if a.at.offset + a.size + b.size <= blockSize then Address(a.at.block, a.at.offset + a.size)
                      else Address(a.at.block + 1, 0)
  {
    var before := requests[..|requests| - 1];
    StandsBehindLast(blockSize, before);
    if requests[|requests| - 1].Alloc? && i < |Perform(blockSize, before).live| {
      NeighboursAdjoin(blockSize, before, i);
    }
  }

  // ---------- Replays ----------

  function AllocateAll(blockSize: nat, s: State, sizes: seq<nat>): State
    decreases sizes
  {
    if sizes == [] then s else AllocateAll(blockSize, Allocate(blockSize, s, sizes[0]), sizes[1..])
  }

  function Addresses(blockSize: nat, s: State, sizes: seq<nat>): seq<Address>
    decreases sizes
  {
    if sizes == [] then []
    else [Place(blockSize, s, sizes[0])] + Addresses(blockSize, Allocate(blockSize, s, sizes[0]), sizes[1..])
  }

  /** Two states that differ in the length of the block chain and the count only. */
  predicate SamePlace(s: State, t: State) {
    s.blocks > 0 && t.blocks > 0 && s.cursor == t.cursor && s.slot == t.slot
  }

  lemma {:induction false} SamePlaceSameAddresses(blockSize: nat, s: State, t: State, sizes: seq<nat>)
    requires Valid(s) && Valid(t) && SamePlace(s, t)
    ensures Addresses(blockSize, s, sizes) == Addresses(blockSize, t, sizes)
    ensures SamePlace(AllocateAll(blockSize, s, sizes), AllocateAll(blockSize, t, sizes))
    ensures Valid(AllocateAll(blockSize, s, sizes)) && AllocateAll(blockSize, s, sizes).blocks >= s.blocks
    ensures s.blocks <= t.blocks ==>
              var s', t' := AllocateAll(blockSize, s, sizes), AllocateAll(blockSize, t, sizes);
              s'.blocks <= t'.blocks && t'.blocks == if t.blocks > s'.blocks then t.blocks else s'.blocks
    decreases sizes
  {
    if sizes != [] {
      SamePlaceSameAddresses(blockSize, Allocate(blockSize, s, sizes[0]), Allocate(blockSize, t, sizes[0]), sizes[1..]);
    }
  }

  /** After a clear the addresses depend on the sizes alone, not on what the pool did before. */
  lemma ClearForgetsHistory(blockSize: nat, s: State, t: State, sizes: seq<nat>)
    requires Valid(s) && Valid(t) && s.blocks > 0 && t.blocks > 0
    ensures Addresses(blockSize, Clear(s), sizes) == Addresses(blockSize, Clear(t), sizes)
  {
    SamePlaceSameAddresses(blockSize, Clear(s), Clear(t), sizes);
  }

  lemma {:induction false} BlocksOnlyGrow(blockSize: nat, s: State, sizes: seq<nat>)
    requires Valid(s)
    ensures Valid(AllocateAll(blockSize, s, sizes)) && AllocateAll(blockSize, s, sizes).blocks >= s.blocks
    ensures sizes != [] && sizes[0] >= 1 ==> AllocateAll(blockSize, s, sizes).blocks >= 1
    decreases sizes
  {
    if sizes != [] {
      BlocksOnlyGrow(blockSize, Allocate(blockSize, s, sizes[0]), sizes[1..]);
    }
  }

  /**
   * From a fresh pool, replaying a sequence of sizes after a clear returns the same addresses and
   * makes no new block if and only if the first size fits a block.
   */
  lemma ReplayIff(blockSize: nat, sizes: seq<nat>)
    requires forall i :: 0 <= i < |sizes| ==> sizes[i] >= 1
    ensures var s := AllocateAll(blockSize, FRESH, sizes);
            var again := AllocateAll(blockSize, Clear(s), sizes);
            (Addresses(blockSize, Clear(s), sizes) == Addresses(blockSize, FRESH, sizes) && again.blocks == s.blocks)
            <==> sizes == [] || sizes[0] <= blockSize
  {
    if sizes != [] {
      var first := Allocate(blockSize, FRESH, sizes[0]);
      var s := AllocateAll(blockSize, first, sizes[1..]);
      assert AllocateAll(blockSize, FRESH, sizes) == s;
      BlocksOnlyGrow(blockSize, FRESH, sizes);
      var cleared := Clear(s);
      BlocksOnlyGrow(blockSize, first, sizes[1..]);
      if sizes[0] <= blockSize {
        var second := Allocate(blockSize, cleared, sizes[0]);
        SamePlaceSameAddresses(blockSize, first, second, sizes[1..]);
      } else {
        assert Addresses(blockSize, cleared, sizes)[0] == Address(1, 0);
        assert Addresses(blockSize, FRESH, sizes)[0] == Address(0, 0);
      }
    }
  }
}
