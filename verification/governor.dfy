/**
  The admission gates around `download_file` within one collection: the
  collection's sub-gate, `asyncio.Semaphore(min(max_concurrent, len(files)))`,
  held by an item from start to finish, and the process-wide governor
  `self.semaphore`, held by `download_file` for each attempt. The change
  detector's HEAD probe is gated by the governor too.

  `asyncio.Semaphore` is a counting semaphore without owners: a task that
  acquires it while already holding it takes a second slot, or waits for
  one. Each item passes through the stages below once; a retry repeats the
  attempt stages and changes nothing about the gates. A step moves one item
  to its next stage; an item waiting at a gate without a free slot has none.
 */
module Governor {
  import opened Wrappers

  datatype Stage =
    | Queued     // waiting for the collection's sub-gate
    | Admitted   // holds the sub-gate, waiting for a governor slot in `download_file`
    | Attempting // holds the sub-gate and a governor slot for the attempt
    | Probing    // inside the HEAD probe
    | Settled    // returned: every slot released

  /** `max_concurrent`, and for each item whether its attempt sends the HEAD
      probe (not forced, file present, record cached). */
  datatype Gates = Gates(maxConcurrent: nat, probes: seq<bool>)

  /** The collection sub-gate's size: `min(max_concurrent, len(files))`. */
  function SubGate(g: Gates): nat
  {
    if g.maxConcurrent < |g.probes| then g.maxConcurrent else |g.probes|
  }

  /** How many items are at stage `s`. */
  function Count(st: seq<Stage>, s: Stage): (n: nat)
    ensures n <= |st|
    ensures n == 0 <==> forall i :: 0 <= i < |st| ==> st[i] != s
    decreases |st|
  {
    if |st| == 0 then 0
    else
      assert forall i :: 1 <= i < |st| ==> st[i] == st[1..][i - 1];
      (if st[0] == s then 1 else 0) + Count(st[1..], s)
  }

  /** Moving one item changes the counts of its old and new stage by one. */
  lemma {:induction false} CountUpdate(st: seq<Stage>, i: nat, x: Stage)
    requires i < |st|
    ensures forall s :: Count(st[i := x], s) == Count(st, s) - (if st[i] == s then 1 else 0) + (if x == s then 1 else 0)
    decreases |st|
  {
    if i > 0 {
      assert st[i := x][1..] == st[1..][i - 1 := x];
      CountUpdate(st[1..], i - 1, x);
    } else {
      assert st[i := x][1..] == st[1..];
    }
  }

  /** Item `i` moves to stage `x`; nobody else moves. */
  function Move(st: seq<Stage>, i: nat, x: Stage): (st': seq<Stage>)
    requires i < |st|
    ensures |st'| == |st| && st'[i] == x
    ensures forall j :: 0 <= j < |st| && j != i ==> st'[j] == st[j]
    ensures forall s :: Count(st', s) == Count(st, s) - (if st[i] == s then 1 else 0) + (if x == s then 1 else 0)
  {
    CountUpdate(st, i, x);
    st[i := x]
  }

  /** Sub-gate slots in use. */
  function Holding(st: seq<Stage>): nat
  {
    Count(st, Admitted) + Count(st, Attempting) + Count(st, Probing)
  }

  /** Governor slots in use as written: one per attempt, and a second one for
      an attempt inside its probe. */
  function SlotsAsWritten(st: seq<Stage>): nat
  {
    Count(st, Attempting) + 2 * Count(st, Probing)
  }

  /** Governor slots in use when the probe runs under its attempt's slot. */
  function Slots(st: seq<Stage>): nat
  {
    Count(st, Attempting) + Count(st, Probing)
  }

  /** One step of item `i` as written: `download_file` acquires the governor
      (line 290), and the probe inside it acquires the governor again
      (line 261). Neither gate is ever over-committed. */
  function StepAsWritten(g: Gates, st: seq<Stage>, i: nat): (r: Option<seq<Stage>>)
    requires |st| == |g.probes| && i < |st|
    ensures r.Some? ==> |r.value| == |st| && forall j :: 0 <= j < |st| && j != i ==> r.value[j] == st[j]
    ensures r.Some? && Holding(st) <= SubGate(g) ==> Holding(r.value) <= SubGate(g)
    ensures r.Some? && SlotsAsWritten(st) <= g.maxConcurrent ==> SlotsAsWritten(r.value) <= g.maxConcurrent
  {
    match st[i]
    case Queued => if Holding(st) < SubGate(g) then Some(Move(st, i, Admitted)) else None
    case Admitted => if SlotsAsWritten(st) < g.maxConcurrent then Some(Move(st, i, Attempting)) else None
    case Attempting =>
      if !g.probes[i] then Some(Move(st, i, Settled))
      else if SlotsAsWritten(st) < g.maxConcurrent then Some(Move(st, i, Probing))
      else None
    case Probing => Some(Move(st, i, Settled))
    case Settled => None
  }

  /** One step of item `i` with the probe running under the governor slot
      its attempt already holds: an item holds at most one governor slot at
      any time, and the probe never waits at the governor. */
  function Step(g: Gates, st: seq<Stage>, i: nat): (r: Option<seq<Stage>>)
    requires |st| == |g.probes| && i < |st|
    ensures r.Some? ==> |r.value| == |st| && forall j :: 0 <= j < |st| && j != i ==> r.value[j] == st[j]
    ensures r.Some? && Holding(st) <= SubGate(g) ==> Holding(r.value) <= SubGate(g)
    ensures r.Some? && Slots(st) <= g.maxConcurrent ==> Slots(r.value) <= g.maxConcurrent
  {
    match st[i]
    case Queued => if Holding(st) < SubGate(g) then Some(Move(st, i, Admitted)) else None
    case Admitted => if Slots(st) < g.maxConcurrent then Some(Move(st, i, Attempting)) else None
    case Attempting => if g.probes[i] then Some(Move(st, i, Probing)) else Some(Move(st, i, Settled))
    case Probing => Some(Move(st, i, Settled))
    case Settled => None
  }

  /** Some item has not returned. */
  predicate Unsettled(st: seq<Stage>)
  {
    exists i :: 0 <= i < |st| && st[i] != Settled
  }

  /** Some item has not returned and no item can move. */
  predicate StuckAsWritten(g: Gates, st: seq<Stage>)
    requires |st| == |g.probes|
  {
    Unsettled(st) && forall i :: 0 <= i < |st| ==> StepAsWritten(g, st, i).None?
  }

  /** The single item of a one-slot configuration is admitted ... */
  lemma OneSlotAdmits()
    ensures StepAsWritten(Gates(1, [true]), [Queued], 0) == Some([Admitted])
  {
    assert [Queued][1..] == [];
    assert Holding([Queued]) == 0;
    assert Move([Queued], 0, Admitted) == [Admitted];
  }

  /** ... takes the only governor slot ... */
  lemma OneSlotTaken()
    ensures StepAsWritten(Gates(1, [true]), [Admitted], 0) == Some([Attempting])
  {
    assert [Admitted][1..] == [];
    assert SlotsAsWritten([Admitted]) == 0;
    assert Move([Admitted], 0, Attempting) == [Attempting];
  }

  /** ... and cannot enter its probe. */
  lemma OneSlotStuck()
    ensures StuckAsWritten(Gates(1, [true]), [Attempting])
  {
    assert [Attempting][1..] == [];
    assert SlotsAsWritten([Attempting]) == 1;
  }

  /** With `--max-concurrent 1`, one item whose file is present and cached
      (not forced) is admitted, takes the only governor slot, and then waits
      forever in its probe for that same slot. */
  lemma NestedProbeDeadlocks()
    ensures var g := Gates(1, [true]);
            && StepAsWritten(g, [Queued], 0) == Some([Admitted])
            && StepAsWritten(g, [Admitted], 0) == Some([Attempting])
            && StuckAsWritten(g, [Attempting])
  {
    OneSlotAdmits();
    OneSlotTaken();
    OneSlotStuck();
  }

  /** A conditional generalisation of the one-slot trace: IF `max_concurrent`
      items hold every governor slot and all of them are about to probe,
      while the rest are queued or done, nothing can move. Whether the
      program can reach such a state with more than one slot is not claimed
      here: the step relation lets other items move between the two
      acquisitions, which an uncontended `asyncio` acquire does not allow. */
  lemma FullGovernorStalls(g: Gates, st: seq<Stage>)
    requires |st| == |g.probes|
    requires forall i :: 0 <= i < |st| ==> st[i] == Queued || st[i] == Attempting || st[i] == Settled
    requires forall i :: 0 <= i < |st| && st[i] == Attempting ==> g.probes[i]
    requires g.maxConcurrent >= 1 && Count(st, Attempting) == g.maxConcurrent
    ensures StuckAsWritten(g, st)
  {
    assert Count(st, Admitted) == 0 && Count(st, Probing) == 0;
    var k :| 0 <= k < |st| && st[k] == Attempting;
    assert st[k] != Settled;
  }

  /** With the probe under its attempt's slot, some item can always move
      until every item has returned. */
  lemma NeverStuck(g: Gates, st: seq<Stage>)
    requires |st| == |g.probes| && g.maxConcurrent >= 1 && Unsettled(st)
    ensures exists i :: 0 <= i < |st| && Step(g, st, i).Some?
  {
    if Count(st, Probing) > 0 {
      var i :| 0 <= i < |st| && st[i] == Probing;
      assert Step(g, st, i).Some?;
    } else if Count(st, Attempting) > 0 {
      var i :| 0 <= i < |st| && st[i] == Attempting;
      assert Step(g, st, i).Some?;
    } else if Count(st, Admitted) > 0 {
      var i :| 0 <= i < |st| && st[i] == Admitted;
      assert Step(g, st, i).Some?;
    } else {
      var i :| 0 <= i < |st| && st[i] != Settled;
      assert st[i] == Queued;
      assert Step(g, st, i).Some?;
    }
  }
}
