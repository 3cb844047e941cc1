/** What the scheduler attempts, and how a run ends. */
module ScheduleTheorems {
  import opened Outcomes
  import opened Schedule

  // ---------------------------------------------------------------------------------------
  // Units
  // ---------------------------------------------------------------------------------------

  /** A blocking step on its own. */
  predicate IsBarrier(steps: seq<Task>, u: Unit) {
    u.from < |steps| && u.to == u.from + 1 && IsBlocking(steps[u.from])
  }

  /** A maximal run of steps that do not block. */
  predicate IsBatch(steps: seq<Task>, u: Unit) {
    && u.from < u.to <= |steps|
    && (forall k :: u.from <= k < u.to ==> !IsBlocking(steps[k]))
    && (u.from == 0 || IsBlocking(steps[u.from - 1]))
    && (u.to == |steps| || IsBlocking(steps[u.to]))
  }

  predicate IsUnit(steps: seq<Task>, u: Unit) {
    IsBarrier(steps, u) || IsBatch(steps, u)
  }

  /** No run of steps that do not block goes across `i`. */
  predicate Boundary(steps: seq<Task>, i: nat) {
    i <= |steps| && (i == 0 || i == |steps| || IsBlocking(steps[i - 1]) || IsBlocking(steps[i]))
  }

  /** The units follow each other without gap or overlap, from `i` to the end. */
  predicate Chain(units: seq<Unit>, i: nat, n: nat) {
    && (units == [] ==> i == n)
    && (units != [] ==> units[0].from == i && units[|units| - 1].to == n)
    && (forall k :: 0 <= k < |units| ==> units[k].from < units[k].to)
    && (forall k :: 0 < k < |units| ==> units[k - 1].to == units[k].from)
  }

  lemma FirstUnit(steps: seq<Task>, i: nat)
    requires Boundary(steps, i) && i < |steps|
    ensures
      var u := Units(steps, i)[0];
      u.from == i < u.to <= |steps| && Boundary(steps, u.to) && IsUnit(steps, u) && Units(steps, i) == [u] + Units(steps, u.to)
  {
  }

  lemma {:induction false} UnitsChain(steps: seq<Task>, i: nat)
    requires Boundary(steps, i)
    ensures Chain(Units(steps, i), i, |steps|)
    ensures forall k :: 0 <= k < |Units(steps, i)| ==> IsUnit(steps, Units(steps, i)[k])
    decreases |steps| - i
  {
    if i < |steps| {
      FirstUnit(steps, i);
      UnitsChain(steps, Units(steps, i)[0].to);
    }
  }

  /** A unit starts where another one does only if it is that one. */
  lemma UnitsAt(steps: seq<Task>, u: Unit, v: Unit, k: nat)
    requires IsUnit(steps, u) && IsUnit(steps, v) && u.from <= k < u.to && v.from <= k < v.to
    ensures u == v
  {
    if IsBatch(steps, u) && IsBatch(steps, v) {
      assert !(u.from < v.from) && !(v.from < u.from);
      assert !(u.to < v.to) && !(v.to < u.to);
    } else {
      assert IsBlocking(steps[k]);
    }
  }

  lemma {:induction false} StepHasUnit(steps: seq<Task>, i: nat, k: nat) returns (m: nat)
    requires Boundary(steps, i) && i <= k < |steps|
    ensures m < |Units(steps, i)| && Units(steps, i)[m].from <= k < Units(steps, i)[m].to
    decreases |steps| - i
  {
    var u := Units(steps, i)[0];
    FirstUnit(steps, i);
    if k < u.to {
      m := 0;
    } else {
      m := StepHasUnit(steps, u.to, k);
      m := m + 1;
    }
  }

  /** The loop's units are exactly the barriers and the maximal runs. */
  lemma UnitsExact(steps: seq<Task>, u: Unit)
    ensures u in Units(steps, 0) <==> IsUnit(steps, u)
  {
    UnitsChain(steps, 0);
    if IsUnit(steps, u) {
      var m := StepHasUnit(steps, 0, u.from);
      UnitsAt(steps, u, Units(steps, 0)[m], u.from);
    }
  }

  /** Every step is attempted in one unit, and in only one. */
  lemma StepInOneUnit(steps: seq<Task>, k: nat) returns (m: nat)
    requires k < |steps|
    ensures m < |Units(steps, 0)| && Units(steps, 0)[m].from <= k < Units(steps, 0)[m].to
    ensures forall x :: 0 <= x < |Units(steps, 0)| && Units(steps, 0)[x].from <= k < Units(steps, 0)[x].to ==> x == m
  {
    m := StepHasUnit(steps, 0, k);
    UnitsChain(steps, 0);
    forall x | 0 <= x < |Units(steps, 0)| && Units(steps, 0)[x].from <= k < Units(steps, 0)[x].to ensures x == m {
      if x < m { ChainOrder(Units(steps, 0), 0, |steps|, x, m); }
      if m < x { ChainOrder(Units(steps, 0), 0, |steps|, m, x); }
    }
  }

  lemma {:induction false} ChainOrder(units: seq<Unit>, i: nat, n: nat, x: nat, y: nat)
    requires Chain(units, i, n) && x < y < |units|
    ensures units[x].to <= units[y].from
    decreases y
  {
    if x + 1 < y {
      ChainOrder(units, i, n, x, y - 1);
    }
  }

  // ---------------------------------------------------------------------------------------
  // Units and groups
  // ---------------------------------------------------------------------------------------

  /** What decoding leaves: no empty entry, no empty group, no plain step that would not block. */
  predicate AllShaped(items: seq<Item>) {
    forall p :: 0 <= p < |items| ==> !items[p].EmptyItem? && WellShaped(items[p])
  }

  lemma DecodedIsShaped(n: Entry)
    requires DecodeEntry(n).Ok?
    ensures WellShaped(DecodeEntry(n).value) && (DecodeEntry(n).value.EmptyItem? <==> n.Null?)
  {
  }

  /** Where the steps of entry `p` start. */
  function Offset(items: seq<Item>, p: nat): nat
    requires p <= |items|
  {
    if p == 0 then 0 else Offset(items, p - 1) + |FlatItem(items[p - 1])|
  }

  lemma {:induction false} OffsetIsLength(items: seq<Item>, p: nat)
    requires p <= |items|
    ensures Offset(items, p) == |Flat(items[..p])|
  {
    if p > 0 {
      OffsetIsLength(items, p - 1);
      FlatSnoc(items, p - 1);
    }
  }

  lemma {:induction false} FlatPrefix(items: seq<Item>, p: nat)
    requires p <= |items|
    ensures |Flat(items[..p])| <= |Flat(items)| && Flat(items)[..|Flat(items[..p])|] == Flat(items[..p])
    decreases |items|
  {
    if p == |items| {
      assert items[..p] == items;
    } else {
      var init := items[..|items| - 1];
      FlatPrefix(init, p);
      assert init[..p] == items[..p];
    }
  }

  lemma FlatSnoc(items: seq<Item>, p: nat)
    requires p < |items|
    ensures Flat(items[..p + 1]) == Flat(items[..p]) + FlatItem(items[p])
  {
    assert items[..p + 1][..p] == items[..p];
  }

  lemma SliceOf(whole: seq<Task>, a: seq<Task>, b: seq<Task>)
    requires |a| + |b| <= |whole| && whole[..|a| + |b|] == a + b
    ensures whole[|a|..|a| + |b|] == b
  {
    assert whole[|a|..|a| + |b|] == whole[..|a| + |b|][|a|..];
  }

  /** The steps of entry `p`, in place. */
  lemma FlatSlice(items: seq<Item>, p: nat)
    requires p < |items|
    ensures Offset(items, p + 1) == Offset(items, p) + |FlatItem(items[p])| <= |Flat(items)|
    ensures Flat(items)[Offset(items, p)..Offset(items, p + 1)] == FlatItem(items[p])
  {
    FlatPrefix(items, p + 1);
    FlatSnoc(items, p);
    OffsetIsLength(items, p);
    SliceOf(Flat(items), Flat(items[..p]), FlatItem(items[p]));
  }

  /** Every step from `a` to `b` blocks, or none does. */
  predicate BlockAlike(steps: seq<Task>, a: nat, b: nat, blocking: bool) {
    b <= |steps| && forall k :: a <= k < b ==> IsBlocking(steps[k]) == blocking
  }

  lemma SliceBlocks(steps: seq<Task>, a: nat, b: nat, blocking: bool)
    requires a <= b <= |steps| && forall t :: 0 <= t < |steps[a..b]| ==> IsBlocking(steps[a..b][t]) == blocking
    ensures BlockAlike(steps, a, b, blocking)
  {
    forall k | a <= k < b ensures IsBlocking(steps[k]) == blocking { assert steps[a..b][k - a] == steps[k]; }
  }

  lemma ItemBlocks(item: Item)
    requires WellShaped(item) && !item.EmptyItem?
    ensures |FlatItem(item)| > 0 && (item.StepItem? ==> |FlatItem(item)| == 1)
    ensures forall t :: 0 <= t < |FlatItem(item)| ==> IsBlocking(FlatItem(item)[t]) == item.StepItem?
  {
  }

  lemma ItemSpan(items: seq<Item>, p: nat)
    requires AllShaped(items) && p < |items|
    ensures Offset(items, p) < Offset(items, p + 1) <= |Flat(items)|
    ensures BlockAlike(Flat(items), Offset(items, p), Offset(items, p + 1), items[p].StepItem?)
    ensures items[p].StepItem? ==> Offset(items, p + 1) == Offset(items, p) + 1
  {
    FlatSlice(items, p);
    ItemBlocks(items[p]);
    SliceBlocks(Flat(items), Offset(items, p), Offset(items, p + 1), items[p].StepItem?);
  }

  lemma {:induction false} OffsetsGrow(items: seq<Item>, p: nat, q: nat)
    requires AllShaped(items) && p < q <= |items|
    ensures Offset(items, p) < Offset(items, q)
    decreases q
  {
    ItemBlocks(items[q - 1]);
    if p < q - 1 { OffsetsGrow(items, p, q - 1); }
  }

  lemma {:induction false} EntryOf(items: seq<Item>, n: nat, k: nat) returns (p: nat)
    requires AllShaped(items) && n <= |items| && k < Offset(items, n)
    ensures p < n && Offset(items, p) <= k < Offset(items, p + 1)
    decreases n
  {
    assert n > 0;
    p := n - 1;
    if k < Offset(items, n - 1) {
      p := EntryOf(items, n - 1, k);
    }
  }

  /** Entries p..q are a maximal run of adjacent groups. */
  predicate GroupRun(items: seq<Item>, p: nat, q: nat) {
    && p < q <= |items|
    && (forall x :: p <= x < q ==> items[x].GroupItem?)
    && (p == 0 || !items[p - 1].GroupItem?)
    && (q == |items| || !items[q].GroupItem?)
  }

  lemma Ends(items: seq<Item>)
    ensures Offset(items, 0) == 0 && Offset(items, |items|) == |Flat(items)|
  {
    OffsetIsLength(items, |items|);
    assert items[..|items|] == items;
  }

  /** A run of adjacent groups is one batch. */
  lemma GroupRunIsBatch(items: seq<Item>, p: nat, q: nat)
    requires AllShaped(items) && GroupRun(items, p, q)
    ensures IsBatch(Flat(items), Unit(Offset(items, p), Offset(items, q)))
  {
    var steps, a, b := Flat(items), Offset(items, p), Offset(items, q);
    OffsetsGrow(items, p, q);
    GroupsInside(items, p, q);
    BeforeRun(items, p);
    AfterRun(items, q);
    BatchOf(steps, a, b);
  }

  lemma BatchOf(steps: seq<Task>, a: nat, b: nat)
    requires a < b && BlockAlike(steps, a, b, false)
    requires a == 0 || IsBlocking(steps[a - 1])
    requires b == |steps| || IsBlocking(steps[b])
    ensures IsBatch(steps, Unit(a, b))
  {
  }

  lemma GroupsInside(items: seq<Item>, p: nat, q: nat)
    requires AllShaped(items) && p < q <= |items| && forall x :: p <= x < q ==> items[x].GroupItem?
    ensures BlockAlike(Flat(items), Offset(items, p), Offset(items, q), false)
  {
    ItemSpan(items, q - 1);
    forall k | Offset(items, p) <= k < Offset(items, q) ensures !IsBlocking(Flat(items)[k]) { InsideGroups(items, p, q, k); }
  }

  /** At an entry that follows no group, no run of steps that do not block goes on. */
  lemma BeforeRun(items: seq<Item>, p: nat)
    requires AllShaped(items) && p <= |items| && (p == 0 || !items[p - 1].GroupItem?)
    ensures Offset(items, p) == 0 || (Offset(items, p) <= |Flat(items)| && IsBlocking(Flat(items)[Offset(items, p) - 1]))
  {
    Ends(items);
    if p > 0 { ItemSpan(items, p - 1); }
  }

  lemma AfterRun(items: seq<Item>, q: nat)
    requires AllShaped(items) && q <= |items| && (q == |items| || !items[q].GroupItem?)
    ensures Offset(items, q) == |Flat(items)| || (Offset(items, q) < |Flat(items)| && IsBlocking(Flat(items)[Offset(items, q)]))
  {
    Ends(items);
    if q < |items| { ItemSpan(items, q); }
  }

  lemma InsideGroups(items: seq<Item>, p: nat, q: nat, k: nat)
    requires AllShaped(items) && p < q <= |items| && forall x :: p <= x < q ==> items[x].GroupItem?
    requires Offset(items, p) <= k < Offset(items, q)
    ensures k < |Flat(items)| && !IsBlocking(Flat(items)[k])
  {
    var x := EntryOf(items, q, k);
    if x < p { OffsetsGrowWeak(items, x + 1, p); }
    InsideGroup(items, x, k);
  }

  lemma InsideGroup(items: seq<Item>, x: nat, k: nat)
    requires AllShaped(items) && x < |items| && items[x].GroupItem? && Offset(items, x) <= k < Offset(items, x + 1)
    ensures k < |Flat(items)| && !IsBlocking(Flat(items)[k])
  {
    ItemSpan(items, x);
  }

  lemma OffsetsGrowWeak(items: seq<Item>, p: nat, q: nat)
    requires AllShaped(items) && p <= q <= |items|
    ensures Offset(items, p) <= Offset(items, q)
  {
    if p < q { OffsetsGrow(items, p, q); }
  }

  /** A batch begins with an entry and ends with one. */
  lemma BatchIsGroupRun(items: seq<Item>, u: Unit) returns (p: nat, q: nat)
    requires AllShaped(items) && IsBatch(Flat(items), u)
    ensures GroupRun(items, p, q) && u == Unit(Offset(items, p), Offset(items, q))
  {
    p := BatchStart(items, u);
    q := BatchEnd(items, u);
    if q <= p { OffsetsGrowWeak(items, q, p); }
    forall x | p <= x < q ensures items[x].GroupItem? { EntryInBatch(items, u, p, q, x); }
    NoGroupBefore(items, u, p);
    NoGroupAfter(items, u, q);
  }

  lemma NoGroupBefore(items: seq<Item>, u: Unit, p: nat)
    requires AllShaped(items) && IsBatch(Flat(items), u) && p <= |items| && u.from == Offset(items, p)
    ensures p == 0 || !items[p - 1].GroupItem?
  {
    if p > 0 { ItemSpan(items, p - 1); }
  }

  lemma NoGroupAfter(items: seq<Item>, u: Unit, q: nat)
    requires AllShaped(items) && IsBatch(Flat(items), u) && q <= |items| && u.to == Offset(items, q)
    ensures q == |items| || !items[q].GroupItem?
  {
    if q < |items| { ItemSpan(items, q); }
  }

  lemma BatchStart(items: seq<Item>, u: Unit) returns (p: nat)
    requires AllShaped(items) && IsBatch(Flat(items), u)
    ensures p < |items| && u.from == Offset(items, p)
  {
    Ends(items);
    p := EntryOf(items, |items|, u.from);
    ItemSpan(items, p);
  }

  lemma BatchEnd(items: seq<Item>, u: Unit) returns (q: nat)
    requires AllShaped(items) && IsBatch(Flat(items), u)
    ensures q <= |items| && u.to == Offset(items, q)
  {
    Ends(items);
    var last := EntryOf(items, |items|, u.to - 1);
    ItemSpan(items, last);
    q := last + 1;
  }

  lemma EntryInBatch(items: seq<Item>, u: Unit, p: nat, q: nat, x: nat)
    requires AllShaped(items) && IsBatch(Flat(items), u) && p <= x < q <= |items|
    requires u == Unit(Offset(items, p), Offset(items, q))
    ensures items[x].GroupItem?
  {
    ItemSpan(items, x);
    OffsetsGrowWeak(items, p, x);
    OffsetsGrow(items, x, q);
    FirstIsAlike(items[x], Flat(items), u, Offset(items, x), Offset(items, x + 1));
  }

  lemma FirstIsAlike(item: Item, steps: seq<Task>, u: Unit, a: nat, b: nat)
    requires !item.EmptyItem? && IsBatch(steps, u) && u.from <= a < u.to && a < b
    requires BlockAlike(steps, a, b, item.StepItem?)
    ensures item.GroupItem?
  {
    assert !IsBlocking(steps[a]);
  }

  /** The batches of a flattened workflow are exactly the maximal runs of adjacent groups, and its barriers exactly the plain steps. */
  lemma UnitsMirrorEntries(items: seq<Item>, u: Unit)
    requires AllShaped(items)
    ensures u in Units(Flat(items), 0) && IsBatch(Flat(items), u) <==>
            exists p, q :: GroupRun(items, p, q) && u == Unit(Offset(items, p), Offset(items, q))
    ensures u in Units(Flat(items), 0) && IsBarrier(Flat(items), u) <==>
            exists p :: PlainAt(items, p) && u == Unit(Offset(items, p), Offset(items, p) + 1)
  {
    UnitsExact(Flat(items), u);
    if IsBatch(Flat(items), u) {
      var p, q := BatchIsGroupRun(items, u);
    }
    if p: nat, q: nat :| GroupRun(items, p, q) && u == Unit(Offset(items, p), Offset(items, q)) {
      GroupRunIsBatch(items, p, q);
    }
    if IsBarrier(Flat(items), u) {
      Ends(items);
      var p := EntryOf(items, |items|, u.from);
      ItemSpan(items, p);
      assert PlainAt(items, p);
    }
    if p: nat :| PlainAt(items, p) && u == Unit(Offset(items, p), Offset(items, p) + 1) {
      ItemSpan(items, p);
    }
  }

  predicate PlainAt(items: seq<Item>, p: nat) {
    p < |items| && items[p].StepItem?
  }

  // ---------------------------------------------------------------------------------------
  // The trace of a phase
  // ---------------------------------------------------------------------------------------

  function Events(phase: Phase, units: seq<Unit>): seq<Event> {
    seq(|units|, i requires 0 <= i < |units| => Attempt(phase, units[i]))
  }

  /** How the attempt of unit `i` ends when all before it were attempted. */
  function EndOf(w: Surroundings, phase: Phase, units: seq<Unit>, past: seq<Event>, i: nat): Option<Err>
    requires i < |units|
  {
    w.attempt(past + Events(phase, units[..i]), Attempt(phase, units[i]))
  }

  /** The phase attempted the first `k` units; all of them succeeded, or all but the last. */
  ghost predicate StoppedAt(w: Surroundings, phase: Phase, units: seq<Unit>, past: seq<Event>, k: nat, err: Option<Err>) {
    && k <= |units|
    && if err.None? then k == |units| && forall i :: 0 <= i < k ==> EndOf(w, phase, units, past, i).None?
       else k > 0 && EndOf(w, phase, units, past, k - 1) == err && forall i :: 0 <= i < k - 1 ==> EndOf(w, phase, units, past, i).None?
  }

  lemma {:induction false} AttemptsStop(w: Surroundings, phase: Phase, units: seq<Unit>, past: seq<Event>) returns (k: nat)
    ensures StoppedAt(w, phase, units, past, k, Attempts(w, phase, units, past).1)
    ensures Attempts(w, phase, units, past).0 == past + Events(phase, units[..k])
    decreases |units|
  {
    if units == [] {
      k := 0;
    } else {
      var e := Attempt(phase, units[0]);
      assert past + Events(phase, units[..0]) == past;
      if w.attempt(past, e).Some? {
        k := 1;
        assert Events(phase, units[..1]) == [e];
      } else {
        var rest := units[1..];
        k := AttemptsStop(w, phase, rest, past + [e]);
        StoppedShift(w, phase, units, past, k, Attempts(w, phase, rest, past + [e]).1);
        ShiftEvents(w, phase, units, past, k);
        k := k + 1;
      }
    }
  }

  lemma StoppedShift(w: Surroundings, phase: Phase, units: seq<Unit>, past: seq<Event>, k: nat, err: Option<Err>)
    requires units != [] && w.attempt(past, Attempt(phase, units[0])).None?
    requires StoppedAt(w, phase, units[1..], past + [Attempt(phase, units[0])], k, err)
    ensures StoppedAt(w, phase, units, past, k + 1, err)
  {
    ShiftEvents(w, phase, units, past, 0);
    assert past + Events(phase, units[..0]) == past;
    var last := if err.None? then k + 1 else k;
    forall i | 0 <= i < last ensures EndOf(w, phase, units, past, i).None? {
      if i > 0 {
        assert EndOf(w, phase, units[1..], past + [Attempt(phase, units[0])], i - 1) == EndOf(w, phase, units, past, i - 1 + 1);
      }
    }
  }

  lemma ShiftEvents(w: Surroundings, phase: Phase, units: seq<Unit>, past: seq<Event>, k: nat)
    requires units != [] && k < |units|
    ensures past + [Attempt(phase, units[0])] + Events(phase, units[1..][..k]) == past + Events(phase, units[..k + 1])
    ensures forall i :: 0 <= i < |units| - 1 ==>
              EndOf(w, phase, units[1..], past + [Attempt(phase, units[0])], i) == EndOf(w, phase, units, past, i + 1)
  {
    var e := Attempt(phase, units[0]);
    assert [e] + Events(phase, units[1..][..k]) == Events(phase, units[..k + 1]);
    forall i | 0 <= i < |units| - 1
      ensures EndOf(w, phase, units[1..], past + [e], i) == EndOf(w, phase, units, past, i + 1)
    {
      assert past + [e] + Events(phase, units[1..][..i]) == past + Events(phase, units[..i + 1]);
    }
  }

  // ---------------------------------------------------------------------------------------
  // Whole runs
  // ---------------------------------------------------------------------------------------

  /** How a run of `wf` went: `k` main units, then `m` finally units, ending in `main` and `fin`. */
  ghost predicate WentAs(w: Surroundings, wf: Workflow, trace: seq<Event>, k: nat, m: nat, main: Option<Err>, fin: Option<Err>) {
    var units, finUnits := Units(wf.steps, 0), Units(wf.fin, 0);
    && StoppedAt(w, Main, units, [], k, main)
    && m <= |finUnits|
    && trace == Events(Main, units[..k]) + Events(Finally, finUnits[..m])
    && var past := Events(Main, units[..k]);
    && (if wf.fin == [] then m == 0 && fin.None?
        else if w.setup(past, Finally).Some? then m == 0 && fin == w.setup(past, Finally)
        else StoppedAt(w, Finally, finUnits, past, m, fin) && m > 0)
  }

  // ---------------------------------------------------------------------------------------
  // Exit codes
  // ---------------------------------------------------------------------------------------

  /** The errors an error was made of, from left to right. */
  function Leaves(e: Err): seq<Err> {
    match e
    case Caused(_, cause) => Leaves(cause)
    case Joined(a, b) => Leaves(a) + Leaves(b)
    case leaf => [leaf]
  }

  predicate NoExit(leaves: seq<Err>) {
    forall i :: 0 <= i < |leaves| ==> !leaves[i].Exit?
  }

  /** The leftmost exit among `leaves` has code `c`. */
  ghost predicate FirstExit(leaves: seq<Err>, c: int) {
    exists i :: ExitFirstAt(leaves, c, i)
  }

  predicate ExitFirstAt(leaves: seq<Err>, c: int, i: nat) {
    i < |leaves| && leaves[i] == Exit(c) && NoExit(leaves[..i])
  }

  lemma FirstOfTwo(a: seq<Err>, b: seq<Err>, c: int)
    ensures NoExit(a + b) <==> NoExit(a) && NoExit(b)
    ensures FirstExit(a, c) ==> FirstExit(a + b, c)
    ensures NoExit(a) && FirstExit(b, c) ==> FirstExit(a + b, c)
  {
    var all := a + b;
    if NoExit(all) {
      forall i | 0 <= i < |a| ensures !a[i].Exit? { assert all[i] == a[i]; }
      forall i | 0 <= i < |b| ensures !b[i].Exit? { assert all[|a| + i] == b[i]; }
    }
    if i: nat :| ExitFirstAt(a, c, i) {
      assert all[..i] == a[..i];
      assert ExitFirstAt(all, c, i);
    }
    if i: nat :| NoExit(a) && ExitFirstAt(b, c, i) {
      assert all[..|a| + i] == a + b[..i];
      assert ExitFirstAt(all, c, |a| + i);
    }
  }

  lemma FirstExitUnique(leaves: seq<Err>, c: int, d: int)
    requires FirstExit(leaves, c)
    ensures !NoExit(leaves) && (FirstExit(leaves, d) ==> c == d)
  {
    var i: nat :| ExitFirstAt(leaves, c, i);
    if j: nat :| ExitFirstAt(leaves, d, j) {
      if i < j { assert leaves[..j][i] == leaves[i]; }
      if j < i { assert leaves[..i][j] == leaves[j]; }
    }
  }

  /** The code found in an error is that of its leftmost exit. */
  lemma {:induction false} CodeIsFirstExit(e: Err)
    ensures ExitCode(e).Some? ==> FirstExit(Leaves(e), ExitCode(e).value)
    ensures ExitCode(e).None? ==> NoExit(Leaves(e))
  {
    match e
    case Exit(c) => assert ExitFirstAt(Leaves(e), c, 0);
    case Message(_) =>
    case Caused(_, cause) => CodeIsFirstExit(cause);
    case Joined(a, b) =>
      CodeIsFirstExit(a);
      CodeIsFirstExit(b);
      if ExitCode(e).Some? { FirstOfTwo(Leaves(a), Leaves(b), ExitCode(e).value); } else { FirstOfTwo(Leaves(a), Leaves(b), 0); }
  }

  lemma CombinedBy(main: Err, fin: Err)
    ensures NoExit(Leaves(main)) ==> Combine(Some(main), Some(fin)) == Some(Joined(main, Caused("finally failed", fin)))
    ensures forall c :: FirstExit(Leaves(main), c) ==> Combine(Some(main), Some(fin)) == Some(Exit(c))
  {
    CodeIsFirstExit(main);
    forall c | FirstExit(Leaves(main), c) ensures Combine(Some(main), Some(fin)) == Some(Exit(c)) {
      FirstExitUnique(Leaves(main), c, c);
      if ExitCode(main).Some? { FirstExitUnique(Leaves(main), ExitCode(main).value, c); }
    }
  }

  // ---------------------------------------------------------------------------------------
  // The error of a run
  // ---------------------------------------------------------------------------------------

  /**
   A failed set-up attempts nothing, finally included. Otherwise the trace is a prefix of whole main units in
   order, up to the first that fails, followed by one go at the finally units, whatever the main units did;
   the run succeeds exactly when both did, and of two errors the first exit within the main one is all that is kept.
   */
  lemma RunShape(w: Surroundings, wf: Workflow) returns (k: nat, m: nat, main: Option<Err>, fin: Option<Err>)
    ensures
      var (trace, err) := Outcome(w, wf, Main, []);
      if w.setup([], Main).Some? then trace == [] && err == w.setup([], Main)
      else
        && WentAs(w, wf, trace, k, m, main, fin)
        && (err.None? <==> main.None? && fin.None?)
        && (main.None? ==> err == fin) && (fin.None? ==> err == main)
        && (main.Some? && fin.Some? && NoExit(Leaves(main.value)) ==> err == Some(Joined(main.value, Caused("finally failed", fin.value))))
        && (main.Some? && fin.Some? ==> forall c :: FirstExit(Leaves(main.value), c) ==> err == Some(Exit(c)))
  {
    var units, finUnits := Units(wf.steps, 0), Units(wf.fin, 0);
    k := AttemptsStop(w, Main, units, []);
    main := Attempts(w, Main, units, []).1;
    var past := Events(Main, units[..k]);
    assert [] + past == past;
    m, fin := 0, None;
    assert past + Events(Finally, finUnits[..0]) == past;
    if wf.fin != [] {
      if w.setup(past, Finally).Some? {
        fin := w.setup(past, Finally);
      } else {
        m := AttemptsStop(w, Finally, finUnits, past);
        fin := Attempts(w, Finally, finUnits, past).1;
      }
    }
    if main.Some? && fin.Some? { CombinedBy(main.value, fin.value); }
  }

  /** The main error of a failed run is still there to be found, unless only its exit code was kept. */
  predicate Within(e: Err, whole: Err) {
    e == whole || match whole
                  case Caused(_, cause) => Within(e, cause)
                  case Joined(a, b) => Within(e, a) || Within(e, b)
                  case _ => false
  }

  lemma CombineKeepsErrors(main: Option<Err>, fin: Option<Err>)
    ensures Combine(main, fin).None? <==> main.None? && fin.None?
    ensures main.Some? && (fin.None? || NoExit(Leaves(main.value))) ==> Within(main.value, Combine(main, fin).value)
    ensures fin.Some? && (main.None? || NoExit(Leaves(main.value))) ==> Within(fin.value, Combine(main, fin).value)
    ensures main.Some? && fin.Some? ==> forall c :: FirstExit(Leaves(main.value), c) ==> Combine(main, fin) == Some(Exit(c))
  {
    if main.Some? && fin.Some? {
      CombinedBy(main.value, fin.value);
      var f := Caused("finally failed", fin.value);
      assert Within(fin.value, f);
    }
  }

  lemma StoppedUnique(
      w: Surroundings, phase: Phase, units: seq<Unit>, past: seq<Event>, k: nat, err: Option<Err>, k': nat, err': Option<Err>)
    requires StoppedAt(w, phase, units, past, k, err) && StoppedAt(w, phase, units, past, k', err')
    ensures k == k' && err == err'
  {
  }

  /** The error of a run whose phases ended in `main` and `fin`. */
  lemma RunError(
      w: Surroundings, wf: Workflow, trace: seq<Event>, k: nat, m: nat, main: Option<Err>, fin: Option<Err>, err: Option<Err>)
    requires w.setup([], Main).None? && WentAs(w, wf, trace, k, m, main, fin) && Outcome(w, wf, Main, []).1 == err
    ensures fin.None? ==> err == main
    ensures main.None? ==> err == fin
    ensures main.Some? && fin.Some? && NoExit(Leaves(main.value)) ==> err == Some(Joined(main.value, Caused("finally failed", fin.value)))
    ensures forall c :: main.Some? && fin.Some? && FirstExit(Leaves(main.value), c) ==> err == Some(Exit(c))
  {
    var units, finUnits := Units(wf.steps, 0), Units(wf.fin, 0);
    var k0 := AttemptsStop(w, Main, units, []);
    var main0 := Attempts(w, Main, units, []).1;
    StoppedUnique(w, Main, units, [], k, main, k0, main0);
    var past := Events(Main, units[..k]);
    assert [] + past == past;
    if wf.fin != [] && w.setup(past, Finally).None? {
      var m0 := AttemptsStop(w, Finally, finUnits, past);
      StoppedUnique(w, Finally, finUnits, past, m, fin, m0, Attempts(w, Finally, finUnits, past).1);
    }
    if main.Some? && fin.Some? { CombinedBy(main.value, fin.value); }
  }

  /** When the main phase ends in an exit with code `c`, as it is or wrapped any number of times, the run answers that exit, whatever finally does. */
  lemma MainExitSurvives(
      w: Surroundings, wf: Workflow, trace: seq<Event>, k: nat, m: nat, main: Err, fin: Option<Err>, c: int)
    requires w.setup([], Main).None? && WentAs(w, wf, trace, k, m, Some(main), fin) && Leaves(main) == [Exit(c)]
    ensures Outcome(w, wf, Main, []).1 == if fin.Some? then Some(Exit(c)) else Some(main)
  {
    assert ExitFirstAt(Leaves(main), c, 0);
    RunError(w, wf, trace, k, m, Some(main), fin, Outcome(w, wf, Main, []).1);
  }

  // ---------------------------------------------------------------------------------------
  // What decoding and flattening keep
  // ---------------------------------------------------------------------------------------

  /** A group is accepted exactly alone in its entry, asynchronous and with tasks; a step exactly without those keys and blocking. */
  lemma DecodesIff(n: Entry)
    ensures forall tasks :: DecodeEntry(n) == Ok(GroupItem(tasks)) <==>
              n.Mapping? && n.keys == ["group"] && tasks != [] && n.group == Some(Group("async", tasks))
    ensures forall step :: DecodeEntry(n) == Ok(StepItem(step)) <==>
              n.Mapping? && "group" !in n.keys && "skip_container" !in n.keys && step.blocking != Some(false) && n.step == Some(step)
  {
    if n.Mapping? && "group" in n.keys && |n.keys| == 1 { assert n.keys == [n.keys[0]]; }
  }

  /** What cannot be flattened: an empty entry, or a group with a task that asks to block. */
  lemma {:induction false} FlattensIff(items: seq<Item>)
    ensures FlatError(items).None? <==>
            forall p :: 0 <= p < |items| ==>
              !items[p].EmptyItem? && (items[p].GroupItem? ==> forall t :: 0 <= t < |items[p].tasks| ==> items[p].tasks[t].blocking != Some(true))
  {
    if items != [] {
      FlattensIff(items[1..]);
      if items[0].GroupItem? { TasksFlattenIff(items[0].tasks); }
      assert forall p :: 0 < p < |items| ==> items[p] == items[1..][p - 1];
    }
  }

  lemma {:induction false} TasksFlattenIff(tasks: seq<Task>)
    ensures TasksError(tasks).None? <==> forall t :: 0 <= t < |tasks| ==> tasks[t].blocking != Some(true)
  {
    if tasks != [] {
      TasksFlattenIff(tasks[1..]);
      assert forall t :: 0 < t < |tasks| ==> tasks[t] == tasks[1..][t - 1];
    }
  }

  /** Flattening keeps every step, in place: a plain one as it is, a group's tasks in order with nothing changed but that they do not block. */
  lemma FlattenKeepsSteps(items: seq<Item>, p: nat)
    requires p < |items| && !items[p].EmptyItem?
    ensures
      var steps, at := Flat(items), Offset(items, p);
      match items[p]
      case StepItem(step) => at < |steps| && steps[at] == step
      case GroupItem(tasks) =>
        at + |tasks| <= |steps| && forall t :: 0 <= t < |tasks| ==> steps[at + t] == Task(tasks[t].id, Some(false), tasks[t].body)
      case EmptyItem => true
  {
    FlatSlice(items, p);
    var slice := Flat(items)[Offset(items, p)..Offset(items, p + 1)];
    forall t | 0 <= t < |slice| ensures Flat(items)[Offset(items, p) + t] == slice[t] {}
  }
}
