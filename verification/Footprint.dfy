/** How much the allocator keeps: which bounds hold in every run, and which runs
    reach them. */
module Footprint {
  import opened Allocator
  import opened Wrappers

  const FOUR_MEBIBYTES: nat := 4 * 1024 * 1024

  /** The bytes one thread's first `n` classes keep. */
  function Retained(h: Heap, thread: nat, n: nat): nat {
    if n == 0 then 0
    else Retained(h, thread, n - 1) + |ListOf(h, Slot(thread, n - 1))| * LayoutOf(n - 1).size
  }

  lemma {:induction false} ThreadRetentionIsBounded(h: Heap, thread: nat, n: nat)
    requires Inv(h) && n <= CLASSES
    ensures Retained(h, thread, n) <= n * PER_CLASS_BYTES
  {
    hide Inv, LayoutOf, ListOf;
    if n > 0 {
      ThreadRetentionIsBounded(h, thread, n - 1);
      RetentionIsBounded(h, Slot(thread, n - 1));
    }
  }

  // ----- What the classes in use allow -----

  /** What the caps of the classes of `used` below `n` come to. */
  function MostKept(used: set<nat>, n: nat): nat {
    if n == 0 then 0
    else MostKept(used, n - 1) + if n - 1 in used then PerClass(n - 1) * LayoutOf(n - 1).size else 0
  }

  /** The class a layout falls in, if any, is one of these. */
  predicate FallsIn(used: set<nat>, layout: Layout) {
    ClassOf(layout).None? || ClassOf(layout).value in used
  }

  predicate AsksWithin(used: set<nat>, op: Op) {
    match op
    case Alloc(_, layout, _) => FallsIn(used, layout)
    case Resize(_, _, layout, newSize, _) => FallsIn(used, Layout(newSize, layout.align))
    case _ => true
  }

  /** Every layout the program asks for falls in one of these classes, or in none. */
  predicate RunWithin(used: set<nat>, ops: seq<Op>) {
    forall i :: 0 <= i < |ops| ==> AsksWithin(used, ops[i])
  }

  predicate OnlyUsed(h: Heap, used: set<nat>) {
    && (forall b :: b in h.live ==> FallsIn(used, h.live[b]))
    && forall slot :: slot in h.lists && h.lists[slot] != [] ==> slot.class_ in used
  }

  lemma AllocUsesOnly(h: Heap, used: set<nat>, thread: nat, layout: Layout, answer: nat)
    requires OnlyUsed(h, used) && FallsIn(used, layout)
    ensures OnlyUsed(AllocStep(h, thread, layout, answer).0, used)
  {
    hide ClassOf, MadeFor;
  }

  lemma FreeUsesOnly(h: Heap, used: set<nat>, thread: nat, b: nat, layout: Layout)
    requires OnlyUsed(h, used) && FallsIn(used, layout)
    ensures OnlyUsed(FreeStep(h, thread, b, layout), used)
  {
    hide ClassOf, PerClass;
  }

  lemma StepUsesOnly(h: Heap, used: set<nat>, op: Op)
    requires OnlyUsed(h, used) && Allowed(h, op) && AsksWithin(used, op)
    ensures OnlyUsed(Step(h, op), used)
  {
    hide ClassOf, PerClass, MadeFor, IsLayout, AllocStep, FreeStep, AnswerFits;
    match op
    case Alloc(thread, layout, answer) => AllocUsesOnly(h, used, thread, layout, answer);
    case Free(thread, b, layout) => FreeUsesOnly(h, used, thread, b, layout);
    case Resize(thread, b, layout, newSize, answer) =>
      var wanted := Layout(newSize, layout.align);
      AllocUsesOnly(h, used, thread, wanted, answer);
      FreeUsesOnly(AllocStep(h, thread, wanted, answer).0, used, thread, b, layout);
    case _ =>
  }

  lemma {:induction false} RunUsesOnly(ops: seq<Op>, used: set<nat>)
    requires RunAllowed(ops) && RunWithin(used, ops)
    ensures OnlyUsed(Run(ops), used)
  {
    hide Step, Allowed, AsksWithin, FallsIn;
    if ops != [] {
      RunUsesOnly(ops[..|ops| - 1], used);
      StepUsesOnly(Run(ops[..|ops| - 1]), used, ops[|ops| - 1]);
    }
  }

  lemma {:induction false} KeptWithin(h: Heap, used: set<nat>, thread: nat, n: nat)
    requires Inv(h) && OnlyUsed(h, used)
    ensures Retained(h, thread, n) <= MostKept(used, n)
  {
    hide PerClass, LayoutOf, FallsIn, RangesApart;
    if n > 0 {
      KeptWithin(h, used, thread, n - 1);
      var slot := Slot(thread, n - 1);
      assert ListStands(h, slot);
      TimesAtMost(|ListOf(h, slot)|, PerClass(n - 1), LayoutOf(n - 1).size);
    }
  }

  lemma TimesAtMost(a: nat, b: nat, size: nat)
    requires a <= b
    ensures a * size <= b * size
  {
  }

  // ----- A run that reaches the caps -----

  /** Where the `i`th block of a class is put. */
  function Address(class_: nat, i: nat): (address: nat)
    ensures address % LARGEST == 0 && address % GRAIN == 0 && address > 0
  {
    LARGEST * (1024 * class_ + i + 1)
  }

  /** Asking for `k` blocks of a class. */
  function Allocs(thread: nat, class_: nat, k: nat): seq<Op> {
    if k == 0 then [] else Allocs(thread, class_, k - 1) + [Alloc(thread, LayoutOf(class_), Address(class_, k - 1))]
  }

  /** Giving `k` of them back. */
  function Frees(thread: nat, class_: nat, k: nat): seq<Op> {
    if k == 0 then [] else Frees(thread, class_, k - 1) + [Free(thread, Address(class_, k - 1), LayoutOf(class_))]
  }

  /** Class after class of `used`, as many blocks as its list keeps are asked for and
      then freed. */
  function Fill(thread: nat, used: set<nat>, n: nat): seq<Op> {
    if n == 0 then []
    else if n - 1 in used then
      Fill(thread, used, n - 1) + Allocs(thread, n - 1, PerClass(n - 1)) + Frees(thread, n - 1, PerClass(n - 1))
    else Fill(thread, used, n - 1)
  }

  predicate IsPooledClass(class_: nat) {
    1 <= class_ < CLASSES
  }

  lemma PooledLayout(class_: nat)
    requires IsPooledClass(class_)
    ensures IsLayout(LayoutOf(class_)) && ClassOf(LayoutOf(class_)) == Some(class_)
    ensures LayoutOf(class_).size <= LARGEST && LayoutOf(class_).align == GRAIN
    ensures MadeFor(LayoutOf(class_)) == LayoutOf(class_)
    ensures PerClass(class_) <= 1024
  {
    assert IsPowerOfTwo(1) && IsPowerOfTwo(2) && IsPowerOfTwo(4) && IsPowerOfTwo(8) && IsPowerOfTwo(16);
    assert (class_ * 16 + 15) / 16 == class_;
  }

  /** The made blocks all lie before a place, each on its own 4096 bytes. */
  predicate LiesBefore(h: Heap, place: nat) {
    forall b :: b in h.made ==> StartsPage(b) && b + LARGEST <= place && h.made[b].size <= LARGEST
  }

  predicate StartsPage(b: nat) {
    b % LARGEST == 0
  }

  lemma RunSnoc(ops: seq<Op>, op: Op)
    ensures Run(ops + [op]) == Step(Run(ops), op)
    ensures RunAllowed(ops + [op]) <==> RunAllowed(ops) && Allowed(Run(ops), op)
  {
    hide Step, Allowed;
    assert (ops + [op])[..|ops|] == ops;
  }

  lemma AllocIsFresh(h: Heap, thread: nat, class_: nat, place: nat)
    requires IsPooledClass(class_) && ListOf(h, Slot(thread, class_)) == []
    requires LiesBefore(h, place) && place > 0 && place % LARGEST == 0 && place + LARGEST <= ADDRESSES
    ensures Allowed(h, Alloc(thread, LayoutOf(class_), place))
    ensures var after := Step(h, Alloc(thread, LayoutOf(class_), place));
            && after == h.(made := h.made[place := LayoutOf(class_)], live := h.live[place := LayoutOf(class_)])
            && LiesBefore(after, place + LARGEST)
  {
    hide LayoutOf, ClassOf, MadeFor, IsLayout;
    PooledLayout(class_);
    assert place % GRAIN == 0;
  }

  lemma FreeIsKept(h: Heap, thread: nat, class_: nat, b: nat)
    requires IsPooledClass(class_) && b in h.live && h.live[b] == LayoutOf(class_)
    requires thread !in h.headsDown && thread !in h.heldDown
    requires |ListOf(h, Slot(thread, class_))| < PerClass(class_)
    ensures Allowed(h, Free(thread, b, LayoutOf(class_)))
    ensures Step(h, Free(thread, b, LayoutOf(class_))) == Pushed(h, Slot(thread, class_), b)
  {
    hide LayoutOf, ClassOf, PerClass;
    PooledLayout(class_);
  }

  ghost predicate Holds(h: Heap, class_: nat, from: nat, to: nat) {
    forall i: nat :: from <= i < to ==> Address(class_, i) in h.live && h.live[Address(class_, i)] == LayoutOf(class_)
  }

  lemma {:induction false} AllocsRun(ops: seq<Op>, thread: nat, class_: nat, k: nat)
    requires RunAllowed(ops) && IsPooledClass(class_) && k <= 1024
    requires ListOf(Run(ops), Slot(thread, class_)) == [] && LiesBefore(Run(ops), Address(class_, 0))
    ensures RunAllowed(ops + Allocs(thread, class_, k))
    ensures var h, after := Run(ops), Run(ops + Allocs(thread, class_, k));
            && after.lists == h.lists && after.headsDown == h.headsDown && after.heldDown == h.heldDown
            && LiesBefore(after, Address(class_, k)) && Holds(after, class_, 0, k)
  {
    hide Run, RunAllowed, Step, Allowed, LayoutOf, LiesBefore;
    if k == 0 {
      assert ops + [] == ops;
    } else {
      AllocsRun(ops, thread, class_, k - 1);
      var before := ops + Allocs(thread, class_, k - 1);
      var op := Alloc(thread, LayoutOf(class_), Address(class_, k - 1));
      assert ops + Allocs(thread, class_, k) == before + [op];
      AllocIsFresh(Run(before), thread, class_, Address(class_, k - 1));
      RunSnoc(before, op);
    }
  }

  lemma PushedLists(h: Heap, slot: Slot, b: nat)
    ensures ListOf(Pushed(h, slot, b), slot) == ListOf(h, slot) + [b]
    ensures forall other :: other != slot ==> ListOf(Pushed(h, slot, b), other) == ListOf(h, other)
    ensures Pushed(h, slot, b).made == h.made && Pushed(h, slot, b).live == h.live - {b}
  {
  }

  lemma {:induction false} FreesRun(ops: seq<Op>, thread: nat, class_: nat, k: nat)
    requires RunAllowed(ops) && IsPooledClass(class_) && k <= PerClass(class_)
    requires ListOf(Run(ops), Slot(thread, class_)) == [] && Holds(Run(ops), class_, 0, PerClass(class_))
    requires thread !in Run(ops).headsDown && thread !in Run(ops).heldDown
    ensures RunAllowed(ops + Frees(thread, class_, k))
    ensures var h, after := Run(ops), Run(ops + Frees(thread, class_, k));
            && after.made == h.made && after.headsDown == h.headsDown && after.heldDown == h.heldDown
            && Holds(after, class_, k, PerClass(class_))
            && |ListOf(after, Slot(thread, class_))| == k
            && forall slot :: slot != Slot(thread, class_) ==> ListOf(after, slot) == ListOf(h, slot)
  {
    hide Run, RunAllowed, Step, Allowed, LayoutOf, PerClass, Pushed, ListOf;
    if k == 0 {
      assert ops + [] == ops;
    } else {
      FreesRun(ops, thread, class_, k - 1);
      var before := ops + Frees(thread, class_, k - 1);
      var op := Free(thread, Address(class_, k - 1), LayoutOf(class_));
      assert ops + Frees(thread, class_, k) == before + [op];
      FreeIsKept(Run(before), thread, class_, Address(class_, k - 1));
      PushedLists(Run(before), Slot(thread, class_), Address(class_, k - 1));
      RunSnoc(before, op);
    }
  }

  /** The lists of the first `n` classes are full where the class is used, all others
      empty, and the blocks lie before those of class `n`. */
  ghost predicate Filled(h: Heap, thread: nat, used: set<nat>, n: nat) {
    && LiesBefore(h, Address(n, 0)) && h.headsDown == {} && h.heldDown == {}
    && forall c: nat :: |ListOf(h, Slot(thread, c))| == if c < n && c in used then PerClass(c) else 0
  }

  lemma LiesBeforeMore(h: Heap, place: nat, later: nat)
    requires LiesBefore(h, place) && place <= later
    ensures LiesBefore(h, later)
  {
  }

  lemma ClassRun(ops: seq<Op>, thread: nat, used: set<nat>, class_: nat)
    requires RunAllowed(ops) && Filled(Run(ops), thread, used, class_) && IsPooledClass(class_) && class_ in used
    ensures var all := ops + Allocs(thread, class_, PerClass(class_)) + Frees(thread, class_, PerClass(class_));
            RunAllowed(all) && Filled(Run(all), thread, used, class_ + 1)
  {
    hide Run, RunAllowed, LayoutOf, PerClass, LiesBefore;
    PooledLayout(class_);
    var k := PerClass(class_);
    AllocsRun(ops, thread, class_, k);
    var before := ops + Allocs(thread, class_, k);
    FreesRun(before, thread, class_, k);
    var after := Run(before + Frees(thread, class_, k));
    SameMadeLies(Run(before), after, Address(class_, k));
    LiesBeforeMore(after, Address(class_, k), Address(class_ + 1, 0));
  }

  lemma SameMadeLies(h: Heap, after: Heap, place: nat)
    requires LiesBefore(h, place) && after.made == h.made
    ensures LiesBefore(after, place)
  {
  }

  lemma AddressesGrow(class_: nat)
    ensures Address(class_, 0) <= Address(class_ + 1, 0)
  {
  }

  lemma EmptyLists()
    ensures forall slot :: ListOf(EMPTY, slot) == []
  {
  }

  lemma EmptyLies(place: nat)
    ensures LiesBefore(EMPTY, place)
  {
  }

  lemma {:induction false} FillRun(thread: nat, used: set<nat>, n: nat)
    requires (forall c :: c in used ==> IsPooledClass(c)) && n <= CLASSES
    ensures RunAllowed(Fill(thread, used, n)) && Filled(Run(Fill(thread, used, n)), thread, used, n)
  {
    hide PerClass, LiesBefore, IsPooledClass, Address, ListOf;
    if n == 0 {
      EmptyLies(Address(0, 0));
      EmptyLists();
    } else {
      FillRun(thread, used, n - 1);
      if n - 1 in used {
        ClassRun(Fill(thread, used, n - 1), thread, used, n - 1);
      } else {
        AddressesGrow(n - 1);
        LiesBeforeMore(Run(Fill(thread, used, n - 1)), Address(n - 1, 0), Address(n, 0));
      }
    }
  }

  lemma {:induction false} FilledKeepsMost(h: Heap, thread: nat, used: set<nat>, n: nat, k: nat)
    requires Filled(h, thread, used, n) && k <= n
    ensures Retained(h, thread, k) == MostKept(used, k)
  {
    hide PerClass, LayoutOf, LiesBefore, ListOf;
    if k > 0 {
      FilledKeepsMost(h, thread, used, n, k - 1);
    }
  }

  lemma {:induction false} OpsWithin(thread: nat, used: set<nat>, class_: nat, k: nat)
    requires IsPooledClass(class_) && class_ in used
    ensures RunWithin(used, Allocs(thread, class_, k)) && RunWithin(used, Frees(thread, class_, k))
  {
    hide LayoutOf, ClassOf;
    PooledLayout(class_);
    if k > 0 {
      OpsWithin(thread, used, class_, k - 1);
    }
  }

  lemma {:induction false} FillWithin(thread: nat, used: set<nat>, n: nat)
    requires forall c :: c in used ==> IsPooledClass(c)
    ensures RunWithin(used, Fill(thread, used, n))
  {
    hide AsksWithin, PerClass;
    if n > 0 {
      FillWithin(thread, used, n - 1);
      if n - 1 in used {
        OpsWithin(thread, used, n - 1, PerClass(n - 1));
      }
    }
  }

  /** Every run that asks only for layouts of these classes leaves a thread keeping at
      most `limit` bytes exactly when the caps of the classes come to no more. */
  lemma RetentionStaysWithinExactly(used: set<nat>, thread: nat, limit: nat)
    requires forall c :: c in used ==> IsPooledClass(c)
    ensures (forall ops :: RunAllowed(ops) && RunWithin(used, ops) ==> Retained(Run(ops), thread, CLASSES) <= limit)
            <==> MostKept(used, CLASSES) <= limit
  {
    hide *;
    forall ops | RunAllowed(ops) && RunWithin(used, ops)
      ensures Retained(Run(ops), thread, CLASSES) <= MostKept(used, CLASSES)
    {
      InvariantInEveryRun(ops);
      RunUsesOnly(ops, used);
      KeptWithin(Run(ops), used, thread, CLASSES);
    }
    var full := Fill(thread, used, CLASSES);
    FillRun(thread, used, CLASSES);
    FillWithin(thread, used, CLASSES);
    FilledKeepsMost(Run(full), thread, used, CLASSES, CLASSES);
  }

  // ----- The four mebibytes -----

  function EveryClass(): set<nat> {
    set c: nat | c < CLASSES && IsPooledClass(c)
  }

  lemma {:induction false} MostKeptIsLarge(n: nat)
    requires 4 <= n <= CLASSES
    ensures MostKept(EveryClass(), n) >= (n - 4) * 61440
  {
    hide PerClass, LayoutOf;
    if n > 4 {
      MostKeptIsLarge(n - 1);
      ClassKeepsMost(n - 1);
    }
  }

  lemma ClassKeepsMost(class_: nat)
    requires 4 <= class_ < CLASSES
    ensures PerClass(class_) * LayoutOf(class_).size > 61440
  {
    var size := LayoutOf(class_).size;
    assert 64 <= size <= LARGEST;
    var q := PER_CLASS_BYTES / size;
    assert (q + 1) * size > PER_CLASS_BYTES;
    QuotientIsTheMost(PER_CLASS_BYTES, size, 16);
    QuotientIsTheMost(PER_CLASS_BYTES, size, 1025);
    assert 1025 * size > PER_CLASS_BYTES;
    assert PerClass(class_) == q;
  }

  /** A run after which one thread keeps more than three times the 4 MiB the comment
      beside the caps speaks of: the byte cap is 64 KiB a class and not 16. */
  lemma MoreThanFourMebibytesAreKept(thread: nat)
    ensures var ops := Fill(thread, EveryClass(), CLASSES);
            RunAllowed(ops) && Retained(Run(ops), thread, CLASSES) > 3 * FOUR_MEBIBYTES
  {
    hide Fill, Run, RunAllowed, Retained, MostKept, Filled;
    FillRun(thread, EveryClass(), CLASSES);
    FilledKeepsMost(Run(Fill(thread, EveryClass(), CLASSES)), thread, EveryClass(), CLASSES, CLASSES);
    MostKeptIsLarge(CLASSES);
  }

  lemma {:induction false} FewClassesKeep(used: set<nat>, n: nat)
    requires n <= CLASSES
    ensures MostKept(used, n) <= |set c | c in used && c < n| * PER_CLASS_BYTES
  {
    hide PerClass, LayoutOf;
    if n > 0 {
      FewClassesKeep(used, n - 1);
      var fewer := set c | c in used && c < n - 1;
      CapIsTheMost(n - 1, PerClass(n - 1));
      if n - 1 in used {
        assert (set c | c in used && c < n) == fewer + {n - 1};
      } else {
        assert (set c | c in used && c < n) == fewer;
      }
    }
  }

  /** A program that stays in 64 classes meets the comment on every thread. */
  lemma SixtyFourClassesFit(ops: seq<Op>, used: set<nat>, thread: nat)
    requires RunAllowed(ops) && RunWithin(used, ops) && |used| <= 64
    ensures Retained(Run(ops), thread, CLASSES) <= FOUR_MEBIBYTES
  {
    hide *;
    InvariantInEveryRun(ops);
    RunUsesOnly(ops, used);
    KeptWithin(Run(ops), used, thread, CLASSES);
    FewClassesKeep(used, CLASSES);
    FewerThan(used, set c | c in used && c < CLASSES);
  }

  lemma FewerThan(used: set<nat>, some: set<nat>)
    requires some <= used && |used| <= 64
    ensures |some| * PER_CLASS_BYTES <= FOUR_MEBIBYTES
  {
    assert used == some + (used - some);
  }

  // ----- Threads whose lists nobody can reach -----

  ghost predicate SameLists(h: Heap, after: Heap, thread: nat) {
    && (thread in after.headsDown <==> thread in h.headsDown)
    && forall c: nat :: ListOf(after, Slot(thread, c)) == ListOf(h, Slot(thread, c))
  }

  lemma AllocLeavesStranded(h: Heap, taking: nat, layout: Layout, answer: nat, thread: nat)
    requires thread in h.headsDown
    ensures SameLists(h, AllocStep(h, taking, layout, answer).0, thread)
  {
    hide ClassOf, MadeFor;
  }

  lemma FreeLeavesStranded(h: Heap, freeing: nat, b: nat, layout: Layout, thread: nat)
    requires thread in h.headsDown
    ensures SameLists(h, FreeStep(h, freeing, b, layout), thread)
  {
    hide ClassOf, PerClass;
  }

  lemma StepLeavesStranded(h: Heap, op: Op, thread: nat)
    requires thread in h.headsDown
    ensures thread in Step(h, op).headsDown
    ensures forall c: nat :: ListOf(Step(h, op), Slot(thread, c)) == ListOf(h, Slot(thread, c))
  {
    hide ClassOf, PerClass, MadeFor, IsLayout, AllocStep, FreeStep;
    match op
    case Alloc(taking, layout, answer) => AllocLeavesStranded(h, taking, layout, answer, thread);
    case Free(freeing, b, layout) => FreeLeavesStranded(h, freeing, b, layout, thread);
    case Resize(asking, b, layout, newSize, answer) =>
      var wanted := Layout(newSize, layout.align);
      AllocLeavesStranded(h, asking, wanted, answer, thread);
      FreeLeavesStranded(AllocStep(h, asking, wanted, answer).0, asking, b, layout, thread);
    case _ =>
  }

  /** Once a thread's heads are gone its lists never change again: in any later run
      their blocks stay on them, made and not handed out. */
  lemma {:induction false} StrandedForGood(ops: seq<Op>, later: seq<Op>, slot: Slot)
    requires RunAllowed(ops + later) && slot.thread in Run(ops).headsDown
    ensures slot.thread in Run(ops + later).headsDown
    ensures ListOf(Run(ops + later), slot) == ListOf(Run(ops), slot)
    ensures forall b :: b in ListOf(Run(ops), slot) ==>
                          b in Run(ops + later).made && Run(ops + later).made[b] == LayoutOf(slot.class_) &&
                          b !in Run(ops + later).live
  {
    hide Step, Allowed, LayoutOf, ListOf, Inv;
    if later == [] {
      assert ops + later == ops;
    } else {
      var before := ops + later[..|later| - 1];
      assert (ops + later)[..|ops + later| - 1] == before;
      StrandedForGood(ops, later[..|later| - 1], slot);
      StepLeavesStranded(Run(before), later[|later| - 1], slot.thread);
    }
    InvariantInEveryRun(ops + later);
    forall b | b in ListOf(Run(ops), slot)
      ensures b in Run(ops + later).made && Run(ops + later).made[b] == LayoutOf(slot.class_)
      ensures b !in Run(ops + later).live
    {
      ListedIsMade(Run(ops + later), slot, b);
    }
  }

  lemma ListedIsMade(h: Heap, slot: Slot, b: nat)
    requires Inv(h) && b in ListOf(h, slot)
    ensures b in h.at && b in h.made && h.made[b] == LayoutOf(slot.class_) && b !in h.live
  {
    hide PerClass, LayoutOf, RangesApart, LiveIsMade;
    assert ListStands(h, slot);
    assert FreeIsMade(h, b);
  }

  // ----- What the system is owed -----

  /** The bytes of some of the blocks made. */
  ghost function Bytes(made: map<nat, Layout>, blocks: set<nat>): nat
    requires blocks <= made.Keys
  {
    if blocks == {} then 0
    else
      var b :| b in blocks;
      made[b].size + Bytes(made, blocks - {b})
  }

  lemma {:induction false} BytesWithout(made: map<nat, Layout>, blocks: set<nat>, b: nat)
    requires b in blocks && blocks <= made.Keys
    ensures Bytes(made, blocks) == made[b].size + Bytes(made, blocks - {b})
    decreases blocks
  {
    var c :| c in blocks && Bytes(made, blocks) == made[c].size + Bytes(made, blocks - {c});
    if c != b {
      BytesWithout(made, blocks - {c}, b);
      BytesWithout(made, blocks - {b}, c);
      assert blocks - {c} - {b} == blocks - {b} - {c};
    }
  }

  lemma {:induction false} BytesOfUnion(made: map<nat, Layout>, some: set<nat>, others: set<nat>)
    requires some + others <= made.Keys && some !! others
    ensures Bytes(made, some + others) == Bytes(made, some) + Bytes(made, others)
    decreases some
  {
    if some == {} {
      assert some + others == others;
    } else {
      var b :| b in some;
      BytesWithout(made, some, b);
      BytesWithout(made, some + others, b);
      assert some + others - {b} == (some - {b}) + others;
      BytesOfUnion(made, some - {b}, others);
    }
  }

  lemma {:induction false} BytesOfOneSize(made: map<nat, Layout>, blocks: set<nat>, size: nat)
    requires blocks <= made.Keys && forall b :: b in blocks ==> made[b].size == size
    ensures Bytes(made, blocks) == |blocks| * size
    decreases blocks
  {
    if blocks != {} {
      var b :| b in blocks;
      BytesWithout(made, blocks, b);
      BytesOfOneSize(made, blocks - {b}, size);
    }
  }

  /** The listed blocks of one list; of a thread's first `n` classes; and of the first
      `n` threads. */
  ghost function OfList(h: Heap, slot: Slot): set<nat> {
    set b | b in h.at && h.at[b].slot == slot
  }

  ghost function OfThread(h: Heap, thread: nat, n: nat): set<nat> {
    set b | b in h.at && h.at[b].slot.thread == thread && h.at[b].slot.class_ < n
  }

  ghost function OfThreads(h: Heap, n: nat): set<nat> {
    set b | b in h.at && h.at[b].slot.thread < n
  }

  function Items(list: seq<nat>): set<nat> {
    set b | b in list
  }

  lemma {:induction false} FewItems(list: seq<nat>)
    ensures |Items(list)| <= |list|
  {
    if list != [] {
      var last := |list| - 1;
      FewItems(list[..last]);
      assert Items(list) == Items(list[..last]) + {list[last]};
    }
  }

  lemma SomeAreFewer(some: set<nat>, all: set<nat>)
    requires some <= all
    ensures |some| <= |all|
  {
    assert all == some + (all - some);
  }

  lemma ListIsBounded(h: Heap, slot: Slot)
    requires Inv(h) && slot.class_ < CLASSES
    ensures OfList(h, slot) <= h.made.Keys
    ensures Bytes(h.made, OfList(h, slot)) <= PER_CLASS_BYTES
    ensures slot.class_ == 0 ==> OfList(h, slot) == {}
  {
    hide PerClass, LayoutOf, RangesApart, LiveIsMade, ListOf;
    var blocks := OfList(h, slot);
    forall b | b in blocks
      ensures b in h.made && h.made[b].size == LayoutOf(slot.class_).size && b in ListOf(h, slot) && slot.class_ > 0
    {
      assert FreeIsMade(h, b) && Stands(h, b);
    }
    BytesOfOneSize(h.made, blocks, LayoutOf(slot.class_).size);
    FewItems(ListOf(h, slot));
    SomeAreFewer(blocks, Items(ListOf(h, slot)));
    RetentionIsBounded(h, slot);
    TimesAtMost(|blocks|, |ListOf(h, slot)|, LayoutOf(slot.class_).size);
  }

  lemma {:induction false} ThreadIsBounded(h: Heap, thread: nat, n: nat)
    requires Inv(h) && 1 <= n <= CLASSES
    ensures OfThread(h, thread, n) <= h.made.Keys
    ensures Bytes(h.made, OfThread(h, thread, n)) <= (n - 1) * PER_CLASS_BYTES
  {
    hide Inv, Bytes;
    var slot := Slot(thread, n - 1);
    ListIsBounded(h, slot);
    if n == 1 {
      assert OfThread(h, thread, 1) == OfList(h, slot);
      BytesOfOneSize(h.made, {}, 0);
    } else {
      ThreadIsBounded(h, thread, n - 1);
      assert OfThread(h, thread, n) == OfThread(h, thread, n - 1) + OfList(h, slot);
      BytesOfUnion(h.made, OfThread(h, thread, n - 1), OfList(h, slot));
    }
  }

  lemma {:induction false} ThreadsAreBounded(h: Heap, n: nat)
    requires Inv(h)
    ensures OfThreads(h, n) <= h.made.Keys
    ensures Bytes(h.made, OfThreads(h, n)) <= n * ((CLASSES - 1) * PER_CLASS_BYTES)
  {
    hide Inv, Bytes;
    if n == 0 {
      assert OfThreads(h, 0) == {};
      BytesOfOneSize(h.made, {}, 0);
    } else {
      ThreadsAreBounded(h, n - 1);
      ThreadIsBounded(h, n - 1, CLASSES);
      ListedHaveClasses(h);
      assert OfThreads(h, n) == OfThreads(h, n - 1) + OfThread(h, n - 1, CLASSES);
      BytesOfUnion(h.made, OfThreads(h, n - 1), OfThread(h, n - 1, CLASSES));
    }
  }

  lemma ListedHaveClasses(h: Heap)
    requires Inv(h)
    ensures forall b :: b in h.at ==> h.at[b].slot.class_ < CLASSES
  {
    hide PerClass, LayoutOf, RangesApart, LiveIsMade, ListStands, Stands;
    forall b | b in h.at ensures h.at[b].slot.class_ < CLASSES {
      assert FreeIsMade(h, b);
    }
  }

  predicate ByThreads(ops: seq<Op>, n: nat) {
    forall i :: 0 <= i < |ops| ==> ops[i].thread < n
  }

  lemma {:induction false} ListsAreTheThreads(ops: seq<Op>, n: nat)
    requires ByThreads(ops, n)
    ensures forall b :: b in Run(ops).at ==> Run(ops).at[b].slot.thread < n
  {
    hide ClassOf, PerClass, MadeFor, IsLayout, Newest, ListOf;
    if ops != [] {
      ListsAreTheThreads(ops[..|ops| - 1], n);
    }
  }

  /** After every run of `n` threads, whether or not their storage is gone, the process
      holds what the program holds and at most sixteen mebibytes a thread besides. */
  lemma FootprintIsBounded(ops: seq<Op>, n: nat)
    requires RunAllowed(ops) && ByThreads(ops, n)
    ensures var h := Run(ops);
            && h.live.Keys <= h.made.Keys
            && Bytes(h.made, h.live.Keys) <= Bytes(h.made, h.made.Keys)
            && Bytes(h.made, h.made.Keys) <= Bytes(h.made, h.live.Keys) + n * ((CLASSES - 1) * PER_CLASS_BYTES)
  {
    hide Inv, Run, RunAllowed, Bytes;
    var h := Run(ops);
    InvariantInEveryRun(ops);
    ListsAreTheThreads(ops, n);
    ThreadsAreBounded(h, n);
    MadeIsListedOrLive(h);
    assert OfThreads(h, n) == h.at.Keys;
    BytesOfUnion(h.made, h.live.Keys, h.at.Keys);
  }

  // ----- Threads that come and go -----

  function Page(n: nat): nat {
    LARGEST * n
  }

  lemma PageStarts(n: nat)
    ensures StartsPage(Page(n)) && Page(n + 1) == Page(n) + LARGEST && (n > 0 ==> Page(n) > 0)
  {
  }

  /** `n` threads, one after another, each asking for a block of the largest class,
      freeing it, and ending. */
  function ComeAndGo(n: nat): seq<Op> {
    if n == 0 then [] else ComeAndGo(n - 1) + OneThread(n - 1)
  }

  function OneThread(thread: nat): seq<Op> {
    var place := Page(thread + 1);
    [Alloc(thread, LayoutOf(CLASSES - 1), place)] + [Free(thread, place, LayoutOf(CLASSES - 1))] + [HeadsGone(thread)]
  }

  /** Nothing is the program's, and every block is on the list of a thread that is gone. */
  predicate AllStranded(h: Heap) {
    h.live == map[] && forall b :: b in h.made ==> b in h.at && h.at[b].slot.thread in h.headsDown
  }

  predicate AllLargest(h: Heap, n: nat) {
    |h.made.Keys| == n && forall b :: b in h.made ==> h.made[b].size == LARGEST
  }

  /** Threads from `n` on have not been heard of. */
  ghost predicate NoneBeyond(h: Heap, n: nat) {
    && (forall thread: nat :: thread in h.headsDown ==> thread < n)
    && forall thread: nat, c: nat :: thread >= n ==> ListOf(h, Slot(thread, c)) == []
  }

  /** What is so after `n` such threads. */
  ghost predicate Gone(h: Heap, n: nat) {
    AllStranded(h) && h.heldDown == {} && LiesBefore(h, Page(n + 1)) && AllLargest(h, n) && NoneBeyond(h, n)
  }

  /** The heap after one more such thread. */
  function WithOneMore(h: Heap, thread: nat, place: nat): Heap {
    var layout := LayoutOf(CLASSES - 1);
    var taken := h.(made := h.made[place := layout], live := h.live[place := layout]);
    var freed := Pushed(taken, Slot(thread, CLASSES - 1), place);
    freed.(headsDown := freed.headsDown + {thread})
  }

  lemma OneThreadRun(ops: seq<Op>, n: nat)
    requires RunAllowed(ops) && Gone(Run(ops), n) && Page(n + 2) <= ADDRESSES
    ensures RunAllowed(ops + OneThread(n))
    ensures Run(ops + OneThread(n)) == WithOneMore(Run(ops), n, Page(n + 1))
  {
    hide Run, RunAllowed, Allowed, LayoutOf, PerClass, LiesBefore, Pushed, Step, Page;
    PageStarts(n + 1);
    var place, class_ := Page(n + 1), CLASSES - 1;
    var alloc, free := Alloc(n, LayoutOf(class_), place), Free(n, place, LayoutOf(class_));
    AllocIsFresh(Run(ops), n, class_, place);
    RunSnoc(ops, alloc);
    SomeAreKept(class_);
    FreeIsKept(Run(ops + [alloc]), n, class_, place);
    RunSnoc(ops + [alloc], free);
    RunSnoc(ops + [alloc] + [free], HeadsGone(n));
    GoneIsAllowed(Run(ops + [alloc] + [free]), n);
    assert ops + OneThread(n) == ops + [alloc] + [free] + [HeadsGone(n)];
  }

  lemma WithOneMoreIs(h: Heap, thread: nat, place: nat)
    ensures var after, slot := WithOneMore(h, thread, place), Slot(thread, CLASSES - 1);
            && after.made == h.made[place := LayoutOf(CLASSES - 1)] && LayoutOf(CLASSES - 1).size == LARGEST
            && after.live == h.live - {place} && after.at == h.at[place := Place(slot, |ListOf(h, slot)|)]
            && after.headsDown == h.headsDown + {thread} && after.heldDown == h.heldDown
            && forall t: nat, c: nat :: t != thread ==> ListOf(after, Slot(t, c)) == ListOf(h, Slot(t, c))
  {
    assert h.live[place := LayoutOf(CLASSES - 1)] - {place} == h.live - {place};
  }

  lemma OneMoreLies(h: Heap, after: Heap, layout: Layout, place: nat)
    requires LiesBefore(h, place) && layout.size == LARGEST && StartsPage(place)
    requires after.made == h.made[place := layout]
    ensures place !in h.made && LiesBefore(after, place + LARGEST)
  {
    hide StartsPage;
  }

  lemma OneMoreStranded(h: Heap, after: Heap, place: nat, at: Place)
    requires AllStranded(h) && after.live == h.live - {place} && after.made.Keys == h.made.Keys + {place}
    requires after.at == h.at[place := at] && after.headsDown == h.headsDown + {at.slot.thread}
    ensures AllStranded(after)
  {
    assert after.live == map[];
  }

  lemma OneMoreOfLargest(h: Heap, after: Heap, layout: Layout, place: nat, n: nat)
    requires AllLargest(h, n) && layout.size == LARGEST && place !in h.made
    requires after.made == h.made[place := layout]
    ensures after.made.Keys == h.made.Keys + {place} && AllLargest(after, n + 1)
  {
    assert after.made.Keys == h.made.Keys + {place};
  }

  lemma NoneBeyondNext(h: Heap, after: Heap, n: nat)
    requires NoneBeyond(h, n) && after.headsDown == h.headsDown + {n}
    requires forall t: nat, c: nat :: t != n ==> ListOf(after, Slot(t, c)) == ListOf(h, Slot(t, c))
    ensures NoneBeyond(after, n + 1)
  {
    hide ListOf;
  }

  lemma OneMoreGone(h: Heap, n: nat)
    requires Gone(h, n)
    ensures Gone(WithOneMore(h, n, Page(n + 1)), n + 1)
  {
    hide WithOneMore, LiesBefore, LayoutOf, ListOf, StartsPage, AllStranded, Page, AllLargest, NoneBeyond;
    var place, slot := Page(n + 1), Slot(n, CLASSES - 1);
    var after := WithOneMore(h, n, place);
    WithOneMoreIs(h, n, place);
    PageStarts(n + 1);
    OneMoreLies(h, after, LayoutOf(CLASSES - 1), place);
    OneMoreOfLargest(h, after, LayoutOf(CLASSES - 1), place, n);
    NoneBeyondNext(h, after, n);
    OneMoreStranded(h, after, place, Place(slot, |ListOf(h, slot)|));
  }

  lemma GoneIsAllowed(h: Heap, thread: nat)
    ensures Allowed(h, HeadsGone(thread))
    ensures Step(h, HeadsGone(thread)) == h.(headsDown := h.headsDown + {thread})
  {
  }

  lemma SomeAreKept(class_: nat)
    ensures PerClass(class_) > 0
  {
  }

  lemma NobodyGone()
    ensures Gone(EMPTY, 0) && RunAllowed([]) && Run([]) == EMPTY
  {
    assert EMPTY.made.Keys == {};
  }

  lemma {:induction false} ComeAndGoRun(n: nat)
    requires Page(n + 1) <= ADDRESSES
    ensures RunAllowed(ComeAndGo(n)) && Gone(Run(ComeAndGo(n)), n)
  {
    hide OneThread, WithOneMore, Gone, Page, Run, RunAllowed;
    if n == 0 {
      NobodyGone();
    } else {
      PageStarts(n);
      ComeAndGoRun(n - 1);
      OneThreadRun(ComeAndGo(n - 1), n - 1);
      OneMoreGone(Run(ComeAndGo(n - 1)), n - 1);
    }
  }

  /** Over runs in which threads come and go nothing but the address space bounds what is
      stranded: past any number of bytes there is a run after which the program holds
      nothing and more than that is owed, all of it on lists nobody can reach. */
  lemma StrandingHasNoBound(limit: nat)
    requires limit + 2 * LARGEST <= ADDRESSES
    ensures exists ops ::
              RunAllowed(ops) && AllStranded(Run(ops)) && Bytes(Run(ops).made, Run(ops).made.Keys) > limit
  {
    hide ComeAndGo, Run, RunAllowed, Bytes;
    var n := limit / LARGEST + 1;
    ComeAndGoRun(n);
    var h := Run(ComeAndGo(n));
    BytesOfOneSize(h.made, h.made.Keys, LARGEST);
    assert RunAllowed(ComeAndGo(n)) && AllStranded(Run(ComeAndGo(n)));
  }
}
