/** A size-classed free list over the system allocator: one intrusive list per
    thread and size class, capped in bytes and in blocks. */
module Allocator {
  import opened Bits
  import opened LittleEndian
  import opened Numbers
  import opened Wrappers

  // ----- Layouts and size classes -----

  const LARGEST: nat := 4096
  const GRAIN: nat := 16
  const CLASSES: nat := LARGEST / GRAIN + 1
  const PER_CLASS_BYTES: nat := 65536
  const PER_CLASS_BLOCKS: nat := 1024
  const POINTER_BYTES: nat := 8
  const MAX_SIZE: nat := 0x7fff_ffff_ffff_ffff
  const ADDRESSES: nat := 0x1_0000_0000_0000_0000
  const NULL: nat := 0

  datatype Layout = Layout(size: nat, align: nat)

  predicate IsPowerOfTwo(n: nat) {
    n == 1 || (n > 1 && n % 2 == 0 && IsPowerOfTwo(n / 2))
  }

  /** The layouts there are: the alignment a power of two, and the size rounded up
      to it no larger than half the address space. */
  predicate IsLayout(layout: Layout) {
    IsPowerOfTwo(layout.align) && layout.size + (layout.align - 1) <= MAX_SIZE
  }

  /** The size class an allocation falls in, if any. */
  function ClassOf(layout: Layout): Option<nat> {
    if layout.size > LARGEST || layout.align > GRAIN || layout.size < POINTER_BYTES then None
    else Some((layout.size + GRAIN - 1) / GRAIN)
  }

  /** The layout a class's blocks are made with. */
  function LayoutOf(class_: nat): Layout {
    Layout(Max(class_ * GRAIN, GRAIN), GRAIN)
  }

  /** The layout a request's block is made with. */
  function MadeFor(layout: Layout): Layout {
    match ClassOf(layout)
    case None => layout
    case Some(c) => LayoutOf(c)
  }

  /** How many blocks of a class a thread keeps. */
  function PerClass(class_: nat): nat {
    Max(Min(PER_CLASS_BYTES / LayoutOf(class_).size, PER_CLASS_BLOCKS), 1)
  }

  lemma PowersToGrain(n: nat)
    requires IsPowerOfTwo(n) && n <= GRAIN
    ensures n == 1 || n == 2 || n == 4 || n == 8 || n == 16
  {
    if n > 1 {
      var half := n / 2;
      assert IsPowerOfTwo(half);
      if half > 1 {
        var quarter := half / 2;
        assert IsPowerOfTwo(quarter);
        if quarter > 1 {
          assert IsPowerOfTwo(quarter / 2);
        }
      }
    }
  }

  lemma DividesGrain(align: nat, address: nat)
    requires IsPowerOfTwo(align) && align <= GRAIN && address % GRAIN == 0
    ensures address % align == 0
  {
    hide IsPowerOfTwo;
    PowersToGrain(align);
    if align == 1 {
      assert address % 1 == 0;
    } else if align == 2 {
      assert address % 2 == 0;
    } else if align == 4 {
      assert address % 4 == 0;
    } else if align == 8 {
      assert address % 8 == 0;
    }
  }

  /** A class's block is at least as large and as aligned as any request in it, and
      can hold the link of a free list. */
  lemma BlockCoversRequest(layout: Layout, address: nat)
    requires IsLayout(layout)
    requires address % MadeFor(layout).align == 0
    ensures MadeFor(layout).size >= layout.size && address % layout.align == 0
    ensures ClassOf(layout).Some? ==> 1 <= ClassOf(layout).value < CLASSES && MadeFor(layout).size >= POINTER_BYTES
    ensures ClassOf(layout).Some? ==> MadeFor(layout).size < layout.size + GRAIN
  {
    if ClassOf(layout).Some? {
      DividesGrain(layout.align, address);
    }
  }

  /** The table of caps: the lower of the two, and at least one. */
  method BuildCaps() returns (caps: array<nat>)
    ensures fresh(caps) && caps.Length == CLASSES
    ensures forall c :: 0 <= c < CLASSES ==> caps[c] == PerClass(c)
  {
    caps := new nat[CLASSES](_ => 1);
    var class_ := 0;
    while class_ < CLASSES
      invariant 0 <= class_ <= CLASSES
      invariant forall c :: 0 <= c < class_ ==> caps[c] == PerClass(c)
    {
      var size := if class_ * GRAIN > GRAIN then class_ * GRAIN else GRAIN;
      var cap := PER_CLASS_BYTES / size;
      if cap > PER_CLASS_BLOCKS {
        cap := PER_CLASS_BLOCKS;
      }
      if cap < 1 {
        cap := 1;
      }
      caps[class_] := cap;
      class_ := class_ + 1;
    }
  }

  /** A cap is the most blocks that stay within both bounds. */
  lemma CapIsTheMost(class_: nat, n: nat)
    requires class_ < CLASSES
    ensures n <= PerClass(class_) <==> n <= PER_CLASS_BLOCKS && n * LayoutOf(class_).size <= PER_CLASS_BYTES
    ensures PerClass(class_) >= 16
  {
    var size := LayoutOf(class_).size;
    assert 16 <= size <= LARGEST;
    QuotientIsTheMost(PER_CLASS_BYTES, size, n);
    QuotientIsTheMost(PER_CLASS_BYTES, size, 16);
  }

  lemma QuotientIsTheMost(total: nat, size: nat, n: nat)
    requires size > 0
    ensures n <= total / size <==> n * size <= total
  {
    var q := total / size;
    assert q * size <= total < (q + 1) * size;
    if n <= q {
      assert n * size <= q * size;
    } else {
      assert n * size >= (q + 1) * size;
    }
  }

  // ----- The heap as a value -----

  /** One thread's list of one class. */
  datatype Slot = Slot(thread: nat, class_: nat)

  /** A block's place on a list, counted from the oldest. */
  datatype Place = Place(slot: Slot, depth: nat)

  /** What the system allocator has handed out and not got back, under the layout it
      was made with; what the program holds, under the layout it asked for; the free
      lists, newest block last; where each listed block stands; and the threads whose
      storage is gone. */
  datatype Heap = Heap(
    made: map<nat, Layout>, live: map<nat, Layout>, lists: map<Slot, seq<nat>>, at: map<nat, Place>,
    headsDown: set<nat>, heldDown: set<nat>)

  const EMPTY := Heap(map[], map[], map[], map[], {}, {})

  function ListOf(h: Heap, slot: Slot): seq<nat> {
    if slot in h.lists then h.lists[slot] else []
  }

  predicate LiveIsMade(h: Heap, b: nat)
    requires b in h.live
  {
    && 0 < b < ADDRESSES && IsLayout(h.live[b])
    && b in h.made && h.made[b] == MadeFor(h.live[b]) && b % h.made[b].align == 0
  }

  predicate FreeIsMade(h: Heap, b: nat)
    requires b in h.at
  {
    && 0 < b < ADDRESSES && 1 <= h.at[b].slot.class_ < CLASSES
    && b in h.made && h.made[b] == LayoutOf(h.at[b].slot.class_) && b % GRAIN == 0
  }

  predicate Stands(h: Heap, b: nat)
    requires b in h.at
  {
    var list := ListOf(h, h.at[b].slot);
    h.at[b].depth < |list| && list[h.at[b].depth] == b
  }

  ghost predicate ListStands(h: Heap, slot: Slot) {
    var list := ListOf(h, slot);
    && |list| <= PerClass(slot.class_)
    && forall i: nat :: i < |list| ==> list[i] in h.at && h.at[list[i]] == Place(slot, i)
  }

  /** The bytes from `b` on and those from `c` on do not meet. */
  predicate Apart(b: nat, size: nat, c: nat, other: nat) {
    b + size <= c || c + other <= b
  }

  /** Every block is inside the address space, and no two of them share a byte. */
  ghost predicate RangesApart(made: map<nat, Layout>) {
    && (forall b :: b in made ==> b + made[b].size <= ADDRESSES)
    && forall b, c :: b in made && c in made && b != c ==> Apart(b, made[b].size, c, made[c].size)
  }

  ghost predicate Inv(h: Heap) {
    && RangesApart(h.made)
    && h.made.Keys == h.live.Keys + h.at.Keys
    && h.live.Keys !! h.at.Keys
    && (forall b :: b in h.live ==> LiveIsMade(h, b))
    && (forall b :: b in h.at ==> FreeIsMade(h, b) && Stands(h, b))
    && (forall slot :: ListStands(h, slot))
  }

  // ----- What the operations do to it -----

  /** The system allocator's answer to a request: null, or an aligned block whose
      bytes are apart from those of every block it has handed out and not got back. */
  predicate SystemMayAnswer(h: Heap, layout: Layout, answer: nat)
    requires layout.align > 0
  {
    answer == NULL ||
    (&& answer < ADDRESSES && answer + layout.size <= ADDRESSES
     && answer !in h.made && answer % layout.align == 0
     && forall b :: b in h.made ==> Apart(answer, layout.size, b, h.made[b].size))
  }

  predicate SystemIsAsked(h: Heap, thread: nat, layout: Layout) {
    match ClassOf(layout)
    case None => true
    case Some(c) => thread in h.headsDown || ListOf(h, Slot(thread, c)) == []
  }

  /** What the system may answer when an allocation asks it. */
  predicate AnswerFits(h: Heap, thread: nat, layout: Layout, answer: nat)
    requires IsLayout(layout)
  {
    SystemIsAsked(h, thread, layout) ==> MadeFor(layout).align > 0 && SystemMayAnswer(h, MadeFor(layout), answer)
  }

  function FromSystem(h: Heap, layout: Layout, answer: nat): (Heap, nat) {
    if answer == NULL then (h, NULL)
    else (h.(made := h.made[answer := MadeFor(layout)], live := h.live[answer := layout]), answer)
  }

  /** The block at the head of a list. */
  function Newest(h: Heap, slot: Slot): nat
    requires ListOf(h, slot) != []
  {
    var list := ListOf(h, slot);
    list[|list| - 1]
  }

  /** Taking the newest block off a list. */
  function Popped(h: Heap, slot: Slot, layout: Layout): (after: Heap)
    requires ListOf(h, slot) != []
    ensures after.headsDown == h.headsDown && after.heldDown == h.heldDown
  {
    var list := ListOf(h, slot);
    var b := Newest(h, slot);
    h.(lists := h.lists[slot := list[..|list| - 1]], at := h.at - {b}, live := h.live[b := layout])
  }

  function AllocStep(h: Heap, thread: nat, layout: Layout, answer: nat): (Heap, nat) {
    if SystemIsAsked(h, thread, layout) then FromSystem(h, layout, answer)
    else
      var slot := Slot(thread, ClassOf(layout).value);
      (Popped(h, slot, layout), Newest(h, slot))
  }

  predicate IsKept(h: Heap, thread: nat, layout: Layout) {
    match ClassOf(layout)
    case None => false
    case Some(c) => thread !in h.heldDown && thread !in h.headsDown && |ListOf(h, Slot(thread, c))| < PerClass(c)
  }

  function Pushed(h: Heap, slot: Slot, b: nat): (after: Heap)
    ensures after.headsDown == h.headsDown && after.heldDown == h.heldDown
  {
    var list := ListOf(h, slot);
    h.(live := h.live - {b}, lists := h.lists[slot := list + [b]], at := h.at[b := Place(slot, |list|)])
  }

  function Returned(h: Heap, b: nat): (after: Heap)
    ensures after.headsDown == h.headsDown && after.heldDown == h.heldDown && after.lists == h.lists
  {
    h.(live := h.live - {b}, made := h.made - {b})
  }

  function FreeStep(h: Heap, thread: nat, b: nat, layout: Layout): Heap {
    if IsKept(h, thread, layout) then Pushed(h, Slot(thread, ClassOf(layout).value), b)
    else Returned(h, b)
  }

  /** Whether a resize stays inside one class. */
  predicate SameClass(layout: Layout, newSize: nat) {
    var wanted := Layout(newSize, layout.align);
    IsLayout(wanted) && ClassOf(layout).Some? && ClassOf(wanted) == ClassOf(layout)
  }

  function ReallocStep(h: Heap, thread: nat, b: nat, layout: Layout, newSize: nat, answer: nat): (Heap, nat) {
    var wanted := Layout(newSize, layout.align);
    if SameClass(layout, newSize) then (h.(live := h.live[b := wanted]), b)
    else if !IsLayout(wanted) then (h, NULL)
    else
      var taken := AllocStep(h, thread, wanted, answer);
      if taken.1 == NULL then taken else (FreeStep(taken.0, thread, b, layout), taken.1)
  }

  lemma PopKeepsList(h: Heap, slot: Slot, layout: Layout, s: Slot)
    requires Inv(h) && ListOf(h, slot) != []
    ensures ListStands(Popped(h, slot, layout), s)
  {
    hide LayoutOf, PerClass, LiveIsMade, FreeIsMade, Stands, RangesApart;
    assert ListStands(h, slot) && ListStands(h, s);
  }

  lemma PopKeepsFree(h: Heap, slot: Slot, layout: Layout, f: nat)
    requires Inv(h) && ListOf(h, slot) != [] && f in Popped(h, slot, layout).at
    ensures FreeIsMade(Popped(h, slot, layout), f) && Stands(Popped(h, slot, layout), f)
  {
    hide LayoutOf, PerClass, LiveIsMade, ListStands, RangesApart;
    assert FreeIsMade(h, f) && Stands(h, f);
  }

  lemma PopKeepsLive(h: Heap, slot: Slot, layout: Layout)
    requires Inv(h) && ListOf(h, slot) != []
    requires IsLayout(layout) && ClassOf(layout) == Some(slot.class_)
    ensures var after := Popped(h, slot, layout);
            && after.made == h.made
            && after.made.Keys == after.live.Keys + after.at.Keys && after.live.Keys !! after.at.Keys
            && forall b :: b in after.live ==> LiveIsMade(after, b)
  {
    hide IsLayout, ClassOf, PerClass, RangesApart;
    assert ListStands(h, slot);
    var list := ListOf(h, slot);
    assert FreeIsMade(h, list[|list| - 1]);
    var after := Popped(h, slot, layout);
    forall l | l in after.live ensures LiveIsMade(after, l) {
      assert l == list[|list| - 1] || LiveIsMade(h, l);
    }
  }

  lemma PopKeeps(h: Heap, slot: Slot, layout: Layout)
    requires Inv(h) && ListOf(h, slot) != []
    requires IsLayout(layout) && ClassOf(layout) == Some(slot.class_)
    ensures Inv(Popped(h, slot, layout))
  {
    hide ListStands, LiveIsMade, FreeIsMade, Stands, Popped, RangesApart;
    assert RangesApart(h.made);
    forall s ensures ListStands(Popped(h, slot, layout), s) {
      PopKeepsList(h, slot, layout, s);
    }
    forall f | f in Popped(h, slot, layout).at
      ensures FreeIsMade(Popped(h, slot, layout), f) && Stands(Popped(h, slot, layout), f)
    {
      PopKeepsFree(h, slot, layout, f);
    }
    PopKeepsLive(h, slot, layout);
  }

  lemma RangesStayApart(made: map<nat, Layout>, answer: nat, layout: Layout)
    requires RangesApart(made) && answer + layout.size <= ADDRESSES && answer !in made
    requires forall b :: b in made ==> Apart(answer, layout.size, b, made[b].size)
    ensures RangesApart(made[answer := layout])
  {
    hide Apart;
    ApartBothWays(answer, layout.size, made);
  }

  lemma ApartBothWays(b: nat, size: nat, made: map<nat, Layout>)
    requires forall c :: c in made ==> Apart(b, size, c, made[c].size)
    ensures forall c :: c in made ==> Apart(c, made[c].size, b, size)
  {
    forall c | c in made ensures Apart(c, made[c].size, b, size) {
      assert Apart(b, size, c, made[c].size);
    }
  }

  lemma RangesOfFewer(made: map<nat, Layout>, b: nat)
    requires RangesApart(made)
    ensures RangesApart(made - {b})
  {
    hide Apart;
  }

  lemma FromSystemKeeps(h: Heap, layout: Layout, answer: nat)
    requires Inv(h) && IsLayout(layout)
    requires MadeFor(layout).align > 0 && SystemMayAnswer(h, MadeFor(layout), answer)
    ensures Inv(FromSystem(h, layout, answer).0)
  {
    hide IsLayout, PerClass, MadeFor, LayoutOf, RangesApart;
    if answer == NULL {
      return;
    }
    var after := FromSystem(h, layout, answer).0;
    RangesStayApart(h.made, answer, MadeFor(layout));
    forall s ensures ListStands(after, s) {
      assert ListStands(h, s);
    }
    forall f | f in after.at ensures FreeIsMade(after, f) && Stands(after, f) {
      assert FreeIsMade(h, f) && Stands(h, f);
    }
    forall l | l in after.live ensures LiveIsMade(after, l) {
      assert l == answer || LiveIsMade(h, l);
    }
  }

  lemma LayoutsAlign(layout: Layout)
    requires IsLayout(layout)
    ensures MadeFor(layout).align > 0
    ensures ClassOf(layout).Some? ==> MadeFor(layout).align == GRAIN && 1 <= ClassOf(layout).value < CLASSES
  {
  }

  /** Whatever an allocation does, every block stays in exactly one place. */
  lemma AllocKeeps(h: Heap, thread: nat, layout: Layout, answer: nat)
    requires Inv(h) && IsLayout(layout) && AnswerFits(h, thread, layout, answer)
    ensures Inv(AllocStep(h, thread, layout, answer).0)
  {
    hide Inv, Popped, FromSystem, IsLayout, ClassOf, MadeFor;
    if SystemIsAsked(h, thread, layout) {
      FromSystemKeeps(h, layout, answer);
    } else {
      PopKeeps(h, Slot(thread, ClassOf(layout).value), layout);
    }
  }

  // ----- Freeing keeps the invariant -----

  lemma PushKeepsList(h: Heap, slot: Slot, b: nat, s: Slot)
    requires Inv(h) && b in h.live && |ListOf(h, slot)| < PerClass(slot.class_)
    ensures ListStands(Pushed(h, slot, b), s)
  {
    hide LayoutOf, PerClass, LiveIsMade, FreeIsMade, Stands, RangesApart;
    assert ListStands(h, slot) && ListStands(h, s);
  }

  lemma PushKeepsFree(h: Heap, slot: Slot, b: nat, f: nat)
    requires Inv(h) && b in h.live && ClassOf(h.live[b]) == Some(slot.class_) && f in Pushed(h, slot, b).at
    ensures FreeIsMade(Pushed(h, slot, b), f) && Stands(Pushed(h, slot, b), f)
  {
    hide PerClass, ListStands, ClassOf, IsLayout, RangesApart;
    if f == b {
      assert LiveIsMade(h, b);
      LayoutsAlign(h.live[b]);
    } else {
      assert FreeIsMade(h, f) && Stands(h, f);
    }
  }

  lemma PushKeeps(h: Heap, slot: Slot, b: nat)
    requires Inv(h) && b in h.live && ClassOf(h.live[b]) == Some(slot.class_)
    requires |ListOf(h, slot)| < PerClass(slot.class_)
    ensures Inv(Pushed(h, slot, b))
  {
    hide PerClass, ClassOf, ListStands, FreeIsMade, Stands, RangesApart;
    var after := Pushed(h, slot, b);
    forall s ensures ListStands(after, s) {
      PushKeepsList(h, slot, b, s);
    }
    forall f | f in after.at ensures FreeIsMade(after, f) && Stands(after, f) {
      PushKeepsFree(h, slot, b, f);
    }
    forall l | l in after.live ensures LiveIsMade(after, l) {
      assert LiveIsMade(h, l);
    }
  }

  lemma ReturnKeeps(h: Heap, b: nat)
    requires Inv(h) && b in h.live
    ensures Inv(Returned(h, b))
  {
    hide IsLayout, PerClass, MadeFor, LayoutOf, RangesApart;
    var after := Returned(h, b);
    RangesOfFewer(h.made, b);
    forall s ensures ListStands(after, s) {
      assert ListStands(h, s);
    }
    forall f | f in after.at ensures FreeIsMade(after, f) && Stands(after, f) {
      assert FreeIsMade(h, f) && Stands(h, f);
    }
    forall l | l in after.live ensures LiveIsMade(after, l) {
      assert LiveIsMade(h, l);
    }
  }

  lemma FreeKeeps(h: Heap, thread: nat, b: nat, layout: Layout)
    requires Inv(h) && b in h.live && h.live[b] == layout
    ensures Inv(FreeStep(h, thread, b, layout))
  {
    hide Inv, Pushed, Returned, ClassOf, PerClass;
    if IsKept(h, thread, layout) {
      PushKeeps(h, Slot(thread, ClassOf(layout).value), b);
    } else {
      ReturnKeeps(h, b);
    }
  }

  lemma ResizeInPlaceKeeps(h: Heap, b: nat, newSize: nat)
    requires Inv(h) && b in h.live && SameClass(h.live[b], newSize)
    ensures Inv(h.(live := h.live[b := Layout(newSize, h.live[b].align)]))
  {
    hide IsLayout, PerClass, ClassOf, LayoutOf, RangesApart;
    var after := h.(live := h.live[b := Layout(newSize, h.live[b].align)]);
    forall s ensures ListStands(after, s) {
      assert ListStands(h, s);
    }
    forall f | f in after.at ensures FreeIsMade(after, f) && Stands(after, f) {
      assert FreeIsMade(h, f) && Stands(h, f);
    }
    assert LiveIsMade(h, b);
    forall l | l in after.live ensures LiveIsMade(after, l) {
      assert LiveIsMade(h, l);
    }
  }

  lemma AllocLeavesTheRest(h: Heap, thread: nat, layout: Layout, answer: nat)
    requires Inv(h) && IsLayout(layout) && AnswerFits(h, thread, layout, answer)
    ensures var (after, b) := AllocStep(h, thread, layout, answer);
            && (b == NULL ==> after == h)
            && (b != NULL ==> b !in h.live && after.live == h.live[b := layout])
  {
    hide IsLayout, ClassOf, PerClass, MadeFor, RangesApart;
    if !SystemIsAsked(h, thread, layout) {
      var slot := Slot(thread, ClassOf(layout).value);
      assert ListStands(h, slot);
      var b := Newest(h, slot);
      assert b in h.at && FreeIsMade(h, b);
    }
  }

  lemma ReallocKeeps(h: Heap, thread: nat, b: nat, layout: Layout, newSize: nat, answer: nat)
    requires Inv(h) && b in h.live && h.live[b] == layout
    requires IsLayout(Layout(newSize, layout.align)) ==> AnswerFits(h, thread, Layout(newSize, layout.align), answer)
    ensures Inv(ReallocStep(h, thread, b, layout, newSize, answer).0)
  {
    hide Inv, IsLayout, SameClass, AllocStep, FreeStep, AnswerFits;
    var wanted := Layout(newSize, layout.align);
    if SameClass(layout, newSize) {
      ResizeInPlaceKeeps(h, b, newSize);
    } else if IsLayout(wanted) {
      AllocKeeps(h, thread, wanted, answer);
      AllocLeavesTheRest(h, thread, wanted, answer);
      var taken := AllocStep(h, thread, wanted, answer);
      if taken.1 != NULL {
        FreeKeeps(taken.0, thread, b, layout);
      }
    }
  }

  // ----- Whole runs -----

  /** One call on one thread, or one thread's storage going away. */
  datatype Op =
    | Alloc(thread: nat, layout: Layout, answer: nat)
    | Free(thread: nat, b: nat, layout: Layout)
    | Resize(thread: nat, b: nat, layout: Layout, newSize: nat, answer: nat)
    | HeadsGone(thread: nat)
    | HeldGone(thread: nat)

  /** What the caller and the system allocator promise. */
  predicate Allowed(h: Heap, op: Op) {
    match op
    case Alloc(thread, layout, answer) => IsLayout(layout) && AnswerFits(h, thread, layout, answer)
    case Free(thread, b, layout) => b in h.live && h.live[b] == layout
    case Resize(thread, b, layout, newSize, answer) =>
      var wanted := Layout(newSize, layout.align);
      b in h.live && h.live[b] == layout && (IsLayout(wanted) ==> AnswerFits(h, thread, wanted, answer))
    case _ => true
  }

  function Step(h: Heap, op: Op): Heap {
    match op
    case Alloc(thread, layout, answer) => AllocStep(h, thread, layout, answer).0
    case Free(thread, b, layout) => FreeStep(h, thread, b, layout)
    case Resize(thread, b, layout, newSize, answer) => ReallocStep(h, thread, b, layout, newSize, answer).0
    case HeadsGone(thread) => h.(headsDown := h.headsDown + {thread})
    case HeldGone(thread) => h.(heldDown := h.heldDown + {thread})
  }

  function Run(ops: seq<Op>): Heap {
    if ops == [] then EMPTY else Step(Run(ops[..|ops| - 1]), ops[|ops| - 1])
  }

  predicate RunAllowed(ops: seq<Op>) {
    ops != [] ==> RunAllowed(ops[..|ops| - 1]) && Allowed(Run(ops[..|ops| - 1]), ops[|ops| - 1])
  }

  lemma StepKeeps(h: Heap, op: Op)
    requires Inv(h) && Allowed(h, op)
    ensures Inv(Step(h, op))
  {
    hide IsLayout, AllocStep, FreeStep, ReallocStep, AnswerFits, PerClass, LayoutOf, MadeFor, RangesApart;
    match op
    case Alloc(thread, layout, answer) => AllocKeeps(h, thread, layout, answer);
    case Free(thread, b, layout) => FreeKeeps(h, thread, b, layout);
    case Resize(thread, b, layout, newSize, answer) => ReallocKeeps(h, thread, b, layout, newSize, answer);
    case _ => StorageGoneKeeps(h, Step(h, op).headsDown, Step(h, op).heldDown);
  }

  lemma StorageGoneKeeps(h: Heap, heads: set<nat>, held: set<nat>)
    requires Inv(h)
    ensures Inv(h.(headsDown := heads, heldDown := held))
  {
    hide IsLayout, PerClass, LayoutOf, MadeFor, RangesApart;
    var after := h.(headsDown := heads, heldDown := held);
    forall s ensures ListStands(after, s) {
      assert ListStands(h, s);
    }
    forall f | f in after.at ensures FreeIsMade(after, f) && Stands(after, f) {
      assert FreeIsMade(h, f) && Stands(h, f);
    }
    forall l | l in after.live ensures LiveIsMade(after, l) {
      assert LiveIsMade(h, l);
    }
  }

  /** The invariant holds after any run of calls on any threads. */
  lemma {:induction false} InvariantInEveryRun(ops: seq<Op>)
    requires RunAllowed(ops)
    ensures Inv(Run(ops))
  {
    hide Inv, Step, Allowed;
    if ops == [] {
      EmptyIsFine();
    } else {
      InvariantInEveryRun(ops[..|ops| - 1]);
      StepKeeps(Run(ops[..|ops| - 1]), ops[|ops| - 1]);
    }
  }

  lemma EmptyIsFine()
    ensures Inv(EMPTY)
  {
  }

  // ----- What the invariant says -----

  ghost predicate Listed(h: Heap, b: nat) {
    exists slot, i: nat :: i < |ListOf(h, slot)| && ListOf(h, slot)[i] == b
  }

  /** Every block the system allocator is owed is either the program's or on a free
      list, and not both; and no block stands twice on any lists. */
  lemma EveryBlockIsInOnePlace(h: Heap)
    requires Inv(h)
    ensures forall b :: b in h.made ==> (b in h.live <==> !Listed(h, b))
    ensures forall b :: Listed(h, b) ==> b in h.made
    ensures forall b :: b in h.live ==> b in h.made
    ensures forall slot, other, i: nat, j: nat ::
              i < |ListOf(h, slot)| && j < |ListOf(h, other)| && ListOf(h, slot)[i] == ListOf(h, other)[j]
              ==> slot == other && i == j
  {
    hide PerClass, LiveIsMade, FreeIsMade, ListOf, ListStands, RangesApart;
    forall b | b in h.at ensures Listed(h, b) {
      assert Stands(h, b);
    }
    forall b | Listed(h, b) ensures b in h.at {
      var slot, i: nat :| i < |ListOf(h, slot)| && ListOf(h, slot)[i] == b;
      PlaceOf(h, slot, i);
    }
    forall slot, other, i: nat, j: nat |
      i < |ListOf(h, slot)| && j < |ListOf(h, other)| && ListOf(h, slot)[i] == ListOf(h, other)[j]
      ensures slot == other && i == j
    {
      PlaceOf(h, slot, i);
      PlaceOf(h, other, j);
    }
  }

  lemma PlaceOf(h: Heap, slot: Slot, i: nat)
    requires Inv(h) && i < |ListOf(h, slot)|
    ensures ListOf(h, slot)[i] in h.at && h.at[ListOf(h, slot)[i]] == Place(slot, i)
    ensures ListOf(h, slot)[i] != NULL
  {
    assert ListStands(h, slot);
    assert FreeIsMade(h, ListOf(h, slot)[i]);
  }

  /** One thread never keeps more than 64 KiB of one class, nor more than 1024
      blocks of it. */
  lemma RetentionIsBounded(h: Heap, slot: Slot)
    requires Inv(h) && slot.class_ < CLASSES
    ensures |ListOf(h, slot)| * LayoutOf(slot.class_).size <= PER_CLASS_BYTES
    ensures |ListOf(h, slot)| <= PER_CLASS_BLOCKS
    ensures forall i :: 0 <= i < |ListOf(h, slot)| ==>
              ListOf(h, slot)[i] in h.made && h.made[ListOf(h, slot)[i]] == LayoutOf(slot.class_)
  {
    assert ListStands(h, slot);
    hide PerClass, LayoutOf, RangesApart;
    CapIsTheMost(slot.class_, |ListOf(h, slot)|);
    forall i | 0 <= i < |ListOf(h, slot)|
      ensures ListOf(h, slot)[i] in h.made && h.made[ListOf(h, slot)[i]] == LayoutOf(slot.class_)
    {
      assert FreeIsMade(h, ListOf(h, slot)[i]);
    }
  }

  // ----- Single calls -----

  /** A block handed out was not the program's already, and is large enough and
      aligned enough for the request. */
  lemma AllocHandsOutFreshMemory(h: Heap, thread: nat, layout: Layout, answer: nat)
    requires Inv(h) && IsLayout(layout) && AnswerFits(h, thread, layout, answer)
    ensures var (after, b) := AllocStep(h, thread, layout, answer);
            && (b == NULL ==> after == h && SystemIsAsked(h, thread, layout) && answer == NULL)
            && (b != NULL ==>
                  && b !in h.live && after.live == h.live[b := layout]
                  && b in after.made && after.made[b].size >= layout.size && b % layout.align == 0
                  && forall c :: c in h.live ==> Apart(b, layout.size, c, h.live[c].size))
  {
    hide Inv, AllocStep, IsLayout, MadeFor, ClassOf, AnswerFits, Apart;
    AllocKeeps(h, thread, layout, answer);
    AllocLeavesTheRest(h, thread, layout, answer);
    var (after, b) := AllocStep(h, thread, layout, answer);
    if b == NULL {
      OnlyTheSystemFails(h, thread, layout, answer);
    } else {
      LiveBlockFits(after, b);
      forall c | c in h.live ensures Apart(b, layout.size, c, h.live[c].size) {
        LiveBlocksAreApart(after, b, c);
      }
    }
  }

  /** No byte is in two of the blocks the program holds, nor in one of them and in a
      block on a free list. */
  lemma LiveBlocksAreApart(h: Heap, b: nat, c: nat)
    requires Inv(h) && b in h.live && b != c
    ensures c in h.live ==> Apart(b, h.live[b].size, c, h.live[c].size)
    ensures c in h.at ==> c in h.made && Apart(b, h.live[b].size, c, h.made[c].size)
    ensures b + h.live[b].size <= ADDRESSES
  {
    hide IsLayout, MadeFor, ListStands, FreeIsMade, Stands, LiveIsMade;
    LiveBlockFits(h, b);
    if c in h.live {
      LiveBlockFits(h, c);
    }
  }

  lemma LiveBlockFits(h: Heap, b: nat)
    requires Inv(h) && b in h.live
    ensures IsLayout(h.live[b]) && b in h.made && NULL < b < ADDRESSES
    ensures h.made[b] == MadeFor(h.live[b]) && h.made[b].size >= h.live[b].size && b % h.live[b].align == 0
  {
    hide IsLayout, MadeFor, ListStands, FreeIsMade, Stands, RangesApart;
    assert LiveIsMade(h, b);
    BlockCoversRequest(h.live[b], b);
  }

  lemma OnlyTheSystemFails(h: Heap, thread: nat, layout: Layout, answer: nat)
    requires Inv(h) && AllocStep(h, thread, layout, answer).1 == NULL
    ensures SystemIsAsked(h, thread, layout) && answer == NULL
  {
    hide ClassOf, MadeFor, PerClass, Inv;
    if !SystemIsAsked(h, thread, layout) {
      var slot := Slot(thread, ClassOf(layout).value);
      PlaceOf(h, slot, |ListOf(h, slot)| - 1);
    }
  }

  /** A block that is freed and kept is the next one its class hands out, and the
      lists are as they were. */
  lemma FreedIsHandedBack(h: Heap, thread: nat, b: nat, layout: Layout, next: Layout, answer: nat)
    requires Inv(h) && b in h.live && h.live[b] == layout && IsKept(h, thread, layout)
    requires ClassOf(next) == ClassOf(layout)
    ensures var (after, again) := AllocStep(FreeStep(h, thread, b, layout), thread, next, answer);
            && again == b && after.live == h.live[b := next] && after.made == h.made
            && forall slot :: ListOf(after, slot) == ListOf(h, slot)
  {
    hide ClassOf, PerClass, Inv;
    PushThenPop(h, Slot(thread, ClassOf(layout).value), b, next);
  }

  lemma PushThenPop(h: Heap, slot: Slot, b: nat, next: Layout)
    requires b in h.live
    ensures ListOf(Pushed(h, slot, b), slot) == ListOf(h, slot) + [b] && Newest(Pushed(h, slot, b), slot) == b
    ensures var after := Popped(Pushed(h, slot, b), slot, next);
            && after.live == h.live[b := next] && after.made == h.made
            && forall s :: ListOf(after, s) == ListOf(h, s)
  {
    var pushed := Pushed(h, slot, b);
    assert ListOf(pushed, slot) == ListOf(h, slot) + [b];
    assert ListOf(pushed, slot)[..|ListOf(h, slot)|] == ListOf(h, slot);
  }

  // ----- The allocator over memory -----

  /** The head of a list: its newest block, or null. */
  function Top(list: seq<nat>): nat {
    if list == [] then NULL else list[|list| - 1]
  }

  /** The block under one that stands at `depth`, or null. */
  function Below(list: seq<nat>, depth: nat): nat
    requires depth < |list|
  {
    if depth == 0 then NULL else list[depth - 1]
  }

  function HeadOf(heads: map<Slot, nat>, slot: Slot): nat {
    if slot in heads then heads[slot] else NULL
  }

  function HeldOf(held: map<Slot, nat>, slot: Slot): nat {
    if slot in held then held[slot] else 0
  }

  /** The pointer a free block holds in its first eight bytes. */
  function Link(bytes: seq<Byte>): nat
    requires |bytes| >= POINTER_BYTES
  {
    Decode(bytes[..POINTER_BYTES])
  }

  function WithLink(bytes: seq<Byte>, pointer: nat): (r: seq<Byte>)
    requires |bytes| >= POINTER_BYTES
    ensures |r| == |bytes|
  {
    Encode(pointer, POINTER_BYTES) + bytes[POINTER_BYTES..]
  }

  function WithByte(bytes: seq<Byte>, at: nat, value: Byte): seq<Byte>
    requires at < |bytes|
  {
    bytes[at := value]
  }

  lemma LinkComesBack(bytes: seq<Byte>, pointer: nat)
    requires |bytes| >= POINTER_BYTES && pointer < ADDRESSES
    ensures Link(WithLink(bytes, pointer)) == pointer
    ensures WithLink(bytes, pointer)[POINTER_BYTES..] == bytes[POINTER_BYTES..]
  {
    Spans();
    DecodeOfEncode(pointer, POINTER_BYTES);
    hide Encode, Decode, Span, RangesApart;
    assert WithLink(bytes, pointer)[..POINTER_BYTES] == Encode(pointer, POINTER_BYTES);
  }

  predicate LinkIsRight(h: Heap, memory: map<nat, seq<Byte>>, b: nat)
    requires b in h.at
  {
    && b in memory && |memory[b]| >= POINTER_BYTES
    && h.at[b].depth < |ListOf(h, h.at[b].slot)|
    && Link(memory[b]) == Below(ListOf(h, h.at[b].slot), h.at[b].depth)
  }

  /** Every block's bytes are there, and every free block's link is the block under
      it. */
  ghost predicate MemoryHolds(h: Heap, memory: map<nat, seq<Byte>>) {
    && memory.Keys == h.made.Keys
    && (forall b :: b in h.made ==> |memory[b]| == h.made[b].size)
    && (forall b :: b in h.at ==> LinkIsRight(h, memory, b))
  }

  /** A list's head and, while its thread's counts are there, its count. */
  predicate SlotHolds(h: Heap, heads: map<Slot, nat>, held: map<Slot, nat>, slot: Slot) {
    && HeadOf(heads, slot) == Top(ListOf(h, slot))
    && (slot.thread !in h.heldDown ==> HeldOf(held, slot) == |ListOf(h, slot)|)
  }

  ghost predicate ListsHold(h: Heap, heads: map<Slot, nat>, held: map<Slot, nat>) {
    forall slot :: SlotHolds(h, heads, held, slot)
  }

  lemma FromSystemHolds(h: Heap, memory: map<nat, seq<Byte>>, layout: Layout, answer: nat, bytes: seq<Byte>)
    requires MemoryHolds(h, memory) && h.made.Keys == h.live.Keys + h.at.Keys
    requires answer != NULL && answer !in h.made && |bytes| == MadeFor(layout).size
    ensures MemoryHolds(FromSystem(h, layout, answer).0, memory[answer := bytes])
  {
    hide Link, MadeFor, RangesApart;
    var after := FromSystem(h, layout, answer).0;
    forall b | b in after.at ensures LinkIsRight(after, memory[answer := bytes], b) {
      assert LinkIsRight(h, memory, b);
    }
  }

  lemma PoppedHolds(h: Heap, memory: map<nat, seq<Byte>>, slot: Slot, layout: Layout)
    requires Inv(h) && MemoryHolds(h, memory) && ListOf(h, slot) != []
    ensures MemoryHolds(Popped(h, slot, layout), memory)
  {
    hide Link, PerClass, LayoutOf, LiveIsMade, FreeIsMade, RangesApart;
    var after := Popped(h, slot, layout);
    forall b | b in after.at ensures LinkIsRight(after, memory, b) {
      assert LinkIsRight(h, memory, b) && Stands(h, b);
    }
  }

  /** The link in the block at a list's head is the head the list is left with. */
  lemma NextHead(h: Heap, memory: map<nat, seq<Byte>>, slot: Slot)
    requires Inv(h) && MemoryHolds(h, memory) && ListOf(h, slot) != []
    ensures Newest(h, slot) in memory && |memory[Newest(h, slot)]| >= POINTER_BYTES
    ensures Newest(h, slot) != NULL
    ensures Link(memory[Newest(h, slot)]) == Top(ListOf(h, slot)[..|ListOf(h, slot)| - 1])
  {
    hide Link, Inv;
    PlaceOf(h, slot, |ListOf(h, slot)| - 1);
    assert LinkIsRight(h, memory, Newest(h, slot));
  }

  lemma PooledCanLink(h: Heap, b: nat)
    requires Inv(h) && b in h.live && ClassOf(h.live[b]).Some?
    ensures b in h.made && h.made[b].size >= POINTER_BYTES
  {
    hide IsLayout, ListStands, FreeIsMade, Stands, RangesApart;
    assert LiveIsMade(h, b);
    BlockCoversRequest(h.live[b], b);
  }

  lemma PushedHolds(h: Heap, memory: map<nat, seq<Byte>>, slot: Slot, b: nat)
    requires Inv(h) && MemoryHolds(h, memory)
    requires b in h.live && ClassOf(h.live[b]) == Some(slot.class_)
    ensures b in memory && |memory[b]| >= POINTER_BYTES && Top(ListOf(h, slot)) < ADDRESSES
    ensures MemoryHolds(Pushed(h, slot, b), memory[b := WithLink(memory[b], Top(ListOf(h, slot)))])
  {
    hide Link, WithLink, PerClass, LayoutOf, ClassOf, IsLayout, MadeFor, LinkIsRight, Inv;
    PooledCanLink(h, b);
    TopIsAnAddress(h, slot);
    LinkComesBack(memory[b], Top(ListOf(h, slot)));
    var after := Pushed(h, slot, b);
    var written := memory[b := WithLink(memory[b], Top(ListOf(h, slot)))];
    forall f | f in after.at ensures LinkIsRight(after, written, f) {
      PushedLink(h, memory, slot, b, written[b], f);
    }
  }

  lemma PushedLink(h: Heap, memory: map<nat, seq<Byte>>, slot: Slot, b: nat, bytes: seq<Byte>, f: nat)
    requires f == b || (f in h.at && LinkIsRight(h, memory, f))
    requires |bytes| >= POINTER_BYTES && Link(bytes) == Top(ListOf(h, slot))
    ensures LinkIsRight(Pushed(h, slot, b), memory[b := bytes], f)
  {
    hide Link, RangesApart;
    var after := Pushed(h, slot, b);
    assert ListOf(after, slot) == ListOf(h, slot) + [b];
    assert f != b && h.at[f].slot != slot ==> ListOf(after, h.at[f].slot) == ListOf(h, h.at[f].slot);
  }

  lemma TopIsAnAddress(h: Heap, slot: Slot)
    requires Inv(h)
    ensures Top(ListOf(h, slot)) < ADDRESSES
  {
    if ListOf(h, slot) != [] {
      PlaceOf(h, slot, |ListOf(h, slot)| - 1);
      assert FreeIsMade(h, Newest(h, slot));
    }
  }

  lemma ReturnedHolds(h: Heap, memory: map<nat, seq<Byte>>, b: nat)
    requires Inv(h) && MemoryHolds(h, memory) && b in h.live
    ensures MemoryHolds(Returned(h, b), memory - {b})
  {
    hide Link, PerClass, LayoutOf, LiveIsMade, FreeIsMade, ListStands, Stands, RangesApart;
    var after := Returned(h, b);
    forall f | f in after.at ensures LinkIsRight(after, memory - {b}, f) {
      assert LinkIsRight(h, memory, f);
    }
  }

  /** A live block's bytes are the program's to change. */
  lemma StoredHolds(h: Heap, memory: map<nat, seq<Byte>>, b: nat, bytes: seq<Byte>)
    requires Inv(h) && MemoryHolds(h, memory) && b in h.live
    requires |bytes| == h.made[b].size
    ensures MemoryHolds(h, memory[b := bytes])
  {
    hide Link, PerClass, LayoutOf, LiveIsMade, FreeIsMade, ListStands, Stands, RangesApart;
    forall f | f in h.at ensures LinkIsRight(h, memory[b := bytes], f) {
      assert LinkIsRight(h, memory, f);
    }
  }

  class Pooled {
    const caps: array<nat>
    var memory: map<nat, seq<Byte>>
    var heads: map<Slot, nat>
    var held: map<Slot, nat>
    var headsDown: set<nat>
    var heldDown: set<nat>
    ghost var heap: Heap

    constructor ()
      ensures Valid() && heap == EMPTY
    {
      var table := BuildCaps();
      caps := table;
      memory := map[];
      heads := map[];
      held := map[];
      headsDown := {};
      heldDown := {};
      heap := EMPTY;
      EmptyIsFine();
    }

    ghost predicate Valid()
      reads this, caps
    {
      && CapsAreRight(caps)
      && Inv(heap) && MemoryHolds(heap, memory) && ListsHold(heap, heads, held)
      && heap.headsDown == headsDown && heap.heldDown == heldDown
    }

    /** The system allocator's answer, with whatever bytes the block has in it. */
    method SystemAlloc(layout: Layout, answer: nat, garbage: seq<Byte>) returns (block: nat)
      requires |garbage| == layout.size
      modifies `memory
      ensures block == answer
      ensures memory == if answer == NULL then old(memory) else old(memory)[answer := garbage]
    {
      if answer != NULL {
        memory := memory[answer := garbage];
      }
      block := answer;
    }

    /** Gives a block back, under the layout it was made with. */
    method SystemDealloc(pointer: nat, layout: Layout)
      requires pointer in heap.made && heap.made[pointer] == layout
      modifies `memory
      ensures memory == old(memory) - {pointer}
    {
      memory := memory - {pointer};
    }

    method Alloc(thread: nat, layout: Layout, answer: nat, garbage: seq<Byte>) returns (block: nat)
      requires Valid() && IsLayout(layout) && AnswerFits(heap, thread, layout, answer)
      requires |garbage| == MadeFor(layout).size
      modifies this
      ensures Valid() && (heap, block) == AllocStep(old(heap), thread, layout, answer)
      ensures forall b :: b in old(memory) ==> b in memory && memory[b] == old(memory)[b]
    {
      hide Inv, MemoryHolds, IsLayout, PerClass, Link, ListsHold, Popped;
      AllocKeeps(heap, thread, layout, answer);
      var taken := NULL;
      if ClassOf(layout).Some? && thread !in headsDown {
        taken := TakeHead(thread, layout);
      }
      if taken != NULL {
        return taken;
      }
      MadeIsListedOrLive(heap);
      MemoryIsMade(heap, memory);
      if answer != NULL {
        FromSystemHolds(heap, memory, layout, answer, garbage);
      }
      SameListsHold(heap, FromSystem(heap, layout, answer).0, heads, held);
      block := SystemAlloc(MadeFor(layout), answer, garbage);
      heap := FromSystem(heap, layout, answer).0;
    }

    /** Takes the block at the head of a class's list, if there is one. */
    method TakeHead(thread: nat, layout: Layout) returns (taken: nat)
      requires Valid() && IsLayout(layout) && ClassOf(layout).Some? && thread !in headsDown
      modifies `heads, `held, `heap
      ensures Valid()
      ensures var slot := Slot(thread, ClassOf(layout).value);
              if ListOf(old(heap), slot) == [] then taken == NULL && heap == old(heap)
              else taken == Newest(old(heap), slot) && taken != NULL && heap == Popped(old(heap), slot, layout)
    {
      hide Inv, MemoryHolds, IsLayout, PerClass, Link, ClassOf, ListsHold, Popped;
      var slot := Slot(thread, ClassOf(layout).value);
      HeadIsTop(heap, heads, held, slot);
      var head := HeadOf(heads, slot);
      if head == NULL {
        HeadIsNull(heap, memory, slot);
        return NULL;
      }
      PopKeeps(heap, slot, layout);
      NextHead(heap, memory, slot);
      PoppedHolds(heap, memory, slot, layout);
      ghost var before := held;
      var next := Link(memory[head]);
      heads := heads[slot := next];
      if thread !in heldDown {
        var count := HeldOf(held, slot);
        held := held[slot := if count == 0 then 0 else count - 1];
      }
      PoppedListsHold(heap, old(heads), before, slot, layout, next, held);
      heap := Popped(heap, slot, layout);
      taken := head;
    }

    method Dealloc(thread: nat, pointer: nat, layout: Layout)
      requires Valid() && pointer in heap.live && heap.live[pointer] == layout
      modifies this
      ensures Valid() && heap == FreeStep(old(heap), thread, pointer, layout)
      ensures forall b :: b in old(memory) && b != pointer ==> b in memory && memory[b] == old(memory)[b]
    {
      hide Inv, MemoryHolds, ListsHold, IsLayout, PerClass, Link, WithLink, Pushed, Returned;
      FreeKeeps(heap, thread, pointer, layout);
      LiveBlockFits(heap, pointer);
      var kept := false;
      if ClassOf(layout).Some? && thread !in heldDown {
        kept := KeepBlock(thread, pointer, layout);
      }
      if kept {
        return;
      }
      ReturnedHolds(heap, memory, pointer);
      SameListsHold(heap, Returned(heap, pointer), heads, held);
      SystemDealloc(pointer, MadeFor(layout));
      heap := Returned(heap, pointer);
    }

    /** Puts a block on its class's list, unless the class is full. */
    method KeepBlock(thread: nat, pointer: nat, layout: Layout) returns (kept: bool)
      requires Valid() && pointer in heap.live && heap.live[pointer] == layout
      requires ClassOf(layout).Some? && thread !in heldDown
      modifies this
      ensures Valid() && kept == IsKept(old(heap), thread, layout)
      ensures heap == if kept then Pushed(old(heap), Slot(thread, ClassOf(layout).value), pointer) else old(heap)
      ensures memory.Keys == old(memory.Keys)
      ensures forall b :: b in old(memory) && (b != pointer || !kept) ==> memory[b] == old(memory)[b]
    {
      hide Inv, MemoryHolds, ListsHold, IsLayout, PerClass, Link, WithLink, Pushed, ClassOf;
      var slot := Slot(thread, ClassOf(layout).value);
      HeadIsTop(heap, heads, held, slot);
      LiveBlockFits(heap, pointer);
      LayoutsAlign(layout);
      var count := HeldOf(held, slot);
      if count >= caps[slot.class_] {
        return false;
      }
      if thread in headsDown {
        return false;
      }
      PushKeeps(heap, slot, pointer);
      PushedHolds(heap, memory, slot, pointer);
      PushedListsHold(heap, heads, held, slot, pointer);
      memory := memory[pointer := WithLink(memory[pointer], HeadOf(heads, slot))];
      heads := heads[slot := pointer];
      held := held[slot := count + 1];
      heap := Pushed(heap, slot, pointer);
      kept := true;
    }

    /** A resize inside one class is the same block; any other is a fresh block, the
        old bytes copied into it, and the old block freed. */
    method Realloc(thread: nat, pointer: nat, layout: Layout, newSize: nat, answer: nat, garbage: seq<Byte>)
      returns (block: nat)
      requires Valid() && pointer in heap.live && heap.live[pointer] == layout
      requires var wanted := Layout(newSize, layout.align);
               IsLayout(wanted) ==> AnswerFits(heap, thread, wanted, answer) && |garbage| == MadeFor(wanted).size
      modifies this
      ensures Valid() && (heap, block) == ReallocStep(old(heap), thread, pointer, layout, newSize, answer)
      ensures pointer in old(memory) && |old(memory)[pointer]| >= layout.size
      ensures block != NULL ==> block in memory && |memory[block]| >= newSize
      ensures block != NULL ==>
                memory[block][..Min(layout.size, newSize)] == old(memory)[pointer][..Min(layout.size, newSize)]
      ensures forall b :: b in old(heap).live && b != pointer ==>
                            b in memory && b in old(memory) && memory[b] == old(memory)[b]
      ensures block == NULL ==> heap == old(heap) && memory == old(memory)
      ensures block == pointer <==> SameClass(layout, newSize)
      ensures block == pointer ==> memory == old(memory)
    {
      hide Inv, MemoryHolds, ListsHold, IsLayout, PerClass, Link, ClassOf, AllocStep, FreeStep, MadeFor, AnswerFits;
      LiveBlockFits(heap, pointer);
      MadeIsListedOrLive(heap);
      MemoryFits(heap, memory);
      var wanted := Layout(newSize, layout.align);
      ReallocKeeps(heap, thread, pointer, layout, newSize, answer);
      if SameClass(layout, newSize) {
        ghost var after := heap.(live := heap.live[pointer := wanted]);
        SameListsHold(heap, after, heads, held);
        ResizedHolds(heap, memory, pointer, wanted);
        heap := after;
        LiveBlockFits(heap, pointer);
        MemoryFits(heap, memory);
        return pointer;
      }
      if !IsLayout(wanted) {
        return NULL;
      }
      AllocHandsOutFreshMemory(heap, thread, wanted, answer);
      MemoryIsMade(heap, memory);
      block := Alloc(thread, wanted, answer, garbage);
      MemoryIsMade(heap, memory);
      if block == NULL {
        return;
      }
      MemoryFits(heap, memory);
      LiveBlockFits(heap, block);
      var count := Min(layout.size, newSize);
      var copied := memory[pointer][..count] + memory[block][count..];
      StoredHolds(heap, memory, block, copied);
      memory := memory[block := copied];
      Dealloc(thread, pointer, layout);
    }

    /** The program writes a byte of a block it holds: no list can notice. */
    method Store(pointer: nat, at: nat, value: Byte)
      requires Valid() && pointer in heap.live && at < heap.live[pointer].size
      modifies `memory
      ensures Valid()
      ensures pointer in old(memory) && at < |old(memory)[pointer]|
      ensures memory == old(memory)[pointer := WithByte(old(memory)[pointer], at, value)]
    {
      hide Inv, MemoryHolds, ListsHold;
      LiveBlockFits(heap, pointer);
      MemoryFits(heap, memory);
      var written := WithByte(memory[pointer], at, value);
      StoredHolds(heap, memory, pointer, written);
      memory := memory[pointer := written];
    }

    /** A thread that is tearing down loses its heads, or its counts. */
    method StorageGone(thread: nat, counts: bool)
      requires Valid()
      modifies `headsDown, `heldDown, `heap
      ensures Valid() && heap == Step(old(heap), if counts then HeldGone(thread) else HeadsGone(thread))
    {
      hide Inv, MemoryHolds, ListsHold;
      var after := Step(heap, if counts then HeldGone(thread) else HeadsGone(thread));
      StorageGoneKeeps(heap, after.headsDown, after.heldDown);
      StorageGoneHolds(heap, memory, after.headsDown, after.heldDown);
      SameListsHold(heap, after, heads, held);
      if counts {
        heldDown := heldDown + {thread};
      } else {
        headsDown := headsDown + {thread};
      }
      heap := after;
    }
  }

  predicate CapsAreRight(caps: array<nat>)
    reads caps
  {
    caps.Length == CLASSES && forall c :: 0 <= c < CLASSES ==> caps[c] == PerClass(c)
  }

  lemma HeadIsTop(h: Heap, heads: map<Slot, nat>, held: map<Slot, nat>, slot: Slot)
    requires ListsHold(h, heads, held)
    ensures HeadOf(heads, slot) == Top(ListOf(h, slot))
    ensures slot.thread !in h.heldDown ==> HeldOf(held, slot) == |ListOf(h, slot)|
  {
    assert SlotHolds(h, heads, held, slot);
  }

  lemma MemoryFits(h: Heap, memory: map<nat, seq<Byte>>)
    requires Inv(h) && MemoryHolds(h, memory)
    ensures forall b :: b in h.live ==> b in memory && b in h.made && |memory[b]| == h.made[b].size
  {
  }

  lemma StorageGoneHolds(h: Heap, memory: map<nat, seq<Byte>>, heads: set<nat>, held: set<nat>)
    requires MemoryHolds(h, memory)
    ensures MemoryHolds(h.(headsDown := heads, heldDown := held), memory)
  {
    hide Link, RangesApart;
    var after := h.(headsDown := heads, heldDown := held);
    forall f | f in after.at ensures LinkIsRight(after, memory, f) {
      assert LinkIsRight(h, memory, f);
    }
  }

  lemma ResizedHolds(h: Heap, memory: map<nat, seq<Byte>>, b: nat, layout: Layout)
    requires MemoryHolds(h, memory) && b in h.live
    ensures MemoryHolds(h.(live := h.live[b := layout]), memory)
  {
    hide Link, RangesApart;
    var after := h.(live := h.live[b := layout]);
    forall f | f in after.at ensures LinkIsRight(after, memory, f) {
      assert LinkIsRight(h, memory, f);
    }
  }

  lemma MemoryIsMade(h: Heap, memory: map<nat, seq<Byte>>)
    requires MemoryHolds(h, memory)
    ensures memory.Keys == h.made.Keys
  {
  }

  lemma PoppedListsHold(
    h: Heap, heads: map<Slot, nat>, held: map<Slot, nat>, slot: Slot, layout: Layout, next: nat, counts: map<Slot, nat>)
    requires ListsHold(h, heads, held) && ListOf(h, slot) != []
    requires next == Top(ListOf(h, slot)[..|ListOf(h, slot)| - 1])
    requires if slot.thread in h.heldDown then counts == held
             else counts == held[slot := if HeldOf(held, slot) == 0 then 0 else HeldOf(held, slot) - 1]
    ensures ListsHold(Popped(h, slot, layout), heads[slot := next], counts)
  {
    var after, tops := Popped(h, slot, layout), heads[slot := next];
    forall s ensures SlotHolds(after, tops, counts, s) {
      assert SlotHolds(h, heads, held, s) && SlotHolds(h, heads, held, slot);
    }
  }

  lemma PushedListsHold(
    h: Heap, heads: map<Slot, nat>, held: map<Slot, nat>, slot: Slot, b: nat)
    requires ListsHold(h, heads, held) && slot.thread !in h.heldDown
    ensures ListsHold(Pushed(h, slot, b), heads[slot := b], held[slot := HeldOf(held, slot) + 1])
  {
    var after, tops, counts := Pushed(h, slot, b), heads[slot := b], held[slot := HeldOf(held, slot) + 1];
    forall s ensures SlotHolds(after, tops, counts, s) {
      assert SlotHolds(h, heads, held, s) && SlotHolds(h, heads, held, slot);
    }
  }

  /** The counts and heads are about the lists alone. */
  lemma SameListsHold(h: Heap, after: Heap, heads: map<Slot, nat>, held: map<Slot, nat>)
    requires ListsHold(h, heads, held) && after.lists == h.lists && h.heldDown <= after.heldDown
    ensures ListsHold(after, heads, held)
  {
    forall s ensures SlotHolds(after, heads, held, s) {
      assert SlotHolds(h, heads, held, s);
    }
  }

  lemma MadeIsListedOrLive(h: Heap)
    requires Inv(h)
    ensures h.made.Keys == h.live.Keys + h.at.Keys && h.live.Keys !! h.at.Keys
  {
  }

  lemma HeadIsNull(h: Heap, memory: map<nat, seq<Byte>>, slot: Slot)
    requires Inv(h) && MemoryHolds(h, memory) && Top(ListOf(h, slot)) == NULL
    ensures ListOf(h, slot) == []
  {
    hide Inv, MemoryHolds;
    if ListOf(h, slot) != [] {
      PlaceOf(h, slot, |ListOf(h, slot)| - 1);
    }
  }
}
