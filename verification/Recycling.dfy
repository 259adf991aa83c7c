/** Which requests the allocator keeps from the system, in sizes and alignments: what
    a freed block serves again, and which resizes stay where they are. */
module Recycling {
  import opened Allocator
  import opened Bits
  import opened Footprint
  import opened Numbers
  import opened Wrappers

  /** The requests that are pooled: 8 to 4096 bytes, aligned to at most sixteen. */
  predicate IsPooled(layout: Layout) {
    8 <= layout.size <= 4096 && layout.align <= 16
  }

  /** A size rounded up to a multiple of sixteen. */
  function Rounded(size: nat): nat {
    (size + 15) / 16 * 16
  }

  /** How many blocks of a rounded size a thread holds on to: 64 KiB of them, and no more
      than 1024. */
  function MostHeld(rounded: nat): nat
    requires rounded > 0
  {
    if rounded <= 64 then 1024 else 65536 / rounded
  }

  lemma RoundedIsLeast(size: nat, n: nat)
    ensures Rounded(size) % 16 == 0 && size <= Rounded(size)
    ensures n % 16 == 0 && size <= n ==> Rounded(size) <= n
  {
    if n % 16 == 0 && size <= n {
      assert n == n / 16 * 16;
      assert (size + 15) / 16 <= n / 16;
    }
  }

  /** What a request is made with: its own layout, or a multiple of sixteen bytes. */
  lemma WhatIsMade(layout: Layout)
    requires IsLayout(layout)
    ensures MadeFor(layout) == if IsPooled(layout) then Layout(Rounded(layout.size), 16) else layout
    ensures ClassOf(layout) == if IsPooled(layout) then Some(Rounded(layout.size) / 16) else None
    ensures IsPooled(layout) ==> PerClass(Rounded(layout.size) / 16) == MostHeld(Rounded(layout.size))
  {
    hide IsLayout;
    if IsPooled(layout) {
      var class_ := (layout.size + 15) / 16;
      assert Rounded(layout.size) / 16 == class_ && 16 <= Rounded(layout.size) <= 4096;
      HeldBlocks(Rounded(layout.size));
    }
  }

  lemma HeldBlocks(rounded: nat)
    requires 16 <= rounded <= 4096
    ensures Max(Min(65536 / rounded, 1024), 1) == MostHeld(rounded)
  {
    QuotientIsTheMost(65536, rounded, 1024);
    QuotientIsTheMost(65536, rounded, 1);
    if rounded > 64 {
      QuotientIsTheMost(65536, rounded, 1025);
    }
  }

  // ----- Resizing -----

  /** The two sizes are pooled and round to the same. */
  predicate StaysPut(layout: Layout, newSize: nat) {
    IsPooled(layout) && IsPooled(Layout(newSize, layout.align)) && Rounded(newSize) == Rounded(layout.size)
  }

  lemma SmallIsLayout(layout: Layout, newSize: nat)
    requires IsLayout(layout) && layout.align <= 16 && newSize <= 4096
    ensures IsLayout(Layout(newSize, layout.align))
  {
    hide IsPowerOfTwo;
  }

  /** A resize returns the block it was given exactly when both sizes are pooled and round to
      the same; nothing then changes but the size on record. Any other returns another
      block or, when the system gives none or there is no such layout, null. */
  lemma ResizeStaysExactly(h: Heap, thread: nat, b: nat, layout: Layout, newSize: nat, answer: nat)
    requires Inv(h) && b in h.live && h.live[b] == layout
    requires IsLayout(Layout(newSize, layout.align)) ==> AnswerFits(h, thread, Layout(newSize, layout.align), answer)
    ensures var (after, block) := ReallocStep(h, thread, b, layout, newSize, answer);
            && (block == b <==> StaysPut(layout, newSize))
            && (StaysPut(layout, newSize) ==> after == h.(live := h.live[b := Layout(newSize, layout.align)]))
            && (block == 0 ==> after == h && (answer == 0 || !IsLayout(Layout(newSize, layout.align))))
  {
    hide Inv, IsLayout, Rounded, ClassOf, AllocStep, FreeStep, AnswerFits;
    LiveBlockFits(h, b);
    WhatIsMade(layout);
    var wanted := Layout(newSize, layout.align);
    if StaysPut(layout, newSize) {
      SmallIsLayout(layout, newSize);
      WhatIsMade(wanted);
    } else if IsLayout(wanted) {
      WhatIsMade(wanted);
      SameRounded(layout.size, newSize);
      AllocHandsOutFreshMemory(h, thread, wanted, answer);
    }
  }

  /** So a resize stays inside a class exactly when it stays inside a rounded size. */
  lemma SameClassExactly(layout: Layout, newSize: nat)
    requires IsLayout(layout)
    ensures SameClass(layout, newSize) <==> StaysPut(layout, newSize)
  {
    hide IsLayout, Rounded, ClassOf;
    WhatIsMade(layout);
    var wanted := Layout(newSize, layout.align);
    SameRounded(layout.size, newSize);
    if StaysPut(layout, newSize) {
      SmallIsLayout(layout, newSize);
    }
    if IsLayout(wanted) {
      WhatIsMade(wanted);
    }
  }

  lemma SameRounded(size: nat, other: nat)
    ensures Rounded(size) / 16 == Rounded(other) / 16 ==> Rounded(size) == Rounded(other)
  {
  }

  // ----- Freeing and asking again -----

  /** When the system is asked, and when a freed block is kept. */
  lemma ServedExactly(h: Heap, thread: nat, layout: Layout)
    requires IsLayout(layout)
    ensures SystemIsAsked(h, thread, layout) <==>
            || !IsPooled(layout) || thread in h.headsDown
            || ListOf(h, Slot(thread, Rounded(layout.size) / 16)) == []
    ensures IsKept(h, thread, layout) <==>
            && IsPooled(layout) && thread !in h.headsDown && thread !in h.heldDown
            && |ListOf(h, Slot(thread, Rounded(layout.size) / 16))| < MostHeld(Rounded(layout.size))
  {
    hide IsLayout, Rounded, MostHeld, ClassOf, PerClass;
    WhatIsMade(layout);
  }

  /** Handing back some blocks, the first of them first. */
  function FreesOf(thread: nat, blocks: seq<nat>, layouts: seq<Layout>): seq<Op>
    requires |blocks| == |layouts|
  {
    if blocks == [] then [] else [Free(thread, blocks[0], layouts[0])] + FreesOf(thread, blocks[1..], layouts[1..])
  }

  /** Asking for as many, the last of them first, whatever the system would answer. */
  function AsksFor(thread: nat, layouts: seq<Layout>, answers: seq<nat>): seq<Op>
    requires |layouts| == |answers|
  {
    if layouts == [] then []
    else AsksFor(thread, layouts[1..], answers[1..]) + [Alloc(thread, layouts[0], answers[0])]
  }

  /** Every layout is pooled and rounds to this size. */
  predicate AllRoundTo(layouts: seq<Layout>, rounded: nat) {
    forall i :: 0 <= i < |layouts| ==>
      IsLayout(layouts[i]) && IsPooled(layouts[i]) && Rounded(layouts[i].size) == rounded
  }

  predicate AllLive(h: Heap, blocks: seq<nat>, layouts: seq<Layout>)
    requires |blocks| == |layouts|
  {
    && (forall i :: 0 <= i < |blocks| ==> blocks[i] in h.live && h.live[blocks[i]] == layouts[i])
    && forall i, j :: 0 <= i < j < |blocks| ==> blocks[i] != blocks[j]
  }

  /** The live blocks, with some of them held under other layouts. */
  function Relaid(live: map<nat, Layout>, blocks: seq<nat>, layouts: seq<Layout>): map<nat, Layout>
    requires |blocks| == |layouts|
  {
    if blocks == [] then live else Relaid(live, blocks[1..], layouts[1..])[blocks[0] := layouts[0]]
  }

  lemma FreeOne(h: Heap, thread: nat, b: nat, layout: Layout, rounded: nat)
    requires IsLayout(layout) && IsPooled(layout) && Rounded(layout.size) == rounded
    requires b in h.live && h.live[b] == layout && thread !in h.headsDown && thread !in h.heldDown
    requires |ListOf(h, Slot(thread, rounded / 16))| < MostHeld(rounded)
    ensures Allowed(h, Free(thread, b, layout))
    ensures Step(h, Free(thread, b, layout)) == Pushed(h, Slot(thread, rounded / 16), b)
  {
    hide IsLayout, Rounded, MostHeld, ClassOf, PerClass;
    WhatIsMade(layout);
  }

  lemma AskForOne(h: Heap, thread: nat, layout: Layout, answer: nat, rounded: nat)
    requires IsLayout(layout) && IsPooled(layout) && Rounded(layout.size) == rounded && thread !in h.headsDown
    requires ListOf(h, Slot(thread, rounded / 16)) != []
    ensures !SystemIsAsked(h, thread, layout) && Allowed(h, Alloc(thread, layout, answer))
    ensures Step(h, Alloc(thread, layout, answer)) == Popped(h, Slot(thread, rounded / 16), layout)
  {
    hide IsLayout, Rounded, ClassOf, PerClass;
    WhatIsMade(layout);
  }

  /** The heap with the same blocks and lists, and these layouts on record. */
  predicate IsAsBefore(h: Heap, after: Heap, live: map<nat, Layout>) {
    && after.made == h.made && after.live == live
    && after.headsDown == h.headsDown && after.heldDown == h.heldDown
  }

  ghost predicate ListsAreAsBefore(h: Heap, after: Heap) {
    forall slot :: ListOf(after, slot) == ListOf(h, slot)
  }

  /** Blocks of one rounded size that a thread frees, as long as it holds on to them, are what
      it is given when it asks for that size again, the last first: the system is never
      asked, whatever it would answer, and the lists are then as before. */
  lemma {:induction false} FreedIsServedAgain(
    ops: seq<Op>, thread: nat, rounded: nat, blocks: seq<nat>, layouts: seq<Layout>, nexts: seq<Layout>, answers: seq<nat>)
    requires RunAllowed(ops) && |blocks| == |layouts| == |nexts| == |answers|
    requires AllLive(Run(ops), blocks, layouts) && AllRoundTo(layouts, rounded) && AllRoundTo(nexts, rounded)
    requires rounded > 0 && |ListOf(Run(ops), Slot(thread, rounded / 16))| + |blocks| <= MostHeld(rounded)
    requires thread !in Run(ops).headsDown && thread !in Run(ops).heldDown
    ensures var all := ops + FreesOf(thread, blocks, layouts) + AsksFor(thread, nexts, answers);
            && RunAllowed(all) && IsAsBefore(Run(ops), Run(all), Relaid(Run(ops).live, blocks, nexts))
            && ListsAreAsBefore(Run(ops), Run(all))
    decreases |blocks|
  {
    hide Run, RunAllowed, Step, Allowed, IsLayout, Rounded, MostHeld, IsPooled, Pushed, Popped, ListOf;
    if blocks == [] {
      assert ops + [] + [] == ops;
    } else {
      var slot, h := Slot(thread, rounded / 16), Run(ops);
      var free, ask := Free(thread, blocks[0], layouts[0]), Alloc(thread, nexts[0], answers[0]);
      var first := ops + [free];
      FreeOne(h, thread, blocks[0], layouts[0], rounded);
      RunSnoc(ops, free);
      PushedLists(h, slot, blocks[0]);
      PushedTears(h, slot, blocks[0]);
      RestStillLive(h, blocks, layouts);
      FreedIsServedAgain(first, thread, rounded, blocks[1..], layouts[1..], nexts[1..], answers[1..]);
      var inner := first + FreesOf(thread, blocks[1..], layouts[1..]) + AsksFor(thread, nexts[1..], answers[1..]);
      AskForOne(Run(inner), thread, nexts[0], answers[0], rounded);
      RunSnoc(inner, ask);
      assert inner + [ask] == ops + FreesOf(thread, blocks, layouts) + AsksFor(thread, nexts, answers);
      PoppedAgain(h, Run(first), Run(inner), slot, blocks[0], nexts[0]);
      RelaidWithout(h.live, blocks, nexts);
    }
  }

  lemma PushedTears(h: Heap, slot: Slot, b: nat)
    ensures Pushed(h, slot, b).headsDown == h.headsDown && Pushed(h, slot, b).heldDown == h.heldDown
  {
  }

  lemma RestStillLive(h: Heap, blocks: seq<nat>, layouts: seq<Layout>)
    requires |blocks| == |layouts| && blocks != [] && AllLive(h, blocks, layouts)
    ensures forall after: Heap :: after.live == h.live - {blocks[0]} ==> AllLive(after, blocks[1..], layouts[1..])
  {
  }

  lemma PoppedAgain(h: Heap, freed: Heap, inner: Heap, slot: Slot, b: nat, layout: Layout)
    requires freed == Pushed(h, slot, b) && ListsAreAsBefore(freed, inner)
    ensures ListOf(inner, slot) != []
    ensures Popped(inner, slot, layout).made == inner.made
    ensures Popped(inner, slot, layout).live == inner.live[b := layout]
    ensures ListsAreAsBefore(h, Popped(inner, slot, layout))
  {
    PushedLists(h, slot, b);
    hide Pushed;
    assert ListOf(inner, slot) == ListOf(h, slot) + [b];
    var after := Popped(inner, slot, layout);
    forall s ensures ListOf(after, s) == ListOf(h, s) {
      assert ListOf(inner, s) == ListOf(freed, s);
    }
  }

  lemma {:induction false} RelaidWithout(live: map<nat, Layout>, blocks: seq<nat>, layouts: seq<Layout>)
    requires |blocks| == |layouts| && blocks != []
    ensures Relaid(live - {blocks[0]}, blocks[1..], layouts[1..])[blocks[0] := layouts[0]] == Relaid(live, blocks, layouts)
  {
    RelaidElsewhere(live, blocks[0], blocks[1..], layouts[1..]);
  }

  lemma {:induction false} RelaidElsewhere(live: map<nat, Layout>, b: nat, blocks: seq<nat>, layouts: seq<Layout>)
    requires |blocks| == |layouts|
    ensures forall c :: c != b ==> (c in Relaid(live - {b}, blocks, layouts) <==> c in Relaid(live, blocks, layouts))
    ensures forall c :: c != b && c in Relaid(live, blocks, layouts) ==>
              Relaid(live - {b}, blocks, layouts)[c] == Relaid(live, blocks, layouts)[c]
  {
    if blocks != [] {
      RelaidElsewhere(live, b, blocks[1..], layouts[1..]);
    }
  }

  // ----- Which layouts there are -----

  lemma {:induction false} PowersOfTwo(n: nat) returns (k: nat)
    requires IsPowerOfTwo(n)
    ensures n == Pow2(k)
  {
    if n == 1 {
      k := 0;
    } else {
      var half := PowersOfTwo(n / 2);
      k := half + 1;
    }
  }

  lemma {:induction false} Pow2IsPower(k: nat)
    ensures IsPowerOfTwo(Pow2(k))
  {
    if k > 0 {
      Pow2IsPower(k - 1);
    }
  }

  lemma {:induction false} Pow2Grows(j: nat, k: nat)
    requires j < k
    ensures Pow2(j) < Pow2(k)
  {
    if j + 1 < k {
      Pow2Grows(j, k - 1);
    }
  }

  lemma HalfOfTheAddresses()
    ensures Pow2(63) == 0x8000_0000_0000_0000
  {
    Pow2Of16();
    Pow2Add(16, 16);
    Pow2Add(32, 16);
    Pow2Add(48, 15);
  }

  /** The least multiple of a power of two that is no less. */
  lemma RoundedUp(size: nat, align: nat, other: nat)
    requires align > 0
    ensures var n := (size + align - 1) / align * align;
            n >= size && n % align == 0 && n < size + align
  {
    var q, r := (size + align - 1) / align, (size + align - 1) % align;
    assert size + align - 1 == align * q + r;
    DivUnique(q * align, align, q, 0);
  }

  lemma Grows(align: nat, a: nat, b: nat)
    requires a <= b
    ensures align * a <= align * b
  {
    Distribute(align, a, b - a);
  }

  lemma MultiplesBelow(n: nat, align: nat, m: nat)
    requires align > 0 && n % align == 0 && n < align * m
    ensures n <= align * m - align
  {
    var q := n / align;
    assert n == align * q;
    if m <= q {
      Grows(align, m, q);
      assert false;
    }
    Grows(align, q + 1, m);
    Distribute(align, q, 1);
  }

  /** A layout is allowed exactly when its alignment is a power of two up to 2^63 and its
      size, rounded up to a multiple of the alignment, is below 2^63. */
  lemma LayoutsExactly(layout: Layout)
    ensures IsLayout(layout) <==>
            exists k: nat :: k <= 63 && layout.align == Pow2(k)
                             && (layout.size + Pow2(k) - 1) / Pow2(k) * Pow2(k) < 0x8000_0000_0000_0000
  {
    hide IsPowerOfTwo, Pow2;
    HalfOfTheAddresses();
    if IsLayout(layout) {
      var k := PowersOfTwo(layout.align);
      if k > 63 {
        Pow2Grows(63, k);
      }
      RoundedUp(layout.size, layout.align, 0);
      Pow2Add(k, 63 - k);
    }
    if k: nat :| k <= 63 && layout.align == Pow2(k)
                 && (layout.size + Pow2(k) - 1) / Pow2(k) * Pow2(k) < 0x8000_0000_0000_0000
    {
      Pow2IsPower(k);
      RoundedUp(layout.size, layout.align, 0);
      Pow2Add(k, 63 - k);
      MultiplesBelow((layout.size + Pow2(k) - 1) / Pow2(k) * Pow2(k), Pow2(k), Pow2(63 - k));
    }
  }
}
