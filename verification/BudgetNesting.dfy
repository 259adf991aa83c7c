/** How far nested guards can carry a request past the budget it runs under: the
    exact condition on what they were armed with. */
module BudgetNesting {
  import opened Budget
  import opened BudgetRuns
  import opened Wrappers

  // ----- What is spent at which depth -----

  /** Everything the calls ask for, at any depth, without saturation. */
  function Anywhere(kind: Kind, ops: seq<Op>): nat {
    if ops == [] then 0 else Anywhere(kind, ops[..|ops| - 1]) + Amount(kind, ops[|ops| - 1])
  }

  /** What they ask for under the budget in force when they began. */
  function Own(kind: Kind, ops: seq<Op>): nat {
    if ops == [] then 0
    else
      var front, op := ops[..|ops| - 1], ops[|ops| - 1];
      Own(kind, front) + if Depth(front) == 0 then Amount(kind, op) else 0
  }

  /** What they ask for under guards armed since. */
  function Below(kind: Kind, ops: seq<Op>): nat {
    if ops == [] then 0
    else
      var front, op := ops[..|ops| - 1], ops[|ops| - 1];
      Below(kind, front) + if Depth(front) == 0 then 0 else Amount(kind, op)
  }

  lemma {:induction false} AnywhereIsOwnAndBelow(kind: Kind, ops: seq<Op>)
    ensures Anywhere(kind, ops) == Own(kind, ops) + Below(kind, ops)
  {
    if ops != [] {
      AnywhereIsOwnAndBelow(kind, ops[..|ops| - 1]);
    }
  }

  /** The guards of a run: what was armed and dropped, in order. */
  function Skeleton(ops: seq<Op>): seq<Op> {
    if ops == [] then []
    else
      var front, op := ops[..|ops| - 1], ops[|ops| - 1];
      if Arms(op) || op.Drop? then Skeleton(front) + [op] else Skeleton(front)
  }

  predicate OnlyGuards(ops: seq<Op>) {
    forall i :: 0 <= i < |ops| ==> Arms(ops[i]) || ops[i].Drop?
  }

  /** What a guard can be charged before it refuses; a limit no 64-bit counter can pass
      is none. */
  function Cap(kind: Kind, limits: Limits): Option<nat> {
    match Limit(kind, limits)
    case None => None
    case Some(most) => if most == U64_MAX then None else Some(most)
  }

  function Plus(a: Option<nat>, b: Option<nat>): Option<nat> {
    if a.Some? && b.Some? then Some(a.value + b.value) else None
  }

  function CapOf(kind: Kind, op: Op): Option<nat> {
    if Arms(op) then Cap(kind, op.limits) else Some(0)
  }

  /** What all the guards of a run can be charged together: the sum of every limit
      armed, siblings and deeper ones alike. */
  function Most(kind: Kind, ops: seq<Op>): Option<nat> {
    if ops == [] then Some(0) else Plus(Most(kind, ops[..|ops| - 1]), CapOf(kind, ops[|ops| - 1]))
  }

  lemma OneMoreAtDepth(kind: Kind, ops: seq<Op>, op: Op)
    ensures Own(kind, ops + [op]) == Own(kind, ops) + if Depth(ops) == 0 then Amount(kind, op) else 0
    ensures Below(kind, ops + [op]) == Below(kind, ops) + if Depth(ops) == 0 then 0 else Amount(kind, op)
    ensures Most(kind, ops + [op]) == Plus(Most(kind, ops), CapOf(kind, op))
    ensures Skeleton(ops + [op]) == if Arms(op) || op.Drop? then Skeleton(ops) + [op] else Skeleton(ops)
  {
    assert (ops + [op])[..|ops|] == ops;
  }

  lemma {:induction false} SkeletonDecides(kind: Kind, ops: seq<Op>)
    ensures Most(kind, Skeleton(ops)) == Most(kind, ops)
    ensures Depth(Skeleton(ops)) == Depth(ops)
    ensures Nested(Skeleton(ops)) <==> Nested(ops)
  {
    hide Nested, Most;
    if ops != [] {
      var front, op := ops[..|ops| - 1], ops[|ops| - 1];
      assert ops == front + [op];
      SkeletonDecides(kind, front);
      var s := State(None, [], {});
      OneMore(s, front, op);
      OneMore(s, Skeleton(front), op);
      OneMoreAtDepth(kind, front, op);
      OneMoreAtDepth(kind, Skeleton(front), op);
      NestedStaysUp(front);
    } else {
      NoCalls(kind);
    }
  }

  lemma NoCalls(kind: Kind)
    ensures Nested([]) && Most(kind, []) == Some(0)
  {
  }

  lemma {:induction false} NestedStaysUp(ops: seq<Op>)
    ensures Nested(ops) ==> Depth(ops) >= 0
  {
  }

  // ----- No run goes past the sum of its guards' limits -----

  /** What is left of a guard that is armed. */
  function Left(kind: Kind, sp: Option<Spending>): nat {
    if sp.Some? && Cap(kind, sp.value.limits).Some? && Counter(kind, sp.value) <= Cap(kind, sp.value.limits).value
    then Cap(kind, sp.value.limits).value - Counter(kind, sp.value)
    else 0
  }

  /** What is left of the guards armed above the first `base` that are not innermost. */
  function LeftUnder(kind: Kind, guards: seq<Option<Spending>>, base: nat): nat {
    if |guards| <= base + 1 then 0
    else LeftUnder(kind, guards[..|guards| - 1], base) + Left(kind, guards[|guards| - 1])
  }

  function LeftOpen(kind: Kind, s: State, base: nat): nat {
    if |s.guards| <= base then 0 else LeftUnder(kind, s.guards, base) + Left(kind, s.active)
  }

  predicate IsCapped(kind: Kind, sp: Option<Spending>) {
    sp.Some? && Cap(kind, sp.value.limits).Some?
  }

  /** Every guard armed above the first `base` has a limit. */
  predicate Capped(kind: Kind, s: State, base: nat) {
    |s.guards| > base ==>
      IsCapped(kind, s.active) && forall j :: base < j < |s.guards| ==> IsCapped(kind, s.guards[j])
  }

  /** One accepted call keeps what was spent below and what is left there within what
      was armed. */
  lemma OneCallWithin(kind: Kind, s: State, base: nat, op: Op)
    requires |s.guards| >= base && Capped(kind, s, base) && Step(s, op).1 == Fine
    requires |s.guards| + Turn(op) >= base && CapOf(kind, op).Some?
    ensures var after := Step(s, op).0;
            && Capped(kind, after, base)
            && (if |s.guards| == base then 0 else Amount(kind, op)) + LeftOpen(kind, after, base)
               <= LeftOpen(kind, s, base) + CapOf(kind, op).value
  {
    var after := Step(s, op).0;
    match op
    case Arm(_, _, _, _) => ArmLeaves(kind, s, base, after);
    case ArmAsItStands(_, _, _, _) => ArmLeaves(kind, s, base, after);
    case Drop =>
    case Spend(_, _) => ChargeLeaves(kind, s, base, op);
    case Materialise(_, _) => ChargeLeaves(kind, s, base, op);
    case _ =>
  }

  lemma ArmLeaves(kind: Kind, s: State, base: nat, after: State)
    requires |s.guards| >= base && Capped(kind, s, base)
    requires after.guards == s.guards + [s.active] && IsCapped(kind, after.active)
    requires Counter(kind, after.active.value) == 0
    ensures Capped(kind, after, base)
    ensures LeftOpen(kind, after, base) == LeftOpen(kind, s, base) + Cap(kind, after.active.value.limits).value
  {
    hide Cap;
    assert after.guards[..|s.guards|] == s.guards;
  }

  lemma ChargeLeaves(kind: Kind, s: State, base: nat, op: Op)
    requires |s.guards| >= base && Capped(kind, s, base) && Step(s, op).1 == Fine
    requires op.Spend? || op.Materialise?
    ensures var after := Step(s, op).0;
            && Capped(kind, after, base)
            && (if |s.guards| == base then 0 else Amount(kind, op)) + LeftOpen(kind, after, base)
               <= LeftOpen(kind, s, base)
  {
    hide LeftUnder;
  }

  /** Over any accepted calls, at all depths: what is spent under nested guards, and what
      those still armed have left, come to no more than everything that was armed. */
  lemma {:induction false} BelowIsWithin(kind: Kind, s: State, ops: seq<Op>)
    requires Nested(ops) && AllFine(s, ops) && Most(kind, ops).Some?
    ensures Capped(kind, Run(s, ops), |s.guards|)
    ensures Below(kind, ops) + LeftOpen(kind, Run(s, ops), |s.guards|) <= Most(kind, ops).value
  {
    hide Step, LeftOpen, Capped, Amount;
    if ops == [] {
      NothingOpen(kind, s);
    } else {
      var front, op := ops[..|ops| - 1], ops[|ops| - 1];
      assert ops == front + [op];
      BelowIsWithin(kind, s, front);
      GuardsStay(s, front);
      OneCallWithin(kind, Run(s, front), |s.guards|, op);
    }
  }

  lemma NothingOpen(kind: Kind, s: State)
    ensures Capped(kind, s, |s.guards|) && LeftOpen(kind, s, |s.guards|) == 0
  {
  }

  // ----- Some run reaches it -----

  function Asking(kind: Kind, amount: U64): Op {
    if kind == RowKind then Spend(amount, 0) else Spend(0, amount)
  }

  /** How much of `n` the guards can be charged. */
  function Taken(kind: Kind, ops: seq<Op>, n: nat): nat {
    if Most(kind, ops).None? || Most(kind, ops).value > n then n else Most(kind, ops).value
  }

  /** The same guards, each charged as soon as it is armed, until `n` is reached. */
  function Filled(kind: Kind, sk: seq<Op>, n: U64): seq<Op> {
    if sk == [] then []
    else
      var front, op := sk[..|sk| - 1], sk[|sk| - 1];
      if Arms(op) then Filled(kind, front, n) + [op] + [Asking(kind, More(kind, front, op, n))]
      else Filled(kind, front, n) + [op]
  }

  /** What the last guard takes. */
  function More(kind: Kind, front: seq<Op>, op: Op, n: U64): (more: U64)
    requires Arms(op)
    ensures Cap(kind, op.limits).Some? ==> more <= Cap(kind, op.limits).value
    ensures Taken(kind, front, n) + more == Taken(kind, front + [op], n)
  {
    OneMoreAtDepth(kind, front, op);
    Taken(kind, front + [op], n) - Taken(kind, front, n)
  }

  /** A fresh guard accepts any charge within its cap. */
  lemma FreshAccepts(kind: Kind, s: State, op: Op, amount: U64)
    requires Arms(op) && s.active == Some(Armed(op))
    requires Cap(kind, op.limits).Some? ==> amount <= Cap(kind, op.limits).value
    ensures Step(s, Asking(kind, amount)).1 == Fine
    ensures Amount(kind, Asking(kind, amount)) == amount
  {
    hide DeadlineOf;
  }

  lemma {:induction false} FilledIs(kind: Kind, s: State, sk: seq<Op>, n: U64)
    requires Nested(sk) && OnlyGuards(sk)
    ensures var body := Filled(kind, sk, n);
            && Skeleton(body) == sk && Nested(body) && Depth(body) == Depth(sk) && AllFine(s, body)
            && Below(kind, body) == Taken(kind, sk, n) && Own(kind, body) == 0
            && OwnCharged(RowKind, s, body) == 0 && OwnCharged(ByteKind, s, body) == 0
  {
    hide Step, Most, More, Cap, Asking, Amount, Charge, Nested, Depth, AllFine, Run, Skeleton, Below, Own, OwnCharged, Taken, Armed;
    if sk == [] {
      NoCalls(kind);
      NothingRun(s);
    } else {
      var front, op := sk[..|sk| - 1], sk[|sk| - 1];
      assert sk == front + [op];
      OneMore(s, front, op);
      FilledIs(kind, s, front, n);
      var body := Filled(kind, front, n);
      NestedStaysUp(body);
      GuardCallIsFree(kind, s, body, op);
      if Arms(op) {
        var more := More(kind, front, op, n);
        GuardAccepts(kind, s, body, op, more);
      } else {
        DropAddsNothing(kind, front, op);
      }
    }
  }

  lemma NothingRun(s: State)
    ensures AllFine(s, []) && Depth([]) == 0 && Skeleton([]) == []
    ensures forall k :: Below(k, []) == 0 && Own(k, []) == 0 && OwnCharged(k, s, []) == 0
    ensures forall k, n :: Taken(k, [], n) == 0
  {
  }

  lemma DropAddsNothing(kind: Kind, ops: seq<Op>, op: Op)
    requires op.Drop?
    ensures forall n :: Taken(kind, ops + [op], n) == Taken(kind, ops, n)
  {
    OneMoreAtDepth(kind, ops, op);
  }

  lemma GuardCallIsFree(kind: Kind, s: State, body: seq<Op>, op: Op)
    requires Arms(op) || op.Drop?
    ensures var after := body + [op];
            && (AllFine(s, body) ==> AllFine(s, after)) && Depth(after) == Depth(body) + Turn(op)
            && (Nested(body) && Depth(body) + Turn(op) >= 0 ==> Nested(after))
            && Skeleton(after) == Skeleton(body) + [op]
            && Below(kind, after) == Below(kind, body) && Own(kind, after) == Own(kind, body)
            && (forall k :: OwnCharged(k, s, body) == 0 ==> OwnCharged(k, s, after) == 0)
            && (Arms(op) ==> Run(s, after).active == Some(Armed(op)))
  {
    OneMore(s, body, op);
    OneMoreAtDepth(kind, body, op);
    assert (body + [op])[..|body|] == body;
  }

  lemma GuardAccepts(kind: Kind, s: State, body: seq<Op>, op: Op, more: U64)
    requires Arms(op) && Depth(body) >= 0 && Run(s, body + [op]).active == Some(Armed(op))
    requires Cap(kind, op.limits).Some? ==> more <= Cap(kind, op.limits).value
    ensures var charged := body + [op]; var after := charged + [Asking(kind, more)];
            && (AllFine(s, charged) ==> AllFine(s, after)) && Depth(after) == Depth(charged)
            && (Nested(charged) ==> Nested(after))
            && Skeleton(after) == Skeleton(charged)
            && Below(kind, after) == Below(kind, charged) + more && Own(kind, after) == Own(kind, charged)
            && (forall k :: OwnCharged(k, s, after) == OwnCharged(k, s, charged))
  {
    var charged, ask := body + [op], Asking(kind, more);
    FreshAccepts(kind, Run(s, charged), op, more);
    OneMore(s, body, op);
    OneMore(s, charged, ask);
    OneMoreAtDepth(kind, charged, ask);
    NestedStaysUp(charged);
    assert (charged + [ask])[..|charged|] == charged;
    hide Run, Step, AllFine, Depth, Nested, Skeleton, Below, Own, Cap;
  }

  // ----- The exact conditions -----

  /** A caller with a limit its 64-bit counter can pass, and not past any limit. */
  predicate IsLimited(kind: Kind, s: State) {
    && s.active.Some?
    && Cap(kind, s.active.value.limits).Some?
    && !Over(s.active.value.rows, s.active.value.limits.rows)
    && !Over(s.active.value.bytes, s.active.value.limits.bytes)
  }

  /** What the caller may still be charged. */
  function Allowance(kind: Kind, s: State): nat
    requires IsLimited(kind, s)
  {
    Cap(kind, s.active.value.limits).value - Counter(kind, s.active.value)
  }

  /** Every accepted run with these guards, in which the caller itself is charged `own`,
      spends no more, at all depths together, than the caller may. */
  ghost predicate StaysWithin(kind: Kind, s: State, sk: seq<Op>, own: nat)
    requires IsLimited(kind, s)
  {
    forall body :: Skeleton(body) == sk && AllFine(s, body) && Own(kind, body) == own ==>
                     Anywhere(kind, body) <= Allowance(kind, s)
  }

  /** Nested guards, however many beside and inside one another, cannot carry a request
      past what its caller may spend exactly when all their limits together are no
      more than what the caller has left beside its own charges. */
  lemma StaysWithinExactly(kind: Kind, s: State, sk: seq<Op>, own: nat)
    requires IsLimited(kind, s) && own <= Allowance(kind, s)
    requires Balanced(sk) && OnlyGuards(sk)
    ensures StaysWithin(kind, s, sk, own) <==>
            Most(kind, sk).Some? && own + Most(kind, sk).value <= Allowance(kind, s)
  {
    hide IsLimited, AllFine, Skeleton, Own, Below, Anywhere, Most, LeftOpen, Capped;
    if Most(kind, sk).Some? && own + Most(kind, sk).value <= Allowance(kind, s) {
      forall body | Skeleton(body) == sk && AllFine(s, body) && Own(kind, body) == own
        ensures Anywhere(kind, body) <= Allowance(kind, s)
      {
        SkeletonDecides(kind, body);
        BelowIsWithin(kind, s, body);
        AnywhereIsOwnAndBelow(kind, body);
      }
    } else {
      AllowanceFits(kind, s);
      var body := OneTooMany(kind, s, sk, own, Allowance(kind, s) - own + 1);
      AnywhereIsOwnAndBelow(kind, body);
    }
  }

  lemma AllowanceFits(kind: Kind, s: State)
    requires IsLimited(kind, s)
    ensures Allowance(kind, s) < U64_MAX
  {
  }

  /** A run with these guards in which they are charged `n` and the caller `own`. */
  lemma OneTooMany(kind: Kind, s: State, sk: seq<Op>, own: nat, n: U64) returns (body: seq<Op>)
    requires IsLimited(kind, s) && own <= Allowance(kind, s) && Balanced(sk) && OnlyGuards(sk)
    requires Most(kind, sk).Some? ==> Most(kind, sk).value >= n
    ensures Skeleton(body) == sk && AllFine(s, body) && Own(kind, body) == own && Below(kind, body) == n
  {
    AllowanceFits(kind, s);
    var filled := Filled(kind, sk, n);
    FilledIs(kind, s, sk, n);
    CallerAccepts(kind, s, filled, own);
    OneMore(s, filled, Asking(kind, own));
    OneMoreAtDepth(kind, filled, Asking(kind, own));
    body := filled + [Asking(kind, own)];
  }

  /** After balanced calls that did not charge it the caller accepts all it may still
      spend. */
  lemma CallerAccepts(kind: Kind, s: State, ops: seq<Op>, own: U64)
    requires IsLimited(kind, s) && own <= Allowance(kind, s) && Balanced(ops)
    requires OwnCharged(RowKind, s, ops) == 0 && OwnCharged(ByteKind, s, ops) == 0
    ensures Step(Run(s, ops), Asking(kind, own)).1 == Fine && Amount(kind, Asking(kind, own)) == own
  {
    CountersAreSums(s, ops);
    hide Run, OwnCharged, Nested, Depth;
  }

  /** Every accepted run with these guards spends, at all depths together, no more than
      the caller may, whatever the caller itself is charged. */
  ghost predicate NeverWidens(kind: Kind, s: State, sk: seq<Op>)
    requires IsLimited(kind, s)
  {
    forall body :: Skeleton(body) == sk && AllFine(s, body) ==> Anywhere(kind, body) <= Allowance(kind, s)
  }

  /** So nested guards never widen their caller's budget exactly when every one of them
      allows nothing. */
  lemma NeverWidensExactly(kind: Kind, s: State, sk: seq<Op>)
    requires IsLimited(kind, s) && Balanced(sk) && OnlyGuards(sk)
    ensures NeverWidens(kind, s, sk) <==>
            forall i :: 0 <= i < |sk| && Arms(sk[i]) ==> Cap(kind, sk[i].limits) == Some(0)
  {
    hide IsLimited, AllFine, Skeleton, Own, Below, Anywhere, Most, LeftOpen, Capped, Cap;
    MostIsNothing(kind, sk);
    if Most(kind, sk) == Some(0) {
      forall body | Skeleton(body) == sk && AllFine(s, body) ensures Anywhere(kind, body) <= Allowance(kind, s) {
        SkeletonDecides(kind, body);
        OwnIsWithin(kind, s, body);
        BelowIsWithin(kind, s, body);
        AnywhereIsOwnAndBelow(kind, body);
      }
    } else {
      StaysWithinExactly(kind, s, sk, Allowance(kind, s));
    }
  }

  lemma {:induction false} MostIsNothing(kind: Kind, ops: seq<Op>)
    ensures Most(kind, ops) == Some(0) <==>
            forall i :: 0 <= i < |ops| && Arms(ops[i]) ==> Cap(kind, ops[i].limits) == Some(0)
  {
    hide Cap;
    if ops != [] {
      var front := ops[..|ops| - 1];
      MostIsNothing(kind, front);
      assert forall i :: 0 <= i < |front| ==> front[i] == ops[i];
    }
  }

  /** The caller's own accepted charges stay within what it may spend. */
  lemma {:induction false} OwnIsWithin(kind: Kind, s: State, ops: seq<Op>)
    requires IsLimited(kind, s) && Nested(ops) && AllFine(s, ops)
    ensures Kept(s, ops).Some? && Kept(s, ops).value.limits == s.active.value.limits
    ensures Counter(kind, Kept(s, ops).value) == Counter(kind, s.active.value) + Own(kind, ops)
    ensures Own(kind, ops) <= Allowance(kind, s)
  {
    hide Step, Charge, Stopped;
    CountersAreSums(s, ops);
    if ops != [] {
      var front, op := ops[..|ops| - 1], ops[|ops| - 1];
      assert ops == front + [op];
      OwnIsWithin(kind, s, front);
      KeptStep(s, front, op);
      OneMoreAtDepth(kind, front, op);
      if Depth(front) == 0 {
        AcceptedCharge(kind, Run(s, front), op);
      }
    }
  }

  /** An accepted call charges all it asks for, within the limit. */
  lemma AcceptedCharge(kind: Kind, s: State, op: Op)
    requires s.active.Some? && Step(s, op).1 == Fine
    requires Cap(kind, s.active.value.limits).Some?
    requires Counter(kind, s.active.value) <= Cap(kind, s.active.value.limits).value
    ensures Charge(kind, s, op) == Amount(kind, op)
    ensures Sat(Counter(kind, s.active.value), Charge(kind, s, op)) == Counter(kind, s.active.value) + Amount(kind, op)
    ensures Counter(kind, s.active.value) + Amount(kind, op) <= Cap(kind, s.active.value.limits).value
  {
  }

  // ----- Runs that go past -----

  /** A caller allowed one row takes any number under a guard of its own, unrefused, and
      has only its own row counted when the guard is dropped. */
  lemma NestedRowsAreNotTheCallers(rows: U64)
    ensures var caller := Spending(Limits(Some(1), None, None), None, 0, 0, 0);
            var ops := [Spend(1, 0), Arm(Limits(None, None, None), 0, 0, 0), Spend(rows, 0), Drop, Check(0)];
            && AllFine(State(Some(caller), [], {}), ops)
            && Run(State(Some(caller), [], {}), ops) == State(Some(caller.(rows := 1)), [], {})
            && Anywhere(RowKind, ops) == 1 + rows as nat
  {
    var caller := Spending(Limits(Some(1), None, None), None, 0, 0, 0);
    var s := State(Some(caller), [], {});
    var arm := Arm(Limits(None, None, None), 0, 0, 0);
    FiveCalls(s, Spend(1, 0), arm, Spend(rows, 0), Drop, Check(0));
    AnywhereOfFive(RowKind, Spend(1, 0), arm, Spend(rows, 0), Drop, Check(0));
  }

  /** A guard that allows no rows at all, and inside it one without limits: any number
      of rows passes under a caller allowed ten. */
  lemma DeeperRowsEscape(rows: U64)
    ensures var s := State(Some(Spending(Limits(Some(10), None, None), None, 0, 0, 0)), [], {});
            var none, free := Limits(Some(0), None, None), Limits(None, None, None);
            var ops := [Arm(none, 0, 0, 0), Arm(free, 0, 0, 0), Spend(rows, 0), Drop, Drop];
            AllFine(s, ops) && Run(s, ops) == s && Anywhere(RowKind, ops) == rows as nat
  {
    var s := State(Some(Spending(Limits(Some(10), None, None), None, 0, 0, 0)), [], {});
    var a, b := Arm(Limits(Some(0), None, None), 0, 0, 0), Arm(Limits(None, None, None), 0, 0, 0);
    FiveCalls(s, a, b, Spend(rows, 0), Drop, Drop);
    AnywhereOfFive(RowKind, a, b, Spend(rows, 0), Drop, Drop);
  }

  /** Two guards one after the other, each with no more than the caller's ten rows: twenty
      pass. */
  lemma SiblingsAddUp()
    ensures var s := State(Some(Spending(Limits(Some(10), None, None), None, 0, 0, 0)), [], {});
            var same := Limits(Some(10), None, None);
            var one := [Arm(same, 0, 0, 0), Spend(10, 0), Drop];
            var ops := one + one;
            AllFine(s, ops) && Run(s, ops) == s && Anywhere(RowKind, ops) == 20
  {
    var s := State(Some(Spending(Limits(Some(10), None, None), None, 0, 0, 0)), [], {});
    var a, b := Arm(Limits(Some(10), None, None), 0, 0, 0), Spend(10, 0);
    FiveCalls(s, a, b, Drop, a, b);
    AnywhereOfFive(RowKind, a, b, Drop, a, b);
    var five := [a, b, Drop, a, b];
    OneMore(s, five, Drop);
    assert [a, b, Drop] + [a, b, Drop] == five + [Drop];
    assert (five + [Drop])[..5] == five;
  }

  /** Bytes escape as rows do, through materialising too. */
  lemma BytesEscape(bytes: U64)
    ensures var s := State(Some(Spending(Limits(None, Some(0), None), None, 0, 0, 0)), [], {});
            var ops := [Arm(Limits(None, None, None), 0, 0, 0), Spend(0, bytes), Materialise(bytes, 0), Drop, Check(0)];
            AllFine(s, ops) && Run(s, ops) == s && Anywhere(ByteKind, ops) == 2 * bytes as nat
  {
    var s := State(Some(Spending(Limits(None, Some(0), None), None, 0, 0, 0)), [], {});
    var a := Arm(Limits(None, None, None), 0, 0, 0);
    FiveCalls(s, a, Spend(0, bytes), Materialise(bytes, 0), Drop, Check(0));
    AnywhereOfFive(ByteKind, a, Spend(0, bytes), Materialise(bytes, 0), Drop, Check(0));
  }

  lemma FiveCalls(s: State, a: Op, b: Op, c: Op, d: Op, e: Op)
    ensures var s1, s2, s3, s4 := Step(s, a), Step(Step(s, a).0, b), Step(Step(Step(s, a).0, b).0, c),
                                  Step(Step(Step(Step(s, a).0, b).0, c).0, d);
            var s5 := Step(s4.0, e);
            && Run(s, [a, b, c, d, e]) == s5.0
            && (AllFine(s, [a, b, c, d, e]) <==>
                  s1.1 == Fine && s2.1 == Fine && s3.1 == Fine && s4.1 == Fine && s5.1 == Fine)
  {
    hide Step, Run, AllFine, Nested, Depth;
    NothingRan(s);
    assert [] + [a] == [a] && [a] + [b] == [a, b] && [a, b] + [c] == [a, b, c];
    assert [a, b, c] + [d] == [a, b, c, d] && [a, b, c, d] + [e] == [a, b, c, d, e];
    OneMore(s, [], a);
    OneMore(s, [a], b);
    OneMore(s, [a, b], c);
    OneMore(s, [a, b, c], d);
    OneMore(s, [a, b, c, d], e);
  }

  lemma NothingRan(s: State)
    ensures Run(s, []) == s && AllFine(s, [])
  {
  }

  lemma AnywhereOfFive(kind: Kind, a: Op, b: Op, c: Op, d: Op, e: Op)
    ensures Anywhere(kind, [a, b, c, d, e])
         == Amount(kind, a) + Amount(kind, b) + Amount(kind, c) + Amount(kind, d) + Amount(kind, e)
  {
    hide Amount;
    AnywhereOneMore(kind, [a, b, c, d], e);
    AnywhereOneMore(kind, [a, b, c], d);
    AnywhereOneMore(kind, [a, b], c);
    AnywhereOneMore(kind, [a], b);
    AnywhereOneMore(kind, [], a);
    assert [] + [a] == [a] && [a] + [b] == [a, b] && [a, b] + [c] == [a, b, c];
    assert [a, b, c] + [d] == [a, b, c, d] && [a, b, c, d] + [e] == [a, b, c, d, e];
  }

  lemma AnywhereOneMore(kind: Kind, ops: seq<Op>, op: Op)
    ensures Anywhere(kind, ops + [op]) == Anywhere(kind, ops) + Amount(kind, op)
    ensures Anywhere(kind, []) == 0
  {
    assert (ops + [op])[..|ops|] == ops;
  }

  // ----- Deadlines -----

  /** At no point of a run of guards does a request go on past the time `end`. */
  ghost predicate StopsBy(s: State, sk: seq<Op>, end: nat) {
    forall i: nat, now: nat :: i <= |sk| && now >= end ==>
                                 CheckStep(Run(s, sk[..i]).active, false, now) == Refused(Time, 0, 0)
  }

  predicate EndsBy(sp: Spending, end: nat) {
    sp.deadline.Some? && sp.deadline.value <= end
  }

  /** While a nested guard is armed only its own deadline is looked at: a run stops by its
      caller's deadline at every point exactly when every guard in it, at any depth,
      is armed with a deadline no later. */
  lemma StopsByExactly(s: State, sk: seq<Op>)
    requires s.active.Some? && s.active.value.deadline.Some? && Nested(sk) && OnlyGuards(sk)
    ensures StopsBy(s, sk, s.active.value.deadline.value) <==>
            forall i :: 0 <= i < |sk| && Arms(sk[i]) ==> EndsBy(Armed(sk[i]), s.active.value.deadline.value)
  {
    hide Run, Step, Nested;
    var end := s.active.value.deadline.value;
    if forall i :: 0 <= i < |sk| && Arms(sk[i]) ==> EndsBy(Armed(sk[i]), end) {
      forall i: nat, now: nat | i <= |sk| && now >= end
        ensures CheckStep(Run(s, sk[..i]).active, false, now) == Refused(Time, 0, 0)
      {
        NestedPrefix(sk, i);
        AllEndBy(s, sk[..i], end);
      }
    } else {
      var i :| 0 <= i < |sk| && Arms(sk[i]) && !EndsBy(Armed(sk[i]), end);
      ArmedIsActive(s, sk, i);
      assert CheckStep(Run(s, sk[..i + 1]).active, false, end) == Fine;
    }
  }

  lemma ArmedIsActive(s: State, sk: seq<Op>, i: nat)
    requires i < |sk| && Arms(sk[i])
    ensures Run(s, sk[..i + 1]).active == Some(Armed(sk[i]))
  {
    assert sk[..i + 1] == sk[..i] + [sk[i]];
    OneMore(s, sk[..i], sk[i]);
  }

  lemma {:induction false} NestedPrefix(ops: seq<Op>, i: nat)
    requires i <= |ops| && Nested(ops)
    ensures Nested(ops[..i])
    decreases |ops|
  {
    if i < |ops| {
      assert ops[..|ops| - 1][..i] == ops[..i];
      NestedPrefix(ops[..|ops| - 1], i);
    } else {
      assert ops[..i] == ops;
    }
  }

  lemma {:induction false} AllEndBy(s: State, sk: seq<Op>, end: nat)
    requires s.active.Some? && EndsBy(s.active.value, end) && Nested(sk) && OnlyGuards(sk)
    requires forall i :: 0 <= i < |sk| && Arms(sk[i]) ==> EndsBy(Armed(sk[i]), end)
    ensures var after := Run(s, sk);
            && |after.guards| >= |s.guards| && after.active.Some? && EndsBy(after.active.value, end)
            && forall j :: |s.guards| <= j < |after.guards| ==>
                             after.guards[j].Some? && EndsBy(after.guards[j].value, end)
  {
    hide EndsBy, Armed;
    GuardsStay(s, sk);
    if sk != [] {
      var front, op := sk[..|sk| - 1], sk[|sk| - 1];
      assert forall i :: 0 <= i < |front| ==> front[i] == sk[i];
      AllEndBy(s, front, end);
      GuardsStay(s, front);
    }
  }

  /** A caller past its deadline is not refused while a guard without one is armed, and is
      refused again when that is dropped. */
  lemma NestedHidesTheDeadline(sp: Spending, rows: Limits, now: nat, last: nat)
    requires sp.deadline.Some? && now >= sp.deadline.value && rows.time == None
    ensures var s := State(Some(sp), [], {});
            var arm := Arm(rows, sp.cancel, now, last);
            && Step(s, Check(now)).1 == Refused(Time, 0, 0)
            && Step(Run(s, [arm]), Check(now)).1 == Fine
            && Step(Run(s, [arm, Drop]), Check(now)).1 == Refused(Time, 0, 0)
  {
    var s := State(Some(sp), [], {});
    var arm := Arm(rows, sp.cancel, now, last);
    OneMore(s, [], arm);
    OneMore(s, [arm], Drop);
    assert [] + [arm] == [arm] && [arm] + [Drop] == [arm, Drop];
  }
}
