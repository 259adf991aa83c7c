/** Whole runs of one thread's budget calls: what a guard puts back, what is
    counted where, and how far nested guards can carry a request. */
module BudgetRuns {
  import opened Budget
  import opened Wrappers

  /** A call on one thread, or another thread raising a flag. */
  datatype Op =
    | Arm(limits: Limits, cancel: nat, now: nat, last: nat)
    | ArmAsItStands(limits: Limits, cancel: nat, now: nat, last: nat)
    | Drop
    | Spend(rows: U64, bytes: U64)
    | Materialise(held: U64, at: nat)
    | Check(when: nat)
    | Raise(flag: nat)

  /** The budget in force, what each guard that is alive will put back, the latest
      last, and the flags that are raised. */
  datatype State = State(active: Option<Spending>, guards: seq<Option<Spending>>, raised: set<nat>)

  predicate Arms(op: Op) {
    op.Arm? || op.ArmAsItStands?
  }

  function Armed(op: Op): Spending
    requires Arms(op)
  {
    Fresh(op.limits, op.cancel, op.now, op.last)
  }

  predicate IsCancelled(s: State) {
    s.active.Some? && s.active.value.cancel in s.raised
  }

  function Step(s: State, op: Op): (State, Outcome) {
    match op
    case Arm(_, cancel, _, _) => (State(Some(Armed(op)), s.guards + [s.active], s.raised - {cancel}), Fine)
    case ArmAsItStands(_, _, _, _) => (State(Some(Armed(op)), s.guards + [s.active], s.raised), Fine)
    case Drop =>
      if s.guards == [] then (s, Fine)
      else (s.(active := s.guards[|s.guards| - 1], guards := s.guards[..|s.guards| - 1]), Fine)
    case Spend(rows, bytes) => (s.(active := SpendStep(s.active, rows, bytes).0), SpendStep(s.active, rows, bytes).1)
    case Materialise(bytes, now) =>
      (s.(active := MaterialiseStep(s.active, bytes, IsCancelled(s), now).0),
       MaterialiseStep(s.active, bytes, IsCancelled(s), now).1)
    case Check(now) => (s, CheckStep(s.active, IsCancelled(s), now))
    case Raise(flag) => (s.(raised := s.raised + {flag}), Fine)
  }

  function Run(s: State, ops: seq<Op>): State {
    if ops == [] then s else Step(Run(s, ops[..|ops| - 1]), ops[|ops| - 1]).0
  }

  predicate AllFine(s: State, ops: seq<Op>) {
    ops != [] ==> AllFine(s, ops[..|ops| - 1]) && Step(Run(s, ops[..|ops| - 1]), ops[|ops| - 1]).1 == Fine
  }

  function Turn(op: Op): int {
    if Arms(op) then 1 else if op.Drop? then -1 else 0
  }

  /** How many more guards are alive after the calls than before. */
  function Depth(ops: seq<Op>): int {
    if ops == [] then 0 else Depth(ops[..|ops| - 1]) + Turn(ops[|ops| - 1])
  }

  /** Calls that drop no guard they did not arm. */
  predicate Nested(ops: seq<Op>) {
    ops != [] ==> Nested(ops[..|ops| - 1]) && Depth(ops) >= 0
  }

  /** Calls that also drop every guard they armed. */
  predicate Balanced(ops: seq<Op>) {
    Nested(ops) && Depth(ops) == 0
  }

  lemma OneMore(s: State, ops: seq<Op>, op: Op)
    ensures Run(s, ops + [op]) == Step(Run(s, ops), op).0
    ensures AllFine(s, ops + [op]) <==> AllFine(s, ops) && Step(Run(s, ops), op).1 == Fine
    ensures Depth(ops + [op]) == Depth(ops) + Turn(op)
    ensures Nested(ops + [op]) <==> Nested(ops) && Depth(ops) + Turn(op) >= 0
  {
    assert (ops + [op])[..|ops|] == ops;
  }

  // ----- What a guard puts back -----

  /** The guards that were alive are untouched by any calls that do not drop them. */
  lemma {:induction false} GuardsStay(s: State, ops: seq<Op>)
    requires Nested(ops)
    ensures |Run(s, ops).guards| == |s.guards| + Depth(ops)
    ensures Run(s, ops).guards[..|s.guards|] == s.guards
  {
    if ops != [] {
      GuardsStay(s, ops[..|ops| - 1]);
    }
  }

  lemma {:induction false} RunFrom(s: State, op: Op, ops: seq<Op>)
    ensures Run(s, [op] + ops) == Run(Step(s, op).0, ops)
  {
    hide Step;
    if ops == [] {
      assert [op] + ops == [op] && [op][..0] == [];
    } else {
      RunFrom(s, op, ops[..|ops| - 1]);
      assert ([op] + ops)[..|ops|] == [op] + ops[..|ops| - 1];
    }
  }

  /** Arming, any balanced calls, and dropping leave the caller's counters, limits and
      deadline, which flag is its, and its guards as they were. What they leave of
      the flags themselves is `FlagSurvives`. */
  lemma DropRestores(s: State, arm: Op, body: seq<Op>)
    requires Arms(arm) && Balanced(body)
    ensures var after := Run(s, [arm] + body + [Drop]);
            after.active == s.active && after.guards == s.guards
  {
    hide Run, AllFine, Nested, Depth, Fresh;
    var armed := Step(s, arm).0;
    RunFrom(s, arm, body);
    GuardsStay(armed, body);
    OneMore(s, [arm] + body, Drop);
  }

  // ----- What becomes of a flag -----

  /** The flag was raised to begin with, or by the call before place `i`. */
  predicate RaisedBy(s: State, ops: seq<Op>, i: nat, flag: nat) {
    i <= |ops| && if i == 0 then flag in s.raised else ops[i - 1] == Raise(flag)
  }

  /** From place `i` on no `Arm` names the flag. */
  predicate Unnamed(ops: seq<Op>, i: nat, flag: nat) {
    forall j :: i <= j < |ops| ==> !(ops[j].Arm? && ops[j].cancel == flag)
  }

  /** A flag is raised after some calls exactly when no `Arm` has named it since it was
      last raised. */
  lemma {:induction false} FlagSurvives(s: State, ops: seq<Op>, flag: nat)
    ensures flag in Run(s, ops).raised <==> exists i: nat :: RaisedBy(s, ops, i, flag) && Unnamed(ops, i, flag)
  {
    if ops == [] {
      assert flag in s.raised ==> RaisedBy(s, ops, 0, flag) && Unnamed(ops, 0, flag);
    } else {
      var front, op := ops[..|ops| - 1], ops[|ops| - 1];
      FlagSurvives(s, front, flag);
      if i: nat :| RaisedBy(s, front, i, flag) && Unnamed(front, i, flag) {
        assert !(op.Arm? && op.cancel == flag) ==> RaisedBy(s, ops, i, flag) && Unnamed(ops, i, flag);
      }
      if op == Raise(flag) {
        assert RaisedBy(s, ops, |ops|, flag) && Unnamed(ops, |ops|, flag);
      } else if i: nat :| RaisedBy(s, ops, i, flag) && Unnamed(ops, i, flag) {
        assert RaisedBy(s, front, i, flag) && Unnamed(front, i, flag);
        assert !(ops[|front|].Arm? && ops[|front|].cancel == flag);
      }
    }
  }

  // ----- What a request costs, whoever else spends meanwhile -----

  /** The two things a budget counts. */
  datatype Kind = RowKind | ByteKind

  function Counter(kind: Kind, sp: Spending): U64 {
    if kind == RowKind then sp.rows else sp.bytes
  }

  function Limit(kind: Kind, limits: Limits): Option<U64> {
    if kind == RowKind then limits.rows else limits.bytes
  }

  /** What one call asks to be charged. */
  function Amount(kind: Kind, op: Op): U64 {
    match op
    case Spend(rows, bytes) => if kind == RowKind then rows else bytes
    case Materialise(bytes, _) => if kind == RowKind then 0 else bytes
    case _ => 0
  }

  /** What one call charges the budget in force: a stopped request's materialising is
      not charged. */
  function Charge(kind: Kind, s: State, op: Op): U64 {
    if op.Materialise? && s.active.Some? && Stopped(s.active.value, IsCancelled(s), op.at) != Fine then 0
    else Amount(kind, op)
  }

  /** The saturating sum of what the calls charged the budget in force when they
      began: not the calls under a guard armed and dropped in between. */
  function OwnCharged(kind: Kind, s: State, ops: seq<Op>): U64 {
    if ops == [] then 0
    else
      var front, op := ops[..|ops| - 1], ops[|ops| - 1];
      if Depth(front) == 0 then Sat(OwnCharged(kind, s, front), Charge(kind, Run(s, front), op))
      else OwnCharged(kind, s, front)
  }

  /** What has become, after the calls, of the budget in force when they began: it is
      still in force, or the guard armed first will put it back. */
  function Kept(s: State, ops: seq<Op>): Option<Spending>
    requires Nested(ops)
  {
    var after := Run(s, ops);
    if Depth(ops) == 0 then after.active
    else if |s.guards| < |after.guards| then after.guards[|s.guards|] else None
  }

  /** One more call charges the kept budget if it runs under it, and otherwise leaves
      it alone. */
  lemma KeptStep(s: State, ops: seq<Op>, op: Op)
    requires Nested(ops + [op]) && Nested(ops) && Kept(s, ops).Some?
    ensures Kept(s, ops + [op]) ==
            if Depth(ops) == 0
            then Some(Charged(Kept(s, ops).value, Charge(RowKind, Run(s, ops), op), Charge(ByteKind, Run(s, ops), op)))
            else Kept(s, ops)
  {
    GuardsStay(s, ops);
    GuardsStay(s, ops + [op]);
    OneMore(s, ops, op);
    hide Run, Nested, Depth, AllFine, Verdict, DeadlineOf, Stopped;
  }

  /** A budget's limits, deadline and flag never change, and its counters are the
      saturating sums of its own charges, whatever nested guards do meanwhile. */
  lemma {:induction false} CountersAreSums(s: State, ops: seq<Op>)
    requires Nested(ops) && s.active.Some?
    ensures Kept(s, ops) == Some(Charged(s.active.value, OwnCharged(RowKind, s, ops), OwnCharged(ByteKind, s, ops)))
  {
    hide Step, Charge;
    if ops != [] {
      var front, op := ops[..|ops| - 1], ops[|ops| - 1];
      assert ops == front + [op];
      CountersAreSums(s, front);
      KeptStep(s, front, op);
      SatAssociates(s.active.value.rows, OwnCharged(RowKind, s, front), Charge(RowKind, Run(s, front), op));
      SatAssociates(s.active.value.bytes, OwnCharged(ByteKind, s, front), Charge(ByteKind, Run(s, front), op));
    }
  }

  /** What a statement holds is never counted as rows: without a charge of rows to it a
      budget's row counter stays as it was. */
  lemma {:induction false} HoldingCountsNoRows(s: State, ops: seq<Op>)
    requires Nested(ops) && s.active.Some?
    requires forall i :: 0 <= i < |ops| ==> !ops[i].Spend? || Depth(ops[..i]) > 0
    ensures Kept(s, ops).Some? && Kept(s, ops).value.rows == s.active.value.rows
  {
    hide Step, Kept;
    if ops == [] {
      CountersAreSums(s, ops);
    } else {
      var front, op := ops[..|ops| - 1], ops[|ops| - 1];
      assert ops == front + [op];
      forall i | 0 <= i < |front| ensures !front[i].Spend? || Depth(front[..i]) > 0 {
        assert front[..i] == ops[..i];
      }
      HoldingCountsNoRows(s, front);
      KeptStep(s, front, op);
      assert ops[..|front|] == front;
    }
  }

  /** After any balanced calls the caller is found cancelled exactly when no `Arm` among
      them has named its flag since that flag was last raised. */
  lemma CancellationSurvives(s: State, ops: seq<Op>, now: nat)
    requires s.active.Some? && Balanced(ops)
    ensures Step(Run(s, ops), Check(now)).1 == Refused(Cancelled, 0, 0) <==>
            exists i: nat ::
              RaisedBy(s, ops, i, s.active.value.cancel) && Unnamed(ops, i, s.active.value.cancel)
  {
    hide Run, OwnCharged, RaisedBy, Unnamed;
    CountersAreSums(s, ops);
    FlagSurvives(s, ops, s.active.value.cancel);
  }

  /** A nested request armed on its caller's flag wipes a cancellation that has already
      arrived: the caller was stopped before it and is not stopped after it. */
  lemma NestedArmLosesCancellation(sp: Spending, limits: Limits, now: nat, last: nat)
    requires sp.deadline.None?
    ensures var s := State(Some(sp), [], {sp.cancel});
            var after := Run(s, [Arm(limits, sp.cancel, now, last), Drop]);
            && Step(s, Check(now)).1 == Refused(Cancelled, 0, 0)
            && after == State(Some(sp), [], {}) && Step(after, Check(now)).1 == Fine
  {
    hide DeadlineOf;
    var s := State(Some(sp), [], {sp.cancel});
    var arm := Arm(limits, sp.cancel, now, last);
    OneMore(s, [], arm);
    OneMore(s, [arm], Drop);
    assert [] + [arm] == [arm] && [arm] + [Drop] == [arm, Drop];
  }

  // ----- When a request is refused -----

  /** A charge is refused exactly when it takes the running total of its own request
      past a limit; rows are named before bytes. */
  lemma RefusedExactlyPastALimit(s: State, ops: seq<Op>, rows: U64, bytes: U64)
    requires s.active.Some? && s.active.value.rows == 0 && s.active.value.bytes == 0 && Balanced(ops)
    ensures var sp := s.active.value;
            var outcome := Step(Run(s, ops), Spend(rows, bytes)).1;
            var allRows := Sat(OwnCharged(RowKind, s, ops), rows);
            var allBytes := Sat(OwnCharged(ByteKind, s, ops), bytes);
            && (outcome == Fine <==> !Over(allRows, sp.limits.rows) && !Over(allBytes, sp.limits.bytes))
            && (Over(allRows, sp.limits.rows) ==> outcome == Refused(Rows, allRows, sp.limits.rows.value))
            && (outcome.Refused? ==> outcome.what == Rows || outcome == Refused(Bytes, allBytes, sp.limits.bytes.value))
  {
    CountersAreSums(s, ops);
    hide OwnCharged, Run;
  }

  lemma SatGrows(a: U64, b: U64)
    ensures Sat(a, b) >= a
  {
  }

  /** After a refusal every later charge under the same guard is refused. */
  lemma RefusedForGood(s: State, rows: U64, bytes: U64, ops: seq<Op>, moreRows: U64, moreBytes: U64)
    requires Step(s, Spend(rows, bytes)).1 != Fine && Balanced(ops)
    ensures Step(Run(Step(s, Spend(rows, bytes)).0, ops), Spend(moreRows, moreBytes)).1 != Fine
  {
    var refused := Step(s, Spend(rows, bytes)).0;
    CountersAreSums(refused, ops);
    var sp := refused.active.value;
    hide OwnCharged, Run;
    SatGrows(sp.rows, OwnCharged(RowKind, refused, ops));
    SatGrows(sp.bytes, OwnCharged(ByteKind, refused, ops));
    SatGrows(Sat(sp.rows, OwnCharged(RowKind, refused, ops)), moreRows);
    SatGrows(Sat(sp.bytes, OwnCharged(ByteKind, refused, ops)), moreBytes);
  }
}
