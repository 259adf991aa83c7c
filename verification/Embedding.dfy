/** Embedding texts in requests bounded by tokens, several in flight, with the
    answer of one after another. */
module Embedding {
  import opened Numbers
  import opened Wrappers

  datatype Fault =
    | Untokenized | Undecoded | DoesNotConverge
    | NoReply | NoData | WrongCount | NoIndex | IndexOutOfRange | NoEmbedding | WrongWidth | RowSkipped
    | NoAnswer(index: nat) | WrongTotal

  type Text = string
  type Token = nat

  /** A vector as the bit patterns of its values. */
  type Vector = seq<bv32>

  function Minus(a: nat, b: nat): nat {
    if a < b then 0 else a - b
  }

  // ----- Cutting one text to the bound -----

  const MARGIN: nat := 8
  const ROUNDS: nat := 5

  /** The tokenizer, as the two functions it is asked for. */
  datatype Tokenizer = Tokenizer(encode: Text -> Option<seq<Token>>, decode: seq<Token> -> Option<Text>)

  predicate Fits(t: Tokenizer, text: Text, bound: nat) {
    t.encode(text).Some? && |t.encode(text).value| <= bound
  }

  /** Rounds of cutting: keep some tokens, turn them back into text, and look
      again. */
  function Cut(t: Tokenizer, text: Text, keep: nat, bound: nat, rounds: nat): Result<Text, Fault>
    decreases rounds
  {
    if rounds == 0 then Err(DoesNotConverge)
    else match t.encode(text)
      case None => Err(Untokenized)
      case Some(ids) =>
        if |ids| <= bound then Ok(text)
        else match t.decode(ids[..Min(keep, |ids|)])
          case None => Err(Undecoded)
          case Some(shorter) => Cut(t, shorter, Max(Minus(keep, 16), 1), bound, rounds - 1)
  }

  /** Cuts a text to at most the bound, at a token boundary, and proves it. */
  method TruncateToBound(t: Tokenizer, text: Text, bound: nat) returns (r: Result<Text, Fault>)
    ensures r == Cut(t, text, Max(Minus(bound, MARGIN), 1), bound, ROUNDS)
  {
    var keep := Max(Minus(bound, MARGIN), 1);
    var cut := text;
    for round := 0 to ROUNDS
      invariant Cut(t, cut, keep, bound, ROUNDS - round) == Cut(t, text, Max(Minus(bound, MARGIN), 1), bound, ROUNDS)
    {
      var encoded := t.encode(cut);
      if encoded.None? {
        return Err(Untokenized);
      }
      if |encoded.value| <= bound {
        return Ok(cut);
      }
      var ids := encoded.value[..Min(keep, |encoded.value|)];
      var shorter := t.decode(ids);
      if shorter.None? {
        return Err(Undecoded);
      }
      cut := shorter.value;
      keep := Max(Minus(keep, 16), 1);
    }
    r := Err(DoesNotConverge);
  }

  /** Whatever the tokenizer does, a text that is sent is within the bound; a text
      that was within it is sent as it was. */
  lemma {:induction false} WhatIsSentFits(t: Tokenizer, text: Text, keep: nat, bound: nat, rounds: nat)
    ensures var r := Cut(t, text, keep, bound, rounds);
            && (r.Ok? ==> Fits(t, r.value, bound))
            && (rounds > 0 && Fits(t, text, bound) ==> r == Ok(text))
    decreases rounds
  {
    if rounds > 0 && t.encode(text).Some? && |t.encode(text).value| > bound {
      var ids := t.encode(text).value;
      var shorter := t.decode(ids[..Min(keep, |ids|)]);
      if shorter.Some? {
        WhatIsSentFits(t, shorter.value, Max(Minus(keep, 16), 1), bound, rounds - 1);
      }
    }
  }

  // ----- The batches -----

  datatype Batch = Batch(start: nat, end: nat)

  function Total(costs: seq<nat>, from: nat, to: nat): nat
    requires from <= to <= |costs|
  {
    if from == to then 0 else Total(costs, from, to - 1) + costs[to - 1]
  }

  /** A batch is one text, or within both the token budget and the text limit. */
  predicate Within(costs: seq<nat>, b: Batch, budget: nat, most: nat)
    requires b.start < b.end <= |costs|
  {
    b.end == b.start + 1 || (Total(costs, b.start, b.end) <= budget && b.end - b.start <= most)
  }

  /** The next text would have been one too many. */
  predicate Full(costs: seq<nat>, b: Batch, budget: nat, most: nat)
    requires b.start < b.end <= |costs|
  {
    b.end < |costs| ==> Total(costs, b.start, b.end + 1) > budget || b.end - b.start >= most
  }

  /** Consecutive non-empty batches from one text up to another, each as full as the
      limits allow. */
  predicate IsPlan(costs: seq<nat>, batches: seq<Batch>, from: nat, to: nat, budget: nat, most: nat)
    requires from <= |costs|
    decreases |batches|
  {
    if batches == [] then from == to
    else
      var b := batches[0];
      && b.start == from && b.start < b.end <= |costs|
      && Within(costs, b, budget, most) && Full(costs, b, budget, most)
      && IsPlan(costs, batches[1..], b.end, to, budget, most)
  }

  lemma {:induction false} TotalGrows(costs: seq<nat>, from: nat, to: nat, further: nat)
    requires from <= to <= further <= |costs|
    ensures Total(costs, from, to) <= Total(costs, from, further)
  {
    if to < further {
      TotalGrows(costs, from, to, further - 1);
    }
  }

  /** The limits leave no choice: there is only one such partition. */
  lemma {:induction false} PlanIsUnique(
    costs: seq<nat>, one: seq<Batch>, other: seq<Batch>, from: nat, budget: nat, most: nat)
    requires from <= |costs|
    requires IsPlan(costs, one, from, |costs|, budget, most) && IsPlan(costs, other, from, |costs|, budget, most)
    ensures one == other
    decreases |one|
  {
    if one != [] && other != [] {
      if one[0].end < other[0].end {
        NoLongerBatch(costs, one[0], other[0], budget, most);
      } else if other[0].end < one[0].end {
        NoLongerBatch(costs, other[0], one[0], budget, most);
      }
      PlanIsUnique(costs, one[1..], other[1..], one[0].end, budget, most);
      assert one == [one[0]] + one[1..] && other == [other[0]] + other[1..];
    }
  }

  lemma NoLongerBatch(costs: seq<nat>, a: Batch, b: Batch, budget: nat, most: nat)
    requires a.start == b.start && a.start < a.end <= |costs| && b.start < b.end <= |costs|
    requires Full(costs, a, budget, most) && Within(costs, b, budget, most)
    ensures b.end <= a.end
  {
    if a.end < b.end {
      TotalGrows(costs, a.start, a.end + 1, b.end);
    }
  }

  lemma {:induction false} PlanGrows(
    costs: seq<nat>, batches: seq<Batch>, from: nat, b: Batch, budget: nat, most: nat)
    requires from <= |costs| && IsPlan(costs, batches, from, b.start, budget, most)
    requires b.start < b.end <= |costs| && Within(costs, b, budget, most) && Full(costs, b, budget, most)
    ensures IsPlan(costs, batches + [b], from, b.end, budget, most)
    decreases |batches|
  {
    if batches == [] {
      assert [b][1..] == [];
    } else {
      PlanGrows(costs, batches[1..], batches[0].end, b, budget, most);
      assert (batches + [b])[1..] == batches[1..] + [b];
    }
  }

  /** What a batch of the plan is. */
  lemma {:induction false} PlanBatches(
    costs: seq<nat>, batches: seq<Batch>, from: nat, to: nat, budget: nat, most: nat, i: nat)
    requires from <= |costs| && IsPlan(costs, batches, from, to, budget, most) && i < |batches|
    ensures batches[i].start < batches[i].end <= |costs|
    ensures batches[i].start == if i == 0 then from else batches[i - 1].end
    ensures i == |batches| - 1 ==> batches[i].end == to
    ensures Within(costs, batches[i], budget, most) && Full(costs, batches[i], budget, most)
    decreases |batches|
  {
    if i > 0 {
      PlanBatches(costs, batches[1..], batches[0].end, to, budget, most, i - 1);
    }
  }

  /** What a text of `count` tokens costs a batch. */
  function Cost(count: nat, bound: nat): nat {
    Max(Min(count, bound), 1)
  }

  function Costs(counts: seq<nat>, bound: nat): (costs: seq<nat>)
    ensures |costs| == |counts|
  {
    seq(|counts|, i requires 0 <= i < |counts| => Cost(counts[i], bound))
  }

  /** The end of the batch that starts at a text: as far as the limits allow. */
  method NextBatch(counts: seq<nat>, bound: nat, start: nat, budget: nat, most: nat) returns (end: nat)
    requires start < |counts|
    ensures start < end <= |counts|
    ensures Within(Costs(counts, bound), Batch(start, end), budget, most)
    ensures Full(Costs(counts, bound), Batch(start, end), budget, most)
  {
    ghost var costs := Costs(counts, bound);
    end := start;
    var spent: nat := 0;
    while end < |counts|
      invariant start <= end <= |counts| && spent == Total(costs, start, end)
      invariant end > start + 1 ==> spent <= budget && end - start <= most
      invariant end == start ==> end < |counts|
    {
      var cost := Cost(counts[end], bound);
      if end > start && (spent + cost > budget || end - start >= most) {
        break;
      }
      spent := spent + cost;
      end := end + 1;
    }
  }

  /** The batches, decided before any of them is sent. */
  method MakeBatches(counts: seq<nat>, bound: nat, budget: nat, most: nat) returns (batches: seq<Batch>)
    ensures IsPlan(Costs(counts, bound), batches, 0, |counts|, budget, most)
  {
    batches := [];
    var start: nat := 0;
    while start < |counts|
      invariant start <= |counts| && IsPlan(Costs(counts, bound), batches, 0, start, budget, most)
    {
      var end := NextBatch(counts, bound, start, budget, most);
      PlanGrows(Costs(counts, bound), batches, 0, Batch(start, end), budget, most);
      batches := batches + [Batch(start, end)];
      start := end;
    }
  }

  // ----- One request -----

  /** A row of a reply: its index and its vector, either of which may be missing. */
  datatype Row = Row(index: Option<nat>, embedding: Option<Vector>)

  datatype Reply = Failed(fault: Fault) | Data(rows: seq<Row>)

  function RowFault(row: Row, n: nat, dims: nat): Option<Fault> {
    if row.index.None? then Some(NoIndex)
    else if row.index.value >= n then Some(IndexOutOfRange)
    else if row.embedding.None? then Some(NoEmbedding)
    else if |row.embedding.value| != dims then Some(WrongWidth)
    else None
  }

  predicate RowIsFine(row: Row, n: nat, dims: nat) {
    RowFault(row, n, dims).None?
  }

  /** The rows put in their places, or the first fault among them. */
  function PlaceRows(rows: seq<Row>, n: nat, dims: nat): (r: Result<seq<Vector>, Fault>)
    ensures r.Ok? ==> |r.value| == n
  {
    if rows == [] then Ok(seq(n, _ => []))
    else
      var before := PlaceRows(rows[..|rows| - 1], n, dims);
      var row := rows[|rows| - 1];
      if before.Err? then before
      else match RowFault(row, n, dims)
        case Some(fault) => Err(fault)
        case None => Ok(before.value[row.index.value := row.embedding.value])
  }

  predicate NoneEmpty(vectors: seq<Vector>) {
    forall i :: 0 <= i < |vectors| ==> vectors[i] != []
  }

  function Answer(n: nat, dims: nat, reply: Reply): Result<seq<Vector>, Fault> {
    match reply
    case Failed(fault) => Err(fault)
    case Data(rows) =>
      if |rows| != n then Err(WrongCount)
      else
        var placed := PlaceRows(rows, n, dims);
        if placed.Ok? && !NoneEmpty(placed.value) then Err(RowSkipped) else placed
  }

  /** One request: its reply's rows are put where their indices say, and no place
      may be left empty. */
  method Request(texts: seq<Text>, dims: nat, server: seq<Text> -> Reply) returns (r: Result<seq<Vector>, Fault>)
    ensures r == Answer(|texts|, dims, server(texts))
  {
    hide PlaceRows, RowFault;
    var reply := server(texts);
    if reply.Failed? {
      return Err(reply.fault);
    }
    var rows := reply.rows;
    if |rows| != |texts| {
      return Err(WrongCount);
    }
    var out: array<Vector> := new Vector[|texts|](_ => []);
    NothingPlaced(|texts|, dims);
    assert rows[..0] == [] && out[..] == seq(|texts|, _ => []);
    for k := 0 to |rows|
      invariant PlaceRows(rows[..k], |texts|, dims) == Ok(out[..])
    {
      PlaceOneMore(rows, k, |texts|, dims);
      var row := rows[k];
      if RowFault(row, |texts|, dims).Some? {
        FaultStays(rows, k + 1, |texts|, dims);
        return Err(RowFault(row, |texts|, dims).value);
      }
      out[row.index.value] := row.embedding.value;
    }
    assert rows[..|rows|] == rows;
    var k := 0;
    while k < out.Length
      invariant 0 <= k <= out.Length && forall i :: 0 <= i < k ==> out[i] != []
    {
      if out[k] == [] {
        return Err(RowSkipped);
      }
      k := k + 1;
    }
    r := Ok(out[..]);
  }

  lemma NothingPlaced(n: nat, dims: nat)
    ensures PlaceRows([], n, dims) == Ok(seq(n, _ => []))
  {
  }

  lemma PlaceOneMore(rows: seq<Row>, k: nat, n: nat, dims: nat)
    requires k < |rows| && PlaceRows(rows[..k], n, dims).Ok?
    ensures match RowFault(rows[k], n, dims)
            case Some(fault) => PlaceRows(rows[..k + 1], n, dims) == Err(fault)
            case None =>
              && rows[k].index.Some? && rows[k].index.value < n && rows[k].embedding.Some?
              && PlaceRows(rows[..k + 1], n, dims)
                 == Ok(PlaceRows(rows[..k], n, dims).value[rows[k].index.value := rows[k].embedding.value])
  {
    assert rows[..k + 1][..k] == rows[..k];
  }

  lemma {:induction false} FaultStays(rows: seq<Row>, k: nat, n: nat, dims: nat)
    requires k <= |rows| && PlaceRows(rows[..k], n, dims).Err?
    ensures PlaceRows(rows, n, dims) == PlaceRows(rows[..k], n, dims)
    decreases |rows|
  {
    if k < |rows| {
      var front := rows[..|rows| - 1];
      assert front[..k] == rows[..k];
      FaultStays(front, k, n, dims);
    } else {
      assert rows[..k] == rows;
    }
  }

  // ----- An accepted reply is a permutation -----

  function Below(n: nat): (s: set<nat>)
    ensures |s| == n && forall v: nat :: v in s <==> v < n
  {
    if n == 0 then {} else Below(n - 1) + {n - 1}
  }

  function Elements(s: seq<nat>): (r: set<nat>)
    ensures |r| <= |s| && forall v: nat :: v in r <==> v in s
  {
    if s == [] then {} else Elements(s[..|s| - 1]) + {s[|s| - 1]}
  }

  predicate Distinct(s: seq<nat>) {
    forall i, j :: 0 <= i < j < |s| ==> s[i] != s[j]
  }

  lemma {:induction false} DistinctCount(s: seq<nat>)
    ensures Distinct(s) <==> |Elements(s)| == |s|
  {
    if s != [] {
      var front, last := s[..|s| - 1], s[|s| - 1];
      DistinctCount(front);
      assert s == front + [last];
      if last in front {
        assert Elements(s) == Elements(front);
      }
      assert Distinct(s) <==> Distinct(front) && last !in front;
    }
  }

  lemma {:induction false} SubsetCount(a: set<nat>, b: set<nat>)
    requires a <= b
    ensures |a| <= |b| && (|a| == |b| ==> a == b)
  {
    if v :| v in a {
      SubsetCount(a - {v}, b - {v});
    }
  }

  /** `n` numbers below `n` are all of them exactly when none comes twice. */
  lemma Pigeonhole(s: seq<nat>, n: nat)
    requires |s| == n && forall i :: 0 <= i < n ==> s[i] < n
    ensures Distinct(s) <==> forall v: nat :: v < n ==> v in s
  {
    DistinctCount(s);
    assert Elements(s) <= Below(n);
    SubsetCount(Elements(s), Below(n));
    if forall v: nat :: v < n ==> v in s {
      assert Elements(s) == Below(n);
    }
  }

  predicate AllFine(rows: seq<Row>, n: nat, dims: nat) {
    forall k :: 0 <= k < |rows| ==> RowIsFine(rows[k], n, dims)
  }

  function Indices(rows: seq<Row>, n: nat, dims: nat): (s: seq<nat>)
    requires AllFine(rows, n, dims)
    ensures |s| == |rows|
  {
    seq(|rows|, k requires 0 <= k < |rows| => rows[k].index.value)
  }

  lemma {:induction false} PlacedWhenFine(rows: seq<Row>, n: nat, dims: nat)
    ensures PlaceRows(rows, n, dims).Ok? <==> AllFine(rows, n, dims)
  {
    if rows != [] {
      PlacedWhenFine(rows[..|rows| - 1], n, dims);
      assert AllFine(rows, n, dims) <==>
             AllFine(rows[..|rows| - 1], n, dims) && RowIsFine(rows[|rows| - 1], n, dims);
    }
  }

  /** With vectors of a positive width a place is empty only if no row is for it. */
  lemma {:induction false} PlaceIsFilled(rows: seq<Row>, n: nat, dims: nat, i: nat)
    requires AllFine(rows, n, dims) && i < n
    ensures PlaceRows(rows, n, dims).Ok?
    ensures var v := PlaceRows(rows, n, dims).value[i];
            if i in Indices(rows, n, dims) then |v| == dims else v == []
  {
    PlacedWhenFine(rows, n, dims);
    if rows != [] {
      var front, last := rows[..|rows| - 1], rows[|rows| - 1];
      assert RowIsFine(last, n, dims);
      PlaceIsFilled(front, n, dims, i);
      assert Indices(rows, n, dims) == Indices(front, n, dims) + [last.index.value];
    }
  }

  lemma DistinctPrefix(s: seq<nat>, v: nat)
    requires Distinct(s + [v])
    ensures Distinct(s)
  {
    forall i, j | 0 <= i < j < |s| ensures s[i] != s[j] {
      assert (s + [v])[i] != (s + [v])[j];
    }
  }

  /** With no index twice each row's vector is where its index says. */
  lemma {:induction false} RowIsInPlace(rows: seq<Row>, n: nat, dims: nat, k: nat)
    requires AllFine(rows, n, dims) && Distinct(Indices(rows, n, dims)) && k < |rows|
    ensures PlaceRows(rows, n, dims).Ok? && rows[k].index.Some? && rows[k].index.value < n && rows[k].embedding.Some?
    ensures PlaceRows(rows, n, dims).value[rows[k].index.value] == rows[k].embedding.value
  {
    PlacedWhenFine(rows, n, dims);
    assert RowIsFine(rows[k], n, dims);
    if k < |rows| - 1 {
      var front, last := rows[..|rows| - 1], rows[|rows| - 1];
      assert Indices(rows, n, dims) == Indices(front, n, dims) + [last.index.value];
      DistinctPrefix(Indices(front, n, dims), last.index.value);
      assert Indices(rows, n, dims)[k] != Indices(rows, n, dims)[|rows| - 1];
      RowIsInPlace(front, n, dims, k);
    }
  }

  /** A reply is accepted exactly when its rows are well formed and their indices are
      a permutation of the places, and then every vector is in its place. Of a model
      of width zero nothing but the empty request is accepted. */
  lemma AnswerIsAPermutation(n: nat, dims: nat, rows: seq<Row>)
    ensures var r := Answer(n, dims, Data(rows));
            && (r.Ok? <==>
                  |rows| == n && AllFine(rows, n, dims) && (n == 0 || (dims > 0 && Distinct(Indices(rows, n, dims)))))
            && (r.Ok? ==> |r.value| == n && forall k :: 0 <= k < n ==>
                  rows[k].index.value < n && rows[k].embedding.Some?
                  && r.value[rows[k].index.value] == rows[k].embedding.value)
            && (r.Ok? ==> forall i: nat :: i < n ==> i in Indices(rows, n, dims) && |r.value[i]| == dims)
  {
    hide PlaceRows;
    PlacedWhenFine(rows, n, dims);
    if |rows| == n && AllFine(rows, n, dims) {
      var indices := Indices(rows, n, dims);
      forall i | 0 <= i < n ensures indices[i] < n {
        assert RowIsFine(rows[i], n, dims);
      }
      Pigeonhole(indices, n);
      var placed := PlaceRows(rows, n, dims).value;
      forall i: nat | i < n ensures if i in indices then |placed[i]| == dims else placed[i] == [] {
        PlaceIsFilled(rows, n, dims, i);
      }
      if n > 0 && dims == 0 {
        assert placed[0] == [];
      } else if i: nat :| i < n && i !in indices {
        assert placed[i] == [];
      }
      if Distinct(indices) {
        forall k: nat | k < n
          ensures rows[k].index.value < n && rows[k].embedding.Some?
          ensures placed[rows[k].index.value] == rows[k].embedding.value
        {
          RowIsInPlace(rows, n, dims, k);
        }
      }
    }
  }

  // ----- Answers in batch order -----

  type Reading = Result<seq<Vector>, Fault>

  /** The vectors of all the answers, or the fault of the first that failed. */
  function InOrder(answers: seq<Reading>): Reading {
    if answers == [] then Ok([])
    else
      var before := InOrder(answers[..|answers| - 1]);
      var last := answers[|answers| - 1];
      if before.Err? then before
      else if last.Err? then last
      else Ok(before.value + last.value)
  }

  lemma {:induction false} FirstFaultStays(answers: seq<Reading>, k: nat)
    requires k <= |answers| && InOrder(answers[..k]).Err?
    ensures InOrder(answers) == InOrder(answers[..k])
    decreases |answers|
  {
    if k < |answers| {
      assert answers[..|answers| - 1][..k] == answers[..k];
      FirstFaultStays(answers[..|answers| - 1], k);
    } else {
      assert answers[..k] == answers;
    }
  }

  /** A fault that is reported is that of the lowest batch that has one. */
  lemma {:induction false} LowestFault(answers: seq<Reading>, k: nat)
    requires k < |answers| && answers[k].Err? && forall i :: 0 <= i < k ==> answers[i].Ok?
    ensures InOrder(answers) == answers[k]
  {
    OkWhileAllOk(answers[..k]);
    assert answers[..k + 1][..k] == answers[..k];
    FirstFaultStays(answers, k + 1);
  }

  lemma {:induction false} OkWhileAllOk(answers: seq<Reading>)
    requires forall i :: 0 <= i < |answers| ==> answers[i].Ok?
    ensures InOrder(answers).Ok?
  {
    if answers != [] {
      OkWhileAllOk(answers[..|answers| - 1]);
    }
  }

  // ----- Several requests in flight -----

  /** A worker: between requests, with a claimed batch, with its answer, or gone. */
  datatype Worker = Idle | Asking(index: nat) | Holding(index: nat, answer: Reading) | Gone

  /** The shared counter, the workers, the slots, and the batches asked for so far. */
  datatype Crew = Crew(next: nat, workers: seq<Worker>, slots: seq<Option<Reading>>, asked: seq<nat>)

  datatype Step = Claim(worker: nat) | Ask(worker: nat) | Store(worker: nat)

  function Start(workers: nat, batches: nat): Crew {
    Crew(0, seq(workers, _ => Idle), seq(batches, _ => None), [])
  }

  predicate Enabled(c: Crew, step: Step) {
    && step.worker < |c.workers|
    && match step
       case Claim(w) => c.workers[w].Idle?
       case Ask(w) => c.workers[w].Asking? && c.workers[w].index < |c.slots|
       case Store(w) => c.workers[w].Holding? && c.workers[w].index < |c.slots|
  }

  /** One worker's next action, given what each batch's request returns. */
  function After(c: Crew, step: Step, answers: seq<Reading>): (r: Crew)
    requires Enabled(c, step) && |answers| == |c.slots|
    ensures |r.workers| == |c.workers| && |r.slots| == |c.slots|
  {
    match step
    case Claim(w) =>
      c.(next := c.next + 1, workers := c.workers[w := if c.next < |c.slots| then Asking(c.next) else Gone])
    case Ask(w) =>
      var i := c.workers[w].index;
      c.(workers := c.workers[w := Holding(i, answers[i])], asked := c.asked + [i])
    case Store(w) =>
      var i := c.workers[w].index;
      c.(workers := c.workers[w := Idle], slots := c.slots[i := Some(c.workers[w].answer)])
  }

  predicate IsRun(workers: nat, answers: seq<Reading>, steps: seq<Step>)
    decreases |steps|, 0
  {
    steps != [] ==>
      && IsRun(workers, answers, steps[..|steps| - 1])
      && Enabled(Run(workers, answers, steps[..|steps| - 1]), steps[|steps| - 1])
  }

  function Run(workers: nat, answers: seq<Reading>, steps: seq<Step>): (c: Crew)
    requires IsRun(workers, answers, steps)
    ensures |c.workers| == workers && |c.slots| == |answers|
    decreases |steps|, 1
  {
    if steps == [] then Start(workers, |answers|)
    else After(Run(workers, answers, steps[..|steps| - 1]), steps[|steps| - 1], answers)
  }

  predicate AllGone(c: Crew) {
    forall w :: 0 <= w < |c.workers| ==> c.workers[w].Gone?
  }

  predicate Busy(worker: Worker, i: nat) {
    (worker.Asking? || worker.Holding?) && worker.index == i
  }

  /** What one worker's state promises. */
  predicate WorkerHolds(c: Crew, answers: seq<Reading>, w: nat)
    requires w < |c.workers| && |c.slots| == |answers|
  {
    match c.workers[w]
    case Idle => true
    case Gone => c.next >= |answers|
    case Asking(i) => i < |answers| && i < c.next && c.slots[i].None? && i !in c.asked
    case Holding(i, answer) => i < |answers| && i < c.next && c.slots[i].None? && i in c.asked && answer == answers[i]
  }

  ghost predicate SomeoneHas(c: Crew, i: nat) {
    exists w :: 0 <= w < |c.workers| && Busy(c.workers[w], i)
  }

  /** What one slot's state promises: claimed and not stored is with a worker. */
  ghost predicate SlotHolds(c: Crew, answers: seq<Reading>, i: nat)
    requires i < |c.slots| && |c.slots| == |answers|
  {
    match c.slots[i]
    case Some(answer) => i < c.next && i in c.asked && answer == answers[i]
    case None => i < c.next ==> SomeoneHas(c, i)
  }

  ghost predicate Inv(c: Crew, answers: seq<Reading>) {
    && |c.slots| == |answers|
    && (forall w: nat :: w < |c.workers| ==> WorkerHolds(c, answers, w))
    && (forall i: nat :: i < |answers| ==> SlotHolds(c, answers, i))
    && (forall u, v, i :: 0 <= u < v < |c.workers| ==> !(Busy(c.workers[u], i) && Busy(c.workers[v], i)))
    && Distinct(c.asked) && (forall i :: i in c.asked ==> i < c.next && i < |answers|)
  }

  lemma ClaimKeeps(c: Crew, w: nat, answers: seq<Reading>)
    requires Inv(c, answers) && Enabled(c, Claim(w))
    ensures Inv(After(c, Claim(w), answers), answers)
  {
    hide Distinct;
    var after := After(c, Claim(w), answers);
    assert c.next < |answers| ==> SlotHolds(c, answers, c.next);
    forall v: nat | v < |after.workers| ensures WorkerHolds(after, answers, v) {
      assert WorkerHolds(c, answers, v);
    }
    forall i: nat | i < |answers| ensures SlotHolds(after, answers, i) {
      assert SlotHolds(c, answers, i);
      if i == c.next {
        assert Busy(after.workers[w], i);
      } else if i < c.next && c.slots[i].None? {
        var v :| 0 <= v < |c.workers| && Busy(c.workers[v], i);
        assert Busy(after.workers[v], i);
      }
    }
    forall u, v, i | 0 <= u < v < |after.workers| ensures !(Busy(after.workers[u], i) && Busy(after.workers[v], i)) {
      assert WorkerHolds(c, answers, u) && WorkerHolds(c, answers, v);
    }
  }

  lemma AskKeeps(c: Crew, w: nat, answers: seq<Reading>)
    requires Inv(c, answers) && Enabled(c, Ask(w))
    ensures Inv(After(c, Ask(w), answers), answers)
  {
    var after := After(c, Ask(w), answers);
    var at := c.workers[w].index;
    assert after.asked[|c.asked|] == at;
    assert WorkerHolds(c, answers, w);
    forall v: nat | v < |after.workers| ensures WorkerHolds(after, answers, v) {
      assert WorkerHolds(c, answers, v) && Busy(c.workers[w], at);
      assert v != w ==> !Busy(c.workers[v], at);
    }
    forall i: nat | i < |answers| ensures SlotHolds(after, answers, i) {
      assert SlotHolds(c, answers, i);
      if i < c.next && c.slots[i].None? {
        var v :| 0 <= v < |c.workers| && Busy(c.workers[v], i);
        assert Busy(after.workers[v], i);
      }
    }
    forall u, v, i | 0 <= u < v < |after.workers| ensures !(Busy(after.workers[u], i) && Busy(after.workers[v], i)) {
      assert !(Busy(c.workers[u], i) && Busy(c.workers[v], i));
    }
  }

  lemma StoreKeeps(c: Crew, w: nat, answers: seq<Reading>)
    requires Inv(c, answers) && Enabled(c, Store(w))
    ensures Inv(After(c, Store(w), answers), answers)
  {
    hide Distinct;
    var after := After(c, Store(w), answers);
    var at := c.workers[w].index;
    assert WorkerHolds(c, answers, w);
    forall v: nat | v < |after.workers| ensures WorkerHolds(after, answers, v) {
      assert WorkerHolds(c, answers, v);
      assert v != w ==> !Busy(c.workers[v], at);
    }
    forall i: nat | i < |answers| ensures SlotHolds(after, answers, i) {
      assert SlotHolds(c, answers, i);
      if i != at && i < c.next && c.slots[i].None? {
        var v :| 0 <= v < |c.workers| && Busy(c.workers[v], i);
        assert Busy(after.workers[v], i);
      }
    }
    forall u, v, i | 0 <= u < v < |after.workers| ensures !(Busy(after.workers[u], i) && Busy(after.workers[v], i)) {
      assert !(Busy(c.workers[u], i) && Busy(c.workers[v], i));
    }
  }

  lemma {:induction false} InvariantInEveryRun(workers: nat, answers: seq<Reading>, steps: seq<Step>)
    requires IsRun(workers, answers, steps)
    ensures Inv(Run(workers, answers, steps), answers)
  {
    hide Inv, After, Enabled;
    if steps == [] {
      StartIsFine(workers, answers);
    } else {
      var before := Run(workers, answers, steps[..|steps| - 1]);
      InvariantInEveryRun(workers, answers, steps[..|steps| - 1]);
      match steps[|steps| - 1]
      case Claim(w) => ClaimKeeps(before, w, answers);
      case Ask(w) => AskKeeps(before, w, answers);
      case Store(w) => StoreKeeps(before, w, answers);
    }
  }

  lemma StartIsFine(workers: nat, answers: seq<Reading>)
    ensures Inv(Start(workers, |answers|), answers)
  {
  }

  // ----- How a run ends -----

  /** What a worker still has to do: three actions a batch, and one to find that
      nothing is left. */
  function Weight(worker: Worker): nat {
    match worker
    case Idle => 1
    case Asking(_) => 3
    case Holding(_, _) => 2
    case Gone => 0
  }

  function Weights(workers: seq<Worker>): nat {
    if workers == [] then 0 else Weights(workers[..|workers| - 1]) + Weight(workers[|workers| - 1])
  }

  function Remaining(c: Crew): nat {
    3 * Minus(|c.slots|, c.next) + Weights(c.workers)
  }

  lemma {:induction false} WeightsUpdate(workers: seq<Worker>, w: nat, worker: Worker)
    requires w < |workers|
    ensures Weights(workers[w := worker]) == Weights(workers) - Weight(workers[w]) + Weight(worker)
  {
    var front := workers[..|workers| - 1];
    var changed := workers[w := worker];
    if w < |workers| - 1 {
      assert changed[..|workers| - 1] == front[w := worker];
      WeightsUpdate(front, w, worker);
    } else {
      assert changed[..|workers| - 1] == front;
    }
  }

  lemma {:induction false} WeightsOfIdle(n: nat)
    ensures Weights(seq(n, _ => Idle)) == n
  {
    if n > 0 {
      assert seq(n, _ => Idle)[..n - 1] == seq(n - 1, _ => Idle);
      WeightsOfIdle(n - 1);
    }
  }

  lemma {:induction false} WeightsOfGone(workers: seq<Worker>)
    ensures Weights(workers) == 0 <==> forall w :: 0 <= w < |workers| ==> workers[w].Gone?
  {
    if workers != [] {
      WeightsOfGone(workers[..|workers| - 1]);
    }
  }

  lemma StepIsOneLess(c: Crew, step: Step, answers: seq<Reading>)
    requires Enabled(c, step) && |answers| == |c.slots|
    ensures Remaining(After(c, step, answers)) == Remaining(c) - 1
  {
    hide Weights;
    var w := step.worker;
    WeightsUpdate(c.workers, w, After(c, step, answers).workers[w]);
  }

  lemma {:induction false} EveryStepCounts(workers: nat, answers: seq<Reading>, steps: seq<Step>)
    requires IsRun(workers, answers, steps)
    ensures Remaining(Run(workers, answers, steps)) == 3 * |answers| + workers - |steps|
  {
    hide Remaining, After, Enabled;
    if steps == [] {
      AtStart(workers, |answers|);
    } else {
      EveryStepCounts(workers, answers, steps[..|steps| - 1]);
      StepIsOneLess(Run(workers, answers, steps[..|steps| - 1]), steps[|steps| - 1], answers);
    }
  }

  lemma AtStart(workers: nat, batches: nat)
    ensures Remaining(Start(workers, batches)) == 3 * batches + workers
  {
    WeightsOfIdle(workers);
  }

  /** Unless every worker is gone some worker can act. */
  lemma SomeStepIsEnabled(c: Crew, answers: seq<Reading>) returns (step: Step)
    requires Inv(c, answers) && !AllGone(c)
    ensures Enabled(c, step)
  {
    var w :| 0 <= w < |c.workers| && !c.workers[w].Gone?;
    assert WorkerHolds(c, answers, w);
    match c.workers[w]
    case Idle => step := Claim(w);
    case Asking(_) => step := Ask(w);
    case Holding(_, _) => step := Store(w);
  }

  /** No run is longer than three actions a batch and one a worker; one that is
      shorter than that can go on; and one of that length has every worker gone. */
  lemma RunsEnd(workers: nat, answers: seq<Reading>, steps: seq<Step>)
    requires IsRun(workers, answers, steps) && workers > 0
    ensures |steps| <= 3 * |answers| + workers
    ensures AllGone(Run(workers, answers, steps)) <==> |steps| == 3 * |answers| + workers
    ensures !AllGone(Run(workers, answers, steps)) ==>
              exists step :: Enabled(Run(workers, answers, steps), step) && IsRun(workers, answers, steps + [step])
  {
    hide Enabled, Inv, After, Weights;
    var c := Run(workers, answers, steps);
    EveryStepCounts(workers, answers, steps);
    InvariantInEveryRun(workers, answers, steps);
    WeightsOfGone(c.workers);
    if AllGone(c) {
      NothingUnclaimed(c, answers);
    } else {
      var step := SomeStepIsEnabled(c, answers);
      assert (steps + [step])[..|steps|] == steps;
    }
  }

  /** So every run can be brought to its end. */
  lemma {:induction false} RunsComplete(workers: nat, answers: seq<Reading>, steps: seq<Step>) returns (full: seq<Step>)
    requires IsRun(workers, answers, steps) && workers > 0
    ensures IsRun(workers, answers, full) && steps <= full && AllGone(Run(workers, answers, full))
    decreases 3 * |answers| + workers - |steps|
  {
    hide IsRun, Run, AllGone, Enabled;
    RunsEnd(workers, answers, steps);
    if AllGone(Run(workers, answers, steps)) {
      full := steps;
    } else {
      var step :| Enabled(Run(workers, answers, steps), step) && IsRun(workers, answers, steps + [step]);
      full := RunsComplete(workers, answers, steps + [step]);
    }
  }

  lemma NothingUnclaimed(c: Crew, answers: seq<Reading>)
    requires Inv(c, answers) && AllGone(c) && |c.workers| > 0
    ensures c.next >= |answers| && |c.slots| == |answers|
  {
    assert WorkerHolds(c, answers, 0);
  }

  /** When every worker is gone every slot holds its batch's answer, and every batch
      was asked for exactly once. */
  lemma FinishedCrew(c: Crew, answers: seq<Reading>)
    requires Inv(c, answers) && AllGone(c) && |c.workers| > 0
    ensures c.slots == seq(|answers|, i requires 0 <= i < |answers| => Some(answers[i]))
    ensures |c.asked| == |answers| && Distinct(c.asked) && forall i: nat :: i < |answers| ==> i in c.asked
  {
    NothingUnclaimed(c, answers);
    forall i: nat | i < |answers| ensures c.slots[i] == Some(answers[i]) && i in c.asked {
      assert SlotHolds(c, answers, i);
    }
    assert Distinct(c.asked) && forall i :: i in c.asked ==> i < |answers|;
    hide Inv, Distinct, AllGone;
    CountsAll(c.asked, |answers|);
  }

  lemma CountsAll(s: seq<nat>, n: nat)
    requires Distinct(s) && (forall v :: v in s ==> v < n) && forall v: nat :: v < n ==> v in s
    ensures |s| == n
  {
    DistinctCount(s);
    assert Elements(s) == Below(n);
  }

  // ----- Collecting the slots -----

  /** The answers in slot order; a slot nobody filled is a fault. */
  method Collect(slots: seq<Option<Reading>>) returns (r: Reading)
    ensures (forall i :: 0 <= i < |slots| ==> slots[i].Some?) ==> r == InOrder(Values(slots))
    ensures (exists i :: 0 <= i < |slots| && slots[i].None?) ==> r.Err?
  {
    var out: seq<Vector> := [];
    for index := 0 to |slots|
      invariant forall i :: 0 <= i < index ==> slots[i].Some?
      invariant InOrder(Values(slots[..index])) == Ok(out)
    {
      if slots[index].None? {
        return Err(NoAnswer(index));
      }
      assert Values(slots[..index + 1])[..index] == Values(slots[..index]);
      if slots[index].value.Err? {
        if forall i :: 0 <= i < |slots| ==> slots[i].Some? {
          assert Values(slots)[..index + 1] == Values(slots[..index + 1]);
          FirstFaultStays(Values(slots), index + 1);
        }
        return slots[index].value;
      }
      out := out + slots[index].value.value;
    }
    assert slots[..|slots|] == slots;
    r := Ok(out);
  }

  function Values(slots: seq<Option<Reading>>): (answers: seq<Reading>)
    ensures |answers| == |slots|
  {
    seq(|slots|, i requires 0 <= i < |slots| => if slots[i].Some? then slots[i].value else Err(NoAnswer(i)))
  }

  // ----- Both ways of embedding -----

  function AnswerOf(texts: seq<Text>, dims: nat, server: seq<Text> -> Reply, b: Batch): Reading
    requires b.start <= b.end <= |texts|
  {
    Answer(b.end - b.start, dims, server(texts[b.start..b.end]))
  }

  predicate InRange(batches: seq<Batch>, n: nat) {
    forall i :: 0 <= i < |batches| ==> batches[i].start <= batches[i].end <= n
  }

  function Answers(texts: seq<Text>, dims: nat, server: seq<Text> -> Reply, batches: seq<Batch>): (r: seq<Reading>)
    requires InRange(batches, |texts|)
    ensures |r| == |batches|
  {
    seq(|batches|, i requires 0 <= i < |batches| => AnswerOf(texts, dims, server, batches[i]))
  }

  /** The last check: as many vectors as texts. */
  function Counted(r: Reading, expected: nat): Reading {
    if r.Ok? && |r.value| != expected then Err(WrongTotal) else r
  }

  /** One request after another, stopping at the first that fails. */
  method EmbedInOrder(texts: seq<Text>, dims: nat, server: seq<Text> -> Reply, batches: seq<Batch>, expected: nat)
    returns (r: Reading)
    requires InRange(batches, |texts|)
    ensures r == Counted(InOrder(Answers(texts, dims, server, batches)), expected)
  {
    ghost var answers := Answers(texts, dims, server, batches);
    var out: seq<Vector> := [];
    for k := 0 to |batches|
      invariant InOrder(answers[..k]) == Ok(out)
    {
      assert answers[..k + 1][..k] == answers[..k];
      var b := batches[k];
      var answer := Request(texts[b.start..b.end], dims, server);
      if answer.Err? {
        FirstFaultStays(answers, k + 1);
        return answer;
      }
      out := out + answer.value;
    }
    assert answers[..|batches|] == answers;
    if |out| != expected {
      return Err(WrongTotal);
    }
    r := Ok(out);
  }

  /** One worker's next action: take a number from the counter, send a request, or
      put its answer in its slot. */
  method Act(
    texts: seq<Text>, dims: nat, server: seq<Text> -> Reply, batches: seq<Batch>, step: Step,
    next: nat, workers: array<Worker>, slots: array<Option<Reading>>, ghost asked: seq<nat>)
    returns (counter: nat, ghost log: seq<nat>)
    requires InRange(batches, |texts|) && slots.Length == |batches|
    requires Enabled(Crew(next, workers[..], slots[..], asked), step)
    modifies workers, slots
    ensures Crew(counter, workers[..], slots[..], log)
         == After(old(Crew(next, workers[..], slots[..], asked)), step, Answers(texts, dims, server, batches))
  {
    counter, log := next, asked;
    match step
    case Claim(w) =>
      counter := next + 1;
      workers[w] := if next < |batches| then Asking(next) else Gone;
    case Ask(w) =>
      var index := workers[w].index;
      var b := batches[index];
      var answer := Request(texts[b.start..b.end], dims, server);
      log := asked + [index];
      workers[w] := Holding(index, answer);
    case Store(w) =>
      slots[workers[w].index] := Some(workers[w].answer);
      workers[w] := Idle;
  }

  /** Several requests in flight, in the order some schedule of the workers' actions
      gives. */
  method EmbedInFlight(
    texts: seq<Text>, dims: nat, server: seq<Text> -> Reply, batches: seq<Batch>, expected: nat,
    concurrency: nat, schedule: seq<Step>)
    returns (r: Reading)
    requires InRange(batches, |texts|) && batches != [] && concurrency > 0
    requires IsRun(Min(concurrency, |batches|), Answers(texts, dims, server, batches), schedule)
    requires AllGone(Run(Min(concurrency, |batches|), Answers(texts, dims, server, batches), schedule))
    ensures r == Counted(InOrder(Answers(texts, dims, server, batches)), expected)
  {
    hide Inv, AllGone, After, Enabled, InOrder, Answer;
    ghost var answers := Answers(texts, dims, server, batches);
    var count := Min(concurrency, |batches|);
    var next: nat := 0;
    var workers: array<Worker> := new Worker[count](_ => Idle);
    var slots: array<Option<Reading>> := new Option<Reading>[|batches|](_ => None);
    ghost var asked: seq<nat> := [];
    assert schedule[..0] == [];
    RunPrefix(count, answers, schedule, 0);
    for k := 0 to |schedule|
      invariant fresh(workers) && fresh(slots) && workers.Length == count && slots.Length == |batches|
      invariant IsRun(count, answers, schedule[..k])
      invariant Crew(next, workers[..], slots[..], asked) == Run(count, answers, schedule[..k])
    {
      RunPrefix(count, answers, schedule, k + 1);
      assert schedule[..k + 1][..k] == schedule[..k];
      next, asked := Act(texts, dims, server, batches, schedule[k], next, workers, slots, asked);
    }
    assert schedule[..|schedule|] == schedule;
    ghost var c := Run(count, answers, schedule);
    InvariantInEveryRun(count, answers, schedule);
    FinishedCrew(c, answers);
    assert Values(slots[..]) == answers;
    r := Collect(slots[..]);
    if r.Ok? && |r.value| != expected {
      r := Err(WrongTotal);
    }
  }

  lemma {:induction false} RunPrefix(workers: nat, answers: seq<Reading>, steps: seq<Step>, k: nat)
    requires k <= |steps| && IsRun(workers, answers, steps)
    ensures IsRun(workers, answers, steps[..k])
    decreases |steps|
  {
    hide Enabled, After;
    if k < |steps| {
      assert steps[..|steps| - 1][..k] == steps[..k];
      RunPrefix(workers, answers, steps[..|steps| - 1], k);
    } else {
      assert steps[..k] == steps;
    }
  }

  // ----- Preparing the texts -----

  function CutText(t: Tokenizer, text: Text, bound: nat): Result<Text, Fault> {
    Cut(t, text, Max(Minus(bound, MARGIN), 1), bound, ROUNDS)
  }

  predicate IsPrepared(t: Tokenizer, text: Text, count: nat, bound: nat, prepared: Text) {
    if count > bound then CutText(t, text, bound) == Ok(prepared) else prepared == text
  }

  /** The texts to send: those over the bound cut, in a second pass over a list of
      them, and the rest as they are. */
  method Prepare(t: Tokenizer, texts: seq<Text>, counts: seq<nat>, bound: nat) returns (r: Result<seq<Text>, Fault>)
    ensures r.Ok? ==> |r.value| == Min(|texts|, |counts|)
    ensures r.Ok? ==> forall i :: 0 <= i < |r.value| ==> IsPrepared(t, texts[i], counts[i], bound, r.value[i])
    ensures r.Err? ==> exists i :: 0 <= i < Min(|texts|, |counts|) && counts[i] > bound
                         && CutText(t, texts[i], bound) == Err(r.fault)
                         && forall j :: 0 <= j < i && counts[j] > bound ==> CutText(t, texts[j], bound).Ok?
  {
    hide CutText, IsOver;
    var prepared: seq<Text> := [];
    var over: seq<nat> := [];
    var n := Min(|texts|, |counts|);
    OverNothing(counts, bound);
    for at := 0 to n
      invariant |prepared| == at
      invariant forall i :: 0 <= i < at && counts[i] <= bound ==> prepared[i] == texts[i]
      invariant IsOver(over, counts, bound, at)
    {
      OverGrows(over, counts, bound, at);
      if counts[at] > bound {
        over := over + [at];
        prepared := prepared + [""];
      } else {
        prepared := prepared + [texts[at]];
      }
    }
    OverIs(over, counts, bound, n);
    for k := 0 to |over|
      invariant |prepared| == n
      invariant forall i :: 0 <= i < n && counts[i] <= bound ==> prepared[i] == texts[i]
      invariant forall j :: 0 <= j < k ==> CutText(t, texts[over[j]], bound) == Ok(prepared[over[j]])
    {
      var i := over[k];
      var cut := TruncateToBound(t, texts[i], bound);
      assert cut == CutText(t, texts[i], bound) by {
        CutTextIs(t, texts[i], bound);
      }
      if cut.Err? {
        forall j | 0 <= j < i && counts[j] > bound ensures CutText(t, texts[j], bound).Ok? {
          var m :| 0 <= m < |over| && over[m] == j;
        }
        return Err(cut.fault);
      }
      prepared := prepared[i := cut.value];
    }
    forall i | 0 <= i < n ensures IsPrepared(t, texts[i], counts[i], bound, prepared[i]) {
      if counts[i] > bound {
        var m :| 0 <= m < |over| && over[m] == i;
      }
    }
    r := Ok(prepared);
  }

  lemma CutTextIs(t: Tokenizer, text: Text, bound: nat)
    ensures CutText(t, text, bound) == Cut(t, text, Max(Minus(bound, MARGIN), 1), bound, ROUNDS)
  {
  }

  /** The list of the texts over the bound, in order. */
  ghost predicate IsOver(over: seq<nat>, counts: seq<nat>, bound: nat, n: nat)
    requires n <= |counts|
  {
    && (forall k :: 0 <= k < |over| ==> over[k] < n && counts[over[k]] > bound)
    && (forall j, k :: 0 <= j < k < |over| ==> over[j] < over[k])
    && (forall i :: 0 <= i < n && counts[i] > bound ==> exists k :: 0 <= k < |over| && over[k] == i)
  }

  lemma OverNothing(counts: seq<nat>, bound: nat)
    ensures IsOver([], counts, bound, 0)
  {
  }

  lemma OverIs(over: seq<nat>, counts: seq<nat>, bound: nat, n: nat)
    requires n <= |counts| && IsOver(over, counts, bound, n)
    ensures forall k :: 0 <= k < |over| ==> over[k] < n && counts[over[k]] > bound
    ensures forall j, k :: 0 <= j < k < |over| ==> over[j] < over[k]
    ensures forall i :: 0 <= i < n && counts[i] > bound ==> exists k :: 0 <= k < |over| && over[k] == i
  {
  }

  lemma OverGrows(over: seq<nat>, counts: seq<nat>, bound: nat, at: nat)
    requires at < |counts| && IsOver(over, counts, bound, at)
    ensures IsOver(if counts[at] > bound then over + [at] else over, counts, bound, at + 1)
  {
    var after := if counts[at] > bound then over + [at] else over;
    forall i | 0 <= i < at + 1 && counts[i] > bound ensures exists k :: 0 <= k < |after| && after[k] == i {
      if i == at {
        assert after[|over|] == at;
      } else {
        var k :| 0 <= k < |over| && over[k] == i;
        assert after[k] == i;
      }
    }
  }

  // ----- What comes back -----

  lemma PlanIsInRange(
    costs: seq<nat>, batches: seq<Batch>, from: nat, to: nat, budget: nat, most: nat)
    requires from <= |costs| && IsPlan(costs, batches, from, to, budget, most)
    ensures InRange(batches, |costs|)
  {
    forall i | 0 <= i < |batches| ensures batches[i].start <= batches[i].end <= |costs| {
      PlanBatches(costs, batches, from, to, budget, most, i);
    }
  }

  /** Text `j`'s vector in the whole is its vector in the answer to the batch that
      starts at `start`. */
  predicate LinesUp(out: seq<Vector>, answer: Reading, start: nat, j: nat)
    requires start <= j
  {
    answer.Ok? && j - start < |answer.value| && j < |out| && out[j] == answer.value[j - start]
  }

  /** The batches' answers end to end: each text's vector stands where the text
      does, so the total is right unless the tokenizer counted too few texts. */
  lemma {:induction false} VectorsLineUp(
    costs: seq<nat>, batches: seq<Batch>, budget: nat, most: nat,
    texts: seq<Text>, dims: nat, server: seq<Text> -> Reply, k: nat)
    requires |texts| == |costs| && IsPlan(costs, batches, 0, |costs|, budget, most) && k <= |batches|
    requires InRange(batches, |texts|)
    requires InOrder(Answers(texts, dims, server, batches)[..k]).Ok?
    ensures var out := InOrder(Answers(texts, dims, server, batches)[..k]).value;
            && |out| == (if k == 0 then 0 else batches[k - 1].end)
            && forall i, j :: 0 <= i < k && batches[i].start <= j < batches[i].end ==>
                 LinesUp(out, AnswerOf(texts, dims, server, batches[i]), batches[i].start, j)
  {
    hide AnswerOf;
    var answers := Answers(texts, dims, server, batches);
    if k > 0 {
      assert answers[..k][..k - 1] == answers[..k - 1];
      VectorsLineUp(costs, batches, budget, most, texts, dims, server, k - 1);
      PlanBatches(costs, batches, 0, |costs|, budget, most, k - 1);
      AnswerCounts(texts, dims, server, batches[k - 1]);
      var before := InOrder(answers[..k - 1]).value;
      var out := InOrder(answers[..k]).value;
      assert out == before + answers[k - 1].value;
      forall i, j | 0 <= i < k && batches[i].start <= j < batches[i].end
        ensures LinesUp(out, AnswerOf(texts, dims, server, batches[i]), batches[i].start, j)
      {
        if i < k - 1 {
          EndsGrow(costs, batches, budget, most, i, k - 2);
          assert LinesUp(before, AnswerOf(texts, dims, server, batches[i]), batches[i].start, j);
        } else {
          assert answers[k - 1] == AnswerOf(texts, dims, server, batches[k - 1]);
        }
      }
    }
  }

  lemma AnswerCounts(texts: seq<Text>, dims: nat, server: seq<Text> -> Reply, b: Batch)
    requires b.start <= b.end <= |texts|
    ensures AnswerOf(texts, dims, server, b).Ok? ==> |AnswerOf(texts, dims, server, b).value| == b.end - b.start
  {
    hide PlaceRows;
  }

  lemma {:induction false} EndsGrow(costs: seq<nat>, batches: seq<Batch>, budget: nat, most: nat, i: nat, j: nat)
    requires IsPlan(costs, batches, 0, |costs|, budget, most) && i <= j < |batches|
    ensures batches[i].end <= batches[j].end
  {
    if i < j {
      EndsGrow(costs, batches, budget, most, i, j - 1);
      PlanBatches(costs, batches, 0, |costs|, budget, most, j);
    }
  }

  /** A whole answer to a plan has one vector a text. */
  lemma OneVectorEach(
    costs: seq<nat>, batches: seq<Batch>, budget: nat, most: nat,
    texts: seq<Text>, dims: nat, server: seq<Text> -> Reply)
    requires |texts| == |costs| && texts != [] && IsPlan(costs, batches, 0, |costs|, budget, most)
    requires InRange(batches, |texts|)
    ensures var r := InOrder(Answers(texts, dims, server, batches));
            Counted(r, |texts|) == r
  {
    var answers := Answers(texts, dims, server, batches);
    assert answers[..|batches|] == answers;
    if InOrder(answers).Ok? {
      VectorsLineUp(costs, batches, budget, most, texts, dims, server, |batches|);
      PlanBatches(costs, batches, 0, |costs|, budget, most, |batches| - 1);
    }
  }

  // ----- The whole of one call -----

  predicate Tokenizes(t: Tokenizer, texts: seq<Text>) {
    forall i :: 0 <= i < |texts| ==> t.encode(texts[i]).Some?
  }

  /** What each text is counted as: its tokens, and two more as a margin. */
  function TokenCounts(t: Tokenizer, texts: seq<Text>): (r: Result<seq<nat>, Fault>)
    ensures r.Ok? <==> Tokenizes(t, texts)
    ensures r.Ok? ==> |r.value| == |texts|
  {
    if Tokenizes(t, texts) then
      Ok(seq(|texts|, i requires 0 <= i < |texts| => |t.encode(texts[i]).value| + 2))
    else Err(Untokenized)
  }

  predicate AllPrepared(t: Tokenizer, texts: seq<Text>, counts: seq<nat>, bound: nat, prepared: seq<Text>)
    requires |texts| == |counts|
  {
    |prepared| == |texts| && forall i :: 0 <= i < |texts| ==> IsPrepared(t, texts[i], counts[i], bound, prepared[i])
  }

  /** The fault of the first text over the bound that cannot be cut. */
  ghost predicate CutFails(t: Tokenizer, texts: seq<Text>, counts: seq<nat>, bound: nat, fault: Fault)
    requires |texts| == |counts|
  {
    exists i :: 0 <= i < |texts| && counts[i] > bound && CutText(t, texts[i], bound) == Err(fault)
                && forall j :: 0 <= j < i && counts[j] > bound ==> CutText(t, texts[j], bound).Ok?
  }

  /** What one call is to return, however many requests it keeps in flight. */
  ghost predicate IsOutcome(
    t: Tokenizer, texts: seq<Text>, bound: nat, dims: nat, budget: nat, most: nat, server: seq<Text> -> Reply, r: Reading)
  {
    if texts == [] then r == Ok([])
    else match TokenCounts(t, texts)
      case Err(fault) => r == Err(fault)
      case Ok(counts) =>
        if exists fault :: CutFails(t, texts, counts, bound, fault) then
          r.Err? && CutFails(t, texts, counts, bound, r.fault)
        else
          exists prepared, batches ::
            && AllPrepared(t, texts, counts, bound, prepared)
            && IsPlan(Costs(counts, bound), batches, 0, |counts|, budget, most)
            && InRange(batches, |prepared|)
            && r == InOrder(Answers(prepared, dims, server, batches))
  }

  lemma PreparedIsUnique(
    t: Tokenizer, texts: seq<Text>, counts: seq<nat>, bound: nat, one: seq<Text>, other: seq<Text>)
    requires |texts| == |counts|
    requires AllPrepared(t, texts, counts, bound, one) && AllPrepared(t, texts, counts, bound, other)
    ensures one == other
  {
    hide CutText;
    forall i | 0 <= i < |texts| ensures one[i] == other[i] {
      assert IsPrepared(t, texts[i], counts[i], bound, one[i]) && IsPrepared(t, texts[i], counts[i], bound, other[i]);
    }
  }

  lemma OneCutFault(t: Tokenizer, texts: seq<Text>, counts: seq<nat>, bound: nat, one: Fault, other: Fault)
    requires |texts| == |counts|
    requires CutFails(t, texts, counts, bound, one) && CutFails(t, texts, counts, bound, other)
    ensures one == other
  {
    hide CutText;
    var i :| 0 <= i < |texts| && counts[i] > bound && CutText(t, texts[i], bound) == Err(one)
             && forall j :: 0 <= j < i && counts[j] > bound ==> CutText(t, texts[j], bound).Ok?;
    var k :| 0 <= k < |texts| && counts[k] > bound && CutText(t, texts[k], bound) == Err(other)
             && forall j :: 0 <= j < k && counts[j] > bound ==> CutText(t, texts[j], bound).Ok?;
    assert i == k;
  }

  /** Nothing but the texts, the limits, the tokenizer and the server decides what a
      call returns: neither how many requests are in flight nor the order in which the
      workers act. */
  lemma OutcomeIsUnique(
    t: Tokenizer, texts: seq<Text>, bound: nat, dims: nat, budget: nat, most: nat, server: seq<Text> -> Reply,
    one: Reading, other: Reading)
    requires IsOutcome(t, texts, bound, dims, budget, most, server, one)
    requires IsOutcome(t, texts, bound, dims, budget, most, server, other)
    ensures one == other
  {
    hide CutFails, AllPrepared, IsPlan, InRange, InOrder, Answers, Costs, Tokenizes;
    if texts != [] && TokenCounts(t, texts).Ok? {
      var counts := TokenCounts(t, texts).value;
      if exists fault :: CutFails(t, texts, counts, bound, fault) {
        OneCutFault(t, texts, counts, bound, one.fault, other.fault);
      } else {
        var prepared, batches :|
          && AllPrepared(t, texts, counts, bound, prepared)
          && IsPlan(Costs(counts, bound), batches, 0, |counts|, budget, most)
          && InRange(batches, |prepared|)
          && one == InOrder(Answers(prepared, dims, server, batches));
        var prepared', batches' :|
          && AllPrepared(t, texts, counts, bound, prepared')
          && IsPlan(Costs(counts, bound), batches', 0, |counts|, budget, most)
          && InRange(batches', |prepared'|)
          && other == InOrder(Answers(prepared', dims, server, batches'));
        PreparedIsUnique(t, texts, counts, bound, prepared, prepared');
        PlanIsUnique(Costs(counts, bound), batches, batches', 0, budget, most);
      }
    }
  }

  /** The tokens of some texts, as the tokenizer counts them. */
  function Tokens(t: Tokenizer, texts: seq<Text>): nat {
    if texts == [] then 0
    else
      var last := t.encode(texts[|texts| - 1]);
      Tokens(t, texts[..|texts| - 1]) + if last.Some? then |last.value| else 0
  }

  lemma PreparedFits(t: Tokenizer, text: Text, bound: nat, prepared: Text)
    requires t.encode(text).Some? && IsPrepared(t, text, |t.encode(text).value| + 2, bound, prepared)
    ensures Fits(t, prepared, bound)
    ensures |t.encode(prepared).value| <= Cost(|t.encode(text).value| + 2, bound)
  {
    WhatIsSentFits(t, text, Max(Minus(bound, MARGIN), 1), bound, ROUNDS);
  }

  lemma {:induction false} TokensWithinTotal(
    t: Tokenizer, texts: seq<Text>, counts: seq<nat>, bound: nat, prepared: seq<Text>, from: nat, to: nat)
    requires TokenCounts(t, texts) == Ok(counts) && AllPrepared(t, texts, counts, bound, prepared)
    requires from <= to <= |prepared|
    ensures Tokens(t, prepared[from..to]) <= Total(Costs(counts, bound), from, to)
  {
    hide IsPrepared, Cost, Fits;
    if from < to {
      TokensWithinTotal(t, texts, counts, bound, prepared, from, to - 1);
      PreparedFits(t, texts[to - 1], bound, prepared[to - 1]);
      assert prepared[from..to][..to - from - 1] == prepared[from..to - 1];
    }
  }

  /** A request the server is to take: of one text within the bound, or of several
      within the token budget and the text limit. */
  ghost predicate RequestFits(t: Tokenizer, request: seq<Text>, bound: nat, budget: nat, most: nat) {
    && (forall i :: 0 <= i < |request| ==> Fits(t, request[i], bound))
    && 0 < |request| && (|request| >= 2 ==> |request| <= most && Tokens(t, request) <= budget)
    && (bound <= budget ==> Tokens(t, request) <= budget)
  }

  /** Every batch that is sent is within the limits in the tokens the tokenizer finds in it. */
  lemma RequestsFit(
    t: Tokenizer, texts: seq<Text>, counts: seq<nat>, bound: nat, prepared: seq<Text>, batches: seq<Batch>,
    budget: nat, most: nat)
    requires TokenCounts(t, texts) == Ok(counts) && AllPrepared(t, texts, counts, bound, prepared)
    requires IsPlan(Costs(counts, bound), batches, 0, |counts|, budget, most) && InRange(batches, |prepared|)
    ensures forall b :: b in batches ==> RequestFits(t, prepared[b.start..b.end], bound, budget, most)
  {
    hide IsPrepared, Fits, IsPlan, Costs, Total;
    forall b | b in batches ensures RequestFits(t, prepared[b.start..b.end], bound, budget, most) {
      var k: nat :| k < |batches| && batches[k] == b;
      PlanBatches(Costs(counts, bound), batches, 0, |counts|, budget, most, k);
      var request := prepared[b.start..b.end];
      forall i | 0 <= i < |request| ensures Fits(t, request[i], bound) {
        PreparedFits(t, texts[b.start + i], bound, prepared[b.start + i]);
      }
      TokensWithinTotal(t, texts, counts, bound, prepared, b.start, b.end);
      if |request| == 1 {
        TokensOfOne(t, request, bound);
      }
    }
  }

  lemma TokensOfOne(t: Tokenizer, request: seq<Text>, bound: nat)
    requires |request| == 1 && Fits(t, request[0], bound)
    ensures Tokens(t, request) <= bound
  {
    assert request[..0] == [];
  }

  // ----- A server that counts otherwise -----

  /** Wherever the tokenizer counts at all, the server counts at most two tokens more or
      fewer. */
  ghost predicate WithinTwo(t: Tokenizer, count: Text -> nat) {
    forall text :: t.encode(text).Some? ==> CloseCount(|t.encode(text).value|, count(text))
  }

  predicate CloseCount(here: nat, there: nat) {
    there <= here + 2 && here <= there + 2
  }

  /** The tokens of some texts, as the server counts them. */
  function ServerTokens(count: Text -> nat, texts: seq<Text>): nat {
    if texts == [] then 0 else ServerTokens(count, texts[..|texts| - 1]) + count(texts[|texts| - 1])
  }

  /** Two tokens more than the tokenizer counts. */
  function TwoMore(t: Tokenizer): Text -> nat {
    text => if t.encode(text).Some? then |t.encode(text).value| + 2 else 0
  }

  lemma {:induction false} TokensAtServer(t: Tokenizer, count: Text -> nat, texts: seq<Text>)
    requires WithinTwo(t, count) && Tokenizes(t, texts)
    ensures ServerTokens(count, texts) <= Tokens(t, texts) + 2 * |texts|
    ensures count == TwoMore(t) ==> ServerTokens(count, texts) == Tokens(t, texts) + 2 * |texts|
  {
    if texts != [] {
      TokensAtServer(t, count, texts[..|texts| - 1]);
      assert t.encode(texts[|texts| - 1]).Some?;
    }
  }

  /** Whatever the server counts, it takes the request: every text within the bound, and
      several within the token budget. */
  ghost predicate SurelyTaken(t: Tokenizer, request: seq<Text>, bound: nat, budget: nat) {
    forall count: Text -> nat :: WithinTwo(t, count) ==> Takes(count, request, bound, budget)
  }

  predicate Takes(count: Text -> nat, request: seq<Text>, bound: nat, budget: nat) {
    && (forall i :: 0 <= i < |request| ==> count(request[i]) <= bound)
    && (|request| >= 2 ==> ServerTokens(count, request) <= budget)
  }

  /** The text leaves the server room for two tokens more. */
  predicate IsRoomy(t: Tokenizer, text: Text, bound: nat) {
    t.encode(text).Some? && |t.encode(text).value| + 2 <= bound
  }

  predicate AllRoomy(t: Tokenizer, request: seq<Text>, bound: nat) {
    forall i :: 0 <= i < |request| ==> IsRoomy(t, request[i], bound)
  }

  /** Of any texts: the server is sure to take them exactly when each leaves it room, and
      two tokens for each fit in the budget as well. */
  lemma SurelyTakenExactly(t: Tokenizer, request: seq<Text>, bound: nat, budget: nat)
    requires Tokenizes(t, request)
    ensures SurelyTaken(t, request, bound, budget) <==>
            AllRoomy(t, request, bound) && (|request| >= 2 ==> Tokens(t, request) + 2 * |request| <= budget)
  {
    hide Tokens, ServerTokens;
    forall count: Text -> nat | WithinTwo(t, count)
      ensures ServerTokens(count, request) <= Tokens(t, request) + 2 * |request|
      ensures count == TwoMore(t) ==> ServerTokens(count, request) == Tokens(t, request) + 2 * |request|
    {
      TokensAtServer(t, count, request);
    }
    TwoMoreIsClose(t);
    if SurelyTaken(t, request, bound, budget) {
      var count := TwoMore(t);
      assert Takes(count, request, bound, budget);
      forall i | 0 <= i < |request| ensures IsRoomy(t, request[i], bound) {
        assert count(request[i]) == |t.encode(request[i]).value| + 2;
      }
    }
  }

  lemma TwoMoreIsClose(t: Tokenizer)
    ensures WithinTwo(t, TwoMore(t))
  {
  }

  lemma {:induction false} RoomyWithinTotal(
    t: Tokenizer, texts: seq<Text>, counts: seq<nat>, bound: nat, prepared: seq<Text>, from: nat, to: nat)
    requires TokenCounts(t, texts) == Ok(counts) && AllPrepared(t, texts, counts, bound, prepared)
    requires from <= to <= |prepared| && AllRoomy(t, prepared[from..to], bound)
    ensures Tokens(t, prepared[from..to]) + 2 * (to - from) <= Total(Costs(counts, bound), from, to)
  {
    hide CutText;
    if from < to {
      var last := prepared[from..to][to - from - 1];
      var front := prepared[from..to - 1];
      assert prepared[from..to][..to - from - 1] == front;
      forall i | 0 <= i < |front| ensures IsRoomy(t, front[i], bound) {
        assert front[i] == prepared[from..to][i];
      }
      RoomyWithinTotal(t, texts, counts, bound, prepared, from, to - 1);
      assert IsRoomy(t, last, bound) && IsPrepared(t, texts[to - 1], counts[to - 1], bound, last);
    }
  }

  /** So of the requests of a plan: the server is sure to take one exactly when none of its
      texts, as it is sent, is within a token of the bound. */
  lemma ServerTakesExactly(
    t: Tokenizer, texts: seq<Text>, counts: seq<nat>, bound: nat, prepared: seq<Text>, batches: seq<Batch>,
    budget: nat, most: nat)
    requires TokenCounts(t, texts) == Ok(counts) && AllPrepared(t, texts, counts, bound, prepared)
    requires IsPlan(Costs(counts, bound), batches, 0, |counts|, budget, most) && InRange(batches, |prepared|)
    ensures forall b :: b in batches ==>
              var request := prepared[b.start..b.end];
              SurelyTaken(t, request, bound, budget) <==> AllRoomy(t, request, bound)
  {
    hide IsPrepared, IsPlan, Costs, Total, SurelyTaken, IsRoomy;
    forall b | b in batches
      ensures SurelyTaken(t, prepared[b.start..b.end], bound, budget) <==> AllRoomy(t, prepared[b.start..b.end], bound)
    {
      var k: nat :| k < |batches| && batches[k] == b;
      PlanBatches(Costs(counts, bound), batches, 0, |counts|, budget, most, k);
      var request := prepared[b.start..b.end];
      forall i | 0 <= i < |request| ensures t.encode(request[i]).Some? {
        PreparedFits(t, texts[b.start + i], bound, prepared[b.start + i]);
      }
      SurelyTakenExactly(t, request, bound, budget);
      if AllRoomy(t, request, bound) {
        RoomyWithinTotal(t, texts, counts, bound, prepared, b.start, b.end);
      }
    }
  }

  /** A text of one token fewer than the bound, or of just as many, is counted over it, sent
      as it is all the same, and may be over it at the server. */
  lemma CloseTextsAreSentUncut(t: Tokenizer, text: Text, bound: nat, prepared: Text)
    requires t.encode(text).Some? && bound <= |t.encode(text).value| + 1 <= bound + 1
    requires IsPrepared(t, text, |t.encode(text).value| + 2, bound, prepared)
    ensures prepared == text && |t.encode(text).value| + 2 > bound && !IsRoomy(t, prepared, bound)
    ensures exists count: Text -> nat :: WithinTwo(t, count) && count(prepared) > bound
  {
    WhatIsSentFits(t, text, Max(Minus(bound, MARGIN), 1), bound, ROUNDS);
    TwoMoreIsClose(t);
    assert TwoMore(t)(prepared) > bound;
  }

  // ----- Schedules -----

  /** No action depends on what the answers are. */
  predicate SameShape(c: Crew, d: Crew) {
    && c.next == d.next && |c.workers| == |d.workers| && |c.slots| == |d.slots|
    && forall w :: 0 <= w < |c.workers| ==> SameWorker(c.workers[w], d.workers[w])
  }

  predicate SameWorker(a: Worker, b: Worker) {
    || a == b
    || (a.Holding? && b.Holding? && a.index == b.index)
  }

  lemma {:induction false} SameRuns(workers: nat, answers: seq<Reading>, others: seq<Reading>, steps: seq<Step>)
    requires |answers| == |others| && IsRun(workers, answers, steps)
    ensures IsRun(workers, others, steps)
    ensures SameShape(Run(workers, answers, steps), Run(workers, others, steps))
  {
    if steps != [] {
      SameRuns(workers, answers, others, steps[..|steps| - 1]);
    }
  }

  function Blanks(n: nat): (answers: seq<Reading>)
    ensures |answers| == n
  {
    seq(n, _ => Ok([]))
  }

  /** A schedule after which every worker is gone. */
  predicate Completes(workers: nat, answers: seq<Reading>, schedule: seq<Step>) {
    IsRun(workers, answers, schedule) && AllGone(Run(workers, answers, schedule))
  }

  /** The order in which the workers act, for every number of batches there may be. */
  ghost predicate Schedules(concurrency: nat, schedule: nat -> seq<Step>) {
    forall n: nat :: n > 0 ==> Completes(Min(concurrency, n), Blanks(n), schedule(n))
  }

  lemma OneCompletes(workers: nat, n: nat)
    requires workers > 0
    ensures exists schedule :: Completes(workers, Blanks(n), schedule)
  {
    hide Run, AllGone, Enabled;
    var schedule := RunsComplete(workers, Blanks(n), []);
    assert Completes(workers, Blanks(n), schedule);
  }

  ghost function SomeSchedule(workers: nat, n: nat): (schedule: seq<Step>)
    requires workers > 0
    ensures Completes(workers, Blanks(n), schedule)
  {
    OneCompletes(workers, n);
    var schedule :| Completes(workers, Blanks(n), schedule);
    schedule
  }

  /** There is such an order for every number of workers. */
  lemma SchedulesExist(concurrency: nat)
    requires concurrency > 0
    ensures exists schedule :: Schedules(concurrency, schedule)
  {
    hide Completes;
    var schedule := (n: nat) => if n > 0 then SomeSchedule(Min(concurrency, n), n) else [];
    assert Schedules(concurrency, schedule);
  }

  lemma ScheduleCompletes(concurrency: nat, schedule: nat -> seq<Step>, answers: seq<Reading>)
    requires Schedules(concurrency, schedule) && answers != []
    ensures Completes(Min(concurrency, |answers|), answers, schedule(|answers|))
  {
    hide IsRun, Run, Blanks;
    var n := |answers|;
    assert Completes(Min(concurrency, n), Blanks(n), schedule(n));
    SameRuns(Min(concurrency, n), Blanks(n), answers, schedule(n));
  }

  /** The answers to some requests. */
  function Replies(dims: nat, server: seq<Text> -> Reply, requests: seq<seq<Text>>): (answers: seq<Reading>)
    ensures |answers| == |requests|
  {
    seq(|requests|, i requires 0 <= i < |requests| => Answer(|requests[i]|, dims, server(requests[i])))
  }

  function Requests(prepared: seq<Text>, batches: seq<Batch>): (requests: seq<seq<Text>>)
    requires InRange(batches, |prepared|)
    ensures |requests| == |batches|
  {
    seq(|batches|, i requires 0 <= i < |batches| => prepared[batches[i].start..batches[i].end])
  }

  lemma RepliesAreAnswers(prepared: seq<Text>, dims: nat, server: seq<Text> -> Reply, batches: seq<Batch>)
    requires InRange(batches, |prepared|)
    ensures Replies(dims, server, Requests(prepared, batches)) == Answers(prepared, dims, server, batches)
  {
    hide Answer;
  }

  lemma NoCutFails(t: Tokenizer, texts: seq<Text>, counts: seq<nat>, bound: nat, prepared: seq<Text>)
    requires |texts| == |counts| && AllPrepared(t, texts, counts, bound, prepared)
    ensures !exists fault :: CutFails(t, texts, counts, bound, fault)
  {
    hide CutText;
    forall fault ensures !CutFails(t, texts, counts, bound, fault) {
      forall i | 0 <= i < |texts| && counts[i] > bound ensures CutText(t, texts[i], bound).Ok? {
        assert IsPrepared(t, texts[i], counts[i], bound, prepared[i]);
      }
    }
  }

  lemma IsTheOutcome(
    t: Tokenizer, texts: seq<Text>, counts: seq<nat>, bound: nat, dims: nat, budget: nat, most: nat,
    server: seq<Text> -> Reply, prepared: seq<Text>, batches: seq<Batch>)
    requires texts != [] && TokenCounts(t, texts) == Ok(counts) && AllPrepared(t, texts, counts, bound, prepared)
    requires IsPlan(Costs(counts, bound), batches, 0, |counts|, budget, most) && InRange(batches, |prepared|)
    ensures var r := InOrder(Answers(prepared, dims, server, batches));
            IsOutcome(t, texts, bound, dims, budget, most, server, r) && Counted(r, |texts|) == r
  {
    hide CutFails, AllPrepared, IsPlan, InRange, InOrder, Answers, Costs, Tokenizes;
    NoCutFails(t, texts, counts, bound, prepared);
    AsManyPrepared(t, texts, counts, bound, prepared);
    OneVectorEach(Costs(counts, bound), batches, budget, most, prepared, dims, server);
  }

  lemma AsManyPrepared(t: Tokenizer, texts: seq<Text>, counts: seq<nat>, bound: nat, prepared: seq<Text>)
    requires |texts| == |counts| && AllPrepared(t, texts, counts, bound, prepared)
    ensures |prepared| == |texts|
  {
  }

  /** Embeds texts in requests the server takes: counts their tokens, cuts those over
      the bound, closes each batch on the budget, and sends the batches one after
      another or several at once. */
  method EmbedPrefixed(
    t: Tokenizer, texts: seq<Text>, bound: nat, dims: nat, budget: nat, most: nat, server: seq<Text> -> Reply,
    concurrency: nat, schedule: nat -> seq<Step>)
    returns (r: Reading, ghost requests: seq<seq<Text>>)
    requires concurrency > 1 ==> Schedules(concurrency, schedule)
    ensures IsOutcome(t, texts, bound, dims, budget, most, server, r)
    ensures forall request :: request in requests ==> RequestFits(t, request, bound, budget, most)
    ensures requests != [] || r.Ok? ==> r == InOrder(Replies(dims, server, requests))
    ensures r.Ok? ==> |r.value| == |texts|
  {
    hide CutText, IsPlan, InOrder, Answer, Costs, Tokenizes, Schedules, IsRun, Run, AllGone, IsOutcome, RequestFits;
    requests := [];
    NoRequests(t, texts, bound, dims, budget, most, server);
    if texts == [] {
      return Ok([]), [];
    }
    var counted := TokenCounts(t, texts);
    if counted.Err? {
      return Err(counted.fault), [];
    }
    var counts := counted.value;
    var cut := Prepare(t, texts, counts, bound);
    if cut.Err? {
      IsTheCutFault(t, texts, counts, bound, dims, budget, most, server, cut.fault);
      return Err(cut.fault), [];
    }
    var prepared := cut.value;
    var batches := MakeBatches(counts, bound, budget, most);
    PlanIsInRange(Costs(counts, bound), batches, 0, |counts|, budget, most);
    IsTheOutcome(t, texts, counts, bound, dims, budget, most, server, prepared, batches);
    RequestsFit(t, texts, counts, bound, prepared, batches, budget, most);
    RepliesAreAnswers(prepared, dims, server, batches);
    requests := Requests(prepared, batches);
    if concurrency <= 1 || |batches| <= 1 {
      r := EmbedInOrder(prepared, dims, server, batches, |texts|);
    } else {
      ScheduleCompletes(concurrency, schedule, Answers(prepared, dims, server, batches));
      r := EmbedInFlight(prepared, dims, server, batches, |texts|, concurrency, schedule(|batches|));
    }
  }

  lemma NoRequests(
    t: Tokenizer, texts: seq<Text>, bound: nat, dims: nat, budget: nat, most: nat, server: seq<Text> -> Reply)
    ensures texts == [] ==> IsOutcome(t, texts, bound, dims, budget, most, server, Ok([]))
    ensures texts != [] && TokenCounts(t, texts).Err? ==>
              IsOutcome(t, texts, bound, dims, budget, most, server, Err(TokenCounts(t, texts).fault))
    ensures InOrder(Replies(dims, server, [])) == Ok([])
  {
  }

  lemma IsTheCutFault(
    t: Tokenizer, texts: seq<Text>, counts: seq<nat>, bound: nat, dims: nat, budget: nat, most: nat,
    server: seq<Text> -> Reply, fault: Fault)
    requires texts != [] && TokenCounts(t, texts) == Ok(counts) && CutFails(t, texts, counts, bound, fault)
    ensures IsOutcome(t, texts, bound, dims, budget, most, server, Err(fault))
  {
    hide CutFails, AllPrepared, IsPlan, InRange, InOrder, Answers, Costs, Tokenizes;
  }
}
