/** What one request may cost: a budget armed on a thread for the length of a call,
    charged as it goes, and put back when the call is over. */
module Budget {
  import opened Wrappers

  const U64_MAX: nat := 0xffff_ffff_ffff_ffff

  type U64 = n: nat | n <= 0xffff_ffff_ffff_ffff

  /** What ran out. */
  datatype Exceeded = Rows | Bytes | Time | Cancelled

  datatype Limits = Limits(rows: Option<U64>, bytes: Option<U64>, time: Option<nat>)

  /** One request's budget: what it may spend, when it must stop, the number of the
      flag that cancels it, and what it has spent. */
  datatype Spending = Spending(limits: Limits, deadline: Option<nat>, cancel: nat, rows: U64, bytes: U64)

  datatype Outcome = Fine | Refused(what: Exceeded, used: nat, most: nat)

  /** Addition that stops at the largest 64-bit number. */
  function Sat(a: U64, b: U64): U64 {
    if a + b > U64_MAX then U64_MAX else a + b
  }

  lemma SatAssociates(a: U64, b: U64, c: U64)
    ensures Sat(Sat(a, b), c) == Sat(a, Sat(b, c))
  {
  }

  predicate Over(spent: U64, limit: Option<U64>) {
    limit.Some? && spent > limit.value
  }

  /** The instant a window ends, unless the clock cannot name it. */
  function DeadlineOf(time: Option<nat>, now: nat, last: nat): Option<nat> {
    if time.Some? && now + time.value <= last then Some(now + time.value) else None
  }

  function Fresh(limits: Limits, cancel: nat, now: nat, last: nat): Spending {
    Spending(limits, DeadlineOf(limits.time, now, last), cancel, 0, 0)
  }

  function Verdict(sp: Spending, rowsToo: bool): Outcome {
    if rowsToo && Over(sp.rows, sp.limits.rows) then Refused(Rows, sp.rows, sp.limits.rows.value)
    else if Over(sp.bytes, sp.limits.bytes) then Refused(Bytes, sp.bytes, sp.limits.bytes.value)
    else Fine
  }

  function Charged(sp: Spending, rows: U64, bytes: U64): Spending {
    sp.(rows := Sat(sp.rows, rows), bytes := Sat(sp.bytes, bytes))
  }

  /** Whether the request must stop whatever it has spent. */
  function Stopped(sp: Spending, cancelled: bool, now: nat): Outcome {
    if cancelled then Refused(Cancelled, 0, 0)
    else if sp.deadline.Some? && now >= sp.deadline.value then Refused(Time, 0, 0)
    else Fine
  }

  // ----- The operations -----

  function SpendStep(active: Option<Spending>, rows: U64, bytes: U64): (Option<Spending>, Outcome) {
    match active
    case None => (None, Fine)
    case Some(sp) => (Some(Charged(sp, rows, bytes)), Verdict(Charged(sp, rows, bytes), true))
  }

  function MaterialiseStep(active: Option<Spending>, bytes: U64, cancelled: bool, now: nat): (Option<Spending>, Outcome) {
    match active
    case None => (None, Fine)
    case Some(sp) =>
      if Stopped(sp, cancelled, now) != Fine then (active, Stopped(sp, cancelled, now))
      else (Some(Charged(sp, 0, bytes)), Verdict(Charged(sp, 0, bytes), false))
  }

  function CheckStep(active: Option<Spending>, cancelled: bool, now: nat): Outcome {
    if active.None? then Fine else Stopped(active.value, cancelled, now)
  }

  /** The flags that cancel requests, shared by every thread, by number. */
  class Flags {
    var raised: set<nat>

    constructor ()
      ensures raised == {}
    {
      raised := {};
    }
  }

  /** What a guard puts back. */
  class Guard {
    var previous: Option<Spending>
    const thread: Thread

    constructor (thread: Thread, previous: Option<Spending>)
      ensures this.thread == thread && this.previous == previous
    {
      this.thread := thread;
      this.previous := previous;
    }

    /** Restores the budget that was in force before this one. */
    method Drop()
      modifies this, thread
      ensures thread.active == old(previous) && previous == None
    {
      var restored := previous;
      previous := None;
      thread.active := restored;
    }
  }

  /** One thread's storage: the budget its request is running under, if any. */
  class Thread {
    var active: Option<Spending>

    constructor ()
      ensures active == None
    {
      active := None;
    }

    method Arm(limits: Limits, cancel: nat, flags: Flags, now: nat, last: nat) returns (guard: Guard)
      modifies this, flags
      ensures flags.raised == old(flags.raised) - {cancel}
      ensures fresh(guard) && guard.thread == this && guard.previous == old(active)
      ensures active == Some(Fresh(limits, cancel, now, last))
    {
      flags.raised := flags.raised - {cancel};
      guard := ArmAsItStands(limits, cancel, now, last);
    }

    method ArmAsItStands(limits: Limits, cancel: nat, now: nat, last: nat) returns (guard: Guard)
      modifies this
      ensures fresh(guard) && guard.thread == this && guard.previous == old(active)
      ensures active == Some(Fresh(limits, cancel, now, last))
    {
      var deadline := None;
      if limits.time.Some? && now + limits.time.value <= last {
        deadline := Some(now + limits.time.value);
      }
      var previous := active;
      active := Some(Spending(limits, deadline, cancel, 0, 0));
      guard := new Guard(this, previous);
    }

    method Check(flags: Flags, now: nat) returns (outcome: Outcome)
      ensures outcome == CheckStep(active, active.Some? && active.value.cancel in flags.raised, now)
    {
      if active.None? {
        return Fine;
      }
      var cancelled, deadline := active.value.cancel in flags.raised, active.value.deadline;
      if cancelled {
        return Refused(Cancelled, 0, 0);
      }
      if deadline.Some? && now >= deadline.value {
        return Refused(Time, 0, 0);
      }
      outcome := Fine;
    }

    /** Counts rows and their bytes, refusing when either runs out. */
    method Spend(rows: U64, bytes: U64) returns (outcome: Outcome)
      modifies this
      ensures (active, outcome) == SpendStep(old(active), rows, bytes)
    {
      if active.None? {
        return Fine;
      }
      active := Some(active.value.(rows := Sat(active.value.rows, rows)));
      active := Some(active.value.(bytes := Sat(active.value.bytes, bytes)));
      var spending := active.value;
      if spending.limits.rows.Some? {
        var most := spending.limits.rows.value;
        if spending.rows > most {
          return Refused(Rows, spending.rows, most);
        }
      }
      if spending.limits.bytes.Some? {
        var most := spending.limits.bytes.value;
        if spending.bytes > most {
          return Refused(Bytes, spending.bytes, most);
        }
      }
      outcome := Fine;
    }

    /** Counts bytes a statement holds on to. */
    method Materialise(bytes: U64, flags: Flags, now: nat) returns (outcome: Outcome)
      modifies this
      ensures (active, outcome)
           == MaterialiseStep(old(active), bytes, old(active).Some? && old(active).value.cancel in flags.raised, now)
    {
      if active.None? {
        return Fine;
      }
      var spending := active.value;
      if spending.cancel in flags.raised {
        return Refused(Cancelled, 0, 0);
      }
      if spending.deadline.Some? {
        if now >= spending.deadline.value {
          return Refused(Time, 0, 0);
        }
      }
      spending := spending.(bytes := Sat(spending.bytes, bytes));
      active := Some(spending);
      if spending.limits.bytes.Some? {
        var most := spending.limits.bytes.value;
        if spending.bytes > most {
          return Refused(Bytes, spending.bytes, most);
        }
      }
      outcome := Fine;
    }
  }

  // ----- The failure names its budget -----

  function Name(what: Exceeded): string {
    match what
    case Rows => "rows"
    case Bytes => "bytes"
    case Time => "time"
    case Cancelled => "cancelled"
  }

  const TAG := "budget="

  /** The detail a failure carries: the tag, the budget's name, and a sentence. */
  function Detail(what: Exceeded, said: string): string {
    TAG + Name(what) + " " + said
  }

  /** The characters Unicode calls white space. */
  predicate IsSpace(c: char) {
    || 0x09 <= c as int <= 0x0d || c == ' ' || c as int == 0x85 || c as int == 0xa0
    || c as int == 0x1680 || 0x2000 <= c as int <= 0x200a || 0x2028 <= c as int <= 0x2029
    || c as int == 0x202f || c as int == 0x205f || c as int == 0x3000
  }

  /** They are these twenty-five and no others. */
  lemma TheSpaces(c: char)
    ensures IsSpace(c) <==>
            c as int in [0x09, 0x0a, 0x0b, 0x0c, 0x0d, 0x20, 0x85, 0xa0, 0x1680,
                         0x2000, 0x2001, 0x2002, 0x2003, 0x2004, 0x2005, 0x2006, 0x2007, 0x2008, 0x2009, 0x200a,
                         0x2028, 0x2029, 0x202f, 0x205f, 0x3000]
  {
  }

  /** The first word of a text, if it has one. */
  function FirstWord(s: string): string {
    if s == "" then "" else if IsSpace(s[0]) then FirstWord(s[1..]) else Word(s)
  }

  function Word(s: string): string {
    if s == "" || IsSpace(s[0]) then "" else [s[0]] + Word(s[1..])
  }

  /** Which budget a detail names, if it is a budget's. */
  function Kind(detail: string): Option<Exceeded> {
    if !(TAG <= detail) then None
    else KindOfWord(FirstWord(detail[|TAG|..]))
  }

  function KindOfWord(word: string): Option<Exceeded> {
    match word
    case "rows" => Some(Rows)
    case "bytes" => Some(Bytes)
    case "time" => Some(Time)
    case "cancelled" => Some(Cancelled)
    case _ => None
  }

  predicate NoSpaces(s: string) {
    forall i :: 0 <= i < |s| ==> !IsSpace(s[i])
  }

  lemma {:induction false} WordStopsAtSpace(word: string, rest: string)
    requires NoSpaces(word)
    ensures Word(word + " " + rest) == word
  {
    if word != "" {
      var all := word + " " + rest;
      assert all[0] == word[0] && all[1..] == word[1..] + " " + rest;
      assert NoSpaces(word[1..]);
      WordStopsAtSpace(word[1..], rest);
    }
  }

  /** A client reads back the budget that ran out, whatever the sentence says. */
  lemma KindOfDetail(what: Exceeded, said: string)
    ensures Kind(Detail(what, said)) == Some(what)
  {
    var detail := Detail(what, said);
    assert detail[|TAG|..] == Name(what) + " " + said;
    WordStopsAtSpace(Name(what), said);
    assert FirstWord(detail[|TAG|..]) == Name(what);
  }

  /** Spaces, a word, and then nothing more or a space and anything. */
  predicate Parts(s: string, before: string, word: string, after: string) {
    && s == before + word + after
    && (forall i :: 0 <= i < |before| ==> IsSpace(before[i]))
    && (after == "" || IsSpace(after[0]))
  }

  ghost predicate BeginsWith(s: string, word: string) {
    exists before, after :: Parts(s, before, word, after)
  }

  lemma {:induction false} WordIs(s: string) returns (after: string)
    ensures s == Word(s) + after && (after == "" || IsSpace(after[0])) && NoSpaces(Word(s))
  {
    if s == "" || IsSpace(s[0]) {
      after := s;
    } else {
      after := WordIs(s[1..]);
      assert s == [s[0]] + s[1..];
      Regroup([s[0]], Word(s[1..]), after);
    }
  }

  lemma Regroup(a: string, b: string, c: string)
    ensures a + (b + c) == (a + b) + c
  {
  }

  lemma {:induction false} WordEnds(word: string, after: string)
    requires NoSpaces(word) && (after == "" || IsSpace(after[0]))
    ensures Word(word + after) == word
  {
    if word != "" {
      assert (word + after)[0] == word[0] && (word + after)[1..] == word[1..] + after;
      assert NoSpaces(word[1..]);
      WordEnds(word[1..], after);
    }
  }

  lemma {:induction false} SpacesAreSkipped(before: string, word: string, after: string)
    requires word != "" && NoSpaces(word) && (after == "" || IsSpace(after[0]))
    requires forall i :: 0 <= i < |before| ==> IsSpace(before[i])
    ensures FirstWord(before + word + after) == word
  {
    var s := before + word + after;
    if before == "" {
      assert s == word + after && s[0] == word[0];
      WordEnds(word, after);
    } else {
      assert s[0] == before[0] && s[1..] == before[1..] + word + after;
      SpacesAreSkipped(before[1..], word, after);
    }
  }

  lemma {:induction false} FirstWordIs(s: string) returns (before: string, after: string)
    ensures s == before + FirstWord(s) + after && (after == "" || IsSpace(after[0]))
    ensures forall i :: 0 <= i < |before| ==> IsSpace(before[i])
  {
    if s == "" {
      before, after := "", "";
    } else if IsSpace(s[0]) {
      before, after := FirstWordIs(s[1..]);
      before := [s[0]] + before;
      assert s == [s[0]] + s[1..] == before + FirstWord(s) + after;
    } else {
      after := WordIs(s);
      before := "";
    }
  }

  lemma NamesHaveNoSpaces(what: Exceeded)
    ensures Name(what) != "" && NoSpaces(Name(what))
  {
  }

  lemma NamesAreKinds(word: string, what: Exceeded)
    ensures KindOfWord(word) == Some(what) <==> word == Name(what)
  {
  }

  /** A detail names a budget exactly when the tag comes first, then any white space,
      then the budget's name as a whole word. */
  lemma KindExactly(detail: string, what: Exceeded)
    ensures Kind(detail) == Some(what) <==> TAG <= detail && BeginsWith(detail[|TAG|..], Name(what))
  {
    hide KindOfWord, Name, FirstWord, TAG;
    if TAG <= detail {
      var s := detail[|TAG|..];
      NamesAreKinds(FirstWord(s), what);
      FirstWordExactly(s, Name(what), what);
    }
  }

  lemma FirstWordExactly(s: string, word: string, what: Exceeded)
    requires word == Name(what)
    ensures FirstWord(s) == word <==> BeginsWith(s, word)
  {
    hide FirstWord, Name, IsSpace;
    if FirstWord(s) == word {
      var before, after := FirstWordIs(s);
      assert Parts(s, before, word, after);
    }
    NamesHaveNoSpaces(what);
    forall before, after | Parts(s, before, word, after)
      ensures FirstWord(s) == word
    {
      SpacesAreSkipped(before, word, after);
    }
  }

  /** The detail of a deadline, letter by letter. */
  lemma DeadlineDetail(said: string)
    ensures Detail(Time, said) == "budget=time " + said
  {
    assert TAG + Name(Time) + " " == "budget=time ";
  }

  // ----- When an armed request is stopped -----

  /** A budget after some charges. */
  function AfterCharges(sp: Spending, charges: seq<(U64, U64)>): Spending {
    if charges == [] then sp
    else
      var last := charges[|charges| - 1];
      Charged(AfterCharges(sp, charges[..|charges| - 1]), last.0, last.1)
  }

  lemma {:induction false} ChargesMoveNoDeadline(sp: Spending, charges: seq<(U64, U64)>)
    ensures AfterCharges(sp, charges).deadline == sp.deadline
  {
    if charges != [] {
      ChargesMoveNoDeadline(sp, charges[..|charges| - 1]);
    }
  }

  /** Whatever was charged, a request armed at `at` for a window is stopped by time at
      exactly the instants from `at + window` on, and never if it has no window or one
      whose end is past the last instant the clock can name; a cancellation comes first. */
  lemma StoppedExactlyFromItsEnd(
    limits: Limits, cancel: nat, at: nat, last: nat, charges: seq<(U64, U64)>, cancelled: bool, now: nat)
    ensures var outcome := CheckStep(Some(AfterCharges(Fresh(limits, cancel, at, last), charges)), cancelled, now);
            && (outcome == Refused(Cancelled, 0, 0) <==> cancelled)
            && (outcome == Refused(Time, 0, 0) <==>
                 !cancelled && exists window: nat :: limits.time == Some(window) && at + window <= last && at + window <= now)
            && (outcome.Refused? ==> outcome.what == Cancelled || outcome.what == Time)
  {
    ChargesMoveNoDeadline(Fresh(limits, cancel, at, last), charges);
  }
}
