/** Which text stands for one that is too long: the head of it, as the tokenizer gives
    it back. */
module EmbeddingCuts {
  import opened Embedding
  import opened Wrappers

  /** Tokens kept in a round of cutting: eight short of the bound, sixteen fewer in each
      round after the first, and never none. */
  function Kept(bound: nat, round: nat): nat {
    if bound > 8 + 16 * round then bound - 8 - 16 * round else 1
  }

  /** The first `n` tokens, or all there are. */
  function FirstOf(ids: seq<Token>, n: nat): seq<Token> {
    if n <= |ids| then ids[..n] else ids
  }

  /** `head` is what the tokenizer makes of a text's first `n` tokens. */
  predicate IsHead(t: Tokenizer, text: Text, n: nat, head: Text) {
    t.encode(text).Some? && t.decode(FirstOf(t.encode(text).value, n)) == Some(head)
  }

  predicate IsOver(t: Tokenizer, text: Text, bound: nat) {
    t.encode(text).Some? && |t.encode(text).value| > bound
  }

  /** Texts over the bound, but for the last, each the head of the one before it; the
      first of them is cut in round `round`. */
  predicate IsChain(t: Tokenizer, bound: nat, round: nat, texts: seq<Text>) {
    && texts != []
    && forall k :: 0 <= k < |texts| - 1 ==>
         IsOver(t, texts[k], bound) && IsHead(t, texts[k], Kept(bound, round + k), texts[k + 1])
  }

  /** A text that is too long, and of which the tokenizer gives back what it was given, is
      sent as its first tokens and nothing else. */
  lemma LongTextsKeepTheirHead(
    t: Tokenizer, text: Text, bound: nat, ids: seq<Token>, head: Text, prepared: Text)
    requires bound >= 1 && t.encode(text) == Some(ids) && |ids| > bound
    requires var n := if bound >= 9 then bound - 8 else 1;
             t.decode(ids[..n]) == Some(head) && t.encode(head) == Some(ids[..n])
    ensures CutText(t, text, bound) == Ok(head)
    ensures IsPrepared(t, text, |ids| + 2, bound, prepared) <==> prepared == head
  {
    assert CutText(t, text, bound) == Cut(t, head, if bound >= 25 then bound - 24 else 1, bound, 4);
  }

  lemma NextRound(t: Tokenizer, text: Text, bound: nat, round: nat, head: Text)
    requires round < 5 && IsOver(t, text, bound) && IsHead(t, text, Kept(bound, round), head)
    ensures Cut(t, text, Kept(bound, round), bound, 5 - round)
         == Cut(t, head, Kept(bound, round + 1), bound, 5 - (round + 1))
  {
    var ids := t.encode(text).value;
    assert ids[..|ids|] == ids;
  }

  /** A chain comes to what its last text comes to. */
  lemma {:induction false} ChainDecides(t: Tokenizer, bound: nat, round: nat, texts: seq<Text>)
    requires IsChain(t, bound, round, texts) && round + |texts| <= 6
    ensures Cut(t, texts[0], Kept(bound, round), bound, 5 - round)
         == Cut(t, texts[|texts| - 1], Kept(bound, round + |texts| - 1), bound, 6 - round - |texts|)
    decreases |texts|
  {
    hide Cut, Kept, IsOver, IsHead;
    if |texts| > 1 {
      NextRound(t, texts[0], bound, round, texts[1]);
      var rest := texts[1..];
      forall k | 0 <= k < |rest| - 1
        ensures IsOver(t, rest[k], bound) && IsHead(t, rest[k], Kept(bound, round + 1 + k), rest[k + 1])
      {
        assert rest[k] == texts[k + 1] && rest[k + 1] == texts[k + 2];
      }
      ChainDecides(t, bound, round + 1, rest);
    }
  }

  /** How far the cutting can go. */
  predicate Ends(t: Tokenizer, bound: nat, round: nat, last: Text) {
    || round == 5
    || !IsOver(t, last, bound)
    || t.decode(FirstOf(t.encode(last).value, Kept(bound, round))).None?
  }

  lemma {:induction false} SomeChain(t: Tokenizer, text: Text, bound: nat, round: nat) returns (texts: seq<Text>)
    requires round <= 5
    ensures IsChain(t, bound, round, texts) && texts[0] == text && round + |texts| <= 6
    ensures Ends(t, bound, round + |texts| - 1, texts[|texts| - 1])
    decreases 5 - round
  {
    hide Kept;
    if Ends(t, bound, round, text) {
      texts := [text];
    } else {
      var head := t.decode(FirstOf(t.encode(text).value, Kept(bound, round))).value;
      var rest := SomeChain(t, head, bound, round + 1);
      texts := [text] + rest;
      forall k | 0 <= k < |texts| - 1
        ensures IsOver(t, texts[k], bound) && IsHead(t, texts[k], Kept(bound, round + k), texts[k + 1])
      {
        if k > 0 {
          assert texts[k] == rest[k - 1] && texts[k + 1] == rest[k];
        }
      }
    }
  }

  lemma LastRound(t: Tokenizer, last: Text, bound: nat, round: nat)
    requires round <= 5 && Ends(t, bound, round, last)
    ensures Cut(t, last, Kept(bound, round), bound, 5 - round) ==
            if round == 5 then Err(DoesNotConverge)
            else if t.encode(last).None? then Err(Untokenized)
            else if |t.encode(last).value| <= bound then Ok(last)
            else Err(Undecoded)
  {
    if t.encode(last).Some? {
      var ids := t.encode(last).value;
      assert ids[..|ids|] == ids;
    }
  }

  /** What becomes of any text at all: for one chain of heads that begins with it, of at
      most five rounds, the last text if it is within the bound; the tokenizer's
      failure if it cannot be encoded, or its head not decoded; and a failure to
      converge after five. */
  lemma CutIsTheLastHead(t: Tokenizer, text: Text, bound: nat) returns (texts: seq<Text>)
    ensures IsChain(t, bound, 0, texts) && texts[0] == text && |texts| <= 6
    ensures var last := texts[|texts| - 1];
            CutText(t, text, bound) ==
            if |texts| == 6 then Err(DoesNotConverge)
            else if t.encode(last).None? then Err(Untokenized)
            else if |t.encode(last).value| <= bound then Ok(last)
            else Err(Undecoded)
    ensures CutText(t, text, bound) == Err(Undecoded) ==>
              var last := texts[|texts| - 1];
              IsOver(t, last, bound) && t.decode(FirstOf(t.encode(last).value, Kept(bound, |texts| - 1))).None?
  {
    hide Cut, Kept, FirstOf;
    texts := SomeChain(t, text, bound, 0);
    ChainDecides(t, bound, 0, texts);
    LastRound(t, texts[|texts| - 1], bound, |texts| - 1);
    CutTextStarts(t, text, bound);
  }

  lemma CutTextStarts(t: Tokenizer, text: Text, bound: nat)
    ensures CutText(t, text, bound) == Cut(t, text, Kept(bound, 0), bound, 5)
  {
  }

  /** A text is accepted as another exactly when a chain of at most four heads leads from
      the one to the other and only the other is within the bound. */
  lemma AcceptedExactly(t: Tokenizer, text: Text, bound: nat, sent: Text)
    ensures CutText(t, text, bound) == Ok(sent) <==>
            exists texts: seq<Text> ::
              && IsChain(t, bound, 0, texts) && texts[0] == text && |texts| <= 5
              && texts[|texts| - 1] == sent && t.encode(sent).Some? && |t.encode(sent).value| <= bound
  {
    hide Cut, Kept, FirstOf;
    CutTextStarts(t, text, bound);
    if CutText(t, text, bound) == Ok(sent) {
      var texts := CutIsTheLastHead(t, text, bound);
      assert IsChain(t, bound, 0, texts);
    }
    if texts: seq<Text> :|
      && IsChain(t, bound, 0, texts) && texts != [] && texts[0] == text && |texts| <= 5
      && texts[|texts| - 1] == sent && t.encode(sent).Some? && |t.encode(sent).value| <= bound
    {
      ChainDecides(t, bound, 0, texts);
      LastRound(t, sent, bound, |texts| - 1);
    }
  }

  // ----- What a text is charged, and which fault a reply has -----

  /** A text of `n` tokens is charged two more, never more than the bound, and never
      nothing. */
  lemma ChargeOfText(t: Tokenizer, texts: seq<Text>, bound: nat, i: nat)
    requires i < |texts| && Tokenizes(t, texts)
    ensures var n := |t.encode(texts[i]).value|;
            Costs(TokenCounts(t, texts).value, bound)[i] ==
            if n + 2 <= bound then n + 2 else if bound >= 1 then bound else 1
  {
  }

  /** The row has an index below `n` and a vector of the width asked for. */
  predicate IsGoodRow(row: Row, n: nat, dims: nat) {
    row.index.Some? && row.index.value < n && row.embedding.Some? && |row.embedding.value| == dims
  }

  lemma {:induction false} PlacedToTheFirstFault(rows: seq<Row>, k: nat, n: nat, dims: nat)
    requires k < |rows| && (forall j :: 0 <= j < k ==> IsGoodRow(rows[j], n, dims)) && !IsGoodRow(rows[k], n, dims)
    ensures PlaceRows(rows, n, dims) ==
            if rows[k].index.None? then Err(NoIndex)
            else if rows[k].index.value >= n then Err(IndexOutOfRange)
            else if rows[k].embedding.None? then Err(NoEmbedding)
            else Err(WrongWidth)
    decreases |rows|
  {
    var front := rows[..|rows| - 1];
    if k < |front| {
      PlacedToTheFirstFault(front, k, n, dims);
    } else {
      PlacedWhenFine(front, n, dims);
    }
  }

  /** A reply of the right number of rows fails for its first bad row, and for what that
      row lacks: an index, one in range, a vector, one of the right width, in that order. */
  lemma FirstBadRowDecides(n: nat, dims: nat, rows: seq<Row>, k: nat)
    requires |rows| == n && k < n
    requires (forall j :: 0 <= j < k ==> IsGoodRow(rows[j], n, dims)) && !IsGoodRow(rows[k], n, dims)
    ensures Answer(n, dims, Data(rows)) ==
            if rows[k].index.None? then Err(NoIndex)
            else if rows[k].index.value >= n then Err(IndexOutOfRange)
            else if rows[k].embedding.None? then Err(NoEmbedding)
            else Err(WrongWidth)
  {
    hide PlaceRows;
    PlacedToTheFirstFault(rows, k, n, dims);
  }
}
