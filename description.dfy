/** The `description` field of the category listing: a left fold over the
    body's blocks with the accumulator `{text, found}`, whose `text` is
    then projected out. */
module Description {
  import opened BlogModel

  /** The fold's accumulator. */
  datatype Acc = Acc(text: Text, found: bool)

  /** The initial value `{text: null, found: false}`. */
  const Start := Acc(NullText, false)

  predicate IsParagraph(b: Block) {
    b.kind == "paragraph"
  }

  /** A quote or a header: the blocks that may fill an empty accumulator. */
  predicate IsQuoteOrHeader(b: Block) {
    b.kind == "quote" || b.kind == "header"
  }

  /** A quote or header that, reaching an empty accumulator, fills it for good:
      its text is anything but null (a missing text is not equal to null). */
  predicate Settles(b: Block) {
    IsQuoteOrHeader(b) && b.text != NullText
  }

  /** One step of the fold: a found accumulator is kept; a paragraph is taken
      and marks it found; a quote or header is taken while the text is null. */
  function Step(acc: Acc, b: Block): (r: Acc)
    ensures acc.found ==> r == acc
    ensures !IsParagraph(b) && !IsQuoteOrHeader(b) ==> r == acc
    ensures !acc.found && IsParagraph(b) ==> r == Acc(b.text, true)
    ensures !acc.found && !IsParagraph(b) ==> !r.found
  {
    if acc.found then acc
    else if b.kind == "paragraph" then Acc(b.text, true)
    else if b.kind == "quote" && acc.text == NullText then Acc(b.text, false)
    else if b.kind == "header" && acc.text == NullText then Acc(b.text, false)
    else acc
  }

  /** The blocks folded left to right: the result is found exactly when the
      accumulator was or some block is a paragraph, and it is the accumulator
      itself or holds the text of one of the blocks. */
  function Fold(acc: Acc, bs: seq<Block>): (r: Acc)
    ensures r.found <==> acc.found || exists i :: 0 <= i < |bs| && IsParagraph(bs[i])
    ensures r == acc || exists i :: 0 <= i < |bs| && r.text == bs[i].text
    decreases |bs|
  {
    if bs == [] then acc
    else
      var r := Fold(Step(acc, bs[0]), bs[1..]);
      assert forall i :: 0 <= i < |bs| - 1 ==> bs[1..][i] == bs[i + 1];
      r
  }

  /** The `description` of a body: absent when it has no `blocks`, otherwise
      null or the text of one of its blocks. */
  function Describe(body: Body): (r: Text)
    ensures body.blocks.None? ==> r == Missing
    ensures body.blocks.Some? ==>
              r == NullText || exists i :: 0 <= i < |body.blocks.value| && r == body.blocks.value[i].text
  {
    match body.blocks
    case None => Missing
    case Some(bs) => Fold(Start, bs).text
  }

  /** Once found, the accumulator is left unchanged by every later block. */
  lemma {:induction false} FoundIsFinal(acc: Acc, bs: seq<Block>)
    requires acc.found
    ensures Fold(acc, bs) == acc
    decreases |bs|
  {
    if bs != [] {
      FoundIsFinal(Step(acc, bs[0]), bs[1..]);
    }
  }

  /** From any accumulator not yet found, the first paragraph decides the result. */
  lemma {:induction false} FoldToParagraph(acc: Acc, bs: seq<Block>, i: nat)
    requires !acc.found
    requires i < |bs| && IsParagraph(bs[i])
    requires forall j :: 0 <= j < i ==> !IsParagraph(bs[j])
    ensures Fold(acc, bs) == Acc(bs[i].text, true)
    decreases |bs|
  {
    if i == 0 {
      FoundIsFinal(Step(acc, bs[0]), bs[1..]);
    } else {
      FoldToParagraph(Step(acc, bs[0]), bs[1..], i - 1);
    }
  }

  /** The text of the first paragraph is the description, whatever comes before
      or after it (even when that text is null or missing). */
  lemma FirstParagraphWins(bs: seq<Block>, i: nat)
    requires i < |bs| && IsParagraph(bs[i])
    requires forall j :: 0 <= j < i ==> !IsParagraph(bs[j])
    ensures forall rest :: Describe(Body(Some(bs), rest)) == bs[i].text
  {
    FoldToParagraph(Start, bs, i);
  }

  /** Without paragraphs, an accumulator holding a non-null text keeps it. */
  lemma {:induction false} SettledIsKept(acc: Acc, bs: seq<Block>)
    requires !acc.found && acc.text != NullText
    requires forall j :: 0 <= j < |bs| ==> !IsParagraph(bs[j])
    ensures Fold(acc, bs) == acc
    decreases |bs|
  {
    if bs != [] {
      SettledIsKept(Step(acc, bs[0]), bs[1..]);
    }
  }

  /** Without paragraphs, an empty accumulator stays empty up to the first quote
      or header with a non-null text, and that block's text is kept to the end. */
  lemma {:induction false} FoldToSettling(bs: seq<Block>, i: nat)
    requires forall j :: 0 <= j < |bs| ==> !IsParagraph(bs[j])
    requires i < |bs| && Settles(bs[i])
    requires forall j :: 0 <= j < i ==> !Settles(bs[j])
    ensures Fold(Start, bs) == Acc(bs[i].text, false)
    decreases |bs|
  {
    if i == 0 {
      SettledIsKept(Step(Start, bs[0]), bs[1..]);
    } else {
      assert Step(Start, bs[0]) == Start;
      FoldToSettling(bs[1..], i - 1);
    }
  }

  /** With no paragraph, the description is the text of the first quote or
      header whose text is not null: an earlier header is not replaced by a
      later quote, nor an earlier quote by a later header. */
  lemma FirstQuoteOrHeaderWins(bs: seq<Block>, i: nat)
    requires forall j :: 0 <= j < |bs| ==> !IsParagraph(bs[j])
    requires i < |bs| && Settles(bs[i])
    requires forall j :: 0 <= j < i ==> !Settles(bs[j])
    ensures forall rest :: Describe(Body(Some(bs), rest)) == bs[i].text
  {
    FoldToSettling(bs, i);
  }

  /** With no paragraph and no quote or header carrying a non-null text (in
      particular with no blocks at all), the description is null. */
  lemma {:induction false} NothingSelectedIsNull(bs: seq<Block>)
    requires forall j :: 0 <= j < |bs| ==> !IsParagraph(bs[j]) && !Settles(bs[j])
    ensures Fold(Start, bs) == Start
    ensures forall rest :: Describe(Body(Some(bs), rest)) == NullText
    decreases |bs|
  {
    if bs != [] {
      assert Step(Start, bs[0]) == Start;
      NothingSelectedIsNull(bs[1..]);
    }
  }
}
