/** Replacing the generated block between two markers in a page. */
module MarkerBlock {
  import opened Prelude

  const START_MARKER := "{/* BEGIN_LMSYS_SGLANG_BLOG_CARDS */}"
  const END_MARKER := "{/* END_LMSYS_SGLANG_BLOG_CARDS */}"

  /** The first occurrence of `p` at or after `from`, or -1. */
  function Find(text: string, p: string, from: nat): (i: int)
    ensures i == -1 || (from <= i && At(text, p, i))
    ensures forall k :: from <= k && (i == -1 || k < i) ==> !At(text, p, k)
    decreases |text| - from
  {
    if from + |p| > |text| then -1
    else if At(text, p, from) then from
    else if from == |text| then -1
    else Find(text, p, from + 1)
  }

  /** What the pattern matches: a start marker at `i` and an end marker at `j` after it. */
  predicate Block(text: string, i: nat, j: nat) {
    At(text, START_MARKER, i) && i + |START_MARKER| <= j && At(text, END_MARKER, j)
  }

  datatype Found = NoBlock | Found(i: nat, j: nat)

  /** The search: the first start marker, then the first end marker behind it. */
  function FindBlock(text: string): (f: Found)
  {
    var i := Find(text, START_MARKER, 0);
    if i == -1 then NoBlock else
    var j := Find(text, END_MARKER, i + |START_MARKER|);
    if j == -1 then NoBlock else Found(i, j)
  }

  /** The search finds the leftmost match, and the shortest there; it fails only when there is no match at all. */
  lemma LeftmostShortest(text: string)
    ensures FindBlock(text).NoBlock? <==> forall i, j :: !Block(text, i, j)
    ensures FindBlock(text).Found? ==>
      var f := FindBlock(text);
      Block(text, f.i, f.j) && forall i, j :: Block(text, i, j) ==> f.i < i || (f.i == i && f.j <= j)
  {
    var i := Find(text, START_MARKER, 0);
    if i >= 0 {
      var j := Find(text, END_MARKER, i + |START_MARKER|);
      if j >= 0 { assert Block(text, i, j); }
      forall a: nat, b: nat | Block(text, a, b) ensures j >= 0 && (i < a || (i == a && j <= b)) {
        assert !(a < i);
        assert i + |START_MARKER| <= b;
      }
    }
  }

  datatype Result = Ok(text: string) | NoMarkerBlock

  function Rendered(cards: string): string {
    START_MARKER + "\n" + cards + "\n" + END_MARKER
  }

  /** Replaces the first block; a page without one is an error. */
  function ReplaceBlock(text: string, cards: string): (r: Result)
    ensures r.NoMarkerBlock? <==> FindBlock(text).NoBlock?
  {
    match FindBlock(text)
    case NoBlock => NoMarkerBlock
    case Found(i, j) =>
      Ok(text[..i] + Rendered(cards) + text[j + |END_MARKER|..])
  }

  // ---- where the block of a rendered page is -------------------------------------------------------

  /** A marker is not empty and fits on one line. */
  ghost predicate OneLine(e: string) {
    e != [] && forall k :: 0 <= k < |e| ==> e[k] != '\n'
  }

  lemma EndMarkerIsOneLine()
    ensures OneLine(END_MARKER)
  {
    assert |END_MARKER| == 35;
  }

  lemma AtShift(a: string, b: string, p: string, i: nat)
    ensures At(a + b, p, |a| + i) <==> At(b, p, i)
  {
    if i + |p| <= |b| { assert (a + b)[|a| + i..|a| + i + |p|] == b[i..i + |p|]; }
  }

  lemma AtFits(text: string, p: string, i: nat)
    requires At(text, p, i)
    ensures i + |p| <= |text|
  {}

  lemma AtPrefix(a: string, b: string, p: string, i: nat)
    requires i + |p| <= |a|
    ensures At(a + b, p, i) <==> At(a, p, i)
  {
    assert (a + b)[i..i + |p|] == a[i..i + |p|];
  }

  lemma AtChar(text: string, p: string, i: nat, k: nat)
    requires At(text, p, i) && i <= k < i + |p|
    ensures text[k] == p[k - i]
  {
    assert text[i..i + |p|][k - i] == text[k];
  }

  lemma FindUnique(text: string, p: string, from: nat, i: nat)
    requires from <= i && At(text, p, i) && forall k :: from <= k < i ==> !At(text, p, k)
    ensures Find(text, p, from) == i
  {
    var f := Find(text, p, from);
    assert f != -1 && f <= i;
  }

  /** The first end marker behind newline-delimited cards without one is the one that closes them. */
  lemma NoEarlierEnd(e: string, cards: string, rest: string, k: nat)
    requires OneLine(e) && !Contains(cards, e) && k < |cards| + 2
    ensures !At("\n" + cards + "\n" + rest, e, k)
  {
    var text := "\n" + cards + "\n" + rest;
    if At(text, e, k) {
      if k == 0 {
        AtChar(text, e, 0, 0);
      } else if k + |e| <= |cards| + 1 {
        var tail := "\n" + rest;
        assert text == "\n" + (cards + tail);
        AtShift("\n", cards + tail, e, k - 1);
        AtPrefix(cards, tail, e, k - 1);
        assert Contains(cards, e);
      } else {
        assert text[|cards| + 1] == '\n';
        AtChar(text, e, k, |cards| + 1);
      }
    }
  }

  lemma OwnEnd(e: string, head: string, cards: string, rest: string)
    requires OneLine(e) && At(rest, e, 0) && !Contains(cards, e)
    ensures Find(head + ("\n" + cards + "\n" + rest), e, |head|) == |head| + |cards| + 2
  {
    hide At, Find, Contains;
    var body := "\n" + cards + "\n" + rest;
    forall k | |head| <= k < |head| + |cards| + 2 ensures !At(head + body, e, k) {
      NoEarlierEnd(e, cards, rest, k - |head|);
      AtShift(head, body, e, k - |head|);
    }
    assert body == ("\n" + cards + "\n") + rest;
    AtShift("\n" + cards + "\n", rest, e, 0);
    AtShift(head, body, e, |cards| + 2);
    FindUnique(head + body, e, |head|, |head| + |cards| + 2);
  }

  lemma EarlyEnd(e: string, head: string, cards: string, rest: string)
    requires OneLine(e) && Contains(cards, e)
    ensures var j := Find(head + ("\n" + cards + "\n" + rest), e, |head|);
      |head| < j && j + |e| <= |head| + |cards| + 1
  {
    hide At, Find;
    var q: nat :| At(cards, e, q);
    AtFits(cards, e, q);
    var tail := "\n" + rest;
    var body := "\n" + cards + "\n" + rest;
    assert body == "\n" + (cards + tail);
    AtPrefix(cards, tail, e, q);
    AtShift("\n", cards + tail, e, q);
    AtShift(head, body, e, q + 1);
    assert At(head + body, e, |head| + (q + 1));
    NotAtNewline(e, head, body);
  }

  lemma NotAtNewline(e: string, head: string, body: string)
    requires OneLine(e) && |body| > 0 && body[0] == '\n'
    ensures !At(head + body, e, |head|)
  {
    if At(head + body, e, |head|) { AtChar(head + body, e, |head|, |head|); }
  }

  /** The page before its block's cards, and behind them. */
  function Head(text: string, f: Found): string
    requires f.Found? && f.i <= |text|
  {
    text[..f.i] + START_MARKER
  }

  function Tail(text: string, f: Found): string
    requires f.Found? && f.j + |END_MARKER| <= |text|
  {
    END_MARKER + text[f.j + |END_MARKER|..]
  }

  lemma Pieces(text: string, cards: string)
    requires FindBlock(text).Found?
    ensures var f := FindBlock(text);
      && f.i + |START_MARKER| <= f.j && f.j + |END_MARKER| <= |text|
      && Head(text, f) == text[..f.i + |START_MARKER|]
      && ReplaceBlock(text, cards) == Ok(Head(text, f) + ("\n" + cards + "\n" + Tail(text, f)))
  {
    var f := FindBlock(text);
    HeadIsPrefix(text, START_MARKER, f.i);
    Regroup(text[..f.i], START_MARKER, cards, END_MARKER, text[f.j + |END_MARKER|..]);
  }

  lemma HeadIsPrefix(text: string, p: string, i: nat)
    requires At(text, p, i)
    ensures text[..i] + p == text[..i + |p|]
  {
    assert text[..i] + text[i..i + |p|] == text[..i + |p|];
  }

  lemma Regroup(a: string, s: string, cards: string, e: string, z: string)
    ensures a + (s + "\n" + cards + "\n" + e) + z == (a + s) + ("\n" + cards + "\n" + (e + z))
  {}

  /** The start marker is found again where it was. */
  lemma StartStays(text: string, s: string, i: nat, body: string)
    requires Find(text, s, 0) == i
    ensures Find(text[..i + |s|] + body, s, 0) == i
  {
    var head := text[..i + |s|];
    assert text == head + text[i + |s|..];
    forall k | 0 <= k < i ensures !At(head + body, s, k) {
      AtPrefix(head, body, s, k);
      AtPrefix(head, text[i + |s|..], s, k);
    }
    AtPrefix(head, body, s, i);
    AtPrefix(head, text[i + |s|..], s, i);
    FindUnique(head + body, s, 0, i);
  }

  /** The end marker found in the new page closes the cards exactly when the cards hold no end marker. */
  lemma EndIsOurs(text: string, cards: string)
    requires FindBlock(text).Found?
    ensures var f := FindBlock(text); var g := FindBlock(ReplaceBlock(text, cards).text);
      && g.Found? && g.i == f.i
      && (!Contains(cards, END_MARKER) ==> g.j == f.i + |START_MARKER| + |cards| + 2)
      && (Contains(cards, END_MARKER) ==>
            f.i + |START_MARKER| < g.j && g.j + |END_MARKER| <= f.i + |START_MARKER| + |cards| + 1)
  {
    hide ReplaceBlock, Find, Contains;
    Pieces(text, cards);
    var f := FindBlock(text);
    var head, rest := Head(text, f), Tail(text, f);
    StartStays(text, START_MARKER, f.i, "\n" + cards + "\n" + rest);
    EndMarkerIsOneLine();
    assert At(rest, END_MARKER, 0);
    if Contains(cards, END_MARKER) {
      EarlyEnd(END_MARKER, head, cards, rest);
    } else {
      OwnEnd(END_MARKER, head, cards, rest);
    }
  }

  // ---- the laws ----------------------------------------------------------------------------------

  /** `i`, `j` is the leftmost block, and the shortest there. */
  ghost predicate FirstBlock(text: string, i: nat, j: nat) {
    Block(text, i, j) && forall a, b :: Block(text, a, b) ==> i < a || (i == a && j <= b)
  }

  lemma Spliced(text: string, cards: string)
    requires FindBlock(text).Found?
    ensures var f := FindBlock(text); var out := ReplaceBlock(text, cards).text; var tail := text[f.j + |END_MARKER|..];
      && |out| == f.i + |Rendered(cards)| + |tail|
      && out[..f.i] == text[..f.i]
      && out[f.i..f.i + |Rendered(cards)|] == Rendered(cards)
      && out[f.i + |Rendered(cards)|..] == tail
  {}

  /** A page without a block is an error and every other page is not; outside the leftmost, shortest block nothing
      changes, and the rendered cards stand where it was. */
  lemma OutsideUnchanged(text: string, cards: string, i: nat, j: nat)
    ensures ReplaceBlock(text, cards).NoMarkerBlock? <==> forall a, b :: !Block(text, a, b)
    ensures FirstBlock(text, i, j) ==>
      && ReplaceBlock(text, cards).Ok? && j + |END_MARKER| <= |text|
      && var out := ReplaceBlock(text, cards).text; var tail := text[j + |END_MARKER|..];
         && |out| == i + |Rendered(cards)| + |tail|
         && out[..i] == text[..i]
         && out[i..i + |Rendered(cards)|] == Rendered(cards)
         && out[i + |Rendered(cards)|..] == tail
  {
    LeftmostShortest(text);
    if FirstBlock(text, i, j) {
      var f := FindBlock(text);
      assert f == Found(i, j) by {
        hide FindBlock, At;
        assert Block(text, f.i, f.j);
      }
      Spliced(text, cards);
    }
  }

  /** What a page's block holds between the newlines after and before its markers. */
  function Cards(text: string): (r: Result) {
    match FindBlock(text)
    case NoBlock => NoMarkerBlock
    case Found(i, j) =>
      var from := i + |START_MARKER| + 1;
      if from <= j - 1 <= |text| then Ok(text[from..j - 1]) else NoMarkerBlock
  }

  /** Reading back what was written gives the cards, exactly when they hold no end marker. */
  lemma ReadBackIff(text: string, cards: string)
    requires FindBlock(text).Found?
    ensures Cards(ReplaceBlock(text, cards).text) == Ok(cards) <==> !Contains(cards, END_MARKER)
  {
    hide ReplaceBlock, FindBlock, Contains;
    EndIsOurs(text, cards);
    Pieces(text, cards);
    var f := FindBlock(text);
    var out := ReplaceBlock(text, cards).text;
    var from := f.i + |START_MARKER| + 1;
    if !Contains(cards, END_MARKER) {
      assert out[from..from + |cards|] == cards;
    }
  }

  /** Replacing twice is replacing once with the second cards, exactly when the first cards hold no end marker. */
  lemma ReplaceTwiceIff(text: string, first: string, second: string)
    requires FindBlock(text).Found?
    ensures ReplaceBlock(ReplaceBlock(text, first).text, second) == ReplaceBlock(text, second)
       <==> !Contains(first, END_MARKER)
  {
    var f := FindBlock(text);
    var once := ReplaceBlock(text, first).text;
    EndIsOurs(text, first);
    Spliced(text, first);
    Spliced(text, second);
    Spliced(once, second);
    var tail := text[f.j + |END_MARKER|..];
    var g := FindBlock(once);
    if !Contains(first, END_MARKER) {
      assert once[g.j + |END_MARKER|..] == tail;
    } else {
      assert |once[g.j + |END_MARKER|..]| > |tail|;
    }
  }

  /** Writing the same cards again changes nothing, exactly when they hold no end marker. */
  lemma IdempotentIff(text: string, cards: string)
    requires FindBlock(text).Found?
    ensures ReplaceBlock(ReplaceBlock(text, cards).text, cards) == ReplaceBlock(text, cards)
       <==> !Contains(cards, END_MARKER)
  {
    ReplaceTwiceIff(text, cards, cards);
  }

  /** Only the first of several blocks is replaced, and several are no error. */
  lemma LaterBlocksStay(text: string, cards: string, i: nat, j: nat)
    requires Block(text, i, j)
    ensures ReplaceBlock(text, cards).Ok?
    ensures FindBlock(text).j + |END_MARKER| <= i ==>
      var out := ReplaceBlock(text, cards).text; var shift := |out| - |text|;
      i + shift >= 0 && j + shift >= 0 && Block(out, i + shift, j + shift)
  {
    hide At, Find, FindBlock, ReplaceBlock, Head, Tail;
    LeftmostShortest(text);
    Pieces(text, cards);
    var f := FindBlock(text);
    var k := f.j + |END_MARKER|;
    if k <= i {
      var front := Head(text, f) + ("\n" + cards + "\n" + END_MARKER);
      SplitPage(text, cards, f, front);
      MovedAt(text[..k], front, text[k..], START_MARKER, i - k);
      MovedAt(text[..k], front, text[k..], END_MARKER, j - k);
    }
  }

  lemma SplitPage(text: string, cards: string, f: Found, front: string)
    requires f == FindBlock(text) && f.Found? && f.j + |END_MARKER| <= |text| && f.i <= |text|
    requires front == Head(text, f) + ("\n" + cards + "\n" + END_MARKER)
    ensures ReplaceBlock(text, cards) == Ok(front + text[f.j + |END_MARKER|..])
    ensures text == text[..f.j + |END_MARKER|] + text[f.j + |END_MARKER|..]
  {
    Pieces(text, cards);
    hide FindBlock, ReplaceBlock, Head;
    var back := text[f.j + |END_MARKER|..];
    assert Head(text, f) + ("\n" + cards + "\n" + (END_MARKER + back)) == front + back;
  }

  /** An occurrence behind a changed front moves with it. */
  lemma MovedAt(a: string, b: string, back: string, p: string, i: nat)
    ensures At(a + back, p, |a| + i) <==> At(b + back, p, |b| + i)
  {
    AtShift(a, back, p, i);
    AtShift(b, back, p, i);
  }
}
