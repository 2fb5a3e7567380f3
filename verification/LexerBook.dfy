/** The tables that the lexer of parser/lexer.go fills, as values: how an item is added, to
    which token comments are attributed, and what the tables mean for the text. */
module LexerBook {
  import opened Common
  import opened Utf8
  import opened FileInfo
  import opened Lexemes
  import opened SourceLines

  // --- What an error-free prefix of the input has led to ------------------------------------

  // Only whitespace from `a` to `b`.
  ghost predicate Blank(data: seq<byte>, a: nat, b: nat) {
    a <= b <= |data| && forall i :: a <= i < b ==> IsSpace(data[i] as int)
  }

  function PrevEnd(items: seq<ItemSpan>, i: nat): nat
    requires i <= |items|
  {
    if i == 0 then 0 else EndOf(items[i - 1])
  }

  ghost predicate GapAt(data: seq<byte>, items: seq<ItemSpan>, i: nat) {
    i < |items| && EndOf(items[i]) <= |data| && Blank(data, PrevEnd(items, i), items[i].offset)
  }

  // Items follow each other with nothing but whitespace between them, up to `end`.
  ghost predicate Tiled(data: seq<byte>, items: seq<ItemSpan>, end: nat) {
    (forall i: nat :: i < |items| ==> GapAt(data, items, i)) && Blank(data, PrevEnd(items, |items|), end)
  }

  predicate CommentText(data: seq<byte>, s: ItemSpan) {
    s.length >= 2 && EndOf(s) <= |data| && data[s.offset] == 47
      && (data[s.offset + 1] == 47 || data[s.offset + 1] == 42)
  }

  ghost predicate CommentAt(data: seq<byte>, items: seq<ItemSpan>, i: nat) {
    i < |items| && CommentText(data, items[i])
  }

  // A comment belongs to the token before it, or to the next token after it.
  ghost predicate Adjacent(data: seq<byte>, items: seq<ItemSpan>, c: CommentInfo) {
    && CommentAt(data, items, c.index)
    && c.attributedTo < |items| && !CommentAt(data, items, c.attributedTo)
    && (c.index == c.attributedTo + 1 ||
        (c.index < c.attributedTo && forall m: nat :: c.index < m < c.attributedTo ==> CommentAt(data, items, m)))
  }

  ghost predicate AttachedAt(data: seq<byte>, items: seq<ItemSpan>, cs: seq<CommentInfo>, base: nat, k: nat) {
    k < |cs| && cs[k].index < base && cs[k].attributedTo < base && Adjacent(data, items, cs[k])
  }

  ghost predicate RecordedAt(cs: seq<CommentInfo>, i: nat, k: nat) { k < |cs| && cs[k].index == i }

  ghost predicate Recorded(cs: seq<CommentInfo>, i: nat) { exists k: nat :: RecordedAt(cs, i, k) }

  // The comments before item `base` are recorded, each with a neighbouring token; from
  // `base` on there are only comments.
  ghost predicate Attributed(data: seq<byte>, items: seq<ItemSpan>, cs: seq<CommentInfo>, base: nat) {
    && base <= |items|
    && (forall i: nat :: base <= i < |items| ==> CommentAt(data, items, i))
    && (forall i: nat :: i < base && CommentAt(data, items, i) ==> Recorded(cs, i))
    && (forall k: nat :: k < |cs| ==> AttachedAt(data, items, cs, base, k))
  }

  datatype Pending = Pending(token: nat, isBlock: bool)

  function Base(prevSym: Option<nat>): nat {
    if prevSym.None? then 0 else prevSym.value + 1
  }

  ghost predicate PendingAfter(pending: seq<Pending>, j: nat) {
    0 < j < |pending| && pending[j - 1].token < pending[j].token
  }

  ghost predicate PendingIn(pending: seq<Pending>, j: nat, from: nat, to: nat) {
    j < |pending| && from <= pending[j].token < to
  }

  ghost predicate CommentBefore(cs: seq<CommentInfo>, k: nat, base: nat) {
    k < |cs| && cs[k].attributedTo < base && cs[k].index < base
  }

  // What holds on all runs: the comments of the current token come after everything
  // recorded and after the previous token.
  ghost predicate InOrder(items: seq<ItemSpan>, cs: seq<CommentInfo>, prevSym: Option<nat>, pending: seq<Pending>) {
    && Base(prevSym) <= |items|
    && (forall k: nat :: k < |cs| ==> CommentBefore(cs, k, Base(prevSym)))
    && (forall j: nat :: j < |pending| ==> PendingIn(pending, j, Base(prevSym), |items|))
    && (forall j: nat :: 0 < j < |pending| ==> PendingAfter(pending, j))
  }

  // On error-free runs the pending comments are all items after the previous token.
  ghost predicate AllPending(items: seq<ItemSpan>, prevSym: Option<nat>, pending: seq<Pending>) {
    Base(prevSym) + |pending| == |items| && forall j :: 0 <= j < |pending| ==> pending[j].token == Base(prevSym) + j
  }

  // --- Adding an item ------------------------------------------------------------------------

  lemma TiledAdd(data: seq<byte>, items: seq<ItemSpan>, mark: nat, pos: nat)
    requires Tiled(data, items, mark) && mark <= pos <= |data|
    ensures Tiled(data, items + [ItemSpan(mark, pos - mark)], pos)
  {
    var items' := items + [ItemSpan(mark, pos - mark)];
    forall i: nat | i < |items'|
      ensures GapAt(data, items', i)
    {
      if i < |items| {
        assert GapAt(data, items, i);
      }
    }
  }

  lemma CommentStays(data: seq<byte>, items: seq<ItemSpan>, s: ItemSpan, i: nat)
    requires i < |items|
    ensures CommentAt(data, items + [s], i) == CommentAt(data, items, i)
  {
  }

  lemma AdjacentStays(data: seq<byte>, items: seq<ItemSpan>, s: ItemSpan, c: CommentInfo)
    requires Adjacent(data, items, c)
    ensures Adjacent(data, items + [s], c)
  {
    CommentStays(data, items, s, c.index);
    CommentStays(data, items, s, c.attributedTo);
    forall m: nat | c.index < m < c.attributedTo
      ensures CommentAt(data, items + [s], m)
    {
      CommentStays(data, items, s, m);
    }
  }

  lemma AttributedAddComment(data: seq<byte>, items: seq<ItemSpan>, cs: seq<CommentInfo>, base: nat, s: ItemSpan)
    requires Attributed(data, items, cs, base) && CommentText(data, s)
    ensures Attributed(data, items + [s], cs, base)
  {
    forall k: nat | k < |cs|
      ensures AttachedAt(data, items + [s], cs, base, k)
    {
      assert AttachedAt(data, items, cs, base, k);
      AdjacentStays(data, items, s, cs[k]);
    }
    forall i: nat | i < |items|
      ensures CommentAt(data, items + [s], i) == CommentAt(data, items, i)
    {
      CommentStays(data, items, s, i);
    }
  }

  // The comments recorded when a token is finished: possibly the first one for the
  // previous token, the others for the new one.
  function Attributions(pending: seq<Pending>, prev: nat, token: nat, donate: bool): seq<CommentInfo> {
    seq(|pending|, j requires 0 <= j < |pending| =>
      CommentInfo(pending[j].token, if j == 0 && donate then prev else token))
  }

  // A pending comment is next to the token it goes to.
  lemma NewIsAdjacent(data: seq<byte>, items: seq<ItemSpan>, prevSym: Option<nat>, pending: seq<Pending>, s: ItemSpan,
                      donate: bool, j: nat)
    requires AllPending(items, prevSym, pending) && !CommentText(data, s) && j < |pending|
    requires forall i: nat :: Base(prevSym) <= i < |items| ==> CommentAt(data, items, i)
    requires prevSym.Some? && prevSym.value < |items| ==> !CommentAt(data, items, prevSym.value)
    requires donate ==> prevSym.Some?
    ensures var c := Attributions(pending, PrevToken(prevSym), |items|, donate)[j];
            c.index == Base(prevSym) + j && c.attributedTo <= |items| && Adjacent(data, items + [s], c)
  {
    forall i: nat | i < |items|
      ensures CommentAt(data, items + [s], i) == CommentAt(data, items, i)
    {
      CommentStays(data, items, s, i);
    }
  }

  // Finishing a token accounts for all comments before it.
  lemma AttributedAddToken(data: seq<byte>, items: seq<ItemSpan>, cs: seq<CommentInfo>, prevSym: Option<nat>,
                           pending: seq<Pending>, s: ItemSpan, donate: bool)
    requires Exact(data, items, cs, prevSym, pending) && !CommentText(data, s)
    requires donate ==> prevSym.Some?
    ensures Attributed(data, items + [s], cs + Attributions(pending, PrevToken(prevSym), |items|, donate), |items| + 1)
  {
    var items', base := items + [s], Base(prevSym);
    var new_ := Attributions(pending, PrevToken(prevSym), |items|, donate);
    var cs' := cs + new_;
    forall k: nat | k < |cs'|
      ensures AttachedAt(data, items', cs', |items'|, k)
    {
      if k < |cs| {
        assert AttachedAt(data, items, cs, base, k);
        AdjacentStays(data, items, s, cs[k]);
      } else {
        NewIsAdjacent(data, items, prevSym, pending, s, donate, k - |cs|);
      }
    }
    forall i: nat | i < |items'| && CommentAt(data, items', i)
      ensures Recorded(cs', i)
    {
      assert i < |items|;
      CommentStays(data, items, s, i);
      if i < base {
        assert Recorded(cs, i);
        var k: nat :| RecordedAt(cs, i, k);
        assert RecordedAt(cs', i, k);
      } else {
        assert new_[i - base].index == i;
        assert RecordedAt(cs', i, |cs| + (i - base));
      }
    }
  }

  ghost predicate Exact(data: seq<byte>, items: seq<ItemSpan>, cs: seq<CommentInfo>, prevSym: Option<nat>,
                        pending: seq<Pending>) {
    && Attributed(data, items, cs, Base(prevSym)) && AllPending(items, prevSym, pending)
    && (prevSym.Some? ==> !CommentAt(data, items, prevSym.value))
  }

  function PrevToken(prevSym: Option<nat>): nat {
    if prevSym.Some? then prevSym.value else 0
  }

  lemma InOrderAddToken(items: seq<ItemSpan>, cs: seq<CommentInfo>, prevSym: Option<nat>, pending: seq<Pending>,
                        s: ItemSpan, donate: bool)
    requires InOrder(items, cs, prevSym, pending) && (donate ==> prevSym.Some?)
    ensures InOrder(items + [s], cs + Attributions(pending, PrevToken(prevSym), |items|, donate), Some(|items|), [])
  {
    var cs', base := cs + Attributions(pending, PrevToken(prevSym), |items|, donate), Base(Some(|items|));
    forall k: nat | k < |cs'|
      ensures CommentBefore(cs', k, base)
    {
      if k < |cs| {
        assert CommentBefore(cs, k, Base(prevSym));
      } else {
        assert PendingIn(pending, k - |cs|, Base(prevSym), |items|);
      }
    }
  }

  lemma ExactAddToken(data: seq<byte>, items: seq<ItemSpan>, cs: seq<CommentInfo>, prevSym: Option<nat>,
                      pending: seq<Pending>, s: ItemSpan, donate: bool)
    requires Exact(data, items, cs, prevSym, pending) && !CommentText(data, s) && (donate ==> prevSym.Some?)
    ensures Exact(data, items + [s], cs + Attributions(pending, PrevToken(prevSym), |items|, donate), Some(|items|), [])
  {
    AttributedAddToken(data, items, cs, prevSym, pending, s, donate);
  }

  // The comments of a token can be recorded one after the other.
  lemma RecordNext(items: seq<ItemSpan>, cs: seq<CommentInfo>, prevSym: Option<nat>, pending: seq<Pending>,
      donate: bool, j: nat)
    requires InOrder(items, cs, prevSym, pending) && j < |pending|
    ensures var all := Attributions(pending, PrevToken(prevSym), |items|, donate);
            var done := cs + all[..j];
            && (|done| > 0 ==>
              && done[|done| - 1].index < all[j].index
              && done[|done| - 1].attributedTo <= all[j].attributedTo)
            && done + [all[j]] == cs + all[..j + 1]
  {
    assert j > 0 ==> PendingAfter(pending, j);
    assert PendingIn(pending, j, Base(prevSym), |items|);
    assert |cs| > 0 ==> CommentBefore(cs, |cs| - 1, Base(prevSym));
  }

  // What an item is: a comment, a token, or the empty token at the end of the file.
  ghost predicate ItemShape(data: seq<byte>, numberOk: seq<byte> -> bool, s: ItemSpan) {
    || CommentShape(data, s.offset, EndOf(s))
    || TokenText(data, numberOk, s.offset, EndOf(s))
    || s == ItemSpan(|data|, 0)
  }

  ghost predicate ShapedAt(data: seq<byte>, numberOk: seq<byte> -> bool, items: seq<ItemSpan>, i: nat) {
    i < |items| && ItemShape(data, numberOk, items[i])
  }

  ghost predicate Shaped(data: seq<byte>, numberOk: seq<byte> -> bool, items: seq<ItemSpan>) {
    forall i: nat :: i < |items| ==> ShapedAt(data, numberOk, items, i)
  }

  lemma ShapedAdd(data: seq<byte>, numberOk: seq<byte> -> bool, items: seq<ItemSpan>, s: ItemSpan)
    requires Shaped(data, numberOk, items) && ItemShape(data, numberOk, s)
    ensures Shaped(data, numberOk, items + [s])
  {
    var items' := items + [s];
    forall i: nat | i < |items'|
      ensures ShapedAt(data, numberOk, items', i)
    {
      if i < |items| {
        assert ShapedAt(data, numberOk, items, i) && items'[i] == items[i];
      } else {
        assert items'[i] == s;
      }
    }
  }

  lemma TokenIsNoComment(data: seq<byte>, numberOk: seq<byte> -> bool, a: nat, b: nat)
    requires TokenText(data, numberOk, a, b)
    ensures !CommentText(data, ItemSpan(a, b - a))
  {
  }

  // --- Losslessness and the partition of comments ------------------------------------------------

  lemma ItemBounds(data: seq<byte>, items: seq<ItemSpan>, n: nat)
    requires 0 < n <= |items| && ItemsOk(items, |data|)
    ensures PrevEnd(items, n - 1) <= items[n - 1].offset && EndOf(items[n - 1]) <= |data|
  {
    assert ItemWithin(items, n - 1, |data|);
    assert 0 < n - 1 ==> ItemAfter(items, n - 2, n - 1);
  }

  // LeadingWhitespace and RawText of all items in order.
  function Rebuilt(data: seq<byte>, items: seq<ItemSpan>, n: nat): seq<byte>
    requires n <= |items| && ItemsOk(items, |data|)
  {
    if n == 0 then []
    else
      ItemBounds(data, items, n);
      Rebuilt(data, items, n - 1) + data[PrevEnd(items, n - 1)..items[n - 1].offset] +
      data[items[n - 1].offset..EndOf(items[n - 1])]
  }

  lemma {:induction false} RebuiltIsPrefix(data: seq<byte>, items: seq<ItemSpan>, n: nat)
    requires n <= |items| && ItemsOk(items, |data|)
    ensures PrevEnd(items, n) <= |data| && Rebuilt(data, items, n) == data[..PrevEnd(items, n)]
  {
    if n > 0 {
      RebuiltIsPrefix(data, items, n - 1);
      ItemBounds(data, items, n);
      JoinSlices(data, PrevEnd(items, n - 1), items[n - 1].offset, EndOf(items[n - 1]));
    }
  }

  lemma JoinSlices(data: seq<byte>, a: nat, b: nat, c: nat)
    requires a <= b <= c <= |data|
    ensures data[..a] + data[a..b] + data[b..c] == data[..c]
  {
  }

  /** What lexing promises: the items with the whitespace before them give back the file, the
      gaps hold nothing but whitespace, and every item is a comment, a token or the end. */
  ghost predicate Lossless(data: seq<byte>, numberOk: seq<byte> -> bool, items: seq<ItemSpan>) {
    && ItemsOk(items, |data|) && Rebuilt(data, items, |items|) == data
    && (forall i: nat :: i < |items| ==> GapAt(data, items, i) && ShapedAt(data, numberOk, items, i))
  }

  /** Each comment is recorded exactly once, and is the comment before or after a token that is
      next to it. */
  ghost predicate Partitioned(data: seq<byte>, items: seq<ItemSpan>, cs: seq<CommentInfo>) {
    && (forall i: nat :: i < |items| && CommentAt(data, items, i) ==> Recorded(cs, i))
    && (forall i: nat, k: nat, k': nat :: RecordedAt(cs, i, k) && RecordedAt(cs, i, k') ==> k == k')
    && (forall k: nat :: k < |cs| ==> AttachedAt(data, items, cs, |items|, k))
  }

  lemma CleanIsLossless(data: seq<byte>, numberOk: seq<byte> -> bool, items: seq<ItemSpan>)
    requires ItemsOk(items, |data|) && Tiled(data, items, |data|) && Shaped(data, numberOk, items)
    requires PrevEnd(items, |items|) == |data|
    ensures Lossless(data, numberOk, items)
  {
    RebuiltIsPrefix(data, items, |items|);
    assert data[..|data|] == data;
  }

  lemma CleanIsPartitioned(data: seq<byte>, items: seq<ItemSpan>, cs: seq<CommentInfo>, prevSym: Option<nat>)
    requires Exact(data, items, cs, prevSym, []) && CommentsOk(cs)
    ensures Partitioned(data, items, cs)
  {
    assert Base(prevSym) == |items|;
    forall i: nat, k: nat, k': nat | RecordedAt(cs, i, k) && RecordedAt(cs, i, k')
      ensures k == k'
    {
      assert k < k' ==> CommentAfter(cs, k, k');
      assert k' < k ==> CommentAfter(cs, k', k);
    }
  }

  // --- The book ----------------------------------------------------------------------------------

  // The tables of the file and the fields of the lexer that go with them.
  datatype Book = Book(lines: seq<nat>, items: seq<ItemSpan>, cs: seq<CommentInfo>, prevSym: Option<nat>,
                       prevLine: nat, curLine: nat, maybeDonate: nat, pending: seq<Pending>)

  // maybeNewLine after a line end.
  function NewLine(b: Book, at: nat): Book {
    b.(lines := b.lines + [at], curLine := b.curLine + 1,
       maybeDonate := if |b.pending| > 0 && b.pending[0].isBlock && b.maybeDonate > 0 then b.maybeDonate + 1
         else b.maybeDonate)
  }

  // All line ends from `from` to `to`.
  function NewLines(b: Book, data: seq<byte>, from: nat, to: nat): Book
    requires from <= to <= |data|
  {
    if from == to then b
    else
      var b' := NewLines(b, data, from, to - 1);
      if data[to - 1] == 10 then NewLine(b', to) else b'
  }

  // addComment
  function Kept(b: Book, s: ItemSpan, isBlock: bool, startLine: nat): Book {
    b.(items := b.items + [s], pending := b.pending + [Pending(|b.items|, isBlock)],
       maybeDonate := if |b.pending| == 0 && startLine == b.prevLine then b.maybeDonate + 1 else b.maybeDonate)
  }

  // Whether the first pending comment goes to the previous token. The end of the file counts
  // as being on a line of its own.
  function Donates(b: Book, isEof: bool): (r: bool)
    ensures r ==> b.prevSym.Some? && |b.pending| > 0
  {
    && b.prevSym.Some? && |b.pending| > 0
    && (b.curLine > b.prevLine || (b.curLine == b.prevLine && isEof)) && b.maybeDonate > 0
    && (!b.pending[0].isBlock || |b.pending| > 1 || b.maybeDonate > 1)
  }

  // newToken and setPrevAndAddComments
  function Finished(b: Book, s: ItemSpan, isEof: bool): Book {
    Book(b.lines, b.items + [s],
         b.cs + Attributions(b.pending, PrevToken(b.prevSym), |b.items|, Donates(b, isEof)),
         Some(|b.items|), b.curLine, b.curLine, 0, [])
  }

  // --- Which comment is a trailing comment ---------------------------------------------------------

  // `p` and `s` are tokens with nothing but comments between them.
  ghost predicate Neighbours(data: seq<byte>, items: seq<ItemSpan>, p: nat, s: nat) {
    && p < s < |items| && !CommentAt(data, items, p) && !CommentAt(data, items, s)
    && (forall i: nat :: p < i < s ==> CommentAt(data, items, i))
  }

  function LastByte(s: ItemSpan): nat { if s.length == 0 then s.offset else EndOf(s) - 1 }

  predicate IsBlockText(data: seq<byte>, s: ItemSpan) { s.offset + 1 < |data| && data[s.offset + 1] == 42 }

  /** The first comment after token `p` is a trailing comment of it, `s` being the next token: it
      begins on the line of `p`, and `s` is on a later line or is the end of the file. A single
      block comment must also end on a line before that of `s`. */
  ghost predicate Trails(data: seq<byte>, lines: seq<nat>, items: seq<ItemSpan>, p: nat, s: nat) {
    && p + 1 < s < |items|
    && LineOf(lines, items[p + 1].offset) == LineOf(lines, items[p].offset)
    && (LineOf(lines, items[p].offset) < LineOf(lines, items[s].offset) || items[s].length == 0)
    && (IsBlockText(data, items[p + 1]) && s == p + 2 ==>
          LineOf(lines, LastByte(items[p + 1])) < LineOf(lines, items[s].offset))
  }

  // The record `k`, if it is of a comment between `p` and `s`, follows that rule.
  ghost predicate FollowsRule(data: seq<byte>, lines: seq<nat>, items: seq<ItemSpan>, cs: seq<CommentInfo>,
                              p: nat, s: nat, k: nat) {
    k < |cs| && p < cs[k].index < s ==>
      cs[k].attributedTo == if cs[k].index == p + 1 && Trails(data, lines, items, p, s) then p else s
  }

  ghost predicate RuledAt(data: seq<byte>, lines: seq<nat>, items: seq<ItemSpan>, cs: seq<CommentInfo>, p: nat,
      s: nat) {
    Neighbours(data, items, p, s) ==> forall k: nat :: FollowsRule(data, lines, items, cs, p, s, k)
  }

  /** Every comment between two tokens before item `base` is attributed by that rule. */
  ghost predicate Ruled(data: seq<byte>, lines: seq<nat>, items: seq<ItemSpan>, cs: seq<CommentInfo>, base: nat) {
    forall p: nat, s: nat :: s < base ==> RuledAt(data, lines, items, cs, p, s)
  }

  // Offsets in items do not move to another line when a line is added after them.
  ghost predicate EndBefore(items: seq<ItemSpan>, at: nat) {
    forall i: nat :: i < |items| ==> ItemEndsBy(items, i, at)
  }

  ghost predicate ItemEndsBy(items: seq<ItemSpan>, i: nat, at: nat) { i < |items| && EndOf(items[i]) <= at }

  lemma ItemsEndBefore(items: seq<ItemSpan>, size: nat, at: nat)
    requires ItemsOk(items, size) && PrevEnd(items, |items|) <= at
    ensures EndBefore(items, at)
  {
    forall i: nat | i < |items|
      ensures ItemEndsBy(items, i, at)
    {
      assert i < |items| - 1 ==> ItemAfter(items, i, |items| - 1);
    }
  }

  lemma TrailsStays(data: seq<byte>, lines: seq<nat>, items: seq<ItemSpan>, m: nat, l: nat, p: nat, s: nat)
    requires lines != [] && s < |items| && m < l
    requires p + 1 < s ==> ItemEndsBy(items, p, m) && ItemEndsBy(items, p + 1, m) && ItemEndsBy(items, s, m)
    ensures Trails(data, lines + [l], items, p, s) <==> Trails(data, lines, items, p, s)
  {
    if p + 1 < s {
      LineOfStays(lines, l, items[p].offset);
      LineOfStays(lines, l, items[p + 1].offset);
      LineOfStays(lines, l, LastByte(items[p + 1]));
      LineOfStays(lines, l, items[s].offset);
    }
  }

  lemma RuledAddLine(data: seq<byte>, lines: seq<nat>, items: seq<ItemSpan>, cs: seq<CommentInfo>, base: nat, m: nat,
      l: nat)
    requires Ruled(data, lines, items, cs, base) && lines != [] && m < l && EndBefore(items, m) && base <= |items|
    ensures Ruled(data, lines + [l], items, cs, base)
  {
    forall p: nat, s: nat | s < base
      ensures RuledAt(data, lines + [l], items, cs, p, s)
    {
      assert RuledAt(data, lines, items, cs, p, s);
      if Neighbours(data, items, p, s) {
        if p + 1 < s {
          assert ItemEndsBy(items, p, m) && ItemEndsBy(items, p + 1, m) && ItemEndsBy(items, s, m);
        }
        TrailsStays(data, lines, items, m, l, p, s);
        forall k: nat
          ensures FollowsRule(data, lines + [l], items, cs, p, s, k)
        {
          assert FollowsRule(data, lines, items, cs, p, s, k);
        }
      }
    }
  }

  lemma NeighboursStay(data: seq<byte>, items: seq<ItemSpan>, x: ItemSpan, p: nat, s: nat)
    requires s < |items|
    ensures Neighbours(data, items + [x], p, s) <==> Neighbours(data, items, p, s)
  {
    if p < s {
      CommentStays(data, items, x, p);
      CommentStays(data, items, x, s);
      forall i: nat | p < i < s
        ensures CommentAt(data, items + [x], i) <==> CommentAt(data, items, i)
      {
        CommentStays(data, items, x, i);
      }
    }
  }

  // Records of later comments do not matter for earlier tokens.
  lemma RuledAddItem(data: seq<byte>, lines: seq<nat>, items: seq<ItemSpan>, cs: seq<CommentInfo>, base: nat,
      x: ItemSpan, new_: seq<CommentInfo>)
    requires Ruled(data, lines, items, cs, base) && base <= |items|
    requires forall k :: 0 <= k < |new_| ==> base <= new_[k].index
    ensures Ruled(data, lines, items + [x], cs + new_, base)
  {
    forall p: nat, s: nat | s < base
      ensures RuledAt(data, lines, items + [x], cs + new_, p, s)
    {
      assert RuledAt(data, lines, items, cs, p, s);
      NeighboursStay(data, items, x, p, s);
      assert Trails(data, lines, items + [x], p, s) <==> Trails(data, lines, items, p, s);
      if Neighbours(data, items, p, s) {
        forall k: nat
          ensures FollowsRule(data, lines, items + [x], cs + new_, p, s, k)
        {
          assert FollowsRule(data, lines, items, cs, p, s, k);
        }
      }
    }
  }

  // --- What holds for the book ------------------------------------------------------------------------

  // On all runs, also after errors: what the tables accept without a panic.
  ghost predicate Ordered(data: seq<byte>, b: Book, end: nat) {
    && LinesOk(b.lines, |data|) && ItemsOk(b.items, |data|) && CommentsOk(b.cs)
    && InOrder(b.items, b.cs, b.prevSym, b.pending) && PrevEnd(b.items, |b.items|) <= end
    && b.curLine + 1 == |b.lines|
  }

  // What `maybeDonate` counts: whether the first pending comment begins on the line of the
  // previous token, and for a block comment the lines that have ended since.
  ghost predicate Counts(data: seq<byte>, b: Book) {
    if b.pending == [] then b.maybeDonate == 0
    else
      b.pending[0].token < |b.items| &&
      var first := b.items[b.pending[0].token];
      && b.pending[0].isBlock == IsBlockText(data, first)
      && LineOf(b.lines, LastByte(first)) <= b.curLine
      && b.maybeDonate ==
         if LineOf(b.lines, first.offset) != b.prevLine then 0
         else if b.pending[0].isBlock then 1 + b.curLine - LineOf(b.lines, LastByte(first))
         else 1
  }

  ghost predicate PrevLineOk(b: Book) {
    b.prevSym.Some? ==>
      b.prevSym.value < |b.items| && b.prevLine == LineOf(b.lines, b.items[b.prevSym.value].offset)
        && b.prevLine <= b.curLine
  }

  // On error-free runs.
  ghost predicate CleanBook(data: seq<byte>, b: Book, end: nat) {
    && Exact(data, b.items, b.cs, b.prevSym, b.pending) && Tiled(data, b.items, end)
    && Counts(data, b) && PrevLineOk(b) && Ruled(data, b.lines, b.items, b.cs, Base(b.prevSym))
  }

  /** Everything up to `end` has been turned into items, without an error. */
  ghost predicate Sound(data: seq<byte>, numberOk: seq<byte> -> bool, b: Book, end: nat) {
    Ordered(data, b, end) && Shaped(data, numberOk, b.items) && CleanBook(data, b, end)
  }

  const EMPTY_BOOK := Book([0], [], [], None, 0, 0, 0, [])

  // --- A line end -----------------------------------------------------------------------------------

  lemma CountsAddLine(data: seq<byte>, b: Book, m: nat, l: nat)
    requires Counts(data, b) && EndBefore(b.items, m) && m < l && b.lines != []
    ensures Counts(data, NewLine(b, l))
  {
    if b.pending != [] {
      var i := b.pending[0].token;
      assert ItemEndsBy(b.items, i, m);
      LineOfStays(b.lines, l, b.items[i].offset);
      LineOfStays(b.lines, l, LastByte(b.items[i]));
    }
  }

  lemma PrevLineAddLine(b: Book, m: nat, l: nat)
    requires PrevLineOk(b) && EndBefore(b.items, m) && m < l && b.lines != []
    ensures PrevLineOk(NewLine(b, l))
  {
    if b.prevSym.Some? {
      assert ItemEndsBy(b.items, b.prevSym.value, m);
      LineOfStays(b.lines, l, b.items[b.prevSym.value].offset);
    }
  }

  // A line end inside an item that began at `mark`, or in the whitespace there.
  lemma OrderedNewLine(data: seq<byte>, b: Book, mark: nat, l: nat)
    requires Ordered(data, b, mark) && l <= |data| && b.lines[|b.lines| - 1] < l
    ensures Ordered(data, NewLine(b, l), mark)
  {
    LinesAdd(b.lines, |data|, l);
  }

  lemma CleanNewLine(data: seq<byte>, b: Book, mark: nat, l: nat)
    requires CleanBook(data, b, mark) && EndBefore(b.items, mark) && mark < l && b.lines != []
    ensures CleanBook(data, NewLine(b, l), mark)
  {
    CountsAddLine(data, b, mark, l);
    PrevLineAddLine(b, mark, l);
    RuledAddLine(data, b.lines, b.items, b.cs, Base(b.prevSym), mark, l);
  }

  lemma NewLineSound(data: seq<byte>, numberOk: seq<byte> -> bool, b: Book, mark: nat, l: nat)
    requires Sound(data, numberOk, b, mark) && mark < l <= |data| && b.lines[|b.lines| - 1] < l
    ensures Sound(data, numberOk, NewLine(b, l), mark)
  {
    ItemsEndBefore(b.items, |data|, mark);
    OrderedNewLine(data, b, mark, l);
    CleanNewLine(data, b, mark, l);
  }

  lemma BlankSound(data: seq<byte>, numberOk: seq<byte> -> bool, b: Book, pos: nat)
    requires Sound(data, numberOk, b, pos) && pos < |data| && IsSpace(data[pos] as int)
    ensures Sound(data, numberOk, b, pos + 1)
  {
    TiledBlank(data, b.items, pos);
  }

  lemma TiledBlank(data: seq<byte>, items: seq<ItemSpan>, pos: nat)
    requires Tiled(data, items, pos) && pos < |data| && IsSpace(data[pos] as int)
    ensures Tiled(data, items, pos + 1)
  {
  }

  // Only lines were added, all of them after `mark`.
  ghost predicate OnlyLines(b: Book, b': Book, mark: nat, hi: nat) {
    && b'.items == b.items && b'.pending == b.pending && b'.prevSym == b.prevSym && b'.prevLine == b.prevLine
      && b'.cs == b.cs
    && b'.lines != [] && b'.lines[|b'.lines| - 1] <= hi && LineOf(b'.lines, mark) == LineOf(b.lines, mark)
    && (b.pending == [] ==> b'.maybeDonate == b.maybeDonate)
  }

  lemma {:induction false} NewLinesOnly(data: seq<byte>, b: Book, mark: nat, lo: nat, hi: nat)
    requires mark < lo <= hi <= |data| && b.lines != [] && b.lines[|b.lines| - 1] <= lo
    ensures OnlyLines(b, NewLines(b, data, lo, hi), mark, hi)
    ensures lo < hi && data[hi - 1] != 10 ==> OnlyLines(b, NewLines(b, data, lo, hi), mark, hi - 1)
    decreases hi
  {
    if lo < hi {
      NewLinesOnly(data, b, mark, lo, hi - 1);
      LineOfStays(NewLines(b, data, lo, hi - 1).lines, hi, mark);
    }
  }

  lemma {:induction false} OrderedNewLines(data: seq<byte>, b: Book, mark: nat, lo: nat, hi: nat)
    requires Ordered(data, b, mark) && mark < lo <= hi <= |data| && b.lines[|b.lines| - 1] <= lo
    ensures Ordered(data, NewLines(b, data, lo, hi), mark)
    decreases hi
  {
    if lo < hi {
      OrderedNewLines(data, b, mark, lo, hi - 1);
      NewLinesOnly(data, b, mark, lo, hi - 1);
      if data[hi - 1] == 10 {
        OrderedNewLine(data, NewLines(b, data, lo, hi - 1), mark, hi);
      }
    }
  }

  lemma {:induction false} NewLinesSound(data: seq<byte>, numberOk: seq<byte> -> bool, b: Book, mark: nat, lo: nat,
      hi: nat)
    requires Sound(data, numberOk, b, mark) && mark < lo <= hi <= |data| && b.lines[|b.lines| - 1] <= lo
    ensures Sound(data, numberOk, NewLines(b, data, lo, hi), mark)
    decreases hi
  {
    if lo < hi {
      NewLinesSound(data, numberOk, b, mark, lo, hi - 1);
      NewLinesOnly(data, b, mark, lo, hi - 1);
      if data[hi - 1] == 10 {
        NewLineSound(data, numberOk, NewLines(b, data, lo, hi - 1), mark, hi);
      }
    }
  }

  lemma {:induction false} NoNewLines(b: Book, data: seq<byte>, lo: nat, p: nat, q: nat)
    requires lo <= p <= q <= |data| && forall i :: p <= i < q ==> data[i] != 10
    ensures NewLines(b, data, lo, q) == NewLines(b, data, lo, p)
    decreases q
  {
    if p < q {
      NoNewLines(b, data, lo, p, q - 1);
    }
  }

  // A rune adds a line if it is a line end.
  lemma RuneLines(b: Book, data: seq<byte>, lo: nat, pos: nat)
    requires lo <= pos < |data|
    ensures var (c, n) := DecodeRune(data, pos);
            NewLines(b, data, lo, pos + n) ==
            if c == 10 then NewLine(NewLines(b, data, lo, pos), pos + n) else NewLines(b, data, lo, pos)
  {
    NoCloserInside(data, pos);
    if data[pos] != 10 {
      NoNewLines(b, data, lo, pos, pos + DecodeRune(data, pos).1);
    }
  }

  // --- A comment --------------------------------------------------------------------------------------

  lemma InOrderAddComment(items: seq<ItemSpan>, cs: seq<CommentInfo>, prevSym: Option<nat>, pending: seq<Pending>,
                          s: ItemSpan, isBlock: bool)
    requires InOrder(items, cs, prevSym, pending)
    ensures InOrder(items + [s], cs, prevSym, pending + [Pending(|items|, isBlock)])
  {
    var pending' := pending + [Pending(|items|, isBlock)];
    var n := |items + [s]|;
    forall j: nat | j < |pending'|
      ensures PendingIn(pending', j, Base(prevSym), n) && (0 < j ==> PendingAfter(pending', j))
    {
      assert j < |pending| ==> PendingIn(pending, j, Base(prevSym), |items|);
      assert 0 < j < |pending| ==> PendingAfter(pending, j);
      assert 0 < j == |pending| ==> PendingIn(pending, j - 1, Base(prevSym), |items|);
    }
  }

  lemma ExactAddComment(data: seq<byte>, items: seq<ItemSpan>, cs: seq<CommentInfo>, prevSym: Option<nat>,
                        pending: seq<Pending>, s: ItemSpan, isBlock: bool)
    requires Exact(data, items, cs, prevSym, pending) && CommentText(data, s)
    ensures Exact(data, items + [s], cs, prevSym, pending + [Pending(|items|, isBlock)])
  {
    AttributedAddComment(data, items, cs, Base(prevSym), s);
    if prevSym.Some? {
      CommentStays(data, items, s, prevSym.value);
    }
  }

  lemma CountsAddComment(data: seq<byte>, b: Book, s: ItemSpan, isBlock: bool, startLine: nat)
    requires Counts(data, b) && b.lines != [] && b.curLine + 1 == |b.lines| && s.length > 0
    requires startLine == LineOf(b.lines, s.offset) && b.lines[|b.lines| - 1] <= LastByte(s)
    requires isBlock == IsBlockText(data, s)
    ensures Counts(data, Kept(b, s, isBlock, startLine))
  {
    if b.pending == [] {
      LineOfLast(b.lines, LastByte(s));
    }
  }

  lemma PrevLineAddItem(b: Book, b': Book, s: ItemSpan)
    requires PrevLineOk(b) && b'.items == b.items + [s] && b'.lines == b.lines
    requires b'.prevSym == b.prevSym && b'.prevLine == b.prevLine && b'.curLine == b.curLine
    ensures PrevLineOk(b')
  {
  }

  lemma OrderedAddComment(data: seq<byte>, b: Book, mark: nat, pos: nat, isBlock: bool, startLine: nat)
    requires Ordered(data, b, mark) && mark <= pos <= |data|
    ensures Ordered(data, Kept(b, ItemSpan(mark, pos - mark), isBlock, startLine), pos)
  {
    var s := ItemSpan(mark, pos - mark);
    ItemsAdd(b.items, |data|, s);
    InOrderAddComment(b.items, b.cs, b.prevSym, b.pending, s, isBlock);
  }

  lemma CleanAddComment(data: seq<byte>, b: Book, mark: nat, pos: nat, isBlock: bool, startLine: nat)
    requires CleanBook(data, b, mark) && mark < pos <= |data| && b.lines != [] && b.curLine + 1 == |b.lines|
    requires CommentText(data, ItemSpan(mark, pos - mark)) && isBlock == (data[mark + 1] == 42)
    requires startLine == LineOf(b.lines, mark) && b.lines[|b.lines| - 1] < pos
    ensures CleanBook(data, Kept(b, ItemSpan(mark, pos - mark), isBlock, startLine), pos)
  {
    var s := ItemSpan(mark, pos - mark);
    ExactAddComment(data, b.items, b.cs, b.prevSym, b.pending, s, isBlock);
    TiledAdd(data, b.items, mark, pos);
    CountsAddComment(data, b, s, isBlock, startLine);
    PrevLineAddItem(b, Kept(b, s, isBlock, startLine), s);
    RuledAddItem(data, b.lines, b.items, b.cs, Base(b.prevSym), s, []);
    assert b.cs + [] == b.cs;
  }

  // The book after a comment from `mark` to `pos`, with the lines that end in it.
  function WithComment(b: Book, data: seq<byte>, mark: nat, pos: nat): Book
    requires mark + 2 <= pos <= |data|
  {
    var isBlock := data[mark + 1] == 42;
    Kept(if isBlock then NewLines(b, data, mark + 2, pos) else b, ItemSpan(mark, pos - mark), isBlock, b.curLine)
  }

  lemma OrderedComment(data: seq<byte>, b: Book, mark: nat, pos: nat)
    requires Ordered(data, b, mark) && b.lines[|b.lines| - 1] <= mark && mark + 2 <= pos <= |data|
    ensures Ordered(data, WithComment(b, data, mark, pos), pos)
  {
    OrderedNewLines(data, b, mark, mark + 2, pos);
    var isBlock := data[mark + 1] == 42;
    var b' := if isBlock then NewLines(b, data, mark + 2, pos) else b;
    OrderedAddComment(data, b', mark, pos, isBlock, b.curLine);
  }

  lemma KeptSound(data: seq<byte>, numberOk: seq<byte> -> bool, b: Book, mark: nat, pos: nat, startLine: nat)
    requires Sound(data, numberOk, b, mark) && pos <= |data| && CommentShape(data, mark, pos)
    requires startLine == LineOf(b.lines, mark) && b.lines[|b.lines| - 1] < pos
    ensures Sound(data, numberOk, Kept(b, ItemSpan(mark, pos - mark), data[mark + 1] == 42, startLine), pos)
  {
    var s, isBlock := ItemSpan(mark, pos - mark), data[mark + 1] == 42;
    OrderedAddComment(data, b, mark, pos, isBlock, startLine);
    ShapedAdd(data, numberOk, b.items, s);
    CleanAddComment(data, b, mark, pos, isBlock, startLine);
  }

  lemma BlockSound(data: seq<byte>, numberOk: seq<byte> -> bool, b: Book, mark: nat, pos: nat)
    requires Sound(data, numberOk, b, mark) && b.lines[|b.lines| - 1] <= mark && pos <= |data|
    requires CommentShape(data, mark, pos) && data[mark + 1] == 42
    ensures Sound(data, numberOk, WithComment(b, data, mark, pos), pos)
  {
    var b' := NewLines(b, data, mark + 2, pos);
    assert CloserAt(data, pos - 2);
    LineOfLast(b.lines, mark);
    NewLinesOnly(data, b, mark, mark + 2, pos);
    NewLinesSound(data, numberOk, b, mark, mark + 2, pos);
    KeptSound(data, numberOk, b', mark, pos, b.curLine);
  }

  lemma CommentSound(data: seq<byte>, numberOk: seq<byte> -> bool, b: Book, mark: nat, pos: nat)
    requires Sound(data, numberOk, b, mark) && b.lines[|b.lines| - 1] <= mark && pos <= |data|
        && CommentShape(data, mark, pos)
    ensures Sound(data, numberOk, WithComment(b, data, mark, pos), pos)
  {
    if data[mark + 1] == 42 {
      BlockSound(data, numberOk, b, mark, pos);
    } else {
      LineOfLast(b.lines, mark);
      KeptSound(data, numberOk, b, mark, pos, b.curLine);
    }
  }

  // --- A token ------------------------------------------------------------------------------------------

  // The counters say that the first comment goes to the previous token exactly when the
  // lines of the file do.
  lemma DonatesIffTrails(data: seq<byte>, b: Book, s: ItemSpan, isEof: bool)
    requires Counts(data, b) && PrevLineOk(b) && AllPending(b.items, b.prevSym, b.pending) && b.prevSym.Some?
    requires LineOf(b.lines, s.offset) == b.curLine && (isEof <==> s.length == 0)
    ensures Donates(b, isEof) <==> Trails(data, b.lines, b.items + [s], b.prevSym.value, |b.items|)
  {
    var items, p := b.items + [s], b.prevSym.value;
    assert items[p] == b.items[p] && items[|b.items|] == s;
    if b.pending != [] {
      assert b.pending[0].token == p + 1 && items[p + 1] == b.items[p + 1];
    }
  }

  // The new token rules over the comments before it.
  lemma RuledNewToken(data: seq<byte>, b: Book, s: ItemSpan, isEof: bool, p: nat)
    requires Exact(data, b.items, b.cs, b.prevSym, b.pending)
    requires b.prevSym.Some? ==> (Donates(b, isEof)
        <==> Trails(data, b.lines, b.items + [s], b.prevSym.value, |b.items|))
    ensures var b' := Finished(b, s, isEof); RuledAt(data, b'.lines, b'.items, b'.cs, p, |b.items|)
  {
    var b' := Finished(b, s, isEof);
    var n := |b.items|;
    if Neighbours(data, b'.items, p, n) {
      LastTokenIs(data, b, s, p);
      forall k: nat
        ensures FollowsRule(data, b'.lines, b'.items, b'.cs, p, n, k)
      {
        if k < |b.cs| {
          assert AttachedAt(data, b.items, b.cs, Base(b.prevSym), k);
          assert b'.cs[k] == b.cs[k];
        } else if k < |b'.cs| {
          assert b'.cs[k] == Attributions(b.pending, PrevToken(b.prevSym), n, Donates(b, isEof))[k - |b.cs|];
          assert b.pending[k - |b.cs|].token == Base(b.prevSym) + (k - |b.cs|);
        }
      }
    }
  }

  lemma LastTokenIs(data: seq<byte>, b: Book, s: ItemSpan, p: nat)
    requires Exact(data, b.items, b.cs, b.prevSym, b.pending) && Neighbours(data, b.items + [s], p, |b.items|)
    ensures b.prevSym == Some(p)
  {
    CommentStays(data, b.items, s, p);
    assert p < Base(b.prevSym);
    if p < b.prevSym.value {
      assert CommentAt(data, b.items + [s], b.prevSym.value);
      CommentStays(data, b.items, s, b.prevSym.value);
    }
  }

  lemma RuledAddToken(data: seq<byte>, b: Book, s: ItemSpan, isEof: bool)
    requires Exact(data, b.items, b.cs, b.prevSym, b.pending) && Ruled(data, b.lines, b.items, b.cs, Base(b.prevSym))
    requires b.prevSym.Some? ==> (Donates(b, isEof)
        <==> Trails(data, b.lines, b.items + [s], b.prevSym.value, |b.items|))
    ensures var b' := Finished(b, s, isEof); Ruled(data, b'.lines, b'.items, b'.cs, |b'.items|)
  {
    var b' := Finished(b, s, isEof);
    var new_ := Attributions(b.pending, PrevToken(b.prevSym), |b.items|, Donates(b, isEof));
    forall k | 0 <= k < |new_|
      ensures Base(b.prevSym) <= new_[k].index
    {
      assert b.pending[k].token == Base(b.prevSym) + k;
    }
    RuledAddItem(data, b.lines, b.items, b.cs, Base(b.prevSym), s, new_);
    forall p: nat, t: nat | t < |b'.items|
      ensures RuledAt(data, b'.lines, b'.items, b'.cs, p, t)
    {
      if t == |b.items| {
        RuledNewToken(data, b, s, isEof, p);
      } else if Base(b.prevSym) <= t {
        assert CommentAt(data, b.items, t);
        CommentStays(data, b.items, s, t);
      }
    }
  }

  lemma OrderedAddToken(data: seq<byte>, b: Book, mark: nat, pos: nat, isEof: bool)
    requires Ordered(data, b, mark) && mark <= pos <= |data|
        && CommentsOk(Finished(b, ItemSpan(mark, pos - mark), isEof).cs)
    ensures Ordered(data, Finished(b, ItemSpan(mark, pos - mark), isEof), pos)
  {
    var s := ItemSpan(mark, pos - mark);
    ItemsAdd(b.items, |data|, s);
    InOrderAddToken(b.items, b.cs, b.prevSym, b.pending, s, Donates(b, isEof));
  }

  lemma CleanAddToken(data: seq<byte>, b: Book, mark: nat, pos: nat, isEof: bool)
    requires CleanBook(data, b, mark) && mark <= pos <= |data| && b.lines != [] && b.curLine + 1 == |b.lines|
    requires !CommentText(data, ItemSpan(mark, pos - mark)) && b.lines[|b.lines| - 1] <= mark
        && (isEof <==> pos == mark)
    ensures CleanBook(data, Finished(b, ItemSpan(mark, pos - mark), isEof), pos)
  {
    var s := ItemSpan(mark, pos - mark);
    LineOfLast(b.lines, mark);
    if b.prevSym.Some? {
      DonatesIffTrails(data, b, s, isEof);
    }
    ExactAddToken(data, b.items, b.cs, b.prevSym, b.pending, s, Donates(b, isEof));
    TiledAdd(data, b.items, mark, pos);
    RuledAddToken(data, b, s, isEof);
  }

  lemma FinishedSound(data: seq<byte>, numberOk: seq<byte> -> bool, b: Book, mark: nat, pos: nat, isEof: bool)
    requires Sound(data, numberOk, b, mark) && mark <= pos <= |data| && b.lines[|b.lines| - 1] <= mark
    requires if isEof then mark == pos == |data| else TokenText(data, numberOk, mark, pos)
    requires CommentsOk(Finished(b, ItemSpan(mark, pos - mark), isEof).cs)
    ensures Sound(data, numberOk, Finished(b, ItemSpan(mark, pos - mark), isEof), pos)
  {
    var s := ItemSpan(mark, pos - mark);
    OrderedAddToken(data, b, mark, pos, isEof);
    ShapedAdd(data, numberOk, b.items, s);
    if !isEof {
      TokenIsNoComment(data, numberOk, mark, pos);
    }
    CleanAddToken(data, b, mark, pos, isEof);
  }

  // --- One step -------------------------------------------------------------------------------------------

  datatype StepKind = Space | Comment | Word | End

  // A rune of whitespace, a comment, a token, or the empty token at the end takes the lexer
  // from `pos` to `next` and the book from `b` to `b'`.
  ghost predicate Moves(data: seq<byte>, numberOk: seq<byte> -> bool, b: Book, pos: nat, b': Book, next: nat,
      kind: StepKind) {
    && pos <= next <= |data|
    && match kind
       case Space =>
         pos < |data| && IsSpace(data[pos] as int) && next == pos + 1
           && b' == if data[pos] == 10 then NewLine(b, next) else b
       case Comment => CommentShape(data, pos, next) && pos + 2 <= next && b' == WithComment(b, data, pos, next)
       case Word =>
         && !StartsComment(data, pos) && TokenText(data, numberOk, pos, next)
         && b' == Finished(b, ItemSpan(pos, next - pos), false)
       case End => pos == |data| && b' == Finished(b, ItemSpan(pos, 0), true)
  }

  lemma MovesSound(data: seq<byte>, numberOk: seq<byte> -> bool, b: Book, pos: nat, b': Book, next: nat, kind: StepKind)
    requires Sound(data, numberOk, b, pos) && b.lines[|b.lines| - 1] <= pos
        && Moves(data, numberOk, b, pos, b', next, kind)
    requires CommentsOk(b'.cs)
    ensures Sound(data, numberOk, b', next)
  {
    match kind
    case Space =>
      if data[pos] == 10 {
        NewLineSound(data, numberOk, b, pos, next);
        BlankSound(data, numberOk, NewLine(b, next), pos);
      } else {
        BlankSound(data, numberOk, b, pos);
      }
    case Comment => CommentSound(data, numberOk, b, pos, next);
    case Word => FinishedSound(data, numberOk, b, pos, next, false);
    case End => FinishedSound(data, numberOk, b, pos, next, true);
  }

  // The tables are in order with items up to `end`, and no line starts after `end`.
  ghost predicate UpTo(data: seq<byte>, b: Book, end: nat) {
    Ordered(data, b, end) && b.lines[|b.lines| - 1] <= end
  }

  // What the class needs to know about the scan of a comment.
  lemma CommentScanned(data: seq<byte>, b: Book, mark: nat, pos: nat)
    requires UpTo(data, b, mark) && mark + 2 <= pos <= |data|
    ensures UpTo(data, b, pos) && UpTo(data, NewLines(b, data, mark + 2, pos), pos)
    ensures PrevEnd(b.items, |b.items|) <= mark && NewLines(b, data, mark + 2, pos).items == b.items
    ensures UpTo(data, WithComment(b, data, mark, pos), pos)
  {
    NewLinesOnly(data, b, mark, mark + 2, pos);
    OrderedNewLines(data, b, mark, mark + 2, pos);
    OrderedComment(data, b, mark, pos);
  }

  // --- Whole runs -----------------------------------------------------------------------------------------

  // Where the lexer has been, and what it had recorded there.
  datatype Point = Point(book: Book, pos: nat, kind: StepKind)

  const START := Point(EMPTY_BOOK, 0, Space)

  ghost predicate MovesAt(data: seq<byte>, numberOk: seq<byte> -> bool, trace: seq<Point>, i: nat) {
    && i + 1 < |trace|
    && Moves(data, numberOk, trace[i].book, trace[i].pos, trace[i + 1].book, trace[i + 1].pos, trace[i + 1].kind)
    && trace[i].book.lines != [] && trace[i].book.lines[|trace[i].book.lines| - 1] <= trace[i].pos
    && CommentsOk(trace[i + 1].book.cs)
  }

  // The points of an error-free run from the beginning of the file.
  ghost predicate Chain(data: seq<byte>, numberOk: seq<byte> -> bool, trace: seq<Point>) {
    |trace| > 0 && trace[0] == START && forall i: nat :: i + 1 < |trace| ==> MovesAt(data, numberOk, trace, i)
  }

  lemma ChainAdd(data: seq<byte>, numberOk: seq<byte> -> bool, trace: seq<Point>, p: Point)
    requires Chain(data, numberOk, trace) && CommentsOk(p.book.cs)
    requires var q := trace[|trace| - 1];
             && Moves(data, numberOk, q.book, q.pos, p.book, p.pos, p.kind)
             && q.book.lines != [] && q.book.lines[|q.book.lines| - 1] <= q.pos
    ensures Chain(data, numberOk, trace + [p])
  {
    var t := trace + [p];
    forall i: nat | i + 1 < |t|
      ensures MovesAt(data, numberOk, t, i)
    {
      if i + 1 < |trace| {
        assert MovesAt(data, numberOk, trace, i);
      }
    }
  }

  lemma EmptySound(data: seq<byte>, numberOk: seq<byte> -> bool)
    ensures Sound(data, numberOk, EMPTY_BOOK, 0)
  {
  }

  // Every point of a run is sound.
  lemma {:induction false} ChainSound(data: seq<byte>, numberOk: seq<byte> -> bool, trace: seq<Point>, i: nat)
    requires Chain(data, numberOk, trace) && i < |trace|
    ensures Sound(data, numberOk, trace[i].book, trace[i].pos)
  {
    if i == 0 {
      EmptySound(data, numberOk);
    } else {
      ChainSound(data, numberOk, trace, i - 1);
      assert MovesAt(data, numberOk, trace, i - 1);
      MovesSound(data, numberOk, trace[i - 1].book, trace[i - 1].pos, trace[i].book, trace[i].pos, trace[i].kind);
    }
  }

  lemma MovesLexable(data: seq<byte>, numberOk: seq<byte> -> bool, b: Book, pos: nat, b': Book, next: nat,
      kind: StepKind)
    requires Moves(data, numberOk, b, pos, b', next, kind)
    ensures Lexable(data, numberOk, pos) <==> Lexable(data, numberOk, next)
  {
    if kind == Comment || kind == Word {
      assert ItemText(data, numberOk, pos, next);
      NoSpaceFirst(data, numberOk, pos, next);
      LexableItem(data, numberOk, pos, next);
    }
  }

  lemma NoSpaceFirst(data: seq<byte>, numberOk: seq<byte> -> bool, a: nat, b: nat)
    requires ItemText(data, numberOk, a, b)
    ensures !IsSpace(data[a] as int)
  {
  }

  // The text can be lexed from the start exactly when it can from any point of the run.
  lemma {:induction false} ChainLexable(data: seq<byte>, numberOk: seq<byte> -> bool, trace: seq<Point>, i: nat)
    requires Chain(data, numberOk, trace) && i < |trace|
    ensures Lexable(data, numberOk, 0) <==> Lexable(data, numberOk, trace[i].pos)
  {
    if i > 0 {
      ChainLexable(data, numberOk, trace, i - 1);
      assert MovesAt(data, numberOk, trace, i - 1);
      MovesLexable(data, numberOk, trace[i - 1].book, trace[i - 1].pos, trace[i].book, trace[i].pos, trace[i].kind);
    }
  }

  // Neither whitespace nor a comment nor a token starts here.
  ghost predicate Stuck(data: seq<byte>, numberOk: seq<byte> -> bool, a: nat) {
    a < |data| && !IsSpace(data[a] as int) && forall b: nat :: !ItemText(data, numberOk, a, b)
  }

  // --- The line table -----------------------------------------------------------------------------------

  /** With the lines of the text, the line of an offset is the number of line ends before it. */
  lemma {:induction false} LineOfCounts(data: seq<byte>, n: nat, at: nat)
    requires at <= n <= |data|
    ensures LineOf(LineStarts(data, n), at) == LineEndsBefore(data, at)
    decreases n
  {
    StartsCount(data, n);
    if at == n {
      LineOfLast(LineStarts(data, n), at);
    } else {
      var all, front := LineStarts(data, n), LineStarts(data, n - 1);
      LineOfCounts(data, n - 1, at);
      if data[n - 1] == 10 {
        assert all == front + [n] && all[..|all| - 1] == front;
        assert LineOf(all, at) == LineOf(all[..|all| - 1], at);
      } else {
        assert all == front;
      }
    }
  }

  lemma {:induction false} NewLinesStarts(data: seq<byte>, b: Book, lo: nat, hi: nat)
    requires lo <= hi <= |data| && b.lines == LineStarts(data, lo)
    ensures NewLines(b, data, lo, hi).lines == LineStarts(data, hi)
    decreases hi
  {
    if lo < hi {
      NewLinesStarts(data, b, lo, hi - 1);
    }
  }

  lemma MovesLines(data: seq<byte>, numberOk: seq<byte> -> bool, b: Book, pos: nat, b': Book, next: nat, kind: StepKind)
    requires Moves(data, numberOk, b, pos, b', next, kind) && b.lines == LineStarts(data, pos)
    ensures b'.lines == LineStarts(data, next)
  {
    match kind
    case Space =>
    case Comment =>
      if data[pos + 1] == 42 {
        SameStarts(data, pos, pos + 2);
        NewLinesStarts(data, b, pos + 2, next);
      } else {
        assert OneLine(data, pos + 2, next);
        SameStarts(data, pos, next);
      }
    case Word =>
      TokenOnLine(data, numberOk, pos, next);
      SameStarts(data, pos, next);
    case End =>
  }

  // At every point of a run the table holds exactly the lines that start up to there.
  lemma {:induction false} ChainLines(data: seq<byte>, numberOk: seq<byte> -> bool, trace: seq<Point>, i: nat)
    requires Chain(data, numberOk, trace) && i < |trace|
    ensures trace[i].pos <= |data| && trace[i].book.lines == LineStarts(data, trace[i].pos)
  {
    if i > 0 {
      ChainLines(data, numberOk, trace, i - 1);
      assert MovesAt(data, numberOk, trace, i - 1);
      MovesLines(data, numberOk, trace[i - 1].book, trace[i - 1].pos, trace[i].book, trace[i].pos, trace[i].kind);
    }
  }

  // --- The end of the file --------------------------------------------------------------------------------

  /** What lexing promises: the text comes back, the table of lines is that of the text, comments
      are partitioned among the tokens next to them, and the line rule says which of them are
      trailing comments. */
  ghost predicate Lexed(data: seq<byte>, numberOk: seq<byte> -> bool, lines: seq<nat>, items: seq<ItemSpan>,
      cs: seq<CommentInfo>) {
    && Lossless(data, numberOk, items) && Partitioned(data, items, cs)
    && lines == LineStarts(data, |data|) && Ruled(data, lines, items, cs, |items|)
  }

  // What a run that has ended says about the text.
  lemma RunEnds(data: seq<byte>, numberOk: seq<byte> -> bool, trace: seq<Point>, clean: bool)
    requires Chain(data, numberOk, trace)
    requires !clean ==> Stuck(data, numberOk, trace[|trace| - 1].pos)
    requires clean ==> var p := trace[|trace| - 1];
                       p.pos == PrevEnd(p.book.items, |p.book.items|) == |data| && p.book.pending == []
    ensures clean <==> Lexable(data, numberOk, 0)
    ensures clean ==> var b := trace[|trace| - 1].book; Lexed(data, numberOk, b.lines, b.items, b.cs)
  {
    ChainLexable(data, numberOk, trace, |trace| - 1);
    if clean {
      ChainSound(data, numberOk, trace, |trace| - 1);
      ChainLines(data, numberOk, trace, |trace| - 1);
      SoundIsLexed(data, numberOk, trace[|trace| - 1].book);
    } else {
      NotLexable(data, numberOk, trace[|trace| - 1].pos);
    }
  }

  lemma SoundIsLexed(data: seq<byte>, numberOk: seq<byte> -> bool, b: Book)
    requires Sound(data, numberOk, b, |data|) && b.pending == [] && PrevEnd(b.items, |b.items|) == |data|
    requires b.lines == LineStarts(data, |data|)
    ensures Lexed(data, numberOk, b.lines, b.items, b.cs)
  {
    CleanIsLossless(data, numberOk, b.items);
    CleanIsPartitioned(data, b.items, b.cs, b.prevSym);
    assert Base(b.prevSym) == |b.items|;
  }
}
