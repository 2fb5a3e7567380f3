/** The tables of ast/file_info.go: lines, items and comments of a source file, and the
    queries that search them. */
module FileInfo {
  import opened Common
  import opened Utf8
  import opened Utf8Laws

  datatype ItemSpan = ItemSpan(offset: nat, length: nat)

  // `index` is the item that is the comment, `attributedTo` the token it belongs to.
  datatype CommentInfo = CommentInfo(index: nat, attributedTo: nat)

  function EndOf(s: ItemSpan): nat { s.offset + s.length }

  ghost predicate LineAfter(lines: seq<nat>, i: nat) { 0 < i < |lines| && lines[i - 1] < lines[i] }

  ghost predicate LinesOk(lines: seq<nat>, size: nat) {
    && |lines| > 0 && lines[0] == 0 && lines[|lines| - 1] <= size
    && (forall i: nat :: 0 < i < |lines| ==> LineAfter(lines, i))
  }

  ghost predicate ItemAfter(items: seq<ItemSpan>, i: nat, j: nat) {
    i < j < |items| && EndOf(items[i]) <= items[j].offset
  }

  ghost predicate ItemWithin(items: seq<ItemSpan>, i: nat, size: nat) {
    i < |items| && EndOf(items[i]) <= size
  }

  ghost predicate ItemsOk(items: seq<ItemSpan>, size: nat) {
    && (forall i: nat :: i < |items| ==> ItemWithin(items, i, size))
    && (forall i: nat, j: nat :: i < j < |items| ==> ItemAfter(items, i, j))
  }

  // Comments are in the order of the file, and so are the tokens they belong to.
  ghost predicate CommentsOk(cs: seq<CommentInfo>) {
    forall i: nat, j: nat :: i < j < |cs| ==> CommentAfter(cs, i, j)
  }

  ghost predicate CommentAfter(cs: seq<CommentInfo>, i: nat, j: nat) {
    i < j < |cs| && cs[i].index < cs[j].index && cs[i].attributedTo <= cs[j].attributedTo
  }

  lemma CommentsAdd(cs: seq<CommentInfo>, c: CommentInfo)
    requires CommentsOk(cs)
    requires |cs| > 0 ==> cs[|cs| - 1].index < c.index && cs[|cs| - 1].attributedTo <= c.attributedTo
    ensures CommentsOk(cs + [c])
  {
    var cs' := cs + [c];
    forall i: nat, j: nat | i < j < |cs'|
      ensures CommentAfter(cs', i, j)
    {
      if j < |cs| {
        assert CommentAfter(cs, i, j);
      } else if i < |cs| - 1 {
        assert CommentAfter(cs, i, |cs| - 1);
      }
    }
  }

  // The order of the comments, spelled out for the searches.
  lemma CommentOrder(cs: seq<CommentInfo>)
    requires CommentsOk(cs)
    ensures forall i, j :: 0 <= i < j < |cs| ==> cs[i].index < cs[j].index && cs[i].attributedTo <= cs[j].attributedTo
  {
    forall i: nat, j: nat | i < j < |cs|
      ensures cs[i].index < cs[j].index && cs[i].attributedTo <= cs[j].attributedTo
    {
      assert CommentAfter(cs, i, j);
    }
  }

  lemma LinesAdd(lines: seq<nat>, size: nat, offset: nat)
    requires LinesOk(lines, size) && lines[|lines| - 1] < offset <= size
    ensures LinesOk(lines + [offset], size)
  {
    forall i: nat | 0 < i < |lines + [offset]|
      ensures LineAfter(lines + [offset], i)
    {
      assert i < |lines| ==> LineAfter(lines, i);
    }
  }

  lemma ItemsAdd(items: seq<ItemSpan>, size: nat, s: ItemSpan)
    requires ItemsOk(items, size) && EndOf(s) <= size
    requires |items| > 0 ==> EndOf(items[|items| - 1]) <= s.offset
    ensures ItemsOk(items + [s], size)
  {
    var items' := items + [s];
    forall i: nat | i < |items'|
      ensures ItemWithin(items', i, size)
    {
      assert i < |items| ==> ItemWithin(items, i, size);
    }
    forall i: nat, j: nat | i < j < |items'|
      ensures ItemAfter(items', i, j)
    {
      if j < |items| {
        assert ItemAfter(items, i, j);
      } else if i < |items| - 1 {
        assert ItemAfter(items, i, |items| - 1);
      }
    }
  }

  // --- Lines --------------------------------------------------------------------------------------

  // The line of an offset: the last one that starts at or before it.
  function LineOf(lines: seq<nat>, at: nat): (line: nat)
    ensures lines != [] ==> line < |lines|
  {
    if |lines| <= 1 then 0 else if lines[|lines| - 1] <= at then |lines| - 1 else LineOf(lines[..|lines| - 1], at)
  }

  lemma {:induction false} LineOfMeans(lines: seq<nat>, size: nat, at: nat)
    requires LinesOk(lines, size)
    ensures lines[LineOf(lines, at)] <= at
    ensures LineOf(lines, at) + 1 < |lines| ==> at < lines[LineOf(lines, at) + 1]
    decreases |lines|
  {
    var n := |lines| - 1;
    if n > 0 && at < lines[n] {
      var front := lines[..n];
      forall i: nat | 0 < i < |front|
        ensures LineAfter(front, i)
      {
        assert LineAfter(lines, i);
      }
      assert LineAfter(lines, n);
      LineOfMeans(front, size, at);
      assert LineOf(lines, at) == LineOf(front, at);
    }
  }

  lemma LineOfLast(lines: seq<nat>, at: nat)
    requires lines != [] && lines[|lines| - 1] <= at
    ensures LineOf(lines, at) == |lines| - 1
  {
  }

  lemma LineOfStays(lines: seq<nat>, l: nat, at: nat)
    requires lines != [] && at < l
    ensures LineOf(lines + [l], at) == LineOf(lines, at)
  {
    assert (lines + [l])[..|lines|] == lines;
  }

  lemma {:induction false} LinesAscend(lines: seq<nat>, size: nat, i: nat, j: nat)
    requires LinesOk(lines, size) && i < j < |lines|
    ensures lines[i] < lines[j]
    decreases j
  {
    assert LineAfter(lines, j);
    if i < j - 1 {
      LinesAscend(lines, size, i, j - 1);
    }
  }

  // There is only one such line.
  lemma LineOfIs(lines: seq<nat>, size: nat, at: nat, k: nat)
    requires LinesOk(lines, size) && k < |lines| && lines[k] <= at && (k + 1 < |lines| ==> at < lines[k + 1])
    ensures LineOf(lines, at) == k
  {
    var l := LineOf(lines, at);
    LineOfMeans(lines, size, at);
    if l < k && l + 1 < k {
      LinesAscend(lines, size, l + 1, k);
    } else if k < l && k + 1 < l {
      LinesAscend(lines, size, k + 1, l);
    }
  }

  // The columns that the bytes take up, the first of them at the start of a line: a tab goes
  // to the next multiple of eight, and a rune counts once.
  function Columns(data: seq<byte>, from: nat, to: nat): nat
    requires from <= to <= |data|
  {
    if from == to then 0
    else
      var col := Columns(data, from, to - 1);
      if data[to - 1] == 9 then col + 8 - col % 8
      else if 0x80 <= data[to - 1] < 0xC0 then col
      else col + 1
  }

  /** A tab goes to the first multiple of eight behind it. */
  lemma TabStop(data: seq<byte>, from: nat, to: nat)
    requires from <= to < |data| && data[to] == 9
    ensures var before, after := Columns(data, from, to), Columns(data, from, to + 1);
            after % 8 == 0 && before < after && forall c :: before < c < after ==> c % 8 != 0
  {
    var before := Columns(data, from, to);
    forall c | before < c < before + 8 - before % 8
      ensures c % 8 != 0
    {
      NoMultiple(before, c);
    }
  }

  lemma NoMultiple(a: nat, c: nat)
    requires a < c < a + 8 - a % 8
    ensures c % 8 != 0
  {
    assert c / 8 == a / 8;
  }

  /** Any other rune takes one column, however many bytes it has. */
  lemma RuneColumn(data: seq<byte>, from: nat, to: nat, r: int)
    requires from <= to && IsRune(r) && r != 9 && At(data, to, EncodeRune(r))
    ensures Columns(data, from, to + |EncodeRune(r)|) == Columns(data, from, to) + 1
  {
    RuneBytes(r);
    AtBytes(data, to, EncodeRune(r));
    BytesColumn(data, from, to, EncodeRune(r));
  }

  // One byte that starts a rune, and bytes that continue it.
  ghost predicate OneRune(s: seq<byte>) {
    && s != [] && s[0] != 9 && !(0x80 <= s[0] < 0xC0)
    && forall i :: 1 <= i < |s| ==> 0x80 <= s[i] < 0xC0
  }

  lemma RuneBytes(r: int)
    requires IsRune(r) && r != 9
    ensures OneRune(EncodeRune(r))
  {
  }

  lemma {:induction false} BytesColumn(data: seq<byte>, from: nat, to: nat, s: seq<byte>)
    requires from <= to && OneRune(s) && At(data, to, s)
    ensures Columns(data, from, to + |s|) == Columns(data, from, to) + 1
    decreases |s|
  {
    var n := |s| - 1;
    AtByte(data, to, s, n);
    if n > 0 {
      assert data[to..to + |s|][..n] == data[to..to + n];
      BytesColumn(data, from, to, s[..n]);
    }
  }

  // A contiguous run of comments.
  datatype Comments = Comments(first: nat, num: nat)

  const NO_COMMENTS := Comments(0, 0)

  predicate InRun(c: Comments, k: int) { c.first <= k < c.first + c.num }

  class FileInfo {
    const data: seq<byte>
    var lines: seq<nat>
    var items: seq<ItemSpan>
    var comments: seq<CommentInfo>

    ghost predicate Valid()
      reads this
    {
      LinesOk(lines, |data|) && ItemsOk(items, |data|) && CommentsOk(comments)
    }

    constructor (data: seq<byte>)
      ensures Valid() && this.data == data && lines == [0] && items == [] && comments == []
    {
      this.data := data;
      lines, items, comments := [0], [], [];
    }

    // sort.Search: the number of lines that start at or before the offset.
    method CountLines(offset: nat) returns (n: nat)
      requires Valid()
      ensures n == LineOf(lines, offset) + 1
    {
      var lo, hi := 0, |lines|;
      while lo < hi
        invariant 0 <= lo <= hi <= |lines|
        invariant lo > 0 ==> lines[lo - 1] <= offset
        invariant hi < |lines| ==> lines[hi] > offset
      {
        var mid := (lo + hi) / 2;
        if lines[mid] > offset {
          hi := mid;
        } else {
          lo := mid + 1;
        }
      }
      LineOfIs(lines, |data|, offset, lo - 1);
      return lo;
    }

    // SourcePos: the line and the column of an offset, both counted from one.
    method SourcePos(offset: nat) returns (line: nat, col: nat)
      requires Valid() && offset <= |data|
      ensures line == LineOf(lines, offset) + 1
      ensures lines[line - 1] <= offset && col == Columns(data, lines[line - 1], offset) + 1
    {
      line := CountLines(offset);
      LineOfMeans(lines, |data|, offset);
      col := 0;
      for i := lines[line - 1] to offset
        invariant col == Columns(data, lines[line - 1], i)
      {
        if data[i] == 9 {
          col := col + (8 - col % 8);
        } else if !(0x80 <= data[i] < 0xC0) {
          col := col + 1;
        }
      }
      col := col + 1;
    }

    // The preconditions of the next three methods are what the source panics without.

    method AddLine(offset: nat)
      requires Valid() && lines[|lines| - 1] < offset <= |data|
      modifies this`lines
      ensures Valid() && lines == old(lines) + [offset]
    {
      LinesAdd(lines, |data|, offset);
      lines := lines + [offset];
    }

    method AddToken(offset: nat, length: nat) returns (token: nat)
      requires Valid() && offset + length <= |data|
      requires |items| > 0 ==> EndOf(items[|items| - 1]) <= offset
      modifies this`items
      ensures Valid() && token == old(|items|) && items == old(items) + [ItemSpan(offset, length)]
    {
      token := |items|;
      ItemsAdd(items, |data|, ItemSpan(offset, length));
      items := items + [ItemSpan(offset, length)];
    }

    method AddComment(comment: nat, attributedTo: nat)
      requires Valid()
      requires |comments| > 0 ==>
          && comments[|comments| - 1].index < comment
          && comments[|comments| - 1].attributedTo <= attributedTo
      modifies this`comments
      ensures Valid() && comments == old(comments) + [CommentInfo(comment, attributedTo)]
    {
      CommentsAdd(comments, CommentInfo(comment, attributedTo));
      comments := comments + [CommentInfo(comment, attributedTo)];
    }

    // isComment decides by the text of the item.
    predicate IsComment(i: nat)
      requires i < |items| && Valid()
      reads this
    {
      assert ItemWithin(items, i, |data|);
      && items[i].length >= 2 && data[items[i].offset] == 47
      && (data[items[i].offset + 1] == 47 || data[items[i].offset + 1] == 42)
    }

    // Binary search and count; the result is the run of all comments that lead the token.
    method LeadingComments(token: nat) returns (c: Comments)
      requires Valid()
      ensures c.first + c.num <= |comments|
      ensures forall k :: 0 <= k < |comments| ==>
                (InRun(c, k) <==> comments[k].attributedTo == token && comments[k].index < token)
    {
      CommentOrder(comments);
      var i, j := 0, |comments|;
      while i < j
        invariant 0 <= i <= j <= |comments|
        invariant forall k :: 0 <= k < i ==> comments[k].attributedTo < token
        invariant forall k :: j <= k < |comments| ==> comments[k].attributedTo >= token
      {
        var h := (i + j) / 2;
        if comments[h].attributedTo >= token { j := h; } else { i := h + 1; }
      }
      if i == |comments| || comments[i].attributedTo != token {
        return NO_COMMENTS;
      }
      var num := 0;
      while i + num < |comments| && comments[i + num].attributedTo == token && comments[i + num].index < token
        invariant i + num <= |comments|
        invariant forall k :: i <= k < i + num ==> comments[k].attributedTo == token && comments[k].index < token
      {
        num := num + 1;
      }
      return Comments(i, num);
    }

    // The same for the comments that trail the token.
    method TrailingComments(token: nat) returns (c: Comments)
      requires Valid()
      ensures c.first + c.num <= |comments|
      ensures forall k :: 0 <= k < |comments| ==>
                (InRun(c, k) <==> comments[k].attributedTo == token && comments[k].index > token)
    {
      CommentOrder(comments);
      var i, j := 0, |comments|;
      while i < j
        invariant 0 <= i <= j <= |comments|
        invariant forall k :: 0 <= k < i ==> !(comments[k].attributedTo >= token && comments[k].index > token)
        invariant forall k :: j <= k < |comments| ==> comments[k].attributedTo >= token && comments[k].index > token
      {
        var h := (i + j) / 2;
        if comments[h].attributedTo >= token && comments[h].index > token { j := h; } else { i := h + 1; }
      }
      if i == |comments| || comments[i].attributedTo != token {
        return NO_COMMENTS;
      }
      var num := 0;
      while i + num < |comments| && comments[i + num].attributedTo == token
        invariant i + num <= |comments|
        invariant forall k :: i <= k < i + num ==> comments[k].attributedTo == token
      {
        num := num + 1;
      }
      return Comments(i, num);
    }

    // GetItem: the item as a token, or else its place among the comments.
    method GetItem(i: int) returns (token: Option<nat>, comment: Option<nat>)
      requires Valid()
      ensures token == (if 0 <= i < |items| && !IsComment(i) then Some(i) else None)
      ensures comment.Some? ==> comment.value < |comments| && comments[comment.value].index == i
      ensures 0 <= i < |items| && IsComment(i) ==>
                (comment.Some? <==> exists k :: 0 <= k < |comments| && comments[k].index == i)
      ensures token.Some? ==> comment.None?
    {
      if i < 0 || i >= |items| {
        return None, None;
      }
      if !IsComment(i) {
        return Some(i), None;
      }
      CommentOrder(comments);
      var a, b := 0, |comments|;
      while a < b
        invariant 0 <= a <= b <= |comments|
        invariant forall k :: 0 <= k < a ==> comments[k].index < i
        invariant forall k :: b <= k < |comments| ==> comments[k].index >= i
      {
        var h := (a + b) / 2;
        if comments[h].index >= i { b := h; } else { a := h + 1; }
      }
      if a < |comments| && comments[a].index == i {
        return None, Some(a);
      }
      return None, None;
    }

    // Tokens().Next and Previous: the nearest item that is not a comment.
    method NextToken(tok: nat) returns (r: Option<nat>)
      requires Valid()
      ensures r.Some? ==>
          && tok < r.value < |items| && !IsComment(r.value)
          && forall i: nat :: tok < i < r.value ==> IsComment(i)
      ensures r.None? ==> forall i: nat :: tok < i < |items| ==> IsComment(i)
    {
      if tok + 1 >= |items| {
        return None;
      }
      for j := tok + 1 to |items|
        invariant forall i: nat :: tok < i < j ==> IsComment(i)
      {
        if !IsComment(j) {
          return Some(j);
        }
      }
      return None;
    }

    method PreviousToken(tok: nat) returns (r: Option<nat>)
      requires Valid()
      ensures r.Some? ==>
                r.value < tok < |items| && !IsComment(r.value) && forall i: nat :: r.value < i < tok ==> IsComment(i)
      ensures r.None? ==> tok >= |items| || forall i: nat :: i < tok ==> IsComment(i)
    {
      if tok <= 0 || tok >= |items| {
        return None;
      }
      for j := tok downto 0
        invariant forall i: nat :: j <= i < tok ==> IsComment(i)
      {
        if !IsComment(j) {
          return Some(j);
        }
      }
      return None;
    }
  }
}
