/** The lexer of parser/lexer.go: how it cuts the input into tokens and comments and fills the
    tables of ast/file_info.go. */
module Lexer {
  import opened Common
  import opened Utf8
  import opened FileInfo
  import opened Lexemes
  import opened LexerBook
  import StringLiteral

  datatype Outcome = Eof | Token | Error

  // Whether an error has been reported so far.
  datatype Run = Clean | Failed

  // Giving up the pending comments.
  lemma ClearOrdered(data: seq<byte>, b: Book, pos: nat)
    requires Ordered(data, b, pos)
    ensures Ordered(data, b.(pending := []), pos)
  {
  }

  // `numberOk` says whether the text of a number is accepted (strconv). `run` is history.
  class Lexer {
    const info: FileInfo
    const numberOk: seq<byte> -> bool
    var pos: nat
    var mark: nat
    var prevSym: Option<nat>
    var prevLine: nat
    var curLine: nat
    var maybeDonate: nat
    var pending: seq<Pending>
    ghost var run: Run
    ghost var book: Book  // the tables and counters as a value
    ghost var trace: seq<Point>  // where the lexer has been before an error

    constructor (data: seq<byte>, numberOk: seq<byte> -> bool)
      ensures fresh(info) && info.data == data && this.numberOk == numberOk && Resting() && run == Clean && pos == 0
      ensures book == EMPTY_BOOK
    {
      info := new FileInfo(data);
      this.numberOk := numberOk;
      pos, mark, prevSym, prevLine, curLine, maybeDonate, pending, run := 0, 0, None, 0, 0, 0, [], Clean;
      book, trace := EMPTY_BOOK, [START];
    }

    ghost predicate Linked()
      reads this, info
    {
      && book == Book(info.lines, info.items, info.comments, prevSym, prevLine, curLine, maybeDonate, pending)
      && info.Valid()
    }

    // The tables are in order, and items end by `end`. This holds on all runs.
    ghost predicate InTurn(end: nat)
      reads this, info
    {
      Linked() && Ordered(info.data, book, end) && book.lines[|book.lines| - 1] <= pos <= |info.data| && end <= pos
    }

    // A new item starts at `mark` and goes on to `pos`.
    ghost predicate Scanning()
      reads this, info
    {
      InTurn(mark) && book.lines[|book.lines| - 1] <= mark < pos
    }

    // An error-free run has led here, or to a place where nothing can be read.
    ghost predicate Traced()
      reads this, info
    {
      && Chain(info.data, numberOk, trace)
      && if run.Clean? then trace[|trace| - 1].book == book && trace[|trace| - 1].pos == pos
         else Stuck(info.data, numberOk, trace[|trace| - 1].pos)
    }

    // The state between two calls of Lex.
    ghost predicate Resting()
      reads this, info
    {
      InTurn(pos) && Traced() && (run.Clean? ==> pending == [])
    }

    method MaybeNewLine(c: int)
      requires Linked() && book.lines[|book.lines| - 1] < pos <= |info.data|
      modifies this`curLine, this`maybeDonate, this`book, info`lines
      ensures Linked() && book == if c == 10 then NewLine(old(book), pos) else old(book)
    {
      if c == 10 {
        book := NewLine(book, pos);
        info.AddLine(pos);
        curLine := curLine + 1;
        if |pending| > 0 && pending[0].isBlock && maybeDonate > 0 {
          maybeDonate := maybeDonate + 1;
        }
      }
    }

    // addComment: the item, kept for the next token.
    method AddComment(isBlock: bool, startLine: nat)
      requires Linked() && mark <= pos <= |info.data| && PrevEnd(book.items, |book.items|) <= mark
      modifies this`pending, this`maybeDonate, this`book, info`items
      ensures Linked() && book == Kept(old(book), ItemSpan(mark, pos - mark), isBlock, startLine)
    {
      book := Kept(book, ItemSpan(mark, pos - mark), isBlock, startLine);
      if |pending| == 0 && startLine == prevLine {
        maybeDonate := maybeDonate + 1;
      }
      var token := info.AddToken(mark, pos - mark);
      pending := pending + [Pending(token, isBlock)];
    }

    // newToken and setPrevAndAddComments.
    method NewToken(isEof: bool)
      requires Linked() && mark <= pos <= |info.data| && PrevEnd(book.items, |book.items|) <= mark
      requires InOrder(book.items, book.cs, book.prevSym, book.pending)
      modifies this`pending, this`maybeDonate, this`prevSym, this`prevLine, this`book, info`items, info`comments
      ensures Linked() && book == Finished(old(book), ItemSpan(mark, pos - mark), isEof)
    {
      ghost var b := book;
      book := Finished(book, ItemSpan(mark, pos - mark), isEof);
      var token := info.AddToken(mark, pos - mark);
      var comments, donated := pending, maybeDonate;
      pending, maybeDonate := [], 0;
      var donate := false;
      if prevSym.Some? && |comments| > 0 {
        var cur := curLine;
        if cur == prevLine && isEof {
          cur := cur + 1;
        }
        if cur > prevLine && donated > 0 {
          donate := !comments[0].isBlock || |comments| > 1 || donated > 1;
        }
      }
      assert donate == Donates(b, isEof);
      Record(comments, PrevToken(prevSym), token, donate, b.items);
      prevSym, prevLine := Some(token), curLine;
    }

    // The two loops that associate comments.
    method Record(comments: seq<Pending>, prev: nat, token: nat, donate: bool, ghost items: seq<ItemSpan>)
      requires info.Valid() && prev == PrevToken(prevSym) && token == |items|
      requires InOrder(items, info.comments, prevSym, comments)
      modifies info`comments
      ensures info.Valid() && info.comments == old(info.comments) + Attributions(comments, prev, token, donate)
    {
      ghost var before, all := info.comments, Attributions(comments, prev, token, donate);
      for j := 0 to |comments|
        invariant info.Valid() && info.comments == before + all[..j]
      {
        RecordNext(items, before, prevSym, comments, donate, j);
        info.AddComment(comments[j].token, if j == 0 && donate then prev else token);
      }
      assert all[..|comments|] == all;
    }

    // --- Scanning ----------------------------------------------------------------------------

    method ReadIdentifier()
      requires pos <= |info.data|
      modifies this`pos
      ensures IdentifierEnds(info.data, old(pos), pos)
    {
      while pos < |info.data|
        invariant old(pos) <= pos <= |info.data|
        invariant forall i :: old(pos) <= i < pos ==> IsIdent(info.data[i] as int)
      {
        var (c, n) := DecodeRune(info.data, pos);
        if !IsIdent(c) {
          break;
        }
        pos := pos + n;
      }
    }

    method ReadNumber()
      requires pos <= |info.data|
      modifies this`pos
      ensures NumberEnds(info.data, old(pos), pos)
    {
      var allowExpSign := false;
      while pos < |info.data|
        invariant old(pos) <= pos <= |info.data|
        invariant allowExpSign <==> pos > old(pos) && (info.data[pos - 1] == 69 || info.data[pos - 1] == 101)
        invariant forall i: nat :: old(pos) <= i < pos ==> ContinuesNumber(info.data, old(pos), i)
      {
        var (c, n) := DecodeRune(info.data, pos);
        if IsSign(c) && !allowExpSign {
          break;
        }
        if !IsNumberRune(c) && !IsSign(c) {
          break;
        }
        allowExpSign := c == 69 || c == 101;
        pos := pos + n;
      }
    }

    // skipToEndOfLineComment
    method SkipLineComment() returns (hasErr: bool)
      requires pos <= |info.data|
      modifies this`pos
      ensures old(pos) <= pos <= |info.data|
      ensures hasErr ==> exists z :: NulInLine(info.data, old(pos), z)
      ensures !hasErr ==> LineEnds(info.data, old(pos), pos)
    {
      while pos < |info.data|
        invariant old(pos) <= pos <= |info.data|
        invariant forall i :: old(pos) <= i < pos ==> info.data[i] != 10 && info.data[i] != 0
      {
        var (c, n) := DecodeRune(info.data, pos);
        NoCloserInside(info.data, pos);
        if c == 10 {
          return false;
        }
        if c == 0 {
          assert NulInLine(info.data, old(pos), pos);
          pos := pos + n;
          return true;
        }
        pos := pos + n;
      }
      return false;
    }

    // skipToEndOfBlockComment
    method SkipBlockComment() returns (ok: bool, hasErr: bool)
      requires Linked() && book.lines[|book.lines| - 1] <= pos <= |info.data|
      modifies this`pos, this`curLine, this`maybeDonate, this`book, info`lines
      ensures Linked() && old(pos) <= pos <= |info.data| && book == NewLines(old(book), info.data, old(pos), pos)
      ensures ok ==> BlockEnds(info.data, old(pos), pos) && !hasErr
      ensures hasErr ==> exists z :: NulInBlock(info.data, old(pos), z)
      ensures !ok && !hasErr ==> OpenBlock(info.data, old(pos), |info.data|)
    {
      ghost var b := book;
      while pos < |info.data|
        invariant Linked() && book.lines[|book.lines| - 1] <= pos && OpenBlock(info.data, old(pos), pos)
        invariant book == NewLines(b, info.data, old(pos), pos)
      {
        var (c, n) := DecodeRune(info.data, pos);
        BlockRune(info.data, old(pos), pos);
        RuneLines(b, info.data, old(pos), pos);
        pos := pos + n;
        if c == 0 {
          return false, true;
        }
        MaybeNewLine(c);
        if c == 42 {
          if pos == |info.data| {
            return false, false;
          }
          var (c2, n2) := DecodeRune(info.data, pos);
          if c2 == 47 {
            pos := pos + n2;
            return true, false;
          }
        }
      }
      return false, false;
    }

    // From the first rune `c` of a token to its end. False where the source reports an error.
    method ReadToken(c: int) returns (ok: bool)
      requires mark < |info.data| && DecodeRune(info.data, mark) == (c, pos - mark)
      requires !StartsComment(info.data, mark) && !IsSpace(c)
      modifies this`pos
      ensures mark < pos <= |info.data| && old(pos) <= pos
      ensures if ok then TokenText(info.data, numberOk, mark, pos)
          else forall b: nat :: !TokenText(info.data, numberOk, mark, b)
    {
      var data := info.data;
      assert data[mark] < 0x80 ==> c == data[mark] as int && pos == mark + 1;
      if c == 46 {
        if pos < |data| && IsDigit(DecodeRune(data, pos).0) {
          pos := pos + 1;
          ReadNumber();
          ok := numberOk(data[mark..pos]);
          NumberToken(data, numberOk, mark, mark + 2, pos);
        } else {
          ok := true;
        }
      } else if IsLetter(c) {
        ReadIdentifier();
        ok := true;
      } else if IsDigit(c) {
        ReadNumber();
        ok := numberOk(data[mark..pos]);
        NumberToken(data, numberOk, mark, mark + 1, pos);
      } else if c == 39 || c == 34 {
        var value;
        value, pos := StringLiteral.ReadStringLiteral(data, pos, c);
        ok := value.Some?;
        StringToken(data, numberOk, mark, pos, value);
      } else {
        ok := c >= 32 && c != 127 && IsPunctuation(c);
        OtherToken(data, numberOk, mark, c);
      }
    }

    // --- The next token ------------------------------------------------------------------------

    // A rune of whitespace, which ends at `pos`.
    method SkipSpace(c: int)
      requires Scanning() && pos == mark + 1 && info.data[mark] as int == c && IsSpace(c)
      modifies this`curLine, this`maybeDonate, this`book, info`lines
      ensures InTurn(pos) && Moves(info.data, numberOk, old(book), mark, book, pos, Space)
    {
      if c == 10 {
        OrderedNewLine(info.data, book, mark, pos);
      }
      MaybeNewLine(c);
    }

    // After the slash at `mark`, when it starts a comment.
    method ReadComment() returns (ok: bool)
      requires Scanning() && pos == mark + 1 && StartsComment(info.data, mark)
      modifies this`pos, this`curLine, this`maybeDonate, this`pending, this`book, info`lines, info`items
      ensures InTurn(pos) && mark < pos
      ensures if ok then Moves(info.data, numberOk, old(book), mark, book, pos, Comment) else NoComment(info.data, mark)
    {
      ghost var b := book;
      var startLine, isBlock := curLine, info.data[pos] == 42;
      pos := pos + 1;
      ok := SkipComment(isBlock);
      CommentScanned(info.data, b, mark, pos);
      if ok {
        KeepComment(isBlock, startLine, b);
      }
    }

    // A scanned comment becomes an item.
    method KeepComment(isBlock: bool, startLine: nat, ghost b: Book)
      requires Linked() && mark + 2 <= pos <= |info.data| && PrevEnd(b.items, |b.items|) <= mark
      requires CommentShape(info.data, mark, pos) && isBlock == (info.data[mark + 1] == 42) && startLine == b.curLine
      requires book == (if isBlock then NewLines(b, info.data, mark + 2, pos) else b) && book.items == b.items
      requires UpTo(info.data, WithComment(b, info.data, mark, pos), pos)
      modifies this`pending, this`maybeDonate, this`book, info`items
      ensures InTurn(pos) && Moves(info.data, numberOk, b, mark, book, pos, Comment)
    {
      AddComment(isBlock, startLine);
    }

    // To the end of a comment, from behind its first two runes.
    method SkipComment(isBlock: bool) returns (ok: bool)
      requires Linked() && 2 <= pos && book.lines[|book.lines| - 1] <= pos <= |info.data|
      requires StartsComment(info.data, pos - 2) && isBlock == (info.data[pos - 1] == 42)
      modifies this`pos, this`curLine, this`maybeDonate, this`book, info`lines
      ensures Linked() && old(pos) <= pos <= |info.data|
      ensures book == if isBlock then NewLines(old(book), info.data, old(pos), pos) else old(book)
      ensures if ok then CommentShape(info.data, old(pos) - 2, pos) else NoComment(info.data, old(pos) - 2)
    {
      ghost var data, from := info.data, pos;
      if isBlock {
        var hasErr;
        ok, hasErr := SkipBlockComment();
        if !ok {
          NoBlock(data, from, hasErr);
        }
      } else {
        var hasErr := SkipLineComment();
        ok := !hasErr;
        if hasErr {
          NoLine(data, from);
        }
      }
    }

    // A token from `mark` to `pos`, or the empty one at the end of the file, is finished.
    method FinishToken(isEof: bool)
      requires InTurn(mark)
      modifies this`pending, this`maybeDonate, this`prevSym, this`prevLine, this`book, info`items, info`comments
      ensures InTurn(pos) && book == Finished(old(book), ItemSpan(mark, pos - mark), isEof)
    {
      ghost var b := book;
      NewToken(isEof);
      OrderedAddToken(info.data, b, mark, pos, isEof);
    }

    method NextToken(c: int) returns (o: Outcome)
      requires Scanning() && DecodeRune(info.data, mark) == (c, pos - mark)
      requires !StartsComment(info.data, mark) && !IsSpace(c)
      modifies this`pos, this`pending, this`maybeDonate, this`prevSym, this`prevLine, this`book, info`items,
          info`comments
      ensures InTurn(pos) && mark < pos && (o == Error || o == Token)
      ensures o == Token ==> Moves(info.data, numberOk, old(book), mark, book, pos, Word)
      ensures o == Error ==> forall b: nat :: !TokenText(info.data, numberOk, mark, b)
    {
      var ok := ReadToken(c);
      if !ok {
        return Error;
      }
      FinishToken(false);
      return Token;
    }

    // What Lex does with a rune: nothing is finished yet (a space or a comment), or a result.
    method Step() returns (o: Option<Outcome>, ghost kind: StepKind)
      requires InTurn(pos) && pos < |info.data|
      modifies this`pos, this`mark, this`curLine, this`maybeDonate, this`pending, this`prevSym, this`prevLine,
               this`book, info`lines, info`items, info`comments
      ensures InTurn(pos) && old(pos) < pos && o != Some(Eof)
      ensures o != Some(Error) ==> Moves(info.data, numberOk, old(book), old(pos), book, pos, kind)
      ensures o == Some(Token) ==> kind == Word
      ensures o == Some(Error) ==> Stuck(info.data, numberOk, old(pos))
    {
      mark := pos;
      var (c, n) := DecodeRune(info.data, pos);
      pos := pos + n;
      if IsSpace(c) {
        SkipSpace(c);
        return None, Space;
      }
      if c == 47 && StartsComment(info.data, mark) {
        var ok := ReadComment();
        return if ok then None else Some(Error), Comment;
      }
      var r := NextToken(c);
      return Some(r), Word;
    }

    // One turn of the loop in Lex.
    method Turn() returns (o: Option<Outcome>)
      requires InTurn(pos) && Traced() && pos < |info.data|
      modifies this, info
      ensures InTurn(pos) && Traced() && old(pos) < pos && o != Some(Eof) && (o == Some(Token) ==> pending == [])
      ensures run == if o == Some(Error) then Failed else old(run)
    {
      ghost var kind;
      o, kind := Step();
      if o == Some(Error) {
        run := Failed;
        return;
      }
      Note(kind);
    }

    // The step that led here is added to the trace of an error-free run.
    ghost method Note(kind: StepKind)
      requires InTurn(pos) && Chain(info.data, numberOk, trace)
      requires run.Failed? ==> Stuck(info.data, numberOk, trace[|trace| - 1].pos)
      requires run.Clean? ==>
                 var p := trace[|trace| - 1];
                 && p.book.lines != [] && p.book.lines[|p.book.lines| - 1] <= p.pos
                 && Moves(info.data, numberOk, p.book, p.pos, book, pos, kind)
      modifies this`trace
      ensures InTurn(pos) && Traced()
    {
      if run.Clean? {
        ChainAdd(info.data, numberOk, trace, Point(book, pos, kind));
        trace := trace + [Point(book, pos, kind)];
      }
    }

    // The empty token at the end of the file.
    method FinishFile()
      requires InTurn(pos) && Traced() && pos == |info.data|
      modifies this, info
      ensures Resting() && run == old(run) && pos == old(pos) && PrevEnd(book.items, |book.items|) == pos
    {
      mark := pos;
      FinishToken(true);
      Note(End);
    }

    /** Lex. `aborted` is whether the error handler has already given up. */
    method Lex(aborted: bool) returns (o: Outcome)
      requires Resting()
      modifies this, info
      ensures Resting() && old(pos) <= pos
      ensures aborted ==> o == Eof && book == old(book) && pos == old(pos)
      ensures run == if o == Error then Failed else old(run)
      ensures o != Eof ==> old(pos) < pos
      ensures o == Eof && !aborted ==> pos == PrevEnd(book.items, |book.items|) == |info.data|
    {
      if aborted {
        return Eof;
      }
      ClearOrdered(info.data, book, pos);
      assert run.Clean? ==> book.(pending := []) == book;
      pending, book := [], book.(pending := []);
      while pos < |info.data|
        invariant InTurn(pos) && Traced() && old(pos) <= pos && run == old(run)
        decreases |info.data| - pos
      {
        var r := Turn();
        if r.Some? {
          assert r.value == Token || r.value == Error;
          return r.value;
        }
      }
      FinishFile();
      return Eof;
    }

    /** The calls the parser makes until the end. `aborts` says, call by call, whether the error
        handler has given up. If it never does, lexing reports no error exactly when the text is
        a sequence of whitespace, comments and tokens. */
    method Tokenize(aborts: nat -> bool) returns (complete: bool)
      requires Resting()
      modifies this, info
      ensures Resting()
      ensures (forall n :: !aborts(n)) ==> complete
      ensures complete ==> (run.Clean? <==> Lexable(info.data, numberOk, 0))
      ensures complete && run.Clean? ==> Lexed(info.data, numberOk, info.lines, info.items, info.comments)
    {
      var o, n := Token, 0;
      complete := true;
      while o != Eof
        invariant Resting() && ((forall n :: !aborts(n)) ==> complete)
        invariant o == Eof && complete ==> pos == PrevEnd(book.items, |book.items|) == |info.data|
        decreases |info.data| - pos, o != Eof
      {
        complete := complete && !aborts(n);
        o := Lex(aborts(n));
        n := n + 1;
      }
      if complete {
        RunEnds(info.data, numberOk, trace, run.Clean?);
      }
    }
  }
}
