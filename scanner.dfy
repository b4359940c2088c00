/** The scanners and the dispatch loop, working on the streams in place.
    Each is proved against the pure specification in module Tokens. */
module Scanner {
  import opened CharClass
  import opened Keywords
  import opened Tokens
  import opened Streams

  /** The loop both scanners run: stores first and then each byte of the
      run that follows in buf, as long as the buffer keeps room for its
      terminator, reads on to the end of the run, and pushes back the first
      byte that does not continue it. Returns the number of bytes stored. */
  method ReadRun(stdin: Stdin, buf: array<Byte>, first: Byte, rc: RunClass) returns (len: nat)
    requires stdin.Valid() && buf.Length == MaxTokenLen
    modifies stdin, buf
    ensures stdin.Valid()
    ensures stdin.pos == old(stdin.pos) + RunLength(stdin.data[old(stdin.pos)..], rc)
    ensures len <= MaxLexemeLen
    ensures buf[..len] == Truncate([first] + stdin.data[old(stdin.pos)..stdin.pos])
  {
    len := 0;
    var c: Byte := first;
    ghost var start := stdin.pos;
    while true
      invariant stdin.Valid() && start <= stdin.pos
      invariant forall k | start <= k < stdin.pos :: Continues(rc, stdin.data[k])
      invariant c == RunByte(first, stdin.data, start, stdin.pos - start)
      invariant len == if stdin.pos - start <= MaxLexemeLen then stdin.pos - start else MaxLexemeLen
      invariant forall k | 0 <= k < len :: buf[k] == RunByte(first, stdin.data, start, k)
      decreases |stdin.data| - stdin.pos
    {
      if len < MaxLexemeLen {
        buf[len] := c;
        len := len + 1;
      }
      var next := stdin.GetChar();
      if next == EOF || !Continues(rc, next) {
        if next != EOF {
          stdin.UngetC(next);
        }
        ScanStopsAtRunEnd(stdin.data, start, stdin.pos, rc);
        BufferHoldsLexeme(buf[..], len, first, stdin.data, start, stdin.pos);
        break;
      }
      c := next;
    }
  }

  /** Reads the rest of an identifier whose first byte has already been
      read: consumes the maximal run of letters, digits and underscores that
      follows, leaves the byte after it unread, and emits the first
      MaxLexemeLen bytes of the whole word as KEYWORD or IDENTIFIER. */
  method ScanIdentifierOrKeyword(stdin: Stdin, stdout: Stdout, first: Byte)
    requires stdin.Valid() && IsLetter(first)
    modifies stdin, stdout
    ensures stdin.Valid()
    ensures stdin.pos == old(stdin.pos) + RunLength(stdin.data[old(stdin.pos)..], WordRun)
    ensures stdout.tokens ==
      old(stdout.tokens) + [WordToken(Truncate([first] + stdin.data[old(stdin.pos)..stdin.pos]))]
  {
    var buf := new Byte[MaxTokenLen];
    var len := ReadRun(stdin, buf, first, WordRun);
    ghost var lexeme := buf[..len];
    WordHasNoNul(first, stdin.data[old(stdin.pos)..stdin.pos]);
    buf[len] := NUL;
    assert buf[..][..len] == lexeme;
    CStringAt(buf[..], len);
    var keyword := IsKeyword(buf[..]);
    stdout.Emit(if keyword then Keyword else Identifier, buf[..len]);
  }

  /** Reads the rest of a number whose first byte has already been read:
      consumes the maximal run of digits that follows, leaves the byte
      after it unread, and emits the first MaxLexemeLen bytes as NUMBER. */
  method ScanNumber(stdin: Stdin, stdout: Stdout, first: Byte)
    requires stdin.Valid()
    modifies stdin, stdout
    ensures stdin.Valid()
    ensures stdin.pos == old(stdin.pos) + RunLength(stdin.data[old(stdin.pos)..], DigitRun)
    ensures stdout.tokens ==
      old(stdout.tokens) + [Token(Number, Truncate([first] + stdin.data[old(stdin.pos)..stdin.pos]))]
  {
    var buf := new Byte[MaxTokenLen];
    var len := ReadRun(stdin, buf, first, DigitRun);
    ghost var lexeme := buf[..len];
    buf[len] := NUL;
    assert buf[..len] == lexeme;
    stdout.Emit(Number, buf[..len]);
  }

  /** One pass of the body of main's loop, for the byte ch it has just
      read: skips whitespace, hands a letter or a digit to its scanner, and
      emits any other byte as a one-byte token. The pass stops where the
      specification's first step stops and emits what that step emits. */
  method Dispatch(stdin: Stdin, stdout: Stdout, ch: Byte, ghost p: nat)
    requires stdin.Valid() && stdin.pos == p + 1 && stdin.data[p] == ch
    modifies stdin, stdout
    ensures stdin.Valid()
    ensures stdin.pos == p + TokenEnd(stdin.data[p..])
    ensures stdout.tokens == old(stdout.tokens) + HeadTokens(stdin.data[p..])
  {
    if IsSpace(ch) {
      SpaceAt(stdin.data, p);
    } else if IsLetter(ch) {
      ScanIdentifierOrKeyword(stdin, stdout, ch);
      WordAt(stdin.data, p, stdin.pos);
    } else if IsDigit(ch) {
      ScanNumber(stdin, stdout, ch);
      NumberAt(stdin.data, p, stdin.pos);
    } else if IsOperatorChar(ch) {
      SingleAt(stdin.data, p, Operator);
      stdout.Emit(Operator, [ch]);
    } else if IsPunctuationChar(ch) {
      SingleAt(stdin.data, p, Punctuation);
      stdout.Emit(Punctuation, [ch]);
    } else {
      SingleAt(stdin.data, p, Unknown);
      stdout.Emit(Unknown, [ch]);
    }
  }

  /** After one pass of the loop, what has been emitted followed by what
      the specification still gives for the rest of the input is the same
      as before the pass. */
  lemma LoopStep(total: seq<Token>, before: seq<Token>, after: seq<Token>, data: seq<Byte>, p: nat, q: nat)
    requires p < |data| && q == p + TokenEnd(data[p..])
    requires total == before + Tokenize(data[p..])
    requires after == before + HeadTokens(data[p..])
    ensures q <= |data| && total == after + Tokenize(data[q..])
  {
    TokenizeAt(data, p);
    Regroup(total, before, HeadTokens(data[p..]), Tokenize(data[p..]), Tokenize(data[q..]));
  }

  /** Moving a pass's tokens from the pending to the emitted side. This
      fact about sequences alone is kept apart from the Tokenize terms of
      LoopStep so that the solver need not regroup them there. */
  lemma Regroup(total: seq<Token>, emitted: seq<Token>, step: seq<Token>, pending: seq<Token>, rest: seq<Token>)
    requires total == emitted + pending && pending == step + rest
    ensures total == (emitted + step) + rest
  {
  }

  /** The dispatch loop of main: reads the whole input and emits exactly
      the tokens the specification gives for it, stopping at end of input. */
  method MainLoop(stdin: Stdin, stdout: Stdout)
    requires stdin.Valid()
    modifies stdin, stdout
    ensures stdin.Valid() && stdin.pos == |stdin.data|
    ensures stdout.tokens == old(stdout.tokens) + Tokenize(stdin.data[old(stdin.pos)..])
  {
    ghost var total := stdout.tokens + Tokenize(stdin.data[stdin.pos..]);
    while true
      invariant stdin.Valid()
      invariant total == stdout.tokens + Tokenize(stdin.data[stdin.pos..])
      decreases |stdin.data| - stdin.pos
    {
      ghost var p := stdin.pos;
      ghost var before := stdout.tokens;
      var ch := stdin.GetChar();
      if ch == EOF {
        break;
      }
      Dispatch(stdin, stdout, ch, p);
      LoopStep(total, before, stdout.tokens, stdin.data, p, stdin.pos);
    }
  }
}
