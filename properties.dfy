/** Properties of the tokenizer's specification as a whole: tokenization
    partitions the non-whitespace input, feeding the lexemes back in yields
    the same tokens, and whitespace alone yields nothing. */
module Properties {
  import opened CharClass
  import opened Keywords
  import opened Tokens

  /** All lexemes of a token sequence, concatenated in order. */
  function Lexemes(ts: seq<Token>): seq<Byte> {
    if ts == [] then [] else ts[0].lexeme + Lexemes(ts[1..])
  }

  /** The input with the six whitespace bytes removed. */
  function WithoutSpace(s: seq<Byte>): seq<Byte> {
    if s == [] then []
    else (if IsSpace(s[0]) then [] else [s[0]]) + WithoutSpace(s[1..])
  }

  lemma {:induction false} WithoutSpaceAppend(a: seq<Byte>, b: seq<Byte>)
    ensures WithoutSpace(a + b) == WithoutSpace(a) + WithoutSpace(b)
  {
    if a != [] {
      var head := if IsSpace(a[0]) then [] else [a[0]];
      assert (a + b)[0] == a[0] && (a + b)[1..] == a[1..] + b;
      WithoutSpaceAppend(a[1..], b);
      assert WithoutSpace(a + b) == head + (WithoutSpace(a[1..]) + WithoutSpace(b));
      assert WithoutSpace(a) + WithoutSpace(b) == head + (WithoutSpace(a[1..]) + WithoutSpace(b));
    } else {
      assert a + b == b;
    }
  }

  lemma {:induction false} WithoutSpaceKeepsWord(u: seq<Byte>)
    requires forall k | 0 <= k < |u| :: IsWordChar(u[k])
    ensures WithoutSpace(u) == u
  {
    if u != [] {
      WordCharIsLetterOrDigit(u[0]);
      WithoutSpaceKeepsWord(u[1..]);
    }
  }

  lemma {:induction false} LexemesAppend(a: seq<Token>, b: seq<Token>)
    ensures Lexemes(a + b) == Lexemes(a) + Lexemes(b)
  {
    if a != [] {
      assert (a + b)[0] == a[0] && (a + b)[1..] == a[1..] + b;
      LexemesAppend(a[1..], b);
    } else {
      assert a + b == b;
    }
  }

  /** No pass of the dispatch loop over s consumes more bytes than the
      buffer keeps, so no scanner truncates its lexeme. */
  predicate NoTruncation(s: seq<Byte>)
    decreases |s|
  {
    s == [] || (TokenEnd(s) <= MaxLexemeLen && NoTruncation(s[TokenEnd(s)..]))
  }

  /** Partition: the emitted lexemes, concatenated in order, are exactly the
      input without its whitespace if and only if no scanner truncates. */
  lemma Partition(s: seq<Byte>)
    ensures Lexemes(Tokenize(s)) == WithoutSpace(s) <==> NoTruncation(s)
  {
    if NoTruncation(s) {
      PartitionExact(s);
    } else {
      LexemesWithin(s);
    }
  }

  /** Without truncation, every input byte but whitespace appears in the
      lexemes, in order. */
  lemma {:induction false} PartitionExact(s: seq<Byte>)
    requires NoTruncation(s)
    ensures Lexemes(Tokenize(s)) == WithoutSpace(s)
    decreases |s|
  {
    if s != [] {
      PartitionExact(s[TokenEnd(s)..]);
      PartitionStep(s);
    }
  }

  /** The first step of PartitionExact: what the head of s emits and the
      rest, each on both sides. */
  lemma PartitionStep(s: seq<Byte>)
    requires s != [] && TokenEnd(s) <= MaxLexemeLen
    requires Lexemes(Tokenize(s[TokenEnd(s)..])) == WithoutSpace(s[TokenEnd(s)..])
    ensures Lexemes(Tokenize(s)) == WithoutSpace(s)
  {
    LexemesSplit(s);
    WithoutSpaceSplit(s, TokenEnd(s));
    HeadLexeme(s);
  }

  /** The lexemes never hold more than the input's non-whitespace bytes,
      and strictly fewer once some scanner truncates. */
  lemma {:induction false} LexemesWithin(s: seq<Byte>)
    ensures |Lexemes(Tokenize(s))| <= |WithoutSpace(s)|
    ensures !NoTruncation(s) ==> |Lexemes(Tokenize(s))| < |WithoutSpace(s)|
    decreases |s|
  {
    if s != [] {
      var n := TokenEnd(s);
      LexemesWithin(s[n..]);
      LexemesSplit(s);
      WithoutSpaceSplit(s, n);
      HeadLexeme(s);
    }
  }

  /** The lexemes split where the first pass stops. */
  lemma LexemesSplit(s: seq<Byte>)
    requires s != []
    ensures Lexemes(Tokenize(s)) == Lexemes(HeadTokens(s)) + Lexemes(Tokenize(s[TokenEnd(s)..]))
  {
    var n := TokenEnd(s);
    assert Tokenize(s) == HeadTokens(s) + Tokenize(s[n..]);
    LexemesAppend(HeadTokens(s), Tokenize(s[n..]));
  }

  /** The input without whitespace splits where the first pass stops. */
  lemma WithoutSpaceSplit(s: seq<Byte>, n: nat)
    requires n <= |s|
    ensures WithoutSpace(s) == WithoutSpace(s[..n]) + WithoutSpace(s[n..])
  {
    assert s == s[..n] + s[n..];
    WithoutSpaceAppend(s[..n], s[n..]);
  }

  /** The bytes one pass consumes are all kept, unless the pass skips
      whitespace, and its lexeme is their truncation. */
  lemma HeadLexeme(s: seq<Byte>)
    requires s != []
    ensures WithoutSpace(s[..TokenEnd(s)]) == if IsSpace(s[0]) then [] else s[..TokenEnd(s)]
    ensures Lexemes(HeadTokens(s)) == Truncate(WithoutSpace(s[..TokenEnd(s)]))
  {
    var n := TokenEnd(s);
    if IsLetter(s[0]) || IsDigit(s[0]) {
      RunHead(s);
      WithoutSpaceKeepsWord(s[..n]);
      assert Lexemes(HeadTokens(s)) == HeadTokens(s)[0].lexeme + Lexemes([]);
    } else {
      assert s[..n] == [s[0]];
      assert WithoutSpace(s[..n]) == (if IsSpace(s[0]) then [] else [s[0]]) + WithoutSpace([]);
    }
  }

  /** The lexemes written back as input, each followed by one space. */
  function Join(ts: seq<Token>): seq<Byte> {
    if ts == [] then [] else ts[0].lexeme + [' ' as int] + Join(ts[1..])
  }

  /** One well-formed token written out and followed by a space is read
      back as that token. */
  lemma RetokenizeOne(t: Token, rest: seq<Byte>)
    requires WellFormed(t)
    ensures Tokenize(t.lexeme + ([' ' as int] + rest)) == [t] + Tokenize(rest)
  {
    var s := t.lexeme + ([' ' as int] + rest);
    var n := |t.lexeme|;
    assert s[0] == t.lexeme[0];
    assert s[..n] == t.lexeme && s[n..] == [' ' as int] + rest;
    WrittenHead(t, s);
    assert Tokenize(s[n..]) == Tokenize(rest) by {
      assert s[n..][1..] == rest;
    }
  }

  /** The head of a written-out token followed by a space: the token
      ends where its lexeme does, and is that token. */
  lemma WrittenHead(t: Token, s: seq<Byte>)
    requires WellFormed(t)
    requires |t.lexeme| < |s| && s[..|t.lexeme|] == t.lexeme && s[|t.lexeme|] == ' ' as int
    ensures TokenEnd(s) == |t.lexeme| && HeadTokens(s) == [t]
  {
    var n := |t.lexeme|;
    assert s[0] == t.lexeme[0];
    forall k | 1 <= k < n ensures s[k] == t.lexeme[k] {
    }
    match t.kind
    case Keyword =>
      RetokenizeRun(s, n, WordRun);
      RunHead(s);
    case Identifier =>
      RetokenizeRun(s, n, WordRun);
      RunHead(s);
    case Number =>
      RetokenizeRun(s, n, DigitRun);
      RunHead(s);
    case Operator =>
      assert t.lexeme == [s[0]];
    case Punctuation =>
      assert t.lexeme == [s[0]];
    case Unknown =>
      assert t.lexeme == [s[0]];
  }

  /** Retokenizing: the lexemes of well-formed tokens, separated by
      whitespace, tokenize back to the very same tokens. */
  lemma {:induction false} RetokenizeJoined(ts: seq<Token>)
    requires forall t | t in ts :: WellFormed(t)
    ensures Tokenize(Join(ts)) == ts
  {
    if ts != [] {
      assert Join(ts) == ts[0].lexeme + ([' ' as int] + Join(ts[1..]));
      RetokenizeOne(ts[0], Join(ts[1..]));
      RetokenizeJoined(ts[1..]);
      assert ts == [ts[0]] + ts[1..];
    }
  }

  /** A run written out in full and followed by a space is read back whole. */
  lemma RetokenizeRun(s: seq<Byte>, n: nat, rc: RunClass)
    requires 1 <= n < |s| && s[n] == ' ' as int
    requires forall k | 1 <= k < n :: Continues(rc, s[k])
    ensures RunLength(s[1..], rc) == n - 1
  {
    RunLengthUnique(s[1..], rc, n - 1);
  }

  /** Idempotence of classification: tokenizing the emitted lexemes,
      joined by whitespace, reproduces the emitted tokens. */
  lemma TokenizeIdempotent(s: seq<Byte>)
    ensures Tokenize(Join(Tokenize(s))) == Tokenize(s)
  {
    TokenizeWellFormed(s);
    RetokenizeJoined(Tokenize(s));
  }

  /** The output is empty exactly when the input is all whitespace. */
  lemma {:induction false} NoTokensIffAllSpace(s: seq<Byte>)
    ensures Tokenize(s) == [] <==> forall k | 0 <= k < |s| :: IsSpace(s[k])
  {
    if s != [] {
      NoTokensIffAllSpace(s[1..]);
      if IsSpace(s[0]) {
        assert (forall k | 0 <= k < |s| :: IsSpace(s[k])) <==>
               (forall k | 0 <= k < |s[1..]| :: IsSpace(s[1..][k]));
      }
    }
  }
}
