/** Tokens and the pure specification of the whole scan: what the tokenizer
    emits for a given input, stated as a function of the input bytes. */
module Tokens {
  import opened CharClass
  import opened Keywords

  datatype Kind = Keyword | Identifier | Number | Operator | Punctuation | Unknown

  datatype Token = Token(kind: Kind, lexeme: seq<Byte>)

  /** Size of the scanners' lexeme buffer, terminator included. */
  const MaxTokenLen: nat := 1024

  /** The longest lexeme the buffer can hold in front of its terminator. */
  const MaxLexemeLen: nat := MaxTokenLen - 1

  /** The part of a consumed run that fits in the buffer: its first
      min(|run|, MaxLexemeLen) bytes. */
  function Truncate(run: seq<Byte>): (lexeme: seq<Byte>)
    ensures |lexeme| == if |run| <= MaxLexemeLen then |run| else MaxLexemeLen
    ensures lexeme == run[..|lexeme|]
  {
    if |run| <= MaxLexemeLen then run else run[..MaxLexemeLen]
  }

  /** Storing one more byte of the run appends it to the lexeme while the
      buffer has room, and leaves the lexeme as it is after that. */
  lemma TruncateExtend(run: seq<Byte>, c: Byte)
    ensures Truncate(run + [c]) ==
      if |run| < MaxLexemeLen then Truncate(run) + [c] else Truncate(run)
  {
    if |run| >= MaxLexemeLen {
      assert (run + [c])[..MaxLexemeLen] == run[..MaxLexemeLen];
    }
  }

  /** Byte k of a scanned word: the first byte, then data[start..]. */
  function RunByte(first: Byte, data: seq<Byte>, start: nat, k: nat): Byte
    requires k == 0 || start + k - 1 < |data|
  {
    if k == 0 then first else data[start + k - 1]
  }

  /** A buffer whose first len bytes are those of a scanned word, where len
      is the word's length capped at MaxLexemeLen, holds its lexeme. */
  lemma BufferHoldsLexeme(buf: seq<Byte>, len: nat, first: Byte, data: seq<Byte>, start: nat, pos: nat)
    requires start <= pos <= |data| && len <= |buf|
    requires len == if pos - start + 1 <= MaxLexemeLen then pos - start + 1 else MaxLexemeLen
    requires forall k | 0 <= k < len :: buf[k] == RunByte(first, data, start, k)
    ensures buf[..len] == Truncate([first] + data[start..pos])
  {
    var lexeme := Truncate([first] + data[start..pos]);
    assert |lexeme| == len;
    forall k | 0 <= k < len ensures buf[k] == lexeme[k] {
      assert buf[k] == RunByte(first, data, start, k);
    }
  }

  /** The two kinds of run the scanners consume after their first byte. */
  datatype RunClass = WordRun | DigitRun

  predicate Continues(rc: RunClass, c: Byte) {
    match rc
    case WordRun => IsWordChar(c)
    case DigitRun => IsDigit(c)
  }

  /** Length of the maximal prefix of s whose bytes all continue the run:
      every byte before it continues, the byte at it (if any) does not. */
  function RunLength(s: seq<Byte>, rc: RunClass): (n: nat)
    ensures n <= |s|
    ensures forall k | 0 <= k < n :: Continues(rc, s[k])
    ensures n == |s| || !Continues(rc, s[n])
  {
    if s != [] && Continues(rc, s[0]) then 1 + RunLength(s[1..], rc) else 0
  }

  /** The maximal run is the only prefix with those two properties. */
  lemma RunLengthUnique(s: seq<Byte>, rc: RunClass, n: nat)
    requires n <= |s|
    requires forall k | 0 <= k < n :: Continues(rc, s[k])
    requires n == |s| || !Continues(rc, s[n])
    ensures RunLength(s, rc) == n
  {
  }

  /** A scan that stops where the run class first fails, or at the end of
      the data, has consumed exactly the maximal run. */
  lemma ScanStopsAtRunEnd(data: seq<Byte>, start: nat, pos: nat, rc: RunClass)
    requires start <= pos <= |data|
    requires forall k | start <= k < pos :: Continues(rc, data[k])
    requires pos == |data| || !Continues(rc, data[pos])
    ensures pos == start + RunLength(data[start..], rc)
  {
    RunLengthUnique(data[start..], rc, pos - start);
  }

  /** The stored part of a word scan holds no terminator byte. */
  lemma WordHasNoNul(first: Byte, rest: seq<Byte>)
    requires IsLetter(first) && forall k | 0 <= k < |rest| :: IsWordChar(rest[k])
    ensures NUL !in Truncate([first] + rest)
  {
    var lexeme := Truncate([first] + rest);
    forall k | 0 <= k < |lexeme| ensures lexeme[k] != NUL {
      if k > 0 {
        assert lexeme[k] == rest[k - 1];
      }
    }
  }

  /** An identifier-shaped lexeme, tagged by keyword lookup. */
  function WordToken(lexeme: seq<Byte>): (t: Token)
  {
    Token(if IsKeywordLexeme(lexeme) then Keyword else Identifier, lexeme)
  }

  /** An identifier-shaped byte sequence: a letter, then word bytes. */
  predicate IsWord(w: seq<Byte>) {
    0 < |w| && IsLetter(w[0]) && forall k | 0 <= k < |w| :: IsWordChar(w[k])
  }

  /** What each kind of token may hold. */
  predicate WellFormed(t: Token) {
    1 <= |t.lexeme| <= MaxLexemeLen &&
    match t.kind
    case Keyword => IsWord(t.lexeme) && IsKeywordLexeme(t.lexeme)
    case Identifier => IsWord(t.lexeme) && !IsKeywordLexeme(t.lexeme)
    case Number => forall k | 0 <= k < |t.lexeme| :: IsDigit(t.lexeme[k])
    case Operator => |t.lexeme| == 1 && IsOperatorChar(t.lexeme[0])
    case Punctuation => |t.lexeme| == 1 && IsPunctuationChar(t.lexeme[0])
    case Unknown => |t.lexeme| == 1 && ClassOf(t.lexeme[0]) == Other
  }

  /** Where the token (or the skipped whitespace byte) that starts s ends:
      after the letter or digit and its maximal run, or after one byte. */
  function TokenEnd(s: seq<Byte>): (n: nat)
    requires s != []
    ensures 1 <= n <= |s|
  {
    match ClassOf(s[0])
    case Letter => 1 + RunLength(s[1..], WordRun)
    case Digit => 1 + RunLength(s[1..], DigitRun)
    case _ => 1
  }

  /** The token that a non-whitespace byte at the head of s starts. */
  function HeadToken(s: seq<Byte>): Token
    requires s != [] && !IsSpace(s[0])
  {
    match ClassOf(s[0])
    case Letter => WordToken(Truncate(s[..TokenEnd(s)]))
    case Digit => Token(Number, Truncate(s[..TokenEnd(s)]))
    case OperatorChar => Token(Operator, [s[0]])
    case PunctuationChar => Token(Punctuation, [s[0]])
    case Other => Token(Unknown, [s[0]])
  }

  /** What one pass of the dispatch loop emits for the byte at the head of
      s: nothing for whitespace, one token otherwise. */
  function HeadTokens(s: seq<Byte>): (ts: seq<Token>)
    requires s != []
    ensures |ts| == if IsSpace(s[0]) then 0 else 1
  {
    if IsSpace(s[0]) then [] else [HeadToken(s)]
  }

  /** The tokens the dispatch loop emits for input s, in order. A letter or
      a digit starts a maximal run that becomes one (possibly truncated)
      token; whitespace is dropped; any other byte is a one-byte token. */
  function Tokenize(s: seq<Byte>): seq<Token>
    decreases |s|
  {
    if s == [] then [] else HeadTokens(s) + Tokenize(s[TokenEnd(s)..])
  }

  /** The token at the head of the input is well formed. */
  lemma HeadTokenWellFormed(s: seq<Byte>)
    requires s != [] && !IsSpace(s[0])
    ensures WellFormed(HeadToken(s))
  {
    var n := TokenEnd(s);
    match ClassOf(s[0])
    case Letter =>
      WordLexeme(s, n);
    case Digit =>
      var lexeme := Truncate(s[..n]);
      forall k | 0 <= k < |lexeme| ensures IsDigit(lexeme[k]) {
        if k > 0 {
          assert lexeme[k] == s[1..][k - 1];
        }
      }
    case OperatorChar =>
    case PunctuationChar =>
    case Other =>
  }

  /** Every token the specification emits is well formed: non-empty,
      within the buffer bound, and of the shape its kind demands. */
  lemma {:induction false} TokenizeWellFormed(s: seq<Byte>)
    ensures forall t | t in Tokenize(s) :: WellFormed(t)
    decreases |s|
  {
    if s != [] {
      TokenizeWellFormed(s[TokenEnd(s)..]);
      if !IsSpace(s[0]) {
        HeadTokenWellFormed(s);
      }
      assert forall t | t in Tokenize(s) :: t in HeadTokens(s) || t in Tokenize(s[TokenEnd(s)..]);
    }
  }

  /** A letter followed by its word run gives a well-formed word token. */
  lemma WordLexeme(s: seq<Byte>, n: nat)
    requires 0 < |s| && IsLetter(s[0]) && n == 1 + RunLength(s[1..], WordRun)
    ensures WellFormed(WordToken(Truncate(s[..n])))
  {
    var lexeme := Truncate(s[..n]);
    forall k | 0 <= k < |lexeme| ensures IsWordChar(lexeme[k]) {
      if k > 0 {
        assert lexeme[k] == s[1..][k - 1];
      }
    }
    assert IsWord(lexeme);
  }

  /** One pass of the dispatch loop over the input from position p on:
      Tokenize emits what the pass emits, then goes on where the pass
      stopped. */
  lemma TokenizeAt(data: seq<Byte>, p: nat)
    requires p < |data|
    ensures p + TokenEnd(data[p..]) <= |data|
    ensures Tokenize(data[p..]) ==
      HeadTokens(data[p..]) + Tokenize(data[p + TokenEnd(data[p..])..])
  {
    assert data[p..][TokenEnd(data[p..])..] == data[p + TokenEnd(data[p..])..];
  }

  /** The pass for each class of head byte, one lemma per branch of the
      dispatch loop: where it stops and what it emits. */
  lemma SpaceAt(data: seq<Byte>, p: nat)
    requires p < |data| && IsSpace(data[p])
    ensures TokenEnd(data[p..]) == 1 && HeadTokens(data[p..]) == []
  {
  }

  lemma WordAt(data: seq<Byte>, p: nat, q: nat)
    requires p < |data| && IsLetter(data[p])
    requires q == p + 1 + RunLength(data[p + 1..], WordRun)
    ensures p + TokenEnd(data[p..]) == q
    ensures HeadTokens(data[p..]) == [WordToken(Truncate([data[p]] + data[p + 1..q]))]
  {
    var s := data[p..];
    assert s[1..] == data[p + 1..];
    RunHead(s);
    assert s[..q - p] == [data[p]] + data[p + 1..q];
  }

  lemma NumberAt(data: seq<Byte>, p: nat, q: nat)
    requires p < |data| && IsDigit(data[p])
    requires q == p + 1 + RunLength(data[p + 1..], DigitRun)
    ensures p + TokenEnd(data[p..]) == q
    ensures HeadTokens(data[p..]) == [Token(Number, Truncate([data[p]] + data[p + 1..q]))]
  {
    var s := data[p..];
    assert s[1..] == data[p + 1..];
    RunHead(s);
    assert s[..q - p] == [data[p]] + data[p + 1..q];
  }

  /** A letter or a digit at the head of s starts a run that ends after
      its maximal continuation and yields one truncated token. */
  lemma RunHead(s: seq<Byte>)
    requires s != [] && (IsLetter(s[0]) || IsDigit(s[0]))
    ensures IsLetter(s[0]) ==> TokenEnd(s) == 1 + RunLength(s[1..], WordRun)
    ensures IsDigit(s[0]) ==> TokenEnd(s) == 1 + RunLength(s[1..], DigitRun)
    ensures IsLetter(s[0]) ==> HeadTokens(s) == [WordToken(Truncate(s[..TokenEnd(s)]))]
    ensures IsDigit(s[0]) ==> HeadTokens(s) == [Token(Number, Truncate(s[..TokenEnd(s)]))]
  {
  }

  lemma SingleAt(data: seq<Byte>, p: nat, k: Kind)
    requires p < |data|
    requires (k == Operator && IsOperatorChar(data[p])) ||
             (k == Punctuation && IsPunctuationChar(data[p])) ||
             (k == Unknown && ClassOf(data[p]) == Other)
    ensures TokenEnd(data[p..]) == 1 && HeadTokens(data[p..]) == [Token(k, [data[p]])]
  {
  }
}
