/** Worked inputs: what the tokenizer emits for a few concrete lines. */
module Cases {
  import opened CharClass
  import opened Keywords
  import opened Tokens

  /** One pass over a byte that is a token of its own. */
  lemma SingleStep(s: seq<Byte>, p: nat, k: Kind, c: Byte)
    requires p < |s| && s[p] == c
    requires (k == Operator && IsOperatorChar(c)) || (k == Punctuation && IsPunctuationChar(c))
    ensures Tokenize(s[p..]) == [Token(k, [c])] + Tokenize(s[p + 1..])
  {
    SingleAt(s, p, k);
    TokenizeAt(s, p);
  }

  /** One pass over a whitespace byte. */
  lemma SpaceStep(s: seq<Byte>, p: nat)
    requires p < |s| && IsSpace(s[p])
    ensures Tokenize(s[p..]) == Tokenize(s[p + 1..])
  {
    SpaceAt(s, p);
    TokenizeAt(s, p);
  }

  /** One pass over the word w = s[p..q], which the byte at q (if any)
      ends, emitting it as a token of kind k: KEYWORD exactly when w is a
      reserved word. */
  lemma WordStep(s: seq<Byte>, p: nat, q: nat, w: seq<Byte>, k: Kind)
    requires p < q <= |s| && q - p <= MaxLexemeLen && s[p..q] == w && IsLetter(s[p])
    requires forall i | p < i < q :: IsWordChar(s[i])
    requires q == |s| || !IsWordChar(s[q])
    requires k == if IsKeywordLexeme(w) then Keyword else Identifier
    ensures Tokenize(s[p..]) == [Token(k, w)] + Tokenize(s[q..])
  {
    WordHead(s, p, q, w);
    TokenizeAt(s, p);
  }

  /** Where the pass over the word w = s[p..q] stops, and what it emits. */
  lemma WordHead(s: seq<Byte>, p: nat, q: nat, w: seq<Byte>)
    requires p < q <= |s| && q - p <= MaxLexemeLen && s[p..q] == w && IsLetter(s[p])
    requires forall i | p < i < q :: IsWordChar(s[i])
    requires q == |s| || !IsWordChar(s[q])
    ensures p + TokenEnd(s[p..]) == q && HeadTokens(s[p..]) == [WordToken(w)]
  {
    RunEndsAt(s, p, q, WordRun);
    WordAt(s, p, q);
    assert [s[p]] + s[p + 1..q] == w;
  }

  /** One pass over the number w = s[p..q], which the byte at q (if any) ends. */
  lemma NumberStep(s: seq<Byte>, p: nat, q: nat, w: seq<Byte>)
    requires p < q <= |s| && q - p <= MaxLexemeLen && s[p..q] == w && IsDigit(s[p])
    requires forall k | p < k < q :: IsDigit(s[k])
    requires q == |s| || !IsDigit(s[q])
    ensures Tokenize(s[p..]) == [Token(Number, w)] + Tokenize(s[q..])
  {
    RunEndsAt(s, p, q, DigitRun);
    NumberAt(s, p, q);
    assert [s[p]] + s[p + 1..q] == w && Truncate(w) == w;
    TokenizeAt(s, p);
  }

  /** The run after position p ends at q when every byte between continues
      it and the byte at q does not. */
  lemma RunEndsAt(s: seq<Byte>, p: nat, q: nat, rc: RunClass)
    requires p < q <= |s|
    requires forall k | p < k < q :: Continues(rc, s[k])
    requires q == |s| || !Continues(rc, s[q])
    ensures q == p + 1 + RunLength(s[p + 1..], rc)
  {
    var t := s[p + 1..];
    forall k | 0 <= k < q - p - 1 ensures Continues(rc, t[k]) {
      assert t[k] == s[p + 1 + k];
    }
    RunLengthUnique(t, rc, q - p - 1);
  }

  /** The eleven bytes of `int x = 42;`. */
  predicate IsDeclaration(s: seq<Byte>) {
    |s| == 11 &&
    s[0] == 'i' as int && s[1] == 'n' as int && s[2] == 't' as int && s[3] == ' ' as int &&
    s[4] == 'x' as int && s[5] == ' ' as int && s[6] == '=' as int && s[7] == ' ' as int &&
    s[8] == '4' as int && s[9] == '2' as int && s[10] == ';' as int
  }

  /** The declaration `int x = 42;`: a keyword, an identifier, an operator,
      a number and a punctuation token, the spaces dropped. */
  lemma ExampleDeclaration(s: seq<Byte>)
    requires IsDeclaration(s)
    ensures Tokenize(s) == [Token(Keyword, Int), Token(Identifier, ['x' as int]), Token(Operator, ['=' as int]),
                            Token(Number, ['4' as int, '2' as int]), Token(Punctuation, [';' as int])]
  {
    DeclarationHead(s);
    DeclarationTail(s);
  }

  /** `int x `: a keyword and an identifier, each ended by a space. */
  lemma DeclarationHead(s: seq<Byte>)
    requires IsDeclaration(s)
    ensures Tokenize(s) == [Token(Keyword, Int), Token(Identifier, ['x' as int])] + Tokenize(s[6..])
  {
    KeywordTokens();
    assert s[0..3] == Int;
    WordStep(s, 0, 3, Int, Keyword);
    IdentifierTokens();
    assert s[4..5] == ['x' as int];
    WordStep(s, 4, 5, ['x' as int], Identifier);
    SpaceStep(s, 3);
    SpaceStep(s, 5);
    assert s[0..] == s;
    Prepend2(Token(Keyword, Int), Token(Identifier, ['x' as int]), Tokenize(s[6..]));
  }

  /** `= 42;`: the number stops at the `;` that touches it. */
  lemma DeclarationTail(s: seq<Byte>)
    requires IsDeclaration(s)
    ensures Tokenize(s[6..]) == [Token(Operator, ['=' as int]), Token(Number, ['4' as int, '2' as int]), Token(Punctuation, [';' as int])]
  {
    assert s[8..10] == ['4' as int, '2' as int];
    NumberStep(s, 8, 10, ['4' as int, '2' as int]);
    SingleStep(s, 10, Punctuation, ';' as int);
    assert s[11..] == [];
    SpaceStep(s, 7);
    SingleStep(s, 6, Operator, '=' as int);
    Prepend3(Token(Operator, ['=' as int]), Token(Number, ['4' as int, '2' as int]), Token(Punctuation, [';' as int]), []);
  }

  /** The sixteen bytes of `if(a){return 0;}`, where most tokens touch. */
  predicate IsIfStatement(s: seq<Byte>) {
    |s| == 16 &&
    s[0] == 'i' as int && s[1] == 'f' as int && s[2] == '(' as int && s[3] == 'a' as int &&
    s[4] == ')' as int && s[5] == '{' as int && s[6] == 'r' as int && s[7] == 'e' as int &&
    s[8] == 't' as int && s[9] == 'u' as int && s[10] == 'r' as int && s[11] == 'n' as int &&
    s[12] == ' ' as int && s[13] == '0' as int && s[14] == ';' as int && s[15] == '}' as int
  }

  /** The statement `if(a){return 0;}`: two keywords, an identifier, a
      number and five punctuation tokens, though only one space separates
      anything. */
  lemma ExampleIfStatement(s: seq<Byte>)
    requires IsIfStatement(s)
    ensures Tokenize(s) ==
      [Token(Keyword, If), Token(Punctuation, ['(' as int]), Token(Identifier, ['a' as int]),
       Token(Punctuation, [')' as int]), Token(Punctuation, ['{' as int]), Token(Keyword, Return),
       Token(Number, ['0' as int]), Token(Punctuation, [';' as int]), Token(Punctuation, ['}' as int])]
  {
    IfHead(s);
    IfCondition(s);
    IfReturn(s);
    Flatten(Token(Keyword, If), Token(Punctuation, ['(' as int]), Token(Identifier, ['a' as int]),
            Token(Punctuation, [')' as int]), Token(Punctuation, ['{' as int]), Token(Keyword, Return),
            Token(Number, ['0' as int]), Token(Punctuation, [';' as int]), Token(Punctuation, ['}' as int]));
  }

  /** `if(`: the keyword ends at the `(` that touches it. */
  lemma IfHead(s: seq<Byte>)
    requires IsIfStatement(s)
    ensures Tokenize(s) == [Token(Keyword, If), Token(Punctuation, ['(' as int])] + Tokenize(s[3..])
  {
    KeywordTokens();
    assert s[0..2] == If;
    WordStep(s, 0, 2, If, Keyword);
    SingleStep(s, 2, Punctuation, '(' as int);
    assert s[0..] == s;
    Prepend2(Token(Keyword, If), Token(Punctuation, ['(' as int]), Tokenize(s[3..]));
  }

  /** `a){`: the identifier ends at the `)` that touches it. */
  lemma IfCondition(s: seq<Byte>)
    requires IsIfStatement(s)
    ensures Tokenize(s[3..]) ==
      [Token(Identifier, ['a' as int]), Token(Punctuation, [')' as int]), Token(Punctuation, ['{' as int])] +
      Tokenize(s[6..])
  {
    IdentifierTokens();
    assert s[3..4] == ['a' as int];
    WordStep(s, 3, 4, ['a' as int], Identifier);
    SingleStep(s, 4, Punctuation, ')' as int);
    SingleStep(s, 5, Punctuation, '{' as int);
    Prepend3(Token(Identifier, ['a' as int]), Token(Punctuation, [')' as int]), Token(Punctuation, ['{' as int]),
             Tokenize(s[6..]));
  }

  /** `return 0;}`: the keyword ends at the space. */
  lemma IfReturn(s: seq<Byte>)
    requires IsIfStatement(s)
    ensures Tokenize(s[6..]) == [Token(Keyword, Return), Token(Number, ['0' as int]),
                                 Token(Punctuation, [';' as int]), Token(Punctuation, ['}' as int])]
  {
    KeywordTokens();
    assert s[6..12] == Return;
    WordStep(s, 6, 12, Return, Keyword);
    SpaceStep(s, 12);
    IfTail(s);
    Prepend1(Token(Keyword, Return), Token(Number, ['0' as int]), Token(Punctuation, [';' as int]),
             Token(Punctuation, ['}' as int]));
  }

  /** `0;}`: the number ends at the `;` that touches it. */
  lemma IfTail(s: seq<Byte>)
    requires IsIfStatement(s)
    ensures Tokenize(s[13..]) == [Token(Number, ['0' as int]), Token(Punctuation, [';' as int]), Token(Punctuation, ['}' as int])]
  {
    assert s[13..14] == ['0' as int];
    NumberStep(s, 13, 14, ['0' as int]);
    SingleStep(s, 14, Punctuation, ';' as int);
    SingleStep(s, 15, Punctuation, '}' as int);
    assert s[16..] == [];
    Prepend3(Token(Number, ['0' as int]), Token(Punctuation, [';' as int]), Token(Punctuation, ['}' as int]), []);
  }

  /** Joining the three pieces of ExampleIfStatement into one list. */
  lemma Flatten(t1: Token, t2: Token, t3: Token, t4: Token, t5: Token, t6: Token, t7: Token, t8: Token, t9: Token)
    ensures [t1, t2] + ([t3, t4, t5] + [t6, t7, t8, t9]) == [t1, t2, t3, t4, t5, t6, t7, t8, t9]
  {
  }

  /** Prepending one, two or three tokens, one at a time, as the passes
      of an example emit them. These facts about sequences alone are kept
      apart from the Tokenize terms so that each example stays a small
      proof obligation. */
  lemma Prepend2(a: Token, b: Token, rest: seq<Token>)
    ensures [a] + ([b] + rest) == [a, b] + rest
  {
  }

  lemma Prepend3(a: Token, b: Token, c: Token, rest: seq<Token>)
    ensures [a] + ([b] + ([c] + rest)) == [a, b, c] + rest
  {
  }

  lemma Prepend1(a: Token, b: Token, c: Token, d: Token)
    ensures [a] + [b, c, d] == [a, b, c, d]
  {
  }

  /** The reserved words of the examples are reserved. */
  lemma KeywordTokens()
    ensures IsKeywordLexeme(Int) && IsKeywordLexeme(If) && IsKeywordLexeme(Return)
  {
    assert Reserved[0] == Int && Reserved[3] == If && Reserved[6] == Return;
  }

  /** The one-letter names of the examples are not reserved. */
  lemma IdentifierTokens()
    ensures !IsKeywordLexeme(['x' as int]) && !IsKeywordLexeme(['a' as int])
  {
  }

  /** Digits may follow the first letter of an identifier, and a word that
      is no reserved word is an IDENTIFIER. */
  lemma ExampleIdentifier()
    ensures Tokenize(['x' as int, '1' as int, '_' as int, '2' as int]) ==
      [Token(Identifier, ['x' as int, '1' as int, '_' as int, '2' as int])]
  {
    var s: seq<Byte> := ['x' as int, '1' as int, '_' as int, '2' as int];
    RunLengthUnique(s[1..], WordRun, 3);
    RunHead(s);
    assert s[..4] == s && s[4..] == [];
    assert !IsKeywordLexeme(s);
  }

  /** A byte of no class is a one-byte UNKNOWN token. */
  lemma ExampleUnknown()
    ensures Tokenize(['@' as int]) == [Token(Unknown, ['@' as int])]
  {
    var s: seq<Byte> := ['@' as int];
    SingleAt(s, 0, Unknown);
    TokenizeAt(s, 0);
    assert s[0..] == s && s[1..] == [];
  }
}
