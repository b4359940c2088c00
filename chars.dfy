/** Character classes of the tokenizer: the single-byte predicates that
    decide what the dispatch loop does with each input unit. */
module CharClass {

  /** One input unit: a byte value as getchar delivers it. */
  type Byte = b: int | 0 <= b < 256

  /** The end-of-stream sentinel getchar returns; it is never a byte. */
  const EOF: int := -1

  /** The string terminator of a C string. */
  const NUL: Byte := 0

  const FormFeed: Byte := 12
  const VerticalTab: Byte := 11

  predicate IsLetter(c: Byte) {
    ('A' as int <= c <= 'Z' as int) || ('a' as int <= c <= 'z' as int) || c == '_' as int
  }

  predicate IsDigit(c: Byte) {
    '0' as int <= c <= '9' as int
  }

  /** The test that keeps an identifier scan going: letter, digit or underscore. */
  predicate IsWordChar(c: Byte) {
    IsLetter(c) || IsDigit(c) || c == '_' as int
  }

  predicate IsOperatorChar(c: Byte) {
    c == '+' as int || c == '-' as int || c == '*' as int || c == '/' as int || c == '=' as int
  }

  predicate IsPunctuationChar(c: Byte) {
    c == '(' as int || c == ')' as int || c == '{' as int || c == '}' as int ||
    c == ';' as int || c == ',' as int
  }

  /** The six whitespace bytes the dispatch loop skips. */
  predicate IsSpace(c: Byte) {
    c == ' ' as int || c == '\t' as int || c == '\n' as int || c == '\r' as int ||
    c == FormFeed || c == VerticalTab
  }

  /** What the dispatch loop does with a byte it has just read. */
  datatype CharKind = Space | Letter | Digit | OperatorChar | PunctuationChar | Other

  /** The dispatch decision, tested in the loop's own order. Each class is
      chosen exactly when its own predicate holds, so the order of the tests
      does not matter: the classes are pairwise disjoint and cover every byte. */
  function ClassOf(c: Byte): (k: CharKind)
    ensures k == Space <==> IsSpace(c)
    ensures k == Letter <==> IsLetter(c)
    ensures k == Digit <==> IsDigit(c)
    ensures k == OperatorChar <==> IsOperatorChar(c)
    ensures k == PunctuationChar <==> IsPunctuationChar(c)
    ensures k == Other <==> !IsSpace(c) && !IsWordChar(c) && !IsOperatorChar(c) && !IsPunctuationChar(c)
  {
    if IsSpace(c) then Space
    else if IsLetter(c) then Letter
    else if IsDigit(c) then Digit
    else if IsOperatorChar(c) then OperatorChar
    else if IsPunctuationChar(c) then PunctuationChar
    else Other
  }

  /** The underscore test of the identifier scan is already part of IsLetter,
      so a word byte is exactly a letter or a digit, and never NUL. */
  lemma WordCharIsLetterOrDigit(c: Byte)
    ensures IsWordChar(c) <==> IsLetter(c) || IsDigit(c)
    ensures IsWordChar(c) ==> c != NUL && !IsSpace(c)
  {
  }
}
