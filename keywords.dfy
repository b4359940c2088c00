/** C-string comparison and the reserved-word lookup. */
module Keywords {
  import opened CharClass

  /** A C string: a byte sequence holding a terminating NUL somewhere. */
  predicate HasNul(a: seq<Byte>) {
    NUL in a
  }

  /** The text of a C string: the bytes before its first NUL. */
  function CString(a: seq<Byte>): (r: seq<Byte>)
    requires HasNul(a)
    ensures |r| < |a| && a[|r|] == NUL
    ensures r == a[..|r|] && NUL !in r
  {
    if a[0] == NUL then [] else [a[0]] + CString(a[1..])
  }

  /** A terminated sequence reads back as the bytes before the terminator. */
  lemma CStringAt(a: seq<Byte>, n: nat)
    requires n < |a| && a[n] == NUL && NUL !in a[..n]
    ensures HasNul(a) && CString(a) == a[..n]
  {
    var r := CString(a);
    assert |r| >= n;
  }

  /** Compares two C strings the way the source does, walking both at once. */
  method StrEquals(a: seq<Byte>, b: seq<Byte>) returns (eq: bool)
    requires HasNul(a) && HasNul(b)
    ensures eq <==> CString(a) == CString(b)
  {
    var i := 0;
    while a[i] != NUL && b[i] != NUL && a[i] == b[i]
      invariant i <= |CString(a)| && i <= |CString(b)|
      invariant a[..i] == b[..i]
      decreases |a| - i
    {
      assert a[..i + 1] == a[..i] + [a[i]] && b[..i + 1] == b[..i] + [b[i]];
      i := i + 1;
    }
    eq := a[i] == NUL && b[i] == NUL;
    if !eq {
      if i == |CString(a)| && i == |CString(b)| {
        assert false;
      } else if i == |CString(a)| || i == |CString(b)| {
        assert |CString(a)| != |CString(b)|;
      } else {
        assert CString(a)[i] != CString(b)[i];
      }
    } else {
      assert a[i] == NUL && NUL !in CString(a) && CString(a) == a[..|CString(a)|];
      assert i == |CString(a)|;
      assert i == |CString(b)|;
    }
  }

  const Int: seq<Byte> := ['i' as int, 'n' as int, 't' as int]
  const Float: seq<Byte> := ['f' as int, 'l' as int, 'o' as int, 'a' as int, 't' as int]
  const Char: seq<Byte> := ['c' as int, 'h' as int, 'a' as int, 'r' as int]
  const If: seq<Byte> := ['i' as int, 'f' as int]
  const Else: seq<Byte> := ['e' as int, 'l' as int, 's' as int, 'e' as int]
  const While: seq<Byte> := ['w' as int, 'h' as int, 'i' as int, 'l' as int, 'e' as int]
  const Return: seq<Byte> := ['r' as int, 'e' as int, 't' as int, 'u' as int, 'r' as int, 'n' as int]

  /** The seven reserved words, in the order the source tests them. */
  const Reserved: seq<seq<Byte>> := [Int, Float, Char, If, Else, While, Return]

  predicate IsKeywordLexeme(w: seq<Byte>) {
    w in Reserved
  }

  /** One comparison of the source's keyword test: the lexeme against a
      reserved word written as a string literal, that is with its NUL. */
  method EqualsWord(lexeme: seq<Byte>, word: seq<Byte>) returns (eq: bool)
    requires HasNul(lexeme) && NUL !in word
    ensures eq <==> CString(lexeme) == word
  {
    var literal := word + [NUL];
    assert literal[..|word|] == word;
    CStringAt(literal, |word|);
    eq := StrEquals(lexeme, literal);
  }

  /** Tests a C string against each reserved word in turn, stopping at the
      first match. */
  method IsKeyword(lexeme: seq<Byte>) returns (r: bool)
    requires HasNul(lexeme)
    ensures r <==> IsKeywordLexeme(CString(lexeme))
  {
    ghost var w := CString(lexeme);
    r := EqualsWord(lexeme, Int);
    assert r <==> w in Reserved[..1] by { assert Reserved[..1] == [Int]; }
    if !r { r := EqualsWord(lexeme, Float); }
    assert r <==> w in Reserved[..2] by { assert Reserved[..2] == Reserved[..1] + [Float]; }
    if !r { r := EqualsWord(lexeme, Char); }
    assert r <==> w in Reserved[..3] by { assert Reserved[..3] == Reserved[..2] + [Char]; }
    if !r { r := EqualsWord(lexeme, If); }
    assert r <==> w in Reserved[..4] by { assert Reserved[..4] == Reserved[..3] + [If]; }
    if !r { r := EqualsWord(lexeme, Else); }
    assert r <==> w in Reserved[..5] by { assert Reserved[..5] == Reserved[..4] + [Else]; }
    if !r { r := EqualsWord(lexeme, While); }
    assert r <==> w in Reserved[..6] by { assert Reserved[..6] == Reserved[..5] + [While]; }
    if !r { r := EqualsWord(lexeme, Return); }
    assert r <==> w in Reserved[..7] by { assert Reserved[..7] == Reserved[..6] + [Return]; }
    assert Reserved[..7] == Reserved;
  }
}
