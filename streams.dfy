/** The standard streams as the tokenizer uses them: an input cursor with
    one byte of pushback, and an output sink that collects emitted tokens. */
module Streams {
  import opened CharClass
  import opened Tokens

  /** Standard input: the bytes still to come are data[pos..]. */
  class Stdin {
    const data: seq<Byte>
    var pos: nat

    ghost predicate Valid()
      reads this
    {
      pos <= |data|
    }

    constructor (data: seq<Byte>)
      ensures Valid() && this.data == data && pos == 0
    {
      this.data := data;
      pos := 0;
    }

    /** getchar: the next byte, consumed, or EOF at the end of the input. */
    method GetChar() returns (c: int)
      requires Valid()
      modifies this
      ensures Valid()
      ensures old(pos) < |data| ==> c == data[old(pos)] && pos == old(pos) + 1
      ensures old(pos) == |data| ==> c == EOF && pos == old(pos)
    {
      if pos < |data| {
        c := data[pos];
        pos := pos + 1;
      } else {
        c := EOF;
      }
    }

    /** ungetc of the byte just read: the next getchar reads it again. */
    method UngetC(c: Byte)
      requires Valid() && 0 < pos && data[pos - 1] == c
      modifies this
      ensures Valid() && pos == old(pos) - 1
    {
      pos := pos - 1;
    }
  }

  /** Standard output, seen as the sequence of tokens written to it. */
  class Stdout {
    var tokens: seq<Token>

    constructor ()
      ensures tokens == []
    {
      tokens := [];
    }

    /** emit_token: one more token, after all earlier ones. */
    method Emit(kind: Kind, lexeme: seq<Byte>)
      modifies this
      ensures tokens == old(tokens) + [Token(kind, lexeme)]
    {
      tokens := tokens + [Token(kind, lexeme)];
    }
  }
}
