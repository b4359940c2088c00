# Tokenizer for a small C-like language, modelled in Dafny

`Part3/tokenizer.c` reads source text from standard input one byte at a time.
It writes one line per token: KEYWORD, IDENTIFIER, NUMBER, OPERATOR, PUNCTUATION or UNKNOWN.

- Whitespace is skipped.
- A letter starts an identifier scan. It takes the maximal run of letters, digits and underscores, then looks the word up among the seven reserved words.
- A digit starts a number scan, which takes the maximal run of digits.
- Both scans copy the run into a 1024-byte buffer. Only the first 1023 bytes are kept, but the whole run is consumed. The first byte after the run is pushed back onto the stream.
- Any other byte becomes a one-byte token.

The model has seven modules, one per file.

- `CharClass` (`chars.dfy`): bytes, the character classifiers, and the dispatch decision `ClassOf`.
- `Keywords` (`keywords.dfy`): C strings (`CString`), the pointer loop of `str_equals` as the method `StrEquals`, and `is_keyword` as the method `IsKeyword`.
- `Tokens` (`tokens.dfy`): tokens, truncation, maximal runs, and the pure specification `Tokenize(input)` of what the whole program emits.
  - `Tokenize` is built from one pass of the loop: `HeadTokens` says what the pass emits, `TokenEnd` where it stops.
- `Streams` (`streams.dfy`): standard input as a class.
  - It holds the input bytes and a cursor.
  - `GetChar` advances the cursor or answers `EOF`.
  - `UngetC` moves the cursor back by one.
  - Standard output is a class holding the sequence of tokens emitted so far.
- `Scanner` (`scanner.dfy`): the two scanners, one pass of `main`'s loop body (`Dispatch`), and the loop itself (`MainLoop`). All are imperative methods over those stream objects.
  - The scanners store into a real `array` of 1024 bytes with a `len` counter.
  - The fill loop that both scanners share is written once, as `ReadRun`.
  - Each method is proved against `Tokenize`.
- `Properties` (`properties.dfy`): whole-scan properties.
  - Partition: the lexemes concatenated in order are exactly the input without whitespace if and only if no scan consumes more than 1023 bytes.
  - Re-tokenization: the emitted lexemes, written back with spaces between them, give the same tokens.
  - Empty output happens exactly for all-whitespace input.
- `Cases` (`cases.dfy`): the worked inputs `int x = 42;`, `if(a){return 0;}`, `x1_2` and `@`.

Bytes are integers 0..255. `EOF` is `-1` and is never a byte.

## Model

| member | source | states |
|---|---|---|
| CharClass.IsLetter | Part3/tokenizer.c:8-10 | A letter is one of `A`-`Z`, `a`-`z` or `_`. |
| CharClass.IsDigit | Part3/tokenizer.c:12-14 | A digit is one of `0`-`9`. |
| CharClass.IsWordChar | Part3/tokenizer.c:46 | A byte continues an identifier when it is a letter, a digit or `_`. |
| CharClass.IsOperatorChar | Part3/tokenizer.c:87-89 | An operator byte is one of `+ - * / =`. |
| CharClass.IsPunctuationChar | Part3/tokenizer.c:91-93 | A punctuation byte is one of `( ) { } ; ,`. |
| CharClass.IsSpace | Part3/tokenizer.c:99 | The loop skips exactly the six bytes space, tab, newline, carriage return, form feed (12) and vertical tab (11). |
| CharClass.ClassOf | Part3/tokenizer.c:99-133 | The dispatch tests pick Space, Letter, Digit, OperatorChar or PunctuationChar exactly when that class's predicate holds, so the order of the tests never matters. A byte lands in Other exactly when it is no whitespace, word byte, operator or punctuation byte. |
| CharClass.WordCharIsLetterOrDigit | Part3/tokenizer.c:46 | The identifier scan's test `is_letter \|\| is_digit \|\| '_'` accepts exactly letters and digits, because `'_'` is already a letter. A word byte is never NUL and never whitespace. |
| Keywords.CString | Part3/tokenizer.c:16-22 | The text of a NUL-terminated buffer is the bytes before its first NUL. It holds no NUL and is a prefix of the buffer. |
| Keywords.CStringAt | Part3/tokenizer.c:55 | Writing NUL at `len` after `len` NUL-free bytes makes the buffer read as exactly those bytes. |
| Keywords.StrEquals | Part3/tokenizer.c:16-22 | The two-pointer loop returns true if and only if the two C strings are equal. This covers unequal lengths and a prefix of the other string. |
| Keywords.EqualsWord | Part3/tokenizer.c:25 | Comparing with a string literal, which carries its own NUL, is true iff the lexeme's text is that word. |
| Keywords.IsKeyword | Part3/tokenizer.c:24-29 | The `\|\|` chain of seven comparisons is true iff the text is one of `int float char if else while return`. The match is exact, case-sensitive and not by prefix. |
| Tokens.Truncate | Part3/tokenizer.c:41-43 | The stored lexeme is the first min(run length, 1023) bytes of the run. |
| Tokens.TruncateExtend | Part3/tokenizer.c:41-43 | Reading one more byte of the run appends it while `len < 1023` and leaves the lexeme unchanged after that. |
| Tokens.BufferHoldsLexeme | Part3/tokenizer.c:41-42 | A buffer whose first `len` bytes are the run's bytes, with `len` capped at 1023, holds the truncated lexeme. |
| Tokens.RunLength | Part3/tokenizer.c:45-46 | The length of the maximal run: every byte before it continues the run, and the byte at it (if any) does not. |
| Tokens.RunLengthUnique | Part3/tokenizer.c:45-51 | Any prefix with those two properties is the maximal run. |
| Tokens.ScanStopsAtRunEnd | Part3/tokenizer.c:45-51 | A scan that reads while bytes continue the run, and stops at the first byte that does not or at end of input, consumes exactly the maximal run. |
| Tokens.WordHasNoNul | Part3/tokenizer.c:55-56 | An identifier's stored bytes contain no NUL, so `is_keyword` sees the whole lexeme. |
| Tokens.WordToken | Part3/tokenizer.c:56-60 | A scanned word is emitted as KEYWORD when it is one of the seven reserved words and as IDENTIFIER otherwise, with its bytes unchanged. |
| Tokens.Tokenize | Part3/tokenizer.c:98-134 | What the whole loop emits for an input: the tokens of the first pass, then those of the input after the point where that pass stops. The empty input gives no tokens. |
| Tokens.HeadTokens | Part3/tokenizer.c:99-133 | One pass of the loop emits no token for a whitespace byte and exactly one for any other byte. |
| Tokens.HeadTokenWellFormed | Part3/tokenizer.c:103-133 | The token a pass emits is well formed for its kind. |
| Tokens.TokenizeWellFormed | Part3/tokenizer.c:98-134 | Every emitted token is well formed: the lexeme is non-empty and at most 1023 bytes, and it has the shape its kind demands. KEYWORD and IDENTIFIER are words, KEYWORD exactly for reserved words; NUMBER is all digits; OPERATOR, PUNCTUATION and UNKNOWN are one byte of their class. |
| Tokens.WordLexeme | Part3/tokenizer.c:40-60 | A letter followed by its word run gives a well-formed KEYWORD or IDENTIFIER token. |
| Tokens.TokenizeAt | Part3/tokenizer.c:98-134 | The tokens of the input from position p are what the pass at p emits, followed by the tokens from where that pass stops. |
| Tokens.SpaceAt | Part3/tokenizer.c:99-101 | Whitespace is consumed alone and emits nothing. |
| Tokens.WordAt | Part3/tokenizer.c:103-106 | A letter's pass stops after its maximal word run. It emits the truncated word, tagged KEYWORD iff it is reserved. |
| Tokens.NumberAt | Part3/tokenizer.c:108-111 | A digit's pass stops after its maximal digit run and emits the truncated digits as NUMBER. |
| Tokens.RunHead | Part3/tokenizer.c:103-111 | A letter or digit at the head starts a run that ends after its maximal continuation and yields one truncated token. |
| Tokens.SingleAt | Part3/tokenizer.c:113-133 | An operator, punctuation or other byte is consumed alone. It emits one one-byte token of kind OPERATOR, PUNCTUATION or UNKNOWN. |
| Streams.Stdin.GetChar | Part3/tokenizer.c:45 | `getchar` returns the next byte and advances the cursor, or returns `EOF` at end of input without moving. |
| Streams.Stdin.UngetC | Part3/tokenizer.c:47-49 | `ungetc` of the byte just read moves the cursor back one byte, so that byte is read again. |
| Streams.Stdout.Emit | Part3/tokenizer.c:31-33 | `emit_token` appends one (kind, lexeme) token after all earlier ones. |
| Scanner.ReadRun | Part3/tokenizer.c:40-53 | The shared fill loop consumes exactly the maximal run after `first` and pushes back the byte that ends it. Characters past the limit are still consumed. `len <= 1023`, so the terminator fits, and `buf[..len]` is the truncated run. |
| Scanner.ScanIdentifierOrKeyword | Part3/tokenizer.c:35-61 | Consumes the maximal letter/digit/underscore run after `first_char` and leaves the next byte unread. Emits exactly one token: the first min(run, 1023) bytes of the word, tagged KEYWORD iff reserved, else IDENTIFIER. |
| Scanner.ScanNumber | Part3/tokenizer.c:63-85 | Consumes the maximal digit run after `first_char` and leaves the next byte unread. Emits exactly one NUMBER token holding the first min(run, 1023) bytes. |
| Scanner.Dispatch | Part3/tokenizer.c:99-133 | One pass of the loop body, for the byte just read, stops where the specification's pass stops and emits exactly what it emits. |
| Scanner.LoopStep | Part3/tokenizer.c:98-134 | After a pass, the emitted tokens followed by the tokens still to come for the rest of the input equal the same total as before the pass (the loop invariant). |
| Scanner.MainLoop | Part3/tokenizer.c:98-134 | The loop stops exactly at end of input and has emitted exactly `Tokenize` of the input it read, in order. |
| Properties.HeadLexeme | Part3/tokenizer.c:99-133 | A pass keeps every byte it consumes unless it skips whitespace, and the lexeme it emits is the first 1023 of those bytes. |
| Properties.PartitionStep | Part3/tokenizer.c:98-134 | A pass that consumes at most 1023 bytes extends the partition property from the rest of the input to the whole. |
| Properties.PartitionExact | Part3/tokenizer.c:98-134 | When no pass consumes more than 1023 bytes, the emitted lexemes concatenated in order are exactly the input with its whitespace removed. |
| Properties.LexemesWithin | Part3/tokenizer.c:41-43 | The emitted lexemes never hold more bytes than the input's non-whitespace bytes, and they hold strictly fewer once some scan consumes more than 1023 bytes. |
| Properties.Partition | Part3/tokenizer.c:98-134 | The emitted lexemes concatenated in order are exactly the input with its whitespace removed if and only if no scan consumes more than 1023 bytes. |
| Properties.RetokenizeOne | Part3/tokenizer.c:98-134 | A well-formed token written out and followed by a space is read back as that same token, and the input after the space is tokenized as if alone. |
| Properties.WrittenHead | Part3/tokenizer.c:99-133 | The pass over a written-out token stops exactly at its end and emits that token. |
| Properties.RetokenizeRun | Part3/tokenizer.c:45-46 | A run written in full and followed by a space is read back whole. |
| Properties.RetokenizeJoined | Part3/tokenizer.c:98-134 | Well-formed tokens written out with a space after each tokenize back to exactly those tokens. |
| Properties.TokenizeIdempotent | Part3/tokenizer.c:98-134 | Feeding the emitted lexemes back in, separated by spaces, reproduces the emitted tokens. |
| Properties.NoTokensIffAllSpace | Part3/tokenizer.c:98-134 | The output is empty iff every input byte is one of the six whitespace bytes. |
| Cases.SingleStep | Part3/tokenizer.c:113-127 | An operator or punctuation byte emits itself as one token, and the loop goes on with the next byte. |
| Cases.SpaceStep | Part3/tokenizer.c:99-101 | A whitespace byte emits nothing, and the loop goes on with the next byte. |
| Cases.WordHead | Part3/tokenizer.c:103-106 | A word of at most 1023 bytes, ended by a non-word byte or the end of input, is consumed whole and emitted as one word token. |
| Cases.WordStep | Part3/tokenizer.c:103-106 | Such a word is emitted as KEYWORD exactly when it is reserved, and the loop goes on at the byte that ended it. |
| Cases.NumberStep | Part3/tokenizer.c:108-111 | A digit run of at most 1023 bytes, ended by a non-digit or the end of input, is emitted as one NUMBER, and the loop goes on at the byte that ended it. |
| Cases.RunEndsAt | Part3/tokenizer.c:45-51 | The run after position p ends at q when every byte between them continues it and the byte at q does not. |
| Cases.ExampleDeclaration | Part3/tokenizer.c:98-134 | `int x = 42;` gives `<KEYWORD, int>`, `<IDENTIFIER, x>`, `<OPERATOR, =>`, `<NUMBER, 42>` and `<PUNCTUATION, ;>`. |
| Cases.DeclarationHead | Part3/tokenizer.c:99-106 | `int x ` gives the keyword and the identifier, each ended by a space. |
| Cases.DeclarationTail | Part3/tokenizer.c:98-134 | `= 42;` gives the last three of those tokens, the number ended by the `;` that touches it. |
| Cases.ExampleIfStatement | Part3/tokenizer.c:98-134 | `if(a){return 0;}` gives `<KEYWORD, if>`, `<PUNCTUATION, (>`, `<IDENTIFIER, a>`, `<PUNCTUATION, )>`, `<PUNCTUATION, {>`, `<KEYWORD, return>`, `<NUMBER, 0>`, `<PUNCTUATION, ;>` and `<PUNCTUATION, }>`. |
| Cases.IfHead | Part3/tokenizer.c:103-127 | `if(` gives the keyword, ended by the `(` that touches it, and the `(`. |
| Cases.IfCondition | Part3/tokenizer.c:103-127 | `a){` gives the identifier, ended by the `)` that touches it, then `)` and `{`. |
| Cases.IfReturn | Part3/tokenizer.c:98-134 | `return 0;}` gives the keyword, ended by the space, then the last three tokens. |
| Cases.IfTail | Part3/tokenizer.c:108-127 | `0;}` gives the number, ended by the `;` that touches it, then `;` and `}`. |
| Cases.ExampleIdentifier | Part3/tokenizer.c:35-61 | `x1_2` is a single IDENTIFIER: digits and `_` may follow the first letter, and the word is not reserved. |
| Cases.ExampleUnknown | Part3/tokenizer.c:129-133 | `@` is a single one-byte UNKNOWN token. |

## Left out

- The standard streams themselves are not modelled. Input is a finite byte sequence with a cursor. End of input is the cursor at the end, and `GetChar` reports it as `EOF` (-1). Output is the sequence of emitted tokens.
- Streams.Stdout.Emit: does not model the `"<%s, %s>\n"` text `printf` writes, or its lack of escaping. The token is recorded as a (kind, lexeme) pair.
- Streams.Stdout.Emit: does not model that a NUL byte read by the loop, which emits UNKNOWN with `unk[0] = 0`, would print as an empty lexeme through `%s`. The model records the one-byte lexeme `[0]`.
- The `(char)` casts at lines 42, 70, 115, 123 and 131 are not modelled, nor the signedness of `char`. Lexeme elements stay byte values 0..255.
- Streams.Stdin.UngetC: requires the pushed-back byte to be the one just read, which the scanners always do. The C library's `ungetc` of an arbitrary byte is not modelled.
- Scanner.ScanIdentifierOrKeyword: requires `first_char` to be a letter, as its only caller guarantees. This keeps NUL out of the buffer before the terminator.
- Keywords.IsKeyword: the `||` short-circuit is written as successive `if`s, because each comparison is a call to the method `StrEquals`.
- Scanner.Dispatch: the source has no such function. It is the body of `main`'s `while` loop, split out as a method. Its branches mirror the `if`/`continue` chain as an `if`/`else if` chain.
- Scanner.ReadRun: the source writes its fill loop twice, once in each scanner. The model writes it once, with the run class (word bytes or digits) as a parameter.
- `main`'s `return 0` and process exit are not modelled.
