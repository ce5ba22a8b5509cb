# shader-parser in Dafny

This project models the core of shader-parser, a small C++ tool that reads
GLSL shader source and extracts its `layout(...)` declarations. The model
covers vertex attributes, plain uniforms, uniform blocks and
shader-storage blocks. It also covers the engine helpers that the tool
uses on strings, file paths and bits.

The model has four parts:

- **The extractor** (`shader-parser.cpp`, `shader-parser.hpp`):
  - The tokenizer becomes `Lexer.Tokenize`, a function on a character
    sequence. Its tags are the twenty of `Tokens.TokenKind`, counting `Invalid`, which the tokenizer never emits.
  - The two `expect` primitives become `Parser.Expect` and
    `Parser.ExpectAny`.
  - The three stages of `consumeLayout` become `Parser.Options`,
    `Parser.Qualifiers` and `Parser.Variables`, assembled by
    `Parser.ConsumeLayout`.
  - The scan of `ShaderInfo::parse` becomes `Parser.Scan` and
    `Parser.ParseTokens`, which take the tokens. `Shader.Parse` is the
    whole of `ShaderInfo::parse` on source text: it tokenizes, then scans.
  - Every stage takes the token sequence and an index. It returns either
    the value it built with the index after its last token, or the error
    that stopped it.
  - The result records of `shader-parser.hpp` are the datatypes of
    `LayoutModel`.
- **The declaration grammar** (`Grammar`). Layout declarations are written
  as data, together with the token spelling and the record each one
  denotes. The round-trip lemmas in `GrammarProperties` and
  `DeclarationProperties` show that the parser reads every valid
  declaration back as exactly the record it denotes. They also show that
  a program of such declarations parses to their records in order.
  - Those lemmas are stated for the spelled tokens, which all carry line 1.
  - The parser never reads a token's line
    (`ParserProperties.ParseIgnoresLines`). So `Shader` carries the round
    trips over to any tokens with the same tags and lexemes, on any lines.
  - `Shader` also carries them over to source text. Write a program's
    tokens out, each followed by a blank or a newline. The tokenizer reads
    them back (`Shader.TokenizeSpell`), and `Shader.Parse` returns the
    declarations' records (`Shader.ParseProgramText`). This needs every
    name and qualifier to be spelled the way the tokenizer would tag it
    (`Grammar.Writable`).
- **String and path helpers** (`engine/core/string.hpp`,
  `engine/core/util.cpp`):
  - case mapping, `starts_with` and the 64-bit FNV-1 hash, in `Strings`;
  - `split`, `getFilePath` and `getFileExtension`, in `Paths`.
- **Bit helpers** (`engine/core/util.hpp`). `reverseBits`, `rotateLeft`
  and `rotateRight` are in `Bits`. An unsigned value is modelled as its
  list of bits, least significant first, so one model covers every width.

Three behaviours of the code that are easy to miss:

- After a block's `}`, the code accepts any number of identifiers
  between the `}` and the `;` (`Parser.Trailer`).
- A numeric lexeme that `std::stoi` rejects raises an exception rather
  than a boolean failure. The model keeps it as a distinct error
  (`Parser.ParseError.Throws`).
- `split` behaves the same for the delimiter `'\0'` as for any other
  character, so `Paths.Split` has no restriction on the delimiter. The
  C string's terminator stops the inner loop exactly where the end of
  the string would, and `substr` clamps to the string.

## Model

| member | source | states |
|---|---|---|
| Tokens.KindLabel | shader-parser.cpp:459-502 | Every tag has a non-empty diagnostic label. Only the invalid tag gets the fallback "invalid token". |
| Tokens.KindLabelInjective | shader-parser.cpp:459-502 | Distinct tags have distinct labels. |
| LayoutModel.LayoutTypeName | shader-parser.cpp:82-97 | Every kind has a non-empty display name. Only `Invalid` gets the fallback, with its original spelling. |
| LayoutModel.LayoutTypeNameInjective | shader-parser.cpp:82-97 | The five valid kinds and the fallback have pairwise distinct names. |
| Lexer.RunLengthMaximal | shader-parser.cpp:111-121 | A word or literal run covers only continuing characters. It stops at the end of input or at the first character that does not continue it (maximal munch). |
| Lexer.Tokenize | shader-parser.cpp:100-225 | Every token is well formed: a letter-initial word tagged by its keyword match, a digit-initial `Numeric` run, or a single non-blank character tagged by its kind. None carries the invalid tag. Lines run from 1 to 1 plus the number of newlines and never decrease. |
| Lexer.TokensWellFormed | shader-parser.cpp:107-223 | Every token emitted from any starting line is well formed. |
| Lexer.TokenLines | shader-parser.cpp:105-181 | Token lines lie between the starting line and the starting line plus the number of newlines, in non-decreasing order. |
| LexerProperties.Coverage | shader-parser.cpp:107-225 | The lexemes, concatenated in order, are the input with its white space removed. |
| LexerProperties.TokenizeCoverage | shader-parser.cpp:100-225 | The same for the whole tokenizer: each non-blank character is in exactly one token, in input order. |
| LexerProperties.WordIsOneToken | shader-parser.cpp:110-153 | A maximal letter-initial run of `[A-Za-z0-9_]` is exactly one token, tagged by its keyword match, followed by the tokens of the rest. |
| LexerProperties.NumberIsOneToken | shader-parser.cpp:154-168 | A maximal digit-initial run over digits, `x`, `X`, `f` and `.` is exactly one `Numeric` token, kept verbatim. |
| LexerProperties.RunStopsAtSeparator | shader-parser.cpp:111-121 | A run never extends across a character outside its class. |
| LexerProperties.BlankSeparates | shader-parser.cpp:170-182 | A blank character only separates. The tokens of `a`, blank, `b` are those of `a` followed by those of `b`, with `b`'s lines shifted by the newlines before it. |
| LexerProperties.StripSpaceAppend | shader-parser.cpp:170-182 | Removing white space distributes over concatenation. |
| LexerProperties.NewlinesAppend | shader-parser.cpp:172-174 | Newline counts add up over concatenation. |
| Numbers.DecimalRoundTrip | shader-parser.cpp:281 | Reading back the decimal spelling of a number gives the number. |
| Numbers.InRange | shader-parser.cpp:281 | A value converts exactly when it fits in 32 bits, with its sign. Otherwise the result is out of range, never invalid-argument. |
| Numbers.StoiLeadingDigits | shader-parser.cpp:281 | A digit-initial lexeme converts to the value of its leading digits, whatever follows them (`0x10` gives 0). A value beyond `int32` is out of range. |
| Numbers.StoiDecimalText | shader-parser.cpp:393 | The decimal text of a number converts back to it when it fits in 32 bits, and is out of range otherwise. |
| Parser.ExpectOne | shader-parser.cpp:423-437 | The single-tag `expect` succeeds if and only if a token remains and it carries that tag, which is the list form with a one-tag list. At the end of the input it fails. |
| Parser.ExpectAny | shader-parser.cpp:440-457 | The list form of `expect` succeeds if and only if a token remains and its tag is in the list. |
| Parser.Convert | shader-parser.cpp:281 | A numeric lexeme either converts and consumes one token, or fails with an error that the source throws, at that token. |
| Parser.OptionValue | shader-parser.cpp:271-298 | After a key, success ends just past a `,` or `)`. It reports whether the list closed, and no `layout` token lies in what it read. A failure lies at or after its start. Each way it fails is stated by `GrammarProperties.OptionSeparatorRejected`, `OptionValueRejected`, `OptionValueThrows` and `OptionEndRejected`. |
| Parser.Options | shader-parser.cpp:260-303 | A successful option list reads at least a key and a separator, keeps every earlier key, and stores its first key. A failure lies at or after its start. |
| Parser.MemoryQualifiers | shader-parser.cpp:307-319 | Memory qualifiers are collected one per token, up to a storage keyword. Only a failed expectation stops them. |
| Parser.Qualifiers | shader-parser.cpp:305-354 | The kind is never `Invalid`. A block has an empty type qualifier. A uniform block needs `std140` in the options, and a plain uniform needs it absent. |
| Parser.Trailer | shader-parser.cpp:414-419 | After `}`, identifiers are skipped up to a `;`, which ends the block. |
| Parser.ArraySize | shader-parser.cpp:385-406 | A successful read of `N];` or `];` spans at least two tokens and holds no `layout` token. A failure lies at or after its start. |
| Parser.Member | shader-parser.cpp:373-411 | A member keeps its type name and name. A scalar member carries over the previous count. |
| Parser.Members | shader-parser.cpp:364-419 | The member list only appends to what it was given, and holds no `layout` token. A failure lies at or after its start. |
| Parser.Variables | shader-parser.cpp:356-422 | A successful block body spans at least three tokens (`{`, `}` and `;`) and holds no `layout` token. A failure lies at or after its start. |
| Parser.ConsumeLayout | shader-parser.cpp:232-258 | Every declaration read is valid: a real kind, at least one option, a body only for blocks, no type qualifier for blocks, and `std140` consistent with the kind. No `layout` token lies inside it. |
| Shader.Parse | shader-parser.cpp:58-71 | `parse` on source text only appends. Every appended declaration is valid, and there are at most as many as the text has `layout` keywords. |
| Parser.Scan | shader-parser.cpp:63-69 | The scan only appends. Every appended declaration is valid, and there are at most as many as there are `layout` tokens. |
| ParserProperties.ScanCount | shader-parser.cpp:63-69 | A successful scan appends exactly one declaration per `layout` token. |
| ParserProperties.ParseCount | shader-parser.cpp:59-72 | After a successful `parse`, the earlier contents come first, followed by one declaration per `layout` token. |
| ParserProperties.ScanWithoutLayout | shader-parser.cpp:63-71 | Input without a `layout` token succeeds and leaves the list unchanged. |
| ParserProperties.ConsumeLayoutPrefix | shader-parser.cpp:232-258 | A successful `consumeLayout` reads nothing past its last token. Cutting the input there changes nothing. |
| ParserProperties.ConsumeLayoutSameText | shader-parser.cpp:232-422 | `consumeLayout` gives the same result on any two token sequences with the same tags and lexemes, whatever their lines. |
| ParserProperties.ScanSameText | shader-parser.cpp:63-69 | The scan gives the same result on any two token sequences with the same tags and lexemes. |
| ParserProperties.ParseIgnoresLines | shader-parser.cpp:58-71 | `parse` depends only on the tags and lexemes of the tokens, never on their line numbers. |
| ParserProperties.ScanFailureKeepsCompleted | shader-parser.cpp:63-67 | A failed parse holds exactly what a parse of the tokens before the failing `layout` keyword completes. The failing declaration is never appended. |
| ParserProperties.ScanStep | shader-parser.cpp:63-68 | A `layout` keyword whose declaration is read, followed by non-`layout` tokens, is one step of the scan. |
| ParserProperties.ParseRun | shader-parser.cpp:59-72 | A scan that runs to the end makes `parse` succeed with what it appended. |
| GrammarProperties.OptionRead | shader-parser.cpp:265-298 | One option entry reads back as its key and value (0 when bare), closing the list exactly when it ends with `)`. |
| GrammarProperties.OptionsStep | shader-parser.cpp:264-299 | An entry ending in `,` stores its value and hands over to the next key. |
| GrammarProperties.OptionsRead | shader-parser.cpp:260-303 | A valid option list reads back as its entries applied left to right, ending just after `)`. |
| GrammarProperties.TrailingCommaRejected | shader-parser.cpp:264-267 | A list whose last entry is followed by `,` fails at the `)`. With no entries, this is `()`, so at least one option is required. |
| GrammarProperties.ClosingParenRejected | shader-parser.cpp:264-267 | A `)` where a key is expected fails at that `)`. |
| GrammarProperties.OptionSeparatorRejected | shader-parser.cpp:271-273 | A key followed by anything other than `=`, `,` or `)` fails at the token after the key. |
| GrammarProperties.OptionValueRejected | shader-parser.cpp:277-279 | `key =` followed by anything other than a numeric token fails at that token. |
| GrammarProperties.OptionValueThrows | shader-parser.cpp:277-281 | `key = N` where `N` does not convert fails with an error that the source throws, at `N`. |
| GrammarProperties.OptionEndRejected | shader-parser.cpp:283-285 | `key = N` followed by anything other than `,` or `)` fails at that token. |
| GrammarProperties.OptionMapStd140 | shader-parser.cpp:328-330 | `std140` is a key of the option map exactly when some entry names it. |
| GrammarProperties.OptionMapKeys | shader-parser.cpp:281-296 | The keys of the option map are exactly the keys the entries name. |
| GrammarProperties.OptionMapLastWins | shader-parser.cpp:281-296 | A repeated key holds the value of its last entry. |
| GrammarProperties.OptionMapUntouched | shader-parser.cpp:281-296 | A key that no entry names keeps its earlier value. |
| GrammarProperties.JoinAt | shader-parser.cpp:63-69 | Each statement of a program lies at its offset, and the next starts where it ends. |
| DeclarationProperties.MemoryQualifiersRead | shader-parser.cpp:312-319 | Memory qualifiers are collected in source order, up to the storage keyword. |
| DeclarationProperties.QualifiersRead | shader-parser.cpp:305-354 | The qualifier stage reads the declared kind, the memory qualifiers and the names. A block reads one name, anything else two. |
| DeclarationProperties.MemberRead | shader-parser.cpp:373-411 | `T n;` is a scalar, `T n[N];` an array of N and `T n[];` an array of -1. |
| DeclarationProperties.TrailerRead | shader-parser.cpp:414-419 | Any number of names after `}` are read and dropped, up to the `;`. |
| DeclarationProperties.MembersRead | shader-parser.cpp:364-412 | A member list reads back as its member records in order, appended to what came before. |
| DeclarationProperties.VariablesRead | shader-parser.cpp:356-422 | A block body reads back as its member records and ends just after its `;`. |
| DeclarationProperties.BlockCompose | shader-parser.cpp:248-257 | For a block, `consumeLayout` is its three stages run in turn, giving the denoted record. |
| DeclarationProperties.ScalarCompose | shader-parser.cpp:248-257 | For anything else, `consumeLayout` stops after the qualifier stage, with an empty body. |
| DeclarationProperties.ConsumeLayoutRead | shader-parser.cpp:232-258 | `consumeLayout` reads the spelling of a valid declaration back as the record it denotes and stops just after its last token. `Shader.ConsumeLayoutReadText` extends this to the same tags and lexemes on any lines. |
| DeclarationProperties.StatementRead | shader-parser.cpp:63-69 | One spelled statement is one scan step. The unconsumed `;` after a non-block declaration is skipped. `Shader.StatementReadText` extends this to any lines. |
| DeclarationProperties.MeaningsAt | shader-parser.cpp:63-69 | The records of a program are those of its statements, one each. |
| DeclarationProperties.ProgramSteps | shader-parser.cpp:63-69 | Each statement of a program is one scan step, whatever was found before it. |
| DeclarationProperties.ParseProgram | shader-parser.cpp:59-72 | `parse` of the spelling of valid statements succeeds and appends their records, in source order, to what the object held. `Shader.ProgramParsesText` and `Shader.ParseProgramText` extend this to any lines and to source text. |
| DeclarationProperties.ProgramParses | shader-parser.cpp:59-72 | The same for any token sequence that is exactly such a program. |
| Shader.ConsumeLayoutReadText | shader-parser.cpp:232-258 | `consumeLayout` reads a valid declaration back as the record it denotes from tokens with its tags and lexemes on any lines, and stops just after its last token. |
| Shader.StatementReadText | shader-parser.cpp:63-69 | One statement on any lines is one scan step. |
| Shader.ProgramParsesText | shader-parser.cpp:58-71 | `parse` of tokens with the tags and lexemes of valid statements, on any lines, succeeds and appends their records in order. |
| Shader.OneToken | shader-parser.cpp:107-223 | The lexeme of a well-formed token tokenizes to that token alone. |
| Shader.TokenizeSpell | shader-parser.cpp:105-223 | Well-formed tokens written out, each followed by a blank, tokenize back to the same tags and lexemes. |
| Shader.StatementWellFormed | shader-parser.cpp:107-223 | The spelling of a writable declaration consists of tokens the tokenizer could emit. |
| Shader.ProgramWellFormed | shader-parser.cpp:107-223 | The same for a program of writable declarations. |
| Shader.ParseProgramText | shader-parser.cpp:58-71 | `parse` of the text of valid, writable declarations, with tokens separated by blanks or newlines, succeeds and appends their records in order. |
| DeclarationProperties.InWithoutTypeQualifiers | shader-parser.cpp:337-341 | `in ;` fails the qualifier stage at the `;`. |
| DeclarationProperties.InWithoutTypeRejected | shader-parser.cpp:337-341 | `layout(...) in;` is rejected at the `;`. |
| DeclarationProperties.UniformBlockQualifiers | shader-parser.cpp:328-341 | Plain `uniform` followed by a name and `{` fails at the `{`. |
| DeclarationProperties.OptionsWithoutStd140 | shader-parser.cpp:328-330 | An option list that does not name `std140` reads back as a map without that key. |
| DeclarationProperties.UniformBlockWithoutStd140Rejected | shader-parser.cpp:328-341 | A uniform block whose options lack `std140` is rejected at its `{`. |
| Strings.ToLower | engine/core/string.hpp:27-32 | Length is kept, no upper-case letter remains, and only upper-case ASCII letters change, each to its lower-case form. |
| Strings.ToUpper | engine/core/string.hpp:34-39 | Length is kept, no lower-case letter remains, and only lower-case ASCII letters change, each to its upper-case form. |
| Strings.ToLowerIdempotent | engine/core/string.hpp:27-32 | Lowering twice is lowering once. |
| Strings.ToUpperIdempotent | engine/core/string.hpp:34-39 | Raising twice is raising once. |
| Strings.ToLowerOfToUpper | engine/core/string.hpp:27-39 | Lowering after raising is lowering. |
| Strings.ToUpperOfToLower | engine/core/string.hpp:27-39 | Raising after lowering is raising. |
| Strings.StartsWith | engine/core/string.hpp:41-43 | True if and only if the prefix is no longer than the string and equals its first characters. |
| Strings.StartsWithAppend | engine/core/string.hpp:41-43 | A string starts with a prefix exactly when it is that prefix followed by something. |
| Strings.StartsWithBounds | engine/core/string.hpp:41-43 | True for the empty prefix, false for any prefix longer than the string. |
| Strings.UpToNul | engine/core/string.hpp:58-60 | The C string is the longest NUL-free prefix of the bytes. |
| Strings.Hash | engine/core/string.hpp:54-67 | The loop computes the FNV-1 fold of the bytes before the first NUL, starting from the offset basis. |
| Strings.HashOfEmpty | engine/core/string.hpp:57 | The empty string hashes to the offset basis `0xcbf29ce484222325`. |
| Strings.HashOfLetterA | engine/core/string.hpp:57-63 | `"a"` hashes to `0xaf63bd4c8601b7be`, the published FNV-1 64-bit value. |
| Strings.HashOfAppend | engine/core/string.hpp:60-63 | A further byte is folded in by multiplying by the prime modulo 2^64, then xoring the byte. |
| Strings.HashStopsAtNul | engine/core/string.hpp:58-60 | Whatever follows the first NUL does not change the hash. |
| Paths.Substr | engine/core/util.cpp:21 | `substr` gives at most the requested length, read from the position and clamped at the end. |
| Paths.FindDelimiter | engine/core/util.cpp:13-19 | The inner loop stops at the first delimiter from the start, or just past the terminator. |
| Paths.Split | engine/core/util.cpp:6-26 | The appending `split` adds to `elems` exactly the pieces of the string between delimiters, in order. |
| Paths.SplitStep | engine/core/util.cpp:12-24 | One outer round appends the first remaining piece and resumes after its delimiter. |
| Paths.SplitToList | engine/core/util.cpp:28-33 | The returning `split` gives the pieces alone. |
| Paths.JoinPieces | engine/core/util.cpp:6-26 | Joining the pieces with the delimiter gives the string back. |
| Paths.PiecesWithoutDelimiter | engine/core/util.cpp:12-24 | No piece contains the delimiter. |
| Paths.PiecesCount | engine/core/util.cpp:6-26 | There is one piece more than there are delimiters. |
| Paths.PiecesOfJoin | engine/core/util.cpp:6-26 | Delimiter-free pieces, joined and split again, come back unchanged. |
| Paths.PiecesOfEmpty | engine/core/util.cpp:12-21 | The empty string gives one empty piece. |
| Paths.PiecesAppend | engine/core/util.cpp:12-24 | A delimiter between two strings splits their pieces there. |
| Paths.PiecesTrailing | engine/core/util.cpp:12-24 | A trailing delimiter gives a final empty piece. |
| Paths.GetFilePath | engine/core/util.cpp:35-53 | The result is the name up to and including its last `/` or `\` at index 1 or later. It is the whole name when there is no such separator. It is always a prefix of the name and, when shorter, ends in a separator. |
| Paths.GetFileExtension | engine/core/util.cpp:55-78 | The result is the text after the last `.` (index 1 or later) up to the last alphanumeric character, when no dot or separator intervenes, and empty otherwise. It holds no `.`, `/` or `\`, and ends in an alphanumeric character when non-empty. |
| Paths.ExtensionUnique | engine/core/util.cpp:66-69 | The dot and the last alphanumeric character that bound the extension are unique. |
| Paths.ExtensionBlocked | engine/core/util.cpp:66-77 | A separator, or index 0, reached before a dot leaves no extension. |
| Bits.ReverseBits | engine/core/util.hpp:18-32 | Bit `i` of the result is bit `w-1-i` of the argument, for every width `w`. |
| Bits.ReverseRound | engine/core/util.hpp:23-27 | While bits remain, one round takes the next bit of the argument into the low end of the result. |
| Bits.ReverseLast | engine/core/util.hpp:29 | The final shift by the remaining count puts the reversed bits in place. |
| Bits.ReverseInvolution | engine/core/util.hpp:18-32 | Reversing twice gives the word back. |
| Bits.ReverseZero | engine/core/util.hpp:18-32 | Zero reversed is zero. |
| Bits.RotateLeft | engine/core/util.hpp:34-37 | Bit `i` of the result is bit `i - shift` of the argument, wrapping around. |
| Bits.RotateRight | engine/core/util.hpp:39-42 | Bit `i` of the result is bit `i + shift` of the argument, wrapping around. |
| Bits.RotateEnds | engine/core/util.hpp:34-42 | Rotating by 0 or by the full width gives the word back, as the promoted shifts of a narrow type do. |
| Bits.RotateRoundTrip | engine/core/util.hpp:34-42 | Rotating right undoes rotating left by the same amount, and the other way round. |
| Bits.RotateLeftIsRight | engine/core/util.hpp:34-42 | A left rotation by `s` is a right rotation by `w - s`. |
| Bits.RotateLeftSwaps | engine/core/util.hpp:34-37 | A left rotation moves the top `shift` bits to the bottom. |
| Bits.RotatePopCount | engine/core/util.hpp:34-42 | Both rotations keep the number of set bits. |

## Left out

- `Util::loadFileWithLinking` (engine/core/util.cpp:80-113) reads files and inlines includes over the filesystem. It is file I/O.
- main.cpp handles command-line arguments and prints with `printf`. It is I/O outside the core.
- The `DEBUG_LOG` diagnostics inside `expect` write to the error stream. `expect` is modelled as a pure test, and the failing index is kept in the error value.
- engine/core/memory.hpp and engine/core/common.hpp are allocation wrappers and platform macros. They are not part of this model.
- `ArrayList` and `HashMap` are modelled as Dafny sequences and maps: `operator[]` overwrites and `find` tests membership.
- `getLayoutInfo`, the private `layoutInfo` and the non-copyable `ShaderInfo` are C++ access control. `Parser.ParseTokens` takes the list the object holds and returns the list after the call.
- Lexer.Tokenize: works on a finite character sequence rather than `std::istream`. It omits the extra `Operator` token that the end-of-file value of `peek` produces whenever the loop starts again with the stream still good: for empty input, where that token is the only one (shader-parser.cpp:107-108), and after final punctuation (shader-parser.cpp:183-223). No expectation accepts `Operator`, and it is not a `layout` keyword, so this cannot change what `parse` returns.
- Lexer.Tokenize: does not model the `uint32` line counter wrapping around after 2^32 lines.
- Character classes and case mapping follow the "C" locale. Characters outside ASCII are neither letters, digits nor blanks. `std::isalpha` and related functions are undefined for negative `char` values, and other locales are not modelled.
- Parser.Member: a scalar member's `arraySize` is carried over from the previous member, because the source reuses one record. The first scalar member's count is indeterminate in the source and 0 in the model, and no property depends on it.
- Parser.Convert: the model of `std::stoi` accepts leading blanks and a sign, then decimal digits. It stops at the first other character and reports no digits or out-of-range as errors. Any other behaviour of the C library is not modelled.
- Strings.Hash: takes the string's bytes (`seq<bv8>`) rather than a `String`. Character encoding is outside the model.
- Strings.Hash: assumes a 64-bit `size_t`. On a 32-bit target, such as 32-bit Windows, the source's `(size_t)hval` cast keeps only the low 32 bits of this value.
- Bits.ReverseBits: models unsigned types only. On a signed negative value the source's arithmetic shift never reaches 0, which is undefined behaviour.
- Bits.RotateLeft: requires `0 <= shift <= width`. A negative shift, or one beyond the width, is undefined behaviour in the source for every type. Shift 0 and shift `width` give the word back for 8- and 16-bit types, which are promoted to `int`, and the model gives the same (`Bits.RotateEnds`). For 32- and 64-bit types they are undefined behaviour, and the model's answer is one refinement of it. The same holds for Bits.RotateRight.
- Paths.GetFilePath: requires a non-empty name. For an empty name the source's start index `strLength - 1` underflows. The same holds for Paths.GetFileExtension.
- Paths.Split: the `size_t` counters are unbounded integers. They cannot overflow on any string that fits in memory.
