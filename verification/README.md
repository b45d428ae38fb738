# A verified model of a teaching analyser for Java `for` loops

The analyser reads a fragment of Java source and reports on it in three passes:

- **Lexical pass.** It splits the text into lines. For each line it counts the matches of five regular expressions from a token table:
  - PR: nine keywords;
  - ID: identifiers;
  - NUM: numbers;
  - SYM: a class of symbol characters;
  - ERR: any character.

  For each line it returns a row of six cells with an `x` under every category that matched. It also returns one running total per category.
- **Syntactic pass.** It searches the whole text for one fixed `for` header shape and one fixed one-statement body shape. It answers `Sintaxis correcta` or the error messages of the searches that failed. It passes the text on unchanged.
- **Semantic pass.** It collects:
  - the names declared by `int v = n;`, `int v;` and `for (int v = n;`;
  - every word of the text.

  It reports each word that is not declared, is not one of nine standard names and is not a number.

The model is functional Dafny over `string` (`seq<char>`), one module per file:

| module | content |
|---|---|
| `Chars` | the ASCII character classes behind `\w`, `\d`, `\s` and the symbol class |
| `Text` | `split('\n')`, `join`, literal occurrence |
| `Scan` | `\b` and greedy runs of a class, plus single matching steps over an `Option` |
| `Words` | `WordRuns`: the maximal runs of word characters, with a reference characterisation |
| `Lexical`, `LexicalProperties` | the token table, `analyze_lexical` and its properties |
| `Syntactic`, `SyntacticProperties` | the two searches, `analyze_syntactic` and its properties |
| `Semantic`, `SemanticProperties` | the declaration and use sets, `analyze_semantic` and its properties |

**Regular expressions.** Each regular expression is written as a hand-made matcher that starts at one position:
- A `\w+`, `\d+` or `\s*` is a greedy run.
- In every pattern here but two, such a run is followed by a character outside its class. So the greedy run is the only one any match can use, and no backtracking is lost.
- The first exception is `\s*(=\s*\d+)?\s*;` in the `int` declaration pattern. Without the optional group, one `\s*` follows another. The two runs together are the maximal whitespace run, so the matcher takes that run once and then needs `;` (`IntMatch`).
- The second exception is the body pattern. In its `\{\s*\n\s*` and `;\s*\n\s*\}`, the first `\s*` is followed by `\n`, which is itself whitespace. Since the next character after `\s*\n\s*` is `S` or `}`, not whitespace, a match of `\s*\n\s*` there is exactly a maximal run of whitespace that contains a newline (`SpacedNewlineMatches`).

`re.search` succeeds when a match starts at some position.

**Counting with `re.findall`.** `Count` counts the positions where a match starts. `Lexical.FindAll` is the scan of `re.findall` itself, which resumes after each match. `FindAllIsCount` proves the two equal:
- SYM and ERR consume one character each.
- A word pattern matched at a run start consumes the whole run (`KeywordMatchEnd`, `IdentifierMatchEnd`, `NumberMatchEnd`). Nothing matches inside a run (`NoMatchInsideRun`).

The semantic pass collects names with `re.findall`:
- The declaration searches are modelled as the scan itself (`Semantic.FindAll`). The scan resumes after each match.
- No two `int` declaration matches overlap (`IntMatchesDisjoint`). So this scan collects the name at every matching position (`FindAllDeclared`).
- `FindAllDeclared` also shows that the `for` scan adds no name.

**What the proofs show.**
- Each lexical count is a count over word runs or characters.
- The syntactic verdict is selected by the two searches.
- The reported names are exactly the words outside the declared names, the standard names and the numbers.
- Worked examples are proved on concrete texts. One of them is the loop the syntactic error message itself recommends.

## Model

| member | source | states |
|---|---|---|
| Chars.SymbolClassIsList | analizador.py:11 | the SYM class `[;{}()\[\]=<>!+-/*]` holds exactly 17 characters; its `+-/` range adds `,` and `.` |
| Text.Split | analizador.py:133 | `split('\n')` gives one more line than there are newlines, and no line contains a newline |
| Text.JoinSplit | analizador.py:133 | joining the lines with newlines gives back the text, so splitting loses nothing |
| Text.SplitJoin | analizador.py:133 | splitting newline-free lines joined by newlines gives the lines back |
| Text.SplitLength | analizador.py:133 | the lengths of the lines plus the newlines add up to the length of the text |
| Text.JoinContains | analizador.py:181-188 | every part of a `" ".join` occurs in the joined text |
| Scan.SpacedNewlineMatches | analizador.py:151 | when the character after `q` is not whitespace, `\s*\n\s*` matches the text from `p` to `q` (whitespace only, holding a newline) exactly when the step reaches `q` |
| Words.WordRunsFromMembers | analizador.py:173 | the scanner yields exactly the maximal word runs that start at or after a position |
| Words.WordRuns | analizador.py:173 | `re.findall(r'\b(\w+)\b', code)`: the word runs of the text in order, each a non-empty string of `\w` characters (which strings they are is stated by `WordRunsMembers`) |
| Words.WordRunsMembers | analizador.py:173 | a string is among the word runs of a text exactly when it is a maximal run of word characters in it |
| Words.TilesRuns | analizador.py:173 | a list of runs separated by non-word characters is exactly what the scanner finds |
| Words.WordRunsAppend | analizador.py:173 | when the first text ends outside a word, the word runs of a concatenation are those of the parts in order |
| Lexical.Column | analizador.py:7-13 | each category's cell is its position in the token table (PR, ID, NUM, SYM, ERR) |
| Lexical.KeywordMatchAt | analizador.py:8 | PR matches at `i`: a word boundary at `i`, one of the nine keywords, and a word boundary after it |
| Lexical.IdentifierMatchAt | analizador.py:9 | ID matches at `i`: a word boundary, a character of `[a-zA-Z_]`, word characters, and a word boundary after them |
| Lexical.NumberMatchAt | analizador.py:10 | NUM matches at `i`: a word boundary, one or more digits, and a word boundary after them |
| Lexical.MatchAt | analizador.py:7-13 | the table's pattern for a category matches at `i`; SYM is its one-character class and ERR any character but a newline |
| Lexical.Count | analizador.py:136 | `len(re.findall(pattern, line))`, counted as the positions where a match starts; at most one per character of the line |
| Lexical.MatchEnd | analizador.py:136 | where `re.findall` resumes after a match at `i`: the end of the word run for PR, ID and NUM, the next character for SYM and ERR; always past `i` and within the text |
| Lexical.FindAll | analizador.py:136 | the number of matches the resuming scan of `re.findall` returns from `i`; at most one per remaining character |
| Lexical.Row | analizador.py:134-138 | a row has six cells, the sixth always empty; a category's cell is `x` exactly when its pattern matches somewhere in the line, otherwise empty |
| Lexical.AnalyzeLexical | analizador.py:130-140 | one row per line, so newlines plus one rows; row n is the row of line n; each total is the sum over the lines of that category's count |
| Lexical.AnalyzeLine | analizador.py:134-139 | one pass over the token table yields the line's row and adds each category's count to its total |
| Lexical.AnalyzeCategory | analizador.py:135-138 | the matches of one pattern add their number to its total and mark its cell when there is at least one |
| Lexical.MatchesFromPositive | analizador.py:136-138 | a count is positive exactly when the pattern matches at some position |
| LexicalProperties.ErrMatchesFrom | analizador.py:12 | `.` matches at every position of a newline-free text |
| LexicalProperties.ErrCountIsLength | analizador.py:12 | on a line, ERR counts exactly the characters |
| LexicalProperties.TotalErrIsLength | analizador.py:12 | over newline-free lines, total ERR is the total length |
| LexicalProperties.TotalErrOfText | analizador.py:12 | total ERR is the length of the text minus its newlines |
| LexicalProperties.SymMatchesFrom | analizador.py:11 | SYM matches at exactly the positions holding one of the 17 listed characters |
| LexicalProperties.SymCountIsListed | analizador.py:11 | SYM per line is the number of characters of the line in the 17-character list, `.` and `,` included |
| LexicalProperties.SymAtMostErrFrom | analizador.py:11-12 | from any position on, SYM matches no more often than ERR |
| LexicalProperties.SymAtMostErr | analizador.py:11-12 | per line, SYM does not exceed ERR |
| LexicalProperties.KeywordShape | analizador.py:8 | every keyword is a word that starts with a letter: a character of `[a-zA-Z_]` other than `_` |
| LexicalProperties.KeywordIsIdentifier | analizador.py:8-9 | a position where PR matches is one where ID matches |
| LexicalProperties.KeywordsAtMostIdentifiersFrom | analizador.py:8-9 | from any position on, PR matches no more often than ID |
| LexicalProperties.KeywordsAtMostIdentifiers | analizador.py:8-9 | per line, PR does not exceed ID |
| LexicalProperties.NoMatchOutsideWords | analizador.py:8-10 | PR, ID and NUM never match at a non-word character |
| LexicalProperties.NoMatchInsideRun | analizador.py:8-10 | PR, ID and NUM never match strictly inside a word run |
| LexicalProperties.KeywordMatchCoversRun | analizador.py:8 | a keyword matched at a run start is the whole run |
| LexicalProperties.KeywordAtRunStart | analizador.py:8 | PR matches at a run start exactly when the run is one of the nine keywords |
| LexicalProperties.IdentifierAtRunStart | analizador.py:9 | ID matches at a run start exactly when the run starts with a letter or `_` |
| LexicalProperties.NumberAtRunStart | analizador.py:10 | NUM matches at a run start exactly when the run is all digits |
| LexicalProperties.MatchAtRunStart | analizador.py:8-10 | at a run start, each word category matches exactly when the run has that category's shape |
| LexicalProperties.RunCountsFrom | analizador.py:8-10 | the word categories' counts from a position are the numbers of word runs of their shape |
| LexicalProperties.WordRunCounts | analizador.py:8-10 | per line, PR, ID and NUM count the keyword, letter-initial and all-digit word runs |
| LexicalProperties.IdentifierAndNumberRunsDisjoint | analizador.py:9-10 | no run is both letter-initial and all digits |
| LexicalProperties.IdentifiersAndNumbersAtMostRuns | analizador.py:9-10 | per line, ID plus NUM is at most the number of word runs |
| LexicalProperties.FindAllIsMatchesFrom | analizador.py:136-137 | from any position, the resuming scan of `re.findall` finds as many matches as there are positions where the pattern matches |
| LexicalProperties.FindAllIsCount | analizador.py:136-137 | per line, the number of matches `re.findall` returns is `Count` |
| LexicalProperties.KeywordMatchEnd | analizador.py:8 | a keyword match ends where the word run it starts ends, which is where the scan resumes |
| LexicalProperties.IdentifierMatchEnd | analizador.py:9 | an identifier match ends where the word run it starts ends: any end the closing `\b` admits is `MatchEnd` |
| LexicalProperties.NumberMatchEnd | analizador.py:10 | a number match ends where the word run it starts ends: any end the closing `\b` admits is `MatchEnd` |
| LexicalProperties.EmptyText | analizador.py:130-140 | the empty text gives one row of six empty cells and zero totals |
| Syntactic.SyntaxMessage | analizador.py:143-157 | `Sintaxis correcta` exactly when both searches succeed; otherwise the messages of the failed searches, header first, joined by one space |
| Syntactic.AnalyzeSyntactic | analizador.py:142-157 | the text comes back unchanged; `Sintaxis correcta` exactly when both searches succeed; otherwise the failing messages, header first, joined by one space |
| Syntactic.HeaderEnd | analizador.py:147 | `\bfor\s*\(\s*\w+\s*=\s*\d+\s*;\s*\w+\s*<=\s*\d+\s*;\s*\w+\+\+\s*\)\s*\{` matched from `i` in four stages (`ForOpen`, `Initialisation`, `Condition`, `Increment`); a match ends past `i`, within the text |
| Syntactic.HeaderFound | analizador.py:147 | `re.search` of the header pattern succeeds: it matches from some position of the text |
| Syntactic.BodyEnd | analizador.py:151 | `\{\s*\n\s*System\.out\.println\s*\(\s*\w+\s*\)\s*;\s*\n\s*\}` matched from `i` in three stages (`BodyOpen`, `PrintCall`, `BodyClose`); a match ends past `i`, within the text |
| Syntactic.BodyFound | analizador.py:151 | `re.search` of the body pattern succeeds: it matches from some position of the text |
| SyntacticProperties.BodyNeedsTwoNewlines | analizador.py:151 | a body match holds two distinct newlines, one before and one after the call |
| SyntacticProperties.SingleLineBodyRejected | analizador.py:151 | a text without a newline never passes the body search |
| SyntacticProperties.NoHeaderWithoutF | analizador.py:147 | the header search can only match where an `f` starts |
| SyntacticProperties.TypedHeaderRejected | analizador.py:147 | wherever `\bfor\s*\(` is followed by two words separated by whitespace, with any spacing, the header pattern fails at that position |
| SyntacticProperties.TypedHeadersRejected | analizador.py:147-148 | a text in which every `for (` is followed by two words fails the header search |
| SyntacticProperties.TypedHeaderRejectedAt | analizador.py:147-148 | the instance at the start of a text spelled `for (<type> <name>`: no match there |
| SyntacticProperties.MessageExampleRejected | analizador.py:147-148 | the header quoted in the header error message fails the header search |
| SyntacticProperties.UntypedHeaderAccepted | analizador.py:147 | the same header without `int` passes the header search and matches to its end |
| SyntacticProperties.CanonicalLoopHeader | analizador.py:147 | the recommended loop with a `println` body fails the header search |
| SyntacticProperties.CanonicalLoopBody | analizador.py:151 | that loop passes the body search, matched from its `{` to its end |
| SyntacticProperties.CanonicalLoopVerdict | analizador.py:142-157 | for that loop the syntactic pass reports exactly the header error |
| Semantic.SpacesPlus | analizador.py:165 | `\s+` succeeds exactly at a whitespace character and consumes the maximal run |
| Semantic.IntMatch | analizador.py:165 | `\bint\s+(\w+)\s*(=\s*\d+)?\s*;` matched from `i`: the span of the captured name and the end of the match, in that order, past `i` and within the text |
| Semantic.ForMatch | analizador.py:169 | `\bfor\s*\(\s*int\s+(\w+)\s*=\s*\d+\s*;` matched from `i`: the span of the captured name and the end of the match, in that order, past `i` and within the text |
| Semantic.Declared | analizador.py:161-170 | `declared_variables`: the names either declaration pattern captures at some position (`FindAllDeclared` relates it to the two scans) |
| Semantic.Used | analizador.py:162-173 | `used_variables`: the set of the word runs |
| Semantic.IsNumeral | analizador.py:182 | `re.match(r'^\d+$', var)`: a non-empty string of digits; a word run holds no newline, so `$` matching before a final newline never applies |
| Semantic.Undeclared | analizador.py:179-182 | the used names minus the declared names and the standard names, numerals dropped (`UndeclaredMembers` states membership) |
| Semantic.UndeclaredError | analizador.py:183 | the report of one name, `Variable no declarada: '<name>'.` |
| Semantic.FindAll | analizador.py:165-170 | every name the left-to-right scan returns is captured by a match of the pattern at or after the starting position |
| Semantic.AnalyzeSemantic | analizador.py:159-188 | the text comes back unchanged; the verdict is correct exactly when every word run is declared, a standard name or all digits; otherwise it carries exactly the flagged names, and there is at least one |
| Semantic.Message | analizador.py:181-188 | the message is `Uso correcto de las estructuras semánticas` exactly for a correct verdict; otherwise it is a space-joined list of as many reports as flagged names, whose reports are exactly `Variable no declarada: '<name>'.` for the flagged names, each of which occurs in the message |
| Semantic.ReportsCover | analizador.py:181-183 | enumerating exactly the flagged names yields exactly their reports |
| Semantic.ReportOccurs | analizador.py:183-188 | each flagged name's report occurs in the joined message |
| SemanticProperties.UndeclaredErrorInjective | analizador.py:183 | different names give different reports |
| SemanticProperties.ReportsCount | analizador.py:181-183 | there are as many distinct reports as flagged names |
| SemanticProperties.ReportsOnce | analizador.py:181-188 | a message built from as many reports as flagged names reports each name once: no report repeats |
| SemanticProperties.StandardKeywordsAreTokenKeywords | analizador.py:176 | the nine standard names are exactly the nine keywords of the PR pattern on line 8 |
| SemanticProperties.TypedNameIsRun | analizador.py:165 | the name captured after `int` is a whole word run |
| SemanticProperties.DeclarationStartsWithInt | analizador.py:165 | an `int` declaration match starts at a word boundary on an `i` |
| SemanticProperties.DeclaredAreUsed | analizador.py:165-173 | every declared name is among the used names |
| SemanticProperties.ForDeclarationIsIntDeclaration | analizador.py:165-170 | wherever the `for (int v = n;` pattern matches, the `int` pattern matches too, with the same name |
| SemanticProperties.ForDeclaredSubsumed | analizador.py:165-170 | the `for` search adds no name: the declared names are those of the `int` search |
| SemanticProperties.TypedNameShape | analizador.py:165 | `int\s+(\w+)` consumes the keyword, the whitespace after it and the name as a greedy word run |
| SemanticProperties.IntMatchEnd | analizador.py:165 | an `int` declaration match is the typed name, then either `= digits` and `;` or `;` alone, and ends after the `;` |
| SemanticProperties.InsideIntMatch | analizador.py:165 | strictly inside an `int` declaration match, the only word boundary at an `i` is the start of the captured name |
| SemanticProperties.NameStartsNoIntMatch | analizador.py:165 | the captured name never starts a second `int` declaration match |
| SemanticProperties.IntMatchesDisjoint | analizador.py:165 | no `int` declaration match starts strictly inside another |
| SemanticProperties.FindAllIntComplete | analizador.py:165-166 | the `int` scan returns the name of every match at or after its starting position, though it skips the text each match consumes |
| SemanticProperties.FindAllDeclared | analizador.py:165-170 | the names of the two scans together are exactly the declared names, and the `int` scan alone returns all of them, so the `for` scan adds none |
| SemanticProperties.UndeclaredMembers | analizador.py:173-183 | a name is flagged exactly when it is a maximal word run, not declared by `int`, not a standard name and not all digits |
| SemanticProperties.InitialisedDeclaration | analizador.py:165 | the `int` pattern with an initialiser, step by step, captures the name |
| SemanticProperties.NameInitialiserUndeclared | analizador.py:165 | `int x = y;` declares nothing, because the initialiser must be digits |
| SemanticProperties.NameInitialiserVerdict | analizador.py:159-188 | `int x = y;` flags exactly `x` and `y` |
| SemanticProperties.UndeclaredArgumentRuns | analizador.py:173 | the word runs of `int x = 5; System.out.println(y);` |
| SemanticProperties.UndeclaredArgumentDeclared | analizador.py:165 | that text declares exactly `x` |
| SemanticProperties.UndeclaredArgumentVerdict | analizador.py:159-188 | `int x = 5; System.out.println(y);` flags exactly `y` |
| SemanticProperties.MessageHeaderRuns | analizador.py:173 | the word runs of the header quoted in the header error message |
| SemanticProperties.MessageHeaderDeclaresCounter | analizador.py:165 | that header declares `i` |
| SemanticProperties.MessageHeaderVerdict | analizador.py:159-188 | that header passes the semantic check |
| SemanticProperties.CanonicalLoopRuns | analizador.py:173 | the word runs of the recommended loop with a `println(i)` body |
| SemanticProperties.CanonicalLoopDeclaresCounter | analizador.py:165 | that loop declares `i` |
| SemanticProperties.CanonicalLoopSemanticVerdict | analizador.py:159-188 | that loop passes the semantic check |

## Left out

- The Flask application, the route handler and the call that renders the page (analizador.py:1-4, 190-206). This is request and response plumbing. The handler only passes the text through the three passes.
- The HTML template (analizador.py:16-128). It is presentation only.
- Non-ASCII input. Python's `\w`, `\d`, `\s` and `\b` follow Unicode on `str` patterns. The model has ASCII classes only, so `AnalyzeLexical`, `AnalyzeSyntactic` and `AnalyzeSemantic` require ASCII text.
- The order of the semantic messages. The source iterates a Python set, whose order depends on string hashing. The verdict carries the flagged names as a set. `Message` takes the enumeration order as a parameter, holding each flagged name once.
- A general regular-expression engine. Only the patterns the analyser uses are modelled, each as a hand-written matcher.
- Semantic.AnalyzeSemantic: the ensures speak of the flagged names, not of the message text. `Message` states the message separately.
- A loop-correction step. `analyze_syntactic` and `analyze_semantic` return their input unchanged (analizador.py:144, 155-157, 186-188), and so do `AnalyzeSyntactic` and `AnalyzeSemantic`.
- A header search that accepts typed headers. The header search rejects the typed header that its own error message recommends, because its pattern admits one word between `(` and `=` (analizador.py:147-148; `MessageExampleRejected`, `CanonicalLoopVerdict`, `TypedHeadersRejected`). That loop still passes the semantic check (`CanonicalLoopSemanticVerdict`).
