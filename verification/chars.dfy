/** Character classes used by the analyser's regular expressions.

    Python's `re` module gives `\w`, `\d`, `\s` and `\b` their Unicode meaning
    on `str` patterns.  The model covers ASCII text only (see `IsAscii`), where
    these classes reduce to the explicit ranges below.
 */
module Chars {

  /** Every character is in the 7-bit ASCII range. */
  predicate IsAscii(s: string) {
    forall k :: 0 <= k < |s| ==> s[k] <= '\U{7F}'
  }

  /** `\d` on ASCII text. */
  predicate IsDigit(c: char) {
    '0' <= c <= '9'
  }

  /** `[a-zA-Z_]`: the first character of an identifier. */
  predicate IsIdStart(c: char) {
    'a' <= c <= 'z' || 'A' <= c <= 'Z' || c == '_'
  }

  /** `\w` on ASCII text, which is also `[a-zA-Z_0-9]`. */
  predicate IsWordChar(c: char) {
    IsIdStart(c) || IsDigit(c)
  }

  /** `\s` on ASCII text.  Besides space, tab, newline, vertical tab, form feed
      and carriage return, Python treats the four information separators
      U+001C..U+001F as whitespace. */
  predicate IsSpace(c: char) {
    c == ' ' || '\t' <= c <= '\r' || '\U{1C}' <= c <= '\U{1F}'
  }

  // The SYM class of the lexer: `;` `{` `}` `(` `)` `[` `]` `=` `<` `>` `!`,
  // the range from `+` to `/`, and `*`.  The range also admits `,` and `.`.
  predicate IsSymbolChar(c: char) {
    || c == ';' || c == '{' || c == '}' || c == '(' || c == ')'
    || c == '[' || c == ']' || c == '=' || c == '<' || c == '>' || c == '!'
    || ('+' <= c <= '/')
    || c == '*'
  }

  /** The seventeen characters the SYM class admits, written out one by one. */
  const SymbolList: set<char> :=
    {';', '{', '}', '(', ')', '[', ']', '=', '<', '>', '!', '*', '+', ',', '-', '.', '/'}

  lemma SymbolClassIsList(c: char)
    ensures IsSymbolChar(c) <==> c in SymbolList
  {
    if '+' <= c <= '/' {
      assert c == '+' || c == ',' || c == '-' || c == '.' || c == '/';
    }
  }

  lemma SymbolIsNotWordOrSpace(c: char)
    requires IsSymbolChar(c)
    ensures !IsWordChar(c) && !IsSpace(c) && c != '\n'
  {
  }
}
