/**
 The lexer behind the TypeScript rules. Code and template modes call each other; comments, quoted texts and
 regular expressions are skipped. Here the lexer is a function of the bytes that are left; a mark says how many
 bytes were left where its token began.
 */
module TypeScriptLexer {
  import opened Wire

  const TAB: Byte := 9
  const NEWLINE: Byte := 10
  const FORM_FEED: Byte := 12
  const RETURN: Byte := 13
  const SPACE: Byte := 32
  const DOUBLE: Byte := 34
  const DOLLAR: Byte := 36
  const SINGLE: Byte := 39
  const CLOSE_PAREN: Byte := 41
  const STAR: Byte := 42
  const SLASH: Byte := 47
  const SEMICOLON: Byte := 59
  const OPEN_BRACKET: Byte := 91
  const BACKSLASH: Byte := 92
  const CLOSE_BRACKET: Byte := 93
  const UNDERSCORE: Byte := 95
  const BACKQUOTE: Byte := 96
  const OPEN_BRACE: Byte := 123
  const CLOSE_BRACE: Byte := 125

  /** The words after which a slash begins a regular expression. */
  const BEFORE_REGEX: set<Bytes> := {Ascii("return"), Ascii("throw"), Ascii("case"), Ascii("yield"), Ascii("await")}

  /** Token texts are never empty. */
  type Word = text: Bytes | text != [] witness [SEMICOLON]

  datatype Mark = Mark(text: Word, left: nat)

  /** What is left, the marks so far, and how many bytes were left at each block comment skipped. */
  datatype Run = Run(rest: Bytes, marks: seq<Mark>, comments: seq<nat>)

  predicate Space(b: Byte) { b == SPACE || b == TAB || b == NEWLINE || b == RETURN || b == FORM_FEED }

  predicate IdentifierStart(b: Byte) { b == UNDERSCORE || b == DOLLAR || 97 <= b <= 122 || 65 <= b <= 90 }

  predicate IdentifierPart(b: Byte) { IdentifierStart(b) || 48 <= b <= 57 }

  predicate RegexAfter(previous: Word) {
    || previous in BEFORE_REGEX
    || !(IdentifierStart(previous[0]) || previous == [CLOSE_PAREN] || previous == [CLOSE_BRACKET] || previous == [CLOSE_BRACE])
  }

  predicate RegexCanStart(marks: seq<Mark>) { marks == [] || RegexAfter(marks[|marks| - 1].text) }

  predicate Pair2(s: Bytes, first: Byte, second: Byte) { |s| > 1 && s[0] == first && s[1] == second }

  predicate Suffix(r: Bytes, s: Bytes) { |r| <= |s| && r == s[|s| - |r|..] }

  function AfterIdentifier(s: Bytes): (r: Bytes)
    ensures Suffix(r, s)
  {
    if s == [] || !IdentifierPart(s[0]) then s else AfterIdentifier(s[1..])
  }

  function AfterLine(s: Bytes): (r: Bytes)
    ensures Suffix(r, s)
  {
    if s == [] || s[0] == NEWLINE then s else AfterLine(s[1..])
  }

  function AfterBlock(s: Bytes): (r: Bytes)
    ensures Suffix(r, s)
  {
    if s == [] then [] else if Pair2(s, STAR, SLASH) then s[2..] else AfterBlock(s[1..])
  }

  /** An escaped byte is passed over with its backslash. */
  function AfterEscape(s: Bytes): (r: Bytes)
    requires s != []
    ensures Suffix(r, s) && |r| < |s|
  {
    if |s| > 1 then s[2..] else []
  }

  function AfterQuoted(s: Bytes, quote: Byte): (r: Bytes)
    ensures Suffix(r, s)
    decreases |s|
  {
    if s == [] then []
    else if s[0] == BACKSLASH then AfterQuoted(AfterEscape(s), quote)
    else if s[0] == quote then s[1..]
    else AfterQuoted(s[1..], quote)
  }

  /** A slash inside a character class does not end the expression; its flags follow. */
  function AfterRegex(s: Bytes, inClass: bool): (r: Bytes)
    ensures Suffix(r, s)
    decreases |s|
  {
    if s == [] then []
    else if s[0] == BACKSLASH then AfterRegex(AfterEscape(s), inClass)
    else if s[0] == OPEN_BRACKET then AfterRegex(s[1..], true)
    else if s[0] == CLOSE_BRACKET then AfterRegex(s[1..], false)
    else if s[0] == SLASH && !inClass then AfterIdentifier(s[1..])
    else AfterRegex(s[1..], inClass)
  }

  function Marked(s: Run, text: Word): Run { s.(marks := s.marks + [Mark(text, |s.rest|)]) }

  /** A blank, a comment, a quoted text or a regular expression comes next. */
  predicate Skips(s: Run) {
    && s.rest != []
    && (Space(s.rest[0]) || Pair2(s.rest, SLASH, SLASH) || Pair2(s.rest, SLASH, STAR) || s.rest[0] == SINGLE ||
        s.rest[0] == DOUBLE || (s.rest[0] == SLASH && RegexCanStart(s.marks)))
  }

  function Skip(s: Run): (r: Run)
    requires Skips(s)
    ensures Suffix(r.rest, s.rest) && |r.rest| < |s.rest|
  {
    var c := s.rest[0];
    if Space(c) then s.(rest := s.rest[1..])
    else if Pair2(s.rest, SLASH, SLASH) then s.(rest := AfterLine(s.rest[2..]))
    else if Pair2(s.rest, SLASH, STAR) then s.(rest := AfterBlock(s.rest[2..]), comments := s.comments + [|s.rest|])
    else if c == SINGLE || c == DOUBLE then s.(rest := AfterQuoted(s.rest[1..], c))
    else s.(rest := AfterRegex(s.rest[1..], false))
  }

  /** One byte as the text of the code point with its number, in UTF-8: two bytes from 128 on. */
  function OfByte(b: Byte): Word { if b < 128 then [b] else [0xC0 + b / 64, 0x80 + b % 64] }

  /** The text of what was read: an identifier is its own, a single byte is taken for a code point. */
  function TextOf(read: Word): Word { if IdentifierStart(read[0]) then read else OfByte(read[0]) }

  /** An identifier, or a single byte. */
  function ReadToken(s: Run): (r: Run)
    requires s.rest != []
    ensures Suffix(r.rest, s.rest) && |r.rest| < |s.rest|
  {
    var after := if IdentifierStart(s.rest[0]) then AfterIdentifier(s.rest[1..]) else s.rest[1..];
    Marked(s, TextOf(s.rest[..|s.rest| - |after|])).(rest := after)
  }

  function Scan(s: Run): (r: Run)
    requires s.rest != []
    ensures Suffix(r.rest, s.rest) && |r.rest| < |s.rest|
  {
    if Skips(s) then Skip(s) else ReadToken(s)
  }

  function Nested(c: Byte, depth: nat): nat {
    if c == OPEN_BRACE then depth + 1 else if c == CLOSE_BRACE && depth > 0 then depth - 1 else depth
  }

  /** Code, up to the end or, inside a template, up to the brace that closes it. */
  function Code(s: Run, inTemplate: bool, depth: nat): (r: Run)
    ensures |r.rest| <= |s.rest|
    decreases |s.rest|
  {
    if s.rest == [] then s
    else if inTemplate && s.rest[0] == CLOSE_BRACE && depth == 0 then s.(rest := s.rest[1..])
    else if s.rest[0] == BACKQUOTE then Code(Template(s.(rest := s.rest[1..])), inTemplate, depth)
    else Code(Scan(s), inTemplate, Nested(s.rest[0], depth))
  }

  function Opened(s: Run): Run
    requires |s.rest| > 1
  {
    Marked(s, [SEMICOLON]).(rest := s.rest[2..])
  }

  /** Template text, up to its closing quote; each substitution is set off by semicolons. */
  function Template(s: Run): (r: Run)
    ensures |r.rest| <= |s.rest|
    decreases |s.rest|
  {
    if s.rest == [] then s
    else if s.rest[0] == BACKSLASH then Template(s.(rest := AfterEscape(s.rest)))
    else if s.rest[0] == BACKQUOTE then s.(rest := s.rest[1..])
    else if Pair2(s.rest, DOLLAR, OPEN_BRACE) then Template(Marked(Code(Opened(s), true, 0), [SEMICOLON]))
    else Template(s.(rest := s.rest[1..]))
  }

  function Lex(data: Bytes): Run { Code(Run(data, [], []), false, 0) }

  function Words(marks: seq<Mark>): seq<Bytes> { seq(|marks|, i requires 0 <= i < |marks| => marks[i].text) }
}
