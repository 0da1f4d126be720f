/** The lexer as it runs over a buffer, with the line and column of each token. */
module TypeScriptTokens {
  import opened Wire
  import opened TypeScriptLexer

  datatype Token = Token(text: Word, line: nat, column: nat)

  /** Lines count from one; each newline begins another. */
  function Line(data: Bytes, pos: nat): nat
    requires pos <= |data|
  {
    1 + multiset(data[..pos])[NEWLINE]
  }

  function Column(data: Bytes, pos: nat): (column: nat)
    requires pos <= |data|
    ensures 1 <= column <= pos + 1
  {
    if pos == 0 || data[pos - 1] == NEWLINE then 1 else Column(data, pos - 1) + 1
  }

  /** The column counts from the last newline, or from the start. */
  lemma {:induction false} ColumnFromLineStart(data: Bytes, pos: nat)
    requires pos <= |data|
    ensures var start := pos + 1 - Column(data, pos);
      && (start == 0 || data[start - 1] == NEWLINE) && forall i :: start <= i < pos ==> data[i] != NEWLINE
  {
    if pos != 0 && data[pos - 1] != NEWLINE { ColumnFromLineStart(data, pos - 1); }
  }

  function At(data: Bytes, m: Mark): Token {
    var pos := if m.left <= |data| then |data| - m.left else 0;
    Token(m.text, Line(data, pos), Column(data, pos))
  }

  function Placed(data: Bytes, marks: seq<Mark>): seq<Token> {
    seq(|marks|, i requires 0 <= i < |marks| => At(data, marks[i]))
  }

  /** How many bytes a token took: the text of a byte from 128 on has two, and its first is from 128 on as well. */
  function Extent(text: Word): nat { if text[0] < 128 then |text| else 1 }

  /** The token was read where its mark is. */
  predicate Read(data: Bytes, m: Mark) {
    && m.left <= |data|
    && var pos := |data| - m.left;
       pos + Extent(m.text) <= |data| && m.text == TextOf(data[pos..pos + Extent(m.text)])
  }

  /** A semicolon where a substitution begins or ends. */
  predicate Substitution(data: Bytes, m: Mark) {
    && m.left <= |data| && m.text == [SEMICOLON]
    && var pos := |data| - m.left;
       Pair2(data[pos..], DOLLAR, OPEN_BRACE) || pos == |data| || (pos > 0 && data[pos - 1] == CLOSE_BRACE)
  }

  predicate Located(data: Bytes, m: Mark) { Read(data, m) || Substitution(data, m) }

  /** The token's text stands in the file at its mark. */
  predicate Stands(data: Bytes, m: Mark) {
    && m.left <= |data|
    && var pos := |data| - m.left;
       pos + |m.text| <= |data| && data[pos..pos + |m.text|] == m.text
  }

  /** The bytes whose text, read from the first of them, is these very bytes. */
  const ITSELF: Bytes := [0xC3, 0x83]

  /** What stands at a mark begins below 128, or with the one pair of bytes that the conversion reproduces. */
  predicate Plain(data: Bytes, m: Mark) {
    && 0 < m.left <= |data|
    && var pos := |data| - m.left;
       data[pos] < 128 || Pair2(data[pos..], ITSELF[0], ITSELF[1])
  }

  lemma {:induction false} StandsExactly(data: Bytes, m: Mark)
    requires Read(data, m)
    ensures Stands(data, m) <==> Plain(data, m)
  {
    var pos := |data| - m.left;
    var b := data[pos];
    var read := data[pos..pos + Extent(m.text)];
    if b < 128 {
      assert m.text == read;
    } else {
      assert m.text == [0xC0 + b / 64, 0x80 + b % 64];
      assert b == 0xC0 + b / 64 <==> b == 0xC3;
      if Stands(data, m) {
        assert data[pos..pos + 2][0] == b && data[pos..pos + 2][1] == data[pos + 1];
      }
    }
  }

  /** Marks never go back, and tokens other than semicolons do not begin within one another. */
  predicate Before(m: Mark, left: nat) {
    m.left >= left && (m.text != [SEMICOLON] ==> m.left >= left + Extent(m.text))
  }

  predicate Faithful(data: Bytes, s: Run) {
    && Suffix(s.rest, data)
    && (forall i :: 0 <= i < |s.marks| ==> Located(data, s.marks[i]) && Before(s.marks[i], |s.rest|))
    && (forall i, j :: 0 <= i < j < |s.marks| ==> Before(s.marks[i], s.marks[j].left))
    && (forall i :: 0 <= i < |s.comments| ==> s.comments[i] <= |data| && Pair2(data[|data| - s.comments[i]..], SLASH, STAR))
  }

  lemma {:induction false} MovedFaithful(data: Bytes, s: Run, rest: Bytes)
    requires Faithful(data, s) && Suffix(rest, s.rest)
    ensures Faithful(data, s.(rest := rest))
  {
    assert rest == data[|data| - |rest|..];
  }

  lemma {:induction false} MarkedFaithful(data: Bytes, s: Run, text: Word, rest: Bytes)
    requires Faithful(data, s) && Suffix(rest, s.rest) && Located(data, Mark(text, |s.rest|)) && Before(Mark(text, |s.rest|), |rest|)
    ensures Faithful(data, Marked(s, text).(rest := rest))
  {
    MovedFaithful(data, s, rest);
  }

  lemma {:induction false} TextExtent(read: Word)
    requires |read| == 1 || IdentifierStart(read[0])
    ensures Extent(TextOf(read)) == |read|
  {}

  lemma {:induction false} ReadLocated(data: Bytes, rest: Bytes, after: Bytes)
    requires Suffix(rest, data) && Suffix(after, rest) && |after| < |rest|
    requires |rest| - |after| == 1 || IdentifierStart(rest[0])
    ensures var m := Mark(TextOf(rest[..|rest| - |after|]), |rest|); Located(data, m) && Before(m, |after|)
  {
    var read, pos := rest[..|rest| - |after|], |data| - |rest|;
    TextExtent(read);
    hide TextOf, Extent;
    assert data[pos..pos + |read|] == data[pos..][..|read|];
  }

  lemma {:induction false} FaithfulRest(data: Bytes, s: Run)
    requires Faithful(data, s)
    ensures Suffix(s.rest, data)
  {}

  lemma {:induction false} TokenFaithful(data: Bytes, s: Run)
    requires Faithful(data, s) && s.rest != []
    ensures Faithful(data, ReadToken(s))
  {
    hide AfterIdentifier, TextOf, Located, Before, Faithful;
    var after := ReadToken(s).rest;
    FaithfulRest(data, s);
    ReadLocated(data, s.rest, after);
    MarkedFaithful(data, s, TextOf(s.rest[..|s.rest| - |after|]), after);
  }

  lemma {:induction false} ScanFaithful(data: Bytes, s: Run)
    requires Faithful(data, s) && s.rest != []
    ensures Faithful(data, Scan(s))
  {
    if Skips(s) {
      MovedFaithful(data, s, Skip(s).rest);
    } else {
      TokenFaithful(data, s);
    }
  }

  /** Where code ends inside a template: at the end of the text, or after a closing brace. */
  predicate Closed(data: Bytes, s: Run) {
    s.rest == [] || (|s.rest| < |data| && data[|data| - |s.rest| - 1] == CLOSE_BRACE)
  }

  lemma {:induction false} CodeFaithful(data: Bytes, s: Run, inTemplate: bool, depth: nat)
    requires Faithful(data, s)
    ensures Faithful(data, Code(s, inTemplate, depth)) && (inTemplate ==> Closed(data, Code(s, inTemplate, depth)))
    decreases |s.rest|
  {
    if s.rest != [] {
      var rest := s.rest[1..];
      assert s.rest[0] == data[|data| - |s.rest|];
      MovedFaithful(data, s, rest);
      if inTemplate && s.rest[0] == CLOSE_BRACE && depth == 0 {
      } else if s.rest[0] == BACKQUOTE {
        TemplateFaithful(data, s.(rest := rest));
        CodeFaithful(data, Template(s.(rest := rest)), inTemplate, depth);
      } else {
        ScanFaithful(data, s);
        CodeFaithful(data, Scan(s), inTemplate, Nested(s.rest[0], depth));
      }
    }
  }

  lemma {:induction false} TemplateFaithful(data: Bytes, s: Run)
    requires Faithful(data, s)
    ensures Faithful(data, Template(s))
    decreases |s.rest|
  {
    if s.rest == [] {
    } else if s.rest[0] == BACKSLASH {
      MovedFaithful(data, s, AfterEscape(s.rest));
      TemplateFaithful(data, s.(rest := AfterEscape(s.rest)));
    } else if Pair2(s.rest, DOLLAR, OPEN_BRACE) {
      MarkedFaithful(data, s, [SEMICOLON], s.rest[2..]);
      var inner := Code(Opened(s), true, 0);
      CodeFaithful(data, Opened(s), true, 0);
      MarkedFaithful(data, inner, [SEMICOLON], inner.rest);
      TemplateFaithful(data, Marked(inner, [SEMICOLON]));
    } else {
      MovedFaithful(data, s, s.rest[1..]);
      if s.rest[0] != BACKQUOTE { TemplateFaithful(data, s.(rest := s.rest[1..])); }
    }
  }

  /**
   Every token is what was read where its mark is, in order, or sets off a substitution; and a token that was read
   stands there exactly when the byte there is below 128 or the bytes there are the one pair that is its own text.
   Every comment skipped opens as one, and nothing is left.
   */
  lemma {:induction false} TokensAreTheText(data: Bytes)
    ensures Faithful(data, Lex(data)) && Lex(data).rest == []
    ensures forall i :: 0 <= i < |Lex(data).marks| ==> var m := Lex(data).marks[i];
              Substitution(data, m) || (Read(data, m) && (Stands(data, m) <==> Plain(data, m)))
  {
    CodeFaithful(data, Run(data, [], []), false, 0);
    CodeEnds(Run(data, [], []), 0);
    forall i | 0 <= i < |Lex(data).marks| && Read(data, Lex(data).marks[i])
      ensures Stands(data, Lex(data).marks[i]) <==> Plain(data, Lex(data).marks[i])
    {
      StandsExactly(data, Lex(data).marks[i]);
    }
  }

  /** The marks of bytes that are all from 128 on. */
  function EachByte(rest: Bytes): seq<Mark> {
    if rest == [] then [] else [Mark(OfByte(rest[0]), |rest|)] + EachByte(rest[1..])
  }

  lemma {:induction false} LoneByte(s: Run)
    requires s.rest != [] && s.rest[0] >= 128
    ensures Scan(s) == Marked(s, OfByte(s.rest[0])).(rest := s.rest[1..])
  {
    assert s.rest[..|s.rest| - |s.rest[1..]|] == [s.rest[0]];
  }

  /** Each such byte is a token of its own. */
  lemma {:induction false} HighBytes(s: Run)
    requires forall b :: b in s.rest ==> b >= 128
    ensures Code(s, false, 0).marks == s.marks + EachByte(s.rest)
    decreases |s.rest|
  {
    hide OfByte, Scan;
    if s.rest != [] {
      assert s.rest[0] in s.rest && forall b :: b in s.rest[1..] ==> b in s.rest;
      LoneByte(s);
      HighBytes(Scan(s));
    }
  }

  /** An arrow, as it stands in JSX text. */
  const ARROW: Bytes := [0xE2, 0x86, 0x92]

  lemma {:induction false} ArrowMarks()
    ensures Lex(ARROW).marks == [Mark(OfByte(0xE2), 3), Mark(OfByte(0x86), 2), Mark(OfByte(0x92), 1)]
  {
    HighBytes(Run(ARROW, [], []));
    hide Code, OfByte;
    assert ARROW[1..] == [0x86, 0x92] && ARROW[1..][1..] == [0x92];
    assert EachByte([0x92]) == [Mark(OfByte(0x92), 1)] by { assert [0x92][1..] == []; }
    assert EachByte([0x86, 0x92]) == [Mark(OfByte(0x86), 2), Mark(OfByte(0x92), 1)] by { assert [0x86, 0x92][1..] == [0x92]; }
  }

  /** It becomes three tokens of two bytes, none of which stands in it. */
  lemma {:induction false} ArrowIsNoText()
    ensures Words(Lex(ARROW).marks) == [[0xC3, 0xA2], [0xC2, 0x86], [0xC2, 0x92]]
    ensures forall i :: 0 <= i < |Lex(ARROW).marks| ==> !Stands(ARROW, Lex(ARROW).marks[i])
  {
    ArrowMarks();
    hide Lex;
    var marks := Lex(ARROW).marks;
    forall i | 0 <= i < |marks| ensures !Stands(ARROW, marks[i]) {
      if i < 2 { assert ARROW[i..i + 2][0] == ARROW[i]; }
    }
  }

  /** The pair that is its own text becomes two tokens: the first stands, the second does not. */
  lemma {:induction false} ItselfStands()
    ensures Lex(ITSELF).marks == [Mark(ITSELF, 2), Mark([0xC2, 0x83], 1)]
    ensures Stands(ITSELF, Lex(ITSELF).marks[0]) && !Stands(ITSELF, Lex(ITSELF).marks[1])
  {
    HighBytes(Run(ITSELF, [], []));
    hide Code;
    assert ITSELF[1..] == [0x83] && ITSELF[1..][1..] == [];
    assert EachByte(ITSELF[1..]) == [Mark([0xC2, 0x83], 1)];
  }

  lemma {:induction false} CodeEnds(s: Run, depth: nat)
    ensures Code(s, false, depth).rest == []
    decreases |s.rest|
  {
    if s.rest == [] {
    } else if s.rest[0] == BACKQUOTE {
      CodeEnds(Template(s.(rest := s.rest[1..])), depth);
    } else {
      CodeEnds(Scan(s), Nested(s.rest[0], depth));
    }
  }

  lemma {:induction false} StartIsPart(b: Byte)
    requires IdentifierStart(b)
    ensures IdentifierPart(b)
  {}

  lemma {:induction false} CodeStops(s: Run, inTemplate: bool, depth: nat)
    requires s.rest == []
    ensures Code(s, inTemplate, depth) == s
  {}

  lemma {:induction false} CodeCloses(s: Run)
    requires s.rest != [] && s.rest[0] == CLOSE_BRACE
    ensures Code(s, true, 0) == s.(rest := s.rest[1..])
  {}

  lemma {:induction false} TemplateStops(s: Run)
    requires s.rest == []
    ensures Template(s) == s
  {}

  lemma {:induction false} CodeSteps(s: Run, inTemplate: bool, depth: nat)
    requires s.rest != [] && !(inTemplate && s.rest[0] == CLOSE_BRACE && depth == 0)
    ensures Code(s, inTemplate, depth) ==
            if s.rest[0] == BACKQUOTE then Code(Template(s.(rest := s.rest[1..])), inTemplate, depth)
            else Code(Scan(s), inTemplate, Nested(s.rest[0], depth))
  {}

  lemma {:induction false} TemplateEnds(s: Run)
    requires s.rest != [] && s.rest[0] == BACKQUOTE
    ensures Template(s) == s.(rest := s.rest[1..])
  {}

  lemma {:induction false} TemplateSteps(s: Run)
    requires s.rest != [] && s.rest[0] != BACKQUOTE
    ensures Template(s) ==
            if s.rest[0] == BACKSLASH then Template(s.(rest := AfterEscape(s.rest)))
            else if Pair2(s.rest, DOLLAR, OPEN_BRACE) then Template(Marked(Code(Opened(s), true, 0), [SEMICOLON]))
            else Template(s.(rest := s.rest[1..]))
  {}

  class Lexer {
    const data: Bytes
    var pos: nat
    var line: nat
    var column: nat
    var tokens: seq<Token>
    ghost var marks: seq<Mark>
    ghost var comments: seq<nat>

    /** The line and column are those of the position, and the tokens those of their marks. */
    ghost predicate Valid()
      reads this
    {
      && pos <= |data| && line == Line(data, pos) && column == Column(data, pos)
      && tokens == Placed(data, marks)
    }

    ghost function Now(): Run
      reads this
      requires pos <= |data|
    {
      Run(Left(pos), marks, comments)
    }

    constructor (data: Bytes)
      ensures this.data == data && Valid() && Now() == Run(data, [], [])
    {
      this.data, pos, line, column, tokens, marks, comments := data, 0, 1, 1, [], [], [];
      new;
      assert Left(0) == data;
    }

    method Advance()
      requires Valid()
      modifies this`pos, this`line, this`column
      ensures Valid() && pos == if old(pos) < |data| then old(pos) + 1 else old(pos)
    {
      if pos >= |data| {
        return;
      }
      assert data[..pos + 1] == data[..pos] + [data[pos]];
      if data[pos] == NEWLINE {
        line := line + 1;
        column := 1;
      } else {
        column := column + 1;
      }
      pos := pos + 1;
    }

    /** What is left at a position. */
    ghost function Left(p: nat): (r: Bytes)
      requires p <= |data|
      ensures |r| == |data| - p
    {
      data[p..]
    }

    lemma {:induction false} LeftAt(p: nat)
      requires p < |data|
      ensures Left(p) != [] && Left(p)[0] == data[p] && Left(p)[1..] == Left(p + 1)
      ensures |Left(p)| > 1 <==> p + 1 < |data|
      ensures p + 1 < |data| ==> Left(p)[1] == data[p + 1] && Left(p)[2..] == Left(p + 2)
    {}

    lemma {:induction false} Between(p: nat, q: nat)
      requires p <= q <= |data|
      ensures data[p..q] == Left(p)[..|Left(p)| - |Left(q)|]
    {}

    method SkipLineComment()
      requires Valid() && pos + 1 < |data| && data[pos] == data[pos + 1] == SLASH
      modifies this`pos, this`line, this`column
      ensures Valid() && Left(pos) == AfterLine(Left(old(pos) + 2))
    {
      hide Line, Column, Placed, Suffix, Left, Space, IdentifierStart, IdentifierPart;
      LeftAt(pos);
      LeftAt(pos + 1);
      while pos < |data| && data[pos] != NEWLINE
        invariant Valid() && AfterLine(Left(pos)) == AfterLine(Left(old(pos) + 2))
        decreases |data| - pos
      {
        LeftAt(pos);
        Advance();
      }
      if pos < |data| {
        LeftAt(pos);
      }
    }

    method SkipBlockComment()
      requires Valid() && pos + 1 < |data|
      modifies this`pos, this`line, this`column, this`comments
      ensures Valid() && Left(pos) == AfterBlock(Left(old(pos) + 2)) && comments == old(comments) + [|data| - old(pos)]
    {
      hide Line, Column, Placed, Suffix, Left, Space, IdentifierStart, IdentifierPart;
      comments := comments + [|data| - pos];
      LeftAt(pos);
      Advance();
      Advance();
      while pos < |data|
        invariant Valid() && comments == old(comments) + [|data| - old(pos)]
        invariant AfterBlock(Left(pos)) == AfterBlock(Left(old(pos) + 2))
        decreases |data| - pos
      {
        LeftAt(pos);
        if data[pos] == STAR && pos + 1 < |data| && data[pos + 1] == SLASH {
          Advance();
          Advance();
          return;
        }
        Advance();
      }
    }

    method SkipQuoted(quote: Byte)
      requires Valid() && pos < |data|
      modifies this`pos, this`line, this`column
      ensures Valid() && Left(pos) == AfterQuoted(Left(old(pos) + 1), quote)
    {
      hide Line, Column, Placed, Suffix, Left, Space, IdentifierStart, IdentifierPart;
      LeftAt(pos);
      Advance();
      while pos < |data|
        invariant Valid() && AfterQuoted(Left(pos), quote) == AfterQuoted(Left(old(pos) + 1), quote)
        decreases |data| - pos
      {
        LeftAt(pos);
        if data[pos] == BACKSLASH {
          Advance();
          if pos < |data| {
            Advance();
          }
          continue;
        }
        if data[pos] == quote {
          Advance();
          return;
        }
        Advance();
      }
    }

    method SkipIdentifier()
      requires Valid()
      modifies this`pos, this`line, this`column
      ensures Valid() && Left(pos) == AfterIdentifier(Left(old(pos))) && pos >= old(pos)
      ensures old(pos) < |data| && IdentifierPart(data[old(pos)]) ==> pos > old(pos) && Left(pos) == AfterIdentifier(Left(old(pos) + 1))
    {
      hide Line, Column, Placed, Suffix, Left, Space, IdentifierStart, IdentifierPart;
      while pos < |data| && IdentifierPart(data[pos])
        invariant Valid() && pos >= old(pos) && (pos > old(pos) ==> old(pos) < |data|)
        invariant pos > old(pos) ==> AfterIdentifier(Left(pos)) == AfterIdentifier(Left(old(pos) + 1))
        invariant AfterIdentifier(Left(pos)) == AfterIdentifier(Left(old(pos)))
        decreases |data| - pos
      {
        LeftAt(pos);
        Advance();
      }
      if pos < |data| {
        LeftAt(pos);
      }
    }

    method SkipRegex()
      requires Valid() && pos < |data|
      modifies this`pos, this`line, this`column
      ensures Valid() && Left(pos) == AfterRegex(Left(old(pos) + 1), false)
    {
      hide Line, Column, Placed, Suffix, Left, Space, IdentifierStart, IdentifierPart;
      LeftAt(pos);
      Advance();
      var inClass := false;
      while pos < |data|
        invariant Valid() && AfterRegex(Left(pos), inClass) == AfterRegex(Left(old(pos) + 1), false)
        decreases |data| - pos
      {
        LeftAt(pos);
        var current := data[pos];
        if current == BACKSLASH {
          Advance();
          if pos < |data| {
            Advance();
          }
          continue;
        }
        if current == OPEN_BRACKET {
          inClass := true;
        } else if current == CLOSE_BRACKET {
          inClass := false;
        } else if current == SLASH && !inClass {
          Advance();
          SkipIdentifier();
          return;
        }
        Advance();
      }
    }

    method RegexMayStart() returns (may: bool)
      requires Valid()
      ensures may == RegexCanStart(marks)
    {
      if |tokens| == 0 {
        return true;
      }
      var previous := tokens[|tokens| - 1].text;
      if previous in BEFORE_REGEX {
        return true;
      }
      if IdentifierStart(previous[0]) || previous == [CLOSE_PAREN] || previous == [CLOSE_BRACKET] || previous == [CLOSE_BRACE] {
        return false;
      }
      return true;
    }

    /** Adds a token that began where the line and column were taken. */
    method Append(text: Word, start: nat, line: nat, column: nat)
      requires Valid() && start <= |data| && line == Line(data, start) && column == Column(data, start)
      modifies this`tokens, this`marks
      ensures Valid() && marks == old(marks) + [Mark(text, |data| - start)]
    {
      tokens := tokens + [Token(text, line, column)];
      marks := marks + [Mark(text, |data| - start)];
    }

    /** One blank, comment, quoted text, regular expression or token. */
    method ScanOne()
      requires Valid() && pos < |data|
      modifies this
      ensures Valid() && Now() == Scan(old(Now())) && pos > old(pos)
    {
      hide Line, Column, Placed, Suffix, Left, AfterLine, AfterBlock, AfterQuoted, AfterRegex, AfterIdentifier,
        RegexCanStart, IdentifierStart, IdentifierPart, Space;
      var current := data[pos];
      LeftAt(pos);
      var start, startLine, startColumn := pos, line, column;
      var regex := false;
      if current == SLASH {
        regex := RegexMayStart();
      }
      if Space(current) {
        Advance();
      } else if current == SLASH && pos + 1 < |data| && data[pos + 1] == SLASH {
        SkipLineComment();
      } else if current == SLASH && pos + 1 < |data| && data[pos + 1] == STAR {
        SkipBlockComment();
      } else if current == SINGLE || current == DOUBLE {
        SkipQuoted(current);
      } else if regex {
        SkipRegex();
      } else {
        var text: Word;
        if IdentifierStart(current) {
          StartIsPart(current);
          SkipIdentifier();
          text := data[start..pos];
        } else {
          Advance();
          text := OfByte(current);
        }
        Between(start, pos);
        Append(text, start, startLine, startColumn);
      }
    }

    method LexCode(inTemplate: bool)
      requires Valid()
      modifies this
      ensures Valid() && pos >= old(pos) && Now() == Code(old(Now()), inTemplate, 0)
      decreases |data| - pos, 1
    {
      hide Line, Column, Placed, Suffix, Left, Code, Template, Scan;
      var braceDepth := 0;
      while pos < |data|
        invariant Valid() && pos >= old(pos) && Code(Now(), inTemplate, braceDepth) == Code(old(Now()), inTemplate, 0)
        decreases |data| - pos
      {
        LeftAt(pos);
        var current := data[pos];
        if inTemplate && current == CLOSE_BRACE && braceDepth == 0 {
          CodeCloses(Now());
          Advance();
          return;
        }
        CodeSteps(Now(), inTemplate, braceDepth);
        if current == BACKQUOTE {
          SkipTemplate();
          continue;
        }
        if current == OPEN_BRACE {
          braceDepth := braceDepth + 1;
        } else if current == CLOSE_BRACE && braceDepth > 0 {
          braceDepth := braceDepth - 1;
        }
        ScanOne();
      }
      CodeStops(Now(), inTemplate, braceDepth);
    }

    /** A substitution in a template, set off by semicolons. */
    method LexSubstitution()
      requires Valid() && pos + 1 < |data| && data[pos] == DOLLAR && data[pos + 1] == OPEN_BRACE
      modifies this
      ensures Valid() && pos > old(pos) && Pair2(old(Now()).rest, DOLLAR, OPEN_BRACE)
      ensures Now() == Marked(Code(Opened(old(Now())), true, 0), [SEMICOLON])
      decreases |data| - pos, 0
    {
      hide Line, Column, Placed, Suffix, Left, Code, Template;
      LeftAt(pos);
      var start, startLine, startColumn := pos, line, column;
      Advance();
      Advance();
      Append([SEMICOLON], start, startLine, startColumn);
      LexCode(true);
      Append([SEMICOLON], pos, line, column);
    }

    method SkipTemplate()
      requires Valid() && pos < |data|
      modifies this
      ensures Valid() && pos > old(pos) && Now() == Template(old(Now()).(rest := Left(old(pos) + 1)))
      decreases |data| - pos, 0
    {
      hide Line, Column, Placed, Suffix, Left, Code, Template, Opened, Marked;
      Advance();
      while pos < |data|
        invariant Valid() && pos > old(pos)
        invariant Template(Now()) == Template(old(Now()).(rest := Left(old(pos) + 1)))
        decreases |data| - pos
      {
        LeftAt(pos);
        if data[pos] == BACKQUOTE {
          TemplateEnds(Now());
          Advance();
          return;
        }
        TemplateSteps(Now());
        if data[pos] == BACKSLASH {
          Advance();
          if pos < |data| {
            Advance();
          }
          continue;
        }
        if data[pos] == DOLLAR && pos + 1 < |data| && data[pos + 1] == OPEN_BRACE {
          LexSubstitution();
          continue;
        }
        Advance();
      }
      TemplateStops(Now());
    }
  }

  /** The tokens of a text with their places. */
  method LexTypeScript(data: Bytes) returns (tokens: seq<Token>)
    ensures tokens == Placed(data, Lex(data).marks)
  {
    var lexer := new Lexer(data);
    lexer.LexCode(false);
    tokens := lexer.tokens;
  }
}
