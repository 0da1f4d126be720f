/** What is inside a skipped block comment does not matter to the tokens. */
module TypeScriptComments {
  import opened Wire
  import opened TypeScriptLexer

  predicate Opens(w: Bytes) { Pair2(w, SLASH, STAR) }

  /** The second text is the first with its end w replaced. */
  predicate Swapped(s: Bytes, s2: Bytes, w: Bytes, w2: Bytes) {
    |s| >= |w| && s[|s| - |w|..] == w && s2 == s[..|s| - |w|] + w2
  }

  lemma {:induction false} SwappedTail(s: Bytes, s2: Bytes, w: Bytes, w2: Bytes)
    requires Opens(w) && Opens(w2) && Swapped(s, s2, w, w2)
    ensures |s| > 1 && |s2| > 1 && s[0] == s2[0] && s[1] == s2[1]
    ensures |s| > |w| ==> Swapped(s[1..], s2[1..], w, w2)
    ensures |s| > |w| + 1 ==> Swapped(s[2..], s2[2..], w, w2)
    ensures |s| == |w| ==> s == w && s2 == w2
  {
    assert |s| > |w| ==> s[1..][..|s[1..]| - |w|] == s[..|s| - |w|][1..];
    assert |s| > |w| + 1 ==> s[2..][..|s[2..]| - |w|] == s[..|s| - |w|][2..];
    if |s| == |w| + 1 { assert s[1] == s[|s| - |w|..][0]; }
  }

  lemma {:induction false} IdentifierSwapped(s: Bytes, s2: Bytes, w: Bytes, w2: Bytes)
    requires Opens(w) && Opens(w2) && Swapped(s, s2, w, w2) && |AfterIdentifier(s)| >= |w|
    ensures Swapped(AfterIdentifier(s), AfterIdentifier(s2), w, w2)
    decreases |s|
  {
    SwappedTail(s, s2, w, w2);
    if IdentifierPart(s[0]) { IdentifierSwapped(s[1..], s2[1..], w, w2); }
  }

  lemma {:induction false} LineSwapped(s: Bytes, s2: Bytes, w: Bytes, w2: Bytes)
    requires Opens(w) && Opens(w2) && Swapped(s, s2, w, w2) && |AfterLine(s)| >= |w|
    ensures Swapped(AfterLine(s), AfterLine(s2), w, w2)
    decreases |s|
  {
    SwappedTail(s, s2, w, w2);
    if s[0] != NEWLINE { LineSwapped(s[1..], s2[1..], w, w2); }
  }

  lemma {:induction false} BlockSwapped(s: Bytes, s2: Bytes, w: Bytes, w2: Bytes)
    requires Opens(w) && Opens(w2) && Swapped(s, s2, w, w2) && |AfterBlock(s)| >= |w|
    ensures Swapped(AfterBlock(s), AfterBlock(s2), w, w2)
    decreases |s|
  {
    SwappedTail(s, s2, w, w2);
    if !Pair2(s, STAR, SLASH) { BlockSwapped(s[1..], s2[1..], w, w2); }
  }

  lemma {:induction false} QuotedSwapped(s: Bytes, s2: Bytes, quote: Byte, w: Bytes, w2: Bytes)
    requires Opens(w) && Opens(w2) && Swapped(s, s2, w, w2) && |AfterQuoted(s, quote)| >= |w|
    ensures Swapped(AfterQuoted(s, quote), AfterQuoted(s2, quote), w, w2)
    decreases |s|
  {
    SwappedTail(s, s2, w, w2);
    if s[0] == BACKSLASH { QuotedSwapped(s[2..], s2[2..], quote, w, w2); }
    else if s[0] != quote { QuotedSwapped(s[1..], s2[1..], quote, w, w2); }
  }

  lemma {:induction false} RegexSwapped(s: Bytes, s2: Bytes, inClass: bool, w: Bytes, w2: Bytes)
    requires Opens(w) && Opens(w2) && Swapped(s, s2, w, w2) && |AfterRegex(s, inClass)| >= |w|
    ensures Swapped(AfterRegex(s, inClass), AfterRegex(s2, inClass), w, w2)
    decreases |s|
  {
    SwappedTail(s, s2, w, w2);
    if s[0] == BACKSLASH { RegexSwapped(s[2..], s2[2..], inClass, w, w2); }
    else if s[0] == OPEN_BRACKET { RegexSwapped(s[1..], s2[1..], true, w, w2); }
    else if s[0] == CLOSE_BRACKET { RegexSwapped(s[1..], s2[1..], false, w, w2); }
    else if s[0] == SLASH && !inClass { IdentifierSwapped(s[1..], s2[1..], w, w2); }
    else { RegexSwapped(s[1..], s2[1..], inClass, w, w2); }
  }

  /** The lexer has gone past the place of w without skipping a comment there. */
  predicate Jumped(s: Run, w: Bytes) { |w| !in s.comments && |s.rest| < |w| }

  /** Two runs on texts that differ in w: the same up to w, and the same again once w was skipped as a comment. */
  predicate Parallel(s: Run, s2: Run, w: Bytes, w2: Bytes) {
    && Words(s.marks) == Words(s2.marks)
    && (if |w| in s.comments then s.rest == s2.rest && |s.rest| < |w| else Swapped(s.rest, s2.rest, w, w2))
  }

  /** Comments skipped from here on begin in what is left. */
  predicate Later(s: Run, r: Run) {
    && |r.rest| <= |s.rest| && s.comments <= r.comments
    && forall i :: |s.comments| <= i < |r.comments| ==> r.comments[i] <= |s.rest|
  }

  lemma {:induction false} LaterAgain(a: Run, b: Run, c: Run)
    requires Later(a, b) && Later(b, c)
    ensures Later(a, c)
  {
    forall i | |a.comments| <= i < |c.comments| ensures c.comments[i] <= |a.rest| {
      if i < |b.comments| { assert c.comments[i] == b.comments[i]; }
    }
  }

  lemma {:induction false} CodeLater(s: Run, inTemplate: bool, depth: nat)
    ensures Later(s, Code(s, inTemplate, depth))
    decreases |s.rest|
  {
    if s.rest == [] || (inTemplate && s.rest[0] == CLOSE_BRACE && depth == 0) {
    } else if s.rest[0] == BACKQUOTE {
      var inside := s.(rest := s.rest[1..]);
      TemplateLater(inside);
      CodeLater(Template(inside), inTemplate, depth);
      LaterAgain(s, inside, Template(inside));
      LaterAgain(s, Template(inside), Code(s, inTemplate, depth));
    } else {
      CodeLater(Scan(s), inTemplate, Nested(s.rest[0], depth));
      LaterAgain(s, Scan(s), Code(s, inTemplate, depth));
    }
  }

  lemma {:induction false} TemplateLater(s: Run)
    ensures Later(s, Template(s))
    decreases |s.rest|
  {
    if s.rest == [] || s.rest[0] == BACKQUOTE {
    } else if s.rest[0] == BACKSLASH {
      TemplateLater(s.(rest := AfterEscape(s.rest)));
    } else if Pair2(s.rest, DOLLAR, OPEN_BRACE) {
      var inner := Code(Opened(s), true, 0);
      CodeLater(Opened(s), true, 0);
      TemplateLater(Marked(inner, [SEMICOLON]));
      LaterAgain(s, Opened(s), inner);
      LaterAgain(s, Marked(inner, [SEMICOLON]), Template(s));
    } else {
      TemplateLater(s.(rest := s.rest[1..]));
    }
  }

  lemma {:induction false} JumpedForGood(s: Run, r: Run, w: Bytes)
    requires Later(s, r) && Jumped(s, w)
    ensures Jumped(r, w)
  {
    forall i | 0 <= i < |r.comments| ensures r.comments[i] != |w| {
      if i < |s.comments| { assert r.comments[i] == s.comments[i]; }
    }
  }

  /** Equal texts make the same choice at a slash. */
  lemma {:induction false} SameLast(marks: seq<Mark>, marks2: seq<Mark>)
    requires Words(marks) == Words(marks2)
    ensures RegexCanStart(marks) == RegexCanStart(marks2)
  {
    assert |Words(marks)| == |marks| && |Words(marks2)| == |marks2|;
    if marks != [] { assert Words(marks)[|marks| - 1] == Words(marks2)[|marks2| - 1]; }
  }

  lemma {:induction false} WordsSnoc(marks: seq<Mark>, marks2: seq<Mark>, text: Word, left: nat, left2: nat)
    requires Words(marks) == Words(marks2)
    ensures Words(marks + [Mark(text, left)]) == Words(marks2 + [Mark(text, left2)])
  {
    assert |Words(marks)| == |marks| && |Words(marks2)| == |marks2|;
    forall i | 0 <= i < |marks| ensures marks[i].text == marks2[i].text {
      assert Words(marks)[i] == Words(marks2)[i];
    }
  }

  /** Both comments end at the same place. */
  predicate Alike(w: Bytes, w2: Bytes) {
    Opens(w) && Opens(w2) && AfterBlock(w[2..]) == AfterBlock(w2[2..])
  }

  /** What was read before the place of w is the same in both texts. */
  lemma {:induction false} SameRead(s: Bytes, s2: Bytes, r: Bytes, r2: Bytes, w: Bytes, w2: Bytes)
    requires Swapped(s, s2, w, w2) && Swapped(r, r2, w, w2) && |r| <= |s|
    ensures |s2| - |r2| == |s| - |r| && s[..|s| - |r|] == s2[..|s| - |r|]
  {
    var n := |s| - |r|;
    assert s[..n] == s[..|s| - |w|][..n];
    assert s2[..n] == s[..|s| - |w|][..n];
  }

  lemma {:induction false} SkipSwapped(s: Run, s2: Run, w: Bytes, w2: Bytes)
    requires Opens(w) && Opens(w2) && Swapped(s.rest, s2.rest, w, w2) && RegexCanStart(s.marks) == RegexCanStart(s2.marks)
    requires Skips(s) && |s.rest| > |w| && |Skip(s).rest| >= |w|
    ensures Skips(s2) && Swapped(Skip(s).rest, Skip(s2).rest, w, w2)
  {
    hide Swapped;
    hide RegexCanStart;
    var t, t2 := s.rest, s2.rest;
    SwappedTail(t, t2, w, w2);
    if Space(t[0]) {
    } else if Pair2(t, SLASH, SLASH) {
      LineSwapped(t[2..], t2[2..], w, w2);
    } else if Pair2(t, SLASH, STAR) {
      BlockSwapped(t[2..], t2[2..], w, w2);
    } else if t[0] == SINGLE || t[0] == DOUBLE {
      QuotedSwapped(t[1..], t2[1..], t[0], w, w2);
    } else {
      RegexSwapped(t[1..], t2[1..], false, w, w2);
    }
  }

  lemma {:induction false} ReadMarks(s: Run)
    requires s.rest != []
    ensures ReadToken(s).marks == s.marks + [Mark(TextOf(s.rest[..|s.rest| - |ReadToken(s).rest|]), |s.rest|)]
  {}

  lemma {:induction false} RestSwapped(s: Run, s2: Run, w: Bytes, w2: Bytes)
    requires Opens(w) && Opens(w2) && Swapped(s.rest, s2.rest, w, w2)
    requires |s.rest| > |w| && |ReadToken(s).rest| >= |w|
    ensures s2.rest != [] && Swapped(ReadToken(s).rest, ReadToken(s2).rest, w, w2)
  {
    hide Swapped, TextOf;
    SwappedTail(s.rest, s2.rest, w, w2);
    if IdentifierStart(s.rest[0]) {
      IdentifierSwapped(s.rest[1..], s2.rest[1..], w, w2);
    }
  }

  lemma {:induction false} TokenSwapped(s: Run, s2: Run, w: Bytes, w2: Bytes)
    requires Opens(w) && Opens(w2) && Swapped(s.rest, s2.rest, w, w2) && Words(s.marks) == Words(s2.marks)
    requires |s.rest| > |w| && |ReadToken(s).rest| >= |w|
    ensures s2.rest != [] && Swapped(ReadToken(s).rest, ReadToken(s2).rest, w, w2) && Words(ReadToken(s).marks) == Words(ReadToken(s2).marks)
  {
    hide *;
    RestSwapped(s, s2, w, w2);
    SameRead(s.rest, s2.rest, ReadToken(s).rest, ReadToken(s2).rest, w, w2);
    ReadMarks(s);
    ReadMarks(s2);
    WordsSnoc(s.marks, s2.marks, TextOf(s.rest[..|s.rest| - |ReadToken(s).rest|]), |s.rest|, |s2.rest|);
  }

  /** Whether something is skipped is decided by the next two bytes and the last mark. */
  lemma {:induction false} SkipsAlike(s: Run, s2: Run)
    requires |s.rest| > 1 && |s2.rest| > 1 && s.rest[0] == s2.rest[0] && s.rest[1] == s2.rest[1]
    requires RegexCanStart(s.marks) == RegexCanStart(s2.marks)
    ensures Skips(s) == Skips(s2)
  {}

  lemma {:induction false} ScanParallel(s: Run, s2: Run, w: Bytes, w2: Bytes)
    requires Alike(w, w2) && Parallel(s, s2, w, w2) && s.rest != [] && !Jumped(Scan(s), w)
    ensures s2.rest != [] && s2.rest[0] == s.rest[0] && Parallel(Scan(s), Scan(s2), w, w2)
  {
    hide Swapped;
    hide Words;
    SameLast(s.marks, s2.marks);
    hide RegexCanStart;
    if |w| in s.comments {
      ScanSame(s, s2);
    } else {
      SwappedTail(s.rest, s2.rest, w, w2);
      SkipsAlike(s, s2);
      if |s.rest| > |w| {
        ScanBefore(s, s2, w, w2);
      }
    }
  }

  /** A step that begins before w and does not jump over it. */
  lemma {:induction false} ScanBefore(s: Run, s2: Run, w: Bytes, w2: Bytes)
    requires Opens(w) && Opens(w2) && Swapped(s.rest, s2.rest, w, w2) && Words(s.marks) == Words(s2.marks)
    requires Skips(s) == Skips(s2) && |w| !in s.comments && s2.rest != []
    requires |s.rest| > |w| && !Jumped(Scan(s), w)
    ensures Parallel(Scan(s), Scan(s2), w, w2) && |w| !in Scan(s).comments
  {
    hide Swapped;
    hide Words;
    SameLast(s.marks, s2.marks);
    hide RegexCanStart;
    if Skips(s) {
      assert |w| !in Skip(s).comments;
      SkipSwapped(s, s2, w, w2);
    } else {
      hide Skips;
      TokenSwapped(s, s2, w, w2);
    }
  }

  /** On the same text only the last mark's text matters. */
  lemma {:induction false} ScanSame(s: Run, s2: Run)
    requires s.rest == s2.rest != [] && Words(s.marks) == Words(s2.marks)
    ensures Scan(s).rest == Scan(s2).rest && Words(Scan(s).marks) == Words(Scan(s2).marks) && s.comments <= Scan(s).comments
  {
    SameLast(s.marks, s2.marks);
    hide Words, TextOf, RegexCanStart;
    if !Skips(s) {
      var t, after := s.rest, ReadToken(s).rest;
      ReadMarks(s);
      ReadMarks(s2);
      WordsSnoc(s.marks, s2.marks, TextOf(t[..|t| - |after|]), |t|, |t|);
    }
  }

  lemma {:induction false} HeadParallel(s: Run, s2: Run, w: Bytes, w2: Bytes)
    requires Opens(w) && Opens(w2) && Parallel(s, s2, w, w2)
    ensures s.rest == [] <==> s2.rest == []
    ensures s.rest != [] ==> s.rest[0] == s2.rest[0]
    ensures |s.rest| > 1 <==> |s2.rest| > 1
    ensures |s.rest| > 1 ==> s.rest[1] == s2.rest[1]
  {
    if |w| !in s.comments { SwappedTail(s.rest, s2.rest, w, w2); }
  }

  function Drop(s: Run, n: nat): Run
    requires n <= |s.rest|
  {
    s.(rest := s.rest[n..])
  }

  lemma {:induction false} DropParallel(s: Run, s2: Run, n: nat, w: Bytes, w2: Bytes)
    requires Opens(w) && Opens(w2) && Parallel(s, s2, w, w2) && n <= 2 && n <= |s.rest| && !Jumped(Drop(s, n), w)
    ensures n <= |s2.rest| && Parallel(Drop(s, n), Drop(s2, n), w, w2)
  {
    if |w| !in s.comments {
      assert |w| <= |s.rest|;
      SwappedTail(s.rest, s2.rest, w, w2);
    }
  }

  lemma {:induction false} MarkedParallel(s: Run, s2: Run, text: Word, w: Bytes, w2: Bytes)
    requires Parallel(s, s2, w, w2)
    ensures Parallel(Marked(s, text), Marked(s2, text), w, w2)
  {
    WordsSnoc(s.marks, s2.marks, text, |s.rest|, |s2.rest|);
  }

  lemma {:induction false} CodeParallel(s: Run, s2: Run, inTemplate: bool, depth: nat, w: Bytes, w2: Bytes)
    requires Alike(w, w2) && Parallel(s, s2, w, w2) && !Jumped(Code(s, inTemplate, depth), w)
    ensures Parallel(Code(s, inTemplate, depth), Code(s2, inTemplate, depth), w, w2)
    decreases |s.rest|
  {
    hide Parallel;
    hide Jumped;
    hide Scan;
    HeadParallel(s, s2, w, w2);
    if s.rest == [] {
    } else if inTemplate && s.rest[0] == CLOSE_BRACE && depth == 0 {
      DropParallel(s, s2, 1, w, w2);
    } else if s.rest[0] == BACKQUOTE {
      var inside := Drop(s, 1);
      CodeUnjumped(Template(inside), inTemplate, depth, w);
      TemplateUnjumped(inside, w);
      DropParallel(s, s2, 1, w, w2);
      TemplateParallel(inside, Drop(s2, 1), w, w2);
      CodeParallel(Template(inside), Template(Drop(s2, 1)), inTemplate, depth, w, w2);
    } else {
      CodeUnjumped(Scan(s), inTemplate, Nested(s.rest[0], depth), w);
      ScanParallel(s, s2, w, w2);
      CodeParallel(Scan(s), Scan(s2), inTemplate, Nested(s.rest[0], depth), w, w2);
    }
  }

  lemma {:induction false} TemplateParallel(s: Run, s2: Run, w: Bytes, w2: Bytes)
    requires Alike(w, w2) && Parallel(s, s2, w, w2) && !Jumped(Template(s), w)
    ensures Parallel(Template(s), Template(s2), w, w2)
    decreases |s.rest|
  {
    hide Parallel;
    hide Jumped;
    HeadParallel(s, s2, w, w2);
    if s.rest == [] {
    } else if s.rest[0] == BACKSLASH {
      var n := if |s.rest| > 1 then 2 else 1;
      assert AfterEscape(s.rest) == s.rest[n..] && AfterEscape(s2.rest) == s2.rest[n..];
      TemplateUnjumped(Drop(s, n), w);
      DropParallel(s, s2, n, w, w2);
      TemplateParallel(Drop(s, n), Drop(s2, n), w, w2);
    } else if s.rest[0] == BACKQUOTE {
      DropParallel(s, s2, 1, w, w2);
    } else if Pair2(s.rest, DOLLAR, OPEN_BRACE) {
      SubstitutionParallel(s, s2, w, w2);
    } else {
      TemplateUnjumped(Drop(s, 1), w);
      DropParallel(s, s2, 1, w, w2);
      TemplateParallel(Drop(s, 1), Drop(s2, 1), w, w2);
    }
  }

  lemma {:induction false} MarkedUnjumped(s: Run, w: Bytes)
    requires !Jumped(Marked(s, [SEMICOLON]), w)
    ensures !Jumped(s, w)
  {}

  lemma {:induction false} SubstitutionParallel(s: Run, s2: Run, w: Bytes, w2: Bytes)
    requires Alike(w, w2) && Parallel(s, s2, w, w2) && !Jumped(Template(s), w)
    requires Pair2(s.rest, DOLLAR, OPEN_BRACE)
    ensures Parallel(Template(s), Template(s2), w, w2)
    decreases |s.rest|, 0
  {
    hide Parallel;
    hide Jumped;
    HeadParallel(s, s2, w, w2);
    var marked, marked2 := Marked(s, [SEMICOLON]), Marked(s2, [SEMICOLON]);
    var inner, inner2 := Code(Opened(s), true, 0), Code(Opened(s2), true, 0);
    assert Opened(s) == Drop(marked, 2) && Opened(s2) == Drop(marked2, 2);
    TemplateUnjumped(Marked(inner, [SEMICOLON]), w);
    MarkedUnjumped(inner, w);
    CodeUnjumped(Opened(s), true, 0, w);
    MarkedParallel(s, s2, [SEMICOLON], w, w2);
    DropParallel(marked, marked2, 2, w, w2);
    CodeParallel(Opened(s), Opened(s2), true, 0, w, w2);
    MarkedParallel(inner, inner2, [SEMICOLON], w, w2);
    TemplateParallel(Marked(inner, [SEMICOLON]), Marked(inner2, [SEMICOLON]), w, w2);
  }

  lemma {:induction false} CodeUnjumped(s: Run, inTemplate: bool, depth: nat, w: Bytes)
    requires !Jumped(Code(s, inTemplate, depth), w)
    ensures !Jumped(s, w)
  {
    CodeLater(s, inTemplate, depth);
    if Jumped(s, w) { JumpedForGood(s, Code(s, inTemplate, depth), w); }
  }

  lemma {:induction false} TemplateUnjumped(s: Run, w: Bytes)
    requires !Jumped(Template(s), w)
    ensures !Jumped(s, w)
  {
    TemplateLater(s);
    if Jumped(s, w) { JumpedForGood(s, Template(s), w); }
  }

  /** The tokens do not change when a skipped comment is replaced by one that ends at the same place. */
  lemma {:induction false} CommentsAreInterchangeable(a: Bytes, w: Bytes, w2: Bytes)
    requires Alike(w, w2) && |w| in Lex(a + w).comments
    ensures Words(Lex(a + w2).marks) == Words(Lex(a + w).marks)
  {
    var s, s2 := Run(a + w, [], []), Run(a + w2, [], []);
    assert Parallel(s, s2, w, w2);
    CodeParallel(s, s2, false, 0, w, w2);
  }

  /** No end of a comment inside. */
  predicate Inert(c: Bytes) { forall i :: 0 <= i < |c| - 1 ==> !(c[i] == STAR && c[i + 1] == SLASH) }

  function End(b: Bytes, ended: bool): Bytes { if ended then [STAR, SLASH] + b else [] }

  lemma {:induction false} InertTail(c: Bytes)
    requires Inert(c) && c != []
    ensures Inert(c[1..])
  {
    forall i | 0 <= i < |c[1..]| - 1 ensures !(c[1..][i] == STAR && c[1..][i + 1] == SLASH) {
      assert !(c[i + 1] == STAR && c[i + 1 + 1] == SLASH);
    }
  }

  lemma {:induction false} InertHead(c: Bytes, e: Bytes)
    requires Inert(c) && c != [] && (e != [] ==> e[0] == STAR)
    ensures !Pair2(c + e, STAR, SLASH) && (c + e)[1..] == c[1..] + e
  {
    if |c| > 1 { assert (c + e)[0] == c[0] && (c + e)[0 + 1] == c[0 + 1]; }
  }

  lemma {:induction false} InertSkipped(c: Bytes, b: Bytes, ended: bool)
    requires Inert(c)
    ensures AfterBlock(c + End(b, ended)) == if ended then b else []
    decreases |c|
  {
    var e := End(b, ended);
    if c == [] {
      assert c + e == e;
      assert ended ==> e[2..] == b;
    } else {
      InertHead(c, e);
      InertTail(c);
      hide Inert;
      InertSkipped(c[1..], b, ended);
    }
  }

  lemma {:induction false} InertAlike(c: Bytes, c2: Bytes, b: Bytes, ended: bool)
    requires Inert(c) && Inert(c2)
    ensures Alike([SLASH, STAR] + (c + End(b, ended)), [SLASH, STAR] + (c2 + End(b, ended)))
  {
    var e := End(b, ended);
    InertSkipped(c, b, ended);
    InertSkipped(c2, b, ended);
    hide AfterBlock;
    hide End;
    hide Inert;
    assert ([SLASH, STAR] + (c + e))[2..] == c + e;
    assert ([SLASH, STAR] + (c2 + e))[2..] == c2 + e;
  }

  /** Any text without the end of a comment may stand inside a skipped comment, also inside one that never ends. */
  lemma {:induction false} CommentContentsDoNotMatter(a: Bytes, c: Bytes, c2: Bytes, b: Bytes, ended: bool)
    requires Inert(c) && Inert(c2)
    requires 2 + |c + End(b, ended)| in Lex(a + ([SLASH, STAR] + (c + End(b, ended)))).comments
    ensures Words(Lex(a + ([SLASH, STAR] + (c2 + End(b, ended)))).marks) == Words(Lex(a + ([SLASH, STAR] + (c + End(b, ended)))).marks)
  {
    InertAlike(c, c2, b, ended);
    hide Alike;
    hide Lex;
    CommentsAreInterchangeable(a, [SLASH, STAR] + (c + End(b, ended)), [SLASH, STAR] + (c2 + End(b, ended)));
  }
}
