/** The assertions that the TypeScript rules forbid, found among the tokens of a file. */
module TypeScriptRules {
  import opened Wire
  import opened TypeScriptLexer
  import opened TypeScriptTokens
  import opened TypeScriptComments

  const AS := Ascii("as")
  const ANY := Ascii("any")
  const UNKNOWN := Ascii("unknown")
  const LESS := Ascii("<")
  const GREATER := Ascii(">")

  datatype Rule = ThroughUnknown | ToAny | AngleAny

  datatype Finding = Finding(line: nat, column: nat, rule: Rule)

  predicate LikelyText(words: seq<Bytes>, i: nat)
    requires i < |words|
  {
    i > 0 && words[i - 1] == GREATER
  }

  /** The rule is broken at this token. */
  predicate Breaks(words: seq<Bytes>, jsx: bool, i: nat, rule: Rule)
    requires i < |words|
  {
    match rule
    case ThroughUnknown =>
      words[i] == AS && i + 2 < |words| && words[i + 1] == UNKNOWN && words[i + 2] == AS && !LikelyText(words, i)
    case ToAny => words[i] == AS && i + 1 < |words| && words[i + 1] == ANY && !LikelyText(words, i)
    case AngleAny => !jsx && words[i] == LESS && i + 2 < |words| && words[i + 1] == ANY && words[i + 2] == GREATER
  }

  /** The rules broken at one token. */
  function BrokenAt(words: seq<Bytes>, jsx: bool, i: nat): seq<(nat, Rule)>
    requires i < |words|
  {
    (if Breaks(words, jsx, i, ThroughUnknown) then [(i, ThroughUnknown)] else [])
    + (if Breaks(words, jsx, i, ToAny) then [(i, ToAny)] else [])
    + (if Breaks(words, jsx, i, AngleAny) then [(i, AngleAny)] else [])
  }

  /** The broken rules with the index of their token, in order. */
  function Broken(words: seq<Bytes>, jsx: bool, n: nat): seq<(nat, Rule)>
    requires n <= |words|
  {
    if n == 0 then [] else Broken(words, jsx, n - 1) + BrokenAt(words, jsx, n - 1)
  }

  function Reported(data: Bytes, jsx: bool): seq<(nat, Rule)> {
    var words := Words(Lex(data).marks);
    Broken(words, jsx, |words|)
  }

  lemma {:induction false} BrokenAtMeans(words: seq<Bytes>, jsx: bool, n: nat, i: nat, rule: Rule)
    requires n < |words|
    ensures (i, rule) in BrokenAt(words, jsx, n) <==> i == n && Breaks(words, jsx, i, rule)
  {
    hide Breaks;
  }

  /** Exactly the broken rules are found. */
  lemma {:induction false} BrokenMeans(words: seq<Bytes>, jsx: bool, n: nat, i: nat, rule: Rule)
    requires n <= |words|
    ensures (i, rule) in Broken(words, jsx, n) <==> i < n && Breaks(words, jsx, i, rule)
  {
    hide BrokenAt, Breaks;
    if n > 0 {
      BrokenMeans(words, jsx, n - 1, i, rule);
      BrokenAtMeans(words, jsx, n - 1, i, rule);
    }
  }

  /** What stands in a comment neither hides a finding nor makes one. */
  lemma {:induction false} CommentsAreNotChecked(a: Bytes, c: Bytes, c2: Bytes, b: Bytes, ended: bool, jsx: bool)
    requires Inert(c) && Inert(c2)
    requires 2 + |c + End(b, ended)| in Lex(a + ([SLASH, STAR] + (c + End(b, ended)))).comments
    ensures Reported(a + ([SLASH, STAR] + (c2 + End(b, ended))), jsx) == Reported(a + ([SLASH, STAR] + (c + End(b, ended))), jsx)
  {
    hide Broken;
    CommentContentsDoNotMatter(a, c, c2, b, ended);
  }

  /** Findings with the place of their token. */
  function Located(tokens: seq<Token>, found: seq<(nat, Rule)>): seq<Finding> {
    seq(|found|, k requires 0 <= k < |found| =>
      if found[k].0 < |tokens| then Finding(tokens[found[k].0].line, tokens[found[k].0].column, found[k].1) else Finding(0, 0, found[k].1))
  }

  lemma {:induction false} LocatedAppend(tokens: seq<Token>, found: seq<(nat, Rule)>, more: seq<(nat, Rule)>)
    ensures Located(tokens, found + more) == Located(tokens, found) + Located(tokens, more)
  {}

  method CheckToken(tokens: seq<Token>, jsx: bool, i: nat, ghost words: seq<Bytes>) returns (findings: seq<Finding>)
    requires i < |tokens| == |words| && forall k :: 0 <= k < |tokens| ==> words[k] == tokens[k].text
    ensures findings == Located(tokens, BrokenAt(words, jsx, i))
  {
    findings := [];
    if tokens[i].text == AS && i + 2 < |tokens| && tokens[i + 1].text == UNKNOWN && tokens[i + 2].text == AS &&
       !(i > 0 && tokens[i - 1].text == GREATER) {
      findings := findings + [Finding(tokens[i].line, tokens[i].column, ThroughUnknown)];
    }
    if tokens[i].text == AS && i + 1 < |tokens| && tokens[i + 1].text == ANY && !(i > 0 && tokens[i - 1].text == GREATER) {
      findings := findings + [Finding(tokens[i].line, tokens[i].column, ToAny)];
    }
    if !jsx && tokens[i].text == LESS && i + 2 < |tokens| && tokens[i + 1].text == ANY && tokens[i + 2].text == GREATER {
      findings := findings + [Finding(tokens[i].line, tokens[i].column, AngleAny)];
    }
  }

  lemma {:induction false} NothingLocated(tokens: seq<Token>)
    ensures Located(tokens, []) == []
  {}

  /** The findings of one file. */
  method CheckFile(data: Bytes, jsx: bool) returns (findings: seq<Finding>)
    ensures findings == Located(Placed(data, Lex(data).marks), Reported(data, jsx))
  {
    var tokens := LexTypeScript(data);
    ghost var words := Words(Lex(data).marks);
    hide Lex, BrokenAt, Located;
    findings := [];
    NothingLocated(tokens);
    var i := 0;
    while i < |tokens|
      invariant 0 <= i <= |tokens| && findings == Located(tokens, Broken(words, jsx, i))
    {
      var found := CheckToken(tokens, jsx, i, words);
      LocatedAppend(tokens, Broken(words, jsx, i), BrokenAt(words, jsx, i));
      findings := findings + found;
      i := i + 1;
    }
  }
}
