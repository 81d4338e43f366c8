/** Lexing, then parsing: the two cursors together compute the two functions together. */
module Frontend {
  import opened Ast
  import opened Parser
  import opened Lexer
  import opened Utf8
  import Descent

  datatype Answer = Parsed(select: Select) | Rejected

  function Meaning(g: Iql, lexed: LexResult): Answer {
    match lexed
    case LexErr(_) => Rejected
    case Tokens(ts) => match g.ParseStatement(ts) case Err(_) => Rejected case Ok(sel, _) => Parsed(sel)
  }

  predicate NoEof(ts: Ast.Tokens) { ts.Tok? ==> ts.head != Eof && NoEof(ts.tail) }

  /** No word is read as the end of the input. */
  ghost predicate Wordy(l: Lexis) { forall w :: l.word(w) != Eof }

  lemma {:induction false} LexNoEof(l: Lexis, s: string)
    requires Wordy(l)
    ensures l.Lex(s).Tokens? ==> NoEof(l.Lex(s).tokens)
    decreases |s|
  {
    var t := SkipBlank(s);
    if t != "" && l.NextToken(t).Scanned? {
      NextNotEof(l, t);
      LexNoEof(l, t[l.NextToken(t).n..]);
    }
  }

  lemma NextNotEof(l: Lexis, t: string)
    requires Wordy(l) && t != "" && l.NextToken(t).Scanned?
    ensures l.NextToken(t).token != Eof
  {
  }

  /** The parser sees through the vector what the lexer produced: no token is lost, and the
      closing Eof is the only one. */
  lemma {:induction false} VectorKeepsTokens(before: seq<Token>, ts: Ast.Tokens)
    requires NoEof(ts)
    ensures var v := before + Vector(ts);
            |v| > |before| && v[|v| - 1] == Eof && Descent.Remaining(v, |before|) == ts
    decreases ts
  {
    var v := before + Vector(ts);
    if ts.Tok? {
      VectorKeepsTokens(before + [ts.head], ts.tail);
      assert v == before + [ts.head] + Vector(ts.tail);
    }
  }

  lemma LexedVector(l: Lexis, r: LexResult, text: string)
    requires Wordy(l) && r == l.Lex(text) && r.Tokens?
    ensures var v := Vector(r.tokens);
            |v| > 0 && v[|v| - 1] == Eof && Descent.Remaining(v, 0) == r.tokens
  {
    LexNoEof(l, text);
    VectorKeepsTokens([], r.tokens);
    assert [] + Vector(r.tokens) == Vector(r.tokens);
  }

  method LexText(l: Lexis, text: string) returns (lexed: Lexer.Outcome)
    ensures lexed == OutcomeOf(l.Lex(text))
  {
    var scanner := new Scanner(l, text);
    lexed := scanner.Tokenise();
  }

  method ParseText(l: Lexis, g: Iql, text: string) returns (a: Answer)
    requires Wordy(l)
    ensures a == Meaning(g, l.Lex(text))
  {
    var lexed := LexText(l, text);
    if lexed.Failed? { return Rejected; }
    LexedVector(l, l.Lex(text), text);
    a := ParseTokens(g, lexed.tokens, l.Lex(text).tokens);
  }

  method ParseTokens(g: Iql, tokens: seq<Token>, ghost ts: Ast.Tokens) returns (a: Answer)
    requires |tokens| > 0 && tokens[|tokens| - 1] == Eof && Descent.Remaining(tokens, 0) == ts
    ensures a == Meaning(g, Tokens(ts))
  {
    var cursor := new Descent.Cursor(g, tokens);
    var r := cursor.ParseStatement();
    a := if r.Success? then Parsed(r.value) else Rejected;
  }

  /** The query language as it is configured reads words only. */
  lemma LexisWordy()
    ensures Wordy(LEXIS)
  {
    forall w ensures LEXIS.word(w) != Eof { assert WordToken(w) != Eof; }
  }

  /** The bytes of any text, with the keywords and intervals of IQL */
  method ParseIql(text: string) returns (a: Answer)
    ensures a == Meaning(IQL, LEXIS.Lex(Encode(text)))
  {
    LexisWordy();
    a := ParseText(LEXIS, IQL, Encode(text));
  }
}
