/** internal/hcl.go: CreateHeredoc, which turns a text into the raw tokens of
    an HCL heredoc, optionally escaping the template sequences in it. */
module Hcl {
  import opened GoStrings
  import opened HclWrite

  // ---------------------------------------------------------------------
  // Escaping

  /** The escaping CreateHeredoc asks for, in one left-to-right pass: every
      "${" becomes "$${", every "%{" becomes "%%{", and every other rune is
      kept. */
  function Escape(t: string): string
    decreases |t|
  {
    if |t| < 2 then t
    else if t[0] == '$' && t[1] == '{' then "$${" + Escape(t[2..])
    else if t[0] == '%' && t[1] == '{' then "%%{" + Escape(t[2..])
    else [t[0]] + Escape(t[1..])
  }

  /** How HCL reads literal template text back: "$${" stands for "${" and
      "%%{" for "%{", scanning left to right. */
  function Unescape(s: string): string
    decreases |s|
  {
    if |s| < 3 then s
    else if s[0] == '$' && s[1] == '$' && s[2] == '{' then "${" + Unescape(s[3..])
    else if s[0] == '%' && s[1] == '%' && s[2] == '{' then "%{" + Unescape(s[3..])
    else [s[0]] + Unescape(s[1..])
  }

  /** The two strings.ReplaceAll calls of CreateHeredoc, one after the other,
      do exactly the one-pass escaping: the first call never creates a "%{"
      for the second to see. */
  lemma {:induction false} EscapeTwoPasses(t: string)
    ensures ReplaceAll(ReplaceAll(t, "${", "$${"), "%{", "%%{") == Escape(t)
    decreases |t|
  {
    var p1, r1, p2, r2 := "${", "$${", "%{", "%%{";
    ReplaceAllStep(t, p1, r1);
    if |t| < 2 {
      ReplaceAllStep(t, p2, r2);
    } else if t[0] == '$' && t[1] == '{' {
      var rest := ReplaceAll(t[2..], p1, r1);
      assert ReplaceAll(t, p1, r1) == r1 + rest;
      ReplaceAllConcat(r1, rest, p2, r2);
      ReplaceAllAbsent(r1, p2, r2);
      EscapeTwoPasses(t[2..]);
    } else if t[0] == '%' && t[1] == '{' {
      var rest := ReplaceAll(t[2..], p1, r1);
      ReplaceAllStep(t[1..], p1, r1);
      ReplaceAllStep(t[2..], p1, r1);
      assert t[1..][1..] == t[2..];
      assert ReplaceAll(t, p1, r1) == "%{" + rest;
      var s := "%{" + rest;
      assert s[2..] == rest;
      ReplaceAllStep(s, p2, r2);
      EscapeTwoPasses(t[2..]);
    } else {
      var rest := ReplaceAll(t[1..], p1, r1);
      ReplaceAllHead(t[1..], p1, r1);
      assert ReplaceAll(t, p1, r1) == [t[0]] + rest;
      ReplaceAllConcat([t[0]], rest, p2, r2);
      ReplaceAllStep([t[0]], p2, r2);
      EscapeTwoPasses(t[1..]);
    }
  }

  lemma {:induction false} EscapeLength(t: string)
    ensures |Escape(t)| >= |t|
    decreases |t|
  {
    if |t| >= 2 {
      EscapeLength(t[1..]);
      EscapeLength(t[2..]);
    }
  }

  /** Escaping keeps the first rune, and the second one unless the text
      starts with an escaped sequence (then the first rune is doubled). */
  lemma EscapeFront(t: string)
    ensures |t| > 0 ==> |Escape(t)| > 0 && Escape(t)[0] == t[0]
    ensures |t| >= 2 ==>
      (|Escape(t)| >= 2 && Escape(t)[1] == (if (t[0] == '$' || t[0] == '%') && t[1] == '{' then t[0] else t[1]))
  {
    if |t| >= 2 && !((t[0] == '$' || t[0] == '%') && t[1] == '{') {
      EscapeLength(t[1..]);
      assert t[1..][0] == t[1];
      EscapeFront(t[1..]);
    }
  }

  /** Reading escaped text back gives the original text. */
  lemma {:induction false} UnescapeEscape(t: string)
    ensures Unescape(Escape(t)) == t
    decreases |t|
  {
    if |t| < 2 {
    } else if t[0] == '$' && t[1] == '{' {
      var e := Escape(t[2..]);
      assert ("$${" + e)[3..] == e;
      UnescapeEscape(t[2..]);
      assert "${" + t[2..] == t;
    } else if t[0] == '%' && t[1] == '{' {
      var e := Escape(t[2..]);
      assert ("%%{" + e)[3..] == e;
      UnescapeEscape(t[2..]);
      assert "%{" + t[2..] == t;
    } else {
      var e := Escape(t[1..]);
      var s := [t[0]] + e;
      assert Escape(t) == s;
      EscapeLength(t[1..]);
      EscapeFront(t[1..]);
      UnescapeEscape(t[1..]);
      if |s| < 3 {
        assert |t[1..]| < 2;
        assert e == t[1..];
      } else {
        assert s[1..] == e;
        assert s[1] == t[1];
        if |t| >= 3 {
          assert t[1..][1] == t[2];
        }
        assert !(s[0] == '$' && s[1] == '$' && s[2] == '{');
        assert !(s[0] == '%' && s[1] == '%' && s[2] == '{');
      }
      assert [t[0]] + t[1..] == t;
    }
  }

  // ---------------------------------------------------------------------
  // Token layouts

  const NewlineToken := Token(Newline, "\n")

  /** The heredoc's text after the optional escaping. */
  function Body(text: string, escapeSequences: bool): string {
    if escapeSequences then Escape(text) else text
  }

  /** For each line, a literal token with its bytes and a newline token. */
  function LineTokens(lines: seq<string>): (r: seq<Token>)
    ensures |r| == 2 * |lines|
  {
    if |lines| == 0 then []
    else LineTokens(lines[..|lines| - 1]) + [Token(QuotedLit, lines[|lines| - 1]), NewlineToken]
  }

  /** Line k sits at position 2k, and a newline token after it. */
  lemma {:induction false} LineTokensAt(lines: seq<string>, k: int)
    requires 0 <= k < |lines|
    ensures LineTokens(lines)[2 * k] == Token(QuotedLit, lines[k])
    ensures LineTokens(lines)[2 * k + 1] == NewlineToken
    decreases |lines|
  {
    var init := lines[..|lines| - 1];
    if k < |lines| - 1 {
      LineTokensAt(init, k);
    }
  }

  /** The tokens CreateHeredoc returns. A marker with a leading '-' (an
      indented heredoc) puts each line in its own literal token; any other
      marker puts the whole text, framed by newlines, in one literal. */
  function Heredoc(text: string, heredocMarker: string, escapeSequences: bool): seq<Token> {
    var body := Body(text, escapeSequences);
    [Token(OHeredoc, "<<" + heredocMarker)]
    + (if HasPrefix(heredocMarker, "-") then [NewlineToken] + LineTokens(Split(body, '\n'))
       else [Token(QuotedLit, "\n" + body + "\n")])
    + [Token(CHeredoc, TrimPrefix(heredocMarker, "-"))]
  }

  method CreateHeredoc(text: string, heredocMarker: string, escapeSequences: bool) returns (tokens: seq<Token>)
    ensures tokens == Heredoc(text, heredocMarker, escapeSequences)
  {
    var body := text;
    if escapeSequences {
      body := ReplaceAll(body, "${", "$${");
      body := ReplaceAll(body, "%{", "%%{");
      EscapeTwoPasses(text);
    }
    assert body == Body(text, escapeSequences);
    var nlWithIndent := NewlineToken;
    tokens := [Token(OHeredoc, "<<" + heredocMarker)];
    if HasPrefix(heredocMarker, "-") {
      tokens := tokens + [nlWithIndent];
      var lines := Split(body, '\n');
      for i := 0 to |lines|
        invariant tokens == [Token(OHeredoc, "<<" + heredocMarker), nlWithIndent] + LineTokens(lines[..i])
      {
        assert lines[..i + 1][..i] == lines[..i];
        tokens := tokens + [Token(QuotedLit, lines[i]), nlWithIndent];
      }
      assert lines[..|lines|] == lines;
      assert tokens == [Token(OHeredoc, "<<" + heredocMarker)] + ([NewlineToken] + LineTokens(lines));
    } else {
      tokens := tokens + [Token(QuotedLit, "\n" + body + "\n")];
    }
    tokens := tokens + [Token(CHeredoc, TrimPrefix(heredocMarker, "-"))];
  }

  /** The bytes of the literal tokens, in order. */
  function Literals(tokens: seq<Token>): seq<string> {
    if |tokens| == 0 then []
    else (if tokens[0].kind == QuotedLit then [tokens[0].bytes] else []) + Literals(tokens[1..])
  }

  /** All the tokens' bytes, in order: what hclwrite writes for them, before
      indentation. */
  function Bytes(tokens: seq<Token>): string {
    if |tokens| == 0 then "" else tokens[0].bytes + Bytes(tokens[1..])
  }

  lemma LiteralsOne(t: Token)
    ensures Literals([t]) == if t.kind == QuotedLit then [t.bytes] else []
  {
    assert [t][1..] == [];
  }

  lemma BytesOne(t: Token)
    ensures Bytes([t]) == t.bytes
  {
    assert [t][1..] == [];
  }

  lemma {:induction false} LiteralsConcat(a: seq<Token>, b: seq<Token>)
    ensures Literals(a + b) == Literals(a) + Literals(b)
    decreases |a|
  {
    if |a| == 0 {
      assert a + b == b;
    } else {
      assert (a + b)[1..] == a[1..] + b;
      LiteralsConcat(a[1..], b);
    }
  }

  lemma {:induction false} BytesConcat(a: seq<Token>, b: seq<Token>)
    ensures Bytes(a + b) == Bytes(a) + Bytes(b)
    decreases |a|
  {
    if |a| == 0 {
      assert a + b == b;
    } else {
      assert (a + b)[1..] == a[1..] + b;
      BytesConcat(a[1..], b);
    }
  }

  lemma {:induction false} LineTokensLiterals(lines: seq<string>)
    ensures Literals(LineTokens(lines)) == lines
    decreases |lines|
  {
    if |lines| > 0 {
      var init := lines[..|lines| - 1];
      var last := lines[|lines| - 1];
      var q := Token(QuotedLit, last);
      var pair := [q, NewlineToken];
      assert LineTokens(lines) == LineTokens(init) + pair;
      LineTokensLiterals(init);
      LiteralsConcat(LineTokens(init), pair);
      assert pair == [q] + [NewlineToken];
      LiteralsConcat([q], [NewlineToken]);
      LiteralsOne(q);
      LiteralsOne(NewlineToken);
      assert Literals(pair) == [last];
      assert init + [last] == lines;
    }
  }

  /** Each line is followed by a newline, so the bytes are the joined lines
      and one more newline. */
  lemma {:induction false} LineTokensBytes(lines: seq<string>)
    requires |lines| >= 1
    ensures Bytes(LineTokens(lines)) == Join(lines, '\n') + "\n"
    decreases |lines|
  {
    var init := lines[..|lines| - 1];
    var last := lines[|lines| - 1];
    BytesConcat(LineTokens(init), [Token(QuotedLit, last), NewlineToken]);
    BytesConcat([Token(QuotedLit, last)], [NewlineToken]);
    BytesOne(Token(QuotedLit, last));
    BytesOne(NewlineToken);
    assert init + [last] == lines;
    if |init| == 0 {
      assert Join(lines, '\n') == last;
    } else {
      LineTokensBytes(init);
      JoinSnoc(init, '\n', last);
    }
  }

  // ---------------------------------------------------------------------
  // Properties of the token layouts

  /** The heredoc opens with "<<" and the marker and closes with the marker
      less one leading '-'. */
  lemma HeredocFrame(text: string, heredocMarker: string, escapeSequences: bool)
    ensures var t := Heredoc(text, heredocMarker, escapeSequences);
      |t| >= 3
      && t[0] == Token(OHeredoc, "<<" + heredocMarker)
      && t[|t| - 1] == Token(CHeredoc, TrimPrefix(heredocMarker, "-"))
  {
  }

  /** Without a leading '-', the heredoc is three tokens and the literal is
      the whole text between two newlines. */
  lemma HeredocPlain(text: string, heredocMarker: string, escapeSequences: bool)
    requires !HasPrefix(heredocMarker, "-")
    ensures Heredoc(text, heredocMarker, escapeSequences) ==
      [Token(OHeredoc, "<<" + heredocMarker),
       Token(QuotedLit, "\n" + Body(text, escapeSequences) + "\n"),
       Token(CHeredoc, heredocMarker)]
  {
  }

  /** With a leading '-', a newline token follows the opener, then for each
      line of the text a literal and a newline: 2 * (lines) + 3 tokens. */
  lemma HeredocIndented(text: string, heredocMarker: string, escapeSequences: bool)
    requires HasPrefix(heredocMarker, "-")
    ensures var t := Heredoc(text, heredocMarker, escapeSequences);
      var body := Body(text, escapeSequences);
      var lines := Split(body, '\n');
      && |t| == 2 * (Count(body, '\n') + 1) + 3
      && t[1] == NewlineToken
      && (forall k :: 0 <= k < |lines| ==>
            t[2 + 2 * k] == Token(QuotedLit, lines[k]) && t[3 + 2 * k] == NewlineToken)
      && t[|t| - 1] == Token(CHeredoc, heredocMarker[1..])
  {
    var t := Heredoc(text, heredocMarker, escapeSequences);
    var lines := Split(Body(text, escapeSequences), '\n');
    var lt := LineTokens(lines);
    forall k | 0 <= k < |lines|
      ensures t[2 + 2 * k] == Token(QuotedLit, lines[k]) && t[3 + 2 * k] == NewlineToken
    {
      LineTokensAt(lines, k);
      assert t[2 + 2 * k] == lt[2 * k];
      assert t[3 + 2 * k] == lt[2 * k + 1];
    }
  }

  lemma LiteralsFrame(o: Token, mid: seq<Token>, c: Token)
    requires o.kind != QuotedLit && c.kind != QuotedLit
    ensures Literals([o] + mid + [c]) == Literals(mid)
  {
    LiteralsConcat([o] + mid, [c]);
    LiteralsConcat([o], mid);
    LiteralsOne(o);
    LiteralsOne(c);
  }

  /** With a leading '-', joining the literal tokens with '\n' gives back the
      (escaped) text exactly. */
  lemma HeredocIndentedLiterals(text: string, heredocMarker: string, escapeSequences: bool)
    requires HasPrefix(heredocMarker, "-")
    ensures Join(Literals(Heredoc(text, heredocMarker, escapeSequences)), '\n') == Body(text, escapeSequences)
  {
    var body := Body(text, escapeSequences);
    var lines := Split(body, '\n');
    var o := Token(OHeredoc, "<<" + heredocMarker);
    var c := Token(CHeredoc, TrimPrefix(heredocMarker, "-"));
    var lt := LineTokens(lines);
    var mid := [NewlineToken] + lt;
    assert Heredoc(text, heredocMarker, escapeSequences) == [o] + mid + [c];
    LiteralsFrame(o, mid, c);
    LiteralsConcat([NewlineToken], lt);
    LiteralsOne(NewlineToken);
    LineTokensLiterals(lines);
    assert Literals(mid) == lines;
    JoinSplit(body, '\n');
  }

  lemma BytesFrame(o: Token, mid: seq<Token>, c: Token)
    ensures Bytes([o] + mid + [c]) == o.bytes + Bytes(mid) + c.bytes
  {
    BytesConcat([o] + mid, [c]);
    BytesConcat([o], mid);
    BytesOne(o);
    BytesOne(c);
  }

  /** Both layouts write the same bytes: the opener, a newline, the (escaped)
      text, a newline and the closing marker. */
  lemma HeredocBytes(text: string, heredocMarker: string, escapeSequences: bool)
    ensures Bytes(Heredoc(text, heredocMarker, escapeSequences)) ==
      "<<" + heredocMarker + "\n" + Body(text, escapeSequences) + "\n" + TrimPrefix(heredocMarker, "-")
  {
    var body := Body(text, escapeSequences);
    var o := Token(OHeredoc, "<<" + heredocMarker);
    var c := Token(CHeredoc, TrimPrefix(heredocMarker, "-"));
    var mid;
    if HasPrefix(heredocMarker, "-") {
      mid := [NewlineToken] + LineTokens(Split(body, '\n'));
      IndentedMiddleBytes(body);
    } else {
      var t := Token(QuotedLit, "\n" + body + "\n");
      mid := [t];
      BytesOne(t);
    }
    assert Heredoc(text, heredocMarker, escapeSequences) == [o] + mid + [c];
    BytesFrame(o, mid, c);
    assert Bytes(mid) == "\n" + body + "\n";
  }

  /** The bytes between the opener and the closer of an indented heredoc. */
  lemma IndentedMiddleBytes(body: string)
    ensures Bytes([NewlineToken] + LineTokens(Split(body, '\n'))) == "\n" + body + "\n"
  {
    var lines := Split(body, '\n');
    var lt := LineTokens(lines);
    BytesConcat([NewlineToken], lt);
    BytesOne(NewlineToken);
    LineTokensBytes(lines);
    JoinSplit(body, '\n');
    assert Bytes([NewlineToken] + lt) == "\n" + (body + "\n");
  }

  /** With escaping and a leading '-', reading the literal lines back as HCL
      template text gives the original text. */
  lemma HeredocRoundTrip(text: string, heredocMarker: string)
    requires HasPrefix(heredocMarker, "-")
    ensures Unescape(Join(Literals(Heredoc(text, heredocMarker, true)), '\n')) == text
  {
    HeredocIndentedLiterals(text, heredocMarker, true);
    UnescapeEscape(text);
  }

  /** An empty text under a dash marker still gives one (empty) literal
      line. */
  lemma HeredocEmptyIndented(heredocMarker: string, escapeSequences: bool)
    requires HasPrefix(heredocMarker, "-")
    ensures Heredoc("", heredocMarker, escapeSequences) ==
      [Token(OHeredoc, "<<" + heredocMarker), NewlineToken, Token(QuotedLit, ""), NewlineToken,
       Token(CHeredoc, heredocMarker[1..])]
  {
  }

  // ---------------------------------------------------------------------
  // The examples of internal/hcl_test.go

  /** Text without '{' needs no escaping. */
  lemma {:induction false} EscapeFree(t: string)
    requires '{' !in t
    ensures Escape(t) == t
    decreases |t|
  {
    if |t| >= 2 {
      assert t[1] in t;
      assert forall c :: c in t[1..] ==> c in t;
      EscapeFree(t[1..]);
      assert [t[0]] + t[1..] == t;
    }
  }

  /** Escaping distributes over a concatenation when no "${" or "%{" straddles
      the seam. */
  lemma {:induction false} EscapeConcat(x: string, y: string)
    requires !(|x| > 0 && (x[|x| - 1] == '$' || x[|x| - 1] == '%') && |y| > 0 && y[0] == '{')
    ensures Escape(x + y) == Escape(x) + Escape(y)
    decreases |x|
  {
    var s := x + y;
    if |x| == 0 {
      assert s == y;
    } else if |y| == 0 {
      assert s == x;
    } else if |x| == 1 {
      assert s[0] == x[0] && s[1] == y[0] && s[1..] == y;
    } else if (x[0] == '$' || x[0] == '%') && x[1] == '{' {
      assert s[0] == x[0] && s[1] == x[1] && s[2..] == x[2..] + y;
      EscapeConcat(x[2..], y);
    } else {
      assert s[0] == x[0] && s[1] == x[1] && s[1..] == x[1..] + y;
      EscapeConcat(x[1..], y);
    }
  }

  /** heredocText of the test, as two pieces: the template sequence "${a}"
      is escaped and nothing else changes. */
  lemma EscapeExample(a: string, b: string)
    requires a == "This\nis\n" && b == "${a}\n  test"
    ensures Escape(a + b) == "This\nis\n$${a}\n  test"
  {
    EscapeConcat(a, b);
    EscapeFree(a);
    var rest := b[2..];
    assert rest == "a}\n  test";
    EscapeFree(rest);
    assert Escape(b) == "$${" + rest;
    EscapedText(a, rest);
  }

  lemma EscapedText(a: string, rest: string)
    requires a == "This\nis\n" && rest == "a}\n  test"
    ensures a + ("$${" + rest) == "This\nis\n$${a}\n  test"
  {
  }

  /** "generates a heredoc without a dash": for any text, the bytes are
      "<<EOF\n", the text, "\nEOF". */
  lemma HeredocPlainExample(text: string)
    ensures Bytes(Heredoc(text, "EOF", false)) == "<<EOF\n" + text + "\nEOF"
  {
    var m := "EOF";
    HeredocBytes(text, m, false);
    assert m[..1] != "-" by { assert m[..1][0] == 'E'; }
  }

  lemma DashMarker(m: string)
    requires m == "-EOF"
    ensures HasPrefix(m, "-") && TrimPrefix(m, "-") == "EOF"
  {
    assert m[..1] == "-";
    assert m[1..] == "EOF";
  }

  lemma IndentedExampleBytes(m: string, e: string, c: string)
    requires m == "-EOF" && e == "This\nis\n$${a}\n  test" && c == "EOF"
    ensures "<<" + m + "\n" + e + "\n" + c == "<<-EOF\n" + "This\nis\n$${a}\n  test" + "\nEOF"
  {
  }

  /** "generates a heredoc with a dash": the escaped text between "<<-EOF\n"
      and "\nEOF" (the indentation the test also expects comes from
      hclwrite's formatter). */
  lemma HeredocIndentedExample(a: string, b: string, m: string)
    requires a == "This\nis\n" && b == "${a}\n  test" && m == "-EOF"
    ensures Bytes(Heredoc(a + b, m, true)) == "<<-EOF\n" + "This\nis\n$${a}\n  test" + "\nEOF"
  {
    HeredocBytes(a + b, m, true);
    EscapeExample(a, b);
    DashMarker(m);
    IndentedExampleBytes(m, Escape(a + b), TrimPrefix(m, "-"));
  }
}
