/**
 * `escape_xpath_string` (src/bot.py) turns a search text into an XPath 1.0 string
 * expression: a `Literal` (production [29] of section 3.7 of XPath 1.0) when one quote
 * kind is absent, otherwise a call of the `concat` function (section 4.2) that glues
 * the apostrophe-free pieces back together with `"'"` arguments.
 *
 * The module reads such expressions back (`Evaluate`) and proves that the escaped
 * string denotes exactly the text it was made from.
 */
module XPathLiteral {
  import opened Optional
  import opened Text

  const Apostrophe: char := '\''
  const DoubleQuote: char := '"'

  /** The glue `escape_xpath_string` puts between the pieces: `', "'", '`. */
  const PieceGlue: string := "', \"'\", '"

  /** `escape_xpath_string(text)`. */
  function EscapeXPathString(text: string): (r: string) {
    if Apostrophe !in text then [Apostrophe] + text + [Apostrophe]
    else if DoubleQuote !in text then [DoubleQuote] + text + [DoubleQuote]
    else "concat('" + Join(Split(text, Apostrophe), PieceGlue) + "')"
  }

  // ---------------------------------------------------------------------------
  // Reading XPath 1.0 string expressions: a Literal, or concat(Literal, Literal, ...)
  // ---------------------------------------------------------------------------

  /** ExprWhitespace of XPath 1.0: space, tab, carriage return, line feed. */
  predicate IsExprSpace(c: char) {
    c == ' ' || c == '\t' || c == '\r' || c == '\n'
  }

  function SkipSpace(s: string): (r: string)
    ensures |r| <= |s|
    ensures r == [] || !IsExprSpace(r[0])
  {
    if |s| > 0 && IsExprSpace(s[0]) then SkipSpace(s[1..]) else s
  }

  predicate IsQuote(c: char) {
    c == Apostrophe || c == DoubleQuote
  }

  /**
   * A Literal at the start of `s`: `"..."` holding no `"`, or `'...'` holding no `'`.
   * Gives the characters between the quotes and what follows the closing quote.
   */
  function ParseLiteral(s: string): (r: Option<(string, string)>)
    ensures r.Some? ==> |r.value.1| < |s|
  {
    if |s| > 0 && IsQuote(s[0]) && s[0] in s[1..] then
      var k := FirstIndex(s[1..], s[0]);
      Some((s[1..][..k], s[1..][k + 1..]))
    else None
  }

  /**
   * The rest of an argument list after `concat(`: Literal (`,` Literal)* `)`, with
   * ExprWhitespace allowed around every token. Gives the literals' values and what
   * follows the closing parenthesis.
   */
  function ParseArguments(s: string): (r: Option<(seq<string>, string)>)
    ensures r.Some? ==> |r.value.0| >= 1 && |r.value.1| < |s|
    decreases |s|
  {
    match ParseLiteral(SkipSpace(s))
    case None => None
    case Some((v, rest)) =>
      var t := SkipSpace(rest);
      if |t| > 0 && t[0] == ')' then Some(([v], t[1..]))
      else if |t| > 0 && t[0] == ',' then
        match ParseArguments(t[1..])
        case None => None
        case Some((vs, after)) => Some(([v] + vs, after))
      else None
  }

  /** The literal arguments of `e` when `e` is a call `concat(...)` and nothing more. */
  function ConcatArguments(e: string): Option<seq<string>> {
    var t := SkipSpace(e);
    if StartsWith(t, "concat") then
      var u := SkipSpace(t[6..]);
      if |u| > 0 && u[0] == '(' then
        match ParseArguments(u[1..])
        case Some((args, after)) => if SkipSpace(after) == [] then Some(args) else None
        case None => None
      else None
    else None
  }

  /**
   * The string an expression of the two accepted forms denotes; None for anything
   * else, including a `concat` with fewer than the two arguments XPath requires.
   */
  function Evaluate(e: string): Option<string> {
    var t := SkipSpace(e);
    if |t| > 0 && IsQuote(t[0]) then
      match ParseLiteral(t)
      case Some((v, after)) => if SkipSpace(after) == [] then Some(v) else None
      case None => None
    else
      match ConcatArguments(e)
      case Some(args) => if |args| >= 2 then Some(Join(args, "")) else None
      case None => None
  }

  // ---------------------------------------------------------------------------
  // The round trip
  // ---------------------------------------------------------------------------

  /** The arguments `escape_xpath_string` writes for the pieces: each piece, then `'` between neighbours. */
  function Interleave(pieces: seq<string>): (args: seq<string>)
    requires |pieces| >= 1
    ensures |args| == 2 * |pieces| - 1
  {
    if |pieces| == 1 then pieces else [pieces[0], [Apostrophe]] + Interleave(pieces[1..])
  }

  /** Even positions hold the pieces in order, odd positions a lone apostrophe. */
  lemma {:induction false} InterleaveAt(pieces: seq<string>, k: nat)
    requires |pieces| >= 1 && k < 2 * |pieces| - 1
    ensures Interleave(pieces)[k] == if k % 2 == 0 then pieces[k / 2] else [Apostrophe]
  {
    if k >= 2 {
      InterleaveAt(pieces[1..], k - 2);
    }
  }

  lemma FirstIndexAfter(a: string, c: char, b: string)
    requires c !in a
    ensures c in a + [c] + b && FirstIndex(a + [c] + b, c) == |a|
  {
    var s := a + [c] + b;
    assert s[|a|] == c;
    assert s[..|a|] == a;
  }

  lemma ParseQuoted(q: char, v: string, rest: string)
    requires IsQuote(q) && q !in v
    ensures ParseLiteral([q] + v + [q] + rest) == Some((v, rest))
  {
    var s := [q] + v + [q] + rest;
    assert s[1..] == v + [q] + rest;
    FirstIndexAfter(v, q, rest);
    assert s[1..][..|v|] == v;
    assert s[1..][|v| + 1..] == rest;
  }

  lemma SkipQuoted(s: string)
    requires |s| > 0 && IsQuote(s[0])
    ensures SkipSpace(s) == s
  {
  }

  /** A leading space before a literal argument is skipped. */
  lemma ArgumentsAfterSpace(s: string)
    requires |s| > 0 && IsQuote(s[0])
    ensures ParseArguments(" " + s) == ParseArguments(s)
  {
    assert (" " + s)[1..] == s;
    SkipQuoted(s);
  }

  /** A literal followed by `)` closes the argument list. */
  lemma LastArgument(q: char, v: string, after: string)
    requires IsQuote(q) && q !in v
    ensures ParseArguments([q] + v + [q] + ")" + after) == Some(([v], after))
  {
    var s := [q] + v + [q] + ")" + after;
    assert s == [q] + v + [q] + (")" + after);
    ParseQuoted(q, v, ")" + after);
    SkipQuoted(s);
    assert SkipSpace(")" + after) == ")" + after;
    assert (")" + after)[0] == ')' && (")" + after)[1..] == after;
  }

  /** A literal followed by `,` is the first of the arguments that follow. */
  lemma NextArgument(q: char, v: string, more: string, vs: seq<string>, after: string)
    requires IsQuote(q) && q !in v
    requires ParseArguments(more) == Some((vs, after))
    ensures ParseArguments([q] + v + [q] + "," + more) == Some(([v] + vs, after))
  {
    var s := [q] + v + [q] + "," + more;
    assert s == [q] + v + [q] + ("," + more);
    ParseQuoted(q, v, "," + more);
    SkipQuoted(s);
    assert SkipSpace("," + more) == "," + more;
    assert ("," + more)[0] == ',' && ("," + more)[1..] == more;
  }

  /** Where the glue between two pieces puts its quotes, commas and spaces. */
  lemma GlueLayout(p: string, j: string, tail: string)
    ensures "'" + (p + PieceGlue + j) + tail
            == [Apostrophe] + p + [Apostrophe] + ","
               + (" " + ([DoubleQuote] + [Apostrophe] + [DoubleQuote] + "," + (" " + ("'" + j + tail))))
  {
    assert PieceGlue == [Apostrophe] + "," + " " + [DoubleQuote] + [Apostrophe] + [DoubleQuote] + "," + " " + "'";
  }

  /** One piece and the glue after it put the piece and a lone apostrophe in front of the arguments that follow. */
  lemma ArgumentsStep(p: string, inner: string, args: seq<string>, after: string)
    requires Apostrophe !in p
    requires |inner| > 0 && inner[0] == Apostrophe
    requires ParseArguments(inner) == Some((args, after))
    ensures ParseArguments([Apostrophe] + p + [Apostrophe] + ","
                           + (" " + ([DoubleQuote] + [Apostrophe] + [DoubleQuote] + "," + (" " + inner))))
            == Some(([p, [Apostrophe]] + args, after))
  {
    var quoted := [DoubleQuote] + [Apostrophe] + [DoubleQuote] + "," + (" " + inner);
    ArgumentsAfterSpace(inner);
    NextArgument(DoubleQuote, [Apostrophe], " " + inner, args, after);
    assert ParseArguments(quoted) == Some(([[Apostrophe]] + args, after));
    ArgumentsAfterSpace(quoted);
    NextArgument(Apostrophe, p, " " + quoted, [[Apostrophe]] + args, after);
    assert [p] + ([[Apostrophe]] + args) == [p, [Apostrophe]] + args;
  }

  /** The argument list `escape_xpath_string` writes is read back as `Interleave(pieces)`. */
  lemma {:induction false} ParsePieces(pieces: seq<string>, after: string)
    requires |pieces| >= 1
    requires forall k :: 0 <= k < |pieces| ==> Apostrophe !in pieces[k]
    ensures ParseArguments("'" + Join(pieces, PieceGlue) + "')" + after)
            == Some((Interleave(pieces), after))
  {
    var p := pieces[0];
    if |pieces| == 1 {
      assert pieces == [p];
      assert "'" + p + "')" + after == [Apostrophe] + p + [Apostrophe] + ")" + after;
      LastArgument(Apostrophe, p, after);
    } else {
      var j := Join(pieces[1..], PieceGlue);
      var inner := "'" + j + ("')" + after);
      ParsePieces(pieces[1..], after);
      assert "'" + j + "')" + after == inner;
      assert Join(pieces, PieceGlue) == p + PieceGlue + j;
      GlueLayout(p, j, "')" + after);
      assert "'" + Join(pieces, PieceGlue) + "')" + after == "'" + (p + PieceGlue + j) + ("')" + after);
      ArgumentsStep(p, inner, Interleave(pieces[1..]), after);
    }
  }

  /** Gluing the interleaved arguments end to end is joining the pieces with apostrophes. */
  lemma {:induction false} InterleaveJoin(pieces: seq<string>)
    requires |pieces| >= 1
    ensures Join(Interleave(pieces), "") == Join(pieces, [Apostrophe])
  {
    if |pieces| > 1 {
      var rest := Interleave(pieces[1..]);
      var args := Interleave(pieces);
      assert args == [pieces[0]] + ([[Apostrophe]] + rest);
      assert args[1..] == [[Apostrophe]] + rest;
      assert args[1..][1..] == rest;
      calc {
        Join(args, "");
        pieces[0] + "" + Join(args[1..], "");
        pieces[0] + "" + ([Apostrophe] + "" + Join(rest, ""));
        { InterleaveJoin(pieces[1..]); }
        pieces[0] + [Apostrophe] + Join(pieces[1..], [Apostrophe]);
        Join(pieces, [Apostrophe]);
      }
    }
  }

  /** A call `concat(` followed by a complete argument list is read as those arguments. */
  lemma ReadConcatCall(e: string, body: string, args: seq<string>)
    requires e == "concat(" + body
    requires ParseArguments(body) == Some((args, ""))
    ensures ConcatArguments(e) == Some(args)
  {
    assert SkipSpace(e) == e by { assert e[0] == 'c'; }
    assert e[..6] == "concat";
    var u := e[6..];
    assert u == "(" + body;
    assert SkipSpace(u) == u by { assert u[0] == '('; }
    assert u[1..] == body;
  }

  /** The `concat` call written for apostrophe-free pieces is read back as their interleaving. */
  lemma ConcatOfPieces(pieces: seq<string>)
    requires |pieces| >= 1
    requires forall k :: 0 <= k < |pieces| ==> Apostrophe !in pieces[k]
    ensures ConcatArguments("concat('" + Join(pieces, PieceGlue) + "')") == Some(Interleave(pieces))
  {
    var joined := Join(pieces, PieceGlue);
    ClosedPieces(pieces);
    ConcatCallText(joined);
    ReadConcatCall("concat('" + joined + "')", "'" + joined + "')", Interleave(pieces));
  }

  /** The whole argument list, with nothing after its closing parenthesis. */
  lemma ClosedPieces(pieces: seq<string>)
    requires |pieces| >= 1
    requires forall k :: 0 <= k < |pieces| ==> Apostrophe !in pieces[k]
    ensures ParseArguments("'" + Join(pieces, PieceGlue) + "')") == Some((Interleave(pieces), ""))
  {
    ParsePieces(pieces, "");
    assert "'" + Join(pieces, PieceGlue) + "')" + "" == "'" + Join(pieces, PieceGlue) + "')";
  }

  lemma ConcatCallText(joined: string)
    ensures "concat('" + joined + "')" == "concat(" + ("'" + joined + "')")
  {
  }

  /** The `concat` form has one argument per piece and one `"'"` argument per apostrophe. */
  lemma EscapeConcatArguments(text: string)
    requires Apostrophe in text && DoubleQuote in text
    ensures ConcatArguments(EscapeXPathString(text)) == Some(Interleave(Split(text, Apostrophe)))
  {
    ConcatOfPieces(Split(text, Apostrophe));
  }

  /** There are at least three arguments: a text holding an apostrophe splits in two or more pieces. */
  lemma EscapeConcatArgumentCount(text: string)
    requires Apostrophe in text
    ensures |Interleave(Split(text, Apostrophe))| == 2 * Count(text, Apostrophe) + 1 >= 3
  {
    SplitLength(text, Apostrophe);
    CountZero(text, Apostrophe);
  }

  /**
   * The three forms: a text with no apostrophe becomes one apostrophe-quoted Literal, a
   * text with an apostrophe but no double quote one double-quoted Literal, and a text
   * with both a `concat` call of the interleaved pieces.
   */
  lemma EscapeForms(text: string)
    ensures Apostrophe !in text ==>
              EscapeXPathString(text)[0] == Apostrophe && ParseLiteral(EscapeXPathString(text)) == Some((text, ""))
    ensures Apostrophe in text && DoubleQuote !in text ==>
              EscapeXPathString(text)[0] == DoubleQuote && ParseLiteral(EscapeXPathString(text)) == Some((text, ""))
    ensures Apostrophe in text && DoubleQuote in text ==>
              ConcatArguments(EscapeXPathString(text)) == Some(Interleave(Split(text, Apostrophe)))
  {
    if Apostrophe !in text {
      assert EscapeXPathString(text) == [Apostrophe] + text + [Apostrophe] + "";
      ParseQuoted(Apostrophe, text, "");
    } else if DoubleQuote !in text {
      assert EscapeXPathString(text) == [DoubleQuote] + text + [DoubleQuote] + "";
      ParseQuoted(DoubleQuote, text, "");
    } else {
      EscapeConcatArguments(text);
    }
  }

  /** The escaped string, read as an XPath 1.0 expression, denotes exactly the input. */
  lemma EscapeRoundTrip(text: string)
    ensures Evaluate(EscapeXPathString(text)) == Some(text)
  {
    var e := EscapeXPathString(text);
    if Apostrophe !in text {
      assert e == [Apostrophe] + text + [Apostrophe] + "";
      ParseQuoted(Apostrophe, text, "");
      SkipQuoted(e);
    } else if DoubleQuote !in text {
      assert e == [DoubleQuote] + text + [DoubleQuote] + "";
      ParseQuoted(DoubleQuote, text, "");
      SkipQuoted(e);
    } else {
      EscapeConcatArguments(text);
      EscapeConcatArgumentCount(text);
      assert SkipSpace(e) == e && e[0] == 'c';
      InterleaveJoin(Split(text, Apostrophe));
      JoinSplit(text, Apostrophe);
    }
  }
}
