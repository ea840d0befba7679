/** The display rendering of a command (`GetAsString`): the invocation, then
    one delimiter and one token per parameter, then a semicolon. */
module Display {
  import opened Types

  const MultiLineDelimiter: string := " \\\n  "
  const OneLineDelimiter: string := " "

  /** The delimiter chosen by the variadic `oneLine` flag: single-line only
      when a first flag is given and it is true. */
  function Delimiter(oneLine: seq<bool>): (d: string)
    ensures d == OneLineDelimiter <==> |oneLine| > 0 && oneLine[0]
    ensures d == MultiLineDelimiter <==> !(|oneLine| > 0 && oneLine[0])
  {
    if |oneLine| > 0 && oneLine[0] then OneLineDelimiter else MultiLineDelimiter
  }

  /** `strings.ReplaceAll(v, "\"", "\\\"")`: every double quote preceded by a
      backslash. The source computes it and discards the result. */
  function EscapeQuotes(v: string): (r: string)
  {
    if v == [] then []
    else (if v[0] == '"' then "\\\"" else [v[0]]) + EscapeQuotes(v[1..])
  }

  /** A value as it is printed: wrapped in double quotes when it contains a
      space, otherwise verbatim. Quotes inside it are never escaped. */
  function PrintedValue(v: string): string
  {
    if ' ' in v then "\"" + v + "\"" else v
  }

  /** What one parameter contributes after its delimiter. */
  function Token(p: Param): string
  {
    match p.value
    case None => p.key
    case Some(v) => p.key + " " + PrintedValue(v)
  }

  /** The parameters as the loop writes them, one delimiter and token each. */
  function Body(delimiter: string, params: seq<Param>): string
  {
    if params == [] then ""
    else Body(delimiter, params[..|params| - 1]) + delimiter + Token(params[|params| - 1])
  }

  /** One step of the rendering loop: writing parameter `i`'s piece after
      the first `i` parameters' rendering renders the first `i + 1`. */
  lemma BodyStep(prefix: string, written: string, delimiter: string, params: seq<Param>, i: nat, piece: string)
    requires i < |params|
    requires written == prefix + Body(delimiter, params[..i])
    requires piece == delimiter + Token(params[i])
    ensures written + piece == prefix + Body(delimiter, params[..i + 1])
  {
    assert params[..i + 1][..i] == params[..i];
    Associate(prefix, Body(delimiter, params[..i]), delimiter, Token(params[i]));
  }

  lemma Associate(a: string, b: string, c: string, d: string)
    ensures (a + b) + (c + d) == a + ((b + c) + d)
  {
  }

  /** The whole rendering of `GetAsString(oneLine...)`. */
  function Render(invocation: string, params: seq<Param>, oneLine: seq<bool>): string
  {
    invocation + Body(Delimiter(oneLine), params) + ";"
  }

  // ---------------------------------------------------------------------
  // A reference definition: the token list, each token prefixed by the
  // delimiter, joined from the front.

  function Tokens(params: seq<Param>): (ts: seq<string>)
    ensures |ts| == |params|
    ensures forall i :: 0 <= i < |params| ==> ts[i] == Token(params[i])
  {
    seq(|params|, i requires 0 <= i < |params| => Token(params[i]))
  }

  function Prefixed(delimiter: string, ts: seq<string>): string
  {
    if ts == [] then "" else delimiter + ts[0] + Prefixed(delimiter, ts[1..])
  }

  lemma {:induction false} PrefixedSnoc(delimiter: string, ts: seq<string>, t: string)
    ensures Prefixed(delimiter, ts + [t]) == Prefixed(delimiter, ts) + delimiter + t
  {
    if ts == [] {
      assert ts + [t] == [t];
    } else {
      assert (ts + [t])[1..] == ts[1..] + [t];
      PrefixedSnoc(delimiter, ts[1..], t);
    }
  }

  /** Both modes render the same tokens, in parameter order, and differ only
      in the delimiter written before each token. */
  lemma {:induction false} RenderIsDelimitedTokens(invocation: string, params: seq<Param>, oneLine: seq<bool>)
    ensures Render(invocation, params, oneLine)
         == invocation + Prefixed(Delimiter(oneLine), Tokens(params)) + ";"
  {
    BodyIsPrefixedTokens(Delimiter(oneLine), params);
  }

  lemma TokensSnoc(params: seq<Param>)
    requires params != []
    ensures Tokens(params) == Tokens(params[..|params| - 1]) + [Token(params[|params| - 1])]
  {
    var init := params[..|params| - 1];
    assert forall i :: 0 <= i < |init| ==> init[i] == params[i];
  }

  lemma {:induction false} BodyIsPrefixedTokens(delimiter: string, params: seq<Param>)
    ensures Body(delimiter, params) == Prefixed(delimiter, Tokens(params))
  {
    if params != [] {
      var init := params[..|params| - 1];
      var last := params[|params| - 1];
      BodyIsPrefixedTokens(delimiter, init);
      TokensSnoc(params);
      PrefixedSnoc(delimiter, Tokens(init), Token(last));
      assert Body(delimiter, params) == Body(delimiter, init) + delimiter + Token(last);
    }
  }

  /** The rendering starts with the invocation and ends with the semicolon;
      with no parameters it is exactly the two. */
  lemma RenderFrame(invocation: string, params: seq<Param>, oneLine: seq<bool>)
    ensures var r := Render(invocation, params, oneLine);
      |r| > |invocation| && r[..|invocation|] == invocation && r[|r| - 1] == ';'
    ensures params == [] ==> Render(invocation, params, oneLine) == invocation + ";"
  {
  }

  /** A printed value holds the value verbatim, unescaped, and is wrapped in
      quotes exactly when the value contains a space. */
  lemma PrintedValueVerbatim(v: string)
    ensures var q := if ' ' in v then 1 else 0;
      |PrintedValue(v)| == |v| + 2 * q && PrintedValue(v)[q..q + |v|] == v
    ensures ' ' in v <==> PrintedValue(v) != v
    ensures ' ' in v ==> PrintedValue(v)[0] == '"' && PrintedValue(v)[|v| + 1] == '"'
  {
  }

  /** The discarded escaping step would have changed every value holding a
      quote, and so would the printed value: what is printed is the value
      with its quotes unescaped. */
  lemma {:induction false} EscapeIsDiscarded(v: string)
    requires '"' in v
    ensures EscapeQuotes(v) != v
    ensures PrintedValue(v) != PrintedValue(EscapeQuotes(v))
  {
    EscapeLengthGrows(v);
    EscapeKeepsSpace(v);
    PrintedValueVerbatim(v);
    PrintedValueVerbatim(EscapeQuotes(v));
  }

  /** Escaping neither adds nor removes spaces. */
  lemma {:induction false} EscapeKeepsSpace(v: string)
    ensures ' ' in EscapeQuotes(v) <==> ' ' in v
  {
    if v != [] {
      EscapeKeepsSpace(v[1..]);
      var head := if v[0] == '"' then "\\\"" else [v[0]];
      assert EscapeQuotes(v) == head + EscapeQuotes(v[1..]);
      assert ' ' in v <==> v[0] == ' ' || ' ' in v[1..];
      assert ' ' in head <==> v[0] == ' ';
    }
  }

  lemma {:induction false} EscapeLengthGrows(v: string)
    ensures |EscapeQuotes(v)| >= |v|
    ensures '"' in v ==> |EscapeQuotes(v)| > |v|
  {
    if v != [] {
      EscapeLengthGrows(v[1..]);
      if v[0] != '"' {
        assert '"' in v ==> '"' in v[1..];
      }
    }
  }

  // ---------------------------------------------------------------------
  // Line structure of the two modes.

  function Count(s: string, c: char): nat
  {
    if s == [] then 0 else (if s[0] == c then 1 else 0) + Count(s[1..], c)
  }

  lemma {:induction false} CountConcat(a: string, b: string, c: char)
    ensures Count(a + b, c) == Count(a, c) + Count(b, c)
  {
    if a != [] {
      assert (a + b)[0] == a[0];
      assert (a + b)[1..] == a[1..] + b;
      CountConcat(a[1..], b, c);
    } else {
      assert a + b == b;
    }
  }

  lemma {:induction false} CountAbsent(s: string, c: char)
    requires c !in s
    ensures Count(s, c) == 0
  {
    if s != [] {
      CountAbsent(s[1..], c);
    }
  }

  ghost predicate NoNewline(invocation: string, params: seq<Param>)
  {
    && '\n' !in invocation
    && (forall i :: 0 <= i < |params| ==> '\n' !in params[i].key)
    && (forall i :: 0 <= i < |params| ==> params[i].value.Some? ==> '\n' !in params[i].value.value)
  }

  /** When no label, value or invocation holds a newline, the single-line
      mode renders one line and the multi-line mode one line per parameter
      more. */
  lemma {:induction false} RenderLines(invocation: string, params: seq<Param>)
    requires NoNewline(invocation, params)
    ensures Count(Render(invocation, params, [true]), '\n') == 0
    ensures Count(Render(invocation, params, []), '\n') == |params|
  {
    RenderCount(invocation, params, [true]);
    RenderCount(invocation, params, []);
    assert Count(OneLineDelimiter, '\n') == 0;
    assert Count(MultiLineDelimiter, '\n') == 1;
  }

  lemma {:induction false} RenderCount(invocation: string, params: seq<Param>, oneLine: seq<bool>)
    requires NoNewline(invocation, params)
    ensures Count(Render(invocation, params, oneLine), '\n') == |params| * Count(Delimiter(oneLine), '\n')
  {
    var body := Body(Delimiter(oneLine), params);
    CountAbsent(invocation, '\n');
    CountAbsent(";", '\n');
    BodyLines(Delimiter(oneLine), params);
    CountConcat(invocation, body, '\n');
    CountConcat(invocation + body, ";", '\n');
  }

  lemma {:induction false} BodyLines(delimiter: string, params: seq<Param>)
    requires NoNewline("", params)
    ensures Count(Body(delimiter, params), '\n') == |params| * Count(delimiter, '\n')
  {
    if params != [] {
      var init := params[..|params| - 1];
      var last := params[|params| - 1];
      var n := Count(delimiter, '\n');
      assert NoNewline("", init) by {
        forall i | 0 <= i < |init| ensures init[i] == params[i] { }
      }
      BodyLines(delimiter, init);
      TokenLines(last);
      var prior := Body(delimiter, init);
      assert Body(delimiter, params) == prior + delimiter + Token(last);
      CountConcat(prior, delimiter, '\n');
      CountConcat(prior + delimiter, Token(last), '\n');
      MulStep(|init|, n);
    }
  }

  lemma MulStep(k: nat, n: nat)
    ensures k * n + n == (k + 1) * n
  {
  }

  lemma TokenLines(p: Param)
    requires '\n' !in p.key
    requires p.value.Some? ==> '\n' !in p.value.value
    ensures Count(Token(p), '\n') == 0
  {
    CountAbsent(Token(p), '\n');
  }
}
