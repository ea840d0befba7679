/** Uses of the builder as its tests exercise it, and the behaviours its
    design promises across several calls, each proved from the methods'
    contracts alone. */
module Usage {
  import opened Types
  import Commander
  import Utils
  import Execution
  import Display

  /** A bare flag is stored with its label and no value. */
  method AddParamBare() returns (p: Param)
    ensures p == Param("a", None)
  {
    var c := Utils.NewCommand("test");
    c := c.AddParam("a", []);
    p := c.params[0];
  }

  /** A valued flag keeps its first value. */
  method AddParamValued() returns (p: Param)
    ensures p == Param("a", Some("b"))
  {
    var c := Utils.NewCommand("test");
    c := c.AddParam("a", ["b", "ignored"]);
    p := c.params[0];
  }

  /** Adding one sink to a fresh command gives a list of one. */
  method AddOneSink(w: Sink) returns (outs: nat, errs: nat)
    ensures outs == 1 && errs == 1
  {
    var c := Utils.NewCommand("test");
    c := c.AddStdout(w);
    c := c.AddStderr(w);
    outs, errs := |c.stdout|, |c.stderr|;
  }

  /** Setting a sink discards the ones added before; adding one after
      setting keeps the set one; neither turns on mirroring. */
  method SetThenAdd(w1: Sink, w2: Sink, w3: Sink) returns (sinks: seq<Sink>, mirrored: bool)
    ensures sinks == [w2, w3]
    ensures !mirrored
  {
    var c := Utils.NewCommand("test");
    c := c.AddStdout(w1);
    c := c.SetStdout(w2);
    c := c.AddStdout(w3);
    sinks, mirrored := c.stdout, c.stdoutEnabled;
  }

  /** Setting the same key twice keeps only the last value. */
  method SetEnvironmentTwice(key: string, first: string, last: string) returns (m: map<string, string>)
    ensures m == map[key := last]
  {
    var c := Utils.NewCommand("test");
    c := c.SetEnvironment(key, first);
    c := c.SetEnvironment(key, last);
    m := c.environment;
  }

  /** A fresh command renders as its invocation and a semicolon. */
  method RenderFresh(invocation: string, oneLine: seq<bool>) returns (s: string)
    ensures s == invocation + ";"
  {
    var c := Utils.NewCommand(invocation);
    s := c.GetAsString(oneLine);
  }

  method LabelledCommand() returns (c: Commander.Command)
    ensures fresh(c)
    ensures c.invocation == "test"
    ensures c.params == [
      Param("--label1", None),
      Param("--label2", Some("value2")),
      Param("--label3", Some("\"value3\"")),
      Param("--label4", Some("value 4")),
      Param("--label5", Some("\"value 5\""))]
  {
    c := Utils.NewCommand("test");
    c := c.AddParam("--label1", []);
    c := c.AddParam("--label2", ["value2"]);
    c := c.AddParam("--label3", ["\"value3\""]);
    c := c.AddParam("--label4", ["value 4"]);
    c := c.AddParam("--label5", ["\"value 5\""]);
  }

  /** The tokens of the five flags: a value with a space is quoted, one
      without is printed as it is, quotes included. */
  lemma LabelledTokens(params: seq<Param>)
    requires params == [
      Param("--label1", None),
      Param("--label2", Some("value2")),
      Param("--label3", Some("\"value3\"")),
      Param("--label4", Some("value 4")),
      Param("--label5", Some("\"value 5\""))]
    ensures Display.Tokens(params) == ["--label1", "--label2 value2", "--label3 \"value3\"", "--label4 \"value 4\"", "--label5 \"\"value 5\"\""]
  {
    UnquotedToken("--label2", "value2");
    UnquotedToken("--label3", "\"value3\"");
    QuotedToken("--label4", "value 4", 5);
    QuotedToken("--label5", "\"value 5\"", 6);
    TokensFive(params, "--label1", "--label2" + " " + "value2", "--label3" + " " + "\"value3\"",
               "--label4" + " " + "\"" + "value 4" + "\"", "--label5" + " " + "\"" + "\"value 5\"" + "\"");
    LabelledTokenTexts();
  }

  lemma LabelledTokenTexts()
    ensures ["--label1", "--label2" + " " + "value2", "--label3" + " " + "\"value3\"",
             "--label4" + " " + "\"" + "value 4" + "\"", "--label5" + " " + "\"" + "\"value 5\"" + "\""]
         == ["--label1", "--label2 value2", "--label3 \"value3\"", "--label4 \"value 4\"", "--label5 \"\"value 5\"\""]
  {
    assert "--label2" + " " + "value2" == "--label2 value2";
    assert "--label3" + " " + "\"value3\"" == "--label3 \"value3\"";
    assert "--label4" + " " + "\"" + "value 4" + "\"" == "--label4 \"value 4\"";
    assert "--label5" + " " + "\"" + "\"value 5\"" + "\"" == "--label5 \"\"value 5\"\"";
  }

  lemma TokensFive(params: seq<Param>, t0: string, t1: string, t2: string, t3: string, t4: string)
    requires |params| == 5
    requires Display.Token(params[0]) == t0 && Display.Token(params[1]) == t1 && Display.Token(params[2]) == t2
    requires Display.Token(params[3]) == t3 && Display.Token(params[4]) == t4
    ensures Display.Tokens(params) == [t0, t1, t2, t3, t4]
  {
  }

  lemma UnquotedToken(key: string, v: string)
    requires forall i :: 0 <= i < |v| ==> v[i] != ' '
    ensures Display.Token(Param(key, Some(v))) == key + " " + v
  {
  }

  lemma QuotedToken(key: string, v: string, i: nat)
    requires i < |v| && v[i] == ' '
    ensures Display.Token(Param(key, Some(v))) == key + " " + "\"" + v + "\""
  {
  }

  /** `Prefixed` over five tokens, unrolled. */
  lemma PrefixedFive(d: string, t0: string, t1: string, t2: string, t3: string, t4: string)
    ensures Display.Prefixed(d, [t0, t1, t2, t3, t4]) == d + t0 + d + t1 + d + t2 + d + t3 + d + t4
  {
    assert [t0, t1, t2, t3, t4][1..] == [t1, t2, t3, t4];
    assert [t1, t2, t3, t4][1..] == [t2, t3, t4];
    assert [t2, t3, t4][1..] == [t3, t4];
    assert [t3, t4][1..] == [t4];
    assert [t4][1..] == [];
    assert Display.Prefixed(d, [t4]) == d + t4;
    assert Display.Prefixed(d, [t3, t4]) == d + t3 + (d + t4);
    assert Display.Prefixed(d, [t2, t3, t4]) == d + t2 + (d + t3 + (d + t4));
    assert Display.Prefixed(d, [t1, t2, t3, t4]) == d + t1 + (d + t2 + (d + t3 + (d + t4)));
    assert Display.Prefixed(d, [t0, t1, t2, t3, t4]) == d + t0 + (d + t1 + (d + t2 + (d + t3 + (d + t4))));
  }

  /** Five tokens render as the invocation, each token after a delimiter,
      and the semicolon. */
  lemma RenderFive(invocation: string, params: seq<Param>, oneLine: seq<bool>,
                   t0: string, t1: string, t2: string, t3: string, t4: string)
    requires Display.Tokens(params) == [t0, t1, t2, t3, t4]
    ensures var d := Display.Delimiter(oneLine);
      Display.Render(invocation, params, oneLine)
      == invocation + (d + t0 + d + t1 + d + t2 + d + t3 + d + t4) + ";"
  {
    Display.RenderIsDelimitedTokens(invocation, params, oneLine);
    PrefixedFive(Display.Delimiter(oneLine), t0, t1, t2, t3, t4);
  }

  /** The multi-line rendering of five flags: a value with a space is quoted,
      and a quoted value with a space is quoted again without escaping. */
  method RenderMultiLine() returns (s: string)
    ensures var d := Display.MultiLineDelimiter;
      s == "test" + (d + "--label1" + d + "--label2 value2" + d + "--label3 \"value3\""
                     + d + "--label4 \"value 4\"" + d + "--label5 \"\"value 5\"\"") + ";"
  {
    var c := LabelledCommand();
    s := c.GetAsString([]);
    LabelledTokens(c.params);
    RenderFive("test", c.params, [], "--label1", "--label2 value2", "--label3 \"value3\"", "--label4 \"value 4\"", "--label5 \"\"value 5\"\"");
  }

  /** The same five flags on one line. */
  method RenderOneLine() returns (s: string)
    ensures var d := Display.OneLineDelimiter;
      s == "test" + (d + "--label1" + d + "--label2 value2" + d + "--label3 \"value3\""
                     + d + "--label4 \"value 4\"" + d + "--label5 \"\"value 5\"\"") + ";"
  {
    var c := LabelledCommand();
    s := c.GetAsString([true]);
    LabelledTokens(c.params);
    RenderFive("test", c.params, [true], "--label1", "--label2 value2", "--label3 \"value3\"", "--label4 \"value 4\"", "--label5 \"\"value 5\"\"");
  }

  /** Executing twice with standard output mirrored wires the caller's
      standard output into the second child twice. */
  method ExecuteTwiceMirrored(os: Os) returns (first: Output, second: Output)
    requires os.getwd == Success("/work")
    requires os.lstat == map["/work" := true]
    requires os.lookPath == Success("/bin/ls")
    ensures first.launched.Some? && first.launched.value.stdout == [OsStdout, CaptureStdout]
    ensures second.launched.Some? && second.launched.value.stdout == [OsStdout, OsStdout, CaptureStdout]
  {
    var c := Utils.NewCommand("ls");
    c := c.EnableStdout();
    ghost var order;
    first, order := c.Execute(os);
    second, order := c.Execute(os);
  }
}
