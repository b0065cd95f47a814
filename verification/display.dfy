/**
 * `_cmd_to_display_string`: the one-line rendering of an argument vector
 * shown in the command preview boxes, and a reader that takes such a line
 * apart again the way a shell splits words.
 */
module Display {
  import opened Text

  /** Characters that make an element be shown in double quotes, besides the space. */
  const Specials: set<char> := {'&', '|', '<', '>', '(', ')', '"'}

  /** Empty, holding a space, or holding one of the special characters. */
  predicate NeedsQuotes(e: string) {
    e == [] || ' ' in e || exists i :: 0 <= i < |e| && e[i] in Specials
  }

  function Render(e: string): string {
    if NeedsQuotes(e) then "\"" + e + "\"" else e
  }

  function RenderAll(cmd: seq<string>): (parts: seq<string>)
    ensures |parts| == |cmd|
    ensures forall i :: 0 <= i < |cmd| ==> parts[i] == Render(cmd[i])
  {
    if cmd == [] then [] else [Render(cmd[0])] + RenderAll(cmd[1..])
  }

  /** Every element rendered, separated by single spaces. */
  function DisplayString(cmd: seq<string>): string {
    JoinWith(RenderAll(cmd), ' ')
  }

  // ---------------------------------------------------------------------
  // Reading a preview line back.
  // ---------------------------------------------------------------------

  /**
   * One word from the front of `s`: a double-quoted word runs to the next
   * double quote, any other word to the next space. Returns the word and
   * what follows it.
   */
  function ReadWord(s: string): (r: (string, string))
    requires s != []
    ensures |r.1| < |s|
  {
    if s[0] == '"' then
      var j := IndexOf(s[1..], '"');
      if j < |s| - 1 then (s[1..1 + j], s[j + 2..]) else (s[1..], [])
    else
      var j := IndexOf(s, ' ');
      if j == 0 then ([], s[1..]) else (s[..j], s[j..])
  }

  /** The words of a non-empty line, each separated from the next by one space. */
  function WordsFrom(s: string): seq<string>
    requires s != []
    decreases |s|
  {
    var (w, rest) := ReadWord(s);
    if |rest| >= 2 && rest[0] == ' ' then [w] + WordsFrom(rest[1..]) else [w]
  }

  function Words(s: string): seq<string> {
    if s == [] then [] else WordsFrom(s)
  }

  /** A rendered element is read back as itself, when it holds no double quote. */
  lemma ReadRendered(e: string, rest: string)
    requires '"' !in e
    requires rest == [] || rest[0] == ' '
    ensures Render(e) + rest != []
    ensures ReadWord(Render(e) + rest) == (e, rest)
  {
    if NeedsQuotes(e) {
      ReadQuoted(e, rest);
    } else {
      ReadPlain(e, rest);
    }
  }

  lemma ReadQuoted(e: string, rest: string)
    requires '"' !in e
    ensures ReadWord("\"" + e + "\"" + rest) == (e, rest)
  {
    var s := "\"" + e + "\"" + rest;
    assert s == "\"" + (e + ("\"" + rest));
    assert s[1..] == e + ("\"" + rest);
    IndexOfBoundary(e, "\"" + rest, '"');
    assert s[1..1 + |e|] == e;
    assert s[|e| + 2..] == rest;
  }

  lemma ReadPlain(e: string, rest: string)
    requires e != [] && ' ' !in e && e[0] != '"'
    requires rest == [] || rest[0] == ' '
    ensures ReadWord(e + rest) == (e, rest)
  {
    var s := e + rest;
    IndexOfBoundary(e, rest, ' ');
    assert s[..|e|] == e;
    assert s[|e|..] == rest;
  }

  lemma RenderNotEmpty(e: string)
    ensures |Render(e)| >= 1
  {
  }

  /**
   * A preview line reads back as the vector it shows, when no element holds
   * a double quote: quoting keeps spaces inside elements and empty elements
   * visible.
   */
  lemma {:induction false} ReadBack(cmd: seq<string>)
    requires forall i :: 0 <= i < |cmd| ==> '"' !in cmd[i]
    ensures Words(DisplayString(cmd)) == cmd
  {
    if cmd != [] {
      ReadBackFrom(cmd);
    }
  }

  lemma {:induction false} ReadBackFrom(cmd: seq<string>)
    requires cmd != []
    requires forall i :: 0 <= i < |cmd| ==> '"' !in cmd[i]
    ensures DisplayString(cmd) != []
    ensures WordsFrom(DisplayString(cmd)) == cmd
    decreases |cmd|
  {
    var parts := RenderAll(cmd);
    if |cmd| == 1 {
      ReadRendered(cmd[0], []);
      assert DisplayString(cmd) == Render(cmd[0]) + [];
    } else {
      var tail := DisplayString(cmd[1..]);
      assert RenderAll(cmd[1..]) == parts[1..];
      assert DisplayString(cmd) == Render(cmd[0]) + ([' '] + tail);
      ReadBackFrom(cmd[1..]);
      RenderNotEmpty(cmd[1]);
      assert |tail| >= 1;
      ReadRendered(cmd[0], [' '] + tail);
      assert ([' '] + tail)[1..] == tail;
    }
  }

  /**
   * With double quotes inside elements the preview is ambiguous: one element
   * and two different elements can show as the same line.
   */
  lemma NotInjective()
    ensures DisplayString(["a b\" \"(c"]) == DisplayString(["a b", "(c"])
    ensures ["a b\" \"(c"] != ["a b", "(c"]
  {
    assert NeedsQuotes("a b") by { assert "a b"[1] == ' '; }
    assert NeedsQuotes("(c") by { assert "(c"[0] in Specials; }
    QuotedPair("a b", "(c");
    assert "a b" + "\" \"" + "(c" == "a b\" \"(c";
  }

  /**
   * Two elements that both need quotes show as the one element made of the
   * first, a closing quote, a space, an opening quote and the second.
   */
  lemma QuotedPair(a: string, b: string)
    requires NeedsQuotes(a) && NeedsQuotes(b)
    ensures DisplayString([a + "\" \"" + b]) == DisplayString([a, b])
  {
    var q := "\"";
    var e := a + (q + ([' '] + (q + b)));
    assert a + "\" \"" + b == e;
    assert NeedsQuotes(e) by { assert e[|a| + 1] == ' '; }
    assert RenderAll([e]) == [Render(e)];
    assert RenderAll([a, b]) == [Render(a), Render(b)] by {
      assert [a, b][1..] == [b];
    }
    assert JoinWith([Render(a), Render(b)], ' ') == Render(a) + [' '] + Render(b) by {
      assert [Render(a), Render(b)][1..] == [Render(b)];
    }
    assert q + e + q == (q + a + q) + [' '] + (q + b + q);
  }
}
