/**
 * `_append_to_log`: the log box receives every message at its end and then
 * drops its oldest lines so that at most 2000 complete lines stay above
 * the line being written.
 */
module LogView {

  const MaxLines := 2000

  /** The number of line breaks in `s`. */
  function Newlines(s: string): nat {
    if s == [] then 0 else (if s[0] == '\n' then 1 else 0) + Newlines(s[1..])
  }

  /** The line number Tk reports for the last character of a box holding `s`. */
  function LineCount(s: string): nat {
    Newlines(s) + 1
  }

  /** The text after the first `k` line breaks: Tk's `delete("1.0", "<k+1>.0")`. */
  function DropLines(s: string, k: nat): string
    requires k <= Newlines(s)
    decreases |s|
  {
    if k == 0 then s
    else if s[0] == '\n' then DropLines(s[1..], k - 1)
    else DropLines(s[1..], k)
  }

  /** `u` is what is left of `w` after deleting whole lines from its start. */
  ghost predicate LineSuffix(w: string, u: string) {
    && |u| <= |w|
    && w[|w| - |u|..] == u
    && (|u| == |w| || w[|w| - |u| - 1] == '\n')
  }

  /**
   * The box after `message` is appended to `content`: everything, or, when
   * the last line would be numbered above 2000, the text after the oldest
   * line breaks, leaving 2000 of them.
   */
  function Append(content: string, message: string): (r: string)
    ensures LineSuffix(content + message, r)
    ensures LineCount(r) == if LineCount(content + message) <= MaxLines + 1 then LineCount(content + message) else MaxLines + 1
  {
    var text := content + message;
    var n := LineCount(text);
    if n > MaxLines then
      DropLinesSpec(text, n - MaxLines - 1);
      DropLines(text, n - MaxLines - 1)
    else text
  }

  // ---------------------------------------------------------------------
  // Line breaks
  // ---------------------------------------------------------------------

  lemma {:induction false} NewlinesAppend(a: string, b: string)
    ensures Newlines(a + b) == Newlines(a) + Newlines(b)
    decreases |a|
  {
    if a == [] {
      assert a + b == b;
    } else {
      assert (a + b)[0] == a[0];
      assert (a + b)[1..] == a[1..] + b;
      NewlinesAppend(a[1..], b);
    }
  }

  /** Text ending in a line break holds at least one. */
  lemma EndsInBreak(p: string)
    requires p != [] && p[|p| - 1] == '\n'
    ensures Newlines(p) >= 1
  {
    var last := [p[|p| - 1]];
    assert p == p[..|p| - 1] + last;
    NewlinesAppend(p[..|p| - 1], last);
    assert Newlines(last) == 1 by {
      assert last[1..] == [];
    }
  }

  // ---------------------------------------------------------------------
  // Line suffixes
  // ---------------------------------------------------------------------

  /** Dropping the first character keeps a line suffix of the rest a line suffix. */
  lemma LineSuffixStep(s: string, u: string)
    requires s != [] && LineSuffix(s[1..], u)
    requires |u| < |s| - 1 || s[0] == '\n'
    ensures LineSuffix(s, u)
  {
    var t := s[1..];
    assert s[|s| - |u|..] == t[|t| - |u|..];
    if |u| < |t| {
      assert s[|s| - |u| - 1] == t[|t| - |u| - 1];
    }
  }

  /** Dropping `k` lines leaves a line suffix with `k` fewer line breaks. */
  lemma {:induction false} DropLinesSpec(s: string, k: nat)
    requires k <= Newlines(s)
    ensures LineSuffix(s, DropLines(s, k))
    ensures Newlines(DropLines(s, k)) == Newlines(s) - k
    decreases |s|
  {
    if k > 0 {
      var r := DropLines(s, k);
      var t := s[1..];
      if s[0] == '\n' {
        DropLinesSpec(t, k - 1);
        LineSuffixStep(s, r);
      } else {
        DropLinesSpec(t, k);
        assert r != t;
        LineSuffixStep(s, r);
      }
    }
  }

  lemma LineSuffixTransitive(w: string, u: string, v: string)
    requires LineSuffix(w, u) && LineSuffix(u, v)
    ensures LineSuffix(w, v)
  {
    if |v| < |u| {
      assert w[|w| - |v| - 1] == u[|u| - |v| - 1];
    }
    assert w[|w| - |v|..] == u[|u| - |v|..];
  }

  /** Of two line suffixes of one text, the longer holds more line breaks. */
  lemma Longer(w: string, u: string, v: string)
    requires LineSuffix(w, u) && LineSuffix(w, v) && |u| < |v|
    ensures Newlines(u) < Newlines(v)
  {
    var p := v[..|v| - |u|];
    assert v == p + u by {
      assert v[|v| - |u|..] == w[|w| - |u|..];
    }
    assert p[|p| - 1] == w[|w| - |u| - 1];
    EndsInBreak(p);
    NewlinesAppend(p, u);
  }

  /** Line suffixes of one text are told apart by their number of line breaks. */
  lemma LineSuffixUnique(w: string, u: string, v: string)
    requires LineSuffix(w, u) && LineSuffix(w, v)
    requires Newlines(u) == Newlines(v)
    ensures u == v
  {
    if |u| < |v| {
      Longer(w, u, v);
    } else if |v| < |u| {
      Longer(w, v, u);
    }
  }

  /**
   * The box holds exactly the newest whole lines that fit: any line suffix
   * of everything written with the same line count is the box.
   */
  lemma NewestLines(content: string, message: string, u: string)
    requires LineSuffix(content + message, u)
    requires LineCount(u) == LineCount(Append(content, message))
    ensures u == Append(content, message)
  {
    LineSuffixUnique(content + message, u, Append(content, message));
  }

  /**
   * Messages drained from the queue one at a time leave the box as a single
   * append of all of them would: trimming after each message loses nothing
   * a later trim would have kept.
   */
  lemma AppendBatch(content: string, a: string, b: string)
    ensures Append(Append(content, a), b) == Append(content, a + b)
  {
    var t := content + a;
    var r1 := Append(content, a);
    var w := t + b;
    assert content + (a + b) == w;
    var u := r1 + b;
    assert LineSuffix(w, u) by {
      assert w[|w| - |u|..] == t[|t| - |r1|..] + b;
      if |u| < |w| {
        assert w[|w| - |u| - 1] == t[|t| - |r1| - 1];
      }
    }
    NewlinesAppend(t, b);
    NewlinesAppend(r1, b);
    var r2 := Append(r1, b);
    LineSuffixTransitive(w, u, r2);
    LineSuffixUnique(w, r2, Append(content, a + b));
  }
}
