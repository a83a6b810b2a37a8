/** The string operations of Rust's standard library that the verdict parser
    and the directive builder use. */
module Text {
  import opened Seqs

  /** `char::is_whitespace`: the Unicode White_Space property. */
  predicate IsSpace(c: char) {
    || '\t' <= c <= '\r'
    || c == ' '
    || c == '\U{85}'
    || c == '\U{A0}'
    || c == '\U{1680}'
    || '\U{2000}' <= c <= '\U{200A}'
    || '\U{2028}' <= c <= '\U{2029}'
    || c == '\U{202F}'
    || c == '\U{205F}'
    || c == '\U{3000}'
  }

  /** Position of the first newline, or the length when there is none. */
  function LineEnd(s: string): (n: nat)
    ensures n <= |s|
    ensures forall i :: 0 <= i < n ==> s[i] != '\n'
    ensures n < |s| ==> s[n] == '\n'
  {
    if s == [] || s[0] == '\n' then 0 else 1 + LineEnd(s[1..])
  }

  /** Position of the first whitespace character, or the length. */
  function WordEnd(s: string): (n: nat)
    ensures n <= |s|
    ensures forall i :: 0 <= i < n ==> !IsSpace(s[i])
    ensures n < |s| ==> IsSpace(s[n])
  {
    if s == [] || IsSpace(s[0]) then 0 else 1 + WordEnd(s[1..])
  }

  function TrimStart(s: string): (t: string)
    ensures |t| <= |s| && t == s[|s| - |t|..]
    ensures t == [] || !IsSpace(t[0])
    ensures forall i :: 0 <= i < |s| - |t| ==> IsSpace(s[i])
  {
    if s != [] && IsSpace(s[0]) then TrimStart(s[1..]) else s
  }

  function TrimEnd(s: string): (t: string)
    ensures t <= s
    ensures t == [] || !IsSpace(t[|t| - 1])
    ensures forall i :: |t| <= i < |s| ==> IsSpace(s[i])
  {
    if s == [] then s
    else if IsSpace(s[|s| - 1]) then TrimEnd(s[..|s| - 1])
    else s
  }

  function Trim(s: string): string {
    TrimEnd(TrimStart(s))
  }

  /** Neither end is whitespace. */
  predicate Trimmed(s: string) {
    s == [] || (!IsSpace(s[0]) && !IsSpace(s[|s| - 1]))
  }

  predicate OneLine(s: string) {
    forall i :: 0 <= i < |s| ==> s[i] != '\n'
  }

  /** A carriage return directly before the newline belongs to the terminator. */
  function DropCr(s: string): string {
    if s != [] && s[|s| - 1] == '\r' then s[..|s| - 1] else s
  }

  /** `str::lines`: newline-terminated pieces, without a trailing empty piece. */
  function Lines(s: string): seq<string>
    decreases |s|
  {
    var n := LineEnd(s);
    if s == [] then []
    else if n == |s| then [s]
    else [DropCr(s[..n])] + Lines(s[n + 1..])
  }

  // ── laws ───────────────────────────────────────────────────────────────

  lemma TrimIsTrimmed(s: string)
    ensures Trimmed(Trim(s))
  {
    hide IsSpace, TrimStart, TrimEnd;
    var t := TrimStart(s);
    var u := TrimEnd(t);
    if u != [] {
      assert u[0] == t[0];
    }
  }

  lemma {:induction false} TrimKeeps(s: string)
    requires Trimmed(s)
    ensures TrimStart(s) == s && TrimEnd(s) == s && Trim(s) == s
  {
  }

  /** Trimming only selects characters, so it cannot introduce a newline. */
  lemma TrimOneLine(s: string)
    requires OneLine(s)
    ensures OneLine(Trim(s))
  {
    var t := TrimStart(s);
    forall i | 0 <= i < |Trim(s)| ensures Trim(s)[i] != '\n' {
      assert Trim(s)[i] == t[i] == s[|s| - |t| + i];
    }
  }

  /** No line contains a newline. */
  lemma {:induction false} LinesAreOneLine(s: string)
    ensures forall i :: 0 <= i < |Lines(s)| ==> OneLine(Lines(s)[i])
    decreases |s|
  {
    var n := LineEnd(s);
    if s == [] {
    } else if n == |s| {
    } else {
      LinesAreOneLine(s[n + 1..]);
      forall i | 0 <= i < |Lines(s)| ensures OneLine(Lines(s)[i]) {
        if i > 0 {
          assert Lines(s)[i] == Lines(s[n + 1..])[i - 1];
        }
      }
    }
  }

  /** A newline in `a` is the first one of `a + b` too. */
  lemma {:induction false} LineEndInPrefix(a: string, b: string)
    requires LineEnd(a) < |a|
    ensures LineEnd(a + b) == LineEnd(a)
  {
    var n, m := LineEnd(a), LineEnd(a + b);
    assert (a + b)[n] == '\n';
    assert forall i :: 0 <= i < |a| ==> (a + b)[i] == a[i];
  }

  /** Splitting commutes with joining at a newline: text that ends in a
      newline contributes exactly its own lines. */
  lemma {:induction false} LinesJoin(a: string, b: string)
    requires a == [] || a[|a| - 1] == '\n'
    ensures Lines(a + b) == Lines(a) + Lines(b)
    decreases |a|
  {
    if a == [] {
      assert a + b == b;
    } else {
      var n := LineEnd(a);
      LineEndInPrefix(a, b);
      assert (a + b)[..n] == a[..n];
      assert (a + b)[n + 1..] == a[n + 1..] + b;
      LinesJoin(a[n + 1..], b);
      Regroup([DropCr(a[..n])], Lines(a[n + 1..]), Lines(b));
    }
  }

  /** A single line, alone or followed by more lines, comes out first. */
  lemma {:induction false} LinesFirst(line: string, after: string)
    requires line != [] && OneLine(line)
    requires after == [] || after[0] == '\n'
    ensures after == [] ==> Lines(line + after) == [line]
    ensures after != [] ==> Lines(line + after) == [DropCr(line)] + Lines(after[1..])
  {
    var s, n := line + after, LineEnd(line + after);
    assert forall i :: 0 <= i < |line| ==> s[i] == line[i];
    if after == [] {
      assert s == line;
    } else {
      assert s[|line|] == '\n';
      assert s[..|line|] == line;
      assert s[|line| + 1..] == after[1..];
    }
  }

  /** A line break is a newline, with or without a carriage return before it. */
  lemma LineBreaks(line: string, rest: string)
    requires OneLine(line)
    ensures Lines(line + "\r\n" + rest) == [line] + Lines(rest)
    ensures line != "" && line[|line| - 1] != '\r' ==> Lines(line + "\n" + rest) == [line] + Lines(rest)
  {
    hide Lines;
    assert line + "\r\n" + rest == (line + "\r") + ("\n" + rest) && ("\n" + rest)[1..] == rest;
    assert (line + "\r")[..|line|] == line;
    LinesFirst(line + "\r", "\n" + rest);
    if line != "" && line[|line| - 1] != '\r' {
      assert line + "\n" + rest == line + ("\n" + rest);
      LinesFirst(line, "\n" + rest);
    }
  }

  /** One line between earlier and later lines is one of the lines. */
  lemma LinesAround(before: string, line: string, after: string)
    requires before == [] || before[|before| - 1] == '\n'
    requires line != [] && OneLine(line) && DropCr(line) == line
    requires after == [] || after[0] == '\n'
    ensures Lines(before + line + after)
         == Lines(before) + [line] + (if after == [] then [] else Lines(after[1..]))
  {
    hide Lines;
    assert before + line + after == before + (line + after);
    LinesJoin(before, line + after);
    LinesFirst(line, after);
  }

  /** The 25 characters with the White_Space property. */
  const WHITE_SPACE: string :=
    "\t\n\U{0B}\U{0C}\r \U{85}\U{A0}\U{1680}" + "\U{2000}\U{2001}\U{2002}\U{2003}\U{2004}\U{2005}\U{2006}"
    + "\U{2007}\U{2008}\U{2009}\U{200A}" + "\U{2028}\U{2029}\U{202F}\U{205F}\U{3000}"

  lemma WhiteSpaceIs(c: char)
    ensures IsSpace(c) <==> c in WHITE_SPACE
  {
    var a, b := "\t\n\U{0B}\U{0C}\r \U{85}\U{A0}\U{1680}", "\U{2000}\U{2001}\U{2002}\U{2003}\U{2004}\U{2005}\U{2006}";
    var d, e := "\U{2007}\U{2008}\U{2009}\U{200A}", "\U{2028}\U{2029}\U{202F}\U{205F}\U{3000}";
    assert WHITE_SPACE == a + b + d + e;
    assert c in WHITE_SPACE <==> c in a || c in b || c in d || c in e;
  }

  // ── what trimming removes ──────────────────────────────────────────────

  predicate AllSpace(s: string) {
    forall i :: 0 <= i < |s| ==> IsSpace(s[i])
  }

  predicate NoSpace(s: string) {
    forall i :: 0 <= i < |s| ==> !IsSpace(s[i])
  }

  lemma {:induction false} TrimStartSkips(pre: string, s: string)
    requires AllSpace(pre)
    ensures TrimStart(pre + s) == TrimStart(s)
  {
    hide IsSpace;
    if pre == [] {
      assert pre + s == s;
    } else {
      assert (pre + s)[1..] == pre[1..] + s;
      TrimStartSkips(pre[1..], s);
    }
  }

  lemma TrimStartStops(s: string)
    requires s == [] || !IsSpace(s[0])
    ensures TrimStart(s) == s
  {
  }

  lemma {:induction false} TrimEndStops(a: string, s: string)
    requires a == [] || !IsSpace(a[|a| - 1])
    ensures TrimEnd(a + s) == a + TrimEnd(s)
    decreases |s|
  {
    hide IsSpace;
    if s == [] {
      assert a + s == a;
    } else {
      var n := |s| - 1;
      assert (a + s)[..|a + s| - 1] == a + s[..n];
      assert (a + s)[|a + s| - 1] == s[n];
      TrimEndStops(a, s[..n]);
    }
  }

  lemma {:induction false} TrimEndSkips(s: string, post: string)
    requires AllSpace(post)
    ensures TrimEnd(s + post) == TrimEnd(s)
    decreases |post|
  {
    hide IsSpace;
    if post == [] {
      assert s + post == s;
    } else {
      var n := |post| - 1;
      assert (s + post)[..|s + post| - 1] == s + post[..n];
      TrimEndSkips(s, post[..n]);
    }
  }

  /** Trimming takes away exactly the whitespace at both ends. */
  lemma TrimIs(pre: string, core: string, post: string)
    requires AllSpace(pre) && Trimmed(core) && AllSpace(post)
    ensures Trim(pre + core + post) == core
  {
    hide IsSpace, TrimStart, TrimEnd;
    assert pre + core + post == pre + (core + post);
    TrimStartSkips(pre, core + post);
    if core == [] {
      assert core + post == post + [];
      TrimStartSkips(post, []);
      TrimKeeps([]);
    } else {
      TrimStartStops(core + post);
      TrimEndSkips(core, post);
      TrimKeeps(core);
    }
  }

  lemma SpaceTrimsAway(s: string)
    requires AllSpace(s)
    ensures Trim(s) == ""
  {
    hide IsSpace, Trim, TrimStart, TrimEnd;
    assert ("" + "") + s == s;
    TrimIs("", "", s);
  }

  /** A string is whitespace, what trimming leaves, and whitespace. */
  lemma TrimParts(s: string) returns (pre: string, core: string, post: string)
    ensures AllSpace(pre) && Trimmed(core) && AllSpace(post)
    ensures s == pre + core + post && TrimEnd(s) == pre + core
  {
    hide IsSpace, TrimStart, TrimEnd;
    var t := TrimEnd(s);
    core := TrimStart(t);
    pre, post := t[..|t| - |core|], s[|t|..];
    assert core != "" ==> core[|core| - 1] == t[|t| - 1];
  }

  lemma NothingMore(s: string)
    ensures s + "" == s
  {
  }

  /** Trimming the end first makes no difference. */
  lemma TrimOfTrimEnd(s: string)
    ensures Trim(TrimEnd(s)) == Trim(s)
  {
    hide *;
    var pre, core, post := TrimParts(s);
    NothingIsSpace();
    TrimIs(pre, core, post);
    TrimIs(pre, core, "");
    NothingMore(pre + core);
  }

  lemma NothingIsSpace()
    ensures AllSpace("")
  {
  }
}
