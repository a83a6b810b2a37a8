/** Properties of the verdict grammar. */
module VerdictLaws {
  import opened Wrappers
  import opened Text
  import opened Turn
  import opened Verdicts

  /** When the later readings hold none, the earlier ones decide; otherwise
      they do not matter. */
  lemma {:induction false} LastOfAppend<T>(a: seq<Option<T>>, b: seq<Option<T>>, absent: T)
    ensures (forall j :: 0 <= j < |b| ==> b[j].None?) ==> LastOf(a + b, absent) == LastOf(a, absent)
    ensures !(forall j :: 0 <= j < |b| ==> b[j].None?) ==> LastOf(a + b, absent) == LastOf(b, absent)
  {
    if b == [] {
      assert a + b == a;
    } else {
      var n := |b| - 1;
      assert (a + b)[..|a + b| - 1] == a + b[..n];
      LastOfAppend(a, b[..n], absent);
    }
  }

  lemma ReadingsJoin<T>(read: string -> Option<T>, a: seq<string>, b: seq<string>)
    ensures Readings(read, a + b) == Readings(read, a) + Readings(read, b)
  {
  }

  /** Where a line that can be read stands alone or is followed only by
      lines that cannot, it decides. */
  lemma LineDecides<T>(read: string -> Option<T>, before: string, line: string, after: string, absent: T)
    requires before == [] || before[|before| - 1] == '\n'
    requires line != [] && OneLine(line) && DropCr(line) == line && read(line).Some?
    requires after == [] || (after[0] == '\n' && NothingToRead(read, after[1..]))
    ensures LastOf(Readings(read, Lines(before + line + after)), absent) == read(line).value
  {
    var a, b := Lines(before), if after == [] then [] else Lines(after[1..]);
    LinesAround(before, line, after);
    var ra, rb := Readings(read, a), Readings(read, b);
    ReadingsJoin(read, a + [line], b);
    ReadingsJoin(read, a, [line]);
    assert Readings(read, [line]) == [read(line)];
    hide Lines, LastOf, Readings;
    LastOfIs(ra + [read(line)], absent, |ra|);
    LastOfAppend(ra + [read(line)], rb, absent);
  }

  /** Concatenating at a line boundary: the later part decides when it has a
      line to read, otherwise the earlier part does. */
  lemma JoinDecides<T>(read: string -> Option<T>, a: string, b: string, absent: T)
    requires a == [] || a[|a| - 1] == '\n'
    ensures NothingToRead(read, b) ==>
      LastOf(Readings(read, Lines(a + b)), absent) == LastOf(Readings(read, Lines(a)), absent)
    ensures !NothingToRead(read, b) ==>
      LastOf(Readings(read, Lines(a + b)), absent) == LastOf(Readings(read, Lines(b)), absent)
  {
    hide Lines, LastOf, Readings;
    LinesJoin(a, b);
    ReadingsJoin(read, Lines(a), Lines(b));
    LastOfAppend(Readings(read, Lines(a)), Readings(read, Lines(b)), absent);
  }

  lemma SpaceSplits(word: string, rest: string)
    requires word != [] && Trimmed(rest)
    requires forall i :: 0 <= i < |word| ==> !IsSpace(word[i])
    ensures Word(word + " " + rest) == word && Tail(word + " " + rest) == rest
  {
    var s := word + " " + rest;
    assert s[|word|] == ' ';
    assert forall i :: 0 <= i < |word| ==> s[i] == word[i];
    assert s[..|word|] == word;
    assert s[|word| + 1..] == rest;
    TrimKeeps(rest);
  }

  lemma WordAlone(word: string)
    requires forall i :: 0 <= i < |word| ==> !IsSpace(word[i])
    ensures Word(word) == word && Tail(word) == ""
  {
    assert word[..|word|] == word;
  }

  /** What the printer puts after the mark and one space. */
  function Body(v: Verdict): string {
    match v
    case Done => "done"
    case Continue(None) => "continue"
    case Continue(Some(steer)) => "continue" + " " + steer
    case Blocked(reason) => "blocked" + " " + reason
  }

  lemma BodyReads(v: Verdict)
    requires Normal(v)
    ensures ReadVerdict(Body(v)) == Some(v)
  {
    match v
    case Done => WordAlone("done");
    case Continue(None) => WordAlone("continue");
    case Continue(Some(steer)) => SpaceSplits("continue", steer);
    case Blocked(reason) => SpaceSplits("blocked", reason);
  }

  lemma BodyIsTrimmed(v: Verdict)
    requires Normal(v)
    ensures NormalText(Body(v)) && Print(v) == MARK + " " + Body(v)
  {
    var b := Body(v);
    match v
    case Continue(Some(steer)) =>
      assert b == "continue " + steer && b[|b| - 1] == steer[|steer| - 1];
    case Blocked(reason) =>
      assert b == "blocked " + reason && b[|b| - 1] == reason[|reason| - 1];
    case _ =>
  }

  lemma MarkedLineReads(body: string)
    requires NormalText(body)
    ensures NormalText(MARK + " " + body) && AfterMark(MARK + " " + body) == Some(body)
  {
    var line := MARK + " " + body;
    assert line[|line| - 1] == body[|body| - 1];
    TrimKeeps(line);
    assert line[|MARK|..] == " " + body;
    assert (" " + body)[1..] == body;
    TrimKeeps(body);
  }

  /** A printed verdict is a verdict line that reads back as itself. */
  lemma PrintedLineReads(v: Verdict)
    requires Normal(v)
    ensures NormalText(Print(v)) && ReadLine(Print(v)) == Some(Some(v))
  {
    BodyReads(v);
    BodyIsTrimmed(v);
    MarkedLineReads(Body(v));
  }

  /** The parser inverts the printer: a normal verdict printed on its own line
      is read back, whatever stands on the lines before it and as long as no
      later line is a verdict line. */
  lemma ParseInvertsPrint(before: string, v: Verdict, after: string)
    requires before == [] || before[|before| - 1] == '\n'
    requires Normal(v)
    requires after == [] || (after[0] == '\n' && NoVerdictLine(after[1..]))
    ensures ParsedVerdict(before + Print(v) + after) == Some(v)
  {
    var line := Print(v);
    PrintedLineReads(v);
    LineDecides(ReadLine, before, line, after, None);
  }

  lemma TailIsNormal(rest: string)
    requires OneLine(rest)
    ensures Tail(rest) == "" || NormalText(Tail(rest))
  {
    hide Trim, IsSpace;
    var n := WordEnd(rest);
    if n < |rest| {
      TrimIsTrimmed(rest[n + 1..]);
      TrimOneLine(rest[n + 1..]);
    }
  }

  lemma ReadVerdictIsNormal(rest: string)
    requires OneLine(rest)
    ensures ReadVerdict(rest).Some? ==> Normal(ReadVerdict(rest).value)
  {
    hide Tail, Word, Trimmed, OneLine;
    TailIsNormal(rest);
    WordIsNormal("blocked");
  }

  lemma WordIsNormal(word: string)
    requires word != "" && forall i :: 0 <= i < |word| ==> !IsSpace(word[i])
    ensures NormalText(word)
  {
  }

  lemma ReadLineIsNormal(line: string)
    requires OneLine(line)
    ensures ReadLine(line).Some? && ReadLine(line).value.Some? ==> Normal(ReadLine(line).value.value)
  {
    hide Trim, ReadVerdict;
    if AfterMark(line).Some? {
      TrimOneLine(line);
      TrimOneLine(Trim(line)[|MARK|..]);
      ReadVerdictIsNormal(AfterMark(line).value);
    }
  }

  lemma {:induction false} LastOfOccurs<T>(readings: seq<Option<T>>, absent: T)
    ensures LastOf(readings, absent) == absent
         || exists i :: 0 <= i < |readings| && readings[i] == Some(LastOf(readings, absent))
  {
    if readings != [] && readings[|readings| - 1].None? {
      LastOfOccurs(readings[..|readings| - 1], absent);
    }
  }

  /** Whatever the reply, a steer or a reason read from it is trimmed,
      non-empty and free of newlines. With ParseInvertsPrint: the parser's
      range is exactly the normal verdicts. */
  lemma ParsedIsNormal(reply: string)
    ensures ParsedVerdict(reply).Some? ==> Normal(ParsedVerdict(reply).value)
    ensures Normal(VerdictOf(reply))
  {
    var lines := Lines(reply);
    LinesAreOneLine(reply);
    LastOfOccurs(Readings(ReadLine, lines), None);
    if ParsedVerdict(reply).Some? {
      var i :| 0 <= i < |lines| && Readings(ReadLine, lines)[i] == Some(ParsedVerdict(reply));
      ReadLineIsNormal(lines[i]);
    }
  }

  /** The directive may be quoted before the verdict: its own convention line
      does not count once a verdict line follows. */
  lemma QuotedDirectiveIsHarmless(ctx: TickContext, between: string, v: Verdict, after: string)
    requires between == [] || between[|between| - 1] == '\n'
    requires Normal(v)
    requires after == [] || (after[0] == '\n' && NoVerdictLine(after[1..]))
    ensures VerdictOf(StepDirective(ctx) + "\n" + between + Print(v) + after) == v
  {
    var before := StepDirective(ctx) + "\n" + between;
    assert before[|before| - 1] == '\n';
    ParseInvertsPrint(before, v, after);
  }

  lemma ConventionTailIsNormal()
    ensures NormalText(CONVENTION_TAIL)
  {
    var a, b, c, d := "<optional steer for ", "the next step>", " | done | ", "blocked <reason>";
    assert OneLine(a) && OneLine(b) && OneLine(c) && OneLine(d);
    var t := a + b + c + d;
    assert t[0] == a[0];
    assert t[|t| - 1] == d[|d| - 1];
  }

  /** A reply that only echoes the directive is taken as `continue`, with the
      convention's own placeholder text as the steer. */
  lemma EchoedDirectiveContinues(ctx: TickContext)
    ensures var placeholder := "<optional steer for " + "the next step>" + " | done | " + "blocked <reason>";
      VerdictOf(StepDirective(ctx)) == Verdict.Continue(Some(placeholder))
  {
    var before := DirectiveBody(ctx);
    ConventionTailIsNormal();
    assert before[|before| - 1] == '\n';
    ParseInvertsPrint(before, Continue(Some(CONVENTION_TAIL)), "");
    assert StepDirective(ctx) == before + Print(Continue(Some(CONVENTION_TAIL))) + "";
  }

  /** A reply without any verdict line is `continue` without a steer. */
  lemma NoVerdictIsContinue(reply: string)
    requires NoVerdictLine(reply)
    ensures ParsedVerdict(reply) == None && VerdictOf(reply) == Verdict.Continue(None)
  {
    LastOfNone(Readings(ReadLine, Lines(reply)), None);
  }

  /** The last verdict line alone decides, however it is written and whatever
      stands before it: an unknown word on it hides every verdict on earlier
      lines, and nothing else does. */
  lemma UnknownWordIsContinue(reply: string, i: nat)
    requires i < |Lines(reply)| && AfterMark(Lines(reply)[i]).Some?
    requires forall j :: i < j < |Lines(reply)| ==> ReadLine(Lines(reply)[j]).None?
    ensures var unknown := Word(AfterMark(Lines(reply)[i]).value) !in {"done", "blocked", "continue"};
      && (ParsedVerdict(reply).None? <==> unknown)
      && (unknown ==> VerdictOf(reply) == Verdict.Continue(None))
  {
    hide AfterMark, Word, Lines;
    LastOfIs(Readings(ReadLine, Lines(reply)), None, i);
  }

  /** Concatenating at a line boundary: the later part decides when it has a
      verdict line, otherwise the earlier part does. */
  lemma VerdictOfJoin(a: string, b: string)
    requires a == [] || a[|a| - 1] == '\n'
    ensures ParsedVerdict(a + b) == if NoVerdictLine(b) then ParsedVerdict(a) else ParsedVerdict(b)
  {
    JoinDecides(ReadLine, a, b, None);
  }
}
