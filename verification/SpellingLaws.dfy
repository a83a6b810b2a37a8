/** The parser on every spelling of a verdict line. */
module SpellingLaws {
  import opened Wrappers
  import opened Text
  import opened Turn
  import opened Verdicts

  /** What follows the word: nothing, or one whitespace character and a tail. */
  predicate Follows(sep: string, tail: string) {
    (sep == "" && tail == "") || (|sep| == 1 && IsSpace(sep[0]))
  }

  /** The verdict that the convention gives to a word and what follows it. */
  function Meaning(word: string, tail: string): Option<Verdict> {
    var said := Trim(tail);
    if word == "done" then Some(Verdict.Done)
    else if word == "blocked" then Some(Verdict.Blocked(if said == "" then "blocked" else said))
    else if word == "continue" then Some(Verdict.Continue(if said == "" then None else Some(said)))
    else None
  }

  /** The mark survives trimming, and what stands before it does not. */
  lemma MarkIsFound(pre: string, x: string)
    requires AllSpace(pre)
    ensures AfterMark(pre + "GOAL_STEP:" + x) == Some(Trim(x))
  {
    hide IsSpace, TrimStart, TrimEnd;
    var mark := "GOAL_STEP:";
    assert !IsSpace('G') && !IsSpace(':') by {
      MarkIsNoSpace();
    }
    assert pre + mark + x == pre + (mark + x);
    assert (mark + x)[0] == 'G' && mark[|mark| - 1] == ':';
    TrimStartSkips(pre, mark + x);
    TrimStartStops(mark + x);
    TrimEndStops(mark, x);
    assert (mark + TrimEnd(x))[|mark|..] == TrimEnd(x);
    TrimOfTrimEnd(x);
  }

  lemma MarkIsNoSpace()
    ensures !IsSpace('G') && !IsSpace(':')
  {
  }

  /** Past the mark and the whitespace that follows it: the word, and either
      nothing or one whitespace character and the tail up to its last
      non-whitespace character. */
  lemma RestIs(mid: string, word: string, sep: string, tail: string)
    requires AllSpace(mid) && NoSpace(word) && word != "" && Follows(sep, tail)
    ensures Trim(mid + (word + sep + tail)) == word + TrimEnd(sep + tail)
  {
    hide IsSpace, TrimStart, TrimEnd;
    assert word + sep + tail == word + (sep + tail);
    TrimStartSkips(mid, word + (sep + tail));
    TrimStartStops(word + (sep + tail));
    TrimEndStops(word, sep + tail);
  }

  lemma WordIs(word: string, y: string)
    requires NoSpace(word) && (y == "" || IsSpace(y[0]))
    ensures Word(word + y) == word
    ensures Tail(word + y) == if y == "" then "" else Trim(y[1..])
  {
    hide IsSpace;
    var s := word + y;
    assert forall i :: 0 <= i < |word| ==> s[i] == word[i];
    assert y != "" ==> s[|word|] == y[0];
    assert WordEnd(s) == |word|;
    assert s[..|word|] == word;
    assert y != "" ==> s[|word| + 1..] == y[1..];
  }

  /** What follows the word, trimmed at its end, has the trimmed tail. */
  lemma TailIs(sep: string, tail: string)
    requires Follows(sep, tail)
    ensures var y := TrimEnd(sep + tail);
      && (y == "" || IsSpace(y[0]))
      && (if y == "" then "" else Trim(y[1..])) == Trim(tail)
  {
    hide IsSpace, TrimStart, TrimEnd;
    var y := TrimEnd(sep + tail);
    if sep == "" {
      assert sep + tail == "";
    } else if y == "" {
      assert forall i :: 0 <= i < |tail| ==> tail[i] == (sep + tail)[i + 1];
      SpaceTrimsAway(tail);
    } else {
      TailPart(sep, tail, y);
    }
  }

  lemma TailPart(sep: string, tail: string, y: string)
    requires |sep| == 1 && y != "" && y == TrimEnd(sep + tail)
    ensures y[0] == sep[0] && Trim(y[1..]) == Trim(tail)
  {
    hide IsSpace, Trim, TrimStart, TrimEnd;
    assert y[0] == (sep + tail)[0];
    var post := (sep + tail)[|y|..];
    assert tail == (sep + tail)[1..] == y[1..] + post;
    TrimEndSkips(y[1..], post);
    TrimOfTrimEnd(tail);
    TrimOfTrimEnd(y[1..]);
  }

  lemma ReadVerdictIs(word: string, y: string, tail: string)
    requires NoSpace(word) && (y == "" || IsSpace(y[0]))
    requires (if y == "" then "" else Trim(y[1..])) == Trim(tail)
    ensures ReadVerdict(word + y) == Meaning(word, tail)
  {
    hide IsSpace, Trim, Word, Tail;
    WordIs(word, y);
  }

  /** Every spelling of one verdict line: any whitespace before the mark and
      after it, a word, and either nothing more or whitespace and any tail. */
  lemma LineMeans(pre: string, mid: string, word: string, sep: string, tail: string)
    requires AllSpace(pre) && AllSpace(mid) && NoSpace(word) && word != "" && Follows(sep, tail)
    ensures ReadLine(pre + "GOAL_STEP:" + (mid + (word + sep + tail))) == Some(Meaning(word, tail))
  {
    hide IsSpace, Trim, TrimStart, TrimEnd, ReadVerdict, AfterMark, Meaning;
    MarkIsFound(pre, mid + (word + sep + tail));
    RestIs(mid, word, sep, tail);
    TailIs(sep, tail);
    ReadVerdictIs(word, TrimEnd(sep + tail), tail);
  }

  /** A mark with only whitespace after it has no word. */
  lemma BareMarkMeansNothing(pre: string, mid: string)
    requires AllSpace(pre) && AllSpace(mid)
    ensures ReadLine(pre + "GOAL_STEP:" + mid) == Some(None)
  {
    hide IsSpace, Trim, AfterMark, ReadVerdict, AllSpace;
    MarkIsFound(pre, mid);
    SpaceTrimsAway(mid);
    NoWordNoVerdict();
  }

  lemma NoWordNoVerdict()
    ensures ReadVerdict("") == None
  {
    assert WordEnd("") == 0 && Word("") == "";
  }

  /** The line does not start with the mark, whitespace aside. */
  predicate Unmarked(line: string) {
    !("GOAL_STEP:" <= Trim(line))
  }

  /** The whole parser: the last verdict line of a reply decides, and it means
      what its word and its tail mean, however it is spelled. `done` ignores
      its tail; `blocked` without a reason says that it is blocked; `continue`
      without a steer carries none; any other word is no verdict. */
  lemma ReplyMeans(reply: string, i: nat, pre: string, mid: string, word: string, sep: string, tail: string)
    requires i < |Lines(reply)| && forall j :: i < j < |Lines(reply)| ==> Unmarked(Lines(reply)[j])
    requires Lines(reply)[i] == pre + "GOAL_STEP:" + (mid + (word + sep + tail))
    requires AllSpace(pre) && AllSpace(mid) && NoSpace(word) && word != "" && Follows(sep, tail)
    ensures var said := Trim(tail);
      && (word == "done" ==> ParsedVerdict(reply) == Some(Verdict.Done))
      && (word == "blocked" ==>
            ParsedVerdict(reply) == Some(Verdict.Blocked(if said == "" then "blocked" else said)))
      && (word == "continue" ==>
            ParsedVerdict(reply) == Some(Verdict.Continue(if said == "" then None else Some(said))))
      && (word !in {"done", "blocked", "continue"} ==>
            ParsedVerdict(reply) == None && VerdictOf(reply) == Verdict.Continue(None))
  {
    hide IsSpace, Trim, Lines, ReadVerdict;
    LineMeans(pre, mid, word, sep, tail);
    LastOfIs(Readings(ReadLine, Lines(reply)), None, i);
  }

  /** A reply without a marked line has no verdict, and counts as `continue`
      without a steer. */
  lemma UnmarkedReplyContinues(reply: string)
    requires forall j :: 0 <= j < |Lines(reply)| ==> Unmarked(Lines(reply)[j])
    ensures ParsedVerdict(reply) == None && VerdictOf(reply) == Verdict.Continue(None)
  {
    hide Trim, Lines, ReadVerdict;
    LastOfNone(Readings(ReadLine, Lines(reply)), None);
  }

  /** Every marked line is spelled in one of these ways. */
  lemma MarkedLineIsSpelled(line: string)
    returns (pre: string, mid: string, word: string, sep: string, tail: string)
    requires !Unmarked(line)
    ensures AllSpace(pre) && AllSpace(mid) && NoSpace(word) && Follows(sep, tail)
    ensures line == pre + "GOAL_STEP:" + (mid + (word + sep + tail))
    ensures word == "" ==> sep == "" && tail == ""
  {
    hide IsSpace, Trim, TrimStart, TrimEnd, AllSpace, NoSpace, Follows;
    var mark, t := "GOAL_STEP:", TrimStart(line);
    pre := SplitStart(line);
    MarkAtFront(line);
    var x := t[|mark|..];
    assert t == mark + x;
    mid := SplitStart(x);
    word, sep, tail := SplitWord(TrimStart(x));
    assert pre + (mark + x) == pre + mark + x;
  }

  lemma MarkAtFront(line: string)
    requires !Unmarked(line)
    ensures "GOAL_STEP:" <= TrimStart(line)
  {
    hide TrimStart, TrimEnd;
  }

  /** The whitespace that trimming the start removes. */
  lemma SplitStart(s: string) returns (pre: string)
    ensures AllSpace(pre) && s == pre + TrimStart(s)
  {
    hide IsSpace, TrimStart;
    pre := s[..|s| - |TrimStart(s)|];
  }

  /** The first word, and what follows it. */
  lemma SplitWord(y: string) returns (word: string, sep: string, tail: string)
    requires y == "" || !IsSpace(y[0])
    ensures y == word + sep + tail && NoSpace(word) && Follows(sep, tail)
    ensures word == "" ==> sep == "" && tail == ""
  {
    hide IsSpace, WordEnd;
    var n := WordEnd(y);
    word := y[..n];
    if n == |y| {
      sep, tail := "", "";
    } else {
      sep, tail := y[n..n + 1], y[n + 1..];
    }
  }

  /** A carriage return at the end of a line makes no difference. */
  lemma CarriageReturnIsHarmless(line: string)
    ensures ReadLine(line + "\r") == ReadLine(line)
  {
    hide Trim, TrimStart, TrimEnd, ReadVerdict;
    TrimEndSkips(line, "\r");
    TrimOfTrimEnd(line + "\r");
    TrimOfTrimEnd(line);
  }
}
