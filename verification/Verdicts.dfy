/** The in-band verdict convention: the directive that asks for a verdict line
    and the parser that reads it back from a completed reply. */
module Verdicts {
  import opened Wrappers
  import opened Text
  import opened Turn

  const MARK := "GOAL_STEP:"

  // ── the directive ──────────────────────────────────────────────────────

  function Digit(d: nat): char
    requires d < 10
  {
    "0123456789"[d]
  }

  function Decimal(n: nat): (s: string)
    ensures s != []
    ensures forall i :: 0 <= i < |s| ==> '0' <= s[i] <= '9'
  {
    if n < 10 then [Digit(n)] else Decimal(n / 10) + [Digit(n % 10)]
  }

  /** Everything of the directive that precedes its last line. */
  function DirectiveBody(ctx: TickContext): string {
    "[apexos-rv goal driver — step " + Decimal(ctx.step) + "/" + Decimal(ctx.maxSteps)
    + "] Objective: " + ctx.objective
    + "\nYou are executing one bounded step of this goal on a bare-metal RISC-V "
    + "node. Do this step's work in your reply."
    + (match ctx.steer
       case Some(s) => "\nSteer from the previous step: " + s
       case None => "")
    + "\nEnd your reply with exactly one line:\n"
  }

  const CONVENTION_TAIL := "<optional steer for " + "the next step>" + " | done | " + "blocked <reason>"

  /** `step_directive`: the prompt for one goal step. */
  function StepDirective(ctx: TickContext): string {
    DirectiveBody(ctx) + Print(Continue(Some(CONVENTION_TAIL)))
  }

  // ── the parser ─────────────────────────────────────────────────────────

  /** The text after the mark, when the line is a verdict line. */
  function AfterMark(line: string): Option<string> {
    var t := Trim(line);
    if MARK <= t then Some(Trim(t[|MARK|..])) else None
  }

  function Word(rest: string): string {
    rest[..WordEnd(rest)]
  }

  function Tail(rest: string): string {
    var n := WordEnd(rest);
    if n == |rest| then "" else Trim(rest[n + 1..])
  }

  /** Reading of one verdict line; an unknown word reads as no verdict. */
  function ReadVerdict(rest: string): Option<Verdict> {
    var tail := Tail(rest);
    match Word(rest)
    case "done" => Some(Done)
    case "blocked" => Some(Blocked(if tail == "" then "blocked" else tail))
    case "continue" => Some(Continue(if tail == "" then None else Some(tail)))
    case _ => None
  }

  /** One line: `None` when it is no verdict line at all. */
  function ReadLine(line: string): Option<Option<Verdict>> {
    match AfterMark(line)
    case Some(rest) => Some(ReadVerdict(rest))
    case None => None
  }

  function Readings<T>(read: string -> Option<T>, lines: seq<string>): (rs: seq<Option<T>>)
    ensures |rs| == |lines|
    ensures forall i :: 0 <= i < |lines| ==> rs[i] == read(lines[i])
  {
    seq(|lines|, i requires 0 <= i < |lines| => read(lines[i]))
  }

  /** The last reading there is, or `absent` when there is none. */
  function LastOf<T>(readings: seq<Option<T>>, absent: T): T {
    if readings == [] then absent
    else
      var n := |readings| - 1;
      if readings[n].Some? then readings[n].value else LastOf(readings[..n], absent)
  }

  /** `parse_goal_step` as a function of the reply. */
  function ParsedVerdict(reply: string): Option<Verdict> {
    LastOf(Readings(ReadLine, Lines(reply)), None)
  }

  /** The verdict a finished turn is given. */
  function VerdictOf(reply: string): Verdict {
    match ParsedVerdict(reply)
    case Some(v) => v
    case None => CONTINUE_BY_DEFAULT
  }

  lemma {:induction false} LastOfIs<T>(readings: seq<Option<T>>, absent: T, i: nat)
    requires i < |readings| && readings[i].Some?
    requires forall j :: i < j < |readings| ==> readings[j].None?
    ensures LastOf(readings, absent) == readings[i].value
    decreases |readings|
  {
    if i < |readings| - 1 {
      LastOfIs(readings[..|readings| - 1], absent, i);
    }
  }

  lemma {:induction false} LastOfNone<T>(readings: seq<Option<T>>, absent: T)
    requires forall j :: 0 <= j < |readings| ==> readings[j].None?
    ensures LastOf(readings, absent) == absent
  {
    if readings == [] {
    } else {
      LastOfNone(readings[..|readings| - 1], absent);
    }
  }

  /** Walk the lines backwards and stop at the first one that can be read. */
  method ScanBack<T>(read: string -> Option<T>, lines: seq<string>, absent: T) returns (v: T)
    ensures v == LastOf(Readings(read, lines), absent)
  {
    ghost var readings := Readings(read, lines);
    var i := |lines|;
    while i > 0
      invariant 0 <= i <= |lines|
      invariant forall j :: i <= j < |lines| ==> readings[j].None?
    {
      i := i - 1;
      var reading := read(lines[i]);
      if reading.Some? {
        LastOfIs(readings, absent, i);
        return reading.value;
      }
    }
    LastOfNone(readings, absent);
    return absent;
  }

  /** `parse_goal_step`. */
  method ParseGoalStep(reply: string) returns (v: Option<Verdict>)
    ensures v == ParsedVerdict(reply)
  {
    v := ScanBack(ReadLine, Lines(reply), None);
  }

  // ── the printer ────────────────────────────────────────────────────────

  /** The verdict line the directive asks the model for. */
  function Print(v: Verdict): string {
    MARK + " " +
    match v
    case Done => "done"
    case Continue(None) => "continue"
    case Continue(Some(steer)) => "continue " + steer
    case Blocked(reason) => "blocked " + reason
  }

  predicate NormalText(s: string) {
    s != "" && Trimmed(s) && OneLine(s)
  }

  /** Payload text is trimmed, non-empty and on one line. */
  predicate Normal(v: Verdict) {
    match v
    case Done => true
    case Continue(None) => true
    case Continue(Some(steer)) => NormalText(steer)
    case Blocked(reason) => NormalText(reason)
  }

  predicate NothingToRead<T>(read: string -> Option<T>, text: string) {
    forall i :: 0 <= i < |Lines(text)| ==> Readings(read, Lines(text))[i].None?
  }

  predicate NoVerdictLine(text: string) {
    NothingToRead(ReadLine, text)
  }
}
