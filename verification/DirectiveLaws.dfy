/** What the directive of a goal step says. */
module DirectiveLaws {
  import opened Wrappers
  import opened Turn
  import opened Verdicts

  /** The number that decimal digits stand for. */
  function ReadDecimal(s: string): nat
    requires Digits(s)
  {
    if s == "" then 0
    else 10 * ReadDecimal(s[..|s| - 1]) + (s[|s| - 1] - '0') as nat
  }

  predicate Digits(s: string) {
    forall i :: 0 <= i < |s| ==> '0' <= s[i] <= '9'
  }

  lemma DigitReads(d: nat)
    requires d < 10
    ensures '0' <= Digit(d) <= '9' && (Digit(d) - '0') as nat == d
  {
  }

  /** A printed number reads back, and has no leading zero. */
  lemma {:induction false} DecimalReads(n: nat)
    ensures Decimal(n) != "" && Digits(Decimal(n)) && ReadDecimal(Decimal(n)) == n
    ensures n > 0 ==> Decimal(n)[0] != '0'
  {
    hide Digit;
    var s := Decimal(n);
    DigitReads(n % 10);
    if n < 10 {
      assert s[..0] == "";
      DigitReads(n);
    } else {
      DecimalReads(n / 10);
      assert s[..|s| - 1] == Decimal(n / 10) && s[0] == Decimal(n / 10)[0];
    }
  }

  /** The prompt names its step and the budget in decimal, then the objective,
      the steer if there is one, and asks for a verdict line. */
  predicate Says(prompt: string, step: string, budget: string, objective: string, steer: Option<string>) {
    prompt ==
      "[apexos-rv goal driver — step " + step + "/" + budget + "] Objective: " + objective
      + "\nYou are executing one bounded step of this goal on a bare-metal RISC-V "
      + "node. Do this step's work in your reply."
      + (if steer.Some? then "\nSteer from the previous step: " + steer.value else "")
      + "\nEnd your reply with exactly one line:\n"
      + ("GOAL_STEP:" + " " + ("continue " +
          ("<optional steer for " + "the next step>" + " | done | " + "blocked <reason>")))
  }

  /** The prompt directs the agent to this step of this goal. */
  ghost predicate Directs(prompt: string, step: nat, maxSteps: nat, objective: string, steer: Option<string>) {
    exists n, m ::
      && Says(prompt, n, m, objective, steer)
      && Digits(n) && ReadDecimal(n) == step && Digits(m) && ReadDecimal(m) == maxSteps
  }

  /** The directive says what its context holds: the two numbers of the header
      are the step and the budget, in this order; the objective and the steer
      stand in it as they are. */
  lemma DirectiveSays(ctx: TickContext)
    ensures Directs(StepDirective(ctx), ctx.step, ctx.maxSteps, ctx.objective, ctx.steer)
  {
    hide Decimal, ReadDecimal, Digits;
    DecimalReads(ctx.step);
    DecimalReads(ctx.maxSteps);
    assert Says(StepDirective(ctx), Decimal(ctx.step), Decimal(ctx.maxSteps), ctx.objective, ctx.steer);
  }

  /** In particular the steer is there, after the objective. */
  lemma SteerStandsInPrompt(prompt: string, step: nat, maxSteps: nat, objective: string, steer: string)
    returns (a: string, c: string, b: string)
    requires Directs(prompt, step, maxSteps, objective, Some(steer))
    ensures prompt == a + objective + c + "\nSteer from the previous step: " + steer + b
  {
    hide Digits, ReadDecimal;
    var n, m :| Says(prompt, n, m, objective, Some(steer));
    a := "[apexos-rv goal driver — step " + n + "/" + m + "] Objective: ";
    c := "\nYou are executing one bounded step of this goal on a bare-metal RISC-V "
      + "node. Do this step's work in your reply.";
    b := "\nEnd your reply with exactly one line:\n"
      + ("GOAL_STEP:" + " " + ("continue " +
          ("<optional steer for " + "the next step>" + " | done | " + "blocked <reason>")));
  }
}
