/** How goals driven by a compiled-in script end. */
module ScriptLaws {
  import opened Wrappers
  import opened Protocol
  import opened Turn
  import opened Driver
  import opened DriverLaws
  import opened Scripted

  lemma TranscriptStep(steps: seq<ScriptStep>, n: nat)
    ensures Transcript(steps, n + 1) == Transcript(steps, n) + [Observe(steps, Position(steps, n))]
    ensures Transcript(steps, n + 1)[..n] == Transcript(steps, n)
    ensures Settled(Transcript(steps, n + 1)) ==
      if Observe(steps, Position(steps, n)).Pending? then Settled(Transcript(steps, n))
      else Settled(Transcript(steps, n)) + [Observe(steps, Position(steps, n))]
  {
    hide Observe, Position;
    assert Transcript(steps, n + 1) == Transcript(steps, n) + [Observe(steps, Position(steps, n))];
    assert Transcript(steps, n + 1)[..n] == Transcript(steps, n);
  }

  /** A script advances up to the entry that hangs and then stays there: its
      settled answers are the observations of the entries before. */
  lemma {:induction false} SettledTranscript(steps: seq<ScriptStep>, n: nat)
    requires FirstHang(steps) < |steps|
    ensures Settled(Transcript(steps, n)) == Transcript(steps, if n < FirstHang(steps) then n else FirstHang(steps))
  {
    hide Settled, Transcript;
    if n == 0 {
      NothingSettled(steps);
    } else {
      SettledTranscript(steps, n - 1);
      TranscriptStep(steps, n - 1);
    }
  }

  lemma NothingSettled(steps: seq<ScriptStep>)
    ensures Transcript(steps, 0) == [] && Settled([]) == []
  {
  }

  lemma {:induction false} SettledWithoutHang(steps: seq<ScriptStep>, n: nat)
    requires FirstHang(steps) == |steps|
    ensures Settled(Transcript(steps, n)) == Transcript(steps, n)
  {
    hide Settled, Transcript;
    if n == 0 {
      NothingSettled(steps);
    } else {
      SettledWithoutHang(steps, n - 1);
      TranscriptStep(steps, n - 1);
    }
  }

  predicate GoesOn(step: ScriptStep) {
    step.Go? || step.GoWith?
  }

  lemma NeverEndsActing(r: TurnResult)
    ensures !Ending(r).Acting?
  {
  }

  /** A script without a hang ends every goal: past its last entry the engine
      has gone quiet, so one poll more than it has entries is enough. */
  lemma ScriptEnds(g: Goal, steps: seq<ScriptStep>, n: nat)
    requires g.Valid() && g.Acting() && g.step == 1 && g.steer == None
    requires FirstHang(steps) == |steps| < n
    ensures !Run(g, Transcript(steps, n)).Acting()
    ensures Run(g, Transcript(steps, n)) == Run(g, Transcript(steps, |steps| + 1))
  {
    hide Run, Settled, FinalLog, FullLog, FirstHang;
    var rs, m := Transcript(steps, n), |steps| + 1;
    SettledWithoutHang(steps, n);
    SettledWithoutHang(steps, m);
    ClosedForm(g, rs);
    ClosedForm(g, Transcript(steps, m));
    assert rs[|steps|] == Stalled && rs[..m] == Transcript(steps, m);
    EndsBy(g, rs, m);
  }

  /** Once a result has stopped the goal, later results make no difference. */
  lemma EndsBy(g: Goal, c: seq<TurnResult>, m: nat)
    requires g.Valid() && 0 < m <= |c| && !Continues(c[m - 1])
    ensures !FinalGoal(g, c).Acting() && FinalGoal(g, c) == FinalGoal(g, c[..m])
  {
    var k := FirstStop(c);
    assert k < m;
    NeverEndsActing(c[k]);
    FirstStopSame(c, m);
  }

  lemma FirstStopSame(c: seq<TurnResult>, n: nat)
    requires n <= |c| && FirstStop(c) < n
    ensures FirstStop(c[..n]) == FirstStop(c)
  {
    hide FirstStop;
    var k, short := FirstStop(c), c[..n];
    assert !Continues(c[k]) && short[k] == c[k];
    assert forall i :: 0 <= i < k ==> short[i] == c[i];
    assert forall i :: 0 <= i < FirstStop(short) ==> Continues(short[i]);
  }

  /** A script with a hang leaves its goal waiting, for however many polls,
      exactly when everything before the hang goes on and the budget reaches
      that far; the goal then waits in the step of the hang. */
  lemma HangWaits(g: Goal, steps: seq<ScriptStep>, n: nat)
    requires g.Valid() && g.Acting() && g.step == 1 && g.steer == None
    requires FirstHang(steps) < |steps| && FirstHang(steps) <= n
    ensures var p, f := FirstHang(steps), Run(g, Transcript(steps, n));
      && (f.Acting() <==> p < g.maxSteps && forall i :: 0 <= i < p ==> GoesOn(steps[i]))
      && (f.Acting() ==> f.step == p + 1)
  {
    hide Run;
    var p := FirstHang(steps);
    var c := Transcript(steps, p);
    SettledTranscript(steps, n);
    ClosedForm(g, Transcript(steps, n));
    var k := FirstStop(c);
    assert forall i :: 0 <= i < p ==> c[i] == Observe(steps, i);
    assert forall i :: 0 <= i < p ==> (Continues(c[i]) <==> GoesOn(steps[i]));
    if k < p {
      assert !GoesOn(steps[k]);
      NeverEndsActing(c[k]);
    }
  }

  /** What an entry says reaches the goal: a `GoWith` becomes the steer of the
      next step, and a `Block` closes the goal with its reason. */
  lemma ScriptSpeaks(g: Goal, steps: seq<ScriptStep>, n: nat)
    requires g.Valid() && Run(g, Transcript(steps, n)).Acting() && n <= FirstHang(steps) && n < |steps|
    ensures var now, next := Run(g, Transcript(steps, n)), Run(g, Transcript(steps, n + 1));
      && (steps[n].Go? && now.step < g.maxSteps ==> next.Acting() && next.steer == None)
      && (steps[n].GoWith? && now.step < g.maxSteps ==> next.Acting() && next.steer == Some(steps[n].steer))
      && (steps[n].Finish? ==> next.state.Done?)
      && (steps[n].Stall? ==> next.state.Failed?)
      && (steps[n].Hang? ==> next == now)
      && (steps[n].Block? ==>
            && next.state.Blocked?
            && var log := Log(g, Transcript(steps, n + 1));
               log != [] && Tells(log[|log| - 1], g, GoalState.Blocked, now.step, steps[n].reason))
  {
    hide Run, Log, Transcript;
    TranscriptStep(steps, n);
    RunAppend(g, Transcript(steps, n), Observe(steps, Position(steps, n)));
  }

  /** The compiled-in scripts: success is Done in step 3 after three polls,
      stall is Failed in step 2 after two, hang waits in step 2 until the
      watchdog ends it. */
  lemma CompiledInScripts(g: Goal, n: nat)
    requires g.Valid() && g.Acting() && g.step == 1 && g.steer == None && g.maxSteps >= 3 && n >= 1
    ensures var f := Run(g, Transcript(SCRIPT_SUCCESS, 3)); f.state.Done? && f.step == 3
    ensures var h := Run(g, Transcript(SCRIPT_SUCCESS, 2));
      h.Acting() && h.step == 3 && h.steer == Some("summarize sensor coverage, then wrap up")
    ensures var f := Run(g, Transcript(SCRIPT_STALL, 2)); f.state.Failed? && f.step == 2
    ensures var f := Run(g, Transcript(SCRIPT_HANG, n)); f.Acting() && f.step == 2
  {
    hide Run, Settled, FullLog, FinalLog;
    FirstHangs();
    SettledWithoutHang(SCRIPT_SUCCESS, 3);
    SettledWithoutHang(SCRIPT_SUCCESS, 2);
    SettledWithoutHang(SCRIPT_STALL, 2);
    ClosedForm(g, Transcript(SCRIPT_SUCCESS, 2));
    ClosedForm(g, Transcript(SCRIPT_SUCCESS, 3));
    assert FirstStop(Transcript(SCRIPT_SUCCESS, 2)) == 2;
    ClosedForm(g, Transcript(SCRIPT_STALL, 2));
    assert FirstStop(Transcript(SCRIPT_SUCCESS, 3)) == 2;
    assert FirstStop(Transcript(SCRIPT_STALL, 2)) == 1;
    HangWaits(g, SCRIPT_HANG, n);
  }

  lemma FirstHangs()
    ensures FirstHang(SCRIPT_SUCCESS) == 3 && FirstHang(SCRIPT_STALL) == 2 && FirstHang(SCRIPT_HANG) == 1
  {
    assert SCRIPT_SUCCESS[1..][1..] == [Finish] && SCRIPT_STALL[1..] == [Stall] && SCRIPT_HANG[1..] == [Hang];
  }
}
