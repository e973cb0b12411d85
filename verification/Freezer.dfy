/**
 * The keeper's freezer: one run per token account at a time, at most five attempts a run, every outcome counted once.
 */
module Freezer {
  import opened Bytes
  import opened Lines
  import opened GateLogs
  import opened Verdicts
  import D = Decision

  const MAX_ATTEMPTS: nat := 5

  datatype Outcome =
    | Frozen(reason: string)
    | AlreadyFrozen
    | IsCompliant
    | Refused(code: string)
    | Exhausted(error: string)

  // ----- One attempt

  /** `classifyLogs`: the SDK's verdict as a freeze outcome. The keeper passes no error number. */
  function ClassifyLogs(logs: seq<string>, succeeded: bool, gate: string): (o: Outcome)
    ensures !o.Exhausted?
  {
    OutcomeOfVerdict(Classify(Run(START, logs, gate).seen, succeeded, gate, None))
  }

  function OutcomeOfVerdict(v: Verdict): (o: Outcome)
    ensures !o.Exhausted?
  {
    match v
    case Allowed(code) => Frozen(code)
    case Skipped => AlreadyFrozen
    case Denied(code) => if code == "COMPLIANT" then IsCompliant else Refused(code)
    case FailedOutside(program, message) =>
      Refused(if program == "unknown" then "UNKNOWN" else program + ": " + message)
  }

  /** What a freeze transaction amounts to when the gate was called and answered `v`. */
  function OutcomeOf(v: D.Verdict): Outcome {
    match v
    case AllowWith(a) => Frozen(D.AllowCode(a))
    case DenyWith(d) => if d.Compliant? then IsCompliant else Refused(D.DenyCode(d))
  }

  /**
   * The keeper's outcome is the gate's answer: from the logs of any transaction in which the gate's first decision is
   * `v`, whatever the other programs around it do and log.
   */
  lemma OutcomeFromLogs(frames: seq<Frame>, gate: string, v: D.Verdict)
    requires IsProgramId(gate) && GatePrintableAll(frames, gate)
    requires DecisionOfAll(frames, gate) == Some(TgOf(v))
    ensures ClassifyLogs(PrintAll(frames), v.AllowWith?, gate) == OutcomeOf(v)
  {
    OthersCannotImpersonate(frames, gate);
    DecisionNeedsGate(START, PrintAll(frames), gate);
    OutcomeOfParsed(Run(START, PrintAll(frames), gate).seen, v, gate);
  }

  /** In particular a call through Token ACL, after any instructions that tell no decision. */
  lemma OutcomeThroughTokenAcl(before: seq<Frame>, acl: string, gate: string, v: D.Verdict, t: CallParts)
    requires IsProgramId(acl) && IsProgramId(gate) && CallsGate(acl, gate, v, t)
    requires Plain(t.instruction) && (v.DenyWith? ==> Plain(t.anchorError) && OneLine(t.gateMessage))
    requires GatePrintableBody(t.before, gate) && GatePrintableBody(t.after, gate)
    requires GatePrintableAll(before, gate) && DecisionOfAll(before, gate).None?
    ensures ClassifyLogs(PrintAll(before + [AclFrame(acl, gate, v, t)]), v.AllowWith?, gate) == OutcomeOf(v)
  {
    var f := AclFrame(acl, gate, v, t);
    ThroughTokenAcl([], acl, gate, v, t);
    AclGatePrints(acl, gate, v, t);
    DecisionOfLast(before, f, gate);
    OutcomeFromLogs(before + [f], gate, v);
  }

  lemma AclGatePrints(acl: string, gate: string, v: D.Verdict, t: CallParts)
    requires acl != gate && IsProgramId(acl) && IsProgramId(gate)
    requires Plain(t.instruction) && (v.DenyWith? ==> Plain(t.anchorError) && OneLine(t.gateMessage))
    requires GatePrintableBody(t.before, gate) && GatePrintableBody(t.after, gate)
    ensures GatePrintable(AclFrame(acl, gate, v, t), gate)
  {
    TgRoundTrip(v);
    var g := GateFrame(gate, v, t);
    assert PrintableBody(Consumed(t.used, Done));
    assert PrintableBody(g.body.rest.rest);
    assert PrintableBody(g.body.rest);
    assert Printable(g);
    ThenGatePrints(t.before, Call(g, t.after), gate);
  }

  lemma {:induction false} ThenGatePrints(a: Body, b: Body, gate: string)
    requires GatePrintableBody(a, gate) && GatePrintableBody(b, gate)
    ensures GatePrintableBody(Then(a, b), gate)
  {
    if !a.Done? {
      ThenGatePrints(a.rest, b, gate);
    }
  }

  lemma OutcomeOfParsed(p: Parsed, v: D.Verdict, gate: string)
    requires p.gateInvoked && p.decision == Some(TgOf(v))
    ensures OutcomeOfVerdict(Classify(p, v.AllowWith?, gate, None)) == OutcomeOf(v)
  {
    if v.DenyWith? {
      DenyCodesApart(v.deny);
    }
  }

  lemma {:induction false} DecisionOfLast(before: seq<Frame>, f: Frame, gate: string)
    requires DecisionOfAll(before, gate).None?
    ensures DecisionOfAll(before + [f], gate) == DecisionIn(f.body, f.program, gate)
    decreases |before|
  {
    var all := before + [f];
    if before == [] {
      assert all == [f] && all[1..] == [];
    } else {
      assert all[0] == before[0] && all[1..] == before[1..] + [f];
      DecisionOfLast(before[1..], f, gate);
    }
  }

  lemma DenyCodesApart(d: D.Deny)
    ensures D.DenyCode(d) == "COMPLIANT" <==> d == D.Compliant
  {
    if d.DenyFlag? {
      assert D.FlagCode(d.flag)[0] != 'C' || D.FlagCode(d.flag)[1] == 'R';
    }
  }

  // ----- Cut logs

  /** The outcome of a freeze that landed, when the gate's frame opens at line `i` and its decision is told at `k`. */
  function FrozenByCut(n: nat, i: int, k: int, code: string): Outcome {
    if n <= i then AlreadyFrozen else if n <= k then Frozen("UNKNOWN") else Frozen(code)
  }

  /**
   * A freeze the gate allowed with `a` and that landed, whatever other programs log: for every cut of its logs after n
   * lines the outcome is frozen with the gate's reason if and only if the cut keeps line k, and otherwise an unknown
   * reason or, before the gate's frame, "already frozen". It is never a refusal.
   */
  lemma FrozenFromCuts(frames: seq<Frame>, gate: string, a: D.Allow) returns (i: int, k: int)
    requires IsProgramId(gate) && GatePrintableAll(frames, gate)
    requires DecisionOfAll(frames, gate) == Some(TgOf(D.AllowWith(a)))
    ensures var lines := PrintAll(frames);
      && OpensGate(lines, gate, i) && TellsDecision(START, lines, gate, k) && i < k
      && forall n: nat | n <= |lines| ::
           && ClassifyLogs(lines[..n], true, gate) == FrozenByCut(n, i, k, D.AllowCode(a))
           && (ClassifyLogs(lines[..n], true, gate) == OutcomeOf(D.AllowWith(a)) <==> n > k)
  {
    i, k := AllowNeedsItsLine(frames, gate, D.AllowCode(a));
    AllowCodesAreKnown(a);
  }

  lemma AllowCodesAreKnown(a: D.Allow)
    ensures D.AllowCode(a) != "UNKNOWN"
  {
    if a.Flagged? {
      assert D.FlagCode(a.flag)[0] != 'U';
    }
    assert "UNKNOWN"[0] == 'U' && D.AllowCode(a)[0] != 'U';
  }

  /** The outcome of a failed freeze from a cut: the gate's code needs the decision's line, there being no error
      number to fall back on; a failure line alone gives the failing program and its message. */
  function RefusedByCut(n: nat, k: int, j: int, d: D.Deny, failure: Option<(string, string)>): Outcome {
    if n > k then OutcomeOf(D.DenyWith(d))
    else if n > j && failure.Some? && failure.value.0 != "unknown" then
      Refused(failure.value.0 + ": " + failure.value.1)
    else Refused("UNKNOWN")
  }

  /**
   * A freeze the gate denied with `d`, whatever other programs log: line k tells the decision, line j (the end, if
   * there is none) the first failure, and they decide the outcome of every cut. So the denial is recovered when the
   * cut keeps line k, and no cut without it gives the gate's answer.
   */
  lemma RefusedFromCuts(frames: seq<Frame>, gate: string, d: D.Deny) returns (k: int, j: int)
    requires IsProgramId(gate) && GatePrintableAll(frames, gate)
    requires DecisionOfAll(frames, gate) == Some(TgOf(D.DenyWith(d)))
    ensures var lines := PrintAll(frames);
      && TellsDecision(START, lines, gate, k) && (TellsFailure(lines, j) || j == |lines|)
      && forall n: nat | n <= |lines| ::
           var failure := if j < |lines| then FailureOnLine(lines[j]) else None;
           && ClassifyLogs(lines[..n], false, gate) == RefusedByCut(n, k, j, d, failure)
           && (ClassifyLogs(lines[..n], false, gate) == OutcomeOf(D.DenyWith(d)) <==> n > k)
  {
    var lines := PrintAll(frames);
    OthersCannotImpersonate(frames, gate);
    assert lines[..|lines|] == lines;
    k := FirstGateTg(START, lines, gate, |lines|);
    CutKnowsDecision(START, lines, gate, k, |lines|);
    j := FirstFailure(lines, |lines|);
    var failure := if j < |lines| then FailureOnLine(lines[j]) else None;
    forall n: nat | n <= |lines|
      ensures ClassifyLogs(lines[..n], false, gate) == RefusedByCut(n, k, j, d, failure)
      ensures ClassifyLogs(lines[..n], false, gate) == OutcomeOf(D.DenyWith(d)) <==> n > k
    {
      CutKnowsDecision(START, lines, gate, k, n);
      CutKnowsFailure(START, lines, gate, j, n);
      RefusedOfParsed(Run(START, lines[..n], gate).seen, gate, n, k, j, d, failure);
    }
  }

  lemma RefusedOfParsed(p: Parsed, gate: string, n: nat, k: int, j: int, d: D.Deny, failure: Option<(string, string)>)
    requires p.decision == if n > k then Some(TgOf(D.DenyWith(d))) else None
    requires p.failure == if n > j then failure else None
    ensures var o := OutcomeOfVerdict(Classify(p, false, gate, None));
      o == RefusedByCut(n, k, j, d, failure) && (o == OutcomeOf(D.DenyWith(d)) <==> n > k)
  {
    DenyCodesApart(d);
    var parts := if failure.Some? then failure.value else ("", "");
    NoCodeHasColon(d, parts.0, parts.1);
  }

  /** A gate code is neither "UNKNOWN" nor of the form "program: message". */
  lemma NoCodeHasColon(d: D.Deny, program: string, message: string)
    ensures D.DenyCode(d) != program + ": " + message && D.DenyCode(d) != "UNKNOWN"
  {
    DenyCodesAreCodes(d);
    var s := program + ": " + message;
    assert s[|program|] == ':' && !IsCodeChar(':');
    assert "UNKNOWN"[0] == 'U';
  }

  predicate IsFailedLine(line: string) {
    var parts := FrameParts(line);
    parts.Some? && Begins(parts.value.1, " failed: ")
  }

  lemma FailedLineExactly(line: string)
    ensures IsFailedLine(line) <==> GoesOnWith(line, "failed: ")
  {
    GoesOnExactly(line, "failed: ");
    assert " " + "failed: " == " failed: ";
  }

  predicate ProgramFailed(logs: seq<string>) {
    exists i :: 0 <= i < |logs| && IsFailedLine(logs[i])
  }

  /** What the cluster answered to one attempt; `Threw` is any error outside sending. */
  datatype Answer =
    | Threw(error: string)
    | SendFailed(preflight: Option<seq<string>>, error: string)
    | Expired
    | Confirmed(failed: bool, logs: Option<seq<string>>)

  datatype Attempt = Finished(outcome: Outcome) | Retry(error: string)

  function Judge(a: Answer, gate: string): Attempt {
    match a
    case Threw(error) => Retry(error)
    case SendFailed(preflight, error) =>
      if preflight.Some? && ProgramFailed(preflight.value) then
        var verdict := ClassifyLogs(preflight.value, false, gate);
        if verdict.IsCompliant? || verdict.Refused? then Finished(verdict) else Retry("send: " + error)
      else Retry("send: " + error)
    case Expired => Retry("blockhash expired before confirmation")
    case Confirmed(failed, logs) =>
      if logs.None? && !failed then Finished(Frozen("UNKNOWN"))
      else Finished(ClassifyLogs(if logs.Some? then logs.value else [], !failed, gate))
  }

  /** A freeze is reported only for a transaction that was confirmed without error. */
  lemma FrozenMeansConfirmed(a: Answer, gate: string)
    ensures Judge(a, gate).Finished? && (Judge(a, gate).outcome.Frozen? || Judge(a, gate).outcome.AlreadyFrozen?)
         ==> a.Confirmed? && !a.failed
    ensures a.Confirmed? && a.failed ==>
      Judge(a, gate).Finished? && (Judge(a, gate).outcome.IsCompliant? || Judge(a, gate).outcome.Refused?)
  {
  }

  /** The logs hold the line of a program that failed. */
  ghost predicate ShowsFailure(logs: seq<string>) {
    exists i :: 0 <= i < |logs| && GoesOnWith(logs[i], "failed: ")
  }

  /** An answer after which a run goes on: nothing was decided. */
  ghost predicate GoesOn(a: Answer) {
    a.Threw? || a.Expired? || (a.SendFailed? && (a.preflight.None? || !ShowsFailure(a.preflight.value)))
  }

  /** The text such an answer leaves behind. */
  function ErrorText(a: Answer): string
    requires !a.Confirmed?
  {
    match a
    case Threw(error) => error
    case SendFailed(_, error) => "send: " + error
    case Expired => "blockhash expired before confirmation"
  }

  /** An attempt is retried exactly on such an answer, and then with its text. */
  lemma RetriedExactly(a: Answer, gate: string)
    ensures Judge(a, gate).Retry? <==> GoesOn(a)
    ensures GoesOn(a) ==> Judge(a, gate).error == ErrorText(a)
  {
    if a.SendFailed? && a.preflight.Some? {
      var logs := a.preflight.value;
      forall i | 0 <= i < |logs|
        ensures IsFailedLine(logs[i]) <==> GoesOnWith(logs[i], "failed: ")
      {
        FailedLineExactly(logs[i]);
      }
      FailedVerdict(logs, gate);
    }
  }

  lemma FailedVerdict(logs: seq<string>, gate: string)
    ensures var o := ClassifyLogs(logs, false, gate); o.IsCompliant? || o.Refused?
  {
  }

  /** The outcome of a run: that of the first attempt that finishes, or the last error of five. */
  function RunOutcome(answers: seq<Answer>, gate: string, attempt: nat, lastError: string): Outcome
    requires |answers| == 5 && attempt <= MAX_ATTEMPTS
    decreases MAX_ATTEMPTS - attempt
  {
    if attempt == MAX_ATTEMPTS then Exhausted(lastError)
    else match Judge(answers[attempt], gate)
      case Finished(o) => o
      case Retry(error) => RunOutcome(answers, gate, attempt + 1, error)
  }

  /**
   * How a run ends, given how many attempts it used: every attempt before the last went on, and the last either did not
   * or was the fifth, whose text is then the outcome.
   */
  ghost predicate EndsAfter(answers: seq<Answer>, used: nat, o: Outcome)
    requires |answers| == 5
  {
    && 1 <= used <= 5
    && (forall i :: 0 <= i < used - 1 ==> GoesOn(answers[i]))
    && (GoesOn(answers[used - 1]) ==> used == 5 && o == Exhausted(ErrorText(answers[used - 1])))
  }

  /** The retry loop. `answers` are what the cluster would say to each attempt in turn. */
  method RunAttempts(answers: seq<Answer>, gate: string) returns (o: Outcome, used: nat)
    requires |answers| == 5
    ensures EndsAfter(answers, used, o) && o == RunOutcome(answers, gate, 0, "")
    ensures !GoesOn(answers[used - 1]) ==> Judge(answers[used - 1], gate) == Finished(o)
    ensures o.Frozen? || o.AlreadyFrozen? ==> answers[used - 1].Confirmed? && !answers[used - 1].failed
  {
    var lastError := "";
    used := 0;
    while used < MAX_ATTEMPTS
      invariant used <= MAX_ATTEMPTS
      invariant RunOutcome(answers, gate, used, lastError) == RunOutcome(answers, gate, 0, "")
      invariant forall i :: 0 <= i < used ==> GoesOn(answers[i])
      invariant used > 0 ==> lastError == ErrorText(answers[used - 1])
    {
      var attempt := Judge(answers[used], gate);
      RetriedExactly(answers[used], gate);
      used := used + 1;
      if attempt.Finished? {
        FrozenMeansConfirmed(answers[used - 1], gate);
        o := attempt.outcome;
        return;
      }
      lastError := attempt.error;
    }
    o := Exhausted(lastError);
  }

  // ----- What each conclusive answer means, on call trees

  /** The `n`-th answer is the first conclusive one, so the run ends there, as that answer is judged. */
  lemma {:induction false} EndsAt(answers: seq<Answer>, gate: string, n: nat, from: nat, lastError: string)
    requires |answers| == 5 && from <= n < 5
    requires !GoesOn(answers[n]) && forall i :: from <= i < n ==> GoesOn(answers[i])
    ensures Judge(answers[n], gate) == Finished(RunOutcome(answers, gate, from, lastError))
    decreases n - from
  {
    RetriedExactly(answers[from], gate);
    if from < n {
      EndsAt(answers, gate, n, from + 1, Judge(answers[from], gate).error);
    }
  }

  predicate SomeFrameFails(frames: seq<Frame>) {
    exists i :: 0 <= i < |frames| && IsProgramId(frames[i].program) && frames[i].exit.Failed?
  }

  lemma {:induction false} FailingFrameShows(frames: seq<Frame>)
    requires SomeFrameFails(frames)
    ensures ShowsFailure(PrintAll(frames))
    decreases |frames|
  {
    var first, rest := frames[0], frames[1..];
    var lines, head := PrintAll(frames), Print(first, 1);
    assert lines == head + PrintAll(rest);
    if IsProgramId(first.program) && first.exit.Failed? {
      ProgramIdIsWord(first.program);
      var k := |head| - 1;
      assert lines[k] == head[k] == ExitLine(first) == Line(first.program, "failed: " + first.exit.message);
      assert GoesOnWith(lines[k], "failed: ");
    } else {
      var i :| 0 <= i < |frames| && IsProgramId(frames[i].program) && frames[i].exit.Failed?;
      assert rest[i - 1] == frames[i];
      FailingFrameShows(rest);
      var k :| 0 <= k < |PrintAll(rest)| && GoesOnWith(PrintAll(rest)[k], "failed: ");
      assert lines[|head| + k] == PrintAll(rest)[k];
    }
  }

  /**
   * A preflight the gate denied with `d` ends the run at once, with the gate's answer: a compliant owner is not tried
   * again.
   */
  method DeniedPreflight(answers: seq<Answer>, gate: string, n: nat, frames: seq<Frame>, error: string, d: D.Deny)
    returns (o: Outcome, used: nat)
    requires |answers| == 5 && n < 5 && forall i :: 0 <= i < n ==> GoesOn(answers[i])
    requires answers[n] == SendFailed(Some(PrintAll(frames)), error)
    requires IsProgramId(gate) && GatePrintableAll(frames, gate) && SomeFrameFails(frames)
    requires DecisionOfAll(frames, gate) == Some(TgOf(D.DenyWith(d)))
    ensures used == n + 1 && o == OutcomeOf(D.DenyWith(d))
  {
    FailingFrameShows(frames);
    OutcomeFromLogs(frames, gate, D.DenyWith(d));
    EndsAt(answers, gate, n, 0, "");
    FailedVerdict(PrintAll(frames), gate);
    o, used := RunAttempts(answers, gate);
  }

  /** A transaction that was confirmed ends the run with the gate's answer, if its logs tell one. */
  method ConfirmedWithDecision(answers: seq<Answer>, gate: string, n: nat, frames: seq<Frame>, v: D.Verdict)
    returns (o: Outcome, used: nat)
    requires |answers| == 5 && n < 5 && forall i :: 0 <= i < n ==> GoesOn(answers[i])
    requires answers[n] == Confirmed(v.DenyWith?, Some(PrintAll(frames)))
    requires IsProgramId(gate) && GatePrintableAll(frames, gate)
    requires DecisionOfAll(frames, gate) == Some(TgOf(v))
    ensures used == n + 1 && o == OutcomeOf(v)
  {
    OutcomeFromLogs(frames, gate, v);
    EndsAt(answers, gate, n, 0, "");
    o, used := RunAttempts(answers, gate);
  }

  /** One that landed without calling the gate found the account frozen already. */
  method ConfirmedWithoutGate(answers: seq<Answer>, gate: string, n: nat, frames: seq<Frame>)
    returns (o: Outcome, used: nat)
    requires |answers| == 5 && n < 5 && forall i :: 0 <= i < n ==> GoesOn(answers[i])
    requires answers[n] == Confirmed(false, Some(PrintAll(frames)))
    requires IsProgramId(gate) && GatePrintableAll(frames, gate)
    requires forall i :: 0 <= i < |frames| ==> !Invokes(frames[i], gate)
    ensures used == n + 1 && o == AlreadyFrozen
  {
    OthersCannotImpersonate(frames, gate);
    EndsAt(answers, gate, n, 0, "");
    o, used := RunAttempts(answers, gate);
  }

  /** One whose logs are not served is a freeze for an unknown reason, or a refusal with an unknown code. */
  method ConfirmedWithoutLogs(answers: seq<Answer>, gate: string, n: nat, failed: bool)
    returns (o: Outcome, used: nat)
    requires |answers| == 5 && n < 5 && forall i :: 0 <= i < n ==> GoesOn(answers[i])
    requires answers[n] == Confirmed(failed, None)
    ensures used == n + 1 && o == if failed then Refused("UNKNOWN") else Frozen("UNKNOWN")
  {
    EndsAt(answers, gate, n, 0, "");
    o, used := RunAttempts(answers, gate);
  }

  /** A failure outside the gate, in preflight or on chain, ends the run naming the innermost failing program. */
  method FailedOutsideGate(answers: seq<Answer>, gate: string, n: nat, frames: seq<Frame>, error: string,
                           program: string, message: string)
    returns (o: Outcome, used: nat)
    requires |answers| == 5 && n < 5 && forall i :: 0 <= i < n ==> GoesOn(answers[i])
    requires answers[n]
         == SendFailed(Some(PrintAll(frames)), error) || answers[n] == Confirmed(true, Some(PrintAll(frames)))
    requires PrintableAll(frames) && SomeFrameFails(frames)
    requires DecisionOfAll(frames, gate).None? && FailureOfAll(frames) == Some((program, message))
    requires program != "unknown"
    ensures used == n + 1 && o == Refused(program + ": " + message)
  {
    FailingFrameShows(frames);
    ParsePrinted(frames, gate);
    EndsAt(answers, gate, n, 0, "");
    FailedVerdict(PrintAll(frames), gate);
    o, used := RunAttempts(answers, gate);
  }

  // ----- Runs in flight

  /** A started run: what every caller waiting for it holds. */
  class Running {
    const tokenAccount: Address
    var outcome: Option<Outcome>

    constructor (tokenAccount: Address)
      ensures this.tokenAccount == tokenAccount && outcome == None
    {
      this.tokenAccount := tokenAccount;
      outcome := None;
    }
  }

  /** The counters a recorded outcome increments, with their labels. */
  datatype Metric = Freezes(reason: string) | Skipped(outcome: string) | Denied(code: string) | Failures

  function MetricOf(o: Outcome): Metric {
    match o
    case Frozen(reason) => Freezes(reason)
    case AlreadyFrozen => Metric.Skipped("already_frozen")
    case IsCompliant => Metric.Skipped("compliant")
    case Refused(code) => Metric.Denied(if |code| > 64 then code[..64] else code)
    case Exhausted(_) => Failures
  }

  class Freezer {
    var inflight: map<Address, Running>
    var counters: multiset<Metric>
    ghost var started: nat

    constructor ()
      ensures Valid() && inflight.Keys == {} && counters == multiset{} && started == 0
    {
      inflight, counters, started := map[], multiset{}, 0;
      new;
      assert Unrecorded() == {};
    }

    /** Live runs whose outcome is not recorded yet. */
    ghost function Unrecorded(): set<Address>
      reads this, inflight.Values
    {
      set ta | ta in inflight && inflight[ta].outcome.None?
    }

    /** One run per token account, and every run started is recorded once or still to be recorded. */
    ghost predicate Valid()
      reads this, inflight.Values
    {
      && (forall ta :: ta in inflight ==> inflight[ta].tokenAccount == ta)
      && started == |counters| + |Unrecorded()|
    }

    /** Joins the live run of this token account, or starts one. */
    method Freeze(tokenAccount: Address) returns (run: Running)
      requires Valid()
      modifies this
      ensures Valid() && inflight == old(inflight)[tokenAccount := run] && counters == old(counters)
      ensures if tokenAccount in old(inflight) then run == old(inflight)[tokenAccount] && started == old(started)
              else fresh(run) && run.outcome == None && started == old(started) + 1
      ensures run.tokenAccount == tokenAccount
    {
      if tokenAccount in inflight {
        run := inflight[tokenAccount];
        assert inflight == inflight[tokenAccount := run];
        return;
      }
      ghost var before := Unrecorded();
      run := new Running(tokenAccount);
      inflight := inflight[tokenAccount := run];
      started := started + 1;
      assert Unrecorded() == before + {tokenAccount};
    }

    /** A run's outcome arrives: it is recorded, and everyone holding the run sees it. */
    method Settle(run: Running, outcome: Outcome)
      requires Valid() && run in inflight.Values && run.outcome == None
      modifies this`counters, run
      ensures Valid() && inflight == old(inflight) && started == old(started)
      ensures run.outcome == Some(outcome) && counters == old(counters) + multiset{MetricOf(outcome)}
    {
      ghost var before := Unrecorded();
      run.outcome := Some(outcome);
      counters := counters + multiset{MetricOf(outcome)};
      assert run.tokenAccount in before && inflight[run.tokenAccount] == run;
      assert Unrecorded() == before - {run.tokenAccount};
    }

    /** The run's last step: the token account may be tried again. */
    method Finish(run: Running)
      requires Valid() && run in inflight.Values && run.outcome.Some?
      modifies this`inflight
      ensures Valid() && inflight == old(inflight) - {run.tokenAccount} && counters == old(counters)
      ensures started == old(started)
    {
      ghost var before := Unrecorded();
      inflight := inflight - {run.tokenAccount};
      assert Unrecorded() == before;
    }
  }

  /** A request for a token account, an outcome for its live run, or that run's last step. */
  datatype Event = Request(ta: Address) | Outcomes(ta: Address, outcome: Outcome) | Ends(ta: Address)

  /**
   * The freezer as a value. Runs are numbered in the order they start; `live` is the run of each token account in
   * flight, and `runs` holds every run's outcome so far.
   */
  datatype View = View(live: map<Address, nat>, runs: seq<Option<Outcome>>, counters: multiset<Metric>)

  predicate Sound(v: View) {
    && (forall ta :: ta in v.live ==> v.live[ta] < |v.runs|)
    && (forall ta, tb :: ta in v.live && tb in v.live && v.live[ta] == v.live[tb] ==> ta == tb)
  }

  predicate IsOpen(v: View, ta: Address)
    requires Sound(v)
  {
    ta in v.live && v.runs[v.live[ta]].None?
  }

  predicate IsSettled(v: View, ta: Address)
    requires Sound(v)
  {
    ta in v.live && v.runs[v.live[ta]].Some?
  }

  function Apply(v: View, e: Event): (r: View)
    requires Sound(v)
    ensures Sound(r)
  {
    match e
    case Request(ta) =>
      if ta in v.live then v else v.(live := v.live[ta := |v.runs|], runs := v.runs + [None])
    case Outcomes(ta, o) =>
      if !IsOpen(v, ta) then v
      else v.(runs := v.runs[v.live[ta] := Some(o)], counters := v.counters + multiset{MetricOf(o)})
    case Ends(ta) => if IsSettled(v, ta) then v.(live := v.live - {ta}) else v
  }

  function After(events: seq<Event>): (v: View)
    ensures Sound(v)
  {
    if events == [] then View(map[], [], multiset{}) else Apply(After(events[..|events| - 1]), events[|events| - 1])
  }

  function Unsettled(v: View): set<Address>
    requires Sound(v)
  {
    set ta | ta in v.live && IsOpen(v, ta)
  }

  /**
   * Along every interleaving the runs started are exactly the recorded outcomes plus the live runs without one; with
   * nothing in flight every run was recorded.
   */
  lemma {:induction false} EveryRunCounted(events: seq<Event>)
    ensures var v := After(events);
      && |v.runs| == |v.counters| + |Unsettled(v)|
      && (v.live.Keys == {} ==> |v.runs| == |v.counters|)
  {
    if events == [] {
      assert Unsettled(After(events)) == {};
    } else {
      var before, e := After(events[..|events| - 1]), events[|events| - 1];
      EveryRunCounted(events[..|events| - 1]);
      UnsettledStep(before, e);
      assert After(events).live.Keys == {} ==> Unsettled(After(events)) == {};
    }
  }

  /** How many runs have ended with an outcome of which `p` holds. */
  function Ended(runs: seq<Option<Outcome>>, p: Outcome -> bool): nat {
    if runs == [] then 0
    else
      Ended(runs[..|runs| - 1], p)
      + if runs[|runs| - 1].Some? && p(runs[|runs| - 1].value) then 1 else 0
  }

  /**
   * Every counter counts the runs that ended its way: freezes by reason, skipped ones as already frozen or compliant,
   * denials by code (cut to 64 characters, so codes alike in those share a counter), and failures.
   */
  lemma CountersExactly(events: seq<Event>, reason: string, code: string)
    ensures var v := After(events);
      && v.counters[Freezes(reason)] == Ended(v.runs, o => o == Frozen(reason))
      && v.counters[Metric.Skipped("already_frozen")] == Ended(v.runs, (o: Outcome) => o.AlreadyFrozen?)
      && v.counters[Metric.Skipped("compliant")] == Ended(v.runs, (o: Outcome) => o.IsCompliant?)
      && v.counters[Metric.Denied(code)]
         == Ended(v.runs, (o: Outcome) => o.Refused? && code == if |o.code| > 64 then o.code[..64] else o.code)
      && v.counters[Failures] == Ended(v.runs, (o: Outcome) => o.Exhausted?)
  {
    OneCounter(events, Freezes(reason), o => o == Frozen(reason));
    OneCounter(events, Metric.Skipped("already_frozen"), (o: Outcome) => o.AlreadyFrozen?);
    OneCounter(events, Metric.Skipped("compliant"), (o: Outcome) => o.IsCompliant?);
    OneCounter(events, Metric.Denied(code),
               (o: Outcome) => o.Refused? && code == if |o.code| > 64 then o.code[..64] else o.code);
    OneCounter(events, Failures, (o: Outcome) => o.Exhausted?);
  }

  lemma {:induction false} OneCounter(events: seq<Event>, m: Metric, p: Outcome -> bool)
    requires forall o :: p(o) <==> MetricOf(o) == m
    ensures After(events).counters[m] == Ended(After(events).runs, p)
  {
    if events != [] {
      var before, e := After(events[..|events| - 1]), events[|events| - 1];
      OneCounter(events[..|events| - 1], m, p);
      if e.Request? && e.ta !in before.live {
        assert (before.runs + [None])[..|before.runs|] == before.runs;
      } else if e.Outcomes? && IsOpen(before, e.ta) {
        EndedOneMore(before.runs, before.live[e.ta], e.outcome, p);
      }
    }
  }

  lemma {:induction false} EndedOneMore(runs: seq<Option<Outcome>>, id: nat, o: Outcome, p: Outcome -> bool)
    requires id < |runs| && runs[id].None?
    ensures Ended(runs[id := Some(o)], p) == Ended(runs, p) + if p(o) then 1 else 0
    decreases |runs|
  {
    var n := |runs| - 1;
    var after := runs[id := Some(o)];
    if id == n {
      assert after[..n] == runs[..n];
    } else {
      assert after[..n] == runs[..n][id := Some(o)];
      EndedOneMore(runs[..n], id, o, p);
    }
  }

  lemma UnsettledStep(v: View, e: Event)
    requires Sound(v)
    ensures var v' := Apply(v, e);
      |v'.runs| - |v'.counters| - |Unsettled(v')| == |v.runs| - |v.counters| - |Unsettled(v)|
  {
    match e
    case Request(ta) =>
      if ta !in v.live {
        OneMore(v, Apply(v, e), ta);
      }
    case Outcomes(ta, o) =>
      if IsOpen(v, ta) {
        OneLess(v, Apply(v, e), ta);
      }
    case Ends(ta) => SameUnsettled(v, Apply(v, e));
  }

  lemma OneMore(v: View, v': View, ta: Address)
    requires Sound(v) && Sound(v') && ta !in v.live && v' == v.(live := v.live[ta := |v.runs|], runs := v.runs + [None])
    ensures |Unsettled(v')| == |Unsettled(v)| + 1
  {
    forall t | t in v'.live ensures IsOpen(v', t) <==> t == ta || (t in v.live && IsOpen(v, t)) {
      if t != ta {
        assert v'.live[t] == v.live[t] < |v.runs|;
      }
    }
    PlusOne(Unsettled(v), Unsettled(v'), ta);
  }

  lemma PlusOne(s: set<Address>, s': set<Address>, a: Address)
    requires a !in s && forall x :: x in s' <==> x == a || x in s
    ensures |s'| == |s| + 1
  {
    assert s' == s + {a};
  }

  lemma OneLess(v: View, v': View, ta: Address)
    requires Sound(v) && Sound(v') && IsOpen(v, ta) && v'.live == v.live
    requires exists o :: v'.runs == v.runs[v.live[ta] := Some(o)]
    ensures |Unsettled(v')| == |Unsettled(v)| - 1
  {
    assert Unsettled(v') == Unsettled(v) - {ta};
  }

  lemma SameUnsettled(v: View, v': View)
    requires Sound(v) && Sound(v') && v'.runs == v.runs && v'.counters == v.counters
    requires forall ta :: IsOpen(v', ta) <==> IsOpen(v, ta)
    ensures Unsettled(v') == Unsettled(v)
  {
  }

  // ----- Who shares a run

  /** The run that the `i`-th event, a request, was handed. */
  function HandedRun(events: seq<Event>, i: nat): (id: nat)
    requires i < |events| && events[i].Request?
  {
    assert events[..i + 1][..i] == events[..i];
    After(events[..i + 1]).live[events[i].ta]
  }

  /** Event `k` ends a run of `ta`. */
  predicate EndsRun(events: seq<Event>, ta: Address, k: nat)
    requires k < |events|
  {
    events[k] == Ends(ta) && IsSettled(After(events[..k]), ta)
  }

  predicate EndsBetween(events: seq<Event>, ta: Address, i: nat, j: nat)
    requires j <= |events|
  {
    exists k :: i < k < j && EndsRun(events, ta, k)
  }

  lemma AfterStep(events: seq<Event>, i: nat)
    requires i < |events|
    ensures After(events[..i + 1]) == Apply(After(events[..i]), events[i])
  {
    assert events[..i + 1][..i] == events[..i];
  }

  /** One event as one run of `ta` sees it. */
  lemma RunStep(v: View, e: Event, ta: Address, id: nat)
    requires Sound(v) && id < |v.runs|
    ensures var v' := Apply(v, e);
      && id < |v'.runs|
      && (v.runs[id].Some? ==> v'.runs[id] == v.runs[id])
      && ((ta in v.live ==> v.live[ta] > id) ==> ta in v'.live ==> v'.live[ta] > id)
      && (ta in v.live && v.live[ta] == id ==>
            if e == Ends(ta) && IsSettled(v, ta) then ta !in v'.live else ta in v'.live && v'.live[ta] == id)
  {
  }

  lemma EndsBetweenStep(events: seq<Event>, ta: Address, i: nat, n: nat)
    requires i < n < |events|
    ensures EndsBetween(events, ta, i, n + 1) <==> EndsBetween(events, ta, i, n) || EndsRun(events, ta, n)
  {
    if k :| i < k < n + 1 && EndsRun(events, ta, k) {
      assert k < n || k == n;
    }
  }

  /** The run is its token account's at this point, or else it ended and any present run is a later one. */
  predicate RunIs(v: View, ta: Address, id: nat, ended: bool) {
    id < |v.runs| && if ended then ta in v.live ==> v.live[ta] > id else ta in v.live && v.live[ta] == id
  }

  /** A request's run stays its token account's until it ends; any later run is another. */
  lemma {:induction false} RunUntilEnd(events: seq<Event>, i: nat, n: nat)
    requires i < n <= |events| && events[i].Request?
    ensures RunIs(After(events[..n]), events[i].ta, HandedRun(events, i), EndsBetween(events, events[i].ta, i, n))
    decreases n
  {
    if n == i + 1 {
      AfterStep(events, i);
    } else {
      RunUntilEnd(events, i, n - 1);
      AfterStep(events, n - 1);
      EndsBetweenStep(events, events[i].ta, i, n - 1);
      RunStep(After(events[..n - 1]), events[n - 1], events[i].ta, HandedRun(events, i));
    }
  }

  /** Two requests for a token account are handed the same run if and only if no run of it ended between them. */
  lemma SharedUntilEnd(events: seq<Event>, i: nat, j: nat)
    requires i < j < |events| && events[i].Request? && events[j] == events[i]
    ensures HandedRun(events, i) == HandedRun(events, j) <==> !EndsBetween(events, events[i].ta, i, j)
  {
    RunUntilEnd(events, i, j);
    AfterStep(events, j);
  }

  /** An outcome, once known, is the run's for good. */
  lemma {:induction false} OutcomeStays(events: seq<Event>, id: nat, k: nat, n: nat)
    requires k <= n <= |events| && id < |After(events[..k]).runs| && After(events[..k]).runs[id].Some?
    ensures id < |After(events[..n]).runs| && After(events[..n]).runs[id] == After(events[..k]).runs[id]
    decreases n
  {
    if k < n {
      OutcomeStays(events, id, k, n - 1);
      AfterStep(events, n - 1);
      RunStep(After(events[..n - 1]), events[n - 1], events[n - 1].ta, id);
    }
  }

  /**
   * Everyone handed a run before its outcome arrives gets that outcome: the first that arrives, and no later one
   * replaces it.
   */
  lemma OutcomeIsShared(events: seq<Event>, i: nat, k: nat)
    requires i < k < |events| && events[i].Request? && events[k].Outcomes? && events[k].ta == events[i].ta
    requires IsOpen(After(events[..k]), events[k].ta) && !EndsBetween(events, events[i].ta, i, k)
    ensures var id, v := HandedRun(events, i), After(events);
      id < |v.runs| && v.runs[id] == Some(events[k].outcome)
  {
    RunUntilEnd(events, i, k);
    AfterStep(events, k);
    OutcomeStays(events, HandedRun(events, i), k + 1, |events|);
    assert events[..|events|] == events;
  }

  // ----- The freezer holds the value

  /** `objects` are the runs in the order they started. */
  ghost predicate Represents(f: Freezer, objects: seq<Running>, v: View)
    reads f, objects
  {
    && Sound(v) && f.started == |objects| == |v.runs| && f.counters == v.counters
    && (forall i, j :: 0 <= i < j < |objects| ==> objects[i] != objects[j])
    && (forall i :: 0 <= i < |objects| ==> objects[i].outcome == v.runs[i])
    && f.inflight.Keys == v.live.Keys
    && (forall ta :: ta in v.live ==> f.inflight[ta] == objects[v.live[ta]])
  }

  method TakeRequest(f: Freezer, e: Event, ghost objects: seq<Running>, ghost v: View)
    returns (run: Running, ghost objects': seq<Running>)
    requires f.Valid() && Represents(f, objects, v) && e.Request?
    modifies f
    ensures f.Valid() && Represents(f, objects', Apply(v, e))
    ensures objects <= objects' && forall i :: |objects| <= i < |objects'| ==> fresh(objects'[i])
    ensures run == objects'[Apply(v, e).live[e.ta]]
  {
    if e.ta in f.inflight {
      run := f.Freeze(e.ta);
      objects' := objects;
    } else {
      run, objects' := Start(f, e.ta, objects, v);
    }
  }

  method Start(f: Freezer, ta: Address, ghost objects: seq<Running>, ghost v: View)
    returns (run: Running, ghost objects': seq<Running>)
    requires f.Valid() && Represents(f, objects, v) && ta !in v.live
    modifies f
    ensures f.Valid() && objects' == objects + [run] && fresh(run)
    ensures Represents(f, objects', Apply(v, Request(ta)))
  {
    ghost var inflight := f.inflight;
    run := f.Freeze(ta);
    objects' := objects + [run];
    forall i | 0 <= i < |objects'| ensures objects'[i].outcome == (v.runs + [None])[i] {
      assert i < |objects| ==> objects'[i] == objects[i];
    }
    forall t | t in v.live ensures f.inflight[t] == objects'[v.live[t]] {
      assert f.inflight[t] == inflight[t] == objects[v.live[t]];
    }
  }

  method TakeOutcome(f: Freezer, e: Event, ghost objects: seq<Running>, ghost v: View)
    requires f.Valid() && Represents(f, objects, v) && e.Outcomes?
    modifies f, set i | 0 <= i < |objects| :: objects[i]
    ensures f.Valid() && Represents(f, objects, Apply(v, e))
  {
    if e.ta in f.inflight && f.inflight[e.ta].outcome.None? {
      ghost var id := v.live[e.ta];
      f.Settle(f.inflight[e.ta], e.outcome);
      forall i | 0 <= i < |objects| ensures objects[i].outcome == v.runs[id := Some(e.outcome)][i] {
        assert i != id ==> objects[i] != objects[id];
      }
    }
  }

  method TakeEnd(f: Freezer, e: Event, ghost objects: seq<Running>, ghost v: View)
    requires f.Valid() && Represents(f, objects, v) && e.Ends?
    modifies f
    ensures f.Valid() && Represents(f, objects, Apply(v, e))
  {
    if e.ta in f.inflight && f.inflight[e.ta].outcome.Some? {
      f.Finish(f.inflight[e.ta]);
    }
  }

  method Take(f: Freezer, e: Event, ghost objects: seq<Running>, ghost v: View)
    returns (run: Option<Running>, ghost objects': seq<Running>)
    requires f.Valid() && Represents(f, objects, v)
    modifies f, set i | 0 <= i < |objects| :: objects[i]
    ensures f.Valid() && Represents(f, objects', Apply(v, e))
    ensures objects <= objects' && forall i :: |objects| <= i < |objects'| ==> fresh(objects'[i])
    ensures run == if e.Request? then Some(objects'[Apply(v, e).live[e.ta]]) else None
  {
    run, objects' := None, objects;
    if e.Request? {
      var r;
      r, objects' := TakeRequest(f, e, objects, v);
      run := Some(r);
    } else if e.Outcomes? {
      TakeOutcome(f, e, objects, v);
    } else {
      TakeEnd(f, e, objects, v);
    }
  }

  /** Each request so far was handed its run; other events are handed nothing. */
  ghost predicate AllHanded(events: seq<Event>, handed: seq<Option<Running>>, objects: seq<Running>) {
    |handed| <= |events| && forall i :: 0 <= i < |handed| ==> IsHanded(events, i, handed[i], objects)
  }

  ghost predicate IsHanded(events: seq<Event>, i: nat, run: Option<Running>, objects: seq<Running>)
    requires i < |events|
  {
    if events[i].Request? then HandedRun(events, i) < |objects| && run == Some(objects[HandedRun(events, i)])
    else run == None
  }

  lemma HandedGrows(events: seq<Event>, handed: seq<Option<Running>>, objects: seq<Running>, objects': seq<Running>,
                    run: Option<Running>)
    requires AllHanded(events, handed, objects) && objects <= objects' && |handed| < |events|
    requires IsHanded(events, |handed|, run, objects')
    ensures AllHanded(events, handed + [run], objects')
  {
    forall i | 0 <= i < |handed| ensures IsHanded(events, i, handed[i], objects') {
      assert IsHanded(events, i, handed[i], objects);
    }
  }

  /** Two requests for a token account hold the same run if and only if no run of it ended between them. */
  ghost predicate Shared(events: seq<Event>, handed: seq<Option<Running>>, i: nat, j: nat)
    requires i < |events| && j < |events| <= |handed|
  {
    i < j && events[i].Request? && events[j] == events[i] ==>
      (handed[i] == handed[j] <==> !EndsBetween(events, events[i].ta, i, j))
  }

  lemma SharedPair(events: seq<Event>, handed: seq<Option<Running>>, objects: seq<Running>, i: nat, j: nat)
    requires |objects| == |After(events).runs| && forall a, b :: 0 <= a < b < |objects| ==> objects[a] != objects[b]
    requires AllHanded(events, handed, objects) && |handed| == |events| && i < |events| && j < |events|
    ensures Shared(events, handed, i, j)
  {
    if i < j && events[i].Request? && events[j] == events[i] {
      assert IsHanded(events, i, handed[i], objects) && IsHanded(events, j, handed[j], objects);
      SharedUntilEnd(events, i, j);
    }
  }

  lemma AllShared(f: Freezer, events: seq<Event>, handed: seq<Option<Running>>, objects: seq<Running>)
    requires Represents(f, objects, After(events)) && AllHanded(events, handed, objects) && |handed| == |events|
    ensures forall i, j :: 0 <= i < |events| && 0 <= j < |events| ==> Shared(events, handed, i, j)
  {
    forall i, j | 0 <= i < |events| && 0 <= j < |events| ensures Shared(events, handed, i, j) {
      SharedPair(events, handed, objects, i, j);
    }
  }

  /**
   * Any interleaving; outcomes and ends that find no run to act on are skipped, as nothing in the keeper raises them.
   * The freezer ends holding the value, and two requests for a token account hold one and the same run, with one
   * outcome, if and only if no run of it ended between them.
   */
  method AnyInterleaving(events: seq<Event>)
    returns (f: Freezer, handed: seq<Option<Running>>, ghost objects: seq<Running>)
    ensures fresh(f) && f.Valid() && Represents(f, objects, After(events))
    ensures |handed| == |events| && AllHanded(events, handed, objects)
    ensures forall i, j :: 0 <= i < |events| && 0 <= j < |events| ==> Shared(events, handed, i, j)
  {
    f := new Freezer();
    handed, objects := [], [];
    for n := 0 to |events|
      invariant f.Valid() && fresh(f) && Represents(f, objects, After(events[..n]))
      invariant forall i :: 0 <= i < |objects| ==> fresh(objects[i])
      invariant |handed| == n && AllHanded(events, handed, objects)
    {
      AfterStep(events, n);
      ghost var before := objects;
      var run;
      run, objects := Take(f, events[n], objects, After(events[..n]));
      HandedGrows(events, handed, before, objects, run);
      handed := handed + [run];
    }
    assert events[..|events|] == events;
    AllShared(f, events, handed, objects);
  }
}
