/**
 * `classifyGateLogs`: a transaction's verdict from its logs, and why a denial survives any cut of them.
 */
module Verdicts {
  import opened Bytes
  import opened Lines
  import opened GateLogs
  import D = Decision

  /** The SDK's table from custom error number to code. */
  function DenyOfError(n: nat): Option<string> {
    if n == 6009 then Some("MISSING_ACCOUNTS")
    else if n == 6010 then Some("BAD_POLICY")
    else if n == 6011 then Some("BAD_REGISTRY_ENTRY")
    else if n == 6012 then Some("BAD_CREDENTIAL")
    else if n == 6013 then Some("NO_IMMUTABLE_OWNER")
    else if n == 6014 then Some("BLACKLISTED")
    else if n == 6015 then Some("NOT_ALLOWLISTED")
    else if n == 6016 then Some("NO_CREDENTIAL")
    else if n == 6017 then Some("CREDENTIAL_EXPIRED")
    else if n == 6018 then Some("KYC_LEVEL_TOO_LOW")
    else if n == 6019 then Some("COMPLIANT")
    else None
  }

  /** The table is exactly the gate's own numbering of its denials. */
  lemma ErrorTable(n: nat, code: string)
    ensures DenyOfError(n) == Some(code) <==> exists d: D.Deny :: D.DenyError(d) == n && D.DenyCode(d) == code
  {
    if DenyOfError(n) == Some(code) {
      var d :=
        if n == 6009 then D.MissingAccounts
        else if n == 6010 then D.BadPolicy
        else if n == 6011 then D.BadRegistryEntry
        else if n == 6012 then D.BadCredential
        else if n == 6013 then D.NoImmutableOwner
        else if n == 6014 then D.DenyFlag(D.Blacklisted)
        else if n == 6015 then D.DenyFlag(D.NotAllowlisted)
        else if n == 6016 then D.DenyFlag(D.NoCredential)
        else if n == 6017 then D.DenyFlag(D.CredentialExpired)
        else if n == 6018 then D.DenyFlag(D.KycLevelTooLow)
        else D.Compliant;
      assert D.DenyError(d) == n && D.DenyCode(d) == code;
    }
  }

  datatype Verdict =
    | Allowed(code: string)
    | Denied(code: string)
    | Skipped
    | FailedOutside(program: string, message: string)

  function Classify(p: Parsed, succeeded: bool, gate: string, errorCode: Option<nat>): Verdict {
    if succeeded then
      if !p.gateInvoked then Skipped
      else Allowed(if p.decision.Some? && p.decision.value.0.ALLOW? then p.decision.value.1 else "UNKNOWN")
    else if p.decision.Some? && p.decision.value.0.DENY? then Denied(p.decision.value.1)
    else
      var gateFailed := p.failure.None? || p.failure.value.0 == gate;
      var fromError := if errorCode.Some? && gateFailed then DenyOfError(errorCode.value) else None;
      if fromError.Some? then Denied(fromError.value)
      else if p.failure.Some? then FailedOutside(p.failure.value.0, p.failure.value.1)
      else FailedOutside("unknown", "no logs")
  }

  method ClassifyGateLogs(logs: seq<string>, succeeded: bool, gate: string, errorCode: Option<nat>) returns (v: Verdict)
    ensures v == Classify(Run(START, logs, gate).seen, succeeded, gate, errorCode)
  {
    var parsed := ParseGateLogs(logs, gate);
    v := Classify(parsed, succeeded, gate, errorCode);
  }

  // ----- What the gate logs

  function TgText(v: D.Verdict): string {
    match v
    case AllowWith(a) => "TG:ALLOW:" + D.AllowCode(a)
    case DenyWith(d) => "TG:DENY:" + D.DenyCode(d)
  }

  function TgOf(v: D.Verdict): (Kind, string) {
    match v
    case AllowWith(a) => (ALLOW, D.AllowCode(a))
    case DenyWith(d) => (DENY, D.DenyCode(d))
  }

  predicate IsCode(s: string) {
    s != [] && forall i :: 0 <= i < |s| ==> IsCodeChar(s[i])
  }

  lemma {:induction false} CodeRuns(code: string)
    requires forall i :: 0 <= i < |code| ==> IsCodeChar(code[i])
    ensures CodeLength(code) == |code|
  {
    if code != [] {
      CodeRuns(code[1..]);
    }
  }

  lemma FlagCodesAreCodes(f: D.Flag)
    ensures IsCode(D.FlagCode(f))
  {
    match f
    case Blacklisted => assert IsCode("BLACKLISTED");
    case NotAllowlisted => assert IsCode("NOT_ALLOWLISTED");
    case NoCredential => assert IsCode("NO_CREDENTIAL");
    case CredentialExpired => assert IsCode("CREDENTIAL_EXPIRED");
    case KycLevelTooLow => assert IsCode("KYC_LEVEL_TOO_LOW");
  }

  lemma AllowCodesAreCodes(a: D.Allow)
    ensures IsCode(D.AllowCode(a))
  {
    match a
    case Clean => assert IsCode("CLEAN");
    case Allowlisted => assert IsCode("ALLOWLISTED");
    case Kyc => assert IsCode("KYC");
    case PdaAllowlisted => assert IsCode("PDA_ALLOWLISTED");
    case Flagged(f) => FlagCodesAreCodes(f);
  }

  lemma DenyCodesAreCodes(d: D.Deny)
    ensures IsCode(D.DenyCode(d))
  {
    match d
    case MissingAccounts => assert IsCode("MISSING_ACCOUNTS");
    case BadPolicy => assert IsCode("BAD_POLICY");
    case BadRegistryEntry => assert IsCode("BAD_REGISTRY_ENTRY");
    case BadCredential => assert IsCode("BAD_CREDENTIAL");
    case NoImmutableOwner => assert IsCode("NO_IMMUTABLE_OWNER");
    case DenyFlag(f) => FlagCodesAreCodes(f);
    case Compliant => assert IsCode("COMPLIANT");
  }

  /** The logged text of a decision reads back as that decision. */
  lemma TgRoundTrip(v: D.Verdict)
    ensures FirstTg(TgText(v)) == Some(TgOf(v)) && Plain(TgText(v))
  {
    var t := TgText(v);
    assert t[0] == 'T' && "success"[0] == 's' && "failed: "[0] == 'f';
    assert (" " + t)[1] == 'T' && " invoke ["[1] == 'i';
    match v
    case AllowWith(a) =>
      AllowCodesAreCodes(a);
      TgAtAllow(D.AllowCode(a));
    case DenyWith(d) =>
      DenyCodesAreCodes(d);
      TgAtDeny(D.DenyCode(d));
  }

  lemma TgAtAllow(code: string)
    requires IsCode(code)
    ensures TgAt("TG:ALLOW:" + code) == Some((ALLOW, code))
  {
    var t := "TG:ALLOW:" + code;
    CodeRuns(code);
    assert t[..9] == "TG:ALLOW:" && t[9..] == code && t[9..9 + |code|] == code;
  }

  lemma TgAtDeny(code: string)
    requires IsCode(code)
    ensures TgAt("TG:DENY:" + code) == Some((DENY, code))
  {
    var t := "TG:DENY:" + code;
    CodeRuns(code);
    assert t[3] == 'D' && "TG:ALLOW:"[3] == 'A';
    assert t[..8] == "TG:DENY:" && t[8..] == code && t[8..8 + |code|] == code;
  }

  /**
   * Everything else one permissionless call prints: what Token ACL's frame does before it calls the gate and after, the
   * gate frame's own lines, and the messages the two frames fail with.
   */
  datatype CallParts = CallParts(
    before: Body, instruction: string, anchorError: string, gateMessage: string, used: string, after: Body,
    message: string)

  /**
   * The frame of one gate call: Anchor's instruction line, the decision, and on a denial Anchor's error line, which
   * repeats the code, before the frame fails.
   */
  function GateFrame(gate: string, v: D.Verdict, t: CallParts): Frame {
    var tail := if v.DenyWith? then Log(t.anchorError, Consumed(t.used, Done)) else Consumed(t.used, Done);
    Frame(gate, Log(t.instruction, Log(TgText(v), tail)), if v.DenyWith? then Failed(t.gateMessage) else Success)
  }

  /** `a`, then `b`. */
  function Then(a: Body, b: Body): Body {
    match a
    case Done => b
    case Log(text, rest) => Log(text, Then(rest, b))
    case Data(text, rest) => Data(text, Then(rest, b))
    case Consumed(detail, rest) => Consumed(detail, Then(rest, b))
    case Call(f, rest) => Call(f, Then(rest, b))
  }

  /** One permissionless call: Token ACL's frame around the gate's, with whatever it does before and after. */
  function AclFrame(acl: string, gate: string, v: D.Verdict, t: CallParts): Frame {
    Frame(acl, Then(t.before, Call(GateFrame(gate, v, t), t.after)), if v.DenyWith? then Failed(t.message) else Success)
  }

  /**
   * What is asked of the parts. Before the gate's call nothing fails and no gate frame tells a decision: Token ACL logs
   * its instruction and has the system program create the flag account. After a denial the runtime prints at most what
   * was consumed; after an admission nothing fails: Token-2022 freezes or thaws and the flag account is closed.
   */
  predicate CallsGate(acl: string, gate: string, v: D.Verdict, t: CallParts) {
    && acl != gate && FirstTg(t.instruction).None?
    && QuietBody(t.before, acl, gate) && DecisionIn(t.before, acl, gate).None?
    && (if v.DenyWith? then OnlyConsumed(t.after) else QuietBody(t.after, acl, gate))
  }

  /**
   * The decision read from a gate frame is the gate's, whatever the error line repeats; so a denying frame is one that
   * `DeniedTransaction` allows to fail, and an allowing frame one that may come before it.
   */
  lemma GateFrameDecision(gate: string, v: D.Verdict, t: CallParts)
    requires FirstTg(t.instruction).None?
    ensures var f := GateFrame(gate, v, t);
      && DecisionIn(f.body, gate, gate) == Some(TgOf(v))
      && FailureOf(f) == (if v.DenyWith? then Some((gate, t.gateMessage)) else None)
      && (if v.DenyWith? then DeniedFrame(f, gate, D.DenyCode(v.deny)) else Quiet(f, gate))
  {
    TgRoundTrip(v);
    var b := GateFrame(gate, v, t).body;
    assert DecisionIn(b.rest, gate, gate) == Some(TgOf(v));
    assert FailureIn(Consumed(t.used, Done)).None?;
    assert FailureIn(b.rest.rest).None?;
    assert FailureIn(b.rest).None?;
    assert FailureIn(b).None?;
    if v.AllowWith? {
      assert QuietBody(Consumed(t.used, Done), gate, gate);
      assert QuietBody(b.rest, gate, gate);
    }
  }

  // ----- Transactions that fail because the gate denies

  /** No frame in it fails, and the gate's own logs in it say ALLOW or nothing. */
  predicate Quiet(f: Frame, gate: string) {
    f.exit.Success? && QuietBody(f.body, f.program, gate)
  }

  predicate QuietBody(b: Body, program: string, gate: string) {
    match b
    case Done => true
    case Log(text, rest) =>
      (program == gate && FirstTg(text).Some? ==> FirstTg(text).value.0.ALLOW?) && QuietBody(rest, program, gate)
    case Data(_, rest) => QuietBody(rest, program, gate)
    case Consumed(_, rest) => QuietBody(rest, program, gate)
    case Call(f, rest) => Quiet(f, gate) && QuietBody(rest, program, gate)
  }

  /** The frame fails: either it is a gate frame that denied with `code`, or its last call fails that way. */
  predicate DeniedFrame(f: Frame, gate: string, code: string) {
    && f.exit.Failed?
    && (if f.program == gate then FailureIn(f.body).None? && DecisionIn(f.body, gate, gate) == Some((DENY, code))
        else DeniedBody(f.body, f.program, gate, code))
  }

  predicate DeniedBody(b: Body, program: string, gate: string, code: string) {
    match b
    case Done => false
    case Log(_, rest) => DeniedBody(rest, program, gate, code)
    case Data(_, rest) => DeniedBody(rest, program, gate, code)
    case Consumed(_, rest) => DeniedBody(rest, program, gate, code)
    case Call(f, rest) =>
      (Quiet(f, gate) && DeniedBody(rest, program, gate, code)) || (OnlyConsumed(rest) && DeniedFrame(f, gate, code))
  }

  /** All a caller prints after a call that failed: what it consumed, if anything. */
  predicate OnlyConsumed(b: Body) {
    match b
    case Done => true
    case Consumed(_, rest) => OnlyConsumed(rest)
    case _ => false
  }

  lemma {:induction false} ConsumedSaysNothing(b: Body, program: string, gate: string)
    requires OnlyConsumed(b)
    ensures DecisionIn(b, program, gate).None? && FailureIn(b).None?
  {
    if b.Consumed? {
      ConsumedSaysNothing(b.rest, program, gate);
    }
  }

  /** Instructions that succeed, then one that the gate's denial fails. */
  predicate DeniedTransaction(frames: seq<Frame>, gate: string, code: string) {
    && frames != []
    && (forall i :: 0 <= i < |frames| - 1 ==> Quiet(frames[i], gate))
    && DeniedFrame(frames[|frames| - 1], gate, code)
  }

  predicate AllowOrNone(d: Option<(Kind, string)>) {
    d.Some? ==> d.value.0.ALLOW?
  }

  /** The decision and failure a denied part of a transaction can show. */
  predicate ShowsDenial(d: Option<(Kind, string)>, failure: Option<(string, string)>, gate: string, code: string) {
    && (AllowOrNone(d) || d == Some((DENY, code)))
    && failure.Some? && failure.value.0 == gate
  }

  lemma {:induction false} QuietSays(b: Body, program: string, gate: string)
    requires QuietBody(b, program, gate)
    ensures AllowOrNone(DecisionIn(b, program, gate)) && FailureIn(b).None?
    decreases b
  {
    if b.Call? {
      QuietSays(b.frame.body, b.frame.program, gate);
    }
    if !b.Done? {
      QuietSays(b.rest, program, gate);
    }
  }

  lemma {:induction false} DeniedSays(b: Body, program: string, gate: string, code: string)
    requires DeniedBody(b, program, gate, code) && program != gate
    ensures ShowsDenial(DecisionIn(b, program, gate), FailureIn(b), gate, code)
    decreases b
  {
    if b.Call? {
      if OnlyConsumed(b.rest) && DeniedFrame(b.frame, gate, code) {
        DeniedFrameSays(b.frame, gate, code);
        ConsumedSaysNothing(b.rest, program, gate);
      } else {
        QuietSays(b.frame.body, b.frame.program, gate);
        DeniedSays(b.rest, program, gate, code);
      }
    } else {
      DeniedSays(b.rest, program, gate, code);
    }
  }

  lemma {:induction false} DeniedFrameSays(f: Frame, gate: string, code: string)
    requires DeniedFrame(f, gate, code)
    ensures ShowsDenial(DecisionIn(f.body, f.program, gate), FailureOf(f), gate, code)
    decreases f
  {
    if f.program != gate {
      DeniedSays(f.body, f.program, gate, code);
    }
  }

  lemma {:induction false} DeniedAllSays(frames: seq<Frame>, gate: string, code: string)
    requires DeniedTransaction(frames, gate, code)
    ensures ShowsDenial(DecisionOfAll(frames, gate), FailureOfAll(frames), gate, code)
    decreases frames
  {
    if |frames| == 1 {
      DeniedFrameSays(frames[0], gate, code);
    } else {
      assert Quiet(frames[0], gate);
      QuietSays(frames[0].body, frames[0].program, gate);
      forall i | 0 <= i < |frames[1..]| - 1 ensures Quiet(frames[1..][i], gate) {
        assert frames[1..][i] == frames[i + 1];
      }
      DeniedAllSays(frames[1..], gate, code);
    }
  }

  lemma {:induction false} ThenSays(a: Body, b: Body, program: string, gate: string)
    ensures DecisionIn(Then(a, b), program, gate) == Or(DecisionIn(a, program, gate), DecisionIn(b, program, gate))
    ensures FailureIn(Then(a, b)) == Or(FailureIn(a), FailureIn(b))
    ensures InvokesIn(Then(a, b), gate) <==> InvokesIn(a, gate) || InvokesIn(b, gate)
    ensures PrintableBody(Then(a, b)) <==> PrintableBody(a) && PrintableBody(b)
  {
    if !a.Done? {
      ThenSays(a.rest, b, program, gate);
    }
  }

  lemma {:induction false} ThenQuiet(a: Body, b: Body, program: string, gate: string, code: string)
    requires QuietBody(a, program, gate)
    ensures QuietBody(Then(a, b), program, gate) <==> QuietBody(b, program, gate)
    ensures DeniedBody(b, program, gate, code) ==> DeniedBody(Then(a, b), program, gate, code)
  {
    if !a.Done? {
      ThenQuiet(a.rest, b, program, gate, code);
    }
  }

  /**
   * Token ACL's frame around the gate's denial, after any quiet instructions, is a denied transaction; around an
   * admission it is quiet. Either way it shows the gate's decision, and on a denial the gate's own failure.
   */
  lemma ThroughTokenAcl(before: seq<Frame>, acl: string, gate: string, v: D.Verdict, t: CallParts)
    requires CallsGate(acl, gate, v, t)
    requires forall i :: 0 <= i < |before| ==> Quiet(before[i], gate)
    ensures var f := AclFrame(acl, gate, v, t);
      && DecisionIn(f.body, acl, gate) == Some(TgOf(v)) && Invokes(f, gate)
      && FailureOf(f) == (if v.DenyWith? then Some((gate, t.gateMessage)) else None)
      && (if v.DenyWith? then DeniedTransaction(before + [f], gate, D.DenyCode(v.deny)) else Quiet(f, gate))
  {
    GateFrameDecision(gate, v, t);
    var g := GateFrame(gate, v, t);
    var call := Call(g, t.after);
    var code := if v.DenyWith? then D.DenyCode(v.deny) else "";
    assert DecisionIn(call, acl, gate) == Some(TgOf(v));
    ThenSays(t.before, call, acl, gate);
    ThenQuiet(t.before, call, acl, gate, code);
    QuietSays(t.before, acl, gate);
    if v.AllowWith? {
      QuietSays(t.after, acl, gate);
    }
    assert FailureIn(call) == FailureOf(g);
  }

  /** Every text around the decision is plain, and failure messages are one line. */
  predicate PlainParts(v: D.Verdict, t: CallParts) {
    && PrintableBody(t.before) && Plain(t.instruction) && PrintableBody(t.after)
    && (v.DenyWith? ==> Plain(t.anchorError) && OneLine(t.gateMessage) && OneLine(t.message))
  }

  lemma AclFramePrints(acl: string, gate: string, v: D.Verdict, t: CallParts)
    requires IsProgramId(acl) && IsProgramId(gate) && PlainParts(v, t)
    ensures Printable(AclFrame(acl, gate, v, t))
  {
    TgRoundTrip(v);
    var g := GateFrame(gate, v, t);
    assert PrintableBody(Consumed(t.used, Done));
    assert PrintableBody(g.body.rest.rest);
    assert PrintableBody(g.body.rest);
    assert Printable(g);
    ThenSays(t.before, Call(g, t.after), acl, gate);
  }

  /**
   * The frames a freeze prints: the flag account is created before the gate is called, and on an admission Token-2022
   * freezes after it. They are parts a call may have, whatever the programs' ids are, as long as they are not the gate.
   */
  lemma FreezeCallsGate(acl: string, system: string, token: string, gate: string, v: D.Verdict, t: CallParts,
                        own: string, inner: string, used: string)
    requires acl != gate && system != gate && token != gate && FirstTg(t.instruction).None?
    requires t.before == Log(own, Call(Frame(system, Done, Success), Done))
    requires t.after == if v.DenyWith? then Consumed(used, Done)
                        else Call(Frame(token, Log(inner, Consumed(used, Done)), Success), Consumed(used, Done))
    ensures CallsGate(acl, gate, v, t)
  {
    var consumed := Consumed(used, Done);
    var creates, freezes := Frame(system, Done, Success), Frame(token, Log(inner, consumed), Success);
    assert QuietBody(Done, acl, gate) && QuietBody(Done, system, gate) && DecisionIn(Done, system, gate).None?;
    assert Quiet(creates, gate);
    assert QuietBody(Call(creates, Done), acl, gate) && DecisionIn(Call(creates, Done), acl, gate).None?;
    assert OnlyConsumed(consumed) && QuietBody(consumed, acl, gate) && QuietBody(consumed, token, gate);
    assert QuietBody(Log(inner, consumed), token, gate);
    assert Quiet(freezes, gate);
  }

  /**
   * A transaction the gate's denial d fails is classified as denied with d from any line-level cut of its logs, given
   * the error number, even when an earlier gate frame of the transaction had logged an ALLOW.
   */
  lemma DenialSurvivesCuts(frames: seq<Frame>, gate: string, d: D.Deny, n: nat)
    requires PrintableAll(frames) && DeniedTransaction(frames, gate, D.DenyCode(d))
    requires n <= |PrintAll(frames)|
    ensures Classify(Run(START, PrintAll(frames)[..n], gate).seen, false, gate, Some(D.DenyError(d)))
         == Denied(D.DenyCode(d))
    ensures Run(START, PrintAll(frames)[..n] + ["Log truncated"], gate) == Run(START, PrintAll(frames)[..n], gate)
  {
    var all := PrintAll(frames);
    ParsePrinted(frames, gate);
    DeniedAllSays(frames, gate, D.DenyCode(d));
    var cut := Run(START, all[..n], gate);
    assert all == all[..n] + all[n..];
    RunAppend(START, all[..n], all[n..], gate);
    FirstWins(cut, all[n..], gate);
    DenialOfParsed(cut.seen, gate, d);
    RunAppend(START, all[..n], ["Log truncated"], gate);
    TruncationNote(cut, gate);
  }

  /** What a cut of a denied transaction can have seen is enough, given the number. */
  lemma DenialOfParsed(p: Parsed, gate: string, d: D.Deny)
    requires p.decision.Some? && p.decision.value.0.DENY? ==> p.decision.value.1 == D.DenyCode(d)
    requires p.failure.Some? ==> p.failure.value.0 == gate
    ensures Classify(p, false, gate, Some(D.DenyError(d))) == Denied(D.DenyCode(d))
  {
    ErrorTable(D.DenyError(d), D.DenyCode(d));
  }

  /** The denial of a call through Token ACL, after any quiet instructions, cut anywhere. */
  lemma AclDenialSurvivesCuts(before: seq<Frame>, acl: string, gate: string, d: D.Deny, t: CallParts, n: nat)
    requires IsProgramId(acl) && IsProgramId(gate)
    requires CallsGate(acl, gate, D.DenyWith(d), t) && PlainParts(D.DenyWith(d), t)
    requires PrintableAll(before) && forall i :: 0 <= i < |before| ==> Quiet(before[i], gate)
    requires n <= |PrintAll(before + [AclFrame(acl, gate, D.DenyWith(d), t)])|
    ensures var lines := PrintAll(before + [AclFrame(acl, gate, D.DenyWith(d), t)]);
      Classify(Run(START, lines[..n], gate).seen, false, gate, Some(D.DenyError(d))) == Denied(D.DenyCode(d))
  {
    ThroughTokenAcl(before, acl, gate, D.DenyWith(d), t);
    AclFramePrints(acl, gate, D.DenyWith(d), t);
    DenialSurvivesCuts(before + [AclFrame(acl, gate, D.DenyWith(d), t)], gate, d, n);
  }

  lemma TruncationNote(st: State, gate: string)
    ensures Run(st, ["Log truncated"], gate) == st
  {
    RunOne(st, "Log truncated", gate);
    assert "Log truncated"[0] == 'L' && "Program "[0] == 'P' && "Program log: "[0] == 'P';
  }

  // ----- Transactions that succeed

  /** Line `k` opens the first gate frame. */
  ghost predicate OpensGate(lines: seq<string>, gate: string, k: int) {
    && 0 <= k < |lines|
    && InvokedProgram(lines[k]) == Some(gate)
    && forall j :: 0 <= j < k ==> InvokedProgram(lines[j]) != Some(gate)
  }

  /** Line `k` is the first TG line inside a gate frame. */
  ghost predicate TellsDecision(st: State, lines: seq<string>, gate: string, k: int) {
    && 0 <= k < |lines|
    && IsGateTg(st, lines, gate, k)
    && forall j :: 0 <= j < k ==> !IsGateTg(st, lines, gate, j)
  }

  /** Line `k` is neither an opening nor a closing line, the frame on top is the gate's, and the line has a TG text. */
  predicate IsGateTg(st: State, lines: seq<string>, gate: string, k: nat)
    requires k < |lines|
  {
    && InvokedProgram(lines[k]).None? && !IsExit(lines[k])
    && OnTop(Run(st, lines[..k], gate).stack, gate)
    && TgOfLine(lines[k]).Some?
  }

  lemma RunNext(st: State, lines: seq<string>, k: nat, gate: string)
    requires k < |lines|
    ensures Run(st, lines[..k + 1], gate) == Step(Run(st, lines[..k], gate), lines[k], gate)
  {
    assert lines[..k + 1] == lines[..k] + [lines[k]];
    RunAppend(st, lines[..k], [lines[k]], gate);
    RunOne(Run(st, lines[..k], gate), lines[k], gate);
  }

  /** One more line: a decision already known stays, and the first comes from a TG line inside a gate frame. */
  lemma LineDecides(st: State, lines: seq<string>, gate: string, j: nat)
    requires j < |lines|
    ensures var before, after := Run(st, lines[..j], gate).seen.decision, Run(st, lines[..j + 1], gate).seen.decision;
      after == Or(before, if IsGateTg(st, lines, gate, j) then TgOfLine(lines[j]) else None)
  {
    RunNext(st, lines, j, gate);
  }

  /** A cut knows the decision exactly when it keeps the line that tells it, and then it is that line's. */
  lemma {:induction false} CutKnowsDecision(st: State, lines: seq<string>, gate: string, k: int, n: nat)
    requires st.seen.decision.None? && n <= |lines|
    requires TellsDecision(st, lines, gate, k)
          || (k == |lines| && forall j :: 0 <= j < k ==> !IsGateTg(st, lines, gate, j))
    ensures Run(st, lines[..n], gate).seen.decision == if n <= k then None else TgOfLine(lines[k])
  {
    if n == 0 {
      assert lines[..0] == [];
    } else {
      CutKnowsDecision(st, lines, gate, k, n - 1);
      LineDecides(st, lines, gate, n - 1);
      assert n - 1 < k ==> !IsGateTg(st, lines, gate, n - 1);
    }
  }

  /** A cut knows that the gate ran exactly when it keeps the line that opens its first frame. */
  lemma {:induction false} CutKnowsGate(st: State, lines: seq<string>, gate: string, k: int, n: nat)
    requires !st.seen.gateInvoked && n <= |lines|
    requires OpensGate(lines, gate, k)
          || (k == |lines| && forall j :: 0 <= j < k ==> InvokedProgram(lines[j]) != Some(gate))
    ensures Run(st, lines[..n], gate).seen.gateInvoked <==> n > k
  {
    if n > 0 {
      CutKnowsGate(st, lines, gate, k, n - 1);
      RunNext(st, lines, n - 1, gate);
    } else {
      assert lines[..0] == [];
    }
  }

  lemma {:induction false} FirstGateTg(st: State, lines: seq<string>, gate: string, n: nat) returns (k: int)
    requires n <= |lines|
    ensures 0 <= k <= n && forall j :: 0 <= j < k ==> !IsGateTg(st, lines, gate, j)
    ensures k < n ==> TellsDecision(st, lines, gate, k)
  {
    if n == 0 {
      return 0;
    }
    k := FirstGateTg(st, lines, gate, n - 1);
    if k == n - 1 && !IsGateTg(st, lines, gate, k) {
      k := n;
    }
  }

  lemma {:induction false} FirstInvoke(lines: seq<string>, gate: string, n: nat) returns (k: int)
    requires n <= |lines|
    ensures 0 <= k <= n && forall j :: 0 <= j < k ==> InvokedProgram(lines[j]) != Some(gate)
    ensures k < n ==> OpensGate(lines, gate, k)
  {
    if n == 0 {
      return 0;
    }
    k := FirstInvoke(lines, gate, n - 1);
    if k == n - 1 && InvokedProgram(lines[k]) != Some(gate) {
      k := n;
    }
  }

  /** Line `k` is the first that closes a failed frame, or reads as if it did. */
  ghost predicate TellsFailure(lines: seq<string>, k: int) {
    && 0 <= k < |lines|
    && FailureOnLine(lines[k]).Some?
    && forall j :: 0 <= j < k ==> FailureOnLine(lines[j]).None?
  }

  function FailureOnLine(line: string): Option<(string, string)> {
    if InvokedProgram(line).Some? then None else FailedProgram(line)
  }

  lemma LineFails(st: State, lines: seq<string>, gate: string, j: nat)
    requires j < |lines|
    ensures var before, after := Run(st, lines[..j], gate).seen.failure, Run(st, lines[..j + 1], gate).seen.failure;
      after == Or(before, FailureOnLine(lines[j]))
  {
    RunNext(st, lines, j, gate);
  }

  /** A cut knows the failure exactly when it keeps the line that tells it, and then it is that line's. */
  lemma {:induction false} CutKnowsFailure(st: State, lines: seq<string>, gate: string, k: int, n: nat)
    requires st.seen.failure.None? && n <= |lines|
    requires TellsFailure(lines, k) || (k == |lines| && forall j :: 0 <= j < k ==> FailureOnLine(lines[j]).None?)
    ensures Run(st, lines[..n], gate).seen.failure == if n <= k then None else FailureOnLine(lines[k])
  {
    if n == 0 {
      assert lines[..0] == [];
    } else {
      CutKnowsFailure(st, lines, gate, k, n - 1);
      LineFails(st, lines, gate, n - 1);
    }
  }

  lemma {:induction false} FirstFailure(lines: seq<string>, n: nat) returns (k: int)
    requires n <= |lines|
    ensures 0 <= k <= n && forall j :: 0 <= j < k ==> FailureOnLine(lines[j]).None?
    ensures k < n ==> TellsFailure(lines, k)
  {
    if n == 0 {
      return 0;
    }
    k := FirstFailure(lines, n - 1);
    if k == n - 1 && FailureOnLine(lines[k]).None? {
      k := n;
    }
  }

  /** The verdict on a successful transaction cut after `n` lines, when the gate's first frame opens at line `i` and its
      decision, an admission with `code`, is told at line `k`. */
  function VerdictOfCut(n: nat, i: int, k: int, code: string): Verdict {
    if n <= i then Skipped else if n <= k then Allowed("UNKNOWN") else Allowed(code)
  }

  /**
   * Successful transactions in which the gate first allowed with `code`, whatever other programs log. There is a line
   * that opens the gate's first frame and, after it, a line that tells the decision; for every cut, with or without the
   * truncation note, the verdict has the code if and only if the cut keeps the second, is `UNKNOWN` when it keeps only
   * the first, and is "skipped" (worded as "already frozen" or "already thawed") when it keeps neither.
   */
  lemma AllowNeedsItsLine(frames: seq<Frame>, gate: string, code: string) returns (i: int, k: int)
    requires IsProgramId(gate) && GatePrintableAll(frames, gate)
    requires DecisionOfAll(frames, gate) == Some((ALLOW, code))
    ensures var lines := PrintAll(frames);
      && OpensGate(lines, gate, i) && TellsDecision(START, lines, gate, k) && i < k
      && TgOfLine(lines[k]) == Some((ALLOW, code))
      && forall n: nat | n <= |lines| ::
           && Classify(Run(START, lines[..n], gate).seen, true, gate, None) == VerdictOfCut(n, i, k, code)
           && Classify(Run(START, lines[..n] + ["Log truncated"], gate).seen, true, gate, None)
                == VerdictOfCut(n, i, k, code)
  {
    var lines := PrintAll(frames);
    OthersCannotImpersonate(frames, gate);
    assert lines[..|lines|] == lines;
    k := FirstGateTg(START, lines, gate, |lines|);
    CutKnowsDecision(START, lines, gate, k, |lines|);
    DecisionNeedsGate(START, lines, gate);
    i := FirstInvoke(lines, gate, |lines|);
    CutKnowsGate(START, lines, gate, i, |lines|);
    DecisionNeedsGate(START, lines[..k], gate);
    CutKnowsGate(START, lines, gate, i, k);
    forall n: nat | n <= |lines|
      ensures Classify(Run(START, lines[..n], gate).seen, true, gate, None) == VerdictOfCut(n, i, k, code)
      ensures Run(START, lines[..n] + ["Log truncated"], gate) == Run(START, lines[..n], gate)
    {
      CutKnowsDecision(START, lines, gate, k, n);
      CutKnowsGate(START, lines, gate, i, n);
      RunAppend(START, lines[..n], ["Log truncated"], gate);
      TruncationNote(Run(START, lines[..n], gate), gate);
    }
  }

  /** The parser takes a decision only after it has seen the gate invoked. */
  lemma {:induction false} DecisionNeedsGate(st: State, lines: seq<string>, gate: string)
    requires (gate in st.stack || st.seen.decision.Some?) ==> st.seen.gateInvoked
    ensures var after := Run(st, lines, gate);
      (gate in after.stack || after.seen.decision.Some?) ==> after.seen.gateInvoked
    decreases lines
  {
    if lines != [] {
      DecisionNeedsGate(Step(st, lines[0], gate), lines[1..], gate);
    }
  }

  // ----- Every verdict, on call trees

  /** What a transaction's frames say, as the parser is shown to recover it. */
  predicate GateRan(frames: seq<Frame>, gate: string) {
    exists i :: 0 <= i < |frames| && Invokes(frames[i], gate)
  }

  /** The gate failed, or nothing is known to have failed. */
  predicate OnlyGateFailed(frames: seq<Frame>, gate: string) {
    FailureOfAll(frames).Some? ==> FailureOfAll(frames).value.0 == gate
  }

  predicate Denies(frames: seq<Frame>, gate: string) {
    DecisionOfAll(frames, gate).Some? && DecisionOfAll(frames, gate).value.0.DENY?
  }

  /** A gate denial numbered `n` has this code. */
  ghost predicate NumberMeans(n: nat, code: string) {
    exists d: D.Deny :: D.DenyError(d) == n && D.DenyCode(d) == code
  }

  /**
   * The verdict on every transaction of plain texts. An error number decides only when the logs tell no denial and no
   * other program is the one that failed, and only if it is one of the gate's own.
   */
  lemma VerdictsExactly(frames: seq<Frame>, succeeded: bool, gate: string, errorCode: Option<nat>)
    requires PrintableAll(frames)
    ensures var v := Classify(Run(START, PrintAll(frames), gate).seen, succeeded, gate, errorCode);
      var decision := DecisionOfAll(frames, gate);
      && (v.Skipped? <==> succeeded && !GateRan(frames, gate))
      && (forall code :: v == Allowed(code) <==>
            && succeeded && GateRan(frames, gate)
            && (decision == Some((ALLOW, code)) || (code == "UNKNOWN" && (decision.None? || Denies(frames, gate)))))
      && (forall code :: v == Denied(code) <==>
            && !succeeded
            && (decision == Some((DENY, code))
                || (&& !Denies(frames, gate) && OnlyGateFailed(frames, gate)
                    && errorCode.Some? && NumberMeans(errorCode.value, code))))
      && (v.FailedOutside? ==>
            !succeeded && (v.program, v.message)
            == if FailureOfAll(frames).Some? then FailureOfAll(frames).value else ("unknown", "no logs"))
  {
    ParsePrinted(frames, gate);
    if errorCode.Some? {
      forall code ensures DenyOfError(errorCode.value) == Some(code) <==> NumberMeans(errorCode.value, code) {
        ErrorTable(errorCode.value, code);
      }
    }
  }

  /** So a denial's number is no proof of the gate's denial when another program failed. */
  lemma AnothersFailureIsAnothers(frames: seq<Frame>, gate: string, program: string, message: string, n: nat)
    requires PrintableAll(frames) && !Denies(frames, gate)
    requires FailureOfAll(frames) == Some((program, message)) && program != gate
    ensures Classify(Run(START, PrintAll(frames), gate).seen, false, gate, Some(n)) == FailedOutside(program, message)
  {
    ParsePrinted(frames, gate);
  }
}
