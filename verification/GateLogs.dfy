/**
 * The one reader of the gate's decision: `parseGateLogs` rebuilds the call stack from flat lines. Here it is run on
 * what the runtime prints for a call tree, and shown to recover what the tree says.
 */
module GateLogs {
  import opened Bytes
  import opened Decimal
  import opened Lines

  // ----- The parser

  datatype Parsed = Parsed(
    gateInvoked: bool,
    decision: Option<(Kind, string)>,
    failure: Option<(string, string)>)

  datatype State = State(stack: seq<string>, seen: Parsed)

  function Pop(stack: seq<string>): seq<string> {
    if stack == [] then [] else stack[..|stack| - 1]
  }

  predicate OnTop(stack: seq<string>, program: string) {
    stack != [] && stack[|stack| - 1] == program
  }

  function Or<T>(first: Option<T>, second: Option<T>): Option<T> {
    if first.Some? then first else second
  }

  /** One line of the loop. */
  function Step(st: State, line: string, gate: string): State {
    var invoked := InvokedProgram(line);
    if invoked.Some? then
      State(st.stack + [invoked.value], st.seen.(gateInvoked := st.seen.gateInvoked || invoked.value == gate))
    else
      var seen := st.seen.(failure := Or(st.seen.failure, FailedProgram(line)));
      if IsExit(line) then State(Pop(st.stack), seen)
      else if OnTop(st.stack, gate) then State(st.stack, seen.(decision := Or(seen.decision, TgOfLine(line))))
      else State(st.stack, seen)
  }

  function Run(st: State, lines: seq<string>, gate: string): State
    decreases lines
  {
    if lines == [] then st else Run(Step(st, lines[0], gate), lines[1..], gate)
  }

  const START: State := State([], Parsed(false, None, None))

  method ParseGateLogs(logs: seq<string>, gate: string) returns (r: Parsed)
    ensures r == Run(START, logs, gate).seen
  {
    var stack: seq<string> := [];
    var gateInvoked := false;
    var decision: Option<(Kind, string)> := None;
    var failure: Option<(string, string)> := None;
    for i := 0 to |logs|
      invariant Run(State(stack, Parsed(gateInvoked, decision, failure)), logs[i..], gate) == Run(START, logs, gate)
    {
      var line := logs[i];
      assert logs[i..][0] == line && logs[i..][1..] == logs[i + 1..];
      var invoke := InvokedProgram(line);
      if invoke.Some? {
        stack := stack + [invoke.value];
        if invoke.value == gate {
          gateInvoked := true;
        }
        continue;
      }
      var failed := FailedProgram(line);
      if failed.Some? && failure.None? {
        failure := failed;
      }
      if IsExit(line) {
        stack := Pop(stack);
        continue;
      }
      if decision.None? && OnTop(stack, gate) {
        decision := TgOfLine(line);
      }
    }
    return Parsed(gateInvoked, decision, failure);
  }

  lemma {:induction false} RunAppend(st: State, a: seq<string>, b: seq<string>, gate: string)
    ensures Run(st, a + b, gate) == Run(Run(st, a, gate), b, gate)
    decreases a
  {
    if a == [] {
      assert a + b == b;
    } else {
      assert (a + b)[0] == a[0] && (a + b)[1..] == a[1..] + b;
      RunAppend(Step(st, a[0], gate), a[1..], b, gate);
    }
  }

  /** The first decision and the first failure win. */
  lemma {:induction false} FirstWins(st: State, lines: seq<string>, gate: string)
    ensures var after := Run(st, lines, gate);
      && (st.seen.decision.Some? ==> after.seen.decision == st.seen.decision)
      && (st.seen.failure.Some? ==> after.seen.failure == st.seen.failure)
      && (st.seen.gateInvoked ==> after.seen.gateInvoked)
    decreases lines
  {
    if lines != [] {
      FirstWins(Step(st, lines[0], gate), lines[1..], gate);
    }
  }

  // ----- Call trees and how the runtime prints them

  datatype Exit = Success | Failed(message: string)

  datatype Frame = Frame(program: string, body: Body, exit: Exit)

  /** What a frame does, in order. */
  datatype Body =
    | Done
    | Log(text: string, rest: Body)
    | Data(text: string, rest: Body)
    | Consumed(detail: string, rest: Body)
    | Call(frame: Frame, rest: Body)

  function Print(f: Frame, depth: nat): seq<string> {
    [Line(f.program, "invoke [" + Digits(depth) + "]")] + PrintBody(f.body, f.program, depth) + [ExitLine(f)]
  }

  function ExitLine(f: Frame): string {
    match f.exit
    case Success => Line(f.program, "success")
    case Failed(message) => Line(f.program, "failed: " + message)
  }

  function PrintBody(b: Body, program: string, depth: nat): seq<string> {
    match b
    case Done => []
    case Log(text, rest) => [Line("log:", text)] + PrintBody(rest, program, depth)
    case Data(text, rest) => [Line("data:", text)] + PrintBody(rest, program, depth)
    case Consumed(detail, rest) => [Line(program, "consumed " + detail)] + PrintBody(rest, program, depth)
    case Call(f, rest) => Print(f, depth + 1) + PrintBody(rest, program, depth)
  }

  /** A transaction's instructions, each at depth 1. */
  function PrintAll(frames: seq<Frame>): seq<string> {
    if frames == [] then [] else Print(frames[0], 1) + PrintAll(frames[1..])
  }

  /** A program id in base58: letters and digits. */
  predicate IsProgramId(p: string) {
    p != [] && forall i :: 0 <= i < |p| ==> IsDigit(p[i]) || 'A' <= p[i] <= 'Z' || 'a' <= p[i] <= 'z'
  }

  /** A logged text that is not one of the three shapes a frame line has. */
  predicate Plain(text: string) {
    !ReadsAsInvoke(text) && !ReadsAsExit(text)
  }

  predicate Printable(f: Frame) {
    IsProgramId(f.program) && PrintableBody(f.body) && (f.exit.Failed? ==> OneLine(f.exit.message))
  }

  predicate PrintableBody(b: Body) {
    match b
    case Done => true
    case Log(text, rest) => Plain(text) && PrintableBody(rest)
    case Data(text, rest) => Plain(text) && PrintableBody(rest)
    case Consumed(detail, rest) => PrintableBody(rest)
    case Call(f, rest) => Printable(f) && PrintableBody(rest)
  }

  // ----- What a tree says

  predicate Invokes(f: Frame, gate: string) {
    f.program == gate || InvokesIn(f.body, gate)
  }

  predicate InvokesIn(b: Body, gate: string) {
    match b
    case Done => false
    case Log(_, rest) => InvokesIn(rest, gate)
    case Data(_, rest) => InvokesIn(rest, gate)
    case Consumed(_, rest) => InvokesIn(rest, gate)
    case Call(f, rest) => Invokes(f, gate) || InvokesIn(rest, gate)
  }

  /** The first TG text logged by the gate itself, in any of its frames. */
  function DecisionIn(b: Body, program: string, gate: string): Option<(Kind, string)> {
    match b
    case Done => None
    case Log(text, rest) =>
      Or(if program == gate then FirstTg(text) else None, DecisionIn(rest, program, gate))
    case Data(_, rest) => DecisionIn(rest, program, gate)
    case Consumed(_, rest) => DecisionIn(rest, program, gate)
    case Call(f, rest) => Or(DecisionIn(f.body, f.program, gate), DecisionIn(rest, program, gate))
  }

  /** The first frame to close with a failure, so the innermost one on the failing path. */
  function FailureOf(f: Frame): Option<(string, string)> {
    Or(FailureIn(f.body), if f.exit.Failed? then Some((f.program, f.exit.message)) else None)
  }

  function FailureIn(b: Body): Option<(string, string)> {
    match b
    case Done => None
    case Log(_, rest) => FailureIn(rest)
    case Data(_, rest) => FailureIn(rest)
    case Consumed(_, rest) => FailureIn(rest)
    case Call(f, rest) => Or(FailureOf(f), FailureIn(rest))
  }

  function Sees(before: Parsed, invoked: bool, decision: Option<(Kind, string)>, failure: Option<(string, string)>)
    : Parsed
  {
    Parsed(before.gateInvoked || invoked, Or(before.decision, decision), Or(before.failure, failure))
  }

  // ----- Parsing inverts printing

  lemma ProgramIdIsWord(p: string)
    requires IsProgramId(p)
    ensures IsWord(p) && p != "log:" && p != "data:"
  {
    assert "log:"[3] == ':' && "data:"[4] == ':';
  }

  lemma InvokeStep(st: State, program: string, depth: nat, gate: string)
    requires IsProgramId(program)
    ensures Step(st, Line(program, "invoke [" + Digits(depth) + "]"), gate)
         == State(st.stack + [program], st.seen.(gateInvoked := st.seen.gateInvoked || program == gate))
  {
    ProgramIdIsWord(program);
    InvokeShape(depth);
    LineKinds(program, "invoke [" + Digits(depth) + "]");
  }

  lemma ExitStep(st: State, f: Frame, gate: string)
    requires IsProgramId(f.program) && (f.exit.Failed? ==> OneLine(f.exit.message))
    ensures Step(st, ExitLine(f), gate)
         == State(Pop(st.stack),
                  st.seen.(failure := Or(st.seen.failure,
                                         if f.exit.Failed? then Some((f.program, f.exit.message)) else None)))
  {
    ProgramIdIsWord(f.program);
    match f.exit
    case Success =>
      ExitShapes("");
      assert "success"[0] == 's' && "failed: "[0] == 'f';
      LineKinds(f.program, "success");
    case Failed(message) =>
      ExitShapes(message);
      LineKinds(f.program, "failed: " + message);
  }

  lemma PlainStep(st: State, word: string, text: string, gate: string)
    requires IsWord(word) && Plain(text)
    ensures Step(st, Line(word, text), gate)
         == if OnTop(st.stack, gate) && word == "log:"
            then State(st.stack, st.seen.(decision := Or(st.seen.decision, FirstTg(text)))) else st
  {
    LineKinds(word, text);
    LineTg(word, text);
  }

  lemma ConsumedIsPlain(detail: string)
    ensures Plain("consumed " + detail)
  {
    var text := "consumed " + detail;
    assert text[0] == 'c' && "success"[0] == 's' && "failed: "[0] == 'f';
    assert (" " + text)[1] == 'c' && " invoke ["[1] == 'i';
  }

  /** The first item of a body, when it is not a call. */
  lemma ItemRuns(st: State, b: Body, program: string, depth: nat, gate: string)
    returns (decision: Option<(Kind, string)>)
    requires PrintableBody(b) && IsProgramId(program) && OnTop(st.stack, program) && !b.Done? && !b.Call?
    ensures DecisionIn(b, program, gate) == Or(decision, DecisionIn(b.rest, program, gate))
    ensures var lines := PrintBody(b, program, depth);
      && lines != [] && lines[1..] == PrintBody(b.rest, program, depth)
      && Step(st, lines[0], gate) == State(st.stack, st.seen.(decision := Or(st.seen.decision, decision)))
  {
    ProgramIdIsWord(program);
    if b.Consumed? {
      ConsumedIsPlain(b.detail);
    }
    var word := if b.Log? then "log:" else if b.Data? then "data:" else program;
    var text := if b.Consumed? then "consumed " + b.detail else b.text;
    PlainStep(st, word, text, gate);
    decision := if b.Log? && program == gate then FirstTg(text) else None;
    var lines := PrintBody(b, program, depth);
    assert lines[0] == Line(word, text) && lines[1..] == PrintBody(b.rest, program, depth);
  }

  lemma {:induction false} BodyRuns(st: State, b: Body, program: string, depth: nat, gate: string)
    requires PrintableBody(b) && IsProgramId(program) && OnTop(st.stack, program)
    ensures Run(st, PrintBody(b, program, depth), gate)
         == State(st.stack, Sees(st.seen, InvokesIn(b, gate), DecisionIn(b, program, gate), FailureIn(b)))
    decreases b
  {
    if b.Done? {
    } else if b.Call? {
      FrameRuns(st, b.frame, depth + 1, gate);
      RunAppend(st, Print(b.frame, depth + 1), PrintBody(b.rest, program, depth), gate);
      BodyRuns(Run(st, Print(b.frame, depth + 1), gate), b.rest, program, depth, gate);
    } else {
      var decision := ItemRuns(st, b, program, depth, gate);
      var lines := PrintBody(b, program, depth);
      BodyRuns(Step(st, lines[0], gate), b.rest, program, depth, gate);
    }
  }

  lemma {:induction false} FrameRuns(st: State, f: Frame, depth: nat, gate: string)
    requires Printable(f)
    ensures Run(st, Print(f, depth), gate)
         == State(st.stack, Sees(st.seen, Invokes(f, gate), DecisionIn(f.body, f.program, gate), FailureOf(f)))
    decreases f
  {
    var open := [Line(f.program, "invoke [" + Digits(depth) + "]")];
    var body := PrintBody(f.body, f.program, depth);
    var entered := Step(st, open[0], gate);
    InvokeStep(st, f.program, depth, gate);
    RunOne(st, open[0], gate);
    RunAppend(st, open, body, gate);
    BodyRuns(entered, f.body, f.program, depth, gate);
    var after := Run(entered, body, gate);
    ExitStep(after, f, gate);
    RunOne(after, ExitLine(f), gate);
    RunAppend(st, open + body, [ExitLine(f)], gate);
    assert Pop(entered.stack) == st.stack;
  }

  lemma RunOne(st: State, line: string, gate: string)
    ensures Run(st, [line], gate) == Step(st, line, gate)
  {
    assert [line][1..] == [];
  }

  function DecisionOfAll(frames: seq<Frame>, gate: string): Option<(Kind, string)> {
    if frames == [] then None
    else Or(DecisionIn(frames[0].body, frames[0].program, gate), DecisionOfAll(frames[1..], gate))
  }

  function FailureOfAll(frames: seq<Frame>): Option<(string, string)> {
    if frames == [] then None else Or(FailureOf(frames[0]), FailureOfAll(frames[1..]))
  }

  predicate PrintableAll(frames: seq<Frame>) {
    forall i :: 0 <= i < |frames| ==> Printable(frames[i])
  }

  lemma {:induction false} AllRuns(st: State, frames: seq<Frame>, gate: string)
    requires PrintableAll(frames)
    ensures Run(st, PrintAll(frames), gate)
         == State(st.stack, Sees(st.seen, exists i :: 0 <= i < |frames| && Invokes(frames[i], gate),
                                 DecisionOfAll(frames, gate), FailureOfAll(frames)))
    decreases frames
  {
    if frames != [] {
      var mid := Run(st, Print(frames[0], 1), gate);
      FrameRuns(st, frames[0], 1, gate);
      RunAppend(st, Print(frames[0], 1), PrintAll(frames[1..]), gate);
      AllRuns(mid, frames[1..], gate);
      assert (exists i :: 0 <= i < |frames| && Invokes(frames[i], gate))
        <==> Invokes(frames[0], gate) || (exists i :: 0 <= i < |frames[1..]| && Invokes(frames[1..][i], gate)) by {
        assert forall i :: 0 <= i < |frames[1..]| ==> frames[1..][i] == frames[i + 1];
        if i :| 0 <= i < |frames| && Invokes(frames[i], gate) {
          assert i > 0 ==> frames[1..][i - 1] == frames[i];
        }
      }
    }
  }

  /**
   * For every transaction whose logged texts are plain, the parser recovers from the printed lines whether the gate
   * ran, the first TG text among the gate's own logs (no other program's counts) and the innermost failing program.
   */
  lemma ParsePrinted(frames: seq<Frame>, gate: string)
    requires PrintableAll(frames)
    ensures var r := Run(START, PrintAll(frames), gate).seen;
      && (r.gateInvoked <==> exists i :: 0 <= i < |frames| && Invokes(frames[i], gate))
      && r.decision == DecisionOfAll(frames, gate)
      && r.failure == FailureOfAll(frames)
  {
    AllRuns(START, frames, gate);
  }

  // ----- Whatever other programs log

  /** Gate frames print plainly; of other programs only the ids are what the runtime prints. */
  predicate GatePrintable(f: Frame, gate: string) {
    if f.program == gate then Printable(f) else IsProgramId(f.program) && GatePrintableBody(f.body, gate)
  }

  predicate GatePrintableBody(b: Body, gate: string) {
    match b
    case Done => true
    case Log(_, rest) => GatePrintableBody(rest, gate)
    case Data(_, rest) => GatePrintableBody(rest, gate)
    case Consumed(_, rest) => GatePrintableBody(rest, gate)
    case Call(f, rest) => GatePrintable(f, gate) && GatePrintableBody(rest, gate)
  }

  predicate GatePrintableAll(frames: seq<Frame>, gate: string) {
    forall i :: 0 <= i < |frames| ==> GatePrintable(frames[i], gate)
  }

  /** Outside the gate's frames: the gate is not on the stack, and the run so far added what is given. */
  predicate Outside(before: State, after: State, invoked: bool, decision: Option<(Kind, string)>, gate: string) {
    && gate !in after.stack
    && after.seen.gateInvoked == (before.seen.gateInvoked || invoked)
    && after.seen.decision == Or(before.seen.decision, decision)
  }

  /** A line of another program, whatever it says. */
  lemma OtherStep(st: State, word: string, text: string, gate: string)
    requires IsWord(word) && word != gate && gate !in st.stack
    ensures Outside(st, Step(st, Line(word, text), gate), false, None, gate)
  {
    LineKinds(word, text);
  }

  lemma {:induction false} OtherBodyRuns(st: State, b: Body, program: string, depth: nat, gate: string)
    requires IsProgramId(gate) && IsProgramId(program) && program != gate
    requires GatePrintableBody(b, gate) && gate !in st.stack
    ensures Outside(st, Run(st, PrintBody(b, program, depth), gate), InvokesIn(b, gate), DecisionIn(b, program, gate),
                    gate)
    decreases b
  {
    if b.Done? {
    } else if b.Call? {
      var mid := Run(st, Print(b.frame, depth + 1), gate);
      AnyFrameRuns(st, b.frame, depth + 1, gate);
      RunAppend(st, Print(b.frame, depth + 1), PrintBody(b.rest, program, depth), gate);
      OtherBodyRuns(mid, b.rest, program, depth, gate);
    } else {
      ProgramIdIsWord(program);
      ProgramIdIsWord(gate);
      var word := if b.Log? then "log:" else if b.Data? then "data:" else program;
      var text := if b.Consumed? then "consumed " + b.detail else b.text;
      OtherStep(st, word, text, gate);
      var lines := PrintBody(b, program, depth);
      assert lines[0] == Line(word, text) && lines[1..] == PrintBody(b.rest, program, depth);
      OtherBodyRuns(Step(st, lines[0], gate), b.rest, program, depth, gate);
    }
  }

  lemma {:induction false} AnyFrameRuns(st: State, f: Frame, depth: nat, gate: string)
    requires IsProgramId(gate) && GatePrintable(f, gate) && gate !in st.stack
    ensures Outside(st, Run(st, Print(f, depth), gate), Invokes(f, gate), DecisionIn(f.body, f.program, gate), gate)
    decreases f
  {
    if f.program == gate {
      FrameRuns(st, f, depth, gate);
    } else {
      ProgramIdIsWord(f.program);
      var text := "invoke [" + Digits(depth) + "]";
      var open, body := [Line(f.program, text)], PrintBody(f.body, f.program, depth);
      OtherStep(st, f.program, text, gate);
      RunOne(st, open[0], gate);
      RunAppend(st, open, body, gate);
      var entered := Step(st, open[0], gate);
      OtherBodyRuns(entered, f.body, f.program, depth, gate);
      var after := Run(entered, body, gate);
      OtherStep(after, f.program, if f.exit.Success? then "success" else "failed: " + f.exit.message, gate);
      RunOne(after, ExitLine(f), gate);
      RunAppend(st, open + body, [ExitLine(f)], gate);
    }
  }

  lemma {:induction false} AnyFramesRun(st: State, frames: seq<Frame>, gate: string)
    requires IsProgramId(gate) && GatePrintableAll(frames, gate) && gate !in st.stack
    ensures Outside(st, Run(st, PrintAll(frames), gate), exists i :: 0 <= i < |frames| && Invokes(frames[i], gate),
                    DecisionOfAll(frames, gate), gate)
    decreases frames
  {
    if frames != [] {
      var first, rest := frames[0], frames[1..];
      AnyFrameRuns(st, first, 1, gate);
      RunAppend(st, Print(first, 1), PrintAll(rest), gate);
      AnyFramesRun(Run(st, Print(first, 1), gate), rest, gate);
      assert frames == [first] + rest;
      InvokesFirstOrRest(first, rest, gate);
    }
  }

  lemma InvokesFirstOrRest(first: Frame, rest: seq<Frame>, gate: string)
    ensures var frames := [first] + rest;
      (exists i :: 0 <= i < |frames| && Invokes(frames[i], gate))
      <==> Invokes(first, gate) || (exists i :: 0 <= i < |rest| && Invokes(rest[i], gate))
  {
    var frames := [first] + rest;
    assert frames[0] == first;
    if i :| 0 <= i < |rest| && Invokes(rest[i], gate) {
      assert frames[i + 1] == rest[i];
    }
  }

  /**
   * No other program can impersonate the gate: as long as the gate's own frames print plainly, the decision and whether
   * the gate ran are read exactly, whatever texts the other programs log, emit or fail with.
   */
  lemma OthersCannotImpersonate(frames: seq<Frame>, gate: string)
    requires IsProgramId(gate) && GatePrintableAll(frames, gate)
    ensures var r := Run(START, PrintAll(frames), gate).seen;
      && (r.gateInvoked <==> exists i :: 0 <= i < |frames| && Invokes(frames[i], gate))
      && r.decision == DecisionOfAll(frames, gate)
  {
    AnyFramesRun(START, frames, gate);
  }

  // ----- Exactly which texts the gate may log

  lemma PrintTwoLogs(program: string, a: string, b: string, exit: Exit, depth: nat)
    ensures var f := Frame(program, Log(a, Log(b, Done)), exit);
      && Print(f, depth)
         == [Line(program, "invoke [" + Digits(depth) + "]"), Line("log:", a)] + [Line("log:", b), ExitLine(f)]
      && DecisionIn(f.body, program, program) == Or(FirstTg(a), FirstTg(b))
  {
    assert PrintBody(Log(b, Done), program, depth) == [Line("log:", b)];
    assert PrintBody(Log(a, Log(b, Done)), program, depth) == [Line("log:", a), Line("log:", b)];
    assert DecisionIn(Log(b, Done), program, program) == FirstTg(b);
  }

  lemma RunTwo(st: State, a: string, b: string, gate: string)
    ensures Run(st, [a, b], gate) == Step(Step(st, a, gate), b, gate)
  {
    assert [a, b] == [a] + [b];
    RunAppend(st, [a], [b], gate);
    RunOne(st, a, gate);
    RunOne(Step(st, a, gate), b, gate);
  }

  /** Opening a gate frame and logging `text` leaves the gate's frame on top exactly when `text` is plain. */
  lemma OpenThenText(st: State, gate: string, text: string, depth: nat)
    requires IsProgramId(gate) && FirstTg(text).None? && !OnTop(st.stack, gate)
    ensures var mid := Run(st, [Line(gate, "invoke [" + Digits(depth) + "]"), Line("log:", text)], gate);
      mid.seen.decision == st.seen.decision && (OnTop(mid.stack, gate) <==> Plain(text))
  {
    var entered := State(st.stack + [gate], st.seen.(gateInvoked := true));
    RunTwo(st, Line(gate, "invoke [" + Digits(depth) + "]"), Line("log:", text), gate);
    InvokeStep(st, gate, depth, gate);
    assert Pop(entered.stack) == st.stack;
    ProgramIdIsWord(gate);
    LogOnTop(entered, gate, text);
  }

  lemma LogOnTop(entered: State, gate: string, text: string)
    requires OnTop(entered.stack, gate) && gate != "log:" && FirstTg(text).None? && !OnTop(Pop(entered.stack), gate)
    ensures var mid := Step(entered, Line("log:", text), gate);
      mid.seen.decision == entered.seen.decision && (OnTop(mid.stack, gate) <==> Plain(text))
  {
    LineKinds("log:", text);
    LineTg("log:", text);
  }

  /** Logging a decision and closing the frame shows the decision exactly when the gate's frame is on top. */
  lemma TgThenExit(st: State, tg: string, f: Frame, gate: string)
    requires IsProgramId(gate) && f.program == gate
    requires Plain(tg) && FirstTg(tg).Some? && st.seen.decision.None?
    ensures Run(st, [Line("log:", tg), ExitLine(f)], gate).seen.decision == FirstTg(tg) <==> OnTop(st.stack, gate)
  {
    RunTwo(st, Line("log:", tg), ExitLine(f), gate);
    PlainStep(st, "log:", tg, gate);
    ProgramIdIsWord(gate);
    var text := if f.exit.Success? then "success" else "failed: " + f.exit.message;
    LineKinds(gate, text);
    LineTg(gate, text);
  }

  /**
   * A gate frame that logs `text` before its decision, however it ends: the decision is read if and only if `text` is
   * plain, for every text without a decision of its own. A text of invoke shape buries the frame, one of exit shape
   * closes it.
   */
  lemma TextBeforeDecision(st: State, gate: string, text: string, tg: string, exit: Exit, depth: nat)
    requires IsProgramId(gate) && FirstTg(text).None? && Plain(tg) && FirstTg(tg).Some?
    requires st.seen.decision.None? && !OnTop(st.stack, gate)
    ensures var f := Frame(gate, Log(text, Log(tg, Done)), exit);
      && DecisionIn(f.body, gate, gate) == FirstTg(tg)
      && (Run(st, Print(f, depth), gate).seen.decision == FirstTg(tg) <==> Plain(text))
  {
    var f := Frame(gate, Log(text, Log(tg, Done)), exit);
    var head := [Line(gate, "invoke [" + Digits(depth) + "]"), Line("log:", text)];
    PrintTwoLogs(gate, text, tg, exit, depth);
    RunAppend(st, head, [Line("log:", tg), ExitLine(f)], gate);
    OpenThenText(st, gate, text, depth);
    TgThenExit(Run(st, head, gate), tg, f, gate);
  }

  /** The three shapes that are not plain, each on an example. */
  lemma ShapesThatAreNotPlain(n: nat, message: string)
    ensures !Plain("success") && !Plain("invoke [" + Digits(n) + "]")
    ensures OneLine(message) ==> !Plain("failed: " + message)
  {
    ExitShapes(message);
    InvokeShape(n);
  }
}
