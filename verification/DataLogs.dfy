/** `programDataLogs`: the event payloads a program emitted in its own frames. */
module DataLogs {
  import opened Decimal
  import opened Lines
  import opened GateLogs

  /** The looser closing test: `^Program \S+ (success|failed)`, with nothing said of what follows. */
  predicate LooksClosed(line: string) {
    var parts := FrameParts(line);
    parts.Some? && (Begins(parts.value.1, " success") || Begins(parts.value.1, " failed"))
  }

  /** Which lines it takes: those that go on with one of the two words after `Program <word> `. */
  lemma LooksClosedExactly(line: string)
    ensures LooksClosed(line) <==> GoesOnWith(line, "success") || GoesOnWith(line, "failed")
  {
    GoesOnExactly(line, "success");
    GoesOnExactly(line, "failed");
    assert " " + "success" == " success" && " " + "failed" == " failed";
  }

  datatype DataState = DataState(stack: seq<string>, out: seq<string>)

  function DataStep(st: DataState, line: string, program: string): DataState {
    var invoked := InvokedProgram(line);
    if invoked.Some? then st.(stack := st.stack + [invoked.value])
    else if LooksClosed(line) then st.(stack := Pop(st.stack))
    else if Begins(line, "Program data: ") && OnTop(st.stack, program) then st.(out := st.out + [line[14..]])
    else st
  }

  function DataRun(st: DataState, lines: seq<string>, program: string): DataState
    decreases lines
  {
    if lines == [] then st else DataRun(DataStep(st, lines[0], program), lines[1..], program)
  }

  /** The payloads as base64 text. */
  method ProgramDataLogs(logs: seq<string>, program: string) returns (out: seq<string>)
    ensures out == DataRun(DataState([], []), logs, program).out
  {
    var stack: seq<string> := [];
    out := [];
    for i := 0 to |logs|
      invariant DataRun(DataState(stack, out), logs[i..], program) == DataRun(DataState([], []), logs, program)
    {
      var line := logs[i];
      assert logs[i..][0] == line && logs[i..][1..] == logs[i + 1..];
      var invoke := InvokedProgram(line);
      if invoke.Some? {
        stack := stack + [invoke.value];
      } else if LooksClosed(line) {
        stack := Pop(stack);
      } else if Begins(line, "Program data: ") && OnTop(stack, program) {
        out := out + [line[14..]];
      }
    }
  }

  /** A logged or emitted text this reader does not take for a frame line. */
  predicate Harmless(text: string) {
    !ReadsAsInvoke(text) && !Begins(text, "success") && !Begins(text, "failed")
  }

  predicate HarmlessFrame(f: Frame) {
    IsProgramId(f.program) && HarmlessBody(f.body)
  }

  predicate HarmlessBody(b: Body) {
    match b
    case Done => true
    case Log(text, rest) => Harmless(text) && HarmlessBody(rest)
    case Data(text, rest) => Harmless(text) && HarmlessBody(rest)
    case Consumed(_, rest) => HarmlessBody(rest)
    case Call(f, rest) => HarmlessFrame(f) && HarmlessBody(rest)
  }

  /** The payloads emitted by `program` itself, in order. */
  function Emitted(b: Body, owner: string, program: string): seq<string> {
    match b
    case Done => []
    case Log(_, rest) => Emitted(rest, owner, program)
    case Data(text, rest) => (if owner == program then [text] else []) + Emitted(rest, owner, program)
    case Consumed(_, rest) => Emitted(rest, owner, program)
    case Call(f, rest) => Emitted(f.body, f.program, program) + Emitted(rest, owner, program)
  }

  lemma TailBegins(rest: string, word: string)
    ensures Begins(" " + rest, " " + word) <==> Begins(rest, word)
  {
    var t := " " + rest;
    if Begins(t, " " + word) {
      assert t[..1 + |word|] == " " + word;
      assert rest[..|word|] == t[..1 + |word|][1..] == word;
    }
  }

  lemma Closes(w: string, rest: string)
    requires IsWord(w)
    ensures LooksClosed(Line(w, rest)) <==> Begins(rest, "success") || Begins(rest, "failed")
  {
    LineParts(w, rest);
    TailBegins(rest, "success");
    TailBegins(rest, "failed");
    assert " " + "success" == " success" && " " + "failed" == " failed";
  }

  /** Only the word "data:" makes a line a data line. */
  lemma DataWord(w: string, rest: string)
    requires IsWord(w) && Begins(Line(w, rest), "Program data: ")
    ensures w == "data:"
  {
    var line, data := Line(w, rest), "Program data: ";
    assert forall i :: 0 <= i < |w| ==> line[8 + i] == w[i];
    assert line[8 + |w|] == ' ';
    assert line[8] == data[8] && line[9] == data[9] && line[10] == data[10] && line[11] == data[11]
        && line[12] == data[12] && line[13] == data[13];
    assert |w| == 5;
  }

  lemma HarmlessStep(st: DataState, w: string, rest: string, program: string)
    requires IsWord(w) && Harmless(rest)
    ensures DataStep(st, Line(w, rest), program)
         == if w == "data:" && OnTop(st.stack, program) then st.(out := st.out + [rest]) else st
  {
    LineKinds(w, rest);
    Closes(w, rest);
    var line := Line(w, rest);
    if Begins(line, "Program data: ") {
      DataWord(w, rest);
      assert line[14..] == rest;
    }
    assert w == "data:" ==> line == "Program data: " + rest;
  }

  lemma OpenStep(st: DataState, owner: string, depth: nat, program: string)
    requires IsProgramId(owner)
    ensures DataStep(st, Line(owner, "invoke [" + Digits(depth) + "]"), program) == st.(stack := st.stack + [owner])
  {
    ProgramIdIsWord(owner);
    InvokeShape(depth);
    LineKinds(owner, "invoke [" + Digits(depth) + "]");
  }

  lemma CloseStep(st: DataState, f: Frame, program: string)
    requires IsProgramId(f.program)
    ensures DataStep(st, ExitLine(f), program) == st.(stack := Pop(st.stack))
  {
    ProgramIdIsWord(f.program);
    match f.exit
    case Success =>
      ExitShapes("");
      LineKinds(f.program, "success");
      Closes(f.program, "success");
    case Failed(message) =>
      ExitShapes(message);
      LineKinds(f.program, "failed: " + message);
      Closes(f.program, "failed: " + message);
      assert ("failed: " + message)[..6] == "failed";
  }

  lemma ConsumedIsHarmless(detail: string)
    ensures Harmless("consumed " + detail)
  {
    ConsumedIsPlain(detail);
    assert ("consumed " + detail)[0] == 'c' && "success"[0] == 's' && "failed"[0] == 'f';
  }

  lemma {:induction false} DataRunAppend(st: DataState, a: seq<string>, b: seq<string>, program: string)
    ensures DataRun(st, a + b, program) == DataRun(DataRun(st, a, program), b, program)
    decreases a
  {
    if a == [] {
      assert a + b == b;
    } else {
      assert (a + b)[0] == a[0] && (a + b)[1..] == a[1..] + b;
      DataRunAppend(DataStep(st, a[0], program), a[1..], b, program);
    }
  }

  lemma DataRunOne(st: DataState, line: string, program: string)
    ensures DataRun(st, [line], program) == DataStep(st, line, program)
  {
    assert [line][1..] == [];
  }

  function Plus(st: DataState, more: seq<string>): DataState {
    st.(out := st.out + more)
  }

  lemma PlusPlus(st: DataState, a: seq<string>, b: seq<string>)
    ensures Plus(Plus(st, a), b) == Plus(st, a + b)
    ensures Plus(st, []) == st && [] + b == b
  {
    assert st.out + [] == st.out;
    assert (st.out + a) + b == st.out + (a + b);
  }

  /** What the first item of a body adds, when it is not a call. */
  lemma ItemEmits(st: DataState, b: Body, owner: string, depth: nat, program: string) returns (more: seq<string>)
    requires HarmlessBody(b) && IsProgramId(owner) && OnTop(st.stack, owner) && !b.Done? && !b.Call?
    ensures Emitted(b, owner, program) == more + Emitted(b.rest, owner, program)
    ensures var lines := PrintBody(b, owner, depth);
      && lines != [] && lines[1..] == PrintBody(b.rest, owner, depth)
      && DataStep(st, lines[0], program) == Plus(st, more)
  {
    ProgramIdIsWord(owner);
    if b.Consumed? {
      ConsumedIsHarmless(b.detail);
    }
    var word := if b.Log? then "log:" else if b.Data? then "data:" else owner;
    var text := if b.Consumed? then "consumed " + b.detail else b.text;
    HarmlessStep(st, word, text, program);
    more := if b.Data? && owner == program then [text] else [];
    PlusPlus(st, [], Emitted(b.rest, owner, program));
    var lines := PrintBody(b, owner, depth);
    assert lines[0] == Line(word, text) && lines[1..] == PrintBody(b.rest, owner, depth);
  }

  lemma {:induction false} BodyEmits(st: DataState, b: Body, owner: string, depth: nat, program: string)
    requires HarmlessBody(b) && IsProgramId(owner) && OnTop(st.stack, owner)
    ensures DataRun(st, PrintBody(b, owner, depth), program) == Plus(st, Emitted(b, owner, program))
    decreases b
  {
    if b.Done? {
      PlusPlus(st, [], []);
    } else if b.Call? {
      var lines := Print(b.frame, depth + 1);
      FrameEmits(st, b.frame, depth + 1, program);
      DataRunAppend(st, lines, PrintBody(b.rest, owner, depth), program);
      BodyEmits(DataRun(st, lines, program), b.rest, owner, depth, program);
      PlusPlus(st, Emitted(b.frame.body, b.frame.program, program), Emitted(b.rest, owner, program));
    } else {
      var more := ItemEmits(st, b, owner, depth, program);
      BodyEmits(Plus(st, more), b.rest, owner, depth, program);
      PlusPlus(st, more, Emitted(b.rest, owner, program));
    }
  }

  lemma {:induction false} FrameEmits(st: DataState, f: Frame, depth: nat, program: string)
    requires HarmlessFrame(f)
    ensures DataRun(st, Print(f, depth), program) == Plus(st, Emitted(f.body, f.program, program))
    decreases f
  {
    var first := [Line(f.program, "invoke [" + Digits(depth) + "]")];
    var body := PrintBody(f.body, f.program, depth);
    var entered := DataStep(st, first[0], program);
    OpenStep(st, f.program, depth, program);
    DataRunOne(st, first[0], program);
    DataRunAppend(st, first, body, program);
    BodyEmits(entered, f.body, f.program, depth, program);
    var after := DataRun(entered, body, program);
    CloseStep(after, f, program);
    DataRunOne(after, ExitLine(f), program);
    DataRunAppend(st, first + body, [ExitLine(f)], program);
    assert Pop(entered.stack) == st.stack;
  }

  function EmittedAll(frames: seq<Frame>, program: string): seq<string> {
    if frames == [] then [] else Emitted(frames[0].body, frames[0].program, program) + EmittedAll(frames[1..], program)
  }

  lemma {:induction false} AllEmit(st: DataState, frames: seq<Frame>, program: string)
    requires forall i :: 0 <= i < |frames| ==> HarmlessFrame(frames[i])
    ensures DataRun(st, PrintAll(frames), program) == Plus(st, EmittedAll(frames, program))
    decreases frames
  {
    if frames == [] {
      PlusPlus(st, [], []);
    } else {
      FrameEmits(st, frames[0], 1, program);
      DataRunAppend(st, Print(frames[0], 1), PrintAll(frames[1..]), program);
      forall i | 0 <= i < |frames[1..]| ensures HarmlessFrame(frames[1..][i]) {
        assert frames[1..][i] == frames[i + 1];
      }
      AllEmit(DataRun(st, Print(frames[0], 1), program), frames[1..], program);
      PlusPlus(st, Emitted(frames[0].body, frames[0].program, program), EmittedAll(frames[1..], program));
    }
  }

  /** From the printed lines: exactly the payloads the program emitted in its own frames, in order. */
  lemma DataOfPrinted(frames: seq<Frame>, program: string)
    requires forall i :: 0 <= i < |frames| ==> HarmlessFrame(frames[i])
    ensures DataRun(DataState([], []), PrintAll(frames), program).out == EmittedAll(frames, program)
  {
    AllEmit(DataState([], []), frames, program);
    assert [] + EmittedAll(frames, program) == EmittedAll(frames, program);
  }

  // ----- Whatever other programs log

  /** The program's own frames are harmless; of others only the ids are what the runtime prints. */
  predicate OwnHarmless(f: Frame, program: string) {
    if f.program == program then HarmlessFrame(f) else IsProgramId(f.program) && OwnHarmlessBody(f.body, program)
  }

  predicate OwnHarmlessBody(b: Body, program: string) {
    match b
    case Done => true
    case Log(_, rest) => OwnHarmlessBody(rest, program)
    case Data(_, rest) => OwnHarmlessBody(rest, program)
    case Consumed(_, rest) => OwnHarmlessBody(rest, program)
    case Call(f, rest) => OwnHarmless(f, program) && OwnHarmlessBody(rest, program)
  }

  /** Outside the program's frames: it is not on the stack, and the run so far returned `more`. */
  predicate Outside(before: DataState, after: DataState, more: seq<string>, program: string) {
    program !in after.stack && after.out == before.out + more
  }

  /** A line of another program, whatever it says. */
  lemma OtherStep(st: DataState, word: string, text: string, program: string)
    requires IsWord(word) && word != program && program !in st.stack
    ensures Outside(st, DataStep(st, Line(word, text), program), [], program)
  {
    LineKinds(word, text);
    assert st.out + [] == st.out;
  }

  lemma OutsideTwice(a: DataState, b: DataState, c: DataState, x: seq<string>, y: seq<string>, program: string)
    requires Outside(a, b, x, program) && Outside(b, c, y, program)
    ensures Outside(a, c, x + y, program) && [] + y == y && x + [] == x
  {
    assert (a.out + x) + y == a.out + (x + y);
  }

  lemma {:induction false} OtherBodyEmits(st: DataState, b: Body, owner: string, depth: nat, program: string)
    requires IsProgramId(program) && IsProgramId(owner) && owner != program
    requires OwnHarmlessBody(b, program) && program !in st.stack
    ensures Outside(st, DataRun(st, PrintBody(b, owner, depth), program), Emitted(b, owner, program), program)
    decreases b
  {
    if b.Done? {
      assert st.out + [] == st.out;
    } else if b.Call? {
      var mid := DataRun(st, Print(b.frame, depth + 1), program);
      AnyFrameEmits(st, b.frame, depth + 1, program);
      DataRunAppend(st, Print(b.frame, depth + 1), PrintBody(b.rest, owner, depth), program);
      OtherBodyEmits(mid, b.rest, owner, depth, program);
      OutsideTwice(st, mid, DataRun(mid, PrintBody(b.rest, owner, depth), program),
                   Emitted(b.frame.body, b.frame.program, program), Emitted(b.rest, owner, program), program);
    } else {
      ProgramIdIsWord(owner);
      ProgramIdIsWord(program);
      var word := if b.Log? then "log:" else if b.Data? then "data:" else owner;
      var text := if b.Consumed? then "consumed " + b.detail else b.text;
      OtherStep(st, word, text, program);
      var lines := PrintBody(b, owner, depth);
      assert lines[0] == Line(word, text) && lines[1..] == PrintBody(b.rest, owner, depth);
      var mid := DataStep(st, lines[0], program);
      OtherBodyEmits(mid, b.rest, owner, depth, program);
      OutsideTwice(st, mid, DataRun(mid, lines[1..], program), [], Emitted(b.rest, owner, program), program);
    }
  }

  lemma {:induction false} AnyFrameEmits(st: DataState, f: Frame, depth: nat, program: string)
    requires IsProgramId(program) && OwnHarmless(f, program) && program !in st.stack
    ensures Outside(st, DataRun(st, Print(f, depth), program), Emitted(f.body, f.program, program), program)
    decreases f
  {
    if f.program == program {
      FrameEmits(st, f, depth, program);
    } else {
      ProgramIdIsWord(f.program);
      var invoke := "invoke [" + Digits(depth) + "]";
      var open, body := [Line(f.program, invoke)], PrintBody(f.body, f.program, depth);
      OtherStep(st, f.program, invoke, program);
      DataRunOne(st, open[0], program);
      DataRunAppend(st, open, body, program);
      var entered := DataStep(st, open[0], program);
      OtherBodyEmits(entered, f.body, f.program, depth, program);
      var after := DataRun(entered, body, program);
      OtherStep(after, f.program, if f.exit.Success? then "success" else "failed: " + f.exit.message, program);
      DataRunOne(after, ExitLine(f), program);
      DataRunAppend(st, open + body, [ExitLine(f)], program);
    }
  }

  lemma {:induction false} AnyFramesEmit(st: DataState, frames: seq<Frame>, program: string)
    requires IsProgramId(program) && program !in st.stack
    requires forall i :: 0 <= i < |frames| ==> OwnHarmless(frames[i], program)
    ensures Outside(st, DataRun(st, PrintAll(frames), program), EmittedAll(frames, program), program)
    decreases frames
  {
    if frames == [] {
      assert st.out + [] == st.out;
    } else {
      var first, rest := frames[0], frames[1..];
      var mid := DataRun(st, Print(first, 1), program);
      AnyFrameEmits(st, first, 1, program);
      DataRunAppend(st, Print(first, 1), PrintAll(rest), program);
      AnyFramesEmit(mid, rest, program);
      OutsideTwice(st, mid, DataRun(mid, PrintAll(rest), program), Emitted(first.body, first.program, program),
                   EmittedAll(rest, program), program);
    }
  }

  /**
   * No other program can forge, hide or reorder a program's events: as long as the program's own frames are harmless,
   * exactly its own payloads are returned, in order, whatever texts the others log, emit or fail with.
   */
  lemma OthersCannotForge(frames: seq<Frame>, program: string)
    requires IsProgramId(program) && forall i :: 0 <= i < |frames| ==> OwnHarmless(frames[i], program)
    ensures DataRun(DataState([], []), PrintAll(frames), program).out == EmittedAll(frames, program)
  {
    AnyFramesEmit(DataState([], []), frames, program);
    assert [] + EmittedAll(frames, program) == EmittedAll(frames, program);
  }

  // ----- Exactly which texts a program may log

  lemma DataRunTwo(st: DataState, a: string, b: string, program: string)
    ensures DataRun(st, [a, b], program) == DataStep(DataStep(st, a, program), b, program)
  {
    assert [a, b] == [a] + [b];
    DataRunAppend(st, [a], [b], program);
    DataRunOne(st, a, program);
    DataRunOne(DataStep(st, a, program), b, program);
  }

  lemma PrintLogAndData(program: string, text: string, payload: string, exit: Exit, depth: nat)
    ensures var f := Frame(program, Log(text, Data(payload, Done)), exit);
      && Emitted(f.body, program, program) == [payload]
      && Print(f, depth)
         == [Line(program, "invoke [" + Digits(depth) + "]"), Line("log:", text)]
            + [Line("data:", payload), ExitLine(f)]
  {
    var inner := Data(payload, Done);
    assert Emitted(inner, program, program) == [payload] + Emitted(Done, program, program);
    assert PrintBody(inner, program, depth) == [Line("data:", payload)];
    assert PrintBody(Log(text, inner), program, depth) == [Line("log:", text), Line("data:", payload)];
  }

  /** Opening a frame and logging `text` leaves the frame on top exactly when the text is harmless. */
  lemma OpenThenText(st: DataState, program: string, text: string, depth: nat)
    requires IsProgramId(program) && !OnTop(st.stack, program)
    ensures var mid := DataRun(st, [Line(program, "invoke [" + Digits(depth) + "]"), Line("log:", text)], program);
      mid.out == st.out && (OnTop(mid.stack, program) <==> Harmless(text))
  {
    var line, entered := Line("log:", text), st.(stack := st.stack + [program]);
    DataRunTwo(st, Line(program, "invoke [" + Digits(depth) + "]"), line, program);
    OpenStep(st, program, depth, program);
    assert Pop(entered.stack) == st.stack;
    ProgramIdIsWord(program);
    LineKinds("log:", text);
    Closes("log:", text);
    if Begins(line, "Program data: ") {
      DataWord("log:", text);
    }
  }

  lemma DataThenExit(st: DataState, payload: string, f: Frame, program: string)
    requires IsProgramId(program) && f.program == program && Harmless(payload)
    ensures DataRun(st, [Line("data:", payload), ExitLine(f)], program).out
         == st.out + (if OnTop(st.stack, program) then [payload] else [])
  {
    DataRunTwo(st, Line("data:", payload), ExitLine(f), program);
    HarmlessStep(st, "data:", payload, program);
    CloseStep(DataStep(st, Line("data:", payload), program), f, program);
    assert st.out + [] == st.out;
  }

  /**
   * A frame that logs `text` before it emits an event: the event is returned if and only if `text` is harmless, for
   * every text. This is stronger than plain: any text that merely starts with "success" or "failed" loses the event.
   */
  lemma TextBeforeEvent(st: DataState, program: string, text: string, payload: string, exit: Exit, depth: nat)
    requires IsProgramId(program) && !OnTop(st.stack, program) && Harmless(payload)
    ensures var f := Frame(program, Log(text, Data(payload, Done)), exit);
      DataRun(st, Print(f, depth), program).out == st.out + Emitted(f.body, program, program) <==> Harmless(text)
  {
    var f := Frame(program, Log(text, Data(payload, Done)), exit);
    var head := [Line(program, "invoke [" + Digits(depth) + "]"), Line("log:", text)];
    var tail := [Line("data:", payload), ExitLine(f)];
    PrintLogAndData(program, text, payload, exit, depth);
    DataRunAppend(st, head, tail, program);
    OpenThenText(st, program, text, depth);
    DataThenExit(DataRun(st, head, program), payload, f, program);
    assert |st.out + [payload]| != |st.out + []|;
  }

  /** Texts that are plain to the decision parser and still lose an event. */
  lemma HarmlessIsStronger(text: string)
    ensures Harmless(text) ==> Plain(text)
    ensures Plain("successful") && !Harmless("successful")
  {
    assert "successful"[..7] == "success";
    assert (" " + "successful")[1] == 's' && "successful"[0] == 's' && "failed: "[0] == 'f';
    if Begins(text, "failed: ") {
      assert text[..6] == "failed: "[..6] == "failed";
    }
  }
}
