/** The log parser's regular expressions as functions of one line. */
module Lines {
  import opened Bytes
  import opened Decimal

  /** `\s` of a JavaScript regular expression. */
  predicate IsSpace(c: char) {
    || c == ' ' || '\t' <= c <= '\r' || c == '\U{00A0}' || c == '\U{1680}' || '\U{2000}' <= c <= '\U{200A}'
    || c == '\U{2028}' || c == '\U{2029}' || c == '\U{202F}' || c == '\U{205F}' || c == '\U{3000}' || c == '\U{FEFF}'
  }

  /** What `.` does not match. */
  predicate IsBreak(c: char) {
    c == '\n' || c == '\r' || c == '\U{2028}' || c == '\U{2029}'
  }

  predicate OneLine(s: string) {
    forall i :: 0 <= i < |s| ==> !IsBreak(s[i])
  }

  predicate Begins(s: string, prefix: string) {
    prefix <= s
  }

  /** Length of the run of `\S` at the head. */
  function WordLength(s: string): (n: nat)
    ensures n <= |s|
  {
    if s == [] || IsSpace(s[0]) then 0 else 1 + WordLength(s[1..])
  }

  /** `Program (\S+)` and what follows it. A shorter run cannot help: every pattern goes on with a space. */
  function FrameParts(line: string): Option<(string, string)> {
    if !Begins(line, "Program ") then None
    else
      var rest := line[8..];
      var n := WordLength(rest);
      if n == 0 then None else Some((rest[..n], rest[n..]))
  }

  /** ` invoke \[\d+\]$` */
  predicate InvokeTail(tail: string) {
    && |tail| > 10 && Begins(tail, " invoke [") && tail[|tail| - 1] == ']'
    && AllDigits(tail[9..|tail| - 1])
  }

  /** INVOKE: the program of a frame's opening line. */
  function InvokedProgram(line: string): Option<string> {
    var parts :- FrameParts(line);
    if InvokeTail(parts.1) then Some(parts.0) else None
  }

  /** FAILED: the program and message of a failed frame's closing line. */
  function FailedProgram(line: string): Option<(string, string)> {
    var parts :- FrameParts(line);
    if Begins(parts.1, " failed: ") && OneLine(parts.1[9..]) then Some((parts.0, parts.1[9..])) else None
  }

  /** EXIT. */
  predicate IsExit(line: string) {
    var parts := FrameParts(line);
    parts.Some? && (parts.value.1 == " success" || (Begins(parts.value.1, " failed: ") && OneLine(parts.value.1[9..])))
  }

  // ----- TG lines

  datatype Kind = ALLOW | DENY

  predicate IsCodeChar(c: char) {
    'A' <= c <= 'Z' || c == '_'
  }

  function CodeLength(s: string): (n: nat)
    ensures n <= |s|
  {
    if s == [] || !IsCodeChar(s[0]) then 0 else 1 + CodeLength(s[1..])
  }

  /** `TG:(ALLOW|DENY):([A-Z_]+)` at the head of `s`. */
  function TgAt(s: string): Option<(Kind, string)> {
    if Begins(s, "TG:ALLOW:") && CodeLength(s[9..]) > 0 then Some((ALLOW, s[9..9 + CodeLength(s[9..])]))
    else if Begins(s, "TG:DENY:") && CodeLength(s[8..]) > 0 then Some((DENY, s[8..8 + CodeLength(s[8..])]))
    else None
  }

  /** The leftmost match on the first line of `s`. */
  function FirstTg(s: string): Option<(Kind, string)> {
    if TgAt(s).Some? then TgAt(s)
    else if s == [] || IsBreak(s[0]) then None
    else FirstTg(s[1..])
  }

  /** TG_LINE. */
  function TgOfLine(line: string): Option<(Kind, string)> {
    if Begins(line, "Program log: ") then FirstTg(line[13..]) else None
  }

  // ----- Every line the runtime prints has the form "Program <word> <rest>"

  predicate IsWord(w: string) {
    w != [] && forall i :: 0 <= i < |w| ==> !IsSpace(w[i])
  }

  function Line(word: string, rest: string): string {
    "Program " + word + " " + rest
  }

  lemma {:induction false} WordThenSpace(w: string, rest: string)
    requires forall i :: 0 <= i < |w| ==> !IsSpace(w[i])
    ensures WordLength(w + " " + rest) == |w|
  {
    var s := w + " " + rest;
    if w != [] {
      assert s[1..] == w[1..] + " " + rest;
      WordThenSpace(w[1..], rest);
    } else {
      assert s[0] == ' ';
    }
  }

  lemma LineParts(w: string, rest: string)
    requires IsWord(w)
    ensures FrameParts(Line(w, rest)) == Some((w, " " + rest))
  {
    var line := Line(w, rest);
    assert line[..8] == "Program ";
    assert line[8..] == w + " " + rest;
    WordThenSpace(w, rest);
    assert (w + " " + rest)[..|w|] == w;
    assert (w + " " + rest)[|w|..] == " " + rest;
  }

  /** Only the word "log:" makes a line a log line. */
  lemma LogWord(w: string, rest: string)
    requires IsWord(w) && Begins(Line(w, rest), "Program log: ")
    ensures w == "log:"
  {
    var line, log := Line(w, rest), "Program log: ";
    assert forall i :: 0 <= i < |w| ==> line[8 + i] == w[i];
    assert line[8 + |w|] == ' ';
    assert line[8] == log[8] && line[9] == log[9] && line[10] == log[10] && line[11] == log[11] && line[12] == log[12];
    assert |w| == 4;
  }

  lemma LineTg(w: string, rest: string)
    requires IsWord(w)
    ensures TgOfLine(Line(w, rest)) == if w == "log:" then FirstTg(rest) else None
  {
    var line := Line(w, rest);
    if Begins(line, "Program log: ") {
      LogWord(w, rest);
      assert line[13..] == rest;
    }
    assert w == "log:" ==> line == "Program log: " + rest;
  }

  /** The message shapes that read as frame lines when logged. */
  predicate ReadsAsInvoke(text: string) {
    InvokeTail(" " + text)
  }

  predicate ReadsAsExit(text: string) {
    text == "success" || (Begins(text, "failed: ") && OneLine(text[8..]))
  }

  lemma LineKinds(w: string, rest: string)
    requires IsWord(w)
    ensures InvokedProgram(Line(w, rest)) == if ReadsAsInvoke(rest) then Some(w) else None
    ensures IsExit(Line(w, rest)) <==> ReadsAsExit(rest)
    ensures FailedProgram(Line(w, rest))
         == if Begins(rest, "failed: ") && OneLine(rest[8..]) then Some((w, rest[8..])) else None
  {
    LineParts(w, rest);
    var t := " " + rest;
    assert t == " success" <==> rest == "success" by {
      assert t[1..] == rest;
      assert " success"[1..] == "success";
    }
    assert Begins(t, " failed: ") <==> Begins(rest, "failed: ") by {
      assert " failed: " == " " + "failed: ";
      if Begins(t, " failed: ") {
        assert t[..9] == " failed: ";
        assert rest[..8] == t[..9][1..];
      }
    }
    if Begins(rest, "failed: ") {
      assert t[9..] == rest[8..];
    }
  }

  lemma InvokeShape(d: nat)
    ensures ReadsAsInvoke("invoke [" + Digits(d) + "]") && !ReadsAsExit("invoke [" + Digits(d) + "]")
  {
    var text := "invoke [" + Digits(d) + "]";
    var t := " " + text;
    assert text[0] == 'i' && "success"[0] == 's' && "failed: "[0] == 'f';
    assert t[..9] == " invoke [";
    assert t[9..|t| - 1] == Digits(d);
  }

  lemma ExitShapes(message: string)
    ensures ReadsAsExit("success") && !ReadsAsInvoke("success")
    ensures ("failed: " + message)[8..] == message && Begins("failed: " + message, "failed: ")
    ensures !ReadsAsInvoke("failed: " + message)
  {
    assert (" " + "success")[1] == 's';
    assert (" " + ("failed: " + message))[1] == 'f';
  }

  // ----- The patterns, exactly: which lines match, and what they capture

  lemma {:induction false} WordIsMaximal(s: string)
    ensures forall i :: 0 <= i < WordLength(s) ==> !IsSpace(s[i])
    ensures WordLength(s) < |s| ==> IsSpace(s[WordLength(s)])
  {
    if s != [] && !IsSpace(s[0]) {
      WordIsMaximal(s[1..]);
      forall i | 0 <= i < WordLength(s) ensures !IsSpace(s[i]) {
        assert i > 0 ==> s[i] == s[1..][i - 1];
      }
    }
  }

  lemma PartsOf(line: string)
    ensures FrameParts(line).Some? ==>
      IsWord(FrameParts(line).value.0) && line == "Program " + FrameParts(line).value.0 + FrameParts(line).value.1
  {
    if FrameParts(line).Some? {
      WordIsMaximal(line[8..]);
      assert line == "Program " + line[8..];
    }
  }

  /** A tail that starts with a space makes a line of the printed form. */
  lemma AsLine(word: string, tail: string)
    requires tail != [] && tail[0] == ' '
    ensures "Program " + word + tail == Line(word, tail[1..])
  {
    assert tail == " " + tail[1..];
  }

  lemma InvokeMatch(line: string, program: string) returns (digits: string)
    requires InvokedProgram(line) == Some(program)
    ensures IsWord(program) && digits != "" && AllDigits(digits) && line == Line(program, "invoke [" + digits + "]")
  {
    PartsOf(line);
    var tail := FrameParts(line).value.1;
    digits := tail[9..|tail| - 1];
    TailOfInvoke(tail, digits);
    AsLine(program, tail);
  }

  lemma TailOfInvoke(tail: string, digits: string)
    requires InvokeTail(tail) && digits == tail[9..|tail| - 1]
    ensures tail[0] == ' ' && tail[1..] == "invoke [" + digits + "]"
  {
    assert tail[..9] == " invoke [" == " " + "invoke [";
    assert tail == tail[..9] + digits + "]";
  }

  lemma InvokeMatches(program: string, digits: string)
    requires IsWord(program) && digits != "" && AllDigits(digits)
    ensures InvokedProgram(Line(program, "invoke [" + digits + "]")) == Some(program)
  {
    var tail := " " + ("invoke [" + digits + "]");
    LineParts(program, "invoke [" + digits + "]");
    assert tail[..9] == " invoke [" && tail[9..|tail| - 1] == digits;
  }

  /** INVOKE matches exactly `Program <word> invoke [<digits>]`, and captures the word. */
  lemma InvokeExactly(line: string, program: string)
    ensures InvokedProgram(line) == Some(program)
       <==> IsWord(program)
            && exists digits :: digits != "" && AllDigits(digits) && line == Line(program, "invoke [" + digits + "]")
  {
    if InvokedProgram(line) == Some(program) {
      var digits := InvokeMatch(line, program);
    } else if IsWord(program) {
      forall digits | digits != "" && AllDigits(digits) ensures line != Line(program, "invoke [" + digits + "]") {
        InvokeMatches(program, digits);
      }
    }
  }

  /** FAILED matches exactly `Program <word> failed: <message>`, the message on one line, and captures both. */
  lemma FailedExactly(line: string, program: string, message: string)
    ensures FailedProgram(line) == Some((program, message))
       <==> IsWord(program) && OneLine(message) && line == Line(program, "failed: " + message)
  {
    if FailedProgram(line) == Some((program, message)) {
      PartsOf(line);
      var tail := FrameParts(line).value.1;
      AsLine(program, tail);
      assert tail[..9] == " failed: ";
      assert tail == tail[..9] + message;
      assert tail[1..] == "failed: " + message by {
        assert " failed: " == " " + "failed: ";
      }
    }
    if IsWord(program) && OneLine(message) && line == Line(program, "failed: " + message) {
      LineKinds(program, "failed: " + message);
      ExitShapes(message);
    }
  }

  /** The line is `Program <word> ` and then `text`, and anything. */
  ghost predicate GoesOnWith(line: string, text: string) {
    exists w, more :: IsWord(w) && line == Line(w, text + more)
  }

  lemma LineGoesOn(w: string, text: string, more: string)
    requires IsWord(w)
    ensures FrameParts(Line(w, text + more)) == Some((w, " " + (text + more)))
    ensures Begins(" " + (text + more), " " + text)
  {
    LineParts(w, text + more);
    assert (" " + (text + more))[..1 + |text|] == " " + text;
  }

  lemma GoesOnExactly(line: string, text: string)
    ensures GoesOnWith(line, text) <==> FrameParts(line).Some? && Begins(FrameParts(line).value.1, " " + text)
  {
    if FrameParts(line).Some? && Begins(FrameParts(line).value.1, " " + text) {
      var w, tail := FrameParts(line).value.0, FrameParts(line).value.1;
      PartsOf(line);
      AsLine(w, tail);
      var more := tail[1 + |text|..];
      assert tail[..1 + |text|] == " " + text;
      assert tail[1..] == text + more;
    }
    if w, more :| IsWord(w) && line == Line(w, text + more) {
      LineGoesOn(w, text, more);
    }
  }

  /** EXIT matches exactly `Program <word> success` and what FAILED matches. */
  lemma ExitExactly(line: string)
    ensures IsExit(line) <==> FailedProgram(line).Some? || exists p :: IsWord(p) && line == Line(p, "success")
  {
    PartsOf(line);
    if FrameParts(line).Some? && FrameParts(line).value.1 == " success" {
      AsLine(FrameParts(line).value.0, FrameParts(line).value.1);
      assert " success"[1..] == "success";
      assert line == Line(FrameParts(line).value.0, "success");
    }
    if p :| IsWord(p) && line == Line(p, "success") {
      LineKinds(p, "success");
    }
  }

  function KindText(k: Kind): string {
    match k case ALLOW => "TG:ALLOW:" case DENY => "TG:DENY:"
  }

  /** A TG text starts here: the kind and at least one code character. */
  predicate StartsTg(s: string) {
    exists k: Kind :: |KindText(k)| < |s| && KindText(k) <= s && IsCodeChar(s[|KindText(k)|])
  }

  /** The code is the whole run of code characters. */
  predicate IsCodeOf(code: string, after: string) {
    && code != "" && (forall i :: 0 <= i < |code| ==> IsCodeChar(code[i]))
    && (after != "" ==> !IsCodeChar(after[0]))
  }

  lemma {:induction false} CodeIsMaximal(s: string)
    ensures IsCodeOf(s[..CodeLength(s)], s[CodeLength(s)..]) || (CodeLength(s) == 0 && (s == [] || !IsCodeChar(s[0])))
  {
    if s != [] && IsCodeChar(s[0]) {
      CodeIsMaximal(s[1..]);
      var n := CodeLength(s[1..]);
      assert s[..n + 1] == [s[0]] + s[1..][..n];
      assert s[n + 1..] == s[1..][n..];
    }
  }

  lemma {:induction false} CodeLengthOf(code: string, after: string)
    requires forall i :: 0 <= i < |code| ==> IsCodeChar(code[i])
    requires after != "" ==> !IsCodeChar(after[0])
    ensures CodeLength(code + after) == |code|
  {
    if code == "" {
      assert code + after == after;
    } else {
      assert (code + after)[1..] == code[1..] + after;
      CodeLengthOf(code[1..], after);
    }
  }

  /** The alternative of kind `k` in the pattern. */
  function TgOfKind(s: string, k: Kind): Option<(Kind, string)> {
    var n := |KindText(k)|;
    if Begins(s, KindText(k)) && CodeLength(s[n..]) > 0 then Some((k, s[n..n + CodeLength(s[n..])])) else None
  }

  lemma TgIsOfOneKind(s: string)
    ensures TgAt(s) == if TgOfKind(s, ALLOW).Some? then TgOfKind(s, ALLOW) else TgOfKind(s, DENY)
    ensures forall k :: TgOfKind(s, k).Some? ==> TgAt(s) == TgOfKind(s, k)
  {
    assert KindText(ALLOW)[3] == 'A' && KindText(DENY)[3] == 'D';
  }

  lemma CodeAfter(s: string, prefix: string) returns (after: string)
    requires Begins(s, prefix) && CodeLength(s[|prefix|..]) > 0
    ensures var code := s[|prefix|..|prefix| + CodeLength(s[|prefix|..])];
      IsCodeOf(code, after) && s == prefix + code + after
    ensures |prefix| < |s| && IsCodeChar(s[|prefix|])
  {
    var rest := s[|prefix|..];
    var n := CodeLength(rest);
    CodeIsMaximal(rest);
    after := rest[n..];
    assert rest[..n] == s[|prefix|..|prefix| + n] && rest[0] == s[|prefix|];
    assert s == prefix + rest;
  }

  lemma TgOfKindMatch(s: string, k: Kind) returns (after: string)
    requires TgOfKind(s, k).Some?
    ensures IsCodeOf(TgOfKind(s, k).value.1, after) && s == KindText(k) + TgOfKind(s, k).value.1 + after
    ensures |KindText(k)| < |s| && IsCodeChar(s[|KindText(k)|])
  {
    after := CodeAfter(s, KindText(k));
  }

  lemma TgOfKindMatches(k: Kind, code: string, after: string)
    requires IsCodeOf(code, after)
    ensures TgOfKind(KindText(k) + code + after, k) == Some((k, code))
  {
    PrefixThenCode(KindText(k), code, after);
  }

  lemma PrefixThenCode(prefix: string, code: string, after: string)
    requires IsCodeOf(code, after)
    ensures var s := prefix + code + after;
      var rest := s[|prefix|..];
      && Begins(s, prefix) && CodeLength(rest) == |code| > 0
      && s[|prefix|..|prefix| + CodeLength(rest)] == code
  {
    var s := prefix + code + after;
    CodeLengthOf(code, after);
    assert s[|prefix|..] == code + after;
    assert s[..|prefix|] == prefix;
  }

  /** A TG text at the head: its kind and its whole code. */
  lemma TgAtExactly(s: string, kind: Kind, code: string)
    ensures TgAt(s) == Some((kind, code))
       <==> exists after :: IsCodeOf(code, after) && s == KindText(kind) + code + after
  {
    TgIsOfOneKind(s);
    if TgAt(s) == Some((kind, code)) {
      var after := TgOfKindMatch(s, kind);
    } else {
      forall after | IsCodeOf(code, after) ensures s != KindText(kind) + code + after {
        TgOfKindMatches(kind, code, after);
      }
    }
  }

  lemma TgAtStarts(s: string)
    ensures TgAt(s).Some? <==> StartsTg(s)
  {
    TgIsOfOneKind(s);
    if TgAt(s).Some? {
      var after := TgOfKindMatch(s, TgAt(s).value.0);
    }
  }

  /** TG_LINE: on a log line, the leftmost TG text before any line break. */
  ghost predicate TgFrom(text: string, at: nat, kind: Kind, code: string)
    requires at <= |text|
  {
    && OneLine(text[..at])
    && (forall j :: 0 <= j < at ==> !StartsTg(text[j..]))
    && exists after :: IsCodeOf(code, after) && text[at..] == KindText(kind) + code + after
  }

  lemma {:induction false} FirstTgExactly(text: string, kind: Kind, code: string)
    ensures FirstTg(text) == Some((kind, code)) <==> exists at: nat :: at <= |text| && TgFrom(text, at, kind, code)
  {
    TgAtExactly(text, kind, code);
    TgAtStarts(text);
    assert text[0..] == text;
    if TgAt(text).Some? {
      if TgAt(text) == Some((kind, code)) {
        assert TgFrom(text, 0, kind, code);
      }
      if at: nat :| at <= |text| && TgFrom(text, at, kind, code) {
        assert at == 0;
      }
    } else if text == [] || IsBreak(text[0]) {
      forall at: nat | at <= |text| ensures !TgFrom(text, at, kind, code) {
        TgFromStarts(text, at, kind, code);
      }
    } else {
      FirstTgExactly(text[1..], kind, code);
      if at: nat :| at <= |text[1..]| && TgFrom(text[1..], at, kind, code) {
        TgOneOn(text, at, kind, code);
      }
      if at: nat :| at <= |text| && TgFrom(text, at, kind, code) {
        assert at != 0;
        TgOneOn(text, at - 1, kind, code);
      }
    }
  }

  lemma TgFromStarts(text: string, at: nat, kind: Kind, code: string)
    requires at <= |text|
    ensures at > 0 && TgFrom(text, at, kind, code) ==> !IsBreak(text[0]) && !StartsTg(text)
  {
    assert text[0..] == text;
    assert at > 0 ==> text[..at][0] == text[0];
  }

  lemma TgOneOn(text: string, at: nat, kind: Kind, code: string)
    requires text != [] && !IsBreak(text[0]) && !StartsTg(text) && at <= |text| - 1
    ensures TgFrom(text, at + 1, kind, code) <==> TgFrom(text[1..], at, kind, code)
  {
    assert text[at + 1..] == text[1..][at..];
    assert text[..at + 1] == [text[0]] + text[1..][..at];
    forall j | 0 <= j < at ensures text[j + 1..] == text[1..][j..] {
    }
    assert text[0..] == text;
    if TgFrom(text, at + 1, kind, code) {
      forall i | 0 <= i < at ensures !IsBreak(text[1..][..at][i]) {
        assert text[1..][..at][i] == text[..at + 1][i + 1];
      }
      forall j | 0 <= j < at ensures !StartsTg(text[1..][j..]) {
        assert !StartsTg(text[j + 1..]);
      }
    }
    if TgFrom(text[1..], at, kind, code) {
      forall j | 0 <= j < at + 1 ensures !StartsTg(text[j..]) {
        assert j > 0 ==> text[j..] == text[1..][j - 1..];
      }
    }
  }

  /** Only `Program log: <text>` lines carry a TG text. */
  lemma TgLineExactly(line: string, kind: Kind, code: string)
    ensures TgOfLine(line) == Some((kind, code))
       <==> exists text :: line == "Program log: " + text && FirstTg(text) == Some((kind, code))
  {
    if Begins(line, "Program log: ") {
      assert line == "Program log: " + line[13..];
    }
    if text :| line == "Program log: " + text {
      assert line[13..] == text;
    }
  }

  /** The white space and line terminators of ECMAScript, character by character. */
  lemma SpacesExactly(c: char)
    ensures IsSpace(c) <==>
      c in {' ', '\t', '\n', '\U{000B}', '\U{000C}', '\r', '\U{00A0}', '\U{1680}', '\U{2000}', '\U{2001}', '\U{2002}',
            '\U{2003}', '\U{2004}', '\U{2005}', '\U{2006}', '\U{2007}', '\U{2008}', '\U{2009}', '\U{200A}', '\U{2028}',
            '\U{2029}', '\U{202F}', '\U{205F}', '\U{3000}', '\U{FEFF}'}
    ensures IsBreak(c) <==> c in {'\n', '\r', '\U{2028}', '\U{2029}'}
    ensures IsBreak(c) ==> IsSpace(c)
  {
  }
}
