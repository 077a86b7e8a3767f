/** Line reconstruction and classification of the modem's output: bytes
    tapped from the transport are assembled into newline-terminated lines,
    trimmed, classified as OK, ERROR, PROMPT or LINE and dispatched. */
module CellularEvent {
  import opened Uint
  import CellularStream

  const LINE_BUFFER_SIZE: nat := 256
  /** Longest partial line kept: one slot of the buffer holds the NUL. */
  const MAX_LINE: nat := LINE_BUFFER_SIZE - 1

  const CR: byte := 13
  const LF: byte := 10
  const GT: byte := 62

  datatype LineType = OK | ERROR | PROMPT | LINE

  /** A dispatched line: its type and the text handed to the line callback. */
  datatype Line = Line(kind: LineType, text: string)

  // ---------------------------------------------------------------------------
  // Trimming, C strings and classification
  // ---------------------------------------------------------------------------

  predicate IsBlank(c: char)
  {
    c == ' ' || c == '\t'
  }

  predicate AllBlank(s: string)
  {
    forall i :: 0 <= i < |s| ==> IsBlank(s[i])
  }

  /** The number of leading spaces and tabs of `s`. */
  function Leading(s: string): (n: nat)
    ensures n <= |s|
  {
    if s != [] && IsBlank(s[0]) then 1 + Leading(s[1..]) else 0
  }

  /** The number of trailing spaces and tabs of `s`. */
  function Trailing(s: string): (n: nat)
    ensures n <= |s|
  {
    if s != [] && IsBlank(s[|s| - 1]) then 1 + Trailing(s[..|s| - 1]) else 0
  }

  /** `s` without its leading spaces and tabs. */
  function TrimStart(s: string): string
  {
    s[Leading(s)..]
  }

  /** `s` without its trailing spaces and tabs. */
  function TrimEnd(s: string): string
  {
    s[..|s| - Trailing(s)]
  }

  function Trim(s: string): string
  {
    TrimEnd(TrimStart(s))
  }

  /** The index of the first NUL of `s`, or |s| when there is none. */
  function NulIndex(s: string): (n: nat)
    ensures n <= |s|
  {
    if s == [] || s[0] == '\0' then 0 else 1 + NulIndex(s[1..])
  }

  /** What a C string function sees of a character buffer: everything
      before the first NUL. */
  function CString(s: string): string
  {
    s[..NulIndex(s)]
  }

  /** Leading counts blanks only, and all of them. */
  lemma {:induction false} LeadingShape(s: string)
    ensures forall k :: 0 <= k < Leading(s) ==> IsBlank(s[k])
    ensures Leading(s) < |s| ==> !IsBlank(s[Leading(s)])
    decreases |s|
  {
    if s != [] && IsBlank(s[0]) {
      LeadingShape(s[1..]);
      forall k | 0 < k < Leading(s) ensures IsBlank(s[k]) {
        assert s[k] == s[1..][k - 1];
      }
    }
  }

  /** Trailing counts blanks only, and all of them. */
  lemma {:induction false} TrailingShape(s: string)
    ensures forall k :: |s| - Trailing(s) <= k < |s| ==> IsBlank(s[k])
    ensures Trailing(s) < |s| ==> !IsBlank(s[|s| - 1 - Trailing(s)])
    decreases |s|
  {
    if s != [] && IsBlank(s[|s| - 1]) {
      var init := s[..|s| - 1];
      TrailingShape(init);
    }
  }

  /** NulIndex stops at the first NUL. */
  lemma {:induction false} NulIndexShape(s: string)
    ensures forall k :: 0 <= k < NulIndex(s) ==> s[k] != '\0'
    ensures NulIndex(s) < |s| ==> s[NulIndex(s)] == '\0'
    decreases |s|
  {
    if s != [] && s[0] != '\0' {
      NulIndexShape(s[1..]);
      forall k | 0 < k < NulIndex(s) ensures s[k] != '\0' {
        assert s[k] == s[1..][k - 1];
      }
    }
  }

  /** A C string holds no NUL, and is all of `s` when `s` holds none. */
  lemma CStringShape(s: string)
    ensures '\0' !in CString(s)
    ensures '\0' !in s ==> CString(s) == s
  {
    NulIndexShape(s);
    if NulIndex(s) < |s| {
      assert s[NulIndex(s)] in s;
    }
  }

  /** strcmp(line, "OK") == 0, character by character. */
  predicate IsOkText(l: string)
  {
    |l| == 2 && l[0] == 'O' && l[1] == 'K'
  }

  /** strcmp(line, "ERROR") == 0. */
  predicate IsErrorText(l: string)
  {
    |l| == 5 && l[0] == 'E' && l[1] == 'R' && l[2] == 'R' && l[3] == 'O' && l[4] == 'R'
  }

  /** strncmp(line, "+CME ERROR", 10) == 0 or strncmp(line, "+CMS ERROR", 10) == 0. */
  predicate HasCmErrorPrefix(l: string)
  {
    && |l| >= 10 && l[0] == '+' && l[1] == 'C' && l[2] == 'M' && (l[3] == 'E' || l[3] == 'S')
    && l[4] == ' ' && l[5] == 'E' && l[6] == 'R' && l[7] == 'R' && l[8] == 'O' && l[9] == 'R'
  }

  /** strcmp(line, ">") == 0. */
  predicate IsPromptText(l: string)
  {
    |l| == 1 && l[0] == '>'
  }

  /** classifyLine: the checks in the order the source makes them. */
  function Classify(line: string): LineType
  {
    if IsOkText(line) then OK
    else if IsErrorText(line) then ERROR
    else if HasCmErrorPrefix(line) then ERROR
    else if IsPromptText(line) then PROMPT
    else LINE
  }

  /** The classification in terms of whole strings: OK and PROMPT for exactly
      "OK" and ">", ERROR for exactly "ERROR" or a line starting with
      "+CME ERROR" or "+CMS ERROR" (whatever follows), LINE for all else. */
  lemma ClassifyMeans(line: string)
    ensures Classify(line) == OK <==> line == "OK"
    ensures Classify(line) == ERROR
        <==> line == "ERROR" || (|line| >= 10 && (line[..10] == "+CME ERROR" || line[..10] == "+CMS ERROR"))
    ensures Classify(line) == PROMPT <==> line == ">"
    ensures Classify(line) == LINE
        <==> line != "OK" && line != "ERROR" && line != ">"
             && !(|line| >= 10 && (line[..10] == "+CME ERROR" || line[..10] == "+CMS ERROR"))
  {
    assert IsOkText(line) <==> line == "OK" by {
      if IsOkText(line) { assert line == [line[0], line[1]]; }
    }
    assert IsErrorText(line) <==> line == "ERROR" by {
      if IsErrorText(line) { assert line == [line[0], line[1], line[2], line[3], line[4]]; }
    }
    assert IsPromptText(line) <==> line == ">" by {
      if IsPromptText(line) { assert line == [line[0]]; }
    }
    assert HasCmErrorPrefix(line)
        <==> |line| >= 10 && (line[..10] == "+CME ERROR" || line[..10] == "+CMS ERROR") by {
      if |line| >= 10 {
        var p := line[..10];
        assert p == [p[0], p[1], p[2], p[3], p[4], p[5], p[6], p[7], p[8], p[9]];
      }
    }
  }

  /** dispatchLine on a partial line: nothing for an all-blank line,
      otherwise the trimmed text (as a C string) and its type. */
  function Dispatch(pending: string): seq<Line>
  {
    var t := Trim(pending);
    if t == [] then [] else [Line(Classify(CString(t)), CString(t))]
  }

  /** Trimming takes blanks off both ends and nothing else: the result is
      the slice s[i..j] with only blanks before i and after j, and it
      neither starts nor ends with a blank. */
  lemma TrimShape(s: string)
    ensures var i := Leading(s); var j := |s| - Trailing(TrimStart(s));
      && 0 <= i <= j <= |s| && Trim(s) == s[i..j]
      && AllBlank(s[..i]) && AllBlank(s[j..])
    ensures Trim(s) == [] || (!IsBlank(Trim(s)[0]) && !IsBlank(Trim(s)[|Trim(s)| - 1]))
  {
    var i := Leading(s);
    var a := TrimStart(s);
    var j := |s| - Trailing(a);
    LeadingShape(s);
    TrailingShape(a);
    var t := Trim(s);
    assert t == s[i..j];
    assert AllBlank(s[..i]) by {
      forall k | 0 <= k < i ensures IsBlank(s[..i][k]) {
        assert s[..i][k] == s[k];
      }
    }
    assert AllBlank(s[j..]) by {
      forall k | 0 <= k < |s| - j ensures IsBlank(s[j..][k]) {
        assert s[j..][k] == a[j - i + k];
      }
    }
    if t != [] {
      assert t[0] == s[i];
      assert t[|t| - 1] == a[|a| - 1 - Trailing(a)];
    }
  }

  /** A line is discarded exactly when it is blank. */
  lemma TrimEmptyIffBlank(s: string)
    ensures Trim(s) == [] <==> AllBlank(s)
  {
    TrimShape(s);
    var i := Leading(s);
    if Trim(s) != [] {
      assert s[i] == Trim(s)[0];
    } else {
      assert forall k :: i <= k < |s| ==> s[k] == s[i..][k - i];
    }
  }

  /** A line is discarded exactly when it is blank; otherwise one line is
      dispatched, classified on exactly the text delivered, which holds no
      NUL, does not start with a blank and is no longer than the input. */
  lemma DispatchShape(pending: string)
    ensures |Dispatch(pending)| <= 1
    ensures Dispatch(pending) == [] <==> AllBlank(pending)
    ensures Dispatch(pending) != [] ==>
      var l := Dispatch(pending)[0];
      && l.kind == Classify(l.text) && '\0' !in l.text
      && (l.text == [] || !IsBlank(l.text[0]))
      && |l.text| <= |pending|
  {
    TrimEmptyIffBlank(pending);
    TrimShape(pending);
    var t := Trim(pending);
    if t != [] {
      CStringShape(t);
      var c := CString(t);
      if c != [] {
        assert c[0] == t[0];
      }
    }
  }

  /** A line without NUL bytes is delivered as its trimmed text, which has no
      blank at either end. */
  lemma DispatchNulFree(pending: string)
    requires '\0' !in pending && !AllBlank(pending)
    ensures Dispatch(pending) == [Line(Classify(Trim(pending)), Trim(pending))]
    ensures var t := Trim(pending); t != [] && !IsBlank(t[0]) && !IsBlank(t[|t| - 1])
  {
    TrimEmptyIffBlank(pending);
    TrimShape(pending);
    var t := Trim(pending);
    var i := |pending| - |TrimStart(pending)|;
    assert '\0' !in t by {
      forall k | 0 <= k < |t| ensures t[k] != '\0' {
        assert t[k] == pending[i + k];
      }
    }
    CStringShape(t);
  }

  // ---------------------------------------------------------------------------
  // The receiver as a function of its input
  // ---------------------------------------------------------------------------

  /** The effect of one byte on a partial line: the new partial line, the
      lines dispatched, and whether the line overflowed. */
  datatype Effect = Effect(line: string, emitted: seq<Line>, overflow: bool)

  /** processChar on a partial line. */
  function CharStep(line: string, c: byte): (e: Effect)
    requires |line| <= MAX_LINE
    ensures |e.line| <= MAX_LINE
  {
    if c == CR then Effect(line, [], false)
    else if c == LF then Effect([], if |line| > 0 then Dispatch(line) else [], false)
    else if c == GT && AllBlank(line) then Effect([], Dispatch(">"), false)
    else if |line| < MAX_LINE then Effect(line + [c as char], [], false)
    else Effect([], [], true)
  }

  /** onByte: a byte reaches processChar only while parsing is enabled. */
  function ByteStep(enabled: bool, line: string, c: byte): (e: Effect)
    requires |line| <= MAX_LINE
    ensures |e.line| <= MAX_LINE
  {
    if enabled then CharStep(line, c) else Effect(line, [], false)
  }

  /** The outcome of feeding a sequence of bytes to an enabled receiver. */
  datatype Fed = Fed(line: string, emitted: seq<Line>, overflows: nat)

  function Feed(line: string, input: seq<byte>): (f: Fed)
    requires |line| <= MAX_LINE
    ensures |f.line| <= MAX_LINE
    decreases |input|
  {
    if input == [] then Fed(line, [], 0)
    else
      var f := Feed(line, input[..|input| - 1]);
      var e := CharStep(f.line, input[|input| - 1]);
      Fed(e.line, f.emitted + e.emitted, f.overflows + (if e.overflow then 1 else 0))
  }

  /** What a receiver makes of `input`: nothing at all while parsing is
      off. */
  function Receive(enabled: bool, line: string, input: seq<byte>): (f: Fed)
    requires |line| <= MAX_LINE
    ensures |f.line| <= MAX_LINE
  {
    if enabled then Feed(line, input) else Fed(line, [], 0)
  }

  /** One more byte: Receive advances by one ByteStep. */
  lemma ReceiveStep(enabled: bool, line: string, input: seq<byte>, i: nat)
    requires |line| <= MAX_LINE && i < |input|
    ensures var f := Receive(enabled, line, input[..i]);
      var e := ByteStep(enabled, f.line, input[i]);
      Receive(enabled, line, input[..i + 1])
        == Fed(e.line, f.emitted + e.emitted, f.overflows + (if e.overflow then 1 else 0))
  {
    var next := input[..i + 1];
    assert next[..|next| - 1] == input[..i] && next[|next| - 1] == input[i];
  }

  /** What the receiver's owner can observe: the partial line, the lines
      handed to the line callback, and the two line counters. */
  datatype Listener = Listener(line: string, delivered: seq<Line>, linesReceived: u32, overflows: u32)

  /** The observable effect of one byte with effect `e`; the callback, when
      registered, receives the dispatched lines. */
  function Apply(v: Listener, callback: bool, e: Effect): Listener
  {
    Listener(e.line,
             v.delivered + (if callback then e.emitted else []),
             Add32(v.linesReceived, |e.emitted|),
             Add32(v.overflows, if e.overflow then 1 else 0))
  }

  /** The byte callback run on each byte of `input`, one after the other. */
  function ApplyAll(v: Listener, enabled: bool, callback: bool, input: seq<byte>): (w: Listener)
    requires |v.line| <= MAX_LINE
    ensures |w.line| <= MAX_LINE
    decreases |input|
  {
    if input == [] then v
    else
      var u := ApplyAll(v, enabled, callback, input[..|input| - 1]);
      Apply(u, callback, ByteStep(enabled, u.line, input[|input| - 1]))
  }

  /** The observable outcome of parsing with outcome `f`, starting from `v`. */
  function Settle(v: Listener, callback: bool, f: Fed): Listener
  {
    Listener(f.line,
             v.delivered + (if callback then f.emitted else []),
             Add32(v.linesReceived, |f.emitted|),
             Add32(v.overflows, f.overflows))
  }

  /** The byte callback run on `input`, in closed form through Receive. */
  function Received(v: Listener, enabled: bool, callback: bool, input: seq<byte>): Listener
    requires |v.line| <= MAX_LINE
  {
    Settle(v, callback, Receive(enabled, v.line, input))
  }

  /** One more byte effect on top of a settled outcome settles the extended outcome. */
  lemma SettleStep(v: Listener, callback: bool, f: Fed, e: Effect)
    ensures Apply(Settle(v, callback, f), callback, e)
         == Settle(v, callback, Fed(e.line, f.emitted + e.emitted, f.overflows + (if e.overflow then 1 else 0)))
  {
    Add32Assoc(v.linesReceived, |f.emitted|, |e.emitted|);
    Add32Assoc(v.overflows, f.overflows, if e.overflow then 1 else 0);
    assert (if callback then f.emitted + e.emitted else [])
        == (if callback then f.emitted else []) + (if callback then e.emitted else []);
  }

  /** Running the byte callback byte by byte is parsing the whole input:
      the callback sees exactly the lines Receive dispatches, and the
      counters advance by their number and by the number of overflows. */
  lemma {:induction false} ApplyAllIsReceived(v: Listener, enabled: bool, callback: bool, input: seq<byte>)
    requires |v.line| <= MAX_LINE
    ensures ApplyAll(v, enabled, callback, input) == Received(v, enabled, callback, input)
    decreases |input|
  {
    if input == [] {
      assert v.delivered + [] == v.delivered;
    } else {
      var n := |input| - 1;
      ApplyAllIsReceived(v, enabled, callback, input[..n]);
      var f := Receive(enabled, v.line, input[..n]);
      var e := ByteStep(enabled, f.line, input[n]);
      ReceiveStep(enabled, v.line, input, n);
      assert input[..n + 1] == input;
      SettleStep(v, callback, f, e);
    }
  }

  /** Feeding two chunks one after the other is feeding their concatenation. */
  lemma {:induction false} FeedConcat(line: string, a: seq<byte>, b: seq<byte>)
    requires |line| <= MAX_LINE
    ensures var fa := Feed(line, a); var fb := Feed(fa.line, b);
      Feed(line, a + b) == Fed(fb.line, fa.emitted + fb.emitted, fa.overflows + fb.overflows)
    decreases |b|
  {
    if b != [] {
      var b' := b[..|b| - 1];
      assert (a + b)[..|a + b| - 1] == a + b';
      assert (a + b)[|a + b| - 1] == b[|b| - 1];
      FeedConcat(line, a, b');
    } else {
      assert a + b == a;
    }
  }

  /** The characters a byte sequence stands for. */
  function Chars(input: seq<byte>): (s: string)
    ensures |s| == |input| && forall i :: 0 <= i < |input| ==> s[i] == input[i] as char
  {
    seq(|input|, i requires 0 <= i < |input| => input[i] as char)
  }

  /** Ordinary characters accumulate in the partial line while it has room. */
  lemma {:induction false} FeedPlain(line: string, input: seq<byte>)
    requires |line| + |input| <= MAX_LINE
    requires forall i :: 0 <= i < |input| ==> input[i] != CR && input[i] != LF && input[i] != GT
    ensures Feed(line, input) == Fed(line + Chars(input), [], 0)
    decreases |input|
  {
    if input != [] {
      var init := input[..|input| - 1];
      FeedPlain(line, init);
      assert Chars(input) == Chars(init) + [input[|input| - 1] as char];
    } else {
      assert line + Chars(input) == line;
    }
  }

  /** A line longer than the buffer is dropped: after MAX_LINE ordinary
      characters the next one discards the partial line and nothing is
      dispatched. */
  lemma LongLineOverflows(input: seq<byte>)
    requires |input| == MAX_LINE + 1
    requires forall i :: 0 <= i < |input| ==> input[i] != CR && input[i] != LF && input[i] != GT
    ensures Feed([], input) == Fed([], [], 1)
  {
    var init := input[..MAX_LINE];
    FeedPlain([], init);
    assert [] + Chars(init) == Chars(init);
  }

  /** The bytes of an ASCII string. */
  function Ascii(s: string): (b: seq<byte>)
    requires forall i :: 0 <= i < |s| ==> s[i] < 256 as char
    ensures |b| == |s| && Chars(b) == s
  {
    seq(|s|, i requires 0 <= i < |s| => s[i] as int)
  }

  /** A text with no blank at either end is left alone by trimming. */
  lemma TrimOfTrimmed(s: string)
    requires s != [] && !IsBlank(s[0]) && !IsBlank(s[|s| - 1])
    ensures Trim(s) == s
  {
  }

  /** Carriage return then newline: the partial line is dispatched (when
      not empty) and the buffer emptied. */
  lemma FeedCrLf(line: string)
    requires |line| <= MAX_LINE
    ensures Feed(line, [CR, LF]) == Fed([], if |line| > 0 then Dispatch(line) else [], 0)
  {
    var input: seq<byte> := [CR, LF];
    assert input[..1] == [CR] && [CR][..0] == [];
    assert CharStep(line, CR) == Effect(line, [], false);
    assert Feed(line, [CR]) == Fed(line, [], 0);
    var e := CharStep(line, LF);
    assert e == Effect([], if |line| > 0 then Dispatch(line) else [], false);
    assert Feed(line, input) == Fed(e.line, [] + e.emitted, 0);
  }

  /** A line of text without blanks at its ends and without NUL is
      dispatched as itself. */
  lemma DispatchPlain(text: string)
    requires text != [] && !IsBlank(text[0]) && !IsBlank(text[|text| - 1]) && '\0' !in text
    ensures Dispatch(text) == [Line(Classify(text), text)]
  {
    assert !IsBlank(text[0]);
    TrimOfTrimmed(text);
    DispatchNulFree(text);
  }

  /** A line of text as the modem sends it: not empty, fits the buffer,
      holds no line terminator, prompt character or NUL, and has no blank
      at either end. */
  predicate PlainLine(a: seq<byte>)
  {
    && 0 < |a| <= MAX_LINE
    && (forall i :: 0 <= i < |a| ==> a[i] != CR && a[i] != LF && a[i] != GT && a[i] != 0)
    && !IsBlank(a[0] as char) && !IsBlank(a[|a| - 1] as char)
  }

  /** The text of a plain line: not empty, no NUL, no blank at its ends. */
  lemma PlainText(a: seq<byte>)
    requires PlainLine(a)
    ensures var text := Chars(a);
      text != [] && '\0' !in text && !IsBlank(text[0]) && !IsBlank(text[|text| - 1])
  {
    var text := Chars(a);
    forall k | 0 <= k < |text| ensures text[k] != '\0' {
      assert text[k] == a[k] as char;
    }
  }

  /** Ordinary bytes followed by CR LF: their text is dispatched. */
  lemma PlainThenCrLf(a: seq<byte>)
    requires 0 < |a| <= MAX_LINE
    requires forall i :: 0 <= i < |a| ==> a[i] != CR && a[i] != LF && a[i] != GT
    ensures Feed([], a + [CR, LF]) == Fed([], Dispatch(Chars(a)), 0)
  {
    var text := Chars(a);
    FeedPlain([], a);
    assert [] + text == text;
    FeedCrLf(text);
    FeedConcat([], a, [CR, LF]);
  }

  /** A plain line followed by CR LF is dispatched as itself. */
  lemma PlainLineDispatched(a: seq<byte>)
    requires PlainLine(a)
    ensures Feed([], a + [CR, LF]) == Fed([], [LineOf(a)], 0)
  {
    PlainThenCrLf(a);
    PlainText(a);
    DispatchPlain(Chars(a));
  }

  /** The bytes of several lines, each terminated by CR LF. */
  function Framed(lines: seq<seq<byte>>): seq<byte>
    decreases |lines|
  {
    if lines == [] then []
    else Framed(lines[..|lines| - 1]) + lines[|lines| - 1] + [CR, LF]
  }

  /** What the line callback receives for a plain line. */
  function LineOf(a: seq<byte>): Line
  {
    Line(Classify(Chars(a)), Chars(a))
  }

  /** What the line callback receives for those lines, one for one. */
  function Delivered(lines: seq<seq<byte>>): (ls: seq<Line>)
    ensures |ls| == |lines|
    decreases |lines|
  {
    if lines == [] then [] else Delivered(lines[..|lines| - 1]) + [LineOf(lines[|lines| - 1])]
  }

  /** CR LF framed plain lines are dispatched one for one, in the order the
      modem sent them, with nothing left over. */
  lemma {:induction false} FramedLinesInOrder(lines: seq<seq<byte>>)
    requires forall i :: 0 <= i < |lines| ==> PlainLine(lines[i])
    ensures Feed([], Framed(lines)) == Fed([], Delivered(lines), 0)
    decreases |lines|
  {
    if lines != [] {
      var init := lines[..|lines| - 1];
      var last := lines[|lines| - 1];
      FramedLinesInOrder(init);
      PlainLineDispatched(last);
      assert Framed(lines) == Framed(init) + (last + [CR, LF]);
      FeedConcat([], Framed(init), last + [CR, LF]);
    }
  }

  /** The classification of a registration report and of the final
      result code. */
  lemma ClassifyExamples()
    ensures Classify("+CEREG: 0,1") == LINE && Classify("OK") == OK
    ensures Classify("+CME ERROR: 10") == ERROR && Classify("ERROR") == ERROR
    ensures Classify("ERROR: x") == LINE && Classify(" OK") == LINE
  {
  }

  /** A prompt after nothing but blanks is dispatched at once as PROMPT. */
  lemma PromptDispatchedAtOnce(line: string)
    requires |line| <= MAX_LINE && AllBlank(line)
    ensures CharStep(line, GT) == Effect([], [Line(PROMPT, ">")], false)
  {
    CStringShape(">");
  }

  /** After text that is not all blanks, `>` is an ordinary character. */
  lemma GtAfterTextAppended(line: string)
    requires |line| < MAX_LINE && !AllBlank(line)
    ensures CharStep(line, GT) == Effect(line + ">", [], false)
  {
  }

  /** The bytes of a registration report and the final result code, each
      terminated by CR LF, frame two plain lines. */
  lemma CeregFraming()
    ensures PlainLine(Ascii("+CEREG: 0,1")) && PlainLine(Ascii("OK"))
    ensures Framed([Ascii("+CEREG: 0,1"), Ascii("OK")]) == Ascii("+CEREG: 0,1\r\nOK\r\n")
  {
    var a := Ascii("+CEREG: 0,1");
    var b := Ascii("OK");
    assert [a, b][..1] == [a];
    assert Framed([a]) == a + [CR, LF];
  }

  /** A registration report followed by the final result code: exactly two
      lines are delivered, the report as LINE and then OK. */
  lemma CeregThenOk()
    ensures Feed([], Ascii("+CEREG: 0,1\r\nOK\r\n"))
         == Fed([], [Line(LINE, "+CEREG: 0,1"), Line(OK, "OK")], 0)
  {
    var a := Ascii("+CEREG: 0,1");
    var b := Ascii("OK");
    CeregFraming();
    FramedLinesInOrder([a, b]);
    ClassifyExamples();
    assert Delivered([a, b]) == [LineOf(a), LineOf(b)];
  }

  // ---------------------------------------------------------------------------
  // The receiver object
  // ---------------------------------------------------------------------------

  class Receiver {
    const lineBuffer: array<char>
    var lineLen: nat
    var lineParsingEnabled: bool
    /** Whether a line callback is registered (setLineCallback). */
    var lineCallbackSet: bool
    /** Every line handed to the line callback so far, in order. */
    var delivered: seq<Line>
    var statsPollCount: u32
    var statsLinesReceived: u32
    var statsBufferOverflows: u32

    ghost predicate Valid()
      reads this
    {
      lineBuffer.Length == LINE_BUFFER_SIZE && lineLen <= MAX_LINE
    }

    /** The partial line accumulated so far. */
    ghost function Pending(): string
      reads this`lineLen, lineBuffer
      requires lineLen <= lineBuffer.Length
    {
      lineBuffer[..lineLen]
    }

    /** The static initial values: empty line, parsing off, no callback. */
    constructor ()
      ensures Valid() && fresh(lineBuffer) && Pending() == []
      ensures !lineParsingEnabled && !lineCallbackSet && delivered == []
      ensures statsPollCount == 0 && statsLinesReceived == 0 && statsBufferOverflows == 0
    {
      lineBuffer := new char[LINE_BUFFER_SIZE](_ => '\0');
      lineLen := 0;
      lineParsingEnabled, lineCallbackSet := false, false;
      delivered := [];
      statsPollCount, statsLinesReceived, statsBufferOverflows := 0, 0, 0;
    }

    /** init: empty the line, disable parsing, drop the callback, zero the
        statistics. */
    method Init()
      requires Valid()
      modifies this, lineBuffer
      ensures Valid() && Pending() == [] && delivered == old(delivered)
      ensures !lineParsingEnabled && !lineCallbackSet
      ensures statsPollCount == 0 && statsLinesReceived == 0 && statsBufferOverflows == 0
    {
      lineLen := 0;
      lineBuffer[0] := '\0';
      lineParsingEnabled := false;
      lineCallbackSet := false;
      statsPollCount, statsLinesReceived, statsBufferOverflows := 0, 0, 0;
    }

    /** Empty the partial line: length 0, NUL in the first slot. */
    method ClearLine()
      requires Valid()
      modifies this`lineLen, lineBuffer
      ensures Valid() && Pending() == [] && lineBuffer[0] == '\0'
    {
      lineLen := 0;
      lineBuffer[0] := '\0';
    }

    method SetLineCallback(registered: bool)
      modifies this`lineCallbackSet
      ensures lineCallbackSet == registered
    {
      lineCallbackSet := registered;
    }

    /** enableLineParsing: turning parsing on from off first empties the line. */
    method EnableLineParsing(enable: bool)
      requires Valid()
      modifies this`lineLen, this`lineParsingEnabled, lineBuffer
      ensures Valid() && lineParsingEnabled == enable
      ensures enable && !old(lineParsingEnabled) ==> Pending() == []
      ensures !(enable && !old(lineParsingEnabled)) ==> Pending() == old(Pending())
    {
      if enable && !lineParsingEnabled {
        ClearLine();
      }
      lineParsingEnabled := enable;
    }

    /** What the owner can observe of the receiver. */
    ghost function View(): Listener
      reads this, lineBuffer
      requires lineLen <= lineBuffer.Length
    {
      Listener(Pending(), delivered, statsLinesReceived, statsBufferOverflows)
    }

    /** The two trimming loops of dispatchLine: the bounds of the partial
        line without its leading and trailing blanks. */
    method TrimBounds() returns (start: nat, end: nat)
      requires Valid()
      ensures start <= end <= lineLen
      ensures lineBuffer[start..end] == Trim(Pending())
    {
      start := SkipLeading();
      end := SkipTrailing(start);
    }

    /** The first trimming loop: the index of the first non-blank character. */
    method SkipLeading() returns (start: nat)
      requires Valid()
      ensures start <= lineLen && lineBuffer[start..lineLen] == TrimStart(Pending())
    {
      ghost var s := Pending();
      start := 0;
      while start < lineLen && IsBlank(lineBuffer[start])
        invariant start <= lineLen
        invariant TrimStart(s) == TrimStart(s[start..])
      {
        assert s[start..][1..] == s[start + 1..];
        start := start + 1;
      }
      assert s[start..] == lineBuffer[start..lineLen];
    }

    /** The second trimming loop: one past the last non-blank character. */
    method SkipTrailing(start: nat) returns (end: nat)
      requires Valid() && start <= lineLen
      ensures start <= end <= lineLen
      ensures lineBuffer[start..end] == TrimEnd(lineBuffer[start..lineLen])
    {
      ghost var s := lineBuffer[start..lineLen];
      end := lineLen;
      assert s[..end - start] == s;
      while end > start && IsBlank(lineBuffer[end - 1])
        invariant start <= end <= lineLen
        invariant TrimEnd(s) == TrimEnd(s[..end - start])
      {
        assert s[..end - start][..end - 1 - start] == s[..end - 1 - start];
        end := end - 1;
      }
      assert s[..end - start] == lineBuffer[start..end];
    }

    /** memmove(lineBuffer, lineBuffer + start, end - start): the slice
        [start, end) moves to the front; the rest of the buffer is kept. */
    method ShiftLeft(start: nat, end: nat)
      requires Valid() && start <= end <= lineBuffer.Length
      modifies lineBuffer
      ensures lineBuffer[..end - start] == old(lineBuffer[start..end])
      ensures lineBuffer[end - start..] == old(lineBuffer[end - start..])
    {
      var k := 0;
      while k < end - start
        invariant 0 <= k <= end - start
        invariant forall m :: 0 <= m < k ==> lineBuffer[m] == old(lineBuffer[start + m])
        invariant forall m :: k <= m < lineBuffer.Length ==> lineBuffer[m] == old(lineBuffer[m])
      {
        lineBuffer[k] := lineBuffer[start + k];
        k := k + 1;
      }
    }

    /** dispatchLine: trim the partial line in place, classify it and hand
        it to the callback, unless it is blank. */
    method DispatchLine()
      requires Valid()
      modifies this`statsLinesReceived, this`delivered, lineBuffer
      ensures Valid()
      ensures var d := Dispatch(old(Pending()));
        && statsLinesReceived == Add32(old(statsLinesReceived), |d|)
        && delivered == old(delivered) + (if lineCallbackSet then d else [])
        && (d == [] ==> lineBuffer[..] == old(lineBuffer[..]))
        && (d != [] ==> lineBuffer[..|Trim(old(Pending()))|] == Trim(old(Pending())))
        && (d != [] ==> |Trim(old(Pending()))| < lineBuffer.Length && lineBuffer[|Trim(old(Pending()))|] == '\0')
    {
      ghost var s := Pending();
      var start, end := TrimBounds();
      if start >= end {
        return;
      }
      if start > 0 {
        ShiftLeft(start, end);
      }
      var n := end - start;
      assert lineBuffer[..n] == Trim(s);
      lineBuffer[n] := '\0';
      assert lineBuffer[..n] == Trim(s);
      var text := CString(lineBuffer[..n]);
      var kind := Classify(text);
      statsLinesReceived := Add32(statsLinesReceived, 1);
      if lineCallbackSet {
        delivered := delivered + [Line(kind, text)];
      }
    }

    /** The prompt check of processChar: whether the partial line holds
        nothing but blanks. */
    method PendingIsBlank() returns (isPrompt: bool)
      requires Valid()
      ensures isPrompt == AllBlank(Pending())
    {
      isPrompt := true;
      var i := 0;
      while i < lineLen
        invariant 0 <= i <= lineLen
        invariant AllBlank(lineBuffer[..i])
      {
        if !IsBlank(lineBuffer[i]) {
          assert !IsBlank(Pending()[i]);
          return false;
        }
        i := i + 1;
      }
      assert lineBuffer[..i] == Pending();
    }

    /** processChar: the effect of one byte on the partial line. */
    method ProcessChar(c: byte)
      requires Valid()
      modifies this`lineLen, this`statsLinesReceived, this`statsBufferOverflows, this`delivered, lineBuffer
      ensures Valid() && View() == Apply(old(View()), lineCallbackSet, CharStep(old(Pending()), c))
    {
      if c == CR {
        return;
      }
      if c == LF {
        EndOfLine();
        assert Pending() == CharStep(old(Pending()), c).line;
        return;
      }
      if c == GT {
        var isPrompt := PendingIsBlank();
        if isPrompt {
          Prompt();
          return;
        }
      }
      Append(c);
    }

    /** The newline branch of processChar: dispatch a non-empty line, then
        empty the buffer. */
    method EndOfLine()
      requires Valid()
      modifies this`lineLen, this`statsLinesReceived, this`delivered, lineBuffer
      ensures Valid() && Pending() == []
      ensures var d := if old(lineLen) > 0 then Dispatch(old(Pending())) else [];
        && statsLinesReceived == Add32(old(statsLinesReceived), |d|)
        && delivered == old(delivered) + (if lineCallbackSet then d else [])
    {
      if lineLen > 0 {
        DispatchLine();
      } else {
        assert delivered == old(delivered) + [];
      }
      ClearLine();
    }

    /** The prompt branch of processChar: the partial line is replaced by
        ">", dispatched at once, and the buffer emptied. */
    method Prompt()
      requires Valid() && AllBlank(Pending())
      modifies this`lineLen, this`statsLinesReceived, this`delivered, lineBuffer
      ensures Valid() && View() == Apply(old(View()), lineCallbackSet, CharStep(old(Pending()), GT))
    {
      lineBuffer[0] := '>';
      lineBuffer[1] := '\0';
      lineLen := 1;
      assert Pending() == ">";
      DispatchLine();
      ClearLine();
    }

    /** The ordinary-character branch of processChar: append while there is
        room, otherwise count an overflow and drop the line. */
    method Append(c: byte)
      requires Valid() && c != CR && c != LF && !(c == GT && AllBlank(Pending()))
      modifies this`lineLen, this`statsBufferOverflows, lineBuffer
      ensures Valid() && View() == Apply(old(View()), lineCallbackSet, CharStep(old(Pending()), c))
    {
      if lineLen < MAX_LINE {
        lineBuffer[lineLen] := c as char;
        lineLen := lineLen + 1;
        lineBuffer[lineLen] := '\0';
        assert Pending() == old(Pending()) + [c as char];
      } else {
        statsBufferOverflows := Add32(statsBufferOverflows, 1);
        ClearLine();
      }
    }

    /** onByte: the byte callback registered with the transport. */
    method OnByte(c: byte)
      requires Valid()
      modifies this`lineLen, this`statsLinesReceived, this`statsBufferOverflows, this`delivered, lineBuffer
      ensures Valid() && View() == Apply(old(View()), lineCallbackSet, ByteStep(lineParsingEnabled, old(Pending()), c))
    {
      if !lineParsingEnabled {
        return;
      }
      ProcessChar(c);
    }

    /** The byte callback invoked on every byte of `input`, in order. */
    method OnBytes(input: seq<byte>)
      requires Valid()
      modifies this`lineLen, this`statsLinesReceived, this`statsBufferOverflows, this`delivered, lineBuffer
      ensures Valid() && View() == Received(old(View()), lineParsingEnabled, lineCallbackSet, input)
    {
      var i := 0;
      while i < |input|
        invariant 0 <= i <= |input| && Valid()
        invariant View() == ApplyAll(old(View()), lineParsingEnabled, lineCallbackSet, input[..i])
      {
        assert input[..i + 1][..i] == input[..i];
        OnByte(input[i]);
        i := i + 1;
      }
      assert input[..i] == input;
      ApplyAllIsReceived(old(View()), lineParsingEnabled, lineCallbackSet, input);
    }

    /** poll: count the poll and pump the transport; every byte pumped goes
        to the byte callback, which is this receiver's OnByte when it is
        registered. */
    method Poll(stream: CellularStream.Stream, input: seq<byte>)
      requires Valid() && stream.Valid()
      modifies this, lineBuffer, stream, stream.rxBuffer
      ensures Valid() && stream.Valid()
      ensures lineParsingEnabled == old(lineParsingEnabled) && lineCallbackSet == old(lineCallbackSet)
      ensures statsPollCount == Add32(old(statsPollCount), 1)
      ensures stream.rxTail == old(stream.rxTail) && stream.tapRegistered == old(stream.tapRegistered)
      ensures stream.rxBufferingEnabled == old(stream.rxBufferingEnabled)
      ensures stream.Snap()
           == CellularStream.Pumped(old(stream.Snap()), stream.rxBufferingEnabled, stream.tapRegistered, input)
      ensures View() == Received(old(View()), lineParsingEnabled, lineCallbackSet,
                                 if stream.tapRegistered then input else [])
    {
      statsPollCount := Add32(statsPollCount, 1);
      stream.Pump(input);
      if stream.tapRegistered {
        OnBytes(input);
      } else {
        OnBytes([]);
      }
    }
  }
}
