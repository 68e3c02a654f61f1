/**
 * The browser client's side of the protocol: how a server message is
 * classified and shown, when the editor's code and the input box are sent,
 * and how the elapsed run time is displayed. The component's state is a
 * class whose handlers update its fields; the decisions they take are pure
 * functions beside it.
 */
module Client {
  import opened Wrappers
  import opened Strings
  import opened Session

  // ---------------------------------------------------------------------------
  // Server messages
  // ---------------------------------------------------------------------------

  const ContainerIdPrefix: string := "container_id:"
  const ErrorTag: string := "error:"
  const ExecTerminated: string := "EXEC_TERMINATED"
  const ExecTimeout: string := "EXEC_TIMEOUT"

  /** What a message from the server is to the client. An error keeps the
      whole message, which is what the terminal shows. */
  datatype ServerMessage =
    | ContainerId(id: string)
    | ServerError(text: string)
    | Terminated
    | TimedOut
    | Output(text: string)

  /** The classifier of `onmessage`: the container-id prefix first, then the
      error prefix, then the two exact notices, else program output. The id is
      the message with its first `container_id:` removed, which under the
      prefix test is the leading one. */
  function Classify(data: string): (m: ServerMessage)
    ensures m.ContainerId? <==> HasPrefix(data, ContainerIdPrefix)
    ensures m.ContainerId? ==> ContainerIdPrefix + m.id == data
    ensures m.ServerError? <==> !HasPrefix(data, ContainerIdPrefix) && HasPrefix(data, ErrorTag)
    ensures m.ServerError? ==> m.text == data
    ensures m.Terminated? <==> data == ExecTerminated
    ensures m.TimedOut? <==> data == ExecTimeout
    ensures m.Output? ==> m.text == data
  {
    assert ExecTerminated[0] == 'E' && ExecTimeout[0] == 'E';
    assert ContainerIdPrefix[0] == 'c' && ErrorTag[0] == 'e';
    if HasPrefix(data, ContainerIdPrefix) then ContainerId(TrimPrefix(data, ContainerIdPrefix))
    else if HasPrefix(data, ErrorTag) then ServerError(data)
    else if data == ExecTerminated then Terminated
    else if data == ExecTimeout then TimedOut
    else Output(data)
  }

  /** The text the server sends for each kind of message. */
  function Render(m: ServerMessage): string {
    match m
    case ContainerId(id) => ContainerIdPrefix + id
    case ServerError(text) => text
    case Terminated => ExecTerminated
    case TimedOut => ExecTimeout
    case Output(text) => text
  }

  /** A message value the server can send: an error carries its tag, and
      output is not mistaken for any other kind. */
  predicate Sendable(m: ServerMessage) {
    match m
    case ServerError(text) => HasPrefix(text, ErrorTag)
    case Output(text) =>
      !HasPrefix(text, ContainerIdPrefix) && !HasPrefix(text, ErrorTag)
      && text != ExecTerminated && text != ExecTimeout
    case _ => true
  }

  /** Classification loses nothing: every message is the rendering of its class. */
  lemma RenderClassify(data: string)
    ensures Sendable(Classify(data)) && Render(Classify(data)) == data
  {
  }

  /** Every sendable message is classified as what it is. */
  lemma ClassifyRender(m: ServerMessage)
    requires Sendable(m)
    ensures Classify(Render(m)) == m
  {
    match m
    case ContainerId(id) => PrefixOfConcat(ContainerIdPrefix, id);
    case ServerError(text) =>
      assert text[0] == 'e';
    case Terminated =>
    case TimedOut =>
    case Output(text) =>
  }

  /** Every error the session sends (`error: ` and a reason) is shown as an
      error and ends the client's run. */
  lemma SessionErrorsEndRun(reason: string)
    ensures Classify(ErrorPrefix + reason) == ServerError(ErrorPrefix + reason)
    ensures EndsRun(Classify(ErrorPrefix + reason))
  {
    assert (ErrorPrefix + reason)[..|ErrorTag|] == ErrorTag;
    assert (ErrorPrefix + reason)[0] != ContainerIdPrefix[0];
  }

  /** A line of the terminal: its text and whether it is shown as output (or as an error). */
  datatype Line = Line(text: string, isOutput: bool)

  /** The line `onmessage` adds for a message. */
  function Notice(m: ServerMessage): (l: Line)
    ensures l.isOutput <==> !(m.ServerError? || m.TimedOut?)
  {
    match m
    case ContainerId(id) => Line("Container started: " + id, true)
    case ServerError(text) => Line(text, false)
    case Terminated => Line("Program execution completed", true)
    case TimedOut => Line("Program execution timed out", false)
    case Output(text) => Line(text, true)
  }

  /** The messages after which `onmessage` stops the run. */
  predicate EndsRun(m: ServerMessage) {
    m.ServerError? || m.Terminated? || m.TimedOut?
  }

  // ---------------------------------------------------------------------------
  // The send guards
  // ---------------------------------------------------------------------------

  /** What a send button does: send a message, show a refusal, or nothing. */
  datatype Request = Send(message: string) | Refuse(notice: Line) | Ignore

  const NotConnected: Line := Line("Not connected to server", false)
  const NoCode: Line := Line("Please enter some JavaScript code", false)

  /** `executeCode`: an open socket and code that is not blank after `trim`. */
  function CodeRequest(open: bool, code: string): (r: Request)
    ensures r.Send? <==> open && !IsBlank(code)
    ensures !r.Ignore?
  {
    TrimEmptyIffBlank(code);
    if !open then Refuse(NotConnected)
    else if Trim(code) == [] then Refuse(NoCode)
    else Send(CodePrefix + code)
  }

  /** The code the client sends is the code the session runs: the message
      passes the session's `CODE:` test and stripping the prefix restores it. */
  lemma CodeRequestRoundTrip(open: bool, code: string)
    requires CodeRequest(open, code).Send?
    ensures HasPrefix(CodeRequest(open, code).message, CodePrefix)
    ensures TrimPrefix(CodeRequest(open, code).message, CodePrefix) == code
  {
    PrefixOfConcat(CodePrefix, code);
  }

  /** `sendInput`: an open socket; blank input is dropped without a notice. */
  function InputRequest(open: bool, input: string): (r: Request)
    ensures r.Send? <==> open && !IsBlank(input)
    ensures r.Ignore? <==> open && IsBlank(input)
    ensures r.Send? ==> r.message == input + "\n"
  {
    TrimEmptyIffBlank(input);
    if !open then Refuse(NotConnected)
    else if Trim(input) == [] then Ignore
    else Send(input + "\n")
  }

  /** Sent input never reads as `STOP` to the session. Unless it starts like
      code, a running program receives it with a second newline appended;
      input that starts with `CODE:` replaces the running program instead. */
  lemma InputAtSession(input: string, alive: nat)
    requires InputRequest(true, input).Send? && alive > 0
    ensures var m := InputRequest(true, input).message;
      var e := Relay([m], 0, alive);
      && m != "STOP"
      && (!HasPrefix(input, CodePrefix) ==> e.stdin == [input + "\n\n"] && e.newCode.None?)
      && (HasPrefix(input, CodePrefix) ==> e.newCode == Some(m) && e.stdin == [])
  {
    var m := input + "\n";
    assert m[|m| - 1] == '\n';
    assert HasPrefix(input, CodePrefix) ==> m[..|CodePrefix|] == input[..|CodePrefix|];
    if |input| >= |CodePrefix| {
      assert m[..|CodePrefix|] == input[..|CodePrefix|];
    } else if |m| == |CodePrefix| {
      assert m[|CodePrefix| - 1] != CodePrefix[|CodePrefix| - 1];
    }
    assert m + "\n" == input + "\n\n";
  }

  // ---------------------------------------------------------------------------
  // The run timer's display
  // ---------------------------------------------------------------------------

  /** `formatTime`: minutes and seconds, each padded to two digits with zeros. */
  function FormatTime(seconds: nat): string {
    PadStart(NatToString(seconds / 60), 2, '0') + ":" + PadStart(NatToString(seconds % 60), 2, '0')
  }

  /** A display `mm:ss`: digits, then a colon three characters from the end,
      and a seconds field from 00 to 59. */
  predicate TimeShape(r: string) {
    |r| >= 5 && r[|r| - 3] == ':'
    && (forall i :: 0 <= i < |r| - 3 ==> IsDigit(r[i]))
    && IsDigit(r[|r| - 2]) && IsDigit(r[|r| - 1])
    && DecimalValue(r[|r| - 2..]) < 60
  }

  /** The seconds a display stands for. */
  function ParseTime(r: string): nat
    requires TimeShape(r)
  {
    60 * DecimalValue(r[..|r| - 3]) + DecimalValue(r[|r| - 2..])
  }

  lemma {:induction false} LeadingZero(s: string)
    requires forall i :: 0 <= i < |s| ==> IsDigit(s[i])
    ensures DecimalValue(['0'] + s) == DecimalValue(s)
    decreases |s|
  {
    var t := ['0'] + s;
    if s != [] {
      assert t[..|t| - 1] == ['0'] + s[..|s| - 1];
      LeadingZero(s[..|s| - 1]);
    } else {
      assert t[..|t| - 1] == [];
    }
  }

  lemma {:induction false} ZeroPadding(s: string, width: nat)
    requires forall i :: 0 <= i < |s| ==> IsDigit(s[i])
    ensures var r := PadStart(s, width, '0');
      (forall i :: 0 <= i < |r| ==> IsDigit(r[i])) && DecimalValue(r) == DecimalValue(s)
    decreases width - |s|
  {
    if |s| < width {
      LeadingZero(s);
      ZeroPadding(['0'] + s, width);
    }
  }

  /** A number padded to two places with zeros keeps its digits and value. */
  lemma PaddedValue(n: nat)
    ensures var f := PadStart(NatToString(n), 2, '0');
      (forall i :: 0 <= i < |f| ==> IsDigit(f[i])) && DecimalValue(f) == n
  {
    ZeroPadding(NatToString(n), 2);
    DecimalRoundTrip(n);
  }

  /** ... and has at least two places, exactly two below 100. */
  lemma PaddedWidth(n: nat)
    ensures var f := PadStart(NatToString(n), 2, '0');
      |f| >= 2 && (n < 100 ==> |f| == 2)
  {
    if n < 100 {
      TwoDigits(n);
    }
  }

  lemma TwoDigits(n: nat)
    requires n < 100
    ensures |NatToString(n)| <= 2
  {
    if n >= 10 {
      assert n / 10 < 10;
    }
  }

  /** Two digit fields joined by a colon have the display's shape and read
      back as minutes and seconds. */
  lemma JoinFields(mins: string, secs: string)
    requires |mins| >= 2 && |secs| == 2
    requires forall i :: 0 <= i < |mins| ==> IsDigit(mins[i])
    requires forall i :: 0 <= i < |secs| ==> IsDigit(secs[i])
    requires DecimalValue(secs) < 60
    ensures var r := mins + ":" + secs;
      TimeShape(r) && r[|r| - 2..] == secs && ParseTime(r) == 60 * DecimalValue(mins) + DecimalValue(secs)
  {
    var r := mins + ":" + secs;
    assert r[..|r| - 3] == mins;
    assert r[|r| - 2..] == secs;
    assert forall i :: 0 <= i < |r| - 3 ==> r[i] == mins[i];
    assert r[|r| - 2] == secs[0] && r[|r| - 1] == secs[1];
  }

  /** The display has the `mm:ss` shape, its seconds field is exactly two
      digits (00 to 59), and it reads back as the elapsed seconds. */
  lemma FormatTimeRoundTrip(seconds: nat)
    ensures var f := FormatTime(seconds);
      TimeShape(f) && ParseTime(f) == seconds
  {
    var q, r := seconds / 60, seconds % 60;
    assert seconds == 60 * q + r && r < 60;
    PaddedValue(q);
    PaddedValue(r);
    PaddedWidth(q);
    PaddedWidth(r);
    JoinFields(PadStart(NatToString(q), 2, '0'), PadStart(NatToString(r), 2, '0'));
  }

  // ---------------------------------------------------------------------------
  // The component's state and its handlers
  // ---------------------------------------------------------------------------

  const ExecutingNotice: Line := Line("Executing JavaScript...", true)

  class Terminal {
    var messages: seq<Line>
    var containerId: Option<string>
    var socketOpen: bool
    var isConnected: bool
    var isRunning: bool
    /** An interval timer is counting the run's seconds. */
    var ticking: bool
    var executionCount: nat
    var executionTime: nat
    var code: string
    var inputValue: string
    /** The messages written to the socket, in order. */
    var sent: seq<string>

    /** The timer runs exactly while a run is shown as running. */
    ghost predicate Valid()
      reads this
    {
      ticking == isRunning
    }

    /** A freshly connected component, before the socket has opened. */
    constructor(code: string)
      ensures Valid()
      ensures messages == [] && containerId.None? && !socketOpen && !isConnected && !isRunning
      ensures executionCount == 0 && executionTime == 0 && this.code == code && inputValue == [] && sent == []
    {
      messages := [];
      containerId := None;
      socketOpen := false;
      isConnected := false;
      isRunning := false;
      ticking := false;
      executionCount := 0;
      executionTime := 0;
      this.code := code;
      inputValue := [];
      sent := [];
    }

    /** `onopen`: the socket is open and the terminal says so. */
    method OnOpen()
      modifies this
      ensures Valid() <== old(Valid())
      ensures socketOpen && isConnected
      ensures messages == old(messages) + [Line("Connected to server. Ready to execute JavaScript.", true)]
      ensures containerId == old(containerId) && isRunning == old(isRunning) && ticking == old(ticking)
      ensures executionCount == old(executionCount) && executionTime == old(executionTime)
      ensures code == old(code) && inputValue == old(inputValue) && sent == old(sent)
    {
      socketOpen := true;
      isConnected := true;
      messages := messages + [Line("Connected to server. Ready to execute JavaScript.", true)];
    }

    /** `onclose`: the run stops and the terminal reports the closed connection. */
    method OnClose()
      modifies this
      ensures Valid()
      ensures !socketOpen && !isRunning && !ticking
      ensures messages == old(messages) + [Line("Connection closed", true)]
      ensures containerId == old(containerId) && isConnected == old(isConnected)
      ensures executionCount == old(executionCount) && executionTime == old(executionTime)
      ensures code == old(code) && inputValue == old(inputValue) && sent == old(sent)
    {
      socketOpen := false;
      isRunning := false;
      ticking := false;
      messages := messages + [Line("Connection closed", true)];
    }

    /** `onmessage`: shows the message's notice, records a container id, and
        stops the run after an error or either notice of the run's end. */
    method OnMessage(data: string)
      modifies this
      ensures Valid() <== old(Valid())
      ensures messages == old(messages) + [Notice(Classify(data))]
      ensures containerId == if Classify(data).ContainerId? then Some(Classify(data).id) else old(containerId)
      ensures isRunning == (old(isRunning) && !EndsRun(Classify(data)))
      ensures ticking == (old(ticking) && !EndsRun(Classify(data)))
      ensures socketOpen == old(socketOpen) && isConnected == old(isConnected)
      ensures executionCount == old(executionCount) && executionTime == old(executionTime)
      ensures code == old(code) && inputValue == old(inputValue) && sent == old(sent)
    {
      var m := Classify(data);
      if m.ContainerId? {
        containerId := Some(m.id);
      }
      messages := messages + [Notice(m)];
      if EndsRun(m) {
        isRunning := false;
        ticking := false;
      }
    }

    /** `executeCode`: when the guard passes, starts the run (count, timer,
        cleared input) and sends the code; otherwise shows why not. */
    method ExecuteCode()
      modifies this
      ensures Valid() <== old(Valid())
      ensures var r := CodeRequest(old(socketOpen), old(code));
        r.Send? ==>
          && sent == old(sent) + [r.message]
          && messages == old(messages) + [ExecutingNotice]
          && isRunning && ticking
          && executionCount == old(executionCount) + 1 && executionTime == 0 && inputValue == []
      ensures var r := CodeRequest(old(socketOpen), old(code));
        r.Refuse? ==>
          && sent == old(sent)
          && messages == old(messages) + [r.notice]
          && isRunning == old(isRunning) && ticking == old(ticking)
          && executionCount == old(executionCount) && executionTime == old(executionTime)
          && inputValue == old(inputValue)
      ensures containerId == old(containerId) && socketOpen == old(socketOpen)
      ensures isConnected == old(isConnected) && code == old(code)
    {
      var r := CodeRequest(socketOpen, code);
      match r
      case Send(message) =>
        StartRun(message);
      case Refuse(notice) =>
        messages := messages + [notice];
    }

    /** The run starts: one more run, the timer restarted from 0, the input
        box cleared, the notice shown and `message` sent. */
    method StartRun(message: string)
      modifies this
      ensures sent == old(sent) + [message] && messages == old(messages) + [ExecutingNotice]
      ensures isRunning && ticking
      ensures executionCount == old(executionCount) + 1 && executionTime == 0 && inputValue == []
      ensures containerId == old(containerId) && socketOpen == old(socketOpen)
      ensures isConnected == old(isConnected) && code == old(code)
    {
      isRunning := true;
      executionCount := executionCount + 1;
      messages := messages + [ExecutingNotice];
      executionTime := 0;
      inputValue := [];
      ticking := true;
      sent := sent + [message];
    }

    /** `sendInput`: sends the input line and clears the box; blank input is
        dropped, and a closed socket is reported. */
    method SendInput()
      modifies this
      ensures Valid() <== old(Valid())
      ensures var r := InputRequest(old(socketOpen), old(inputValue));
        && sent == (if r.Send? then old(sent) + [r.message] else old(sent))
        && inputValue == (if r.Send? then [] else old(inputValue))
        && messages == (if r.Refuse? then old(messages) + [r.notice] else old(messages))
      ensures containerId == old(containerId) && socketOpen == old(socketOpen) && isConnected == old(isConnected)
      ensures isRunning == old(isRunning) && ticking == old(ticking)
      ensures executionCount == old(executionCount) && executionTime == old(executionTime) && code == old(code)
    {
      var r := InputRequest(socketOpen, inputValue);
      match r
      case Send(message) =>
        Submit(message);
      case Refuse(notice) =>
        messages := messages + [notice];
      case Ignore =>
    }

    /** `message` is sent and the input box cleared. */
    method Submit(message: string)
      modifies this
      ensures sent == old(sent) + [message] && inputValue == [] && messages == old(messages)
      ensures containerId == old(containerId) && socketOpen == old(socketOpen) && isConnected == old(isConnected)
      ensures isRunning == old(isRunning) && ticking == old(ticking)
      ensures executionCount == old(executionCount) && executionTime == old(executionTime) && code == old(code)
    {
      sent := sent + [message];
      inputValue := [];
    }
  }
}
