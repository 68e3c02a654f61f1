/**
 * One live coding session (`RunLiveCode`): the client's first message must
 * carry code (`CODE:<source>`); each pass of the session loop prepares the
 * command for that code (for compiled languages: write the source file,
 * compile it on the host, point the command at the compiled file), starts it
 * in the session's container and relays the client's messages to it until a
 * new `CODE:` message, a `STOP`, the end of the program or the end of the
 * connection.
 *
 * The engine, the host compiler, the file system and the clock are
 * parameters: each pass that reaches the preparation step reads one
 * `Attempt` record saying what they did. The client's messages are a finite
 * sequence; reading past its end is the read error of a closed connection.
 */
module Session {
  import opened Wrappers
  import opened Strings
  import opened Types
  import opened LangConfig

  /** What the environment does during one pass of the session loop. */
  datatype Attempt = Attempt(
    nanos: nat,                      // clock read by `FileName`
    hostNanos: nat,                  // clock read by java's `RunOnHost`
    writeError: Option<string>,      // failure of writing the source file
    hostFailure: Option<string>,     // combined output of a failed host compile
    execCreateError: Option<string>, // failure of creating the exec instance
    attachError: Option<string>,     // failure of attaching to it
    listing: Option<seq<string>>,    // what java's command finds in its directory
    phpFile: Option<string>,         // the file php's command managed to write
    alive: nat,                      // messages the relay reads before the program's end stops it
    sendOk: bool)                    // whether an error message reaches the client

  /** How the session ends. */
  datatype Exit = UnsupportedLanguage | ReadFailed | NotCode | SendFailed | NoHostCommand | OutOfAttempts

  /** What the session has done so far: the code it holds, whether it must read
      a message before running, the next message to read, the error messages
      sent, the commands run, the lines written to the programs' input and the
      `DecreaseUser` calls made for the container. */
  datatype Progress = Progress(
    code: string,
    wait: bool,
    pos: nat,
    sent: seq<string>,
    execs: seq<seq<string>>,
    stdin: seq<string>,
    releases: nat)

  datatype Outcome = Outcome(exit: Exit, final: Progress)

  const Start: Progress := Progress("", false, 0, [], [], [], 0)

  const CodePrefix: string := "CODE:"
  const ErrorPrefix: string := "error: "

  // ---------------------------------------------------------------------------
  // The compiled file's name
  // ---------------------------------------------------------------------------

  /** The extension of the file the host compiler produces. */
  function TargetExtension(lang: string): Option<string> {
    match lang
    case "ts" => Some(".js")
    case "c" => Some(".out")
    case "cpp" => Some(".out")
    case "java" => Some(".class")
    case _ => None
  }

  /** The name the session runs after compiling source file `name`: a fixed
      number of trailing characters replaced by the target extension. */
  function CompiledName(lang: string, name: string): string
    requires SourceExtension(lang).Some? ==> |name| >= |SourceExtension(lang).value|
  {
    match lang
    case "ts" => name[..|name| - 3] + ".js"
    case "c" => name[..|name| - 2] + ".out"
    case "cpp" => name[..|name| - 4] + ".out"
    case "java" => name[..|name| - 5] + ".class"
    case _ => name
  }

  /** The characters cut are exactly the source extension: a source file's
      compiled name is its stem followed by the target extension. */
  lemma CompiledNameSwapsExtension(lang: string, name: string)
    requires SourceExtension(lang).Some? && HasSuffix(name, SourceExtension(lang).value)
    ensures TargetExtension(lang).Some?
    ensures CompiledName(lang, name) == TrimSuffix(name, SourceExtension(lang).value) + TargetExtension(lang).value
  {
    var ext := SourceExtension(lang).value;
    assert TrimSuffix(name, ext) + ext == name;
    assert name[..|name| - |ext|] == TrimSuffix(name, ext);
  }

  // ---------------------------------------------------------------------------
  // The relay of the client's messages to a running program
  // ---------------------------------------------------------------------------

  /** Where a run ends: the next message to read, the new code if a `CODE:`
      message ended it, the lines forwarded, and whether the connection ended. */
  datatype RunEnd = RunEnd(pos: nat, newCode: Option<string>, stdin: seq<string>, disconnected: bool)

  /** The relay, from message `pos` on, reading at most `alive` messages: a
      `CODE:` message or `STOP` ends the run, any other message is forwarded
      with a newline; the end of the connection ends it too. */
  function Relay(inbound: seq<string>, pos: nat, alive: nat): (e: RunEnd)
    requires pos <= |inbound|
    ensures pos <= e.pos <= |inbound|
    decreases alive
  {
    if alive == 0 then RunEnd(pos, None, [], false)
    else if pos == |inbound| then RunEnd(pos, None, [], true)
    else
      var m := inbound[pos];
      if HasPrefix(m, CodePrefix) then RunEnd(pos + 1, Some(m), [], false)
      else if m == "STOP" then RunEnd(pos + 1, None, [], false)
      else
        var rest := Relay(inbound, pos + 1, alive - 1);
        rest.(stdin := [m + "\n"] + rest.stdin)
  }

  /** The relay's loop: one message per iteration. */
  method RelayInput(inbound: seq<string>, pos: nat, alive: nat) returns (end: RunEnd)
    requires pos <= |inbound|
    ensures end == Relay(inbound, pos, alive)
  {
    var i, left := pos, alive;
    var forwarded: seq<string> := [];
    while true
      invariant pos <= i <= |inbound|
      invariant Relay(inbound, pos, alive) == Relay(inbound, i, left).(stdin := forwarded + Relay(inbound, i, left).stdin)
      decreases left
    {
      if left == 0 {
        return RunEnd(i, None, forwarded, false);
      }
      if i == |inbound| {
        return RunEnd(i, None, forwarded, true);
      }
      var m := inbound[i];
      if HasPrefix(m, CodePrefix) {
        return RunEnd(i + 1, Some(m), forwarded, false);
      }
      if m == "STOP" {
        return RunEnd(i + 1, None, forwarded, false);
      }
      forwarded := forwarded + [m + "\n"];
      i, left := i + 1, left - 1;
    }
  }

  /** The relay forwards at most `alive`
      lines, ends on a disconnect only at the end of the messages, and a new
      code is the `CODE:` message read last. */
  lemma {:induction false} RelayBounds(inbound: seq<string>, pos: nat, alive: nat)
    requires pos <= |inbound|
    ensures var e := Relay(inbound, pos, alive);
      && |e.stdin| <= alive
      && (e.disconnected ==> e.pos == |inbound| && e.newCode.None?)
      && (e.newCode.Some? ==> pos < e.pos && e.newCode.value == inbound[e.pos - 1] && HasPrefix(e.newCode.value, CodePrefix))
    decreases alive
  {
    if alive > 0 && pos < |inbound| && !HasPrefix(inbound[pos], CodePrefix) && inbound[pos] != "STOP" {
      RelayBounds(inbound, pos + 1, alive - 1);
    }
  }

  /** `line` is a message of `inbound` that is neither code nor `STOP`, followed by a newline. */
  ghost predicate IsInputLine(inbound: seq<string>, line: string) {
    exists m | m in inbound :: line == m + "\n" && !HasPrefix(m, CodePrefix) && m != "STOP"
  }

  /** Every forwarded line is a message that is neither code nor `STOP`,
      followed by a newline. */
  lemma {:induction false} RelayForwardsInput(inbound: seq<string>, pos: nat, alive: nat)
    requires pos <= |inbound|
    ensures forall line | line in Relay(inbound, pos, alive).stdin :: IsInputLine(inbound, line)
    decreases alive
  {
    if alive > 0 && pos < |inbound| && !HasPrefix(inbound[pos], CodePrefix) && inbound[pos] != "STOP" {
      RelayForwardsInput(inbound, pos + 1, alive - 1);
      var m := inbound[pos];
      var rest := Relay(inbound, pos + 1, alive - 1);
      forall line | line in [m + "\n"] + rest.stdin
        ensures IsInputLine(inbound, line)
      {
        if line !in rest.stdin {
          assert line == m + "\n";
          assert m in inbound && !HasPrefix(m, CodePrefix) && m != "STOP";
        }
      }
    }
  }

  /** A message the relay forwards to the program: neither code nor `STOP`. */
  predicate IsInput(m: string) {
    !HasPrefix(m, CodePrefix) && m != "STOP"
  }

  /** Each message followed by a newline, as written to a program's input. */
  function Lines(ms: seq<string>): (r: seq<string>)
    ensures |r| == |ms| && forall i :: 0 <= i < |ms| ==> r[i] == ms[i] + "\n"
  {
    if ms == [] then [] else [ms[0] + "\n"] + Lines(ms[1..])
  }

  /** Every message of `ms` is input for the program. */
  predicate AllInput(ms: seq<string>) {
    forall m | m in ms :: IsInput(m)
  }

  /** `lines` are the input messages from `pos` on, in order, each with a
      newline added. */
  predicate ForwardedFrom(inbound: seq<string>, pos: nat, lines: seq<string>) {
    pos + |lines| <= |inbound|
    && lines == Lines(inbound[pos..pos + |lines|])
    && AllInput(inbound[pos..pos + |lines|])
  }

  lemma ForwardedCons(inbound: seq<string>, pos: nat, lines: seq<string>)
    requires pos < |inbound| && IsInput(inbound[pos]) && ForwardedFrom(inbound, pos + 1, lines)
    ensures ForwardedFrom(inbound, pos, [inbound[pos] + "\n"] + lines)
  {
    var tail := inbound[pos + 1..pos + 1 + |lines|];
    assert inbound[pos..pos + 1 + |lines|] == [inbound[pos]] + tail;
    ConsLines(inbound[pos], tail);
    ConsInput(inbound[pos], tail);
  }

  lemma ConsLines(m: string, ms: seq<string>)
    ensures Lines([m] + ms) == [m + "\n"] + Lines(ms)
  {
    assert ([m] + ms)[1..] == ms;
  }

  lemma ConsInput(m: string, ms: seq<string>)
    requires IsInput(m) && AllInput(ms)
    ensures AllInput([m] + ms)
  {
  }

  /** The relay exactly: the `n` lines it forwards are the next `n` messages,
      in order, each an input message with a newline added. Then the run ends
      one of three ways. The program ends after `alive` messages. Or the
      connection ends, at the end of the messages. Or a `CODE:` or `STOP`
      message is read: it is not forwarded, and only `CODE:` gives a new code. */
  lemma {:induction false} RelayExact(inbound: seq<string>, pos: nat, alive: nat)
    requires pos <= |inbound|
    ensures var e := Relay(inbound, pos, alive);
      var n := |e.stdin|;
      && n <= alive && n <= e.pos - pos
      && ForwardedFrom(inbound, pos, e.stdin)
      && (n == alive ==> e == RunEnd(pos + n, None, e.stdin, false))
      && (n < alive && pos + n == |inbound| ==> e == RunEnd(pos + n, None, e.stdin, true))
      && (n < alive && pos + n < |inbound| ==>
            !IsInput(inbound[pos + n])
            && e == RunEnd(pos + n + 1,
                           if HasPrefix(inbound[pos + n], CodePrefix) then Some(inbound[pos + n]) else None,
                           e.stdin, false))
    decreases alive
  {
    if alive > 0 && pos < |inbound| && IsInput(inbound[pos]) {
      RelayExact(inbound, pos + 1, alive - 1);
      var rest := Relay(inbound, pos + 1, alive - 1);
      ForwardedCons(inbound, pos, rest.stdin);
    }
  }

  /** The forwarded lines by position: line `i` is message `pos + i` with a
      newline added, and that message is neither code nor `STOP`. */
  lemma RelayForwardsInOrder(inbound: seq<string>, pos: nat, alive: nat)
    requires pos <= |inbound|
    ensures var e := Relay(inbound, pos, alive);
      && pos + |e.stdin| <= |inbound|
      && forall i :: 0 <= i < |e.stdin| ==> IsInput(inbound[pos + i]) && e.stdin[i] == inbound[pos + i] + "\n"
  {
    RelayExact(inbound, pos, alive);
    var e := Relay(inbound, pos, alive);
    var ms := inbound[pos..pos + |e.stdin|];
    forall i | 0 <= i < |e.stdin|
      ensures IsInput(inbound[pos + i]) && e.stdin[i] == inbound[pos + i] + "\n"
    {
      assert ms[i] == inbound[pos + i] && ms[i] in ms;
    }
  }

  // ---------------------------------------------------------------------------
  // One pass: preparing the command
  // ---------------------------------------------------------------------------

  /** The preparation of a pass: the command to run, or the error message sent
      to the client, or the missing host command that ends the session. */
  datatype Prepared = Ready(cmd: seq<string>) | Failed(message: string) | NoHost

  /** Creating and attaching the exec instance for `cmd`. */
  function Launch(cmd: seq<string>, a: Attempt): Prepared {
    if a.execCreateError.Some? then Failed(ErrorPrefix + a.execCreateError.value)
    else if a.attachError.Some? then Failed(ErrorPrefix + a.attachError.value)
    else Ready(cmd)
  }

  /** The command for source text `source`: interpreted languages are given the
      text itself; compiled languages write it to a file, compile that on the
      host and run the compiled file from the shared directory. Every compiled
      language has a file name (`CompiledIffHostCommand`), so the `None` case
      does not arise. */
  function Prepare(lang: string, containerID: string, source: string, a: Attempt): Prepared
    requires lang in LangImages
  {
    if !LangImages[lang].isCompiled then Launch(ExecCmd(lang, source, a.listing, a.phpFile), a)
    else match FileName(lang, containerID, a.nanos)
      case None => NoHost
      case Some(name) => CompileAndLaunch(lang, name, a)
  }

  /** The compiled path for the written file `name`: a failed write or a failed
      host command is reported, otherwise the compiled file is run. */
  function CompileAndLaunch(lang: string, name: string, a: Attempt): Prepared
    requires lang in LangImages
    requires SourceExtension(lang).Some? ==> |name| >= |SourceExtension(lang).value|
  {
    if a.writeError.Some? then Failed(ErrorPrefix + a.writeError.value)
    else if !HasHostCommand(lang) then NoHost
    else if a.hostFailure.Some? then Failed(ErrorPrefix + a.hostFailure.value)
    else Launch(ExecCmd(lang, ContainerCompiledFiles + "/" + CompiledName(lang, name), a.listing, a.phpFile), a)
  }

  /** Every supported language that needs a host command has one. */
  lemma PrepareHasHost(lang: string, containerID: string, source: string, a: Attempt)
    requires lang in LangImages
    ensures !Prepare(lang, containerID, source, a).NoHost?
    ensures Prepare(lang, containerID, source, a).Failed? ==> HasPrefix(Prepare(lang, containerID, source, a).message, ErrorPrefix)
  {
    CompiledIffHostCommand(lang, "", containerID, a.nanos);
    if LangImages[lang].isCompiled {
      CompiledIffHostCommand(lang, CodeFilesDir + "/" + FileName(lang, containerID, a.nanos).value, containerID, a.nanos);
    }
    PrefixOfConcat(ErrorPrefix, if a.writeError.Some? then a.writeError.value else "");
    PrefixOfConcat(ErrorPrefix, if a.hostFailure.Some? then a.hostFailure.value else "");
    PrefixOfConcat(ErrorPrefix, if a.execCreateError.Some? then a.execCreateError.value else "");
    PrefixOfConcat(ErrorPrefix, if a.attachError.Some? then a.attachError.value else "");
  }

  // ---------------------------------------------------------------------------
  // The session loop
  // ---------------------------------------------------------------------------

  /** The state after a run that ended with `e`. As written the session then
      goes round again without reading a message, with the code it holds; the
      corrected session waits for a message unless a `CODE:` message ended the run. */
  function AfterRun(p: Progress, cmd: seq<string>, e: RunEnd, corrected: bool): Progress {
    p.(pos := e.pos,
       execs := p.execs + [cmd],
       stdin := p.stdin + e.stdin,
       releases := p.releases + (if e.disconnected then 1 else 0),
       code := if e.newCode.Some? then e.newCode.value else p.code,
       wait := corrected && e.newCode.None?)
  }

  /** Where one pass of the loop leads: the end of the session, or the
      progress the next pass starts from. */
  datatype Step = Done(o: Outcome) | Next(p: Progress)

  /** The progress a pass reaches, whether or not the session goes on. */
  function Reached(s: Step): Progress {
    if s.Next? then s.p else s.o.final
  }

  /** One pass of the session loop with attempt `a`: read a message if the
      last pass asked for one, check it is code, prepare the exec instance and
      run it. As written a disconnect during a run releases the container and
      the loop goes on; the corrected loop ends there. */
  function Pass(lang: string, containerID: string, inbound: seq<string>, p: Progress,
                a: Attempt, corrected: bool): (s: Step)
    requires lang in LangImages && p.pos <= |inbound|
    ensures s.Next? ==> p.pos <= s.p.pos <= |inbound|
  {
    if p.wait && p.pos == |inbound| then Done(Outcome(ReadFailed, p.(releases := p.releases + 1)))
    else
      var p1 := if p.wait then p.(code := inbound[p.pos], pos := p.pos + 1) else p;
      if !HasPrefix(p1.code, CodePrefix) then Done(Outcome(NotCode, p1))
      else
        match Prepare(lang, containerID, TrimPrefix(p1.code, CodePrefix), a)
        case NoHost => Done(Outcome(NoHostCommand, p1))
        case Failed(msg) =>
          if !a.sendOk then Done(Outcome(SendFailed, p1))
          else Next(p1.(wait := true, sent := p1.sent + [msg]))
        case Ready(cmd) =>
          var e := Relay(inbound, p1.pos, a.alive);
          var p2 := AfterRun(p1, cmd, e, corrected);
          if corrected && e.disconnected then Done(Outcome(ReadFailed, p2))
          else Next(p2)
  }

  /** The session loop from progress `p`, one `Attempt` per pass. */
  function Loop(lang: string, containerID: string, inbound: seq<string>, p: Progress,
                attempts: seq<Attempt>, corrected: bool): Outcome
    requires lang in LangImages && p.pos <= |inbound|
    decreases |attempts|
  {
    if attempts == [] then Outcome(OutOfAttempts, p)
    else match Pass(lang, containerID, inbound, p, attempts[0], corrected)
      case Done(o) => o
      case Next(q) => Loop(lang, containerID, inbound, q, attempts[1..], corrected)
  }

  /** The whole session: the language is checked before anything is read, and
      a failed first read ends it before the loop. */
  function Session(lang: string, containerID: string, inbound: seq<string>,
                   attempts: seq<Attempt>, corrected: bool): Outcome
  {
    if lang !in LangImages then Outcome(UnsupportedLanguage, Start)
    else if inbound == [] then Outcome(ReadFailed, Start)
    else Loop(lang, containerID, inbound, Start.(code := inbound[0], pos := 1), attempts, corrected)
  }

  /** The exec set-up of one pass: for a compiled language, write the source
      and compile it on the host; then create and attach the exec instance.
      Each failure is the message the client is sent. */
  method PrepareExec(lang: string, containerID: string, source: string, a: Attempt) returns (r: Prepared)
    requires lang in LangImages
    ensures r == Prepare(lang, containerID, source, a)
  {
    var cmd := ExecCmd(lang, source, a.listing, a.phpFile);
    if LangImages[lang].isCompiled {
      CompiledIffHostCommand(lang, "", containerID, a.nanos);
      var fileName := FileName(lang, containerID, a.nanos).value;
      if a.writeError.Some? {
        return Failed(ErrorPrefix + a.writeError.value);
      }
      if !HasHostCommand(lang) {
        return NoHost;
      }
      if a.hostFailure.Some? {
        return Failed(ErrorPrefix + a.hostFailure.value);
      }
      fileName := CompiledName(lang, fileName);
      cmd := ExecCmd(lang, ContainerCompiledFiles + "/" + fileName, a.listing, a.phpFile);
    }
    if a.execCreateError.Some? {
      return Failed(ErrorPrefix + a.execCreateError.value);
    }
    if a.attachError.Some? {
      return Failed(ErrorPrefix + a.attachError.value);
    }
    return Ready(cmd);
  }

  /** `RunLiveCode` as written: the session's loop, one attempt per pass. */
  method RunLiveCode(lang: string, containerID: string, inbound: seq<string>, attempts: seq<Attempt>)
    returns (o: Outcome)
    ensures o == Session(lang, containerID, inbound, attempts, false)
  {
    if lang !in LangImages {
      return Outcome(UnsupportedLanguage, Start);
    }
    if |inbound| == 0 {
      return Outcome(ReadFailed, Start);
    }
    var p := Start.(code := inbound[0], pos := 1);
    var k := 0;
    while k < |attempts|
      invariant k <= |attempts| && p.pos <= |inbound|
      invariant Session(lang, containerID, inbound, attempts, false)
        == Loop(lang, containerID, inbound, p, attempts[k..], false)
      decreases |attempts| - k
    {
      assert attempts[k..][1..] == attempts[k + 1..];
      var step := RunPass(lang, containerID, inbound, p, attempts[k]);
      k := k + 1;
      if step.Done? {
        return step.o;
      }
      p := step.p;
    }
    return Outcome(OutOfAttempts, p);
  }

  /** One pass of `RunLiveCode`'s loop from progress `p`: the next message when
      the last pass asked for one, the `CODE:` check, the exec set-up with its
      error reports, and the run. */
  method RunPass(lang: string, containerID: string, inbound: seq<string>, p: Progress, a: Attempt)
    returns (s: Step)
    requires lang in LangImages && p.pos <= |inbound|
    ensures s == Pass(lang, containerID, inbound, p, a, false)
  {
    var code, pos, waitForMsg := p.code, p.pos, p.wait;
    if waitForMsg {
      if pos == |inbound| {
        return Done(Outcome(ReadFailed, p.(releases := p.releases + 1)));
      }
      code := inbound[pos];
      pos := pos + 1;
    }
    var p1 := p.(code := code, pos := pos);
    if !HasPrefix(code, CodePrefix) {
      return Done(Outcome(NotCode, p1));
    }
    var prepared := PrepareExec(lang, containerID, TrimPrefix(code, CodePrefix), a);
    match prepared
    case NoHost =>
      return Done(Outcome(NoHostCommand, p1));
    case Failed(msg) =>
      if !a.sendOk {
        return Done(Outcome(SendFailed, p1));
      }
      return Next(p1.(wait := true, sent := p1.sent + [msg]));
    case Ready(cmd) =>
      var e := RelayInput(inbound, pos, a.alive);
      if e.newCode.Some? {
        code := e.newCode.value;
      }
      return Next(Progress(code, false, e.pos, p.sent, p.execs + [cmd], p.stdin + e.stdin,
                           p.releases + (if e.disconnected then 1 else 0)));
  }

  // ---------------------------------------------------------------------------
  // What one pass does
  // ---------------------------------------------------------------------------

  /** The message a pass acts on: the one it reads when the last pass asked
      for a message, otherwise the code it holds. */
  function Held(inbound: seq<string>, p: Progress): string
    requires p.wait ==> p.pos < |inbound|
  {
    if p.wait then inbound[p.pos] else p.code
  }

  /** The first step of the exec set-up that fails, in the order the session
      takes them: writing the source file and compiling it on the host (for
      compiled languages only), creating the exec instance, attaching to it. */
  function FirstFailure(compiled: bool, a: Attempt): Option<string> {
    if compiled && a.writeError.Some? then a.writeError
    else if compiled && a.hostFailure.Some? then a.hostFailure
    else if a.execCreateError.Some? then a.execCreateError
    else a.attachError
  }

  /** The set-up fails exactly when one of its steps fails, and the message is
      `error: ` followed by the first failing step's error: for a failed host
      compile, the compiler's output. Otherwise a command is ready. */
  lemma PrepareReportsFirstFailure(lang: string, containerID: string, source: string, a: Attempt)
    requires lang in LangImages
    ensures var f := FirstFailure(LangImages[lang].isCompiled, a);
      var r := Prepare(lang, containerID, source, a);
      && (r.Failed? <==> f.Some?)
      && (r.Ready? <==> f.None?)
      && (f.Some? ==> r == Failed(ErrorPrefix + f.value))
  {
    PrepareHasHost(lang, containerID, source, a);
    if LangImages[lang].isCompiled {
      PrepareCompiled(lang, containerID, source, a);
      CompiledIffHostCommand(lang, "", containerID, a.nanos);
    }
  }

  /** A pass whose message is not code ends the session with `NotCode`, and
      only such a pass does; it has sent, run, forwarded and released nothing. */
  lemma PassEndsOnNonCode(lang: string, containerID: string, inbound: seq<string>, p: Progress, a: Attempt, corrected: bool)
    requires lang in LangImages && p.pos <= |inbound|
    ensures var s := Pass(lang, containerID, inbound, p, a, corrected);
      (s.Done? && s.o.exit == NotCode)
        <==> ((p.wait ==> p.pos < |inbound|) && !HasPrefix(Held(inbound, p), CodePrefix))
    ensures var s := Pass(lang, containerID, inbound, p, a, corrected);
      s.Done? && s.o.exit == NotCode ==>
        && s.o.final.sent == p.sent && s.o.final.execs == p.execs
        && s.o.final.stdin == p.stdin && s.o.final.releases == p.releases
  {
  }

  /** A pass whose message is code but whose set-up fails runs nothing. It
      sends the client exactly one message, the `error: ` report of the first
      failing step, and waits for the client's next message; when that report
      cannot be sent, the session ends. */
  lemma PassReportsFailure(lang: string, containerID: string, inbound: seq<string>, p: Progress, a: Attempt, corrected: bool)
    requires lang in LangImages && p.pos <= |inbound|
    ensures var s := Pass(lang, containerID, inbound, p, a, corrected);
      var q := Reached(s);
      var f := FirstFailure(LangImages[lang].isCompiled, a);
      (p.wait ==> p.pos < |inbound|) && HasPrefix(Held(inbound, p), CodePrefix) && f.Some? ==>
        && q.execs == p.execs && q.stdin == p.stdin && q.releases == p.releases
        && (a.sendOk ==> s.Next? && s.p.wait && s.p.sent == p.sent + [ErrorPrefix + f.value])
        && (!a.sendOk ==> s.Done? && s.o.exit == SendFailed && q.sent == p.sent)
  {
    if (p.wait ==> p.pos < |inbound|) && HasPrefix(Held(inbound, p), CodePrefix) {
      PrepareReportsFirstFailure(lang, containerID, TrimPrefix(Held(inbound, p), CodePrefix), a);
    }
  }

  /** As written, a pass that runs a program leaves the session holding code
      and not waiting, so the next pass runs again without reading a message.
      The code held is the one just run, unless a `CODE:` message ended the
      run and replaced it. */
  lemma PassKeepsCode(lang: string, containerID: string, inbound: seq<string>, p: Progress, a: Attempt)
    requires lang in LangImages && p.pos <= |inbound|
    ensures var s := Pass(lang, containerID, inbound, p, a, false);
      s.Next? && |s.p.execs| > |p.execs| ==>
        && (p.wait ==> p.pos < |inbound|)
        && !s.p.wait && HasPrefix(s.p.code, CodePrefix)
        && (s.p.code == Held(inbound, p) || (p.pos < s.p.pos && s.p.code == inbound[s.p.pos - 1]))
  {
    if !(p.wait && p.pos == |inbound|) {
      var p1 := if p.wait then p.(code := inbound[p.pos], pos := p.pos + 1) else p;
      RelayBounds(inbound, p1.pos, a.alive);
    }
  }

  /** A pass that holds code and does not wait runs that code without reading
      a message: when the set-up succeeds, it runs the command prepared from
      the held code. */
  lemma PassRunsHeldCode(lang: string, containerID: string, inbound: seq<string>, p: Progress, a: Attempt, corrected: bool)
    requires lang in LangImages && p.pos <= |inbound|
    ensures var r := Prepare(lang, containerID, TrimPrefix(p.code, CodePrefix), a);
      !p.wait && HasPrefix(p.code, CodePrefix) && r.Ready? ==>
        Reached(Pass(lang, containerID, inbound, p, a, corrected)).execs == p.execs + [r.cmd]
  {
  }

  // ---------------------------------------------------------------------------
  // What every session does
  // ---------------------------------------------------------------------------

  /** What a session has done only grows from pass to pass. */
  ghost predicate Grows(p: Progress, q: Progress) {
    p.pos <= q.pos && p.sent <= q.sent && p.execs <= q.execs && p.stdin <= q.stdin && p.releases <= q.releases
  }

  /** One pass only adds to what the session has done, and it never ends for
      an unsupported language or a missing host command. */
  lemma PassExits(lang: string, containerID: string, inbound: seq<string>, p: Progress, a: Attempt, corrected: bool)
    requires lang in LangImages && p.pos <= |inbound|
    ensures var s := Pass(lang, containerID, inbound, p, a, corrected);
      && (s.Next? ==> Grows(p, s.p))
      && (s.Done? ==> s.o.exit != UnsupportedLanguage && s.o.exit != NoHostCommand)
      && (s.Done? ==> Grows(p, s.o.final) && s.o.final.pos <= |inbound|)
  {
    if !(p.wait && p.pos == |inbound|) {
      var p1 := if p.wait then p.(code := inbound[p.pos], pos := p.pos + 1) else p;
      if HasPrefix(p1.code, CodePrefix) {
        PrepareHasHost(lang, containerID, TrimPrefix(p1.code, CodePrefix), a);
      }
    }
  }

  /** The loop ends neither for an unsupported language nor for a missing
      host command, it only reads forward, and it keeps what it has done. */
  lemma {:induction false} LoopExits(lang: string, containerID: string, inbound: seq<string>, p: Progress,
                                     attempts: seq<Attempt>, corrected: bool)
    requires lang in LangImages && p.pos <= |inbound|
    ensures var o := Loop(lang, containerID, inbound, p, attempts, corrected);
      && o.exit != UnsupportedLanguage && o.exit != NoHostCommand
      && o.final.pos <= |inbound| && Grows(p, o.final)
    decreases |attempts|
  {
    if attempts != [] {
      PassExits(lang, containerID, inbound, p, attempts[0], corrected);
      var s := Pass(lang, containerID, inbound, p, attempts[0], corrected);
      if s.Next? {
        LoopExits(lang, containerID, inbound, s.p, attempts[1..], corrected);
      }
    }
  }

  /** A session ends for an unsupported language exactly when the language is
      not in the table, and then it has read and done nothing; it never ends
      for a missing host command. */
  lemma SessionUnsupported(lang: string, containerID: string, inbound: seq<string>,
                           attempts: seq<Attempt>, corrected: bool)
    ensures var o := Session(lang, containerID, inbound, attempts, corrected);
      && (o.exit == UnsupportedLanguage <==> lang !in LangImages)
      && (o.exit == UnsupportedLanguage ==> o.final == Start)
      && o.exit != NoHostCommand
  {
    if lang in LangImages && inbound != [] {
      LoopExits(lang, containerID, inbound, Start.(code := inbound[0], pos := 1), attempts, corrected);
    }
  }

  /** Every message the session sends the client is an error report. */
  lemma PassSendsErrors(lang: string, containerID: string, inbound: seq<string>, p: Progress, a: Attempt, corrected: bool)
    requires lang in LangImages && p.pos <= |inbound|
    requires forall m | m in p.sent :: HasPrefix(m, ErrorPrefix)
    ensures forall m | m in Reached(Pass(lang, containerID, inbound, p, a, corrected)).sent :: HasPrefix(m, ErrorPrefix)
  {
    if !(p.wait && p.pos == |inbound|) {
      var p1 := if p.wait then p.(code := inbound[p.pos], pos := p.pos + 1) else p;
      if HasPrefix(p1.code, CodePrefix) {
        PrepareHasHost(lang, containerID, TrimPrefix(p1.code, CodePrefix), a);
      }
    }
  }

  lemma {:induction false} LoopSendsErrors(lang: string, containerID: string, inbound: seq<string>, p: Progress,
                                           attempts: seq<Attempt>, corrected: bool)
    requires lang in LangImages && p.pos <= |inbound|
    requires forall m | m in p.sent :: HasPrefix(m, ErrorPrefix)
    ensures forall m | m in Loop(lang, containerID, inbound, p, attempts, corrected).final.sent :: HasPrefix(m, ErrorPrefix)
    decreases |attempts|
  {
    if attempts != [] {
      PassSendsErrors(lang, containerID, inbound, p, attempts[0], corrected);
      var s := Pass(lang, containerID, inbound, p, attempts[0], corrected);
      if s.Next? {
        LoopSendsErrors(lang, containerID, inbound, s.p, attempts[1..], corrected);
      }
    }
  }

  lemma SessionSendsErrors(lang: string, containerID: string, inbound: seq<string>,
                           attempts: seq<Attempt>, corrected: bool)
    ensures forall m | m in Session(lang, containerID, inbound, attempts, corrected).final.sent :: HasPrefix(m, ErrorPrefix)
  {
    if lang in LangImages && inbound != [] {
      LoopSendsErrors(lang, containerID, inbound, Start.(code := inbound[0], pos := 1), attempts, corrected);
    }
  }

  /** Every line written to a program's input is one of the client's messages
      that is neither code nor `STOP`, with a newline added. */
  lemma PassForwardsInput(lang: string, containerID: string, inbound: seq<string>, p: Progress, a: Attempt, corrected: bool)
    requires lang in LangImages && p.pos <= |inbound|
    requires forall line | line in p.stdin :: IsInputLine(inbound, line)
    ensures forall line | line in Reached(Pass(lang, containerID, inbound, p, a, corrected)).stdin :: IsInputLine(inbound, line)
  {
    if !(p.wait && p.pos == |inbound|) {
      var p1 := if p.wait then p.(code := inbound[p.pos], pos := p.pos + 1) else p;
      RelayForwardsInput(inbound, p1.pos, a.alive);
    }
  }

  lemma {:induction false} LoopForwardsInput(lang: string, containerID: string, inbound: seq<string>, p: Progress,
                                             attempts: seq<Attempt>, corrected: bool)
    requires lang in LangImages && p.pos <= |inbound|
    requires forall line | line in p.stdin :: IsInputLine(inbound, line)
    ensures forall line | line in Loop(lang, containerID, inbound, p, attempts, corrected).final.stdin :: IsInputLine(inbound, line)
    decreases |attempts|
  {
    if attempts != [] {
      PassForwardsInput(lang, containerID, inbound, p, attempts[0], corrected);
      var s := Pass(lang, containerID, inbound, p, attempts[0], corrected);
      if s.Next? {
        LoopForwardsInput(lang, containerID, inbound, s.p, attempts[1..], corrected);
      }
    }
  }

  lemma SessionForwardsInput(lang: string, containerID: string, inbound: seq<string>,
                             attempts: seq<Attempt>, corrected: bool)
    ensures forall line | line in Session(lang, containerID, inbound, attempts, corrected).final.stdin :: IsInputLine(inbound, line)
  {
    if lang in LangImages && inbound != [] {
      LoopForwardsInput(lang, containerID, inbound, Start.(code := inbound[0], pos := 1), attempts, corrected);
    }
  }

  /** `cmd` ends with the source text of one of the client's `CODE:` messages. */
  ghost predicate RunsCode(inbound: seq<string>, cmd: seq<string>) {
    exists m | m in inbound :: HasPrefix(m, CodePrefix) && |cmd| > 0 && cmd[|cmd| - 1] == TrimPrefix(m, CodePrefix)
  }

  /** For the interpreted languages other than php, every command the session
      runs is given the source text of a `CODE:` message the client sent. */
  lemma PassRunsClientCode(lang: string, containerID: string, inbound: seq<string>, p: Progress, a: Attempt, corrected: bool)
    requires lang in LangImages && !LangImages[lang].isCompiled && lang != "php" && p.pos <= |inbound|
    requires p.code in inbound
    requires forall cmd | cmd in p.execs :: RunsCode(inbound, cmd)
    ensures var s := Pass(lang, containerID, inbound, p, a, corrected);
      && (s.Next? ==> s.p.code in inbound)
      && forall cmd | cmd in Reached(s).execs :: RunsCode(inbound, cmd)
  {
    if !(p.wait && p.pos == |inbound|) {
      var p1 := if p.wait then p.(code := inbound[p.pos], pos := p.pos + 1) else p;
      if HasPrefix(p1.code, CodePrefix) {
        var source := TrimPrefix(p1.code, CodePrefix);
        match Prepare(lang, containerID, source, a)
        case NoHost =>
        case Failed(msg) =>
        case Ready(cmd) =>
          ExecCmdCarriesArgument(lang, source, a.listing, a.phpFile);
          assert RunsCode(inbound, cmd);
          RelayBounds(inbound, p1.pos, a.alive);
      }
    }
  }

  lemma {:induction false} LoopRunsClientCode(lang: string, containerID: string, inbound: seq<string>, p: Progress,
                                              attempts: seq<Attempt>, corrected: bool)
    requires lang in LangImages && !LangImages[lang].isCompiled && lang != "php" && p.pos <= |inbound|
    requires p.code in inbound
    requires forall cmd | cmd in p.execs :: RunsCode(inbound, cmd)
    ensures forall cmd | cmd in Loop(lang, containerID, inbound, p, attempts, corrected).final.execs :: RunsCode(inbound, cmd)
    decreases |attempts|
  {
    if attempts != [] {
      PassRunsClientCode(lang, containerID, inbound, p, attempts[0], corrected);
      var s := Pass(lang, containerID, inbound, p, attempts[0], corrected);
      if s.Next? {
        LoopRunsClientCode(lang, containerID, inbound, s.p, attempts[1..], corrected);
      }
    }
  }

  lemma SessionRunsClientCode(lang: string, containerID: string, inbound: seq<string>,
                              attempts: seq<Attempt>, corrected: bool)
    requires lang in LangImages && !LangImages[lang].isCompiled && lang != "php"
    ensures forall cmd | cmd in Session(lang, containerID, inbound, attempts, corrected).final.execs :: RunsCode(inbound, cmd)
  {
    if inbound != [] {
      LoopRunsClientCode(lang, containerID, inbound, Start.(code := inbound[0], pos := 1), attempts, corrected);
    }
  }

  // ---------------------------------------------------------------------------
  // Runs without a new `CODE:` message, and a second release
  // ---------------------------------------------------------------------------

  /** The number of `CODE:` messages in `ms`. */
  function CountCode(ms: seq<string>): (n: nat)
    ensures n <= |ms|
  {
    if ms == [] then 0
    else CountCode(ms[..|ms| - 1]) + (if HasPrefix(ms[|ms| - 1], CodePrefix) then 1 else 0)
  }

  lemma CountCodeStep(ms: seq<string>, i: nat)
    requires i < |ms|
    ensures CountCode(ms[..i + 1]) == CountCode(ms[..i]) + (if HasPrefix(ms[i], CodePrefix) then 1 else 0)
  {
    assert ms[..i + 1][..i] == ms[..i];
  }

  lemma {:induction false} CountCodeGrows(ms: seq<string>, i: nat, j: nat)
    requires i <= j <= |ms|
    ensures CountCode(ms[..i]) <= CountCode(ms[..j])
    decreases j - i
  {
    if i < j {
      CountCodeStep(ms, j - 1);
      CountCodeGrows(ms, i, j - 1);
    }
  }

  /** A pass that succeeds without attempts beyond the first. */
  const Smooth: Attempt := Attempt(0, 0, None, None, None, None, None, None, 1, true)

  /** As written, a run that ends on `STOP` is followed by a second run of the
      same code: one `CODE:` message, two runs. */
  lemma StopRerunsCode()
    ensures var o := Session("js", "c1", ["CODE:1", "STOP"], [Smooth, Smooth], false);
      |o.final.execs| == 2 > CountCode(["CODE:1", "STOP"]) == 1
      && o.final.execs[0] == o.final.execs[1] == ["node", "-e", "1"]
  {
    var inbound := ["CODE:1", "STOP"];
    var cmd := ["node", "-e", "1"];
    assert HasPrefix(inbound[0], CodePrefix);
    assert !HasPrefix(inbound[1], CodePrefix);
    assert TrimPrefix(inbound[0], CodePrefix) == "1";
    var p0 := Start.(code := inbound[0], pos := 1);
    assert Prepare("js", "c1", "1", Smooth) == Ready(cmd);
    var e1 := Relay(inbound, 1, 1);
    assert e1 == RunEnd(2, None, [], false);
    var p1 := AfterRun(p0, cmd, e1, false);
    assert p1.execs == [cmd] && p1.code == inbound[0] && !p1.wait;
    var e2 := Relay(inbound, 2, 1);
    assert e2.disconnected && e2.pos == 2 && e2.newCode.None?;
    var p2 := AfterRun(p1, cmd, e2, false);
    assert p2.execs == [cmd, cmd];
    assert Loop("js", "c1", inbound, p2, [], false).final == p2;
    assert [Smooth, Smooth][1..] == [Smooth];
    assert Loop("js", "c1", inbound, p1, [Smooth], false).final == p2;
    assert Loop("js", "c1", inbound, p0, [Smooth, Smooth], false).final == p2;
    assert inbound[..1] == ["CODE:1"];
    assert CountCode(inbound) == CountCode(["CODE:1"]) + 0;
    assert ["CODE:1"][..0] == [];
  }

  /** As written, a client that disconnects while its program runs releases
      the container, and the session runs the code again and releases it a
      second time; the corrected session ends at the first disconnect. */
  lemma DisconnectReleasesTwice()
    ensures Session("js", "c1", ["CODE:1"], [Smooth, Smooth], false).final.releases == 2
    ensures Session("js", "c1", ["CODE:1"], [Smooth, Smooth], true).final.releases == 1
  {
    var inbound := ["CODE:1"];
    var cmd := ["node", "-e", "1"];
    assert HasPrefix(inbound[0], CodePrefix);
    assert TrimPrefix(inbound[0], CodePrefix) == "1";
    var p0 := Start.(code := inbound[0], pos := 1);
    assert Prepare("js", "c1", "1", Smooth) == Ready(cmd);
    var e := Relay(inbound, 1, 1);
    assert e == RunEnd(1, None, [], true);
    var p1 := AfterRun(p0, cmd, e, false);
    assert p1.releases == 1 && p1.code == inbound[0] && !p1.wait;
    var p2 := AfterRun(p1, cmd, e, false);
    assert p2.releases == 2;
    assert [Smooth, Smooth][1..] == [Smooth];
    assert Loop("js", "c1", inbound, p1, [Smooth], false).final == p2;
    assert Loop("js", "c1", inbound, p0, [Smooth, Smooth], false).final == p2;
    assert Loop("js", "c1", inbound, p0, [Smooth, Smooth], true).final == AfterRun(p0, cmd, e, true);
  }

  /** Runs so far, plus the one the current code still owes, fit within the
      `CODE:` messages read so far. */
  ghost predicate WithinCodeCount(inbound: seq<string>, p: Progress)
    requires p.pos <= |inbound|
  {
    |p.execs| + (if !p.wait && HasPrefix(p.code, CodePrefix) then 1 else 0) <= CountCode(inbound[..p.pos])
  }

  /** A corrected run spends the code it owes; what it reads next owes at most
      one run per `CODE:` message. */
  lemma RunKeepsCodeCount(inbound: seq<string>, p: Progress, cmd: seq<string>, e: RunEnd)
    requires p.pos <= e.pos <= |inbound|
    requires |p.execs| + 1 <= CountCode(inbound[..p.pos])
    requires e.newCode.Some? ==> p.pos < e.pos && e.newCode.value == inbound[e.pos - 1] && HasPrefix(e.newCode.value, CodePrefix)
    ensures WithinCodeCount(inbound, AfterRun(p, cmd, e, true))
  {
    if e.newCode.Some? {
      CountCodeGrows(inbound, p.pos, e.pos - 1);
      CountCodeStep(inbound, e.pos - 1);
    } else {
      CountCodeGrows(inbound, p.pos, e.pos);
    }
  }

  /** In the corrected loop every run answers its own `CODE:` message. */
  lemma CorrectedPassRunsPerCode(lang: string, containerID: string, inbound: seq<string>, p: Progress, a: Attempt)
    requires lang in LangImages && p.pos <= |inbound|
    requires WithinCodeCount(inbound, p)
    ensures var q := Reached(Pass(lang, containerID, inbound, p, a, true));
      q.pos <= |inbound| && WithinCodeCount(inbound, q)
  {
    if p.wait && p.pos == |inbound| {
      return;
    }
    var p1 := if p.wait then p.(code := inbound[p.pos], pos := p.pos + 1) else p;
    if p.wait {
      CountCodeStep(inbound, p.pos);
    }
    if !HasPrefix(p1.code, CodePrefix) {
      return;
    }
    assert |p1.execs| + 1 <= CountCode(inbound[..p1.pos]);
    match Prepare(lang, containerID, TrimPrefix(p1.code, CodePrefix), a)
    case NoHost =>
    case Failed(msg) =>
    case Ready(cmd) =>
      var e := Relay(inbound, p1.pos, a.alive);
      RelayBounds(inbound, p1.pos, a.alive);
      RunKeepsCodeCount(inbound, p1, cmd, e);
  }

  lemma {:induction false} CorrectedLoopRunsPerCode(lang: string, containerID: string, inbound: seq<string>, p: Progress,
                                                    attempts: seq<Attempt>)
    requires lang in LangImages && p.pos <= |inbound|
    requires WithinCodeCount(inbound, p)
    ensures var o := Loop(lang, containerID, inbound, p, attempts, true);
      o.final.pos <= |inbound| && WithinCodeCount(inbound, o.final)
    decreases |attempts|
  {
    if attempts != [] {
      CorrectedPassRunsPerCode(lang, containerID, inbound, p, attempts[0]);
      var s := Pass(lang, containerID, inbound, p, attempts[0], true);
      if s.Next? {
        CorrectedLoopRunsPerCode(lang, containerID, inbound, s.p, attempts[1..]);
      }
    }
  }

  /** The corrected session runs code no more often than the client sends it. */
  lemma CorrectedRunsPerCode(lang: string, containerID: string, inbound: seq<string>, attempts: seq<Attempt>)
    ensures |Session(lang, containerID, inbound, attempts, true).final.execs| <= CountCode(inbound)
  {
    if lang in LangImages && inbound != [] {
      var p := Start.(code := inbound[0], pos := 1);
      CountCodeStep(inbound, 0);
      assert inbound[..0] == [];
      CorrectedLoopRunsPerCode(lang, containerID, inbound, p, attempts);
      var o := Loop(lang, containerID, inbound, p, attempts, true);
      CountCodeGrows(inbound, o.final.pos, |inbound|);
      assert inbound[..|inbound|] == inbound;
    }
  }

  /** The corrected loop releases the container at most once, and only as it ends. */
  lemma CorrectedPassReleasesOnce(lang: string, containerID: string, inbound: seq<string>, p: Progress, a: Attempt)
    requires lang in LangImages && p.pos <= |inbound| && p.releases == 0
    ensures var s := Pass(lang, containerID, inbound, p, a, true);
      (s.Next? ==> s.p.releases == 0) && (s.Done? ==> s.o.final.releases <= 1)
  {
  }

  lemma {:induction false} CorrectedLoopReleasesOnce(lang: string, containerID: string, inbound: seq<string>, p: Progress,
                                                     attempts: seq<Attempt>)
    requires lang in LangImages && p.pos <= |inbound| && p.releases == 0
    ensures Loop(lang, containerID, inbound, p, attempts, true).final.releases <= 1
    decreases |attempts|
  {
    if attempts != [] {
      CorrectedPassReleasesOnce(lang, containerID, inbound, p, attempts[0]);
      var s := Pass(lang, containerID, inbound, p, attempts[0], true);
      if s.Next? {
        CorrectedLoopReleasesOnce(lang, containerID, inbound, s.p, attempts[1..]);
      }
    }
  }

  lemma CorrectedReleasesOnce(lang: string, containerID: string, inbound: seq<string>, attempts: seq<Attempt>)
    ensures Session(lang, containerID, inbound, attempts, true).final.releases <= 1
  {
    if lang in LangImages && inbound != [] {
      CorrectedLoopReleasesOnce(lang, containerID, inbound, Start.(code := inbound[0], pos := 1), attempts);
    }
  }

  // ---------------------------------------------------------------------------
  // Where the host compiler writes, and what the session runs
  // ---------------------------------------------------------------------------

  /** A source file name is a single path element that ends in the source extension. */
  lemma FileNameIsElement(lang: string, containerID: string, nanos: nat)
    requires SourceExtension(lang).Some? && '/' !in containerID
    ensures var name := FileName(lang, containerID, nanos).value;
      name != [] && '/' !in name && HasSuffix(name, SourceExtension(lang).value)
  {
    var ext := SourceExtension(lang).value;
    var digits := NatToString(nanos);
    assert '/' !in digits;
    var name := FileName(lang, containerID, nanos).value;
    assert name == (containerID + "-" + digits + "-code") + ext;
    SuffixOfConcat(containerID + "-" + digits + "-code", ext);
  }

  /** A compiled language's session writes the source under its file name and
      goes on to the compiled path. */
  lemma PrepareCompiled(lang: string, containerID: string, source: string, a: Attempt)
    requires lang in LangImages && LangImages[lang].isCompiled
    ensures FileName(lang, containerID, a.nanos).Some?
    ensures Prepare(lang, containerID, source, a) == CompileAndLaunch(lang, FileName(lang, containerID, a.nanos).value, a)
  {
    CompiledIffHostCommand(lang, "", containerID, a.nanos);
  }

  /** For c and cpp, a launched compiled file runs as the whole command. */
  lemma NativeCommand(lang: string, name: string, a: Attempt)
    requires lang == "c" || lang == "cpp"
    requires HasSuffix(name, SourceExtension(lang).value)
    ensures var r := CompileAndLaunch(lang, name, a);
      r.Ready? ==> r.cmd == [ContainerCompiledFiles + "/" + CompiledName(lang, name)]
  {
  }

  /** The output path of the c and cpp host commands. */
  lemma NativeHostOutput(lang: string, file: string, nanos: nat)
    requires lang == "c" || lang == "cpp"
    ensures RunOnHost(lang, file, nanos).value[3]
      == CompiledFiles + "/" + TrimSuffix(Base(file), SourceExtension(lang).value) + ".out"
  {
  }

  /** For c and cpp, the compiled name of a source file is its stem with `.out`. */
  lemma NativeCompiledName(lang: string, name: string)
    requires lang == "c" || lang == "cpp"
    requires HasSuffix(name, SourceExtension(lang).value)
    ensures CompiledName(lang, name) == TrimSuffix(name, SourceExtension(lang).value) + ".out"
  {
    CompiledNameSwapsExtension(lang, name);
  }

  /** For c and cpp and a source file `name`, the binary run is the output path
      of the host command. */
  lemma NativeLaunch(lang: string, name: string, a: Attempt)
    requires lang == "c" || lang == "cpp"
    requires '/' !in name && HasSuffix(name, SourceExtension(lang).value)
    ensures var r := CompileAndLaunch(lang, name, a);
      r.Ready? ==> r.cmd == [RunOnHost(lang, CodeFilesDir + "/" + name, a.hostNanos).value[3]]
  {
    NativeCommand(lang, name, a);
    NativeHostOutput(lang, CodeFilesDir + "/" + name, a.hostNanos);
    BaseOfJoin(CodeFilesDir, name);
    NativeCompiledName(lang, name);
    JoinCompiled(TrimSuffix(name, SourceExtension(lang).value));
  }

  lemma JoinCompiled(stem: string)
    ensures CompiledFiles + "/" + stem + ".out" == ContainerCompiledFiles + "/" + (stem + ".out")
  {
  }

  /** For c and cpp, the binary the session runs is the one the host compiler
      was told to write. */
  lemma NativeRunsHostOutput(lang: string, containerID: string, source: string, a: Attempt)
    requires lang == "c" || lang == "cpp"
    requires '/' !in containerID
    ensures var name := FileName(lang, containerID, a.nanos).value;
      var host := RunOnHost(lang, CodeFilesDir + "/" + name, a.hostNanos).value;
      var r := Prepare(lang, containerID, source, a);
      r.Ready? ==> r.cmd == [host[3]]
  {
    PrepareCompiled(lang, containerID, source, a);
    FileNameIsElement(lang, containerID, a.nanos);
    NativeLaunch(lang, FileName(lang, containerID, a.nanos).value, a);
  }

  /** For TypeScript and a source file `name`, the script run is `<stem>.js` in
      the directory given to `tsc -outDir`. */
  lemma TypeScriptLaunch(name: string, a: Attempt)
    requires '/' !in name && HasSuffix(name, ".ts")
    ensures var file := CodeFilesDir + "/" + name;
      var r := CompileAndLaunch("ts", name, a);
      RunOnHost("ts", file, a.hostNanos).value == ["tsc", file, "-outDir", CompiledFiles]
      && (r.Ready? ==> r.cmd == ["node", CompiledFiles + "/" + TrimSuffix(Base(file), ".ts") + ".js"])
  {
    var stem := TrimSuffix(name, ".ts");
    BaseOfJoin(CodeFilesDir, name);
    CompiledNameSwapsExtension("ts", name);
    assert ContainerCompiledFiles + "/" + (stem + ".js") == CompiledFiles + "/" + stem + ".js";
  }

  /** For TypeScript, the session runs `<stem>.js` in the directory given to
      `tsc -outDir`, which is where `tsc` writes the output of `<stem>.ts`. */
  lemma TypeScriptRunsCompilerOutput(containerID: string, source: string, a: Attempt)
    requires '/' !in containerID
    ensures var file := CodeFilesDir + "/" + FileName("ts", containerID, a.nanos).value;
      var r := Prepare("ts", containerID, source, a);
      RunOnHost("ts", file, a.hostNanos).value == ["tsc", file, "-outDir", CompiledFiles]
      && (r.Ready? ==> r.cmd == ["node", CompiledFiles + "/" + TrimSuffix(Base(file), ".ts") + ".js"])
  {
    PrepareCompiled("ts", containerID, source, a);
    FileNameIsElement("ts", containerID, a.nanos);
    TypeScriptLaunch(FileName("ts", containerID, a.nanos).value, a);
  }

  /** For java and a source file `name`, the class path run is a `.class` file
      path, which ends in `s`, while `javac -d` names a directory ending in a
      digit. */
  lemma JavaLaunch(name: string, a: Attempt)
    requires HasSuffix(name, ".java")
    ensures var file := CodeFilesDir + "/" + name;
      var r := CompileAndLaunch("java", name, a);
      r.Ready? ==>
        && r.cmd[2] == ContainerCompiledFiles + "/" + TrimSuffix(name, ".java") + ".class"
        && r.cmd[2] != JavaOutputDir(file, a.hostNanos)
        && RunOnHost("java", file, a.hostNanos).value[2] == JavaOutputDir(file, a.hostNanos)
  {
    var file := CodeFilesDir + "/" + name;
    CompiledNameSwapsExtension("java", name);
    var path := ContainerCompiledFiles + "/" + TrimSuffix(name, ".java") + ".class";
    var dir := JavaOutputDir(file, a.hostNanos);
    var count := NatToString(|file|);
    assert dir[|dir| - 1] == count[|count| - 1];
    assert IsDigit(dir[|dir| - 1]);
    assert path[|path| - 1] == 's';
  }

  /** For java, the class path the session hands to `java` is a `.class` file
      path, not the directory `javac -d` wrote to: the one ends in `s`, the
      other in a digit. */
  lemma JavaClassPathIsNotOutputDir(containerID: string, source: string, a: Attempt)
    requires '/' !in containerID
    ensures var name := FileName("java", containerID, a.nanos).value;
      var file := CodeFilesDir + "/" + name;
      var r := Prepare("java", containerID, source, a);
      r.Ready? ==>
        && r.cmd[2] == ContainerCompiledFiles + "/" + TrimSuffix(name, ".java") + ".class"
        && r.cmd[2] != JavaOutputDir(file, a.hostNanos)
        && RunOnHost("java", file, a.hostNanos).value[2] == JavaOutputDir(file, a.hostNanos)
  {
    PrepareCompiled("java", containerID, source, a);
    FileNameIsElement("java", containerID, a.nanos);
    JavaLaunch(FileName("java", containerID, a.nanos).value, a);
  }
}
