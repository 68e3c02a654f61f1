# online_ide: a Dafny model of the execution backend and its client protocol

online_ide runs user code in Docker containers and streams the program over a
WebSocket. This project models the core of that system in Dafny and proves
properties of the model. The core has five parts:

- **Placement pool** (`Pool`, from `balancer.go` and `initialize.go`).
  `DockerManager` keeps, per language, a map of *reusable* containers (fewer
  than `MAX_USERS` sessions) and a map of *filled* ones. It also keeps a
  running count per language and a resource record per container.
  - `FindContainer` places a session on the least-loaded reusable container,
    or creates a container.
  - `DecreaseUser` ends a session.
  - `CreateContainer` and `RemoveContainer` do the bookkeeping around the
    engine.
  - The model is a class with those four maps as fields. The invariant its
    methods keep is `Pool.Inv`: ids are unique across buckets, counts are in
    range, running counts match bucket sizes, and records are within the
    language's bounds.
- **Resource monitor** (`Autoscale` and `Pool.DockerManager.CheckAndUpdateResources`,
  from `docguard.go`). For each container it has a reading for, it grows or
  shrinks memory and CPU by the language's increment, clamped to the
  language's bounds.
- **Language registry** (`LangConfig`, from `langConfig.go`). This is the
  `LangImages` table and its command builders. Values the builders read from
  the clock or the file system are parameters.
- **Session loop** (`Session`, from `executeCode.go`).
  - `RunLiveCode` is an imperative loop. It is proved equal to the pure
    `Session.Session`.
  - The engine, the host compiler and the file system enter as one `Attempt`
    record per pass.
  - The client's messages are a finite sequence. Reading past its end is the
    read error of a closed connection.
- **Browser client** (`Client`, from `App.jsx`):
  - the server-message classifier;
  - the guards on sending code and input;
  - the run timer's `mm:ss` display;
  - the component state the handlers update.

Go's maps are Dafny maps. A read of a missing key gives Go's zero value
(`Pool.Bucket`, `Pool.Running`, `Pool.OptionsOf`). Integers are unbounded; no
value in the model comes near the 64-bit range. Stats percentages are `real`.
Strings are sequences of characters, where Go slices bytes and JavaScript
slices UTF-16 units. Every prefix, extension and language name involved
(`CODE:`, `error: `, `.ts`, `cpp`) is ASCII, so the cuts fall in the same
places.

## Model

| member | source | states |
|---|---|---|
| Pool.DockerManager.constructor | sever/compiler/initialize.go:60-68 | a new manager has four empty maps, and the pool invariant holds |
| Pool.DockerManager.CreateContainer | sever/compiler/initialize.go:71-154 | An unsupported language is refused before the engine is asked, with no request. Otherwise the request is the language's full create request, whatever the engine answers. A create or start failure leaves the state unchanged. On success, the running count goes up by one and both buckets exist. The record is the language's minimum, and it equals the limits sent with the request. |
| Pool.CreateRequestFor | sever/compiler/initialize.go:82-129 | A create request carries the language's image and the limits an update to its minimum would carry (memory, twice the memory as swap, the period, the CPU quota). It also carries 100 processes, nproc and nofile limits of 50 soft and 100 hard, a read-only root, all capabilities dropped and no new privileges. |
| Pool.CreateOutcome | sever/compiler/initialize.go:73-76 | a create succeeds exactly when the language is in the table and the engine started the container |
| Pool.DockerManager.RemoveContainer | sever/compiler/initialize.go:156-181 | The running count goes down, and a count that reaches 0 is deleted. The id leaves both buckets and the records. The bookkeeping happens whatever the engine answers, and the error is reported exactly when removal failed. |
| Pool.DockerManager.FindContainer | sever/compiler/balancer.go:8-63 | With no reusable container below `MAX_USERS`, it creates one and records it with one user. Otherwise it takes a least-loaded reusable container: it is moved to filled when it reaches `MAX_USERS`, and incremented otherwise. The pool invariant is kept when the engine's id is fresh. |
| Pool.LeastLoadedSearch | sever/compiler/balancer.go:12-20 | the scan returns "" exactly for an empty bucket, else an id with the fewest users |
| Pool.DockerManager.DecreaseUser | sever/compiler/balancer.go:65-95 | A reusable container loses one user, and its last user removes it. A filled container goes back to reusable with `MAX_USERS`-1 users. An unknown id changes nothing. The removal error is reported exactly when the last user left and the engine failed. The invariant is kept. |
| Pool.FindLang | sever/compiler/balancer.go:69-70 | the scan over languages finds the bucket holding the id, or shows that none does |
| Pool.EmptyInv | sever/compiler/initialize.go:60-68 | the empty pool satisfies the invariant |
| Pool.AcquiredKeepsInv | sever/compiler/balancer.go:22-31 | creating and recording a container with a fresh id keeps the invariant |
| Pool.ReusedKeepsInv | sever/compiler/balancer.go:45-58 | reusing a reusable container keeps the invariant |
| Pool.ReleasedKeepsInv | sever/compiler/balancer.go:65-95 | releasing any id keeps the invariant |
| Pool.ReusedAddsOneUser | sever/compiler/balancer.go:45-58 | reuse adds exactly one user to the chosen container and changes no other count |
| Pool.ReuseReleaseRoundTrip | sever/compiler/balancer.go:45-95 | releasing the container a session was just placed on restores the pool exactly |
| Pool.AcquireReleaseRoundTrip | sever/compiler/balancer.go:22-31 | Releasing a just-created container restores every bucket, the running counts and the records. The maps are equal outright when the language already had buckets. |
| Pool.DockerManager.CheckAndUpdateResources | sever/compiler/docguard.go:27-128 | An update is sent for exactly the containers with a reading, a language and a rule that fires. Buckets and counts are unchanged. A record changes exactly when its update is accepted, and then it equals the limits sent. The invariant is kept. |
| Pool.RescaleAll | sever/compiler/docguard.go:51-126 | The pass over the snapshot decides each container once. It sends an update for exactly the containers whose decision fired, and only for known ids. The records it returns are the monitor function's, and each accepted update describes the record it stored. |
| Pool.DecideOne | sever/compiler/docguard.go:51-107 | the per-container decision: none without a reading or a language, found in reusable first and then in filled, else the scaling rule |
| Pool.Rescaled | sever/compiler/docguard.go:109-124 | the monitor changes only records, and keeps the set of ids that have one |
| Pool.RescaledKeepsInv | sever/compiler/docguard.go:109-124 | the monitor keeps the invariant, with every record inside its language's bounds |
| Pool.NewRecordInBounds | sever/compiler/docguard.go:91-107 | a new record of a container of language `l` is within `l`'s bounds |
| Pool.ReusableLang | sever/compiler/docguard.go:64-70 | the monitor's lookup finds the language of a reusable container |
| Pool.FilledLang | sever/compiler/docguard.go:71-79 | the monitor's lookup finds the language of a filled container |
| Autoscale.Step | sever/compiler/docguard.go:91-107 | A dimension changes exactly when usage is above 90% and it is below the maximum, or below 30% and above the minimum. The new value is the current one plus the increment, or the maximum when that would pass it. When shrinking, it is the current one minus the increment, or the minimum when that would pass it. A positive increment makes the new value strictly above (growth) or below (shrink) the current one, and within the bounds. |
| Autoscale.ScaleAsWritten | sever/compiler/docguard.go:87-119 | as the monitor computes it: none when no rule fires, and a dimension whose rule did not fire is 0 |
| Autoscale.Scale | sever/compiler/docguard.go:87-119 | corrected: a dimension whose rule did not fire keeps its value |
| Autoscale.ScaleAgreesWhereRulesFire | sever/compiler/docguard.go:91-109 | the two decisions fire together and agree on every dimension that fired |
| Autoscale.ScaleKeepsBounds | sever/compiler/docguard.go:91-107 | the corrected decision keeps a record within the language's bounds |
| Autoscale.ScaleAsWrittenDropsMemory | sever/compiler/docguard.go:87-122 | a js container at its minimum with readings of 50% memory and 95% CPU is given memory 0, outside its bounds |
| Autoscale.ScaleAsWrittenShrinksOnGrowth | sever/compiler/docguard.go:92-93 | from the recorded 0, a high memory reading "grows" memory to one increment, below the language's minimum |
| Autoscale.UpdateLimits | sever/compiler/docguard.go:157-169 | an update carries the memory, twice the memory as swap, the 100000 period and a quota of half a core per CPU step |
| LangConfig.TableWellFormed | sever/compiler/langConfig.go:14-264 | each language's bounds are ordered and positive, and its increments are positive |
| LangConfig.FileName | sever/compiler/langConfig.go:62 | a compiled language's file name starts with the container id and a dash and ends in `-code` plus the source extension; other languages have none |
| LangConfig.CompiledIffHostCommand | sever/compiler/langConfig.go:14-264 | a language is compiled exactly when it has a host command, and exactly when it has a file name |
| LangConfig.RunOnHost | sever/compiler/langConfig.go:61 | exactly ts, c, cpp and java have a host command (`langConfig.go:150, 177, 215`) |
| LangConfig.FirstClassIsEarliest | sever/compiler/langConfig.go:200-204 | java's class is the earliest `.class` entry of the listing, without the suffix |
| LangConfig.FirstClassWithoutClassFiles | sever/compiler/langConfig.go:205 | with no `.class` entry the class is `Main` |
| LangConfig.JavaExecCmd | sever/compiler/langConfig.go:195-206 | the scan of the directory listing yields `java -cp <dir> <class>` with that class, and `Main` when the listing failed |
| LangConfig.ExecCmdCarriesArgument | sever/compiler/langConfig.go:18 | Every command hands its argument to the program it starts: last (for java, next to last). The exception is php after a successful write, which runs the written file (`langConfig.go:241-249`). |
| Session.CompiledNameSwapsExtension | sever/compiler/executeCode.go:96-107 | the characters the session cuts off are exactly the source extension, replaced by the compiler's output extension |
| Session.Relay | sever/compiler/executeCode.go:175-205 | a run reads forward only and never past the client's messages; what it forwards and how it ends are stated by `Session.RelayExact` |
| Session.RelayInput | sever/compiler/executeCode.go:176-204 | the reader loop computes the relay |
| Session.RelayBounds | sever/compiler/executeCode.go:181-202 | It forwards at most `alive` lines. It ends on a disconnect only at the end of the messages. A new code is the last message read and carries `CODE:`. |
| Session.RelayForwardsInput | sever/compiler/executeCode.go:202 | every forwarded line is a client message that is neither code nor `STOP`, followed by a newline |
| Session.Lines | sever/compiler/executeCode.go:202 | each message becomes one line: the message followed by a newline, in order |
| Session.RelayExact | sever/compiler/executeCode.go:176-204 | The run forwards exactly the messages it reads before the one that ends it, each with a newline, in order, and at most one line per message read. It ends in one of three ways. After `alive` lines it stops without reading more. At the end of the messages it is a disconnect. Otherwise it reads one more message, which is code or `STOP`; that message is the new code exactly when it carries `CODE:`. |
| Session.RelayForwardsInOrder | sever/compiler/executeCode.go:202 | line `i` of the program's input is message `pos + i` plus a newline, and that message is neither code nor `STOP` |
| Session.PrepareHasHost | sever/compiler/executeCode.go:65-131 | no supported language ends the session for lack of a host command, and every failure message starts with `error: ` |
| Session.PrepareExec | sever/compiler/executeCode.go:49-131 | the imperative exec set-up (write, host compile, create, attach) computes `Prepare` on every path |
| Session.RunLiveCode | sever/compiler/executeCode.go:18-210 | the imperative session loop computes the session function exactly, on every path |
| Session.RunPass | sever/compiler/executeCode.go:34-207 | one imperative pass of the loop computes the pass function exactly |
| Session.Pass | sever/compiler/executeCode.go:34-207 | a pass that goes on has read forward only and not past the client's messages; its cases are stated by the lemmas below |
| Session.FirstFailure | sever/compiler/executeCode.go:65-131 | the first failing step of the set-up, in the order the session takes them: the write and the host compile (compiled languages only), then the exec creation, then the attach |
| Session.PrepareReportsFirstFailure | sever/compiler/executeCode.go:65-131 | The set-up fails exactly when one of its steps fails, and then its message is `error: ` plus the first failure. The host compile's failure is reported with the compiler's own text. |
| Session.PassEndsOnNonCode | sever/compiler/executeCode.go:44-45 | A pass ends with `NotCode` exactly when the message it holds lacks `CODE:`. It then has sent, run, forwarded and released nothing. |
| Session.PassReportsFailure | sever/compiler/executeCode.go:68-131 | When the set-up of a held `CODE:` message fails, nothing is run, forwarded or released. If the send succeeds, exactly one `error: ` message is sent and the loop waits for the next message. If it fails, the session ends with `SendFailed`. |
| Session.PassKeepsCode | sever/compiler/executeCode.go:133-199 | as written, a pass that runs a program and goes on holds a `CODE:` message without waiting: the one it ran, or the new code the run read last |
| Session.PassRunsHeldCode | sever/compiler/executeCode.go:34-55 | a pass that holds a `CODE:` message without waiting runs the prepared command without reading a message first |
| Session.SessionUnsupported | sever/compiler/executeCode.go:20-23 | a session ends as unsupported exactly when the language is not in the table, having done nothing; it never ends for a missing host command |
| Session.LoopExits | sever/compiler/executeCode.go:34-210 | the loop only reads forward and only appends to what it has sent, run and forwarded |
| Session.SessionSendsErrors | sever/compiler/executeCode.go:68-131 | every message the session sends the client is an `error: ` report |
| Session.SessionForwardsInput | sever/compiler/executeCode.go:202 | every line written to a program's input is a client message that is neither code nor `STOP`, plus a newline |
| Session.SessionRunsClientCode | sever/compiler/executeCode.go:44-55 | for js, py and py-ml, every command run ends with the source text of one of the client's `CODE:` messages |
| Session.StopRerunsCode | sever/compiler/executeCode.go:133-199 | as written, `CODE:1` followed by `STOP` runs the same program twice |
| Session.DisconnectReleasesTwice | sever/compiler/executeCode.go:183-186 | as written, a disconnect during a run releases the container, the loop runs the code again and releases it again; the corrected loop releases once |
| Session.CorrectedRunsPerCode | sever/compiler/executeCode.go:35-42 | the corrected session runs no more programs than the client sent `CODE:` messages |
| Session.CorrectedReleasesOnce | sever/compiler/executeCode.go:183-186 | the corrected session calls `DecreaseUser` at most once |
| Session.NativeRunsHostOutput | sever/compiler/executeCode.go:99-109 | for c and cpp, the binary run in the container is the path the host compiler was told to write (`langConfig.go:150-155, 177-182`) |
| Session.TypeScriptRunsCompilerOutput | sever/compiler/executeCode.go:96-98 | For TypeScript, the host runs `tsc <file> -outDir <compiled dir>`, and the session runs `node` on `<stem>.js` in that directory. That is where `tsc` writes (`langConfig.go:61`). |
| Session.JavaClassPathIsNotOutputDir | sever/compiler/executeCode.go:105-109 | For java, the class path handed to `java` is a `.class` file path. It is not the directory `javac -d` wrote to (`langConfig.go:215-220`): one ends in `s`, the other in a digit. |
| Client.Classify | client/src/App.jsx:72-91 | Messages are tested in order: a `container_id:` prefix first (the id is the rest), then an `error:` prefix, then exactly `EXEC_TERMINATED` and `EXEC_TIMEOUT`. Anything else is output. Each case holds exactly when the earlier ones do not. |
| Client.RenderClassify | client/src/App.jsx:72-91 | every message is the rendering of its class |
| Client.ClassifyRender | client/src/App.jsx:72-91 | every sendable message is classified as what it is |
| Client.SessionErrorsEndRun | client/src/App.jsx:77-80 | every `error: ` report of the session is shown as an error and stops the run |
| Client.Notice | client/src/App.jsx:72-91 | errors and timeouts are shown as errors, everything else as output |
| Client.CodeRequest | client/src/App.jsx:106-120 | code is sent exactly when the socket is open and the code is not blank after `trim` |
| Client.CodeRequestRoundTrip | client/src/App.jsx:119 | the code sent passes the session's `CODE:` test, and stripping the prefix gives back the editor's code |
| Client.InputRequest | client/src/App.jsx:145-155 | Input is sent exactly when the socket is open and the input is not blank. Blank input is dropped without a notice. What is sent is the input plus a newline. |
| Client.InputAtSession | client/src/App.jsx:154 | Sent input is never `STOP` to the session. A program receives it with a second newline. Input starting with `CODE:` replaces the program. |
| Client.FormatTimeRoundTrip | client/src/App.jsx:172-176 | the display is `mm:ss` with a two-digit seconds field from 00 to 59, and it reads back as the elapsed seconds |
| Client.Terminal.constructor | client/src/App.jsx:14-23 | the component starts with no messages, no container, a closed socket and no run |
| Client.Terminal.OnOpen | client/src/App.jsx:64-67 | the socket is open and a notice is shown |
| Client.Terminal.OnClose | client/src/App.jsx:99-102 | the run and the timer stop and the closed connection is shown |
| Client.Terminal.OnMessage | client/src/App.jsx:69-92 | The handler adds the message's notice and records a container id. It stops the run and the timer after an error or either end-of-run notice, and touches nothing else. |
| Client.Terminal.ExecuteCode | client/src/App.jsx:106-133 | When the guard passes, it starts a run: count plus one, timer reset and running, input cleared, `CODE:` plus the code sent. Otherwise it only shows the refusal. |
| Client.Terminal.SendInput | client/src/App.jsx:145-156 | It sends the line and clears the box, shows a refusal when the socket is closed, and does nothing for blank input. |
| Strings.NatToString | sever/compiler/langConfig.go:62 | the decimal numeral of a number: digits only, with no leading zero |
| Strings.DecimalRoundTrip | sever/compiler/langConfig.go:217 | reading a printed numeral back gives the number |
| Strings.BaseOfJoin | sever/compiler/langConfig.go:151 | the base name of `dir/name` is `name` for a single path element |
| Strings.TrimEmptyIffBlank | client/src/App.jsx:112 | `trim()` gives the empty string exactly when every character is whitespace |
| Strings.PadStart | client/src/App.jsx:175 | padding fills the front with the pad character up to the width and keeps the string as its tail |

## Left out

- Docker engine calls are parameters: image pulls, volumes, create/start/remove/update/stats/exec/attach/inspect. The pool gets a `CreateReply` or a removal flag. The monitor gets a map of readings and a set of refused updates. The session gets one `Attempt` per pass.
- Concurrency is not modelled. This covers the mutex, the monitor's ticker, and the session's goroutines: the output scanner, the inspect ticker, the five-minute timeout and the context cancellation. Each manager method is atomic. The `EXEC_TERMINATED`/`EXEC_TIMEOUT` notices and program output are not modelled on the server side. The end of a program is the `alive` bound on the messages the relay reads.
- Pool.DockerManager.CheckAndUpdateResources: it works on one atomic snapshot. The source copies the outer maps only and releases the lock while it works, so concurrent placements can change what it sees.
- Pool.DockerManager.FindContainer: it asks for an engine id that is non-empty and fresh to keep the invariant, which the engine guarantees and the model cannot see. It uses "" as "no container found", as the source does.
- Pool.DockerManager.DecreaseUser: it looks up the language holding the id and then acts once. The source scans every language of both maps. Given the invariant, at most one bucket holds the id, so the two agree; it asks for uniqueness rather than the whole invariant.
- Pool.DockerManager.CheckAndUpdateResources uses the corrected `Autoscale.Scale`. The as-written rule is `Autoscale.ScaleAsWritten` (see Findings).
- The language table records each language's image and idle thresholds. Only the image is used, in the create request. The idle thresholds are used only by `cleanup.go`, which is not part of this model.
- The table's mounts and environment variables are not modelled, and neither are the create request's terminal and attach flags or its `always` restart policy. They are handed to the engine unchanged and do not affect the pool.
- The timestamps and files of php's and java's builders are parameters: php's written file and java's directory listing.
- Session.RunLiveCode: the loop is bounded by the finite `attempts` sequence, because the source loop need not end. A close frame is the end of `inbound`.
- `sever/main.go` is not part of this model. It wires the WebSocket, announces the container in its own words, and defers a second `DecreaseUser` across concurrent paths.
- The client's rendering, hooks, interval timer ticks and `connectWebSocket` reset are not modelled. `onerror` is not modelled either; it behaves like `OnClose` with another notice.
- Java: the model proves that the class path given to `java` is not `javac`'s output directory (`Session.JavaClassPathIsNotOutputDir`). It does not define a corrected java path, because the evident repair (which directory, which class) is not determined by the code.

## Findings

| source | as written | input that shows it | evidently intended | confidence | as-written member | corrected member |
|---|---|---|---|---|---|---|
| sever/compiler/docguard.go:87-119 | a dimension whose rule did not fire is sent and stored as 0 | js container at 128 MiB and 1 CPU, readings 50% memory and 95% CPU: memory becomes 0 | a dimension that did not change keeps its current value | high, not executed | Autoscale.ScaleAsWrittenDropsMemory | Autoscale.ScaleKeepsBounds |
| sever/compiler/executeCode.go:133-199 | after a run ends without a new `CODE:` message (STOP, program end), the loop runs the same code again without reading | inbound `["CODE:1", "STOP"]`: `node -e 1` runs twice | wait for the client's next message | high, not executed | Session.StopRerunsCode | Session.CorrectedRunsPerCode |
| sever/compiler/executeCode.go:183-186 | a disconnect during a run calls `DecreaseUser` and the loop goes on, runs the code again and releases again | inbound `["CODE:1"]`, client gone during the first run: two releases | end the session after the disconnect | high, not executed | Session.DisconnectReleasesTwice | Session.CorrectedReleasesOnce |
