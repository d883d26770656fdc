/** The scripted session driver: one prompt per turn, each after the last turn's
    result, ended by a clean exit or by a kill. */
module ClaudeTurns {

  // ----- the process as the driver sees it -----

  datatype Block = Text | ToolUse | OtherBlock

  /** A line of output: not JSON, an assistant message, a result, or anything else. */
  datatype Frame = Garbage | Assistant(content: seq<Block>) | Result(isError: bool) | OtherFrame

  /** What a receive finds next: a line, or the timer firing first. */
  datatype Arrival = Line(frame: Frame) | Deadline

  /** After the last arrival: the output ends, with or without a read error, or
      the process stays silent until the timer fires. */
  datatype Ending = Eof(readError: bool) | Silence

  datatype Env = Env(
    startOk: bool,
    writeOk: nat -> bool,      // writing the prompt of a turn
    arrivals: seq<Arrival>,
    ending: Ending,
    closeOk: bool,             // closing stdin
    exitsInTime: bool,         // the reader's end reaches the driver before the timer
    exitOk: bool)              // Wait reports no error

  /** Block k of the frame's content calls a tool. */
  predicate ToolCall(f: Frame, k: nat) {
    f.Assistant? && k < |f.content| && f.content[k] == ToolUse
  }

  /** An assistant message with a tool call anywhere in its content. */
  ghost predicate CallsTool(f: Frame) {
    exists k: nat :: ToolCall(f, k)
  }

  lemma CallsToolAt(f: Frame)
    requires f.Assistant?
    ensures CallsTool(f) <==> exists k :: 0 <= k < |f.content| && f.content[k] == ToolUse
  {
    if k :| 0 <= k < |f.content| && f.content[k] == ToolUse {
      assert ToolCall(f, k);
    }
  }

  method HasToolUse(content: seq<Block>) returns (found: bool)
    ensures found <==> exists k :: 0 <= k < |content| && content[k] == ToolUse
  {
    for k := 0 to |content|
      invariant forall j :: 0 <= j < k ==> content[j] != ToolUse
    {
      if content[k] == ToolUse {
        return true;
      }
    }
    return false;
  }

  // ----- what the driver does -----

  datatype Act =
    | Started | Wrote(turn: nat) | Took(frame: Frame) | ClosedStdin | KilledAndReaped | Waited

  datatype Reason =
    | NoTurns | StartError | WriteError | OutputClosed | ErrorResult | NoResult | NoToolCall
    | CloseError | ReadError | NoExit | ExitError

  datatype Outcome = Done | Interrupted | Failed(reason: Reason)

  function Prompts(t: seq<Act>): nat {
    if t == [] then 0 else Prompts(t[..|t| - 1]) + (if t[|t| - 1].Wrote? then 1 else 0)
  }

  /** The results without an error consumed so far. */
  function Results(t: seq<Act>): nat {
    if t == [] then 0 else Results(t[..|t| - 1]) + (if t[|t| - 1] == Took(Result(false)) then 1 else 0)
  }

  predicate Ends(a: Act) {
    a.KilledAndReaped? || a.Waited?
  }

  /** Before the prompt of turn i, exactly i prompts were written and i error-free
      results consumed, the last of them just now. */
  ghost predicate Ordered(t: seq<Act>) {
    forall k :: 0 <= k < |t| && t[k].Wrote? ==>
      && Prompts(t[..k]) == t[k].turn && Results(t[..k]) == t[k].turn
      && (t[k].turn > 0 ==> t[k - 1] == Took(Result(false)))
  }

  /** The trace of a started process that nothing has ended yet. */
  ghost predicate Running(t: seq<Act>) {
    t != [] && t[0] == Started && Ordered(t) && forall k :: 0 <= k < |t| ==> !Ends(t[k])
  }

  /** The trace of a started process: exactly its last action ends it. */
  ghost predicate Ended(t: seq<Act>) {
    t != [] && Running(t[..|t| - 1]) && Ends(t[|t| - 1])
  }

  // ----- awaiting one turn -----

  datatype Awaited = GotResult | GotToolUse | Broke(reason: Reason)

  /** A line that ends no turn. */
  ghost predicate Quiet(a: Arrival, stop: bool) {
    a.Line? && !a.frame.Result? && !(stop && CallsTool(a.frame))
  }

  /** The arrivals from a up to b end no turn. */
  ghost predicate AllQuiet(env: Env, a: nat, b: nat, stop: bool) {
    a <= b <= |env.arrivals| && forall k :: a <= k < b ==> Quiet(env.arrivals[k], stop)
  }

  /** took are the frames of the arrivals from a up to b. */
  ghost predicate TookAll(env: Env, a: nat, b: nat, took: seq<Act>) {
    && a <= b <= |env.arrivals| && |took| == b - a
    && forall k :: 0 <= k < |took| ==> env.arrivals[a + k].Line? && took[k] == Took(env.arrivals[a + k].frame)
  }

  /** What awaiting from pos finds: quiet lines, then the line or event that
      decides. */
  ghost predicate AwaitOk(env: Env, pos: nat, stop: bool, next: nat, took: seq<Act>, r: Awaited) {
    && pos <= next <= |env.arrivals|
    && match r
       case GotResult => Decided(env, pos, stop, next, took) && env.arrivals[next - 1] == Line(Result(false))
       case GotToolUse => Decided(env, pos, stop, next, took) && stop && CallsTool(env.arrivals[next - 1].frame)
       case Broke(ErrorResult) => Decided(env, pos, stop, next, took) && env.arrivals[next - 1] == Line(Result(true))
       case Broke(NoResult) =>
         && AllQuiet(env, pos, next, stop) && TookAll(env, pos, next, took)
         && (if next < |env.arrivals| then env.arrivals[next] == Deadline else env.ending == Silence)
       case Broke(OutputClosed) =>
         && AllQuiet(env, pos, next, stop) && TookAll(env, pos, next, took)
         && next == |env.arrivals| && env.ending.Eof?
       case _ => false
  }

  ghost predicate Decided(env: Env, pos: nat, stop: bool, next: nat, took: seq<Act>) {
    && pos < next <= |env.arrivals| && AllQuiet(env, pos, next - 1, stop) && env.arrivals[next - 1].Line?
    && TookAll(env, pos, next, took)
  }

  method Await(env: Env, pos: nat, stop: bool) returns (next: nat, took: seq<Act>, r: Awaited)
    requires pos <= |env.arrivals|
    ensures AwaitOk(env, pos, stop, next, took, r)
  {
    next, took := pos, [];
    while next < |env.arrivals|
      invariant pos <= next <= |env.arrivals| && AllQuiet(env, pos, next, stop)
      invariant TookAll(env, pos, next, took)
    {
      if env.arrivals[next] == Deadline {
        return next, took, Broke(NoResult);
      }
      var f := env.arrivals[next].frame;
      took, next := took + [Took(f)], next + 1;
      if f.Assistant? && stop {
        var calls := HasToolUse(f.content);
        CallsToolAt(f);
        if calls {
          return next, took, GotToolUse;
        }
      }
      if f.Result? {
        return next, took, if f.isError then Broke(ErrorResult) else GotResult;
      }
    }
    return next, took, Broke(if env.ending.Eof? then OutputClosed else NoResult);
  }

  // ----- traces grow -----

  lemma {:induction false} CountsAppend(t: seq<Act>, u: seq<Act>)
    ensures Prompts(t + u) == Prompts(t) + Prompts(u) && Results(t + u) == Results(t) + Results(u)
  {
    if u == [] {
      assert t + u == t;
    } else {
      var n := |u| - 1;
      assert (t + u)[..|t + u| - 1] == t + u[..n];
      CountsAppend(t, u[..n]);
    }
  }

  /** Consumed frames: no prompt, no ending. */
  ghost predicate Frames(u: seq<Act>) {
    forall k :: 0 <= k < |u| ==> u[k].Took?
  }

  lemma {:induction false} FramesCount(u: seq<Act>)
    requires Frames(u)
    ensures Prompts(u) == 0
  {
    if u != [] {
      FramesCount(u[..|u| - 1]);
    }
  }

  lemma {:induction false} QuietResults(u: seq<Act>)
    requires forall k :: 0 <= k < |u| ==> u[k] != Took(Result(false))
    ensures Results(u) == 0
  {
    if u != [] {
      QuietResults(u[..|u| - 1]);
    }
  }

  lemma RunningFrames(t: seq<Act>, u: seq<Act>)
    requires Running(t) && Frames(u)
    ensures Running(t + u)
  {
    forall k | 0 <= k < |t + u| && (t + u)[k].Wrote?
      ensures Prompts((t + u)[..k]) == (t + u)[k].turn && Results((t + u)[..k]) == (t + u)[k].turn
      ensures (t + u)[k].turn > 0 ==> (t + u)[k - 1] == Took(Result(false))
    {
      assert k < |t| && (t + u)[..k] == t[..k];
    }
  }

  lemma RunningAct(t: seq<Act>, a: Act)
    requires Running(t) && !Ends(a)
    requires a.Wrote? ==> Prompts(t) == a.turn == Results(t) && (a.turn > 0 ==> t[|t| - 1] == Took(Result(false)))
    ensures Running(t + [a])
  {
    var u := t + [a];
    forall k | 0 <= k < |u| && u[k].Wrote?
      ensures Prompts(u[..k]) == u[k].turn && Results(u[..k]) == u[k].turn
      ensures u[k].turn > 0 ==> u[k - 1] == Took(Result(false))
    {
      if k < |t| {
        assert u[..k] == t[..k];
      } else {
        assert u[..k] == t;
      }
    }
  }

  lemma EndedBy(t: seq<Act>, a: Act)
    requires Running(t) && Ends(a)
    ensures Ended(t + [a])
  {
    assert (t + [a])[..|t|] == t;
  }

  // ----- the stream, turn by turn -----

  function LineResults(a: seq<Arrival>): nat {
    if a == [] then 0
    else LineResults(a[..|a| - 1]) + (if a[|a| - 1].Line? && a[|a| - 1].frame.Result? then 1 else 0)
  }

  /** Results among the first k arrivals. */
  function ResultsBefore(env: Env, k: nat): nat
    requires k <= |env.arrivals|
  {
    LineResults(env.arrivals[..k])
  }

  lemma ResultsStep(env: Env, k: nat)
    requires k < |env.arrivals|
    ensures var a := env.arrivals[k];
            ResultsBefore(env, k + 1) == ResultsBefore(env, k) + (if a.Line? && a.frame.Result? then 1 else 0)
  {
    assert env.arrivals[..k + 1][..k] == env.arrivals[..k];
  }

  lemma {:induction false} ResultsMonotone(env: Env, k: nat, l: nat)
    requires k <= l <= |env.arrivals|
    ensures ResultsBefore(env, k) <= ResultsBefore(env, l)
  {
    if k < l {
      ResultsMonotone(env, k, l - 1);
      ResultsStep(env, l - 1);
    }
  }

  /** Quiet arrivals add no result. */
  lemma {:induction false} ResultsQuiet(env: Env, k: nat, l: nat, stop: bool)
    requires k <= l <= |env.arrivals| && AllQuiet(env, k, l, stop)
    ensures ResultsBefore(env, k) == ResultsBefore(env, l)
  {
    if k < l {
      ResultsQuiet(env, k, l - 1, stop);
      ResultsStep(env, l - 1);
    }
  }

  /** The first k arrivals are lines and none is an error result. */
  ghost predicate Sound(env: Env, k: nat)
    requires k <= |env.arrivals|
  {
    forall j :: 0 <= j < k ==> env.arrivals[j].Line? && env.arrivals[j] != Line(Result(true))
  }

  /** i turns are over: the stream was read up to the i-th result. */
  ghost predicate Consumed(env: Env, pos: nat, i: nat) {
    && pos <= |env.arrivals| && Sound(env, pos) && ResultsBefore(env, pos) == i
    && (if i == 0 then pos == 0 else pos > 0 && env.arrivals[pos - 1] == Line(Result(false)))
  }

  lemma BeforeLastResult(env: Env, pos: nat, i: nat, k: nat)
    requires Consumed(env, pos, i) && k < pos
    ensures ResultsBefore(env, k) < i
  {
    ResultsStep(env, pos - 1);
    ResultsMonotone(env, k, pos - 1);
  }

  /** Every turn's result arrives, nothing after the last one, and the process
      then ends in order. */
  ghost predicate CleanSession(n: nat, env: Env) {
    && (forall j :: 0 <= j < n ==> env.writeOk(j))
    && Consumed(env, |env.arrivals|, n)
    && env.closeOk && env.ending == Eof(false) && env.exitsInTime && env.exitOk
  }

  /** The k-th arrival is the last turn's first tool call, all turns before it
      having succeeded and its own result not having come. */
  ghost predicate ToolCallAt(n: nat, env: Env, k: nat) {
    && k < |env.arrivals| && Sound(env, k) && n > 0 && ResultsBefore(env, k) == n - 1
    && env.arrivals[k].Line? && CallsTool(env.arrivals[k].frame)
    && forall j :: 0 <= j < k && env.arrivals[j].Line? && CallsTool(env.arrivals[j].frame) ==> ResultsBefore(env, j) < n - 1
  }

  ghost predicate InterruptibleSession(n: nat, env: Env) {
    (forall j :: 0 <= j < n ==> env.writeOk(j)) && exists k :: ToolCallAt(n, env, k)
  }

  /** A stretch of arrivals after i turns that is quiet up to next holds only
      results already counted. */
  lemma CountsAround(env: Env, pos: nat, i: nat, next: nat, stop: bool, k: nat)
    requires Consumed(env, pos, i) && pos <= next <= |env.arrivals| && AllQuiet(env, pos, next, stop)
    requires k <= |env.arrivals|
    ensures k < pos ==> ResultsBefore(env, k) < i
    ensures pos <= k <= next ==> ResultsBefore(env, k) == i
  {
    if k < pos {
      BeforeLastResult(env, pos, i, k);
    } else if k <= next {
      ResultsQuiet(env, pos, k, stop);
    }
  }

  /** A turn that breaks makes the session neither clean nor interruptible. */
  lemma BrokenTurn(env: Env, pos: nat, i: nat, n: nat, stop: bool, next: nat, took: seq<Act>, reason: Reason)
    requires Consumed(env, pos, i) && i < n && AwaitOk(env, pos, stop, next, took, Broke(reason)) && (stop ==> i == n - 1)
    ensures !CleanSession(n, env)
    ensures (i == n - 1 ==> stop) ==> !InterruptibleSession(n, env)
  {
    var last := if reason == ErrorResult then next - 1 else next;
    assert AllQuiet(env, pos, last, stop);
    CountsAround(env, pos, i, last, stop, last);
    forall k: nat | (i == n - 1 ==> stop) && k < |env.arrivals| ensures !ToolCallAt(n, env, k) {
      CountsAround(env, pos, i, last, stop, k);
    }
  }

  /** A last turn that finishes without a tool call cannot be interrupted. */
  lemma FinishedTurn(env: Env, pos: nat, n: nat, next: nat, took: seq<Act>)
    requires n > 0 && Consumed(env, pos, n - 1) && AwaitOk(env, pos, true, next, took, GotResult)
    ensures !InterruptibleSession(n, env)
  {
    CountsAround(env, pos, n - 1, next - 1, true, next - 1);
    ResultsStep(env, next - 1);
    forall k: nat | k < |env.arrivals| ensures !ToolCallAt(n, env, k) {
      CountsAround(env, pos, n - 1, next - 1, true, k);
      if k >= next {
        ResultsMonotone(env, next, k);
      }
    }
  }

  lemma InterruptedTurn(env: Env, pos: nat, n: nat, next: nat, took: seq<Act>)
    requires n > 0 && Consumed(env, pos, n - 1) && AwaitOk(env, pos, true, next, took, GotToolUse)
    ensures ToolCallAt(n, env, next - 1)
  {
    var k := next - 1;
    CountsAround(env, pos, n - 1, k, true, k);
    forall j: nat | j < k ensures env.arrivals[j].Line? && env.arrivals[j] != Line(Result(true))
      ensures CallsTool(env.arrivals[j].frame) ==> ResultsBefore(env, j) < n - 1
    {
      CountsAround(env, pos, n - 1, k, true, j);
    }
  }

  /** The stream after one more turn. */
  lemma TurnConsumed(env: Env, pos: nat, i: nat, stop: bool, next: nat, took: seq<Act>)
    requires Consumed(env, pos, i) && AwaitOk(env, pos, stop, next, took, GotResult)
    ensures Consumed(env, next, i + 1)
  {
    CountsAround(env, pos, i, next - 1, stop, next - 1);
    ResultsStep(env, next - 1);
  }

  /** Lines left after the last result keep the session from ending cleanly: the
      reader is stuck handing one over, so the driver never learns of the end. */
  lemma LeftoverLines(env: Env, pos: nat, n: nat)
    requires Consumed(env, pos, n) && pos < |env.arrivals|
    ensures !CleanSession(n, env)
  {
    if Consumed(env, |env.arrivals|, n) {
      BeforeLastResult(env, |env.arrivals|, n, pos);
    }
  }

  // ----- the driver -----

  /** Between turns: i prompts written and i results consumed. */
  ghost predicate At(env: Env, pos: nat, i: nat, trace: seq<Act>) {
    && Running(trace) && Prompts(trace) == i && Results(trace) == i
    && (i > 0 ==> trace[|trace| - 1] == Took(Result(false)))
    && Consumed(env, pos, i) && forall j :: 0 <= j < i ==> env.writeOk(j)
  }

  /** After awaiting turn i with result r. */
  ghost predicate TurnOver(env: Env, next: nat, i: nat, trace: seq<Act>, r: Awaited) {
    && Running(trace) && Prompts(trace) == i + 1
    && (r.GotResult? ==> At(env, next, i + 1, trace))
    && (r.GotToolUse? ==> Results(trace) == i && CalledTool(trace[|trace| - 1]))
  }

  ghost predicate CalledTool(a: Act) {
    a.Took? && CallsTool(a.frame)
  }

  lemma WroteTurn(env: Env, pos: nat, i: nat, trace: seq<Act>)
    requires At(env, pos, i, trace)
    ensures Running(trace + [Wrote(i)]) && Prompts(trace + [Wrote(i)]) == i + 1 && Results(trace + [Wrote(i)]) == i
  {
    RunningAct(trace, Wrote(i));
    assert (trace + [Wrote(i)])[..|trace|] == trace;
  }

  /** What the consumed frames of one turn add to the count of results. */
  lemma TookCounts(env: Env, pos: nat, stop: bool, next: nat, took: seq<Act>, r: Awaited)
    requires AwaitOk(env, pos, stop, next, took, r)
    ensures Frames(took) && Prompts(took) == 0
    ensures r.GotResult? ==> Results(took) == 1
    ensures r.GotToolUse? ==> Results(took) == 0
  {
    FramesCount(took);
    if !r.Broke? {
      var n := |took| - 1;
      forall k | 0 <= k < n ensures took[..n][k] != Took(Result(false)) {
        assert Quiet(env.arrivals[pos + k], stop);
      }
      QuietResults(took[..n]);
    }
  }

  lemma TurnAdvances(env: Env, pos: nat, i: nat, trace: seq<Act>, stop: bool, next: nat, took: seq<Act>, r: Awaited)
    requires At(env, pos, i, trace) && env.writeOk(i) && AwaitOk(env, pos, stop, next, took, r)
    ensures TurnOver(env, next, i, trace + [Wrote(i)] + took, r)
  {
    var wrote := trace + [Wrote(i)];
    WroteTurn(env, pos, i, trace);
    TookCounts(env, pos, stop, next, took, r);
    RunningFrames(wrote, took);
    CountsAppend(wrote, took);
    if r.GotResult? {
      TurnConsumed(env, pos, i, stop, next, took);
    }
  }

  /** How a started session may end. */
  ghost predicate Verdict(n: nat, trace: seq<Act>, out: Outcome) {
    && Ended(trace)
    && var last := |trace| - 1;
    && (out == Done ==>
          && trace[last] == Waited && last > 0 && trace[last - 1] == ClosedStdin
          && Prompts(trace) == n && Results(trace) == n)
    && (out == Interrupted ==>
          && trace[last] == KilledAndReaped && last > 0 && CalledTool(trace[last - 1])
          && Prompts(trace) == n && Results(trace) == n - 1)
  }

  lemma EndCounts(t: seq<Act>, a: Act)
    requires Ends(a) || a == ClosedStdin
    ensures Prompts(t + [a]) == Prompts(t) && Results(t + [a]) == Results(t)
  {
    assert (t + [a])[..|t|] == t;
  }

  /** The end of the session: stdin closed, the reader's end awaited, the process
      reaped. */
  method Finish(n: nat, env: Env, pos: nat, before: seq<Act>) returns (trace: seq<Act>, out: Outcome)
    requires At(env, pos, n, before)
    ensures Verdict(n, trace, out) && out != Interrupted
    ensures out == Done <==> CleanSession(n, env)
  {
    if pos < |env.arrivals| {
      LeftoverLines(env, pos, n);
    }
    trace := before;
    if !env.closeOk {
      EndedBy(trace, KilledAndReaped);
      return trace + [KilledAndReaped], Failed(CloseError);
    }
    RunningAct(trace, ClosedStdin);
    EndCounts(trace, ClosedStdin);
    trace := trace + [ClosedStdin];
    EndedBy(trace, KilledAndReaped);
    EndedBy(trace, Waited);
    EndCounts(trace, Waited);
    if pos < |env.arrivals| || env.ending == Silence || !env.exitsInTime {
      return trace + [KilledAndReaped], Failed(NoExit);
    }
    if env.ending.readError {
      return trace + [KilledAndReaped], Failed(ReadError);
    }
    out := if env.exitOk then Done else Failed(ExitError);
    trace := trace + [Waited];
  }

  /** The contract of a started session. */
  ghost predicate Right(n: nat, interrupt: bool, env: Env, trace: seq<Act>, out: Outcome) {
    && Verdict(n, trace, out)
    && (!interrupt ==> out != Interrupted && (out == Done <==> CleanSession(n, env)))
    && (interrupt ==> out != Done && (out == Interrupted <==> InterruptibleSession(n, env)))
  }

  lemma WriteFailed(n: nat, interrupt: bool, env: Env, pos: nat, i: nat, trace: seq<Act>)
    requires At(env, pos, i, trace) && i < n && !env.writeOk(i)
    ensures Right(n, interrupt, env, trace + [KilledAndReaped], Failed(WriteError))
  {
    EndedBy(trace, KilledAndReaped);
  }

  /** What a turn that ends the session makes of it. */
  function EndOf(r: Awaited): Outcome {
    match r
    case GotResult => Failed(NoToolCall)
    case GotToolUse => Interrupted
    case Broke(reason) => Failed(reason)
  }

  lemma TurnStops(n: nat, interrupt: bool, env: Env, pos: nat, i: nat, next: nat, took: seq<Act>, r: Awaited, after: seq<Act>)
    requires Consumed(env, pos, i) && i < n && forall j :: 0 <= j <= i ==> env.writeOk(j)
    requires var stop := interrupt && i == n - 1; AwaitOk(env, pos, stop, next, took, r) && (stop || r.Broke?)
    requires TurnOver(env, next, i, after, r)
    ensures Right(n, interrupt, env, after + [KilledAndReaped], EndOf(r))
  {
    EndedBy(after, KilledAndReaped);
    EndCounts(after, KilledAndReaped);
    match r {
      case GotResult => FinishedTurn(env, pos, n, next, took);
      case GotToolUse => InterruptedTurn(env, pos, n, next, took);
      case Broke(reason) => BrokenTurn(env, pos, i, n, interrupt && i == n - 1, next, took, reason);
    }
  }

  /** Prompts are written in order, each after the previous result. A plain run
      succeeds exactly on a clean session, an interrupted one exactly when the
      last turn calls a tool before its result; whatever happens, a started
      process ends killed and reaped or waited for. */
  method RunTurns(turns: seq<string>, interrupt: bool, env: Env) returns (trace: seq<Act>, out: Outcome)
    ensures turns == [] ==> out == Failed(NoTurns) && trace == []
    ensures turns != [] && !env.startOk ==> out == Failed(StartError) && trace == []
    ensures turns != [] && env.startOk ==> Right(|turns|, interrupt, env, trace, out)
  {
    var n := |turns|;
    trace := [];
    if n == 0 {
      return trace, Failed(NoTurns);
    }
    if !env.startOk {
      return trace, Failed(StartError);
    }
    trace := [Started];
    var pos := 0;
    var i := 0;
    while i < n
      invariant 0 <= i <= n && At(env, pos, i, trace)
      invariant interrupt ==> i < n
      decreases n - i
    {
      if !env.writeOk(i) {
        WriteFailed(n, interrupt, env, pos, i, trace);
        return trace + [KilledAndReaped], Failed(WriteError);
      }
      var stop := interrupt && i == n - 1;
      var next, took, r := Await(env, pos, stop);
      TurnAdvances(env, pos, i, trace, stop, next, took, r);
      trace := trace + [Wrote(i)] + took;
      if r.Broke? || stop {
        TurnStops(n, interrupt, env, pos, i, next, took, r, trace);
        return trace + [KilledAndReaped], EndOf(r);
      }
      pos, i := next, i + 1;
    }
    trace, out := Finish(n, env, pos, trace);
  }
}
