/** Lua threads (coroutines) as seen from the host: their status, resuming them, and driving
    them as an asynchronous stream or future. */
module Threads {
  import opened Interp

  /** Values of `lua_status`. Every other value is an error status. */
  const LUA_OK: int := 0
  const LUA_YIELD: int := 1
  const LUA_ERRRUN: int := 2

  datatype ThreadStatus = Resumable | Unresumable | Error

  /** A suspended coroutine's own data (its locals and where it stopped), as the body reads it. */
  type Frame = seq<Value>

  /** What running a coroutine body until it next stops does: it yields values and suspends
      with a new frame, returns values, or raises an error leaving `stackLeft` slots on its
      stack. */
  datatype Step =
    | Yield(values: seq<Value>, frame: Frame)
    | Return(values: seq<Value>)
    | Raise(message: string, stackLeft: nat)

  /** A coroutine body: from its frame, the values it is resumed with, and the waker currently
      stored in the registry, to the way it stops next. */
  type Body = (Frame, seq<Value>, Option<Waker>) -> Step

  /** The part of a thread's interpreter state the bridge inspects: `lua_status`, `lua_gettop`,
      and the body's frame. */
  datatype CoState = CoState(status: int, top: nat, frame: Frame)

  /** A newly created thread: status OK with its function on the stack. */
  const Fresh: CoState := CoState(LUA_OK, 1, [])

  /** `status`: an error status is `Error`; a yielded thread, or one whose stack still holds
      its function, is `Resumable`; anything else has finished. */
  function Classify(status: int, top: nat): (r: ThreadStatus)
    ensures r == Error <==> status != LUA_OK && status != LUA_YIELD
    ensures r == Resumable <==> status == LUA_YIELD || (status == LUA_OK && top > 0)
    ensures r == Unresumable <==> status == LUA_OK && top == 0
  {
    if status != LUA_OK && status != LUA_YIELD then Error
    else if status == LUA_YIELD || top > 0 then Resumable
    else Unresumable
  }

  /** The guard `resume` applies before touching the thread. */
  predicate Inactive(s: CoState) {
    s.status != LUA_YIELD && s.top == 0
  }

  /** A thread `resume` turns away as inactive is never reported `Resumable`, and every
      thread that passes the guard but is not `Resumable` is in an error status. */
  lemma GuardAgreesWithStatus(s: CoState)
    ensures Inactive(s) ==> Classify(s.status, s.top) != Resumable
    ensures Classify(s.status, s.top) == Unresumable ==> Inactive(s)
    ensures !Inactive(s) && Classify(s.status, s.top) != Resumable ==> Classify(s.status, s.top) == Error
  {
  }

  /** `resume`: the inactive guard, then `lua_resume`. A thread in an error status that passes
      the guard is refused by the interpreter as dead, leaving it as it was. A yield leaves the
      thread suspended with an empty stack (the values are moved to the caller); a return
      leaves it finished; an error leaves it in the error status. */
  function ResumeOutcome(body: Body, s: CoState, args: seq<Value>, waker: Option<Waker>): (r: (Result<seq<Value>>, CoState))
    ensures r.1 != s ==> Classify(s.status, s.top) == Resumable
    ensures r.0.Ok? ==> r.1.top == 0 && (r.1.status == LUA_OK || r.1.status == LUA_YIELD)
    ensures r.0.Ok? && r.1.status == LUA_YIELD ==> Classify(r.1.status, r.1.top) == Resumable
    ensures r.0.Err? ==> r.1 == s || Classify(r.1.status, r.1.top) == Error
  {
    if Inactive(s) then (Err(CoroutineInactive), s)
    else if s.status != LUA_OK && s.status != LUA_YIELD then
      (Err(RuntimeError("cannot resume dead coroutine")), s)
    else
      match body(s.frame, args, waker)
      case Yield(vs, f) => (Ok(vs), CoState(LUA_YIELD, 0, f))
      case Return(vs) => (Ok(vs), CoState(LUA_OK, 0, s.frame))
      case Raise(msg, left) => (Err(RuntimeError(msg)), CoState(LUA_ERRRUN, left, s.frame))
  }

  /** A thread that is not `Resumable` cannot be resumed: the call fails and the thread does
      not change. */
  lemma ResumeFinished(body: Body, s: CoState, args: seq<Value>, waker: Option<Waker>)
    requires Classify(s.status, s.top) != Resumable
    ensures ResumeOutcome(body, s, args, waker).0.Err?
    ensures ResumeOutcome(body, s, args, waker).1 == s
    ensures Classify(s.status, s.top) == Unresumable ==> ResumeOutcome(body, s, args, waker).0 == Err(CoroutineInactive)
  {
  }

  /** Resuming a `Resumable` thread runs its body once, and the status afterwards tells how
      the body stopped: `Resumable` after a yield, `Unresumable` after a return, `Error` after
      an error. */
  lemma ResumeResumable(body: Body, s: CoState, args: seq<Value>, waker: Option<Waker>)
    requires Classify(s.status, s.top) == Resumable
    ensures var (r, t) := ResumeOutcome(body, s, args, waker);
      match body(s.frame, args, waker)
      case Yield(vs, _) => r == Ok(vs) && Classify(t.status, t.top) == Resumable
      case Return(vs) => r == Ok(vs) && Classify(t.status, t.top) == Unresumable
      case Raise(msg, _) => r == Err(RuntimeError(msg)) && Classify(t.status, t.top) == Error
  {
  }

  /** Resuming a thread with each of `inputs` in turn. */
  function RunAll(body: Body, s: CoState, inputs: seq<seq<Value>>, waker: Option<Waker>): (r: (seq<Result<seq<Value>>>, CoState))
    ensures |r.0| == |inputs|
    decreases |inputs|
  {
    if inputs == [] then ([], s)
    else
      var (first, s1) := ResumeOutcome(body, s, inputs[0], waker);
      var (rest, last) := RunAll(body, s1, inputs[1..], waker);
      ([first] + rest, last)
  }

  /** Once finished or failed, a thread stays so: any number of further resumes all fail and
      leave it unchanged. */
  lemma {:induction false} FinishedStaysFinished(body: Body, s: CoState, inputs: seq<seq<Value>>, waker: Option<Waker>)
    requires Classify(s.status, s.top) != Resumable
    ensures RunAll(body, s, inputs, waker).1 == s
    ensures forall j :: 0 <= j < |inputs| ==> RunAll(body, s, inputs, waker).0[j].Err?
    decreases |inputs|
  {
    if inputs != [] {
      ResumeFinished(body, s, inputs[0], waker);
      FinishedStaysFinished(body, s, inputs[1..], waker);
    }
  }

  /** Handle to a Lua thread (`Thread`). */
  class Coroutine {
    const body: Body
    var state: CoState

    /** A thread created from a function. */
    constructor (body: Body)
      ensures this.body == body && state == Fresh
    {
      this.body := body;
      state := Fresh;
    }

    /** `status`: an error status is `Error`, a finished thread (status OK, empty stack) is
        `Unresumable`, and a thread that is neither is never refused by `resume`. */
    function Status(): (r: ThreadStatus)
      reads this
      ensures r == Error <==> state.status != LUA_OK && state.status != LUA_YIELD
      ensures r == Unresumable <==> state.status == LUA_OK && state.top == 0
      ensures r == Resumable ==> !Inactive(state) && (state.status == LUA_OK || state.status == LUA_YIELD)
    {
      Classify(state.status, state.top)
    }

    /** `resume`, with the waker the registry holds at the time of the call visible to the body. */
    method Resume(lua: Lua, args: seq<Value>) returns (r: Result<seq<Value>>)
      modifies this`state
      ensures (r, state) == ResumeOutcome(body, old(state), args, lua.wakerSlot)
    {
      if state.status != LUA_YIELD && state.top == 0 {
        return Err(CoroutineInactive);
      }
      if state.status != LUA_OK && state.status != LUA_YIELD {
        return Err(RuntimeError("cannot resume dead coroutine"));
      }
      match body(state.frame, args, lua.wakerSlot)
      case Yield(vs, f) =>
        state := CoState(LUA_YIELD, 0, f);
        r := Ok(vs);
      case Return(vs) =>
        state := CoState(LUA_OK, 0, state.frame);
        r := Ok(vs);
      case Raise(msg, left) =>
        state := CoState(LUA_ERRRUN, left, state.frame);
        r := Err(RuntimeError(msg));
    }
  }

  /** Stores a waker in the registry for as long as it lives (`WakerGuard`). */
  class WakerGuard {
    const lua: Lua

    /** `WakerGuard::new`: the waker becomes the registry's waker entry. */
    constructor (lua: Lua, waker: Waker)
      modifies lua`wakerSlot
      ensures this.lua == lua && lua.wakerSlot == Some(waker)
    {
      this.lua := lua;
      lua.wakerSlot := Some(waker);
    }

    /** Dropping the guard clears the registry's waker entry. */
    method Drop()
      modifies lua`wakerSlot
      ensures lua.wakerSlot == None
    {
      lua.wakerSlot := None;
    }
  }

  datatype Poll<+T> = Pending | Ready(value: T)

  /** `is_poll_pending`: the values are exactly one userdata holding the bridge's pending marker. */
  predicate IsPollPending(vals: seq<Value>): (r: bool)
    ensures r ==> |vals| == 1 && vals[0].UserData? && vals == [UserData(vals[0].id, AsyncPollPending)]
  {
    |vals| == 1 && vals[0].UserData? && vals[0].payload == AsyncPollPending
  }

  /** A single userdata holding the pending marker is pending, whatever its identity. */
  lemma MarkerIsPending(id: nat)
    ensures IsPollPending([UserData(id, AsyncPollPending)])
  {
  }

  /** Values that Lua code produces never hold the bridge's pending marker, so no result of
      ordinary Lua code makes a poll pending; neither does any result of other than one value. */
  lemma OrdinaryResultsNotPending(vals: seq<Value>)
    ensures (forall i :: 0 <= i < |vals| ==> !(vals[i].UserData? && vals[i].payload == AsyncPollPending)) ==>
              !IsPollPending(vals)
    ensures |vals| != 1 ==> !IsPollPending(vals)
  {
  }

  /** The arguments a poll resumes the thread with: the first poll takes the arguments given to
      `into_async` (which may have failed to convert), later polls resume with none. */
  function PollArgs(args0: Option<Result<seq<Value>>>): Result<seq<Value>> {
    if args0.Some? then args0.value else Ok([])
  }

  /** The resume a poll performs, with `waker` stored for the duration. A failed argument
      conversion is reported without running the thread. */
  function PollResume(body: Body, s: CoState, args0: Option<Result<seq<Value>>>, waker: Waker): (Result<seq<Value>>, CoState)
  {
    match PollArgs(args0)
    case Err(e) => (Err(e), s)
    case Ok(args) => ResumeOutcome(body, s, args, Some(waker))
  }

  /** A thread driven as a stream of yielded values or as a future of its result (`AsyncThread`). */
  class AsyncThread {
    const thread: Coroutine
    var args0: Option<Result<seq<Value>>>

    /** `into_async`: keeps the start arguments for the first poll. */
    constructor (thread: Coroutine, args: Result<seq<Value>>)
      ensures this.thread == thread && args0 == Some(args)
    {
      this.thread := thread;
      args0 := Some(args);
    }

    /** One resume under a waker guard, shared by both polls. */
    method GuardedResume(lua: Lua, waker: Waker) returns (res: Result<seq<Value>>)
      modifies this`args0, thread`state, lua`wakerSlot
      ensures (res, thread.state) == PollResume(thread.body, old(thread.state), old(args0), waker)
      ensures args0 == None && lua.wakerSlot == None
    {
      var guard := new WakerGuard(lua, waker);
      var start := args0;
      args0 := None;
      match PollArgs(start) {
        case Err(e) =>
          res := Err(e);
        case Ok(args) =>
          res := thread.Resume(lua, args);
      }
      guard.Drop();
    }

    /** `poll_next` (the stream): a thread that is not `Resumable` ends the stream. Otherwise it
        is resumed once; an error is the next item, the pending marker makes the poll pending,
        and any other values (yielded or returned) are the next item, after waking the task.
        `woke` tells whether the waker was woken. */
    method PollNext(lua: Lua, waker: Waker) returns (p: Poll<Option<Result<seq<Value>>>>, woke: bool)
      modifies this`args0, thread`state, lua`wakerSlot
      ensures old(thread.Status()) != Resumable ==>
        p == Ready(None) && !woke && args0 == old(args0) && thread.state == old(thread.state) &&
        lua.wakerSlot == old(lua.wakerSlot)
      ensures old(thread.Status()) == Resumable ==>
        var (res, s) := PollResume(thread.body, old(thread.state), old(args0), waker);
        args0 == None && lua.wakerSlot == None && thread.state == s &&
        (res.Err? ==> p == Ready(Some(res)) && !woke) &&
        (res.Ok? && IsPollPending(res.value) ==> p == Pending && !woke) &&
        (res.Ok? && !IsPollPending(res.value) ==> p == Ready(Some(res)) && woke)
    {
      if thread.Status() != Resumable {
        return Ready(None), false;
      }
      var res := GuardedResume(lua, waker);
      if res.Err? {
        return Ready(Some(res)), false;
      }
      if IsPollPending(res.value) {
        return Pending, false;
      }
      return Ready(Some(res)), true;
    }

    /** `poll` (the future): a thread that is not `Resumable` is reported as already finished.
        Otherwise it is resumed once; an error is the result, the pending marker makes the poll
        pending, yielded values are discarded (waking the task, still pending), and the values
        of a thread that stopped being `Resumable` are the result. */
    method Poll(lua: Lua, waker: Waker) returns (p: Poll<Result<seq<Value>>>, woke: bool)
      modifies this`args0, thread`state, lua`wakerSlot
      ensures old(thread.Status()) != Resumable ==>
        p == Ready(Err(ExternalError("Thread already finished"))) && !woke &&
        args0 == old(args0) && thread.state == old(thread.state) && lua.wakerSlot == old(lua.wakerSlot)
      ensures old(thread.Status()) == Resumable ==>
        var (res, s) := PollResume(thread.body, old(thread.state), old(args0), waker);
        args0 == None && lua.wakerSlot == None && thread.state == s &&
        (res.Err? ==> p == Ready(res) && !woke) &&
        (res.Ok? && IsPollPending(res.value) ==> p == Pending && !woke) &&
        (res.Ok? && !IsPollPending(res.value) && thread.Status() == Resumable ==> p == Pending && woke) &&
        (res.Ok? && !IsPollPending(res.value) && thread.Status() != Resumable ==> p == Ready(res) && !woke)
      ensures p.Ready? && p.value.Ok? ==> thread.Status() != Resumable
    {
      if thread.Status() != Resumable {
        return Ready(Err(ExternalError("Thread already finished"))), false;
      }
      var res := GuardedResume(lua, waker);
      if res.Err? {
        return Ready(res), false;
      }
      if IsPollPending(res.value) {
        return Pending, false;
      }
      if thread.Status() == Resumable {
        return Pending, true;
      }
      return Ready(res), false;
    }
  }

  // ---------------------------------------------------------------------------------------
  // The coroutines of the thread tests and documentation examples, as bodies.

  /** The first value a coroutine is resumed with, nil when there is none. */
  function First(args: seq<Value>): Value {
    if |args| > 0 then args[0] else Nil
  }

  /** Lua's `+` on the modelled values: integers add, anything else is an arithmetic error
      naming the type of the offending operand. */
  function Add(a: Value, b: Value): (r: Result<Value>)
    ensures a.Integer? && b.Integer? ==> r == Ok(Integer(a.i + b.i))
    ensures !(a.Integer? && b.Integer?) ==> r.Err?
  {
    if a.Integer? && b.Integer? then Ok(Integer(a.i + b.i))
    else
      var bad := if !a.Integer? then a else b;
      Err(RuntimeError("attempt to perform arithmetic on a " + TypeName(bad) + " value"))
  }

  /** `sum = sum + coroutine.yield(sum)` repeated, `rounds` times when bounded (then the sum is
      returned) or forever. The frame holds the sum and the round it is suspended in. A failed
      addition leaves one slot on the stack: `lua_resume` does not unwind the stack of a
      coroutine that raised, so the slot of the function's `sum` local stays, and `resume`
      pops only the error object. */
  function Accumulate(rounds: Option<nat>, frame: Frame, args: seq<Value>): Step {
    if |frame| < 2 || !frame[1].Integer? then Yield([First(args)], [First(args), Integer(1)])
    else
      match Add(frame[0], First(args))
      case Err(e) => Raise(e.message, 1)
      case Ok(sum) =>
        if rounds.Some? && frame[1].i >= rounds.value then Return([sum])
        else Yield([sum], [sum, Integer(frame[1].i + 1)])
  }

  function AccumulateFour(frame: Frame, args: seq<Value>, waker: Option<Waker>): Step {
    Accumulate(Some(4), frame, args)
  }

  function AccumulateForever(frame: Frame, args: seq<Value>, waker: Option<Waker>): Step {
    Accumulate(None, frame, args)
  }

  /** Checks its first argument is 42, yields 123, checks it is resumed with 43, returns 987. */
  function AskAndAnswer(frame: Frame, args: seq<Value>, waker: Option<Waker>): Step {
    if frame == [] then
      if First(args) == Integer(42) then Yield([Integer(123)], [Integer(42)]) else Raise("assertion failed!", 1)
    else if First(args) == Integer(43) then Return([Integer(987)])
    else Raise("assertion failed!", 1)
  }

  /** `for i = 1,10 do sum = sum + i; coroutine.yield(sum) end return sum`: the frame holds the
      sum and the round it is suspended in. */
  function CountUp(frame: Frame, args: seq<Value>, waker: Option<Waker>): Step {
    if |frame| < 2 || !frame[1].Integer? then
      match Add(First(args), Integer(1))
      case Err(e) => Raise(e.message, 1)
      case Ok(sum) => Yield([sum], [sum, Integer(1)])
    else if frame[1].i >= 10 then Return([frame[0]])
    else
      match Add(frame[0], Integer(frame[1].i + 1))
      case Err(e) => Raise(e.message, 1)
      case Ok(sum) => Yield([sum], [sum, Integer(frame[1].i + 1)])
  }

  /** The accumulator of `test_thread`: resumed with 0..4 it yields the running sums 0, 1, 3, 6
      and returns 10, `Resumable` until the return and `Unresumable` after it; one more resume
      is refused as inactive. */
  method AccumulatorRun() returns (results: seq<Result<seq<Value>>>, statuses: seq<ThreadStatus>)
    ensures results == [Ok([Integer(0)]), Ok([Integer(1)]), Ok([Integer(3)]), Ok([Integer(6)]),
                        Ok([Integer(10)]), Err(CoroutineInactive)]
    ensures statuses == [Resumable, Resumable, Resumable, Resumable, Resumable, Unresumable]
  {
    var lua := new Lua();
    var co := new Coroutine(AccumulateFour);
    results := [];
    statuses := [co.Status()];
    var i := 0;
    while i < 5
      invariant 0 <= i <= 5
      invariant |results| == i && |statuses| == i + 1
      invariant forall j :: 0 <= j < i ==> results[j] == Ok([Integer(Triangle(j))])
      invariant forall j :: 0 <= j < i ==> statuses[j] == Resumable
      invariant i == 0 ==> co.state == Fresh
      invariant 0 < i < 5 ==> co.state == CoState(LUA_YIELD, 0, [Integer(Triangle(i - 1)), Integer(i)])
      invariant i == 5 ==> co.state.status == LUA_OK && co.state.top == 0
      invariant statuses[i] == co.Status()
    {
      var r := co.Resume(lua, [Integer(i)]);
      results := results + [r];
      statuses := statuses + [co.Status()];
      i := i + 1;
    }
    var r := co.Resume(lua, []);
    results := results + [r];
  }

  /** The endless accumulator of `test_thread`: after being resumed with 0..4 it has yielded
      10 and is still `Resumable`; resuming it with a string fails with an arithmetic error and
      leaves it in `Error`. Any further resume fails (`ResumeFinished`); that it fails as dead
      rather than as inactive follows from the `sum` slot the failed body leaves on its stack
      (see `Accumulate`). */
  method EndlessAccumulatorRun() returns (last: Result<seq<Value>>, before: ThreadStatus,
                                          failed: Result<seq<Value>>, after: ThreadStatus,
                                          again: Result<seq<Value>>)
    ensures last == Ok([Integer(10)]) && before == Resumable
    ensures failed == Err(RuntimeError("attempt to perform arithmetic on a string value")) && after == Error
    ensures again == Err(RuntimeError("cannot resume dead coroutine"))
  {
    var lua := new Lua();
    var co := new Coroutine(AccumulateForever);
    var i := 0;
    while i < 4
      invariant 0 <= i <= 4
      invariant i == 0 ==> co.state == Fresh
      invariant i > 0 ==> co.state == CoState(LUA_YIELD, 0, [Integer(Triangle(i - 1)), Integer(i)])
    {
      var _ := co.Resume(lua, [Integer(i)]);
      i := i + 1;
    }
    last := co.Resume(lua, [Integer(4)]);
    before := co.Status();
    assert "attempt to perform arithmetic on a " + TypeName(Str("error")) + " value" ==
      "attempt to perform arithmetic on a string value";
    failed := co.Resume(lua, [Str("error")]);
    after := co.Status();
    again := co.Resume(lua, []);
  }

  /** The `resume` example: started with 42 it yields 123, resumed with 43 it returns 987, and
      it is then refused as inactive. */
  method AskAndAnswerRun() returns (first: Result<seq<Value>>, second: Result<seq<Value>>, third: Result<seq<Value>>)
    ensures first == Ok([Integer(123)]) && second == Ok([Integer(987)]) && third == Err(CoroutineInactive)
  {
    var lua := new Lua();
    var co := new Coroutine(AskAndAnswer);
    first := co.Resume(lua, [Integer(42)]);
    second := co.Resume(lua, [Integer(43)]);
    third := co.Resume(lua, []);
  }

  /** The `k`-th item (from 0) of the stream of a `CountUp` thread started with 1: ten running
      sums, then the returned sum. */
  function CountUpItem(k: nat): int {
    if k < 10 then 1 + Triangle(k + 1) else 56
  }

  /** 1 + 2 + ... + n. */
  function Triangle(n: nat): nat {
    if n == 0 then 0 else Triangle(n - 1) + n
  }

  /** Resuming a `CountUp` thread suspended after its item `k` yields item `k + 1`, or returns
      it after the tenth yield. */
  lemma CountUpResumed(k: nat, args: seq<Value>, waker: Option<Waker>)
    requires k < 10
    ensures CountUp([Integer(CountUpItem(k)), Integer(k + 1)], args, waker) ==
      if k < 9 then Yield([Integer(CountUpItem(k + 1))], [Integer(CountUpItem(k + 1)), Integer(k + 2)])
      else Return([Integer(CountUpItem(k + 1))])
  {
  }

  /** A poll of a `CountUp` thread suspended after its item `k` resumes it without arguments,
      and the item it produces is not the pending marker. */
  lemma CountUpPolled(k: nat, waker: Waker)
    requires k < 10
    ensures var (res, s) := PollResume(CountUp, CoState(LUA_YIELD, 0, [Integer(CountUpItem(k)), Integer(k + 1)]), None, waker);
      res == Ok([Integer(CountUpItem(k + 1))]) && !IsPollPending(res.value) &&
      (k < 9 ==> s == CoState(LUA_YIELD, 0, [Integer(CountUpItem(k + 1)), Integer(k + 2)])) &&
      (k == 9 ==> s.status == LUA_OK && s.top == 0)
  {
    CountUpResumed(k, [], Some(waker));
  }

  function CountUpSum(k: nat): int {
    if k == 0 then 0 else CountUpSum(k - 1) + CountUpItem(k - 1)
  }

  /** The `into_async` example: consuming the stream of a thread started with 1 and adding up
      its items (ten yields and the returned value) gives 286. */
  method CountUpStream() returns (result: Result<int>)
    ensures result == Ok(286)
  {
    var lua := new Lua();
    var co := new Coroutine(CountUp);
    var stream := new AsyncThread(co, Ok([Integer(1)]));
    var sum := 0;
    var k := 0;
    var p, woke := stream.PollNext(lua, 7);
    while p != Ready(None)
      invariant 0 <= k <= 11
      invariant stream.thread == co && co.body == CountUp && stream.args0 == None
      invariant k < 10 ==> co.state == CoState(LUA_YIELD, 0, [Integer(CountUpItem(k)), Integer(k + 1)])
      invariant k >= 10 ==> co.state.status == LUA_OK && co.state.top == 0
      invariant k <= 10 ==> p == Ready(Some(Ok([Integer(CountUpItem(k))])))
      invariant k == 11 ==> p == Ready(None)
      invariant sum == CountUpSum(k)
      decreases 11 - k
    {
      sum := sum + p.value.value.value[0].i;
      if k < 10 {
        CountUpPolled(k, 7);
      }
      k := k + 1;
      p, woke := stream.PollNext(lua, 7);
    }
    result := Ok(sum);
  }

  /** The same thread driven as a future: the ten yielded values are discarded, each poll that
      saw one being pending and having woken the task, and the eleventh poll is ready with the
      returned 56. */
  method CountUpFuture() returns (result: Result<seq<Value>>, polls: nat)
    ensures result == Ok([Integer(56)]) && polls == 11
  {
    var lua := new Lua();
    var co := new Coroutine(CountUp);
    var future := new AsyncThread(co, Ok([Integer(1)]));
    var p, woke := future.Poll(lua, 7);
    polls := 1;
    while p == Pending
      invariant 1 <= polls <= 11
      invariant future.thread == co && co.body == CountUp && future.args0 == None
      invariant polls <= 10 ==> co.state == CoState(LUA_YIELD, 0, [Integer(CountUpItem(polls - 1)), Integer(polls)])
      invariant polls <= 10 ==> p == Pending && woke
      invariant polls == 11 ==> p == Ready(Ok([Integer(56)]))
      decreases 11 - polls
    {
      CountUpPolled(polls - 1, 7);
      p, woke := future.Poll(lua, 7);
      polls := polls + 1;
    }
    result := p.value;
  }
}
