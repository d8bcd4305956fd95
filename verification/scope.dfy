/** Scoped callbacks and userdata: handles created inside a scope that the scope invalidates,
    all of them, when it ends. */
module Scopes {
  import opened Interp

  /** A host closure: its result from the arguments it is called with and, when it called
      itself while running, the outcome of that nested call (which it may use or propagate). */
  type Closure = (seq<Value>, Option<Result<seq<Value>>>) -> Result<seq<Value>>

  /** What calling a closure that is not running returns, when each activation calls the
      closure again with the next argument list of `reentry`, from inside itself, until the
      list is used up. A guarded closure refuses the first nested call, which therefore makes
      no further calls. */
  function Outcome(guarded: bool, behaviour: Closure, args: seq<Value>, reentry: seq<seq<Value>>): Result<seq<Value>>
    decreases |reentry|
  {
    if reentry == [] then behaviour(args, None)
    else if guarded then behaviour(args, Some(Err(RecursiveMutCallback)))
    else behaviour(args, Some(Outcome(guarded, behaviour, reentry[0], reentry[1..])))
  }

  /** A closure behind the `create_function_mut` cell never runs nested: whatever it calls
      itself with, the outer activation sees the refusal, or no nested call at all. */
  lemma GuardedNeverNests(behaviour: Closure, args: seq<Value>, reentry: seq<seq<Value>>)
    ensures reentry != [] ==> Outcome(true, behaviour, args, reentry) == behaviour(args, Some(Err(RecursiveMutCallback)))
  {
  }

  /** A host closure boxed as a callback. `guarded` marks the closures of `create_function_mut`,
      which sit behind a cell allowing one activation at a time; `active` counts the
      activations in progress (for a guarded closure, whether the cell is borrowed). */
  class Callback {
    const guarded: bool
    const behaviour: Closure
    var active: nat

    constructor (guarded: bool, behaviour: Closure)
      ensures this.guarded == guarded && this.behaviour == behaviour && active == 0
    {
      this.guarded := guarded;
      this.behaviour := behaviour;
      active := 0;
    }

    /** Calls the closure; while it runs, it calls itself with `reentry[0]`, that activation
        with `reentry[1]`, and so on, and `inner` is what the outermost of those nested calls
        returned. A guarded closure refuses every call made while it is already running. */
    method Call(args: seq<Value>, reentry: seq<seq<Value>>) returns (r: Result<seq<Value>>, inner: Option<Result<seq<Value>>>)
      modifies this`active
      ensures active == old(active)
      ensures guarded && old(active) > 0 ==> r == Err(RecursiveMutCallback) && inner == None
      ensures !(guarded && old(active) > 0) ==> r == behaviour(args, inner)
      ensures !(guarded && old(active) > 0) ==> r == Outcome(guarded, behaviour, args, reentry)
      ensures !(guarded && old(active) > 0) && reentry == [] ==> inner == None
      ensures !(guarded && old(active) > 0) && reentry != [] ==>
        inner == Some(if guarded then Err(RecursiveMutCallback) else Outcome(guarded, behaviour, reentry[0], reentry[1..]))
      decreases |reentry|
    {
      if guarded && active > 0 {
        return Err(RecursiveMutCallback), None;
      }
      active := active + 1;
      inner := None;
      if reentry != [] {
        var nested, _ := Call(reentry[0], reentry[1..]);
        inner := Some(nested);
      }
      r := behaviour(args, inner);
      active := active - 1;
    }
  }

  /** A Lua function created in a scope; its first upvalue holds the callback until the scope
      takes it back. */
  class ScopedFunction {
    var callback: Callback?

    constructor (callback: Callback)
      ensures this.callback == callback
    {
      this.callback := callback;
    }

    /** Calling the function from Lua: a function whose callback was taken fails. */
    method Invoke(args: seq<Value>, reentry: seq<seq<Value>>) returns (r: Result<seq<Value>>, inner: Option<Result<seq<Value>>>)
      modifies if callback == null then {} else {callback}
      ensures callback == old(callback)
      ensures callback == null ==> r == Err(CallbackDestructed) && inner == None
      ensures callback != null ==> callback.active == old(callback.active)
      ensures callback != null && callback.guarded && old(callback.active) > 0 ==> r == Err(RecursiveMutCallback)
      ensures callback != null && !(callback.guarded && old(callback.active) > 0) ==>
        r == Outcome(callback.guarded, callback.behaviour, args, reentry) && r == callback.behaviour(args, inner)
      ensures callback != null && !(callback.guarded && old(callback.active) > 0) && reentry != [] ==>
        inner == Some(if callback.guarded then Err(RecursiveMutCallback)
                      else Outcome(false, callback.behaviour, reentry[0], reentry[1..]))
    {
      if callback == null {
        return Err(CallbackDestructed), None;
      }
      r, inner := callback.Call(args, reentry);
    }
  }

  /** A userdata created in a scope; `data` is its payload until the scope takes it back. */
  class ScopedUserData {
    var data: Option<nat>

    constructor (data: nat)
      ensures this.data == Some(data)
    {
      this.data := Some(data);
    }
  }

  /** One registered destructor: the handle it invalidates. */
  datatype Entry = FunctionEntry(f: ScopedFunction) | UserDataEntry(u: ScopedUserData)

  /** What a destructor hands back to be dropped afterwards. */
  datatype Reclaimed = CallbackBox(cb: Callback?) | DataBox(data: Option<nat>)

  /** What happens to a scope's entries when it ends, in order. */
  datatype Event = Invalidated(entry: Entry) | Dropped(box: Reclaimed)

  function Handle(e: Entry): object {
    match e
    case FunctionEntry(f) => f
    case UserDataEntry(u) => u
  }

  /** The handle has not been invalidated yet. */
  predicate Live(e: Entry)
    reads Handle(e)
  {
    match e
    case FunctionEntry(f) => f.callback != null
    case UserDataEntry(u) => u.data.Some?
  }

  /** The handle has been invalidated. */
  predicate Dead(e: Entry)
    reads Handle(e)
  {
    match e
    case FunctionEntry(f) => f.callback == null
    case UserDataEntry(u) => u.data.None?
  }

  /** What the destructor of `e` hands back: the callback or the payload the handle held. */
  function Reclaim(e: Entry): Reclaimed
    reads Handle(e)
  {
    match e
    case FunctionEntry(f) => CallbackBox(f.callback)
    case UserDataEntry(u) => DataBox(u.data)
  }

  function Handles(entries: seq<Entry>): set<object> {
    set e | e in entries :: Handle(e)
  }

  /** No handle is registered twice. */
  predicate Distinct(entries: seq<Entry>) {
    forall i, j :: 0 <= i < j < |entries| ==> Handle(entries[i]) != Handle(entries[j])
  }

  /** None of the handles of `entries` is `o`. */
  predicate Apart(o: object, entries: seq<Entry>) {
    forall i :: 0 <= i < |entries| ==> Handle(entries[i]) != o
  }

  /** Every handle of `entries` has been invalidated. */
  predicate AllDead(entries: seq<Entry>)
    reads Handles(entries)
  {
    forall i :: 0 <= i < |entries| ==> Dead(entries[i])
  }

  /** What the destructors of `entries` hand back, in order. */
  function ReclaimAll(entries: seq<Entry>): (r: seq<Reclaimed>)
    reads Handles(entries)
    ensures |r| == |entries|
    ensures forall i :: 0 <= i < |entries| ==> r[i] == Reclaim(entries[i])
  {
    if entries == [] then [] else [Reclaim(entries[0])] + ReclaimAll(entries[1..])
  }

  /** The invalidation of each of `entries`, in order. */
  function Invalidations(entries: seq<Entry>): (r: seq<Event>)
    ensures |r| == |entries|
    ensures forall i :: 0 <= i < |entries| ==> r[i] == Invalidated(entries[i])
  {
    if entries == [] then [] else Invalidations(entries[..|entries| - 1]) + [Invalidated(entries[|entries| - 1])]
  }

  /** The drop of each of `boxes`, in order. */
  function Drops(boxes: seq<Reclaimed>): (r: seq<Event>)
    ensures |r| == |boxes|
    ensures forall i :: 0 <= i < |boxes| ==> r[i] == Dropped(boxes[i])
  {
    if boxes == [] then [] else Drops(boxes[..|boxes| - 1]) + [Dropped(boxes[|boxes| - 1])]
  }

  /** A temporary scope (`Scope`): the destructors of the handles created in it, the record
      of what its end did, in the order it happened, and the handles its end drained. */
  class Scope {
    var entries: seq<Entry>
    ghost var events: seq<Event>
    ghost var drained: seq<Entry>

    /** Every registered handle is live, registered once, and not the scope itself. */
    ghost predicate Valid()
      reads this, Handles(entries)
    {
      Distinct(entries) && Apart(this, entries) && (forall i :: 0 <= i < |entries| ==> Live(entries[i]))
    }

    /** `Scope::new`: no destructors yet. */
    constructor ()
      ensures Valid() && entries == [] && events == [] && drained == []
    {
      entries := [];
      events := [];
      drained := [];
    }

    /** `create_callback`: registering the callback with the interpreter may fail (`fault`),
        and then nothing is registered; otherwise the new function's destructor is added. */
    method CreateCallback(cb: Callback, fault: Option<Error>) returns (r: Result<ScopedFunction>)
      requires Valid()
      modifies this`entries
      ensures Valid()
      ensures fault.Some? ==> r == Err(fault.value) && entries == old(entries)
      ensures fault.None? ==> r.Ok? && fresh(r.value) && r.value.callback == cb &&
                              entries == old(entries) + [FunctionEntry(r.value)]
    {
      if fault.Some? {
        return Err(fault.value);
      }
      var f := new ScopedFunction(cb);
      entries := entries + [FunctionEntry(f)];
      r := Ok(f);
    }

    /** `create_function`: a callback that may be re-entered. */
    method CreateFunction(behaviour: Closure, fault: Option<Error>) returns (r: Result<ScopedFunction>)
      requires Valid()
      modifies this`entries
      ensures Valid()
      ensures fault.Some? ==> r == Err(fault.value) && entries == old(entries)
      ensures fault.None? ==> r.Ok? && fresh(r.value) && fresh(r.value.callback) &&
                              r.value.callback.behaviour == behaviour && !r.value.callback.guarded &&
                              r.value.callback.active == 0 &&
                              entries == old(entries) + [FunctionEntry(r.value)]
    {
      var cb := new Callback(false, behaviour);
      r := CreateCallback(cb, fault);
    }

    /** `create_function_mut`: a callback behind a cell, refusing re-entry. */
    method CreateFunctionMut(behaviour: Closure, fault: Option<Error>) returns (r: Result<ScopedFunction>)
      requires Valid()
      modifies this`entries
      ensures Valid()
      ensures fault.Some? ==> r == Err(fault.value) && entries == old(entries)
      ensures fault.None? ==> r.Ok? && fresh(r.value) && fresh(r.value.callback) &&
                              r.value.callback.behaviour == behaviour && r.value.callback.guarded &&
                              r.value.callback.active == 0 &&
                              entries == old(entries) + [FunctionEntry(r.value)]
    {
      var cb := new Callback(true, behaviour);
      r := CreateCallback(cb, fault);
    }

    /** `create_static_userdata`: creating the userdata may fail (`fault`), and then nothing is
        registered; otherwise its destructor is added. */
    method CreateStaticUserData(data: nat, fault: Option<Error>) returns (r: Result<ScopedUserData>)
      requires Valid()
      modifies this`entries
      ensures Valid()
      ensures fault.Some? ==> r == Err(fault.value) && entries == old(entries)
      ensures fault.None? ==> r.Ok? && fresh(r.value) && r.value.data == Some(data) &&
                              entries == old(entries) + [UserDataEntry(r.value)]
    {
      if fault.Some? {
        return Err(fault.value);
      }
      var u := new ScopedUserData(data);
      entries := entries + [UserDataEntry(u)];
      r := Ok(u);
    }

    /** The end of the scope: every destructor runs, in registration order, taking back what its
        handle held and invalidating it; only once all handles are invalidated is anything
        dropped, in the same order. Each step appends to `events` as it runs. */
    method Drop()
      requires Valid()
      modifies this, Handles(entries)
      ensures entries == [] && drained == old(entries)
      ensures AllDead(drained)
      ensures events == old(events) + Invalidations(old(entries)) + Drops(old(ReclaimAll(entries)))
    {
      drained := entries;
      var boxes := InvalidateAll(this, entries);
      entries := [];
      ReleaseAll(boxes);
    }

    /** The second phase of the end of the scope: drops what the destructors handed back, in
        order. */
    method ReleaseAll(boxes: seq<Reclaimed>)
      requires AllDead(drained) && Apart(this, drained)
      modifies this`events
      ensures events == old(events) + Drops(boxes)
      ensures AllDead(drained)
    {
      ghost var before := events;
      var i := 0;
      while i < |boxes|
        invariant 0 <= i <= |boxes|
        invariant AllDead(drained)
        invariant |events| == |before| + i
        invariant events[..|before|] == before
        invariant forall j :: 0 <= j < i ==> events[|before| + j] == Dropped(boxes[j])
      {
        Release(boxes[i]);
        i := i + 1;
      }
      assert events == before + Drops(boxes);
    }

    /** Dropping one value handed back by a destructor, which may run arbitrary host code; it is
        only done once no drained handle can reach a callback or payload any more. */
    method Release(box: Reclaimed)
      requires AllDead(drained)
      modifies this`events
      ensures events == old(events) + [Dropped(box)]
    {
      events := events + [Dropped(box)];
    }
  }

  /** The first phase of the end of `scope`: runs the destructors of `list` in order, each
      appending its invalidation to the scope's record. */
  method InvalidateAll(scope: Scope, list: seq<Entry>) returns (boxes: seq<Reclaimed>)
    requires Distinct(list) && Apart(scope, list)
    modifies Handles(list), scope`events
    ensures boxes == old(ReclaimAll(list))
    ensures forall j :: 0 <= j < |list| ==> Dead(list[j])
    ensures scope.events == old(scope.events) + Invalidations(list)
  {
    boxes := [];
    ghost var expected := ReclaimAll(list);
    ghost var before := scope.events;
    var i := 0;
    while i < |list|
      invariant 0 <= i <= |list|
      invariant boxes == expected[..i]
      invariant forall j :: 0 <= j < i ==> Dead(list[j])
      invariant forall j :: i <= j < |list| ==> Reclaim(list[j]) == expected[j]
      invariant scope.events == before + Invalidations(list[..i])
    {
      boxes := InvalidateNext(scope, list, i, boxes, expected, before);
      i := i + 1;
    }
    assert list[..i] == list;
  }

  /** One turn of the first phase: the destructor of `list[i]` runs after those before it. */
  method InvalidateNext(scope: Scope, list: seq<Entry>, i: nat, boxes: seq<Reclaimed>,
                        ghost expected: seq<Reclaimed>, ghost before: seq<Event>)
    returns (boxes': seq<Reclaimed>)
    requires i < |list| == |expected| && Distinct(list) && Apart(scope, list)
    requires boxes == expected[..i]
    requires forall j :: 0 <= j < i ==> Dead(list[j])
    requires forall j :: i <= j < |list| ==> Reclaim(list[j]) == expected[j]
    requires scope.events == before + Invalidations(list[..i])
    modifies Handle(list[i]), scope`events
    ensures boxes' == expected[..i + 1]
    ensures forall j :: 0 <= j < i + 1 ==> Dead(list[j])
    ensures forall j :: i + 1 <= j < |list| ==> Reclaim(list[j]) == expected[j]
    ensures scope.events == before + Invalidations(list[..i + 1])
  {
    var box := Destruct(scope, list, i);
    InvalidationsStep(list, i);
    boxes' := boxes + [box];
  }

  /** The invalidations of a prefix one entry longer end with that entry's invalidation. */
  lemma InvalidationsStep(list: seq<Entry>, i: nat)
    requires i < |list|
    ensures Invalidations(list[..i + 1]) == Invalidations(list[..i]) + [Invalidated(list[i])]
  {
    assert list[..i + 1][..i] == list[..i];
  }

  /** The destructor of `list[i]`: takes back what the handle holds, invalidates it, and appends
      the invalidation to the record of `scope`; the other handles of `list` are untouched. */
  method Destruct(scope: Scope, list: seq<Entry>, i: nat) returns (box: Reclaimed)
    requires i < |list| && Distinct(list) && Apart(scope, list)
    modifies Handle(list[i]), scope`events
    ensures box == old(Reclaim(list[i])) && Dead(list[i])
    ensures scope.events == old(scope.events) + [Invalidated(list[i])]
    ensures forall j :: 0 <= j < |list| && j != i ==>
              Reclaim(list[j]) == old(Reclaim(list[j])) && Dead(list[j]) == old(Dead(list[j]))
  {
    match list[i] {
      case FunctionEntry(f) =>
        box := CallbackBox(f.callback);
        f.callback := null;
      case UserDataEntry(u) =>
        box := DataBox(u.data);
        u.data := None;
    }
    scope.events := scope.events + [Invalidated(list[i])];
  }

  /** A function created in a scope calls through to its closure while the scope lasts and
      fails as destructed once it has ended, as does a userdata lose its payload. */
  method ScopeLifetime(behaviour: Closure, args: seq<Value>)
    returns (during: Result<seq<Value>>, after: Result<seq<Value>>, payload: Option<nat>)
    ensures during == behaviour(args, None)
    ensures after == Err(CallbackDestructed)
    ensures payload == None
  {
    var scope := new Scope();
    var f := scope.CreateFunction(behaviour, None);
    var u := scope.CreateStaticUserData(5, None);
    var inner;
    during, inner := f.value.Invoke(args, []);
    scope.Drop();
    after, inner := f.value.Invoke(args, []);
    payload := u.value.data;
  }

  /** A closure that calls itself with `nested` while running: behind the mutable cell the
      nested call is refused and the outer activation receives that refusal (to use or to
      propagate); a plain function's nested call runs, and the outer one receives its result. */
  method ReentrantCalls(behaviour: Closure, args: seq<Value>, nested: seq<Value>)
    returns (mutOuter: Result<seq<Value>>, mutInner: Option<Result<seq<Value>>>,
             plainOuter: Result<seq<Value>>, plainInner: Option<Result<seq<Value>>>)
    ensures mutInner == Some(Err(RecursiveMutCallback))
    ensures mutOuter == behaviour(args, Some(Err(RecursiveMutCallback)))
    ensures plainInner == Some(behaviour(nested, None))
    ensures plainOuter == behaviour(args, Some(behaviour(nested, None)))
  {
    var scope := new Scope();
    var g := scope.CreateFunctionMut(behaviour, None);
    var h := scope.CreateFunction(behaviour, None);
    mutOuter, mutInner := g.value.Invoke(args, [nested]);
    plainOuter, plainInner := h.value.Invoke(args, [nested]);
    scope.Drop();
  }
}
