/**
 * The reducer-style state container that the synchronization engine drives.
 * It holds one application state. A named update looks the name up among the
 * properties of the current state and, when it is a function, replaces the
 * state by that function's result. A saved update also records a dispatch
 * `{type, data}` that `applyAction` can apply again.
 */
module Synchronizing {
  import opened Outcomes

  /** How a call ends: it returns a new state, or it throws. */
  datatype Effect<S> = Returned(state: S) | Threw

  /**
   * What `currentState[methodName]` yields: a value that is not a function,
   * an exception (the state is null or undefined, a getter throws, or, for a
   * value that is not a function, the "not found" message cannot convert a
   * state without `toString`, such as `Object.create(null)`, to a string),
   * or a function of the state and the arguments. An argument of `None` stands
   * for `undefined`.
   */
  datatype Property<!S, !A> =
    | NotAFunction
    | Unreadable
    | Function(update: (S, seq<Option<A>>) -> Effect<S>)

  /** The properties a state offers, by name. */
  type MethodTable<!S, !A> = (S, string) -> Property<S, A>

  /** What `_updateState(name, args)` does to the state: every outcome but a throw returns. */
  function Invoke<S, A>(methods: MethodTable<S, A>, s: S, name: string, args: seq<Option<A>>): Effect<S>
  {
    match methods(s, name)
    case NotAFunction => Returned(s)
    case Unreadable => Threw
    case Function(update) => update(s, args)
  }

  /** The state after `_updateState(name, args)`: the method's result, or the old state if it threw or was missing. */
  function Step<S, A>(methods: MethodTable<S, A>, s: S, name: string, args: seq<Option<A>>): S
  {
    match Invoke(methods, s, name, args)
    case Returned(t) => t
    case Threw => s
  }

  predicate Throws<S, A>(methods: MethodTable<S, A>, s: S, name: string, args: seq<Option<A>>)
  {
    Invoke(methods, s, name, args).Threw?
  }

  /** What the `dispatches` event carries: `{type, data}`. */
  datatype Action<A> = Action(actionType: string, data: Option<A>)

  /** One call `updateAndSave(name, ...args)`. */
  datatype Call<A> = Call(name: string, args: seq<Option<A>>)

  /** The dispatch `updateAndSave(name, ...args)` sends: the first argument, or `undefined` if there is none. */
  function DispatchOf<A>(name: string, args: seq<Option<A>>): (d: Action<A>)
    ensures d.actionType == name
    ensures |args| == 0 ==> d.data == None
    ensures |args| > 0 ==> d.data == args[0]
  {
    Action(name, if |args| == 0 then None else args[0])
  }

  /** `updateAndSave` reaches its dispatch: the update did not throw and there is at most one argument. */
  predicate Saves<S, A>(methods: MethodTable<S, A>, s: S, c: Call<A>)
  {
    !Throws(methods, s, c.name, c.args) && |c.args| <= 1
  }

  /** The state after a series of `updateAndSave` calls, each made whether or not an earlier one threw. */
  function Run<S, A>(methods: MethodTable<S, A>, s: S, calls: seq<Call<A>>): S
    decreases |calls|
  {
    if calls == [] then s
    else Run(methods, Step(methods, s, calls[0].name, calls[0].args), calls[1..])
  }

  /** The dispatches a series of `updateAndSave` calls sends from state `s`: none for a call that throws. */
  function Log<S, A>(methods: MethodTable<S, A>, s: S, calls: seq<Call<A>>): seq<Action<A>>
    decreases |calls|
  {
    if calls == [] then []
    else
      var c := calls[0];
      (if Saves(methods, s, c) then [DispatchOf(c.name, c.args)] else [])
      + Log(methods, Step(methods, s, c.name, c.args), calls[1..])
  }

  /** The state after `applyAction` is called with each action in turn. */
  function ApplyAll<S, A>(methods: MethodTable<S, A>, s: S, actions: seq<Action<A>>): S
    decreases |actions|
  {
    if actions == [] then s
    else ApplyAll(methods, Step(methods, s, actions[0].actionType, [actions[0].data]), actions[1..])
  }

  /**
   * A call its dispatch replays faithfully: it has exactly one argument, or
   * none and its method cannot tell no argument from one `undefined`.
   */
  ghost predicate Replayable<S(!new), A>(methods: MethodTable<S, A>, c: Call<A>)
  {
    |c.args| == 1
    || (|c.args| == 0 && forall t: S :: Invoke(methods, t, c.name, []) == Invoke(methods, t, c.name, [None]))
  }

  /** Applying the dispatch of a replayable call updates the state as the call did. */
  lemma ReplayStep<S(!new), A>(methods: MethodTable<S, A>, s: S, c: Call<A>)
    requires Replayable(methods, c)
    ensures Step(methods, s, c.name, [DispatchOf(c.name, c.args).data]) == Step(methods, s, c.name, c.args)
  {
    if |c.args| == 1 {
      assert [c.args[0]] == c.args;
    } else {
      assert Invoke(methods, s, c.name, []) == Invoke(methods, s, c.name, [None]);
      assert c.args == [];
    }
  }

  /**
   * Replaying the dispatch log of replayable calls reproduces the state those
   * calls reached; a call that threw left neither a change nor a dispatch.
   */
  lemma {:induction false} ReplayLog<S(!new), A>(methods: MethodTable<S, A>, s: S, calls: seq<Call<A>>)
    requires forall i :: 0 <= i < |calls| ==> Replayable(methods, calls[i])
    ensures ApplyAll(methods, s, Log(methods, s, calls)) == Run(methods, s, calls)
    decreases |calls|
  {
    if calls != [] {
      var c, rest := calls[0], calls[1..];
      var s' := Step(methods, s, c.name, c.args);
      assert Replayable(methods, c);
      assert forall i :: 0 <= i < |rest| ==> Replayable(methods, rest[i]) by {
        forall i | 0 <= i < |rest| ensures Replayable(methods, rest[i]) {
          assert rest[i] == calls[i + 1];
        }
      }
      ReplayLog(methods, s', rest);
      var tail := Log(methods, s', rest);
      if Saves(methods, s, c) {
        var d := DispatchOf(c.name, c.args);
        assert Log(methods, s, calls) == [d] + tail;
        assert ([d] + tail)[0] == d && ([d] + tail)[1..] == tail;
        ReplayStep(methods, s, c);
      } else {
        assert Throws(methods, s, c.name, c.args);
        assert s' == s;
        assert Log(methods, s, calls) == [] + tail;
        assert [] + tail == tail;
      }
    }
  }

  /** Calls that each take exactly one argument are reproduced exactly by replaying their dispatches. */
  lemma ReplayReproducesState<S(!new), A>(methods: MethodTable<S, A>, s: S, calls: seq<Call<A>>)
    requires forall i :: 0 <= i < |calls| ==> |calls[i].args| == 1
    ensures ApplyAll(methods, s, Log(methods, s, calls)) == Run(methods, s, calls)
  {
    ReplayLog(methods, s, calls);
  }

  /** The log gains one dispatch per call that reaches its dispatch, in call order. */
  lemma {:induction false} LogSnoc<S, A>(methods: MethodTable<S, A>, s: S, calls: seq<Call<A>>, c: Call<A>)
    ensures Log(methods, s, calls + [c])
         == Log(methods, s, calls)
            + (if Saves(methods, Run(methods, s, calls), c) then [DispatchOf(c.name, c.args)] else [])
    decreases |calls|
  {
    var last: seq<Action<A>> := if Saves(methods, Run(methods, s, calls), c) then [DispatchOf(c.name, c.args)] else [];
    if calls == [] {
      assert [] + [c] == [c];
      assert Log(methods, s, [c]) == last + Log(methods, Step(methods, s, c.name, c.args), []);
    } else {
      var head := calls[0];
      var s' := Step(methods, s, head.name, head.args);
      var first: seq<Action<A>> := if Saves(methods, s, head) then [DispatchOf(head.name, head.args)] else [];
      assert (calls + [c])[0] == head;
      assert (calls + [c])[1..] == calls[1..] + [c];
      assert Log(methods, s, calls + [c]) == first + Log(methods, s', calls[1..] + [c]);
      LogSnoc(methods, s', calls[1..], c);
      assert Log(methods, s, calls) == first + Log(methods, s', calls[1..]);
      assert first + (Log(methods, s', calls[1..]) + last) == (first + Log(methods, s', calls[1..])) + last;
    }
  }

  lemma {:induction false} RunSnoc<S, A>(methods: MethodTable<S, A>, s: S, calls: seq<Call<A>>, c: Call<A>)
    ensures Run(methods, s, calls + [c]) == Step(methods, Run(methods, s, calls), c.name, c.args)
    decreases |calls|
  {
    if calls == [] {
      assert [] + [c] == [c];
    } else {
      assert (calls + [c])[0] == calls[0];
      assert (calls + [c])[1..] == calls[1..] + [c];
      RunSnoc(methods, Step(methods, s, calls[0].name, calls[0].args), calls[1..], c);
    }
  }

  /**
   * A call with several arguments changes the state but leaves no dispatch,
   * so replaying the log does not reproduce that change.
   */
  lemma UnsavedChange<S, A>(methods: MethodTable<S, A>, s: S, calls: seq<Call<A>>, c: Call<A>)
    requires |c.args| > 1
    ensures Log(methods, s, calls + [c]) == Log(methods, s, calls)
    ensures Run(methods, s, calls + [c]) == Step(methods, Run(methods, s, calls), c.name, c.args)
  {
    LogSnoc(methods, s, calls, c);
    RunSnoc(methods, s, calls, c);
  }

  /** A call whose update throws changes nothing and sends nothing. */
  lemma ThrowingCallLeavesNoTrace<S, A>(methods: MethodTable<S, A>, s: S, calls: seq<Call<A>>, c: Call<A>)
    requires Throws(methods, Run(methods, s, calls), c.name, c.args)
    ensures Run(methods, s, calls + [c]) == Run(methods, s, calls)
    ensures Log(methods, s, calls + [c]) == Log(methods, s, calls)
  {
    LogSnoc(methods, s, calls, c);
    RunSnoc(methods, s, calls, c);
  }

  /** A call naming a property that is not a function changes nothing, yet is still dispatched. */
  lemma MissingMethodIsDispatched<S, A>(methods: MethodTable<S, A>, s: S, calls: seq<Call<A>>, c: Call<A>)
    requires |c.args| <= 1 && methods(Run(methods, s, calls), c.name).NotAFunction?
    ensures Run(methods, s, calls + [c]) == Run(methods, s, calls)
    ensures Log(methods, s, calls + [c]) == Log(methods, s, calls) + [DispatchOf(c.name, c.args)]
  {
    LogSnoc(methods, s, calls, c);
    RunSnoc(methods, s, calls, c);
  }

  class SynchronizingStore<S, A> {
    /** The properties every state offers, looked up by name. */
    const methods: MethodTable<S, A>
    /** The value of the `state` observable. */
    var state: S
    /** Every action sent on the `dispatches` event, oldest first. */
    var dispatches: seq<Action<A>>
    /** The names reported as "not found", oldest first. */
    var missing: seq<string>

    constructor (methods: MethodTable<S, A>, initialState: S)
      ensures this.methods == methods && state == initialState
      ensures dispatches == [] && missing == []
    {
      this.methods := methods;
      state := initialState;
      dispatches := [];
      missing := [];
    }

    /** `appState`: the current state. */
    method AppState() returns (s: S)
      ensures s == state
    {
      s := state;
    }

    /**
     * `_updateState`: apply the named method of the current state, or report
     * that it is missing. It returns whether the lookup or the method threw,
     * in which case the state is kept and nothing is reported.
     */
    method UpdateState(name: string, args: seq<Option<A>>) returns (threw: bool)
      modifies this
      ensures threw == Throws(methods, old(state), name, args)
      ensures state == Step(methods, old(state), name, args)
      ensures methods(old(state), name).NotAFunction? ==> state == old(state)
      ensures missing == old(missing) + if methods(old(state), name).NotAFunction? then [name] else []
      ensures dispatches == old(dispatches)
    {
      match methods(state, name)
      case NotAFunction =>
        missing := missing + [name];
        threw := false;
      case Unreadable =>
        threw := true;
      case Function(update) =>
        match update(state, args)
        case Threw =>
          threw := true;
        case Returned(t) =>
          state := t;
          threw := false;
    }

    /**
     * `updateAndSave(name, ...args)`: update the state, then send one
     * dispatch. It throws, sending nothing, when the update throws, and
     * also, after the update, when there is more than one argument; it
     * returns whether it threw.
     */
    method UpdateAndSave(name: string, args: seq<Option<A>>) returns (threw: bool)
      modifies this
      ensures threw <==> Throws(methods, old(state), name, args) || |args| > 1
      ensures !threw <==> Saves(methods, old(state), Call(name, args))
      ensures state == Step(methods, old(state), name, args)
      ensures dispatches == old(dispatches) + if threw then [] else [DispatchOf(name, args)]
      ensures missing == old(missing) + if methods(old(state), name).NotAFunction? then [name] else []
    {
      threw := UpdateState(name, args);
      if threw || |args| > 1 {
        return true;
      }
      dispatches := dispatches + [DispatchOf(name, args)];
    }

    /** `applySnapshot`: does nothing. */
    method ApplySnapshot()
      ensures unchanged(this)
    {
    }

    /** `applyAction`: the update a dispatch describes, without a dispatch of its own; it returns whether it threw. */
    method ApplyAction(action: Action<A>) returns (threw: bool)
      modifies this
      ensures threw == Throws(methods, old(state), action.actionType, [action.data])
      ensures state == Step(methods, old(state), action.actionType, [action.data])
      ensures dispatches == old(dispatches)
      ensures missing == old(missing) + if methods(old(state), action.actionType).NotAFunction? then [action.actionType] else []
    {
      threw := UpdateState(action.actionType, [action.data]);
    }
  }
}
