/** The work context (src/work-context.ts): a context object with a two-state
    life cycle (active while it holds a list of finish listeners, finished once
    that list is gone), and the process-wide stack of entered contexts whose
    last element is the current context. */
module WorkContexts {
  import opened Outcomes

  /** A registered finish listener, as a token. Finish invokes the non-falsy
      ones; what a listener does is abstract, except that it either returns or
      throws, and the one listener kind whose effect the model knows: the one
      the propagation adapter registers to forget an asynchronous operation. */
  datatype Callback =
    | Falsy                             // a falsy list entry: finish skips it
    | Listener(id: int, throws: bool)   // user code: returns, or throws the value `id`
    | Untrack(asyncId: int)             // the adapter's listener: deletes `asyncId` from its map

  predicate Throws(cb: Callback) {
    cb.Listener? && cb.throws
  }

  /** The closure returned by enter. It keeps only the stack length recorded
      right after the push; it does not remember which context it belongs to. */
  datatype ExitFn = ExitFn(position: nat)

  /** How user code handed to run terminates. */
  datatype Completion = Returned(value: int) | Threw(value: int)

  /** The argument of run: either not a function at all, or a function given
      by its net effect on the stack and by how it terminates. */
  datatype Body =
    | NotAFunction
    | Function(effect: seq<WorkContext> -> seq<WorkContext>, completion: Completion)

  function Complete(c: Completion): (r: Result<int>) {
    match c
    case Returned(v) => Ok(v)
    case Threw(v) => Err(Thrown(v))
  }

  /** The current context of a stack: its last element, or none. */
  function Top(s: seq<WorkContext>): (r: Option<WorkContext>) {
    if s == [] then None else Some(s[|s| - 1])
  }

  /** What calling an exit closure does to the stack. A stack whose length is
      not the recorded one is left alone and the call throws; otherwise the last
      element is popped (popping an empty array changes nothing). */
  function ExitOn(s: seq<WorkContext>, e: ExitFn): (r: Result<seq<WorkContext>>) {
    if |s| != e.position then Err(OutOfOrder)
    else if s == [] then Ok([])
    else Ok(s[..|s| - 1])
  }

  /** An exit closure succeeds exactly when the stack has the recorded length,
      and then removes exactly the last element; otherwise the stack is kept. */
  lemma ExitSucceedsIffLengthMatches(s: seq<WorkContext>, c: WorkContext, e: ExitFn)
    ensures ExitOn(s, e).Ok? <==> |s| == e.position
    ensures ExitOn(s, e).Err? ==> ExitOn(s, e).error == OutOfOrder
    ensures ExitOn(s + [c], e).Ok? ==> ExitOn(s + [c], e).value == s
  {
  }

  /** Entering a context and calling the exit closure straight away restores
      the stack, whatever it held before, and the current context in between is
      the entered one. */
  lemma EnterThenExitRestores(s: seq<WorkContext>, c: WorkContext)
    ensures Top(s + [c]) == Some(c)
    ensures ExitOn(s + [c], ExitFn(|s + [c]|)) == Ok(s)
  {
  }

  /** Two nested enters: exiting the outer one first throws and leaves the
      stack alone; exiting the inner one brings back the outer context, and
      exiting the outer one then restores the stack held before both. */
  lemma OutOfOrderExitIsRejected(s: seq<WorkContext>, c1: WorkContext, c2: WorkContext)
    ensures var exit1 := ExitFn(|s| + 1);
            var exit2 := ExitFn(|s| + 2);
            ExitOn(s + [c1] + [c2], exit1) == Err(OutOfOrder) &&
            ExitOn(s + [c1] + [c2], exit2) == Ok(s + [c1]) &&
            Top(s + [c1]) == Some(c1) &&
            ExitOn(s + [c1], exit1) == Ok(s)
  {
  }

  /** The exit check compares lengths only: an exit closure kept after its own
      exit pops whatever context was entered later at the same depth. */
  lemma StaleExitPopsAnotherContext(s: seq<WorkContext>, c1: WorkContext, c2: WorkContext)
    requires c1 != c2
    ensures var exit1 := ExitFn(|s| + 1);
            ExitOn(s + [c1], exit1) == Ok(s) &&
            ExitOn(s + [c2], exit1) == Ok(s) &&
            Top(s + [c2]) == Some(c2)
  {
  }

  /** A tree of properly nested scopes: each enters its context, runs the
      scopes of its body in order, then calls the exit closure its enter
      returned (the shape of nested run calls). */
  datatype Scope = Scope(ctx: WorkContext, body: seq<Scope>)

  function RunScopes(s: seq<WorkContext>, scopes: seq<Scope>): (r: Result<seq<WorkContext>>)
    decreases scopes
  {
    if scopes == [] then Ok(s)
    else
      var pushed := s + [scopes[0].ctx];
      match RunScopes(pushed, scopes[0].body)
      case Err(e) => Err(e)
      case Ok(inner) =>
        match ExitOn(inner, ExitFn(|pushed|))
        case Err(e) => Err(e)
        case Ok(popped) => RunScopes(popped, scopes[1..])
  }

  /** Nesting law: properly nested enter/exit pairs never throw and hand back
      the stack they started from, so each scope's exit restores the context
      that was current before its enter. */
  lemma {:induction false} NestedScopesRestore(s: seq<WorkContext>, scopes: seq<Scope>)
    ensures RunScopes(s, scopes) == Ok(s)
    decreases scopes
  {
    if scopes != [] {
      var pushed := s + [scopes[0].ctx];
      NestedScopesRestore(pushed, scopes[0].body);
      EnterThenExitRestores(s, scopes[0].ctx);
      NestedScopesRestore(s, scopes[1..]);
    }
  }

  /** The listeners finish invokes, in registration order: the list without
      its falsy entries. */
  function Listeners(cbs: seq<Callback>): (r: seq<Callback>) {
    if cbs == [] then []
    else Listeners(cbs[..|cbs| - 1]) + (if cbs[|cbs| - 1].Falsy? then [] else [cbs[|cbs| - 1]])
  }

  /** Registering one more entry adds it to the listeners, unless falsy. */
  lemma ListenersOfAppend(cbs: seq<Callback>, cb: Callback)
    ensures Listeners(cbs + [cb]) == Listeners(cbs) + (if cb.Falsy? then [] else [cb])
  {
  }

  lemma {:induction false} ListenersAreTheNonFalsyEntries(cbs: seq<Callback>)
    ensures forall cb :: cb in Listeners(cbs) <==> cb in cbs && !cb.Falsy?
  {
    if cbs != [] {
      var init := cbs[..|cbs| - 1];
      ListenersAreTheNonFalsyEntries(init);
      assert cbs == init + [cbs[|cbs| - 1]];
    }
  }

  /** The listeners of a prefix of the list are a prefix of its listeners. */
  lemma {:induction false} ListenersOfPrefix(cbs: seq<Callback>, i: nat)
    requires i <= |cbs|
    ensures Listeners(cbs[..i]) <= Listeners(cbs)
    decreases |cbs| - i
  {
    if i < |cbs| {
      ListenersOfPrefix(cbs, i + 1);
      assert cbs[..i + 1][..i] == cbs[..i];
    } else {
      assert cbs[..i] == cbs;
    }
  }

  /** What invoking a listener list one by one leaves behind: `ran` are the
      listeners invoked, a prefix of the non-falsy entries in registration
      order; every one of them but the last returned; `thrown` is what the
      last one threw, if it threw, and otherwise every listener ran. */
  ghost predicate InvokedInOrder(cbs: seq<Callback>, ran: seq<Callback>, thrown: Option<int>) {
    && ran <= Listeners(cbs)
    && (forall k :: 0 <= k < |ran| - 1 ==> !Throws(ran[k]))
    && (thrown.None? ==> ran == Listeners(cbs) && (ran == [] || !Throws(ran[|ran| - 1])))
    && (thrown.Some? ==> ran != [] && Throws(ran[|ran| - 1]) && thrown.value == ran[|ran| - 1].id)
  }

  /** Invoking a listener list ends without a throw exactly when no entry of
      the list throws. */
  lemma AllReturnIffNoneThrows(cbs: seq<Callback>, ran: seq<Callback>, thrown: Option<int>)
    requires InvokedInOrder(cbs, ran, thrown)
    ensures thrown.None? <==> forall cb :: cb in cbs ==> !Throws(cb)
  {
    ListenersAreTheNonFalsyEntries(cbs);
    if thrown.None? {
      forall cb | cb in cbs ensures !Throws(cb) {
        if Throws(cb) {
          assert cb in Listeners(cbs);
          var k :| 0 <= k < |ran| && ran[k] == cb;
        }
      }
    } else {
      assert ran[|ran| - 1] in Listeners(cbs);
    }
  }

  /** What a listener list leaves behind is determined by the list: the
      listeners invoked and the value thrown, if any, are unique. */
  lemma InvokedInOrderIsUnique(cbs: seq<Callback>, ran1: seq<Callback>, thrown1: Option<int>,
                               ran2: seq<Callback>, thrown2: Option<int>)
    requires InvokedInOrder(cbs, ran1, thrown1)
    requires InvokedInOrder(cbs, ran2, thrown2)
    ensures ran1 == ran2 && thrown1 == thrown2
  {
  }

  /** The loop of finish: invoke each non-falsy listener in order, stopping at
      the first one that throws. */
  method InvokeCallbacks(cbs: seq<Callback>) returns (ran: seq<Callback>, thrown: Option<int>)
    ensures InvokedInOrder(cbs, ran, thrown)
  {
    ran, thrown := [], None;
    var i := 0;
    while i < |cbs|
      invariant 0 <= i <= |cbs|
      invariant ran == Listeners(cbs[..i])
      invariant forall k :: 0 <= k < |ran| ==> !Throws(ran[k])
    {
      var cb := cbs[i];
      assert cbs[..i + 1][..i] == cbs[..i];
      if !cb.Falsy? {
        ran := ran + [cb];
        if Throws(cb) {
          thrown := Some(cb.id);
          ListenersOfPrefix(cbs, i + 1);
          return;
        }
      }
      i := i + 1;
    }
    assert cbs[..i] == cbs;
  }

  class WorkContext {
    /** The finish listeners while the context is active; none once finished. */
    var callbacks: Option<seq<Callback>>

    constructor ()
      ensures callbacks == Some([])
    {
      callbacks := Some([]);
    }

    predicate Finished()
      reads this
    {
      callbacks.None?
    }

    /** Registers a finish listener at the end of the list and returns the
        context itself; throws on a finished context. */
    method OnFinish(cb: Callback) returns (r: Result<WorkContext>)
      modifies this
      ensures old(callbacks).None? ==> r == Err(AlreadyFinished) && callbacks == old(callbacks)
      ensures old(callbacks).Some? ==> r == Ok(this) && callbacks == Some(old(callbacks).value + [cb])
    {
      if callbacks.None? {
        return Err(AlreadyFinished);
      }
      callbacks := Some(callbacks.value + [cb]);
      r := Ok(this);
    }

    /** Finishes the context: refuses a finished context and one still on the
        stack; otherwise invokes the listeners in order and, only if none threw,
        marks the context finished. `ran` is the listeners invoked. */
    method Finish(st: ContextStack) returns (ran: seq<Callback>, r: Outcome)
      modifies this
      ensures old(callbacks).None? ==> r == Fail(AlreadyFinished) && ran == [] && callbacks == old(callbacks)
      ensures old(callbacks).Some? && this in st.items ==>
                r == Fail(NotCleared) && ran == [] && callbacks == old(callbacks)
      ensures old(callbacks).Some? && this !in st.items ==>
                (r == Done || r.error.Thrown?) &&
                InvokedInOrder(old(callbacks).value, ran, if r == Done then None else Some(r.error.value)) &&
                callbacks == (if r == Done then None else old(callbacks)) &&
                (r == Done <==> forall cb :: cb in old(callbacks).value ==> !Throws(cb))
      ensures old(st.Valid()) ==> st.Valid()
    {
      if callbacks.None? {
        return [], Fail(AlreadyFinished);
      }
      if this in st.items {
        return [], Fail(NotCleared);
      }
      var thrown;
      ran, thrown := InvokeCallbacks(callbacks.value);
      AllReturnIffNoneThrows(callbacks.value, ran, thrown);
      if thrown.Some? {
        return ran, Fail(Thrown(thrown.value));
      }
      callbacks := None;
      r := Done;
    }

    /** Pushes this context and returns the exit closure, which remembers the
        new stack length; throws on a finished context. */
    method Enter(st: ContextStack) returns (r: Result<ExitFn>)
      modifies st
      ensures callbacks.None? ==> r == Err(AlreadyFinished) && st.items == old(st.items)
      ensures callbacks.Some? ==>
                st.items == old(st.items) + [this] && Top(st.items) == Some(this) &&
                r == Ok(ExitFn(|st.items|))
      ensures old(st.Valid()) ==> st.Valid()
    {
      if callbacks.None? {
        return Err(AlreadyFinished);
      }
      st.items := st.items + [this];
      r := Ok(ExitFn(|st.items|));
    }

    /** Runs `fn` in this context: the finished check comes first, then the
        function check; otherwise enter, run `fn`, and call the exit closure
        whether `fn` returned or threw. An exit that throws replaces the
        completion of `fn`. */
    method Run(st: ContextStack, fn: Body) returns (r: Result<int>)
      modifies st
      ensures callbacks.None? ==> r == Err(AlreadyFinished) && st.items == old(st.items)
      ensures callbacks.Some? && fn.NotAFunction? ==> r == Err(NotCallable) && st.items == old(st.items)
      ensures callbacks.Some? && fn.Function? ==>
                var during := fn.effect(old(st.items) + [this]);
                match ExitOn(during, ExitFn(|old(st.items)| + 1))
                case Err(e) => r == Err(e) && st.items == during
                case Ok(after) => r == Complete(fn.completion) && st.items == after
      ensures callbacks.Some? && fn.Function? && fn.effect(old(st.items) + [this]) == old(st.items) + [this] ==>
                r == Complete(fn.completion) && st.items == old(st.items)
    {
      if callbacks.None? {
        return Err(AlreadyFinished);
      }
      if fn.NotAFunction? {
        return Err(NotCallable);
      }
      var entered := Enter(st);
      var exit := entered.value;
      st.items := fn.effect(st.items);
      var exited := st.CallExit(exit);
      if exited.Fail? {
        return Err(exited.error);
      }
      r := Complete(fn.completion);
      EnterThenExitRestores(old(st.items), this);
    }
  }

  /** The process-wide stack of entered contexts. */
  class ContextStack {
    var items: seq<WorkContext>

    constructor ()
      ensures items == []
    {
      items := [];
    }

    /** No finished context is on the stack. */
    ghost predicate Valid()
      reads this, items
    {
      forall i :: 0 <= i < |items| ==> items[i].callbacks.Some?
    }

    /** The current context: the last element of the stack, or none exactly
        when the stack is empty. */
    method GetCurrent() returns (r: Option<WorkContext>)
      ensures r.None? <==> items == []
      ensures r.Some? ==> r.value == items[|items| - 1]
      ensures r == Top(items)
    {
      if |items| == 0 {
        return None;
      }
      r := Some(items[|items| - 1]);
    }

    /** Calls an exit closure: throws and keeps the stack unless it has the
        recorded length; otherwise pops it. */
    method CallExit(e: ExitFn) returns (r: Outcome)
      modifies this
      ensures |old(items)| != e.position ==> r == Fail(OutOfOrder) && items == old(items)
      ensures |old(items)| == e.position ==> r == Done && ExitOn(old(items), e) == Ok(items)
      ensures old(Valid()) ==> Valid()
    {
      if |items| != e.position {
        return Fail(OutOfOrder);
      }
      if items != [] {
        items := items[..|items| - 1];
      }
      r := Done;
    }
  }
}
