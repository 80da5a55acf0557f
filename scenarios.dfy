/** Client code driving the model through the situations the repository's
    tests exercise (test/test.ts), with what each situation must produce. */
module Scenarios {
  import opened Outcomes
  import opened WorkContexts
  import opened AsyncHooks

  /** A fresh stack has no current context, constructing a context does not
      set one, enter makes it current and its exit clears it again. */
  method EnterAndExit() returns (wc1: WorkContext, atStart: Option<WorkContext>, afterNew: Option<WorkContext>,
                                 inside: Option<WorkContext>, exited: Outcome, afterExit: Option<WorkContext>)
    ensures atStart == None && afterNew == None
    ensures inside == Some(wc1) && exited == Done && afterExit == None
  {
    var st := new ContextStack();
    atStart := st.GetCurrent();
    wc1 := new WorkContext();
    afterNew := st.GetCurrent();
    var exit := wc1.Enter(st);
    inside := st.GetCurrent();
    exited := st.CallExit(exit.value);
    afterExit := st.GetCurrent();
  }

  /** Nested enters of two contexts: exiting the outer one first throws and
      leaves the inner one current; exiting in order restores each earlier
      current context in turn. */
  method NestedEnters() returns (wc1: WorkContext, wc2: WorkContext, wrongOrder: Outcome,
                                 afterWrong: Option<WorkContext>, afterInner: Option<WorkContext>,
                                 afterOuter: Option<WorkContext>)
    ensures wrongOrder == Fail(OutOfOrder) && afterWrong == Some(wc2)
    ensures afterInner == Some(wc1) && afterOuter == None
  {
    var st := new ContextStack();
    wc1 := new WorkContext();
    wc2 := new WorkContext();
    var exit1 := wc1.Enter(st);
    var exit2 := wc2.Enter(st);
    wrongOrder := st.CallExit(exit1.value);
    afterWrong := st.GetCurrent();
    var exited := st.CallExit(exit2.value);
    afterInner := st.GetCurrent();
    exited := st.CallExit(exit1.value);
    afterOuter := st.GetCurrent();
  }

  /** run hands back what its function returns, rethrows what it throws, and
      in both cases leaves no context current; a non-function is refused. */
  method RunResults(v: int) returns (returned: Result<int>, threw: Result<int>, refused: Result<int>,
                                     afterRuns: Option<WorkContext>)
    ensures returned == Ok(v) && threw == Err(Thrown(v)) && refused == Err(NotCallable)
    ensures afterRuns == None
  {
    var st := new ContextStack();
    var wc1 := new WorkContext();
    returned := wc1.Run(st, Function(s => s, Returned(v)));
    threw := wc1.Run(st, Function(s => s, Threw(v)));
    refused := wc1.Run(st, NotAFunction);
    afterRuns := st.GetCurrent();
  }

  /** After finish, enter, finish, onFinish and run all throw. */
  method FinishedContextRefusesEverything() returns (finished: Outcome, entered: Result<ExitFn>,
                                                    again: Outcome, registered: Result<WorkContext>,
                                                    ran: Result<int>)
    ensures finished == Done
    ensures entered == Err(AlreadyFinished) && again == Fail(AlreadyFinished)
    ensures registered == Err(AlreadyFinished) && ran == Err(AlreadyFinished)
  {
    var st := new ContextStack();
    var wc := new WorkContext();
    var invoked;
    invoked, finished := wc.Finish(st);
    entered := wc.Enter(st);
    invoked, again := wc.Finish(st);
    registered := wc.OnFinish(Listener(0, false));
    ran := wc.Run(st, Function(s => s, Returned(0)));
  }

  /** Registering listeners only holds them in the list, the context staying
      active; finish then runs them in the order they were registered. */
  method ListenersRunInOrder() returns (pending: seq<Callback>, activeBeforeFinish: bool,
                                        ran: seq<Callback>, finished: Outcome)
    ensures pending == [Listener(1, false), Listener(2, false)] && activeBeforeFinish
    ensures ran == pending && finished == Done
  {
    var st := new ContextStack();
    var wc := new WorkContext();
    var r := wc.OnFinish(Listener(1, false));
    assert wc.callbacks.value == [] + [Listener(1, false)] == [Listener(1, false)];
    r := wc.OnFinish(Listener(2, false));
    assert wc.callbacks.value == [Listener(1, false)] + [Listener(2, false)] == [Listener(1, false), Listener(2, false)];
    pending := wc.callbacks.value;
    activeBeforeFinish := !wc.Finished();
    assert Listeners(pending) == pending by {
      ListenersOfAppend([], Listener(1, false));
      ListenersOfAppend([Listener(1, false)], Listener(2, false));
    }
    ran, finished := wc.Finish(st);
  }

  /** A listener that throws makes finish throw, stops the later listeners,
      and leaves the context active. */
  method ThrowingListenerAbortsFinish() returns (ran: seq<Callback>, finished: Outcome, stillActive: bool)
    ensures ran == [Listener(1, true)] && finished == Fail(Thrown(1)) && stillActive
  {
    var st := new ContextStack();
    var wc := new WorkContext();
    var r := wc.OnFinish(Listener(1, true));
    r := wc.OnFinish(Listener(2, false));
    ghost var cbs := wc.callbacks.value;
    assert Listeners(cbs) == cbs by {
      ListenersOfAppend([], Listener(1, true));
      ListenersOfAppend([Listener(1, true)], Listener(2, false));
    }
    ran, finished := wc.Finish(st);
    stillActive := !wc.Finished();
  }

  /** finish inside the context's own run throws and invokes no listener. */
  method FinishInsideOwnScope() returns (ran: seq<Callback>, finished: Outcome)
    ensures ran == [] && finished == Fail(NotCleared)
  {
    var st := new ContextStack();
    var wc := new WorkContext();
    var r := wc.OnFinish(Listener(1, false));
    var exit := wc.Enter(st);
    ran, finished := wc.Finish(st);
  }

  /** A continuation scheduled while wc1 is current runs with wc1 current,
      although wc2 ran on the thread in between, and the stack is empty again
      once it is done. */
  method ContinuationSeesItsContext() returns (wc1: WorkContext, inContinuation: Option<WorkContext>,
                                              afterContinuation: Option<WorkContext>)
    ensures inContinuation == Some(wc1) && afterContinuation == None
  {
    var st := new ContextStack();
    var hook := new Hook();
    wc1 := new WorkContext();
    var wc2 := new WorkContext();
    ScheduleUnder(st, hook, wc1, 7);    // scheduled inside wc1
    var other := wc2.Run(st, Function(s => s, Returned(0)));
    assert st.items == [];
    inContinuation, afterContinuation := Resume(st, hook, 7);
  }

  /** The host resumes operation `id` with no context current: `before`, the
      callback, `after`. Reports the current context inside the callback and
      after it. */
  method Resume(st: ContextStack, hook: Hook, id: int) returns (inside: Option<WorkContext>, after: Option<WorkContext>)
    requires st.items == [] && st.Valid() && hook.Valid()
    requires id in hook.entries && hook.entries[id].exit == None
    modifies st, hook
    ensures inside == Some(old(hook.entries[id].ctx)) && after == None
  {
    var r := hook.Before(st, id);       // the continuation starts
    assert st.items == [old(hook.entries[id].ctx)] && hook.entries[id].exit == Some(ExitFn(1));
    inside := st.GetCurrent();
    r := hook.After(st, id);            // the continuation ends
    after := st.GetCurrent();
  }

  /** Once the captured context finishes, its listener has forgotten the
      operation, so a later `before` no longer re-enters the context. */
  method FinishedContextIsNotReentered() returns (finished: Outcome, resumed: Outcome, current: Option<WorkContext>)
    ensures finished == Done && resumed == Done && current == None
  {
    var st := new ContextStack();
    var hook := new Hook();
    var wc := new WorkContext();
    ScheduleUnder(st, hook, wc, 3);
    ListenersOfAppend([], Untrack(3));
    var ran;
    ran, finished := hook.FinishContext(st, wc);
    resumed := hook.Before(st, 3);
    current := st.GetCurrent();
  }

  /** A finish that a later listener aborts has already run the adapter's
      forgetting listener registered before it: the operation is no longer
      tracked, although the context stays active. */
  method AbortedFinishKeepsEarlierDeletions() returns (finished: Outcome, tracked: bool, stillActive: bool)
    ensures finished == Fail(Thrown(1)) && !tracked && stillActive
  {
    var st, hook, wc := TrackedUnderThrowingListener();
    var ran;
    ran, finished := hook.FinishContext(st, wc);
    UntrackThenThrow(ran, if finished == Done then None else Some(finished.error.value));
    tracked := 3 in hook.entries;
    stillActive := !wc.Finished();
  }

  /** Finishing the list [Untrack(3), Listener(1, true)] runs both entries
      and throws 1. */
  lemma UntrackThenThrow(ran: seq<Callback>, thrown: Option<int>)
    requires InvokedInOrder([Untrack(3), Listener(1, true)], ran, thrown)
    ensures ran == [Untrack(3), Listener(1, true)] && thrown == Some(1)
  {
    var cbs := [Untrack(3), Listener(1, true)];
    assert Listeners(cbs) == cbs by {
      ListenersOfAppend([], Untrack(3));
      assert [Untrack(3)] + [Listener(1, true)] == cbs;
      ListenersOfAppend([Untrack(3)], Listener(1, true));
    }
    AllReturnIffNoneThrows(cbs, ran, thrown);
    assert thrown.Some? by { assert Listener(1, true) in cbs; }
  }

  /** Operation 3 created under a context on which a throwing listener is
      registered after the adapter's own; no context is current. */
  method TrackedUnderThrowingListener() returns (st: ContextStack, hook: Hook, wc: WorkContext)
    ensures fresh(st) && fresh(hook) && fresh(wc)
    ensures st.items == [] && hook.entries == map[3 := MapEntry(wc, None, wc)]
    ensures wc.callbacks == Some([Untrack(3), Listener(1, true)])
    ensures hook.Valid() && st.Valid()
  {
    st := new ContextStack();
    hook := new Hook();
    wc := new WorkContext();
    ScheduleUnder(st, hook, wc, 3);
    assert wc.callbacks.value == [] + [Untrack(3)] == [Untrack(3)];
    var registered := wc.OnFinish(Listener(1, true));
    assert wc.callbacks.value == [Untrack(3)] + [Listener(1, true)] == [Untrack(3), Listener(1, true)];
  }

  /** Creates operation `id` while `wc` alone is entered, then exits `wc`
      again: the operation is tracked under `wc`, whose list now ends with the
      listener that forgets it, and the stack is empty again. */
  method ScheduleUnder(st: ContextStack, hook: Hook, wc: WorkContext, id: int)
    requires st.items == [] && wc.callbacks.Some? && hook.Valid() && st.Valid()
    modifies st, hook, wc
    ensures st.items == []
    ensures hook.entries == old(hook.entries)[id := MapEntry(wc, None, wc)]
    ensures wc.callbacks == Some(old(wc.callbacks).value + [Untrack(id)])
    ensures hook.Valid() && st.Valid()
  {
    var exit := wc.Enter(st);
    assert st.items == [wc];
    var r := hook.Init(st, id);
    var exited := st.CallExit(exit.value);
  }
}
