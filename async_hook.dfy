/** The propagation adapter (src/async-hook.ts): a map from asynchronous
    operation ids to the context current when the operation was created,
    driven by the host's four lifecycle events. `before` re-enters the captured
    context just before the operation's callback runs and `after` exits it just
    after, so the callback sees the context that scheduled it. */
module AsyncHooks {
  import opened Outcomes
  import opened WorkContexts

  /** The adapter's record of one operation: the context captured at `init`,
      the exit closure of the latest `before` (one slot per operation, not a
      stack), and what `init` stored as the remover of its finish listener,
      which is the value onFinish returns: the context itself. */
  datatype MapEntry = MapEntry(ctx: WorkContext, exit: Option<ExitFn>, removeFinishListener: WorkContext)

  /** The host's lifecycle notifications, each for one operation id. */
  datatype Event = Init(asyncId: int) | Before(asyncId: int) | After(asyncId: int) | Destroy(asyncId: int)

  /** The state the events act on: the adapter's map and the context stack. */
  datatype State = State(entries: map<int, MapEntry>, stack: seq<WorkContext>)

  /** One event as the adapter handles it, for the case where every context it
      touches is active (which Hook.Valid and ContextStack.Valid guarantee; the
      Hook methods below handle the finished case). Unknown ids are ignored.
      The Destroy case is destroy as evidently intended (the entry is deleted);
      destroy as written throws instead, see DestroyAsWritten. */
  function Step(t: State, ev: Event): (r: Result<State>)
    // only `after` throws: on an empty slot or an exit out of order
    ensures r.Err? <==> ev.After? && ev.asyncId in t.entries &&
                        (t.entries[ev.asyncId].exit.None? || ExitOn(t.stack, t.entries[ev.asyncId].exit.value).Err?)
    // every other operation's entry is left alone
    ensures r.Ok? ==> forall other :: other != ev.asyncId ==>
                        (other in r.value.entries <==> other in t.entries) &&
                        (other in t.entries ==> r.value.entries[other] == t.entries[other])
    // only `before` pushes and only `after` pops, one context at a time
    ensures r.Ok? && !(ev.Before? && ev.asyncId in t.entries) && !(ev.After? && ev.asyncId in t.entries) ==>
              r.value.stack == t.stack
    ensures r.Ok? && ev.Before? && ev.asyncId in t.entries ==>
              r.value.stack == t.stack + [t.entries[ev.asyncId].ctx]
    ensures r.Ok? && ev.After? && ev.asyncId in t.entries ==>
              (t.stack == [] ==> r.value.stack == []) &&
              (t.stack != [] ==> r.value.stack == t.stack[..|t.stack| - 1])
  {
    match ev
    case Init(id) =>
      if t.stack == [] then Ok(t)
      else
        var c := t.stack[|t.stack| - 1];
        Ok(t.(entries := t.entries[id := MapEntry(c, None, c)]))
    case Before(id) =>
      if id !in t.entries then Ok(t)
      else
        var e := t.entries[id];
        var pushed := t.stack + [e.ctx];
        Ok(State(t.entries[id := e.(exit := Some(ExitFn(|pushed|)))], pushed))
    case After(id) =>
      if id !in t.entries then Ok(t)
      else
        var e := t.entries[id];
        (match e.exit
         case None => Err(NotCallable)
         case Some(x) =>
           match ExitOn(t.stack, x)
           case Err(err) => Err(err)
           case Ok(s) => Ok(State(t.entries[id := e.(exit := None)], s)))
    case Destroy(id) =>
      if id !in t.entries then Ok(t)
      else Ok(t.(entries := t.entries - {id}))
  }

  /** A sequence of events, stopping at the first that throws. */
  function Replay(t: State, evs: seq<Event>): (r: Result<State>)
    decreases evs
  {
    if evs == [] then Ok(t)
    else
      match Step(t, evs[0])
      case Err(e) => Err(e)
      case Ok(t1) => Replay(t1, evs[1..])
  }

  lemma {:induction false} ReplayAppend(t: State, a: seq<Event>, b: seq<Event>)
    ensures Replay(t, a + b) == match Replay(t, a)
                                case Err(e) => Err(e)
                                case Ok(t1) => Replay(t1, b)
    decreases a
  {
    if a == [] {
      assert a + b == b;
    } else {
      assert (a + b)[1..] == a[1..] + b;
      match Step(t, a[0])
      case Err(e) =>
      case Ok(t1) => ReplayAppend(t1, a[1..], b);
    }
  }

  function EventIds(evs: seq<Event>): (r: set<int>) {
    set i | 0 <= i < |evs| :: evs[i].asyncId
  }

  /** `init` without a current context tracks nothing; with one, it records
      that context under the id, with an empty exit slot, and leaves every
      other id alone. */
  lemma InitCapturesCurrent(t: State, id: int)
    ensures t.stack == [] ==> Step(t, Init(id)) == Ok(t)
    ensures t.stack != [] ==>
              var t1 := Step(t, Init(id)).value;
              Step(t, Init(id)).Ok? && t1.stack == t.stack &&
              Some(t1.entries[id].ctx) == Top(t.stack) && t1.entries[id].exit == None &&
              (forall other :: other != id ==>
                 (other in t1.entries <==> other in t.entries) &&
                 (other in t.entries ==> t1.entries[other] == t.entries[other]))
  {
  }

  /** `before`, `after` and `destroy` for an id the map does not hold change
      nothing. */
  lemma UnknownIdsAreIgnored(t: State, id: int)
    requires id !in t.entries
    ensures Step(t, Before(id)) == Ok(t)
    ensures Step(t, After(id)) == Ok(t)
    ensures Step(t, Destroy(id)) == Ok(t)
  {
    assert t.entries - {id} == t.entries;
  }

  /** `before` enters the captured context, so it becomes the current one, and
      fills the slot with the closure that exits it. */
  lemma BeforeEntersCaptured(t: State, id: int)
    requires id in t.entries
    ensures Step(t, Before(id)).Ok?
    ensures var t1 := Step(t, Before(id)).value;
            t1.stack == t.stack + [t.entries[id].ctx] && Top(t1.stack) == Some(t.entries[id].ctx) &&
            id in t1.entries && t1.entries[id].exit == Some(ExitFn(|t1.stack|))
  {
  }

  /** Events about other ids leave an operation's entry as it was. */
  lemma {:induction false} UntouchedEntry(t: State, evs: seq<Event>, id: int)
    requires id !in EventIds(evs)
    requires Replay(t, evs).Ok?
    ensures id in Replay(t, evs).value.entries <==> id in t.entries
    ensures id in t.entries ==> Replay(t, evs).value.entries[id] == t.entries[id]
    decreases evs
  {
    if evs != [] {
      assert evs[0].asyncId in EventIds(evs);
      assert EventIds(evs[1..]) <= EventIds(evs) by {
        forall x | x in EventIds(evs[1..]) ensures x in EventIds(evs) {
          var i :| 0 <= i < |evs[1..]| && evs[1..][i].asyncId == x;
          assert evs[i + 1].asyncId == x;
        }
      }
      UntouchedEntry(Step(t, evs[0]).value, evs[1..], id);
    }
  }

  /** A tree of asynchronous activity on one thread: creating an operation,
      invoking an operation's callback (whose body is more activity), and
      destroying an operation. */
  datatype Activity = Spawn(asyncId: int) | Invoke(asyncId: int, body: seq<Activity>) | Drop(asyncId: int)

  /** The lifecycle events the host fires for a tree of activity. */
  function Events(acts: seq<Activity>): (r: seq<Event>)
    decreases acts
  {
    if acts == [] then []
    else
      var head := match acts[0]
        case Spawn(id) => [Init(id)]
        case Invoke(id, body) => [Before(id)] + Events(body) + [After(id)]
        case Drop(id) => [Destroy(id)];
      head + Events(acts[1..])
  }

  /** No callback's body creates, invokes or destroys the operation whose
      callback it is. */
  predicate WellNested(acts: seq<Activity>)
    decreases acts
  {
    acts != [] ==>
      (acts[0].Invoke? ==> acts[0].asyncId !in EventIds(Events(acts[0].body)) && WellNested(acts[0].body)) &&
      WellNested(acts[1..])
  }

  /** Propagation keeps the stack balanced: replaying well nested activity
      never throws and leaves the context stack as it found it, whichever
      operations are tracked (with destroy as Step handles it: deleting the
      entry). */
  lemma {:induction false} WellNestedActivityKeepsStack(t: State, acts: seq<Activity>)
    requires WellNested(acts)
    ensures Replay(t, Events(acts)).Ok? && Replay(t, Events(acts)).value.stack == t.stack
    decreases acts
  {
    if acts != [] {
      var rest := acts[1..];
      match acts[0]
      case Spawn(id) =>
        ReplayAppend(t, [Init(id)], Events(rest));
        WellNestedActivityKeepsStack(Step(t, Init(id)).value, rest);
      case Drop(id) =>
        ReplayAppend(t, [Destroy(id)], Events(rest));
        WellNestedActivityKeepsStack(Step(t, Destroy(id)).value, rest);
      case Invoke(id, body) =>
        var inner := Events(body);
        ReplayAppend(t, [Before(id)] + inner + [After(id)], Events(rest));
        ReplayAppend(t, [Before(id)] + inner, [After(id)]);
        ReplayAppend(t, [Before(id)], inner);
        var t1 := Step(t, Before(id)).value;
        WellNestedActivityKeepsStack(t1, body);
        var t2 := Replay(t1, inner).value;
        UntouchedEntry(t1, inner, id);
        if id in t.entries {
          assert (t1.stack)[..|t.stack|] == t.stack;
        } else {
          assert t1 == t;
        }
        var t3 := Step(t2, After(id)).value;
        assert t3.stack == t.stack;
        WellNestedActivityKeepsStack(t3, rest);
    }
  }

  /** Propagation across a suspension: an operation created while `c` is
      current, resumed after any events about other operations, runs its
      callback with `c` current again, and when the callback's own activity is
      well nested, `after` hands back the stack `before` found. */
  lemma ResumesInCapturedContext(t: State, id: int, between: seq<Event>, body: seq<Activity>)
    requires t.stack != []
    requires id !in EventIds(between)
    requires Replay(t, [Init(id)] + between).Ok?
    requires WellNested([Invoke(id, body)])
    ensures var t1 := Replay(t, [Init(id)] + between).value;
            var t2 := Step(t1, Before(id));
            t2.Ok? && Top(t2.value.stack) == Top(t.stack) &&
            Replay(t1, Events([Invoke(id, body)])).Ok? &&
            Replay(t1, Events([Invoke(id, body)])).value.stack == t1.stack
  {
    var t0 := Step(t, Init(id)).value;
    ReplayAppend(t, [Init(id)], between);
    UntouchedEntry(t0, between, id);
    var t1 := Replay(t, [Init(id)] + between).value;
    BeforeEntersCaptured(t1, id);
    WellNestedActivityKeepsStack(t1, [Invoke(id, body)]);
  }

  /** The exit slot holds one closure: a second `before` on the same id before
      its `after` overwrites the first, so the first `after` exits the second
      entry and the next `after` finds the slot empty and throws. */
  lemma SecondBeforeOverwritesSlot(t: State, id: int)
    requires id in t.entries
    ensures Replay(t, [Before(id), Before(id), After(id)]).Ok?
    ensures Replay(t, [Before(id), Before(id), After(id)]).value.stack == t.stack + [t.entries[id].ctx]
    ensures Replay(t, [Before(id), Before(id), After(id), After(id)]) == Err(NotCallable)
  {
    var c := t.entries[id].ctx;
    var t1 := Step(t, Before(id)).value;
    var t2 := Step(t1, Before(id)).value;
    assert t2.stack == t.stack + [c] + [c];
    assert t2.stack[..|t.stack| + 1] == t.stack + [c];
    var t3 := Step(t2, After(id)).value;
    assert t3.stack == t.stack + [c] && t3.entries[id].exit == None;
    assert Replay(t3, []) == Ok(t3);
    assert Replay(t2, [After(id)]) == Ok(t3);
    assert Replay(t1, [Before(id), After(id)]) == Ok(t3);
    assert Replay(t3, [After(id)]) == Err(NotCallable);
    assert Replay(t2, [After(id), After(id)]) == Err(NotCallable);
    assert Replay(t1, [Before(id), After(id), After(id)]) == Err(NotCallable);
  }

  /** `destroy` as written: it first calls the stored `removeFinishListener`,
      which holds a context rather than a function, so for a tracked id the
      call throws a TypeError before the entry is deleted. */
  function DestroyAsWritten(t: State, id: int): (r: Result<State>)
    ensures r.Ok? <==> id !in t.entries
    ensures r.Ok? ==> r == Step(t, Destroy(id))
    ensures r.Err? ==> r.error == NotCallable && Step(t, Destroy(id)).Ok?
  {
    if id !in t.entries then Ok(t) else Err(NotCallable)
  }

  /** As written, destroying an operation created under a context throws and
      never removes its entry. */
  lemma DestroyAsWrittenKeepsEntry(t: State, id: int)
    requires t.stack != []
    ensures var t1 := Step(t, Init(id)).value;
            Step(t, Init(id)).Ok? && id in t1.entries &&
            DestroyAsWritten(t1, id) == Err(NotCallable)
  {
  }

  /** `destroy` as intended (and as Step handles it): the id is forgotten,
      other ids are kept, and later `before`, `after` and `destroy` for it
      are ignored. */
  lemma DestroyForgetsEntry(t: State, id: int)
    ensures var t1 := Step(t, Destroy(id)).value;
            Step(t, Destroy(id)).Ok? && id !in t1.entries && t1.stack == t.stack &&
            (forall other :: other != id ==> (other in t1.entries <==> other in t.entries)) &&
            Step(t1, Before(id)) == Ok(t1) && Step(t1, After(id)) == Ok(t1) && Step(t1, Destroy(id)) == Ok(t1)
  {
    var t1 := Step(t, Destroy(id)).value;
    UnknownIdsAreIgnored(t1, id);
  }

  function UntrackedIds(ran: seq<Callback>): (r: set<int>) {
    set i | 0 <= i < |ran| && ran[i].Untrack? :: ran[i].asyncId
  }

  /** The adapter's module state: the map from operation ids to entries. */
  class Hook {
    var entries: map<int, MapEntry>

    constructor ()
      ensures entries == map[]
    {
      entries := map[];
    }

    ghost function Contexts(): (r: set<WorkContext>)
      reads this
    {
      set id | id in entries :: entries[id].ctx
    }

    /** Every tracked operation's context is active and still holds the
        listener that forgets the operation when the context finishes. */
    ghost predicate Valid()
      reads this, Contexts()
    {
      forall id :: id in entries ==>
        entries[id].ctx.callbacks.Some? && Untrack(id) in entries[id].ctx.callbacks.value
    }

    /** `init`: captures the current context, if any, and registers on it the
        listener that forgets this operation. */
    method Init(st: ContextStack, asyncId: int) returns (r: Outcome)
      modifies this, st.items
      ensures st.items == [] ==> r == Done && entries == old(entries)
      ensures st.items != [] ==>
                var c := st.items[|st.items| - 1];
                (old(c.callbacks).None? ==>
                   r == Fail(AlreadyFinished) && entries == old(entries) && c.callbacks == old(c.callbacks)) &&
                (old(c.callbacks).Some? ==>
                   r == Done &&
                   entries == old(entries)[asyncId := MapEntry(c, None, c)] &&
                   c.callbacks == Some(old(c.callbacks).value + [Untrack(asyncId)]))
      ensures forall c :: c in st.items && c != st.items[|st.items| - 1] ==> c.callbacks == old(c.callbacks)
      ensures old(st.Valid()) && old(Valid()) ==>
                Step(State(old(entries), old(st.items)), Event.Init(asyncId)) == Ok(State(entries, st.items))
      ensures old(Valid()) ==> Valid()
      ensures old(st.Valid()) ==> st.Valid()
    {
      var current := st.GetCurrent();
      if current.None? {
        return Done;
      }
      var ctx := current.value;
      var registered := ctx.OnFinish(Untrack(asyncId));
      if registered.Err? {
        return Fail(registered.error);
      }
      entries := entries[asyncId := MapEntry(ctx, None, registered.value)];
      r := Done;
    }

    /** `before`: re-enters the operation's captured context and keeps the
        exit closure in the entry's slot. */
    method Before(st: ContextStack, asyncId: int) returns (r: Outcome)
      modifies this, st
      ensures asyncId !in old(entries) ==> r == Done && entries == old(entries) && st.items == old(st.items)
      ensures asyncId in old(entries) ==>
                var e := old(entries)[asyncId];
                (e.ctx.callbacks.None? ==>
                   r == Fail(AlreadyFinished) && entries == old(entries) && st.items == old(st.items)) &&
                (e.ctx.callbacks.Some? ==>
                   r == Done &&
                   st.items == old(st.items) + [e.ctx] && Top(st.items) == Some(e.ctx) &&
                   entries == old(entries)[asyncId := e.(exit := Some(ExitFn(|st.items|)))])
      ensures old(Valid()) ==> r == Done && Valid()
      ensures old(Valid()) ==>
                Step(State(old(entries), old(st.items)), Event.Before(asyncId)) == Ok(State(entries, st.items))
      ensures old(st.Valid()) ==> st.Valid()
    {
      if asyncId !in entries {
        return Done;
      }
      var mapped := entries[asyncId];
      var entered := mapped.ctx.Enter(st);
      if entered.Err? {
        return Fail(entered.error);
      }
      entries := entries[asyncId := mapped.(exit := Some(entered.value))];
      r := Done;
    }

    /** `after`: calls the exit closure in the entry's slot and empties the
        slot. An empty slot is called anyway and throws a TypeError; an exit
        that throws leaves the slot filled. */
    method After(st: ContextStack, asyncId: int) returns (r: Outcome)
      modifies this, st
      ensures Step(State(old(entries), old(st.items)), Event.After(asyncId)) ==
                (if r == Done then Ok(State(entries, st.items)) else Err(r.error))
      ensures r.Fail? ==> entries == old(entries) && st.items == old(st.items)
      ensures asyncId in old(entries) && old(entries)[asyncId].exit == None ==> r == Fail(NotCallable)
      ensures old(Valid()) ==> Valid()
      ensures old(st.Valid()) ==> st.Valid()
    {
      if asyncId !in entries {
        return Done;
      }
      var mapped := entries[asyncId];
      if mapped.exit.None? {
        return Fail(NotCallable);
      }
      var exited := st.CallExit(mapped.exit.value);
      if exited.Fail? {
        return exited;
      }
      entries := entries[asyncId := mapped.(exit := None)];
      r := Done;
    }

    /** `destroy`, as intended: forgets the operation. The listener it
        registered stays in its context's list; see DestroyAsWritten for what
        the call of `removeFinishListener` does. */
    method Destroy(asyncId: int)
      modifies this
      ensures entries == old(entries) - {asyncId}
      ensures forall stack :: Step(State(old(entries), stack), Event.Destroy(asyncId)) == Ok(State(entries, stack))
      ensures old(Valid()) ==> Valid()
    {
      if asyncId !in entries {
        assert entries - {asyncId} == entries;
        return;
      }
      entries := entries - {asyncId};
    }

    /** Finishing a context with the adapter in place: the context's own
        finish, whose Untrack listeners delete their ids from the map. After a
        successful finish no entry refers to the context any more. */
    method FinishContext(st: ContextStack, ctx: WorkContext) returns (ran: seq<Callback>, r: Outcome)
      modifies this, ctx
      ensures entries == old(entries) - UntrackedIds(ran)
      ensures old(ctx.callbacks).None? ==> r == Fail(AlreadyFinished) && ran == []
      ensures old(ctx.callbacks).Some? && ctx in st.items ==> r == Fail(NotCleared) && ran == []
      ensures old(ctx.callbacks).Some? && ctx !in st.items ==>
                (r == Done || r.error.Thrown?) &&
                InvokedInOrder(old(ctx.callbacks).value, ran, if r == Done then None else Some(r.error.value)) &&
                (r == Done <==> forall cb :: cb in old(ctx.callbacks).value ==> !Throws(cb))
      ensures r == Done ==> ctx.callbacks == None && ran == Listeners(old(ctx.callbacks).value)
      ensures r != Done ==> ctx.callbacks == old(ctx.callbacks)
      ensures r == Done && old(Valid()) ==> forall id :: id in entries ==> entries[id].ctx != ctx
      ensures old(Valid()) ==> Valid()
      ensures old(st.Valid()) ==> st.Valid()
    {
      ghost var before := ctx.callbacks;
      ran, r := ctx.Finish(st);
      entries := entries - UntrackedIds(ran);
      if r == Done && old(Valid()) {
        ListenersAreTheNonFalsyEntries(before.value);
        forall id | id in old(entries) && old(entries)[id].ctx == ctx ensures id in UntrackedIds(ran) {
          var i :| 0 <= i < |ran| && ran[i] == Untrack(id);
        }
      }
    }
  }
}
