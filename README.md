# work-context, modelled in Dafny

This project models the ambient-context engine of the `work-context` library:

- a **work context** (`WorkContext`) that is active while it holds a list of finish listeners and finished once the list is gone;
- the **process-wide stack** of entered contexts, whose last element is the current context;
- the guarded **enter / exit** pair (the exit closure pops only when the stack still has the length it recorded right after the push), `run(fn)`, which brackets a function with enter and exit, and `finish()`, which invokes the listeners;
- the **propagation adapter** built on the host's asynchronous lifecycle events. `init` captures the current context for an operation id and registers a finish listener that forgets the id. `before` re-enters the captured context and keeps the exit closure in a single slot. `after` calls that exit and empties the slot. `destroy` forgets the id.

Files:

- `outcomes.dfy` (module `Outcomes`): `Option`, the error kinds (`AlreadyFinished`, `NotCleared`, `OutOfOrder`, `NotCallable`, `Thrown`), `Result` and `Outcome`.
- `work_context.dfy` (module `WorkContexts`): the classes `WorkContext` (field `callbacks: Option<seq<Callback>>`) and `ContextStack` (field `items`, the module-level `stack`). It also holds the pure functions `Top`, `ExitOn` and `Listeners` that specify them, and the lemmas about the stack discipline and the listener loop.
- `async_hook.dfy` (module `AsyncHooks`): the `MapEntry` record, the class `Hook` (field `entries`, the module-level `map`) with one method per lifecycle event, a pure step function `Step` for the four handlers (with `destroy` corrected as recorded under Findings) with `Replay` over event sequences, and the propagation lemmas.
- `scenarios.dfy` (module `Scenarios`): client code that drives the classes through the situations exercised by `test/test.ts`. Each method's postcondition is what that situation must produce.

Modelling choices:

- Contexts keep reference identity (a Dafny class). The exit closure is the value `ExitFn(position)`. It remembers only the recorded length, not the context, just as the closure does.
- A finish listener is a token. `Falsy` is a falsy list entry, which finish skips. `Listener(id, throws)` is user code that returns or throws. `Untrack(asyncId)` is the adapter's listener. `WorkContext.Finish` returns the listeners it invoked. `Hook.FinishContext` carries out the `Untrack` deletions on the adapter's map.
- The argument of `run` is a `Body`: either not a function, or a function given by its net effect on the stack and by whether it returns or throws a value.
- Throwing is an outcome value (`Result`/`Outcome`). The model records the error kind, not the message text.
- `WorkContext.Finished` is `_checkFinished`. Every mutating method's first postcondition is the "already finished" case.
- `ContextStack.Valid` says that no finished context is on the stack. `Hook.Valid` says that every tracked operation's context is active and still holds the listener that forgets it.
- In the library the stack and the adapter's map are module-level singletons, and a context's `finish` runs the adapter's forgetting listeners, which delete from that map. In the model the stack is a `ContextStack` passed to each method and the map is a `Hook` object. The two invariants are kept under the rule the singletons impose: a client uses one `ContextStack` and one `Hook` throughout, and finishes a context that the adapter may track through `Hook.FinishContext`, which performs the deletions. `WorkContext.Finish` alone does not see the hook. Called directly on a tracked context, it leaves that context's ids in the map of a finished context, so `Hook.Valid` no longer holds. Finishing through one `ContextStack` while the context is entered on another can likewise break the other stack's `ContextStack.Valid`. Neither situation can arise in the library.

Where the code departs from its doc comments and its tests, the model follows the code:

- `finish` stops at the first listener that throws. The exception escapes, and the context stays active with its list unchanged (src/work-context.ts:44-50). The list is cleared only when every listener returned (src/work-context.ts:50). So a listener that throws keeps the later ones from running, although the doc comment of `onFinish` (src/work-context.ts:14-20) presents the listeners as the cleanup that `finish` performs.
- `onFinish` returns the context itself (src/work-context.ts:29), not a removal handle. The adapter and the tests nevertheless call the returned value as a remover (src/async-hook.ts:9, 28, 58; test/test.ts:134-135, 158-162). See Findings.

Behaviour of the code worth noting (the model follows the code):

- The adapter keeps one exit slot per operation (src/async-hook.ts:8, 38, 48-49). A second `before` before the matching `after` overwrites the slot, and the later `after` then calls an empty slot and throws a TypeError (`SecondBeforeOverwritesSlot`).
- `run` checks "already finished" before "not a function" (src/work-context.ts:84-88).

## Model

| member | source | states |
|---|---|---|
| WorkContexts.ContextStack.constructor | src/work-context.ts:3 | the process-wide stack starts empty |
| WorkContexts.ContextStack.GetCurrent | src/work-context.ts:109-115 | returns none exactly when the stack is empty, otherwise its last element; changes nothing |
| WorkContexts.ContextStack.CallExit | src/work-context.ts:66-72 | the exit closure throws OutOfOrder and keeps the stack when its length differs from the recorded position; otherwise it pops the last element; keeps "no finished context on the stack" |
| WorkContexts.ExitSucceedsIffLengthMatches | src/work-context.ts:67-72 | an exit succeeds iff the stack length equals the recorded one; a failure is OutOfOrder; a success removes exactly the last element |
| WorkContexts.EnterThenExitRestores | src/work-context.ts:61-72 | entering then exiting straight away restores any prior stack, with the entered context current in between |
| WorkContexts.OutOfOrderExitIsRejected | src/work-context.ts:64-72 | with two nested enters, exiting the outer first throws OutOfOrder; exiting inner then outer restores each earlier current context in turn |
| WorkContexts.StaleExitPopsAnotherContext | src/work-context.ts:66-71 | the check compares lengths only: a kept exit closure pops a different context entered later at the same depth |
| WorkContexts.NestedScopesRestore | src/work-context.ts:61-72 | for active contexts, any tree of properly nested enter/exit pairs never throws and returns exactly the stack it started from (the AlreadyFinished path of enter at src/work-context.ts:62 is not part of `RunScopes`) |
| WorkContexts.WorkContext.constructor | src/work-context.ts:12 | a new context is active with an empty listener list |
| WorkContexts.WorkContext.OnFinish | src/work-context.ts:23-30 | throws AlreadyFinished on a finished context; otherwise appends the listener at the end and returns the same context |
| WorkContexts.WorkContext.Finish | src/work-context.ts:36-51 | throws AlreadyFinished if finished; throws NotCleared and invokes nothing if the context is anywhere on the stack; otherwise invokes the listeners in order, and it finishes exactly when none throws; a throwing listener's value escapes and the context stays active |
| WorkContexts.InvokeCallbacks | src/work-context.ts:44-48 | the loop invokes a prefix of the non-falsy entries in registration order; all but the last returned; it stops at the first that throws, or else runs them all |
| WorkContexts.ListenersAreTheNonFalsyEntries | src/work-context.ts:44-47 | the listeners finish invokes are exactly the non-falsy entries of the list |
| WorkContexts.ListenersOfPrefix | src/work-context.ts:44-48 | the listeners of a prefix of the list are a prefix of the list's listeners (the loop never reorders) |
| WorkContexts.ListenersOfAppend | src/work-context.ts:27 | a listener appended by onFinish is invoked after all earlier ones, unless it is falsy |
| WorkContexts.AllReturnIffNoneThrows | src/work-context.ts:44-50 | the loop completes without a throw exactly when no entry of the list throws |
| WorkContexts.InvokedInOrderIsUnique | src/work-context.ts:44-48 | the listeners invoked and the value thrown are determined by the list |
| WorkContexts.WorkContext.Enter | src/work-context.ts:61-66 | throws AlreadyFinished and keeps the stack on a finished context; otherwise appends exactly this context, which becomes current, and returns an exit closure recording the new length |
| WorkContexts.WorkContext.Run | src/work-context.ts:83-97 | finished check first, then the function check (NotCallable, stack untouched); otherwise enter, run fn and always exit; an exit that throws replaces fn's completion; when fn leaves the stack as it found it, run returns fn's value or rethrows its exception with the stack restored |
| AsyncHooks.Hook.constructor | src/async-hook.ts:11 | the adapter's map starts empty |
| AsyncHooks.InitCapturesCurrent | src/async-hook.ts:15-29 | init with no current context changes nothing; otherwise it maps the id to the current context with an empty slot and leaves every other id as it was |
| AsyncHooks.UnknownIdsAreIgnored | src/async-hook.ts:32-36 | before, after and destroy on an id absent from the map change nothing |
| AsyncHooks.BeforeEntersCaptured | src/async-hook.ts:32-39 | before pushes the captured context, which becomes current, and stores the exit closure for that push in the slot |
| AsyncHooks.UntouchedEntry | src/async-hook.ts:15-60 | events about other ids neither add, remove nor change an operation's entry (with destroy corrected as recorded under Findings) |
| AsyncHooks.WellNestedActivityKeepsStack | src/async-hook.ts:32-50 | any well nested activity (callbacks whose bodies do not touch their own id) replays without a throw and leaves the context stack as it found it; this holds for `Step` with destroy corrected as recorded under Findings (with destroy as written, a tracked id's destroy throws) |
| AsyncHooks.ResumesInCapturedContext | src/async-hook.ts:15-50 | an operation created under context c, resumed after any events about other ids, runs its callback with c current, and after restores the stack that before found (with destroy corrected as recorded under Findings) |
| AsyncHooks.SecondBeforeOverwritesSlot | src/async-hook.ts:38-49 | one exit slot per id: a second before overwrites the first exit; the first after then pops one level and the next after throws a TypeError |
| AsyncHooks.DestroyAsWrittenKeepsEntry | src/async-hook.ts:52-59 | as written, destroy of a tracked id calls the stored context as a function, throws a TypeError and never deletes the entry |
| AsyncHooks.DestroyForgetsEntry | src/async-hook.ts:59 | destroy as intended removes the id, keeps every other id, and later before, after and destroy for it are ignored |
| AsyncHooks.Hook.Init | src/async-hook.ts:15-29 | no current context: nothing changes; a finished current context: onFinish throws and the map is unchanged; otherwise the entry maps the id to the current context with an empty slot and the forgetting listener is appended to that context's list; the invariants are kept; under the invariants its effect on the map and the stack is exactly `Step`'s init |
| AsyncHooks.Hook.Before | src/async-hook.ts:32-39 | unknown id: nothing changes; otherwise the captured context is entered and becomes current and the slot holds its exit; under the adapter invariant a captured context is never finished, so before never throws, and its effect is exactly `Step`'s before |
| AsyncHooks.Hook.After | src/async-hook.ts:41-50 | unknown id: nothing changes; an empty slot throws a TypeError; otherwise the stored exit runs (a throw leaves slot and stack alone) and the slot is emptied; agrees with Step |
| AsyncHooks.Step | src/async-hook.ts:15-59 | one lifecycle event on the map and the stack (destroy corrected as recorded under Findings): only after throws, exactly when the slot is empty or its exit is out of order; every other id's entry is left alone; only before pushes (the captured context) and only after pops (one level); init and destroy leave the stack alone |
| AsyncHooks.DestroyAsWritten | src/async-hook.ts:52-59 | destroy as written: it agrees with the corrected destroy on an untracked id and throws a TypeError (NotCallable) exactly when the id is tracked, where the corrected destroy succeeds |
| AsyncHooks.Hook.Destroy | src/async-hook.ts:52-60 | (destroy corrected as recorded under Findings; the throw is `DestroyAsWritten`) removes the id from the map and keeps the adapter invariant; its effect on the map is exactly `Step`'s destroy, whatever the stack |
| AsyncHooks.Hook.FinishContext | src/async-hook.ts:21-23 | finishing a context runs its listeners in order exactly as finish does (the same refusals, and a throw stops the loop); the forgetting listeners that ran, including those before a throwing listener, have deleted their ids, and no other id is touched; after a successful finish no entry refers to the context; this is how a client finishes a context the adapter may track |
| Scenarios.EnterAndExit | test/test.ts:7-17 | no context at start or after construction; enter makes the context current; its exit clears it |
| Scenarios.NestedEnters | test/test.ts:34-46 | exiting the outer of two enters first throws OutOfOrder with the inner still current (test lines 97-104); in-order exits go back to the first context, then to none |
| Scenarios.RunResults | test/test.ts:20-30 | run returns fn's value or rethrows its exception (test lines 66-71), refuses a non-function (lines 108-112), and leaves no context current |
| Scenarios.FinishedContextRefusesEverything | test/test.ts:114-122 | after finish, enter, finish, onFinish and run all throw AlreadyFinished |
| Scenarios.ListenersRunInOrder | test/test.ts:124-131 | registered listeners are only held until finish, the context staying active (test lines 137-138); finish then runs both, in registration order (lines 139-141); listener C and its `remove()` (lines 133-135, 142) are left out, because `remove` is the context itself (see the `onFinish` divergence above) |
| Scenarios.ThrowingListenerAbortsFinish | test/test.ts:145-153 | a throwing listener makes finish throw its value; the next listener does not run and the context stays active |
| Scenarios.FinishInsideOwnScope | test/test.ts:165-173 | finish inside the context's own scope throws NotCleared and invokes no listener |
| Scenarios.ContinuationSeesItsContext | test/test.ts:74-95 | a continuation created under wc1 runs with wc1 current although wc2 ran in between, and the stack is empty afterwards |
| Scenarios.FinishedContextIsNotReentered | src/async-hook.ts:21-23 | once the captured context finishes, its listener has removed the entry, so a later before enters nothing |
| Scenarios.AbortedFinishKeepsEarlierDeletions | src/work-context.ts:44-48 | when a listener registered after the adapter's forgetting listener throws, finish throws and the context stays active, but the operation is already no longer tracked |

## Left out

- Node's `async_hooks` subscription (`createHook(...).enable()`, src/async-hook.ts:13-14, 61-62) is a host runtime API. The four handlers are the methods of `Hook`, called by the client, and `Step`/`Replay` model them as synthetic events.
- Real asynchrony (promises, `await`, timers in test/test.ts:74-95) is represented only by its effect: sequences of init/before/after/destroy events.
- What user code does is abstract. A function given to `run` has a net effect on the stack and returns or throws. A listener returns or throws. Neither may register listeners, finish contexts or re-enter the adapter. A listener that `onFinish` appends while `finish` is iterating (which a JavaScript `for...of` loop would still visit) is not modelled.
- AsyncHooks.Hook.FinishContext: applies the adapter's deletions after the listener loop instead of interleaved with it. The difference cannot be observed, because no other listener's effect is modelled.
- WorkContexts.WorkContext.Run: does not state that "no finished context on the stack" is preserved, because the net effect of `fn` is an arbitrary function of the stack. Real code can push only through `enter`, which checks this.
- AsyncHooks.Step: models the handlers only for contexts that are active. `Hook.Valid` and `ContextStack.Valid` guarantee this. The failure path for a finished context is stated on `Hook.Init` and `Hook.Before`.
- AsyncHooks.Step: its Destroy case is the corrected half of the Findings row (the entry is deleted), not destroy as written, which throws for a tracked id (`DestroyAsWritten`). `Replay`, `UntouchedEntry`, `WellNestedActivityKeepsStack` and `ResumesInCapturedContext` hold for the corrected adapter only.
- The library has no API to remove a finish listener, so the corrected `Hook.Destroy` keeps the forgetting listener in the context's list. When that context finishes, the listener deletes whatever entry then holds the id. As written, the call at src/async-hook.ts:58 throws instead (see Findings).
- In Node an exception thrown inside an async hook is fatal to the process. The model returns the error as the handler's outcome, and `Replay` stops there.
- Error messages, `typeof` checks for values other than "a function or not", and the JavaScript number type of ids (modelled as `int`) are not modelled. Values returned or thrown by user code are `int`s.
- The `MapEntry` objects are modelled as values in the map. Nothing outside the map refers to an entry, so assigning its `exit` field in place is the same as replacing the entry.
- test/will-call.ts and test/@types/will-call/index.d.ts are test tooling and type declarations and are not part of this model.

## Findings

| source | as written | input that shows it | evidently intended | confidence | as-written member | corrected member |
|---|---|---|---|---|---|---|
| src/async-hook.ts:58 | `destroy` calls `mapped.removeFinishListener()`, but `init` stored there the value of `ctx.onFinish(...)`, which is the context object itself (src/work-context.ts:29). Calling it throws a TypeError before `map.delete(asyncId)` runs. The entry is never deleted, and because an exception thrown inside an async hook is fatal in Node, the first `destroy` of a tracked operation ends the process. The declared field type `() => void` (src/async-hook.ts:9) does not describe the `WorkContext` stored at line 28, so the code and its declared type disagree | `init(7)` while a context is current, then `destroy(7)` | destroy removes the entry for the id | medium (the typed declaration at src/async-hook.ts:9 and the tests expect a remover); not executed | AsyncHooks.DestroyAsWritten, AsyncHooks.DestroyAsWrittenKeepsEntry | AsyncHooks.DestroyForgetsEntry, AsyncHooks.Hook.Destroy |
