# Observable.Extensions in Dafny

This project models the core of BitzArt Observable.Extensions, a small C#
library of push-based notification helpers built on `IObservable<T>` and
`IObserver<T>`. The model covers these parts:

- **The observable.** `AsyncObservable<T>` keeps an ordered list of subscribed
  observers. `Subscribe` rejects an observer that is already in the list and
  otherwise appends it. It returns an `Unsubscriber` whose `Dispose` removes
  that observer again and throws `ObjectDisposedException` when it is already
  gone. `NotifyObserversAsync` walks the list in subscription order. It awaits
  `OnNextAsync` on observers that implement the package's `IAsyncObserver<T>`
  and calls the synchronous `OnNext` on all others. The first observer that
  throws ends the walk.
- **The stateful `AsyncObserver<T>`.** It subscribes itself to an observable
  when constructed and records the last value it received in `CurrentValue`.
  Its synchronous members forward to the async ones. Its first `Dispose`
  unsubscribes it, and a later one throws.
- **The `Observer<T>` adapter.** It turns a required `onNext` and an optional
  `onCompleted` and `onError` into an `IObserver<T>`.
- **The cancellation-aware `AsyncObserver<T>`** of the Async package. It has a
  token-taking constructor and a token-less one that wraps each callback in a
  lambda that drops the token. Its synchronous `IObserver<T>` members always
  throw `NotSupportedException`.
- **The `Subscribe` helpers** of `ObservableExtensions` and
  `AsyncObservableExtensions`. Each builds an adapter from callbacks and
  subscribes it.

## How the model represents the library

- **Callbacks.** User callbacks are opaque identifiers (`Callback`). Invoking
  one is recorded as an `Event` (`Invoked(callback, notification, token)`), so
  each operation's observable effect is the list of events it produces.
- **Tasks.** A task is either `CompletedTask` or the task a callback returned.
- **Exceptions.** Exceptions are values of `Exn`, returned through `Result` or
  `Outcome`.
- **Object identity.** The C# adapters are compared by reference. An observer
  in the list is a `Subscriber` value. The immutable adapters carry an
  identity `id`, and the stateful adapter is a Dafny object reference. A null
  reference is `Null`.
- **The shared list.** `AsyncObservable<T>` and `Unsubscriber` are structs,
  but every copy shares one `List`. The model therefore makes the observable a
  class whose `observers` field the `Unsubscriber` updates.
- **Which observers are async.** The test `observer is IAsyncObserver<T>` in
  `AsyncObservable.cs` names the interface of the observable's own namespace.
  Of the library's types, only the stateful `AsyncObserver<T>` implements
  that interface. The Async
  package's adapter implements that package's own `IAsyncObserver<T>`, so the
  loop calls its synchronous `OnNext`, which throws `NotSupportedException`.
  `Scenarios.TokenAwareAdapterStopsNotification` shows this.
- **A null `onNext` to the token-less constructor.** The token-less
  constructor of the cancellation-aware adapter wraps `onNext` in a lambda
  before the null check runs. A null `onNext` is therefore accepted, and the
  `NullReferenceException` surfaces only on the first `OnNextAsync`. The
  lemma `CancellableObserver.NullOnNextFailsLate` states this.
- **The object name on a second `Dispose` of the stateful adapter.** The
  guard `ObjectDisposedException.ThrowIf(_isDisposed, nameof(AsyncObserver<T>))`
  binds to the overload `ThrowIf(bool, object instance)`. That overload names
  the exception after the runtime type of `instance`. Here `instance` is a
  string, so the object name is `"System.String"`, not `"AsyncObserver"`.
  The model keeps the name as written (`Observable.DisposedAdapterObjectName`).
- **Fresh adapters in the helpers.** Each `Subscribe` helper allocates its
  adapter with `new`, so the adapter is a reference that no list entry holds
  yet. The helpers take that identity as `id` and require that no entry of
  the list already has it (`Observable.IdIsFresh`). Under that requirement the
  helpers are proved never to hit the "already subscribed" branch.

## Model

| member | source | states |
|---|---|---|
| Notifications.InvokeIfPresent | src/BitzArt.Observable.Extensions/Models/AsyncObserver.cs:71-78 | `callback?.Invoke(...) ?? Task.CompletedTask`. There is no effect exactly when the callback is absent, and then the task is completed. Otherwise the callback is invoked exactly once with the notification, and its task is returned. |
| ObserverList.IndexOf | src/BitzArt.Observable.Extensions/Models/AsyncObservable.cs:71 | The result is -1 exactly when the observer is not in the list. Otherwise it is the position of the observer's first occurrence. |
| ObserverList.RemoveFirst | src/BitzArt.Observable.Extensions/Models/AsyncObservable.cs:71 | `List.Remove`. An absent observer leaves the list unchanged. A present one is removed once: the length drops by one, and the multiset of entries loses exactly that observer. |
| ObserverList.AppendFreshKeepsNoDuplicates | src/BitzArt.Observable.Extensions/Models/AsyncObservable.cs:32-35 | Appending an observer that the `Contains` check found absent keeps the list free of duplicates. |
| ObserverList.RemoveFirstKeepsNoDuplicates | src/BitzArt.Observable.Extensions/Models/AsyncObservable.cs:71 | On a duplicate-free list, removal keeps it duplicate-free. The observer is then absent, and the length drops by one exactly when it was present. |
| ObserverList.RemoveAppended | src/BitzArt.Observable.Extensions/Models/AsyncObservable.cs:32-71 | Removing a just-appended fresh observer gives back the list as it was before `Subscribe`. |
| ObserverList.RemoveFirstIsWithout | src/BitzArt.Observable.Extensions/Models/AsyncObservable.cs:71 | On a duplicate-free list, removing the first occurrence is the same as filtering out every occurrence. |
| ObserverList.WithoutAbsent | src/BitzArt.Observable.Extensions/Models/AsyncObservable.cs:71 | Filtering out an observer that is not in the list changes nothing. |
| ObserverList.Without | src/BitzArt.Observable.Extensions/Models/AsyncObservable.cs:71 | The reference filter for removal: the result never holds the observer, keeps every other entry, and holds nothing that was not in the list. |
| Observable.AsyncObservable.constructor | src/BitzArt.Observable.Extensions/Models/AsyncObservable.cs:13-22 | A new observable has an empty list of observers. |
| Observable.IsAsyncObserver | src/BitzArt.Observable.Extensions/Models/AsyncObservable.cs:49 | The type test `is IAsyncObserver<T>` holds for the stateful adapter. It fails for `Observer<T>`, for the Async package's adapter, which implements a different interface of the same name, and for a null entry. |
| Observable.AsyncObservable.Subscribe | src/BitzArt.Observable.Extensions/Models/AsyncObservable.cs:28-39 | An observer already in the list gives `InvalidOperationException("Observer already subscribed.")` and leaves the list unchanged. Otherwise the observer is appended, and a fresh `Unsubscriber` bound to this list and observer is returned. The list stays duplicate-free. |
| Observable.Deliver | src/BitzArt.Observable.Extensions/Models/AsyncObservable.cs:49-55 | One loop step. It succeeds exactly for an `Observer<T>` or a stateful adapter, and either one invokes its onNext once with the value. A null entry throws `NullReferenceException`. The Async package's adapter throws `NotSupportedException` with its message. |
| Observable.NotifyAll | src/BitzArt.Observable.Extensions/Models/AsyncObservable.cs:45-57 | At most one observer is reached per list entry, and a walk that completes has reached every entry. |
| Observable.NotifyOne | src/BitzArt.Observable.Extensions/Models/AsyncObservable.cs:49-55 | One loop step is exactly `Deliver` for that observer. A stateful adapter caches the value and keeps its subscription and disposed flag; nothing else changes. |
| Observable.NotifyAllStopsAtFirstFailure | src/BitzArt.Observable.Extensions/Models/AsyncObservable.cs:45-57 | Observers are reached in list order, each through `OnNextAsync` exactly when it is the package's `IAsyncObserver<T>`. The walk completes exactly when every observer's delivery succeeds, and then every observer is reached. On a failure, the last observer reached is the first one that throws, and its exception is the result. |
| Observable.AsyncObservable.NotifyObserversAsync | src/BitzArt.Observable.Extensions/Models/AsyncObservable.cs:45-57 | The loop computes exactly `NotifyAll`. Every stateful adapter it reached has `CurrentValue` set to the value. Adapters it did not reach keep theirs, and no adapter's subscription or disposed flag changes. |
| Observable.FailureIsFinal | src/BitzArt.Observable.Extensions/Models/AsyncObservable.cs:47-56 | Once an observer has thrown, observers after it are never reached: the whole walk equals the walk of the prefix that failed. |
| Observable.NotifyTraceFollowsDispatch | src/BitzArt.Observable.Extensions/Models/AsyncObservable.cs:47-56 | The callbacks invoked are exactly one invocation per observer that was reached and did not throw, in list order. Each invocation is that observer's own delivery. |
| Observable.NotifyReachesEveryObserverOnce | src/BitzArt.Observable.Extensions/Models/AsyncObservable.cs:45-57 | When every observer is an `Observer<T>` or a stateful adapter, the notification completes. Every observer is reached once, in order, through the member its type selects, and each onNext is invoked once with the value. |
| Observable.UnsubscribedIsNotNotified | src/BitzArt.Observable.Extensions/Models/AsyncObservable.cs:67-74 | After `Dispose` has removed an observer from the list, no later notification reaches it. |
| Observable.SubscribeThenUnsubscribeNotifiesAsBefore | src/BitzArt.Observable.Extensions/Models/AsyncObservable.cs:28-74 | Subscribing a fresh observer and disposing its subscription leaves notifications exactly as they were. |
| Observable.Unsubscriber.constructor | src/BitzArt.Observable.Extensions/Models/AsyncObservable.cs:59-65 | The handle keeps the shared list and the observer it was created for. |
| Observable.Unsubscriber.Dispose | src/BitzArt.Observable.Extensions/Models/AsyncObservable.cs:67-74 | A subscribed observer is removed and the call succeeds. An absent one gives `ObjectDisposedException("Unsubscriber")` and leaves the list unchanged. Either way the observer is not in the list afterwards, and the list stays duplicate-free. |
| Observable.AsyncObserver.constructor | src/BitzArt.Observable.Extensions/Models/AsyncObserver.cs:38-54 | The callbacks are stored, `CurrentValue` is the default and the adapter is not disposed. The adapter appends itself to the observable's list and keeps the subscription for itself. Subscribing itself cannot fail. |
| Observable.CreateAsyncObserver | src/BitzArt.Observable.Extensions/Models/AsyncObserver.cs:38-54 | A null observable gives `ArgumentNullException("observable")`, checked first. A null onNext then gives `ArgumentNullException("onNext")`, with nothing subscribed. Otherwise a fresh adapter is returned as the constructor row describes. |
| Observable.AsyncObserver.OnNextAsync | src/BitzArt.Observable.Extensions/Models/AsyncObserver.cs:59-66 | `CurrentValue` becomes the value, and onNext is invoked exactly once with it. The returned task is already complete and is not the callback's task. |
| Observable.AsyncObserver.OnCompletedAsync | src/BitzArt.Observable.Extensions/Models/AsyncObserver.cs:71-72 | There is no effect exactly when onCompleted was not supplied, and then the task is a completed one. Otherwise onCompleted is invoked once, and its task is returned. |
| Observable.AsyncObserver.OnErrorAsync | src/BitzArt.Observable.Extensions/Models/AsyncObserver.cs:77-78 | There is no effect exactly when onError was not supplied, and then the task is a completed one. Otherwise onError is invoked once with the error, and its task is returned. |
| Observable.AsyncObserver.OnNext | src/BitzArt.Observable.Extensions/Models/AsyncObserver.cs:80 | The synchronous member has the same new `CurrentValue` and the same invocation as `OnNextAsync`. |
| Observable.AsyncObserver.OnCompleted | src/BitzArt.Observable.Extensions/Models/AsyncObserver.cs:82 | The synchronous member invokes the same callbacks as `OnCompletedAsync`. |
| Observable.AsyncObserver.OnError | src/BitzArt.Observable.Extensions/Models/AsyncObserver.cs:84 | The synchronous member invokes the same callbacks as `OnErrorAsync`. |
| Observable.AsyncObserver.Dispose | src/BitzArt.Observable.Extensions/Models/AsyncObserver.cs:89-95 | A disposed adapter gives `ObjectDisposedException` with object name `"System.String"` and changes nothing. Otherwise the adapter is removed from the list and marked disposed. When its subscription was already removed, the subscription's `ObjectDisposedException("Unsubscriber")` propagates and the flag stays unset. |
| ObserverAdapter.Create | src/BitzArt.Observable.Extensions/Models/Observer.cs:26-33 | Construction fails exactly when onNext is null, with `ArgumentNullException("onNext")`. Otherwise the three callbacks are stored as given. |
| ObserverAdapter.OnNext | src/BitzArt.Observable.Extensions/Models/Observer.cs:38 | onNext is invoked exactly once, with the value and with no token. |
| ObserverAdapter.OnCompleted | src/BitzArt.Observable.Extensions/Models/Observer.cs:43 | onCompleted is invoked once if it was supplied. Otherwise nothing happens. |
| ObserverAdapter.OnError | src/BitzArt.Observable.Extensions/Models/Observer.cs:48 | onError is invoked once with the error if it was supplied. Otherwise nothing happens. |
| ObserverAdapter.DeliversToItsOwnHandler | src/BitzArt.Observable.Extensions/Models/Observer.cs:26-48 | For every notification, an adapter built from callbacks invokes exactly the callback supplied for that kind of notification, once and with its payload, and nothing when none was supplied. |
| CancellableObserver.Create | src/BitzArt.Observable.Extensions.Async/Models/AsyncObserver.cs:42-52 | Construction fails exactly when onNext is null, with `ArgumentNullException("onNext")`. Otherwise the delegates are stored as given. |
| CancellableObserver.CreateIgnoringToken | src/BitzArt.Observable.Extensions.Async/Models/AsyncObserver.cs:22-33 | The token-less constructor never fails, even for a null onNext, because onNext is wrapped before the check. onCompleted and onError are wrapped when present and stay absent when absent. |
| CancellableObserver.IgnoringToken | src/BitzArt.Observable.Extensions.Async/Models/AsyncObserver.cs:27-32 | An optional callback stays absent when absent. Otherwise it becomes a token-dropping lambda around that same callback. |
| CancellableObserver.TakesTokenIfPresent | src/BitzArt.Observable.Extensions.Async/Models/AsyncObserver.cs:43-45 | An optional token-taking delegate is stored as given: absent stays absent, and a present one is the user's delegate. |
| CancellableObserver.Invoke | src/BitzArt.Observable.Extensions.Async/Models/AsyncObserver.cs:26-31 | A token-taking delegate receives the notification and the token and returns its own task. A wrapped callback receives the notification but no token. A wrapped null callback throws `NullReferenceException`. |
| CancellableObserver.OnNext | src/BitzArt.Observable.Extensions.Async/Models/AsyncObserver.cs:76 | Always throws `NotSupportedException` with the library's message. |
| CancellableObserver.OnCompleted | src/BitzArt.Observable.Extensions.Async/Models/AsyncObserver.cs:79 | Always throws `NotSupportedException` with the library's message. |
| CancellableObserver.OnError | src/BitzArt.Observable.Extensions.Async/Models/AsyncObserver.cs:82 | Always throws `NotSupportedException` with the library's message. |
| CancellableObserver.OnNextAsync | src/BitzArt.Observable.Extensions.Async/Models/AsyncObserver.cs:57-58 | On success, onNext is invoked exactly once with the value, and the returned task is that invocation's task. A token-taking onNext is the callback invoked and receives the given token. A wrapped onNext invokes the callback it wraps, with no token. The call fails exactly for a wrapped null onNext, with `NullReferenceException`. |
| CancellableObserver.OnCompletedAsync | src/BitzArt.Observable.Extensions.Async/Models/AsyncObserver.cs:63-64 | An absent onCompleted gives a completed task and no effect. Otherwise, on success, onCompleted is invoked once, and its task is returned. A token-taking onCompleted is the callback invoked and receives the given token. A wrapped one invokes the callback it wraps, with no token. The call fails only for a wrapped null callback. |
| CancellableObserver.OnErrorAsync | src/BitzArt.Observable.Extensions.Async/Models/AsyncObserver.cs:69-70 | An absent onError gives a completed task and no effect. Otherwise, on success, onError is invoked once with the error, and its task is returned. A token-taking onError is the callback invoked and receives the given token. A wrapped one invokes the callback it wraps, with no token. The call fails only for a wrapped null callback. |
| CancellableObserver.CancellationAwareForwards | src/BitzArt.Observable.Extensions.Async/Models/AsyncObserver.cs:42-70 | `OnNextAsync` passes the value and the token unchanged to onNext and returns exactly that call's task. `OnCompletedAsync` and `OnErrorAsync` do the same with their callback when it is present. When it is absent they are no-ops that return a completed task. |
| CancellableObserver.IgnoringTokenIgnoresToken | src/BitzArt.Observable.Extensions.Async/Models/AsyncObserver.cs:22-33 | An adapter from the token-less constructor behaves the same for any two tokens. None of `OnNextAsync`, `OnCompletedAsync` and `OnErrorAsync` hands a token to any callback. |
| CancellableObserver.NullOnNextFailsLate | src/BitzArt.Observable.Extensions.Async/Models/AsyncObserver.cs:22-52 | A null onNext passes the token-less constructor and throws `NullReferenceException` on the first `OnNextAsync`. The token-taking constructor rejects it at once. |
| AdapterLaws.TokenlessAdapterMatchesObserver | src/BitzArt.Observable.Extensions.Async/Models/AsyncObserver.cs:22-70 | For every notification, the token-less async adapter invokes the same callbacks with the same payloads as an `Observer<T>` built from the same callbacks. It returns the task of the callback it invoked, or a completed task. |
| AdapterLaws.StatefulAdapterMatchesObserver | src/BitzArt.Observable.Extensions/Models/AsyncObserver.cs:59-84 | The stateful adapter's async and synchronous members invoke the same callbacks as an `Observer<T>` holding its callbacks. |
| ObservableExtensions.Subscribe | src/BitzArt.Observable.Extensions/Extensions/ObservableExtensions.cs:9-17 | A null observable gives `ArgumentNullException("observable")`. Then a null onNext gives `ArgumentNullException("onNext")`, with nothing subscribed. Otherwise the call succeeds: exactly one new `Observer<T>` holding the callbacks is appended, and a fresh `Unsubscriber` for it is returned. |
| AsyncObservableExtensions.Subscribe | src/BitzArt.Observable.Extensions/Extensions/AsyncObservableExtensions.cs:13-21 | A null observable gives `ArgumentNullException("asyncObservable")`. A null onNext is not rejected. Otherwise the call succeeds: exactly one new token-ignoring adapter built from the callbacks is appended, and a fresh `Unsubscriber` for it is returned. |
| AsyncObservableExtensions.SubscribeWithToken | src/BitzArt.Observable.Extensions/Extensions/AsyncObservableExtensions.cs:24-32 | A null observable gives `ArgumentNullException("asyncObservable")`. Then a null onNext gives `ArgumentNullException("onNext")`, with nothing subscribed. Otherwise the call succeeds: exactly one new adapter holding the token-taking callbacks is appended, and a fresh `Unsubscriber` for it is returned. |
| Scenarios.SubscribeDisposeRoundTrip | tests/BitzArt.Observable.Extensions.Tests/AsyncObservableTests.cs:157-166 | Subscribing and then disposing restores the list, and a second `Dispose` of the same handle throws `ObjectDisposedException`. |
| Scenarios.DuplicateSubscribeThrows | src/BitzArt.Observable.Extensions/Models/AsyncObservable.cs:32-33 | A second `Subscribe` of the same observer throws `InvalidOperationException` and leaves the list as the first call made it. |
| Scenarios.UnsubscribedObserverIsNotNotified | tests/BitzArt.Observable.Extensions.Tests/AsyncObservableTests.cs:136-154 | An observer subscribed through the helper and then unsubscribed receives nothing, and the notification completes. The test notifies through the observable's `OnNextAsync`, which is not part of this model; the scenario notifies through `NotifyObserversAsync` instead. |
| Scenarios.SubscribePlainThenStateful | src/BitzArt.Observable.Extensions/Models/AsyncObserver.cs:38-54 | After an `Observer<T>` is subscribed through the helper and a stateful adapter is constructed on the same new observable, the list holds exactly those two, in that order, and the adapter has no value yet. |
| Scenarios.NotifyInSubscriptionOrder | src/BitzArt.Observable.Extensions/Models/AsyncObservable.cs:45-57 | An `Observer<T>` and then a stateful adapter are notified in that order, through `OnNext` and `OnNextAsync` respectively. Each onNext is invoked once with the value, and the adapter caches the value. |
| Scenarios.DisposedAdapterIsNotNotified | src/BitzArt.Observable.Extensions/Models/AsyncObserver.cs:89-95 | The stateful adapter's first `Dispose` succeeds. Its second throws `ObjectDisposedException` with object name `"System.String"`. A later notification invokes only the other observer's onNext. |
| Scenarios.TokenAwareAdapterStopsNotification | src/BitzArt.Observable.Extensions/Models/AsyncObservable.cs:49-55 | An Async-package adapter that has reached this observable's list, for instance through an `IAsyncObservable<T>` that forwards `Subscribe` to it, is sent the synchronous `OnNext`. That call throws `NotSupportedException` and ends the notification, with no callback invoked. |

## Left out

- The `lock` statements in `Subscribe` and `Unsubscriber.Dispose` are left out. The model is sequential, so concurrent subscription, disposal and notification are not modelled.
- Task scheduling is not modelled. A task is either completed or the task a callback returned. Awaiting is modelled as the task's effects happening before the next observer is reached. The blocking `.Wait()` in the stateful adapter's synchronous members is modelled as returning the same effects.
- User callbacks that throw, and callback tasks that fault, are not modelled. A callback is an identifier whose invocation always succeeds, so only the library's own exceptions appear.
- Observable.AsyncObservable.NotifyObserversAsync: the stateful adapter's `OnNextAsync` starts onNext and does not await its task. The model records the invocation and does not model the callback running later.
- The observable's `OnNextAsync`, `OnCompletedAsync`, `OnErrorAsync` and `Dispose` members used by the tests are not part of this model. They are not defined in `AsyncObservable.cs`, and their sources are not part of this model.
- The interfaces `IAsyncObserver<T>` and `IAsyncObservable<T>` of both packages are folded into the datatypes and the dispatch predicate `IsAsyncObserver`.
- ObservableExtensions.Subscribe is modelled against `AsyncObservable<T>` rather than any `IObservable<T>`, because that is the only observable in the core.
- AsyncObservableExtensions.Subscribe and AsyncObservableExtensions.SubscribeWithToken take an `IAsyncObservable<T>` in C#. `AsyncObservable<T>` implements only `IObservable<T>` (`AsyncObservable.cs` line 11), so in C# these helpers cannot be called on it directly. The model applies them to an observable whose `Subscribe` is that of `AsyncObservable<T>`. In C# that is an `IAsyncObservable<T>` that forwards `Subscribe` to one. Other `IAsyncObservable<T>` implementations, with their own `Subscribe`, are not modelled. `Scenarios.TokenAwareAdapterStopsNotification` relies on this same pairing.
- Observable.CreateAsyncObserver and Observable.AsyncObserver.constructor accept only an `AsyncObservable<T>`. The C# constructor accepts any `IObservable<T>` and calls its `Subscribe`, and other observables are not modelled.
- Observable.AsyncObservable.Subscribe accepts, in C#, any `IObserver<T>`, including user classes that implement `IObserver<T>` or this package's public `IAsyncObserver<T>`. The `Subscriber` datatype is closed over null and the library's three adapters. The dispatch rule (await `OnNextAsync` on an `IAsyncObserver<T>`, otherwise call `OnNext`) is therefore proved only for those adapters, and user observer classes are not modelled.
- The identity of a freshly allocated adapter is a parameter `id`, and freshness is a precondition (`Observable.IdIsFresh`) rather than a consequence of allocation.
- `default(T)` for `CurrentValue` is modelled as `None`, so a delivered value equal to `default(T)` is distinguishable in the model but not in C#.
- Null error arguments to `OnError`/`OnErrorAsync`, and null values of `T`, are not modelled separately. An error is any `Exn` value.
- The struct-copy semantics of `AsyncObservable<T>` and `Unsubscriber` are not modelled. A copy of a default-initialised struct with a null list is not modelled either.
- The sample Blazor application and the test fixtures' own helper classes are not modelled.
