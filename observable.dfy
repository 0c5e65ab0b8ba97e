/** The observable (`AsyncObservable<T>`): an ordered list of subscribed
    observers, shared with the `Unsubscriber` handles that `Subscribe` returns,
    and the loop that pushes a value to every subscribed observer in
    subscription order. The stateful `AsyncObserver<T>`, which subscribes
    itself when constructed and caches the last value it received, lives in the
    same module because the list holds references to it. */
module Observable {
  import opened Notifications
  import opened ObserverList
  import ObserverAdapter
  import CancellableObserver

  const AlreadySubscribedMessage: string := "Observer already subscribed."

  /** The object name of the `ObjectDisposedException` that a second `Dispose`
      of the stateful adapter throws. The guard is the overload
      `ObjectDisposedException.ThrowIf(bool, object instance)`, which names the
      exception after the runtime type of `instance`; the argument given is
      the string `nameof(AsyncObserver<T>)`, so the name is that of the type
      `System.String`, not "AsyncObserver". */
  const DisposedAdapterObjectName: string := "System.String"

  /** An `IObserver<T>` reference in the subscriber list. Two entries are the
      same observer exactly when they are equal: `id` is the identity of an
      immutable adapter object and `Stateful` compares object references.
      `Null` is a null reference, which `Subscribe` accepts like any other. */
  datatype Subscriber<T> =
    | Null
    | Plain(id: ObserverId, observer: ObserverAdapter.Observer)
    | Stateful(adapter: AsyncObserver<T>)
    | Cancellable(id: ObserverId, asyncObserver: CancellableObserver.AsyncObserver)

  /** `observer is IAsyncObserver<T>`, where the interface is the one of this
      package. The stateful adapter implements it. The Async package's
      adapter implements that package's own `IAsyncObserver<T>`, a different
      interface, so it is treated as a plain `IObserver<T>`. */
  predicate IsAsyncObserver<T>(s: Subscriber<T>): (b: bool)
    ensures s.Stateful? ==> b
    ensures s.Plain? || s.Cancellable? || s.Null? ==> !b
  {
    s.Stateful?
  }

  /** No adapter in the list has identity `id`: `id` names an adapter that
      has just been allocated with `new`, a reference distinct from every
      reference already subscribed. */
  predicate IdIsFresh<T>(xs: seq<Subscriber<T>>, id: ObserverId)
  {
    forall s | s in xs :: (s.Plain? || s.Cancellable?) ==> s.id != id
  }

  /** One step of the notification loop: the observer it reached, and whether
      it called `OnNextAsync` (and awaited it) or the synchronous `OnNext`. */
  datatype Dispatch<T> = Dispatch(target: Subscriber<T>, viaAsync: bool)

  /** What `NotifyObserversAsync` did: the observers it reached, in order, the
      callbacks they invoked, and whether the returned task completed or faulted. */
  datatype Broadcast<T> = Broadcast(dispatched: seq<Dispatch<T>>, trace: seq<Event<T>>, outcome: Outcome<Exn>)

  /** The loop body for one observer: an async observer gets `OnNextAsync`,
      any other gets `OnNext`. A null entry throws `NullReferenceException`;
      the Async package's adapter throws `NotSupportedException` from its
      synchronous `OnNext`. */
  function Deliver<T>(s: Subscriber<T>, value: T): (r: Result<seq<Event<T>>, Exn>)
    ensures r.Success? <==> s.Plain? || s.Stateful?
    ensures s.Null? ==> r == Failure(NullReference)
    ensures s.Cancellable? ==> r == Failure(NotSupported(CancellableObserver.SyncMethodNotSupportedMessage))
    ensures s.Plain? ==> r == Success([Invoked(s.observer.onNext, Next(value), None)])
    ensures s.Stateful? ==> r == Success([Invoked(s.adapter.onNext, Next(value), None)])
  {
    match s
    case Null => Failure(NullReference)
    case Plain(_, o) => Success(ObserverAdapter.OnNext(o, value))
    case Stateful(a) => Success(a.NextReaction(value).effects)
    case Cancellable(_, o) =>
      match CancellableObserver.OnNext(o, value)
      case Fail(e) => Failure(e)
      case Pass => Success([])
  }

  /** The specification of `NotifyObserversAsync` on a list of observers: visit
      them in order, stopping at the first one that throws. */
  function NotifyAll<T>(xs: seq<Subscriber<T>>, value: T): (r: Broadcast<T>)
    ensures |r.dispatched| <= |xs|
    ensures r.outcome.Pass? ==> |r.dispatched| == |xs|
    decreases |xs|
  {
    if xs == [] then Broadcast([], [], Pass)
    else
      var before := NotifyAll(xs[..|xs| - 1], value);
      var s := xs[|xs| - 1];
      if before.outcome.Fail? then before
      else
        var d := Dispatch(s, IsAsyncObserver(s));
        match Deliver(s, value)
        case Success(effects) => Broadcast(before.dispatched + [d], before.trace + effects, Pass)
        case Failure(e) => Broadcast(before.dispatched + [d], before.trace, Fail(e))
  }

  /** The stateful adapters in a list, which notification may update. */
  ghost function Adapters<T>(xs: seq<Subscriber<T>>): (adapters: set<AsyncObserver<T>>)
  {
    set i | 0 <= i < |xs| && xs[i].Stateful? :: xs[i].adapter
  }

  /** Distinct entries of a duplicate-free list that are both stateful
      adapters hold different adapter objects. */
  lemma StatefulAdaptersDistinct<T>(xs: seq<Subscriber<T>>, i: int)
    requires NoDuplicates(xs) && 0 <= i < |xs| && xs[i].Stateful?
    ensures forall j :: 0 <= j < |xs| && j != i && xs[j].Stateful? ==> xs[j].adapter != xs[i].adapter
  {
  }

  /** The loop body of `NotifyObserversAsync` for one observer: await
      `OnNextAsync(value)` on the package's `IAsyncObserver<T>`, call
      `OnNext(value)` on any other observer. Only a stateful adapter changes,
      and only its `CurrentValue`. */
  method NotifyOne<T>(observer: Subscriber<T>, value: T) returns (r: Result<seq<Event<T>>, Exn>)
    modifies if observer.Stateful? then {observer.adapter} else {}
    ensures r == Deliver(observer, value)
    ensures observer.Stateful? ==>
      observer.adapter.currentValue == Some(value)
      && observer.adapter.isDisposed == old(observer.adapter.isDisposed)
      && observer.adapter.subscription == old(observer.adapter.subscription)
  {
    match observer {
      case Null =>
        r := Failure(NullReference);
      case Plain(_, o) =>
        r := Success(ObserverAdapter.OnNext(o, value));
      case Stateful(a) =>
        var reaction := a.OnNextAsync(value);
        // awaiting reaction.task: OnNextAsync returned a completed task
        r := Success(reaction.effects);
      case Cancellable(_, o) =>
        var thrown := CancellableObserver.OnNext(o, value);
        r := Failure(thrown.error);
    }
  }

  /** `AsyncObservable<T>`. Copies of the .NET struct share one list, so the
      observable and every `Unsubscriber` refer to this one object. */
  class AsyncObservable<T> {
    var observers: seq<Subscriber<T>>

    /** The list never holds the same observer twice. */
    ghost predicate Valid()
      reads this
    {
      NoDuplicates(observers)
    }

    constructor ()
      ensures Valid() && observers == []
    {
      observers := [];
    }

    /** Reject an observer that is already subscribed; otherwise append it and
        return a fresh `Unsubscriber` bound to it and to this list. */
    method Subscribe(observer: Subscriber<T>) returns (r: Result<Unsubscriber<T>, Exn>)
      requires Valid()
      modifies this
      ensures Valid()
      ensures observer in old(observers) ==>
        r == Failure(InvalidOperation(AlreadySubscribedMessage)) && observers == old(observers)
      ensures observer !in old(observers) ==>
        observers == old(observers) + [observer]
        && r.Success? && fresh(r.value) && r.value.observable == this && r.value.observer == observer
    {
      if observer in observers {
        return Failure(InvalidOperation(AlreadySubscribedMessage));
      }
      AppendFreshKeepsNoDuplicates(observers, observer);
      observers := observers + [observer];
      var unsubscriber := new Unsubscriber(this, observer);
      r := Success(unsubscriber);
    }

    /** Push value to every subscribed observer, in subscription order,
        awaiting each asynchronous delivery before starting the next. */
    method NotifyObserversAsync(value: T) returns (r: Broadcast<T>)
      requires Valid()
      modifies Adapters(observers)
      ensures r == NotifyAll(observers, value)
      ensures forall j :: 0 <= j < |observers| && observers[j].Stateful? ==>
        observers[j].adapter.currentValue
          == (if j < |r.dispatched| then Some(value) else old(observers[j].adapter.currentValue))
        && observers[j].adapter.isDisposed == old(observers[j].adapter.isDisposed)
        && observers[j].adapter.subscription == old(observers[j].adapter.subscription)
    {
      var i := 0;
      r := Broadcast([], [], Pass);
      while i < |observers| && r.outcome.Pass?
        invariant 0 <= i <= |observers|
        invariant r == NotifyAll(observers[..i], value)
        invariant |r.dispatched| == i
        invariant forall j :: 0 <= j < |observers| && observers[j].Stateful? ==>
          observers[j].adapter.currentValue
            == (if j < i then Some(value) else old(observers[j].adapter.currentValue))
          && observers[j].adapter.isDisposed == old(observers[j].adapter.isDisposed)
          && observers[j].adapter.subscription == old(observers[j].adapter.subscription)
      {
        var observer := observers[i];
        assert observers[..i + 1][..i] == observers[..i];
        if observer.Stateful? {
          assert observer.adapter in Adapters(observers);
          StatefulAdaptersDistinct(observers, i);
        }
        var delivered := NotifyOne(observer, value);
        var step := Dispatch(observer, IsAsyncObserver(observer));
        match delivered {
          case Success(effects) =>
            r := Broadcast(r.dispatched + [step], r.trace + effects, Pass);
          case Failure(e) =>
            r := Broadcast(r.dispatched + [step], r.trace, Fail(e));
        }
        i := i + 1;
      }
      if i < |observers| {
        FailureIsFinal(observers, i, value);
      } else {
        assert observers[..i] == observers;
      }
    }
  }

  /** The `IDisposable` that `Subscribe` returns: the shared list and the one
      observer it may remove. */
  class Unsubscriber<T> {
    const observable: AsyncObservable<T>
    const observer: Subscriber<T>

    constructor (observable: AsyncObservable<T>, observer: Subscriber<T>)
      ensures this.observable == observable && this.observer == observer
    {
      this.observable := observable;
      this.observer := observer;
    }

    /** `List.Remove` its observer; when that found nothing to remove, throw
        `ObjectDisposedException`. */
    method Dispose() returns (r: Outcome<Exn>)
      requires observable.Valid()
      modifies observable
      ensures observable.Valid()
      ensures observer !in observable.observers
      ensures observer in old(observable.observers) ==>
        r == Pass && observable.observers == RemoveFirst(old(observable.observers), observer)
      ensures observer !in old(observable.observers) ==>
        r == Fail(ObjectDisposed("Unsubscriber")) && observable.observers == old(observable.observers)
    {
      var removed := IndexOf(observable.observers, observer) >= 0;
      RemoveFirstKeepsNoDuplicates(observable.observers, observer);
      observable.observers := RemoveFirst(observable.observers, observer);
      if !removed {
        r := Fail(ObjectDisposed("Unsubscriber"));
      } else {
        r := Pass;
      }
    }
  }

  /** The stateful `AsyncObserver<T>`: subscribes itself to an observable when
      constructed, remembers the last value delivered, and unsubscribes once
      on `Dispose`. */
  class AsyncObserver<T> {
    const observable: AsyncObservable<T>
    var subscription: Unsubscriber?<T>
    const onNext: Callback
    const onCompleted: Option<Callback>
    const onError: Option<Callback>
    var isDisposed: bool
    /** `CurrentValue`; `None` is `default(T)`, its value before any delivery. */
    var currentValue: Option<T>

    /** The adapter holds the subscription of itself to its observable. */
    ghost predicate Valid()
      reads this
    {
      subscription != null && subscription.observable == observable && subscription.observer == Stateful(this)
    }

    /** The constructor after its argument checks: store the callbacks, then
        subscribe this adapter to the observable and keep the subscription. */
    constructor (observable: AsyncObservable<T>, onNext: Callback, onCompleted: Option<Callback>, onError: Option<Callback>)
      requires observable.Valid()
      modifies observable
      ensures Valid() && fresh(subscription) && observable.Valid()
      ensures this.observable == observable && this.onNext == onNext
      ensures this.onCompleted == onCompleted && this.onError == onError
      ensures currentValue == None && !isDisposed
      ensures observable.observers == old(observable.observers) + [Stateful(this)]
    {
      this.observable := observable;
      this.onNext := onNext;
      this.onCompleted := onCompleted;
      this.onError := onError;
      currentValue := None;
      isDisposed := false;
      subscription := null;
      new;
      var subscribed := observable.Subscribe(Stateful(this));
      subscription := subscribed.value;
    }

    /** What `OnNextAsync(value)` does besides setting `CurrentValue`: start
        onNext with value, without awaiting it, and return a completed task. */
    function NextReaction(value: T): (r: Reaction<T>)
    {
      Reaction([Invoked(onNext, Next(value), None)], CompletedTask)
    }

    /** `OnNextAsync(value)`: set `CurrentValue` to value, then invoke onNext
        once with value; the returned task is already complete. */
    method OnNextAsync(value: T) returns (r: Reaction<T>)
      modifies this`currentValue
      ensures currentValue == Some(value)
      ensures r == NextReaction(value)
      ensures r.task == CompletedTask && r.effects == [Invoked(onNext, Next(value), None)]
    {
      currentValue := Some(value);
      var started := Invoked(onNext, Next(value), None);
      r := Reaction([started], CompletedTask);
    }

    /** `OnCompletedAsync()`: the callback's task, or a completed task with no
        effect when onCompleted was not supplied. */
    function OnCompletedAsync(): (r: Reaction<T>)
      ensures r.effects == [] <==> onCompleted.None?
      ensures onCompleted.None? ==> r.task == CompletedTask
      ensures onCompleted.Some? ==> r == Reaction([Invoked(onCompleted.value, Completed, None)], CallbackTask(onCompleted.value))
    {
      InvokeIfPresent(onCompleted, Completed, None)
    }

    /** `OnErrorAsync(error)`: the callback's task, or a completed task with no
        effect when onError was not supplied. */
    function OnErrorAsync(error: Exn): (r: Reaction<T>)
      ensures r.effects == [] <==> onError.None?
      ensures onError.None? ==> r.task == CompletedTask
      ensures onError.Some? ==> r == Reaction([Invoked(onError.value, Error(error), None)], CallbackTask(onError.value))
    {
      InvokeIfPresent(onError, Error(error), None)
    }

    /** The synchronous `OnNext(value)`: `OnNextAsync(value)` and wait; the
        same new `CurrentValue` and the same callback invocation. */
    method OnNext(value: T) returns (effects: seq<Event<T>>)
      modifies this`currentValue
      ensures currentValue == Some(value)
      ensures effects == NextReaction(value).effects
    {
      var r := OnNextAsync(value);
      // r.task.Wait(): the task is already complete
      effects := r.effects;
    }

    /** The synchronous `OnCompleted()`: `OnCompletedAsync()` and wait for the
        task; the callbacks invoked are those of the async member. */
    function OnCompleted(): (effects: seq<Event<T>>)
      ensures effects == OnCompletedAsync().effects
    {
      var r := OnCompletedAsync();
      r.effects
    }

    /** The synchronous `OnError(error)`, likewise. */
    function OnError(error: Exn): (effects: seq<Event<T>>)
      ensures effects == OnErrorAsync(error).effects
    {
      var r := OnErrorAsync(error);
      r.effects
    }

    /** The first `Dispose` disposes the subscription and then sets the flag; a
        later one throws `ObjectDisposedException`. When the subscription's own
        `Dispose` throws, the flag stays unset. */
    method Dispose() returns (r: Outcome<Exn>)
      requires Valid() && observable.Valid()
      modifies this`isDisposed, observable
      ensures Valid() && observable.Valid()
      ensures old(isDisposed) ==>
        r == Fail(ObjectDisposed(DisposedAdapterObjectName)) && isDisposed && observable.observers == old(observable.observers)
      ensures !old(isDisposed) && Stateful(this) in old(observable.observers) ==>
        r == Pass && isDisposed && observable.observers == RemoveFirst(old(observable.observers), Stateful(this))
      ensures !old(isDisposed) && Stateful(this) !in old(observable.observers) ==>
        r == Fail(ObjectDisposed("Unsubscriber")) && !isDisposed && observable.observers == old(observable.observers)
    {
      if isDisposed {
        return Fail(ObjectDisposed(DisposedAdapterObjectName));
      }
      r := subscription.Dispose();
      if r.Fail? {
        return;
      }
      isDisposed := true;
    }
  }

  /** The `AsyncObserver<T>` constructor with its argument checks: a null
      observable is rejected first, then a null onNext, both with
      `ArgumentNullException` and before anything is subscribed. */
  method CreateAsyncObserver<T>(observable: AsyncObservable?<T>, onNext: Option<Callback>, onCompleted: Option<Callback>, onError: Option<Callback>)
    returns (r: Result<AsyncObserver<T>, Exn>)
    requires observable != null ==> observable.Valid()
    modifies observable
    ensures observable == null ==> r == Failure(ArgumentNull("observable"))
    ensures observable != null ==> observable.Valid()
    ensures observable != null && onNext.None? ==>
      r == Failure(ArgumentNull("onNext")) && observable.observers == old(observable.observers)
    ensures observable != null && onNext.Some? ==>
      r.Success? && fresh(r.value) && r.value.Valid()
      && r.value.observable == observable && r.value.onNext == onNext.value
      && r.value.onCompleted == onCompleted && r.value.onError == onError
      && r.value.currentValue == None && !r.value.isDisposed
      && observable.observers == old(observable.observers) + [Stateful(r.value)]
  {
    if observable == null {
      return Failure(ArgumentNull("observable"));
    }
    if onNext.None? {
      return Failure(ArgumentNull("onNext"));
    }
    var adapter := new AsyncObserver(observable, onNext.value, onCompleted, onError);
    r := Success(adapter);
  }

  /** Once an observer has thrown, later observers are not reached: the
      result of the whole loop is that of the prefix that failed. */
  lemma {:induction false} FailureIsFinal<T>(xs: seq<Subscriber<T>>, k: nat, value: T)
    requires k <= |xs|
    requires NotifyAll(xs[..k], value).outcome.Fail?
    ensures NotifyAll(xs, value) == NotifyAll(xs[..k], value)
    decreases |xs|
  {
    if k < |xs| {
      var init := xs[..|xs| - 1];
      assert init[..k] == xs[..k];
      FailureIsFinal(init, k, value);
    } else {
      assert xs[..k] == xs;
    }
  }

  /** Observers are reached in list order, each through the member its type
      selects; the walk completes exactly when every delivery succeeds, and
      otherwise ends at the first observer that throws, with its exception. */
  lemma {:induction false} NotifyAllStopsAtFirstFailure<T>(xs: seq<Subscriber<T>>, value: T)
    ensures var r := NotifyAll(xs, value);
      forall i :: 0 <= i < |r.dispatched| ==> r.dispatched[i] == Dispatch(xs[i], IsAsyncObserver(xs[i]))
    ensures NotifyAll(xs, value).outcome.Pass? <==> forall i :: 0 <= i < |xs| ==> Deliver(xs[i], value).Success?
    ensures var r := NotifyAll(xs, value);
      r.outcome.Fail? ==>
        0 < |r.dispatched|
        && Deliver(xs[|r.dispatched| - 1], value) == Failure(r.outcome.error)
        && forall i :: 0 <= i < |r.dispatched| - 1 ==> Deliver(xs[i], value).Success?
    decreases |xs|
  {
    if xs != [] {
      var init := xs[..|xs| - 1];
      NotifyAllStopsAtFirstFailure(init, value);
    }
  }

  /** The callbacks a notification invokes are exactly one invocation per
      observer that was reached and did not throw, in subscription order, each
      being that observer's own delivery. */
  lemma {:induction false} NotifyTraceFollowsDispatch<T>(xs: seq<Subscriber<T>>, value: T)
    ensures var r := NotifyAll(xs, value);
      |r.trace| == |r.dispatched| - (if r.outcome.Fail? then 1 else 0)
      && forall i :: 0 <= i < |r.trace| ==> Deliver(xs[i], value) == Success([r.trace[i]])
    decreases |xs|
  {
    if xs != [] {
      var init := xs[..|xs| - 1];
      NotifyTraceFollowsDispatch(init, value);
    }
  }

  /** The callback whose invocation `Deliver` records for an observer that
      does not throw. */
  function NextCallback<T>(s: Subscriber<T>): (cb: Callback)
    requires s.Plain? || s.Stateful?
  {
    if s.Plain? then s.observer.onNext else s.adapter.onNext
  }

  /** When every subscribed observer is an `Observer` or a stateful
      `AsyncObserver`, a notification succeeds, reaches every observer exactly
      once in subscription order, through `OnNextAsync` for the async one and
      `OnNext` for the others, and invokes each observer's onNext exactly once
      with the value, in the same order. */
  lemma NotifyReachesEveryObserverOnce<T>(xs: seq<Subscriber<T>>, value: T)
    requires forall i :: 0 <= i < |xs| ==> xs[i].Plain? || xs[i].Stateful?
    ensures NotifyAll(xs, value).outcome == Pass
    ensures |NotifyAll(xs, value).dispatched| == |xs| == |NotifyAll(xs, value).trace|
    ensures forall i :: 0 <= i < |xs| ==>
      NotifyAll(xs, value).dispatched[i] == Dispatch(xs[i], xs[i].Stateful?)
      && NotifyAll(xs, value).trace[i] == Invoked(NextCallback(xs[i]), Next(value), None)
  {
    NotifyAllStopsAtFirstFailure(xs, value);
    NotifyTraceFollowsDispatch(xs, value);
  }

  /** After its observer has been removed from a duplicate-free list, a
      notification never reaches that observer. */
  lemma UnsubscribedIsNotNotified<T>(xs: seq<Subscriber<T>>, s: Subscriber<T>, value: T)
    requires NoDuplicates(xs)
    ensures forall d | d in NotifyAll(RemoveFirst(xs, s), value).dispatched :: d.target != s
  {
    RemoveFirstKeepsNoDuplicates(xs, s);
    NotifyAllStopsAtFirstFailure(RemoveFirst(xs, s), value);
    var r := NotifyAll(RemoveFirst(xs, s), value);
    forall d | d in r.dispatched ensures d.target != s {
      var i :| 0 <= i < |r.dispatched| && r.dispatched[i] == d;
      assert d.target == RemoveFirst(xs, s)[i];
    }
  }

  /** Subscribing an observer and disposing its subscription leaves later
      notifications exactly as they were before. */
  lemma SubscribeThenUnsubscribeNotifiesAsBefore<T>(xs: seq<Subscriber<T>>, s: Subscriber<T>, value: T)
    requires s !in xs
    ensures NotifyAll(RemoveFirst(xs + [s], s), value) == NotifyAll(xs, value)
  {
    RemoveAppended(xs, s);
  }
}
