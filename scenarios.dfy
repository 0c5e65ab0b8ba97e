/** Client code that uses the observable only through the contracts of its
    members, as the repository's tests use it. */
module Scenarios {
  import opened Notifications
  import opened ObserverList
  import opened Observable
  import ObserverAdapter
  import ObservableExtensions
  import AsyncObservableExtensions
  import CancellableObserver

  /** Subscribing an observer and disposing the returned `Unsubscriber`
      restores the list; disposing it a second time throws. */
  method SubscribeDisposeRoundTrip<T>(observable: AsyncObservable<T>, observer: Subscriber<T>)
    returns (first: Outcome<Exn>, second: Outcome<Exn>)
    requires observable.Valid() && observer !in observable.observers
    modifies observable
    ensures first == Pass && second == Fail(ObjectDisposed("Unsubscriber"))
    ensures observable.observers == old(observable.observers)
  {
    var subscribed := observable.Subscribe(observer);
    var unsubscriber := subscribed.value;
    first := unsubscriber.Dispose();
    RemoveAppended(old(observable.observers), observer);
    second := unsubscriber.Dispose();
  }

  /** Subscribing the same observer twice throws and leaves the list as the
      first subscription made it. */
  method DuplicateSubscribeThrows<T>(observable: AsyncObservable<T>, observer: Subscriber<T>)
    returns (second: Result<Unsubscriber<T>, Exn>)
    requires observable.Valid() && observer !in observable.observers
    modifies observable
    ensures second == Failure(InvalidOperation(AlreadySubscribedMessage))
    ensures observable.observers == old(observable.observers) + [observer]
  {
    var first := observable.Subscribe(observer);
    second := observable.Subscribe(observer);
  }

  /** An observer subscribed through the helper and then unsubscribed
      receives nothing from a later notification. The notification goes
      through `NotifyObserversAsync`, standing in for the observable's
      `OnNextAsync`, which is not part of this model. */
  method UnsubscribedObserverIsNotNotified<T>(id: ObserverId, onNext: Callback, value: T)
    returns (disposed: Outcome<Exn>, b: Broadcast<T>)
    ensures disposed == Pass
    ensures b.outcome == Pass && b.dispatched == [] && b.trace == []
  {
    var observable := new AsyncObservable<T>();
    var subscription := ObservableExtensions.Subscribe(observable, id, Some(onNext), None, None);
    disposed := subscription.value.Dispose();
    b := observable.NotifyObserversAsync(value);
  }

  /** A new observable with an `Observer<T>` subscribed through the helper,
      then a stateful adapter that subscribed itself. */
  method SubscribePlainThenStateful<T>(id: ObserverId, first: Callback, second: Callback)
    returns (observable: AsyncObservable<T>, adapter: AsyncObserver<T>)
    ensures fresh(observable) && fresh(adapter)
    ensures observable.Valid() && adapter.Valid() && adapter.observable == observable
    ensures observable.observers == [Plain(id, ObserverAdapter.Observer(first, None, None)), Stateful(adapter)]
    ensures adapter.onNext == second && adapter.currentValue == None && !adapter.isDisposed
  {
    observable := new AsyncObservable<T>();
    var subscription := ObservableExtensions.Subscribe(observable, id, Some(first), None, None);
    var created := CreateAsyncObserver(observable, Some(second), None, None);
    adapter := created.value;
  }

  /** Two observers subscribed in order, a synchronous one then a stateful
      one, are notified in that order, and the stateful one caches the value. */
  method NotifyInSubscriptionOrder<T>(id: ObserverId, first: Callback, second: Callback, value: T)
    returns (b: Broadcast<T>, cached: Option<T>)
    ensures b.outcome == Pass && |b.dispatched| == 2
    ensures !b.dispatched[0].viaAsync && b.dispatched[1].viaAsync
    ensures b.trace == [Invoked(first, Next(value), None), Invoked(second, Next(value), None)]
    ensures cached == Some(value)
  {
    var observable, adapter := SubscribePlainThenStateful<T>(id, first, second);
    b := observable.NotifyObserversAsync(value);
    cached := adapter.currentValue;
    NotifyReachesEveryObserverOnce(observable.observers, value);
  }

  /** A stateful adapter's first `Dispose` takes it off the list, so a later
      notification reaches only the observer subscribed before it; its
      second `Dispose` throws. */
  method DisposedAdapterIsNotNotified<T>(id: ObserverId, first: Callback, second: Callback, value: T)
    returns (disposed: Outcome<Exn>, again: Outcome<Exn>, later: Broadcast<T>)
    ensures disposed == Pass && again == Fail(ObjectDisposed(DisposedAdapterObjectName))
    ensures later.outcome == Pass && later.trace == [Invoked(first, Next(value), None)]
  {
    var observable, adapter := SubscribePlainThenStateful<T>(id, first, second);
    var plain := Plain(id, ObserverAdapter.Observer(first, None, None));
    RemoveAppended([plain], Stateful(adapter));
    disposed := adapter.Dispose();
    again := adapter.Dispose();
    NotifyReachesEveryObserverOnce(observable.observers, value);
    later := observable.NotifyObserversAsync(value);
  }

  /** An observer from the Async package that has reached this observable's
      list (through an `IAsyncObservable<T>` whose `Subscribe` forwards to
      it) is sent the synchronous `OnNext`, which throws; the loop stops
      there. */
  method TokenAwareAdapterStopsNotification<T>(id: ObserverId, onNext: Callback, value: T)
    returns (b: Broadcast<T>)
    ensures b.outcome == Fail(NotSupported(CancellableObserver.SyncMethodNotSupportedMessage))
    ensures |b.dispatched| == 1 && !b.dispatched[0].viaAsync && b.trace == []
  {
    var observable := new AsyncObservable<T>();
    var subscription := AsyncObservableExtensions.SubscribeWithToken(observable, id, Some(onNext), None, None);
    b := observable.NotifyObserversAsync(value);
  }
}
