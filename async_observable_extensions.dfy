/** `AsyncObservableExtensions.Subscribe`, in its token-less and its
    cancellation-aware overloads: wrap the callbacks in a new
    cancellation-aware `AsyncObserver<T>` and subscribe it. */
module AsyncObservableExtensions {
  import opened Notifications
  import opened ObserverList
  import CancellableObserver
  import opened Observable

  /** The token-less overload. A null observable is rejected; a null onNext
      is not, because the adapter wraps it in a lambda before its own null
      check. Otherwise exactly one new adapter, built by the token-less
      constructor, is appended to the list, and the result is the
      `Unsubscriber` that `Subscribe` returned. `id` is the identity of the
      newly allocated adapter, which no observer in the list has yet. */
  method Subscribe<T>(asyncObservable: AsyncObservable?<T>, id: ObserverId,
                      onNext: Option<Callback>, onCompleted: Option<Callback>, onError: Option<Callback>)
    returns (r: Result<Unsubscriber<T>, Exn>)
    requires asyncObservable != null ==> asyncObservable.Valid() && IdIsFresh(asyncObservable.observers, id)
    modifies asyncObservable
    ensures asyncObservable == null ==> r == Failure(ArgumentNull("asyncObservable"))
    ensures asyncObservable != null ==> asyncObservable.Valid()
    ensures asyncObservable != null ==>
      var s := Cancellable(id, CancellableObserver.CreateIgnoringToken(onNext, onCompleted, onError).value);
      r.Success? && fresh(r.value) && r.value.observable == asyncObservable && r.value.observer == s
      && asyncObservable.observers == old(asyncObservable.observers) + [s]
  {
    if asyncObservable == null {
      return Failure(ArgumentNull("asyncObservable"));
    }
    // the token-less constructor never throws
    var asyncObserver := CancellableObserver.CreateIgnoringToken(onNext, onCompleted, onError).value;
    r := asyncObservable.Subscribe(Cancellable(id, asyncObserver));
  }

  /** The cancellation-aware overload. A null observable is rejected first,
      then a null onNext by the adapter's constructor, before anything is
      subscribed. Otherwise exactly one new adapter holding the given
      token-taking callbacks is appended to the list, and the result is the
      `Unsubscriber` that `Subscribe` returned. `id` is the identity of the
      newly allocated adapter, which no observer in the list has yet. */
  method SubscribeWithToken<T>(asyncObservable: AsyncObservable?<T>, id: ObserverId,
                               onNext: Option<Callback>, onCompleted: Option<Callback>, onError: Option<Callback>)
    returns (r: Result<Unsubscriber<T>, Exn>)
    requires asyncObservable != null ==> asyncObservable.Valid() && IdIsFresh(asyncObservable.observers, id)
    modifies asyncObservable
    ensures asyncObservable == null ==> r == Failure(ArgumentNull("asyncObservable"))
    ensures asyncObservable != null ==> asyncObservable.Valid()
    ensures asyncObservable != null && onNext.None? ==>
      r == Failure(ArgumentNull("onNext")) && asyncObservable.observers == old(asyncObservable.observers)
    ensures asyncObservable != null && onNext.Some? ==>
      var s := Cancellable(id, CancellableObserver.AsyncObserver(CancellableObserver.TakesToken(onNext.value),
                                                                 CancellableObserver.TakesTokenIfPresent(onCompleted),
                                                                 CancellableObserver.TakesTokenIfPresent(onError)));
      r.Success? && fresh(r.value) && r.value.observable == asyncObservable && r.value.observer == s
      && asyncObservable.observers == old(asyncObservable.observers) + [s]
  {
    if asyncObservable == null {
      return Failure(ArgumentNull("asyncObservable"));
    }
    var asyncObserver := CancellableObserver.Create(CancellableObserver.TakesTokenIfPresent(onNext),
                                                CancellableObserver.TakesTokenIfPresent(onCompleted),
                                                CancellableObserver.TakesTokenIfPresent(onError));
    if asyncObserver.Failure? {
      return Failure(asyncObserver.error);
    }
    r := asyncObservable.Subscribe(Cancellable(id, asyncObserver.value));
  }
}
