/** `ObservableExtensions.Subscribe(onNext, onCompleted, onError)`: wrap the
    callbacks in a new `Observer<T>` and subscribe it. */
module ObservableExtensions {
  import opened Notifications
  import opened ObserverList
  import ObserverAdapter
  import opened Observable

  /** A null observable is rejected first; a null onNext is then rejected by
      the `Observer<T>` constructor; neither subscribes anything. Otherwise
      exactly one new observer, holding the given callbacks, is appended to
      the list, and the result is the `Unsubscriber` that `Subscribe`
      returned. `id` is the identity of the newly allocated `Observer<T>`, so
      no observer in the list has it yet, and `Subscribe` cannot find the new
      observer already subscribed. */
  method Subscribe<T>(observable: AsyncObservable?<T>, id: ObserverId,
                      onNext: Option<Callback>, onCompleted: Option<Callback>, onError: Option<Callback>)
    returns (r: Result<Unsubscriber<T>, Exn>)
    requires observable != null ==> observable.Valid() && IdIsFresh(observable.observers, id)
    modifies observable
    ensures observable == null ==> r == Failure(ArgumentNull("observable"))
    ensures observable != null ==> observable.Valid()
    ensures observable != null && onNext.None? ==>
      r == Failure(ArgumentNull("onNext")) && observable.observers == old(observable.observers)
    ensures observable != null && onNext.Some? ==>
      var s := Plain(id, ObserverAdapter.Observer(onNext.value, onCompleted, onError));
      r.Success? && fresh(r.value) && r.value.observable == observable && r.value.observer == s
      && observable.observers == old(observable.observers) + [s]
  {
    if observable == null {
      return Failure(ArgumentNull("observable"));
    }
    var observer := ObserverAdapter.Create(onNext, onCompleted, onError);
    if observer.Failure? {
      return Failure(observer.error);
    }
    r := observable.Subscribe(Plain(id, observer.value));
  }
}
