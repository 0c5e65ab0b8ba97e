/** The three observer adapters agree on which user callbacks a notification
    invokes and with what payload; they differ only in the task they return,
    in the token they pass on, and in the state the stateful one keeps. */
module AdapterLaws {
  import opened Notifications
  import ObserverAdapter
  import CancellableObserver
  import Observable

  /** The token-less async adapter built from callbacks invokes, for every
      notification, the same callbacks with the same payloads as the
      synchronous `Observer<T>` built from them, and returns the task of the
      callback it invoked (a completed task when there was none). */
  lemma TokenlessAdapterMatchesObserver<T>(onNext: Callback, onCompleted: Option<Callback>, onError: Option<Callback>,
                                           n: Notification<T>, token: CancellationToken)
    ensures var o := ObserverAdapter.Create(Some(onNext), onCompleted, onError).value;
      var a := CancellableObserver.CreateIgnoringToken(Some(onNext), onCompleted, onError).value;
      var r := match n
               case Next(v) => CancellableObserver.OnNextAsync(a, v, token)
               case Completed => CancellableObserver.OnCompletedAsync(a, token)
               case Error(e) => CancellableObserver.OnErrorAsync(a, e, token);
      r.Success?
      && r.value.effects == ObserverAdapter.Deliver(o, n)
      && r.value.task == (match ObserverAdapter.Handler(o, n)
                          case None => CompletedTask
                          case Some(cb) => CallbackTask(cb))
  {
  }

  /** The stateful adapter invokes the same callbacks as the synchronous
      `Observer<T>` holding its callbacks, through its async and its
      synchronous members alike. */
  lemma StatefulAdapterMatchesObserver<T>(a: Observable.AsyncObserver<T>, value: T, error: Exn)
    ensures var o := ObserverAdapter.Observer(a.onNext, a.onCompleted, a.onError);
      a.NextReaction(value).effects == ObserverAdapter.OnNext(o, value)
      && a.OnCompleted() == a.OnCompletedAsync().effects == ObserverAdapter.OnCompleted(o)
      && a.OnError(error) == a.OnErrorAsync(error).effects == ObserverAdapter.OnError(o, error)
  {
  }
}
