/** The cancellation-aware `AsyncObserver<T>` of the asynchronous package: an
    `IAsyncObserver<T>` whose callbacks return tasks and take a
    `CancellationToken`. Its synchronous `IObserver<T>` members always throw. */
module CancellableObserver {
  import opened Notifications

  /** A delegate `Func<..., CancellationToken, Task>`: either a callback the
      user wrote with a token parameter, or the lambda `(..., _) => inner(...)`
      that the token-less constructor wraps around a token-less callback. The
      wrapped callback may itself be null: the lambda is built regardless. */
  datatype AsyncCallback = TakesToken(callback: Callback) | IgnoresToken(inner: Option<Callback>)

  /** The adapter's three readonly callback fields. */
  datatype AsyncObserver = AsyncObserver(onNext: AsyncCallback, onCompleted: Option<AsyncCallback>, onError: Option<AsyncCallback>)

  const SyncMethodNotSupportedMessage: string :=
    "Synchronous IObserver methods are not supported by this observer implementation. Use ones provided by IAsyncObserver instead."

  /** The cancellation-aware constructor: a null onNext is rejected with
      `ArgumentNullException`; otherwise the delegates are stored as given. */
  function Create(onNext: Option<AsyncCallback>, onCompleted: Option<AsyncCallback>, onError: Option<AsyncCallback>): (r: Result<AsyncObserver, Exn>)
    ensures r.Failure? <==> onNext.None?
    ensures r.Failure? ==> r.error == ArgumentNull("onNext")
    ensures r.Success? ==>
      r.value.onNext == onNext.value && r.value.onCompleted == onCompleted && r.value.onError == onError
  {
    match onNext
    case None => Failure(ArgumentNull("onNext"))
    case Some(f) => Success(AsyncObserver(f, onCompleted, onError))
  }

  /** Wrap an optional token-less callback in a lambda that drops the token:
      absent stays absent, and a present callback is the one the lambda
      calls. */
  function IgnoringToken(f: Option<Callback>): (r: Option<AsyncCallback>)
    ensures r.None? <==> f.None?
    ensures r.Some? ==> r.value.IgnoresToken? && r.value.inner == f
  {
    match f
    case None => None
    case Some(cb) => Some(IgnoresToken(Some(cb)))
  }

  /** The token-less constructor: every callback is wrapped in a lambda that
      drops the token before the cancellation-aware constructor runs, so even
      a null onNext is accepted; absent onCompleted and onError stay absent. */
  function CreateIgnoringToken(onNext: Option<Callback>, onCompleted: Option<Callback>, onError: Option<Callback>): (r: Result<AsyncObserver, Exn>)
    ensures r.Success?
    ensures r.value.onNext == IgnoresToken(onNext)
    ensures r.value.onCompleted.None? <==> onCompleted.None?
    ensures r.value.onError.None? <==> onError.None?
    ensures onCompleted.Some? ==> r.value.onCompleted == Some(IgnoresToken(onCompleted))
    ensures onError.Some? ==> r.value.onError == Some(IgnoresToken(onError))
  {
    Create(Some(IgnoresToken(onNext)), IgnoringToken(onCompleted), IgnoringToken(onError))
  }

  /** Invoking a delegate with a notification and a token. A wrapped null
      callback fails with `NullReferenceException` when the lambda runs. */
  function Invoke<T>(f: AsyncCallback, n: Notification<T>, token: CancellationToken): (r: Result<Reaction<T>, Exn>)
    ensures f.TakesToken? ==> r == Success(Reaction([Invoked(f.callback, n, Some(token))], CallbackTask(f.callback)))
    ensures f.IgnoresToken? ==> (r.Failure? <==> f.inner.None?)
    ensures f.IgnoresToken? && f.inner.None? ==> r.error == NullReference
    ensures f.IgnoresToken? && f.inner.Some? ==>
      r == Success(Reaction([Invoked(f.inner.value, n, None)], CallbackTask(f.inner.value)))
  {
    match f
    case TakesToken(cb) => Success(Reaction([Invoked(cb, n, Some(token))], CallbackTask(cb)))
    case IgnoresToken(None) => Failure(NullReference)
    case IgnoresToken(Some(cb)) => Success(Reaction([Invoked(cb, n, None)], CallbackTask(cb)))
  }

  /** `OnNextAsync(value, token)`: hands value and token to onNext and returns
      that call's task, so awaiting it waits for the callback. */
  function OnNextAsync<T>(o: AsyncObserver, value: T, token: CancellationToken): (r: Result<Reaction<T>, Exn>)
    ensures r.Success? ==>
      |r.value.effects| == 1 && r.value.effects[0].notification == Next(value)
      && r.value.task == CallbackTask(r.value.effects[0].callback)
    ensures o.onNext.TakesToken? ==>
      r.Success? && r.value.effects[0] == Invoked(o.onNext.callback, Next(value), Some(token))
    ensures o.onNext.IgnoresToken? && o.onNext.inner.Some? ==>
      r.Success? && r.value.effects[0] == Invoked(o.onNext.inner.value, Next(value), None)
    ensures r.Failure? <==> o.onNext == IgnoresToken(None)
    ensures r.Failure? ==> r.error == NullReference
  {
    Invoke(o.onNext, Next(value), token)
  }

  /** `OnCompletedAsync(token)`: the callback's task, or a completed task and no
      effect when onCompleted is absent. */
  function OnCompletedAsync<T>(o: AsyncObserver, token: CancellationToken): (r: Result<Reaction<T>, Exn>)
    ensures o.onCompleted.None? ==> r == Success(Reaction([], CompletedTask))
    ensures r.Success? && o.onCompleted.Some? ==>
      |r.value.effects| == 1 && r.value.effects[0].notification == Completed
      && r.value.task == CallbackTask(r.value.effects[0].callback)
    ensures o.onCompleted.Some? && o.onCompleted.value.TakesToken? ==>
      r.Success? && r.value.effects[0] == Invoked(o.onCompleted.value.callback, Completed, Some(token))
    ensures o.onCompleted.Some? && o.onCompleted.value.IgnoresToken? && o.onCompleted.value.inner.Some? ==>
      r.Success? && r.value.effects[0] == Invoked(o.onCompleted.value.inner.value, Completed, None)
    ensures r.Failure? <==> o.onCompleted == Some(IgnoresToken(None))
    ensures r.Failure? ==> r.error == NullReference
  {
    match o.onCompleted
    case None => Success(Reaction([], CompletedTask))
    case Some(f) => Invoke(f, Completed, token)
  }

  /** `OnErrorAsync(error, token)`: the callback's task, or a completed task and
      no effect when onError is absent. */
  function OnErrorAsync<T>(o: AsyncObserver, error: Exn, token: CancellationToken): (r: Result<Reaction<T>, Exn>)
    ensures o.onError.None? ==> r == Success(Reaction([], CompletedTask))
    ensures r.Success? && o.onError.Some? ==>
      |r.value.effects| == 1 && r.value.effects[0].notification == Error(error)
      && r.value.task == CallbackTask(r.value.effects[0].callback)
    ensures o.onError.Some? && o.onError.value.TakesToken? ==>
      r.Success? && r.value.effects[0] == Invoked(o.onError.value.callback, Error(error), Some(token))
    ensures o.onError.Some? && o.onError.value.IgnoresToken? && o.onError.value.inner.Some? ==>
      r.Success? && r.value.effects[0] == Invoked(o.onError.value.inner.value, Error(error), None)
    ensures r.Failure? <==> o.onError == Some(IgnoresToken(None))
    ensures r.Failure? ==> r.error == NullReference
  {
    match o.onError
    case None => Success(Reaction([], CompletedTask))
    case Some(f) => Invoke(f, Error(error), token)
  }

  /** The synchronous `OnNext`: always throws `NotSupportedException`. */
  function OnNext<T>(o: AsyncObserver, value: T): (r: Outcome<Exn>)
    ensures r == Fail(NotSupported(SyncMethodNotSupportedMessage))
  {
    Fail(NotSupported(SyncMethodNotSupportedMessage))
  }

  /** The synchronous `OnCompleted`: always throws `NotSupportedException`. */
  function OnCompleted(o: AsyncObserver): (r: Outcome<Exn>)
    ensures r == Fail(NotSupported(SyncMethodNotSupportedMessage))
  {
    Fail(NotSupported(SyncMethodNotSupportedMessage))
  }

  /** The synchronous `OnError`: always throws `NotSupportedException`. */
  function OnError(o: AsyncObserver, error: Exn): (r: Outcome<Exn>)
    ensures r == Fail(NotSupported(SyncMethodNotSupportedMessage))
  {
    Fail(NotSupported(SyncMethodNotSupportedMessage))
  }

  /** A cancellation-aware observer passes the value and the token unchanged
      to its onNext and returns exactly the task that call returned; absent
      onCompleted and onError make the matching members no-ops that return a
      completed task. */
  lemma CancellationAwareForwards<T>(onNext: Callback, onCompleted: Option<Callback>, onError: Option<Callback>,
                                     value: T, error: Exn, token: CancellationToken)
    ensures var o := Create(Some(TakesToken(onNext)), TakesTokenIfPresent(onCompleted), TakesTokenIfPresent(onError)).value;
      OnNextAsync(o, value, token) == Success(Reaction([Invoked(onNext, Next(value), Some(token))], CallbackTask(onNext)))
      && OnCompletedAsync<T>(o, token) == Success(InvokeIfPresent<T>(onCompleted, Completed, Some(token)))
      && OnErrorAsync<T>(o, error, token) == Success(InvokeIfPresent<T>(onError, Error(error), Some(token)))
  {
  }

  /** Wrap an optional token-taking user callback. */
  function TakesTokenIfPresent(f: Option<Callback>): (r: Option<AsyncCallback>)
    ensures r.None? <==> f.None?
    ensures r.Some? ==> r.value == TakesToken(f.value)
  {
    match f
    case None => None
    case Some(cb) => Some(TakesToken(cb))
  }

  /** An observer built by the token-less constructor ignores the token it is
      given: every member does the same for any two tokens, and no callback
      ever receives a token. */
  lemma IgnoringTokenIgnoresToken<T>(onNext: Option<Callback>, onCompleted: Option<Callback>, onError: Option<Callback>,
                                     value: T, error: Exn, t1: CancellationToken, t2: CancellationToken)
    ensures var o := CreateIgnoringToken(onNext, onCompleted, onError).value;
      OnNextAsync(o, value, t1) == OnNextAsync(o, value, t2)
      && OnCompletedAsync<T>(o, t1) == OnCompletedAsync<T>(o, t2)
      && OnErrorAsync<T>(o, error, t1) == OnErrorAsync<T>(o, error, t2)
    ensures var o := CreateIgnoringToken(onNext, onCompleted, onError).value;
      PassesNoToken(OnNextAsync(o, value, t1))
      && PassesNoToken(OnCompletedAsync<T>(o, t1))
      && PassesNoToken(OnErrorAsync<T>(o, error, t1))
  {
  }

  /** No callback invoked by a reaction was handed a token. */
  predicate PassesNoToken<T>(r: Result<Reaction<T>, Exn>)
  {
    r.Success? ==> forall k :: 0 <= k < |r.value.effects| ==> r.value.effects[k].token.None?
  }

  /** A null onNext passes the token-less constructor; the failure surfaces as
      `NullReferenceException` on the first `OnNextAsync`. The
      cancellation-aware constructor rejects it at once. */
  lemma NullOnNextFailsLate<T>(onCompleted: Option<Callback>, onError: Option<Callback>, value: T, token: CancellationToken)
    ensures CreateIgnoringToken(None, onCompleted, onError).Success?
    ensures OnNextAsync(CreateIgnoringToken(None, onCompleted, onError).value, value, token) == Failure(NullReference)
    ensures Create(None, TakesTokenIfPresent(onCompleted), TakesTokenIfPresent(onError)) == Failure(ArgumentNull("onNext"))
  {
  }
}
