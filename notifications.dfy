/** Values shared by the observer adapters and the observable: failure-carrying
    results, the exceptions the library raises, user callbacks, the tasks they
    return, and the trace of callback invocations that stands for their effects. */
module Notifications {

  datatype Option<+T> = None | Some(value: T)

  /** A value, or the exception a .NET member would have thrown instead. */
  datatype Result<+R, +E> = Success(value: R) | Failure(error: E)

  /** The outcome of a `void` member: it returned, or it threw. */
  datatype Outcome<+E> = Pass | Fail(error: E)

  /** The identity of a user-supplied delegate (the lambda given as onNext,
      onCompleted or onError). A null delegate is `None` of `Option<Callback>`. */
  type Callback = nat

  /** The identity of an observer object; stands for .NET reference identity. */
  type ObserverId = nat

  /** A `CancellationToken`; `Default` is `default(CancellationToken)`. */
  datatype CancellationToken = Default | Token(source: nat)

  /** The exceptions of the core, with the argument or object name they carry. */
  datatype Exn =
    | ArgumentNull(paramName: string)
    | InvalidOperation(message: string)
    | ObjectDisposed(objectName: string)
    | NotSupported(message: string)
    | NullReference
    | UserException(id: nat)

  /** The three kinds of push notification an observer can receive. */
  datatype Notification<T> = Next(value: T) | Completed | Error(error: Exn)

  /** One invocation of a user callback, with the notification's payload and,
      for callbacks that take one, the cancellation token passed to it. */
  datatype Event<T> = Invoked(callback: Callback, notification: Notification<T>, token: Option<CancellationToken>)

  /** The `Task` an async member returns: `Task.CompletedTask`, or the task
      returned by the invocation of the named callback. */
  datatype Task = CompletedTask | CallbackTask(callback: Callback)

  /** What calling an async observer member does: the callbacks it invokes, in
      order, and the task it hands back. */
  datatype Reaction<T> = Reaction(effects: seq<Event<T>>, task: Task)

  /** `callback?.Invoke(...) ?? Task.CompletedTask`: invoke the callback when it
      was supplied and return its task; otherwise do nothing and return a
      completed task. */
  function InvokeIfPresent<T>(callback: Option<Callback>, n: Notification<T>, token: Option<CancellationToken>): (r: Reaction<T>)
    ensures callback.None? <==> r.effects == []
    ensures callback.None? ==> r.task == CompletedTask
    ensures callback.Some? ==> r.effects == [Invoked(callback.value, n, token)] && r.task == CallbackTask(callback.value)
  {
    match callback
    case None => Reaction([], CompletedTask)
    case Some(cb) => Reaction([Invoked(cb, n, token)], CallbackTask(cb))
  }
}
