/** The synchronous `Observer<T>` adapter: a required onNext callback and
    optional onCompleted and onError callbacks, fixed at construction, turned
    into an `IObserver<T>`. Calling a member invokes the matching callback; an
    absent callback makes the member a no-op. */
module ObserverAdapter {
  import opened Notifications

  /** The adapter's three readonly callback fields. */
  datatype Observer = Observer(onNext: Callback, onCompleted: Option<Callback>, onError: Option<Callback>)

  /** The constructor: a null onNext is rejected with `ArgumentNullException`;
      otherwise the callbacks are stored as given. */
  function Create(onNext: Option<Callback>, onCompleted: Option<Callback>, onError: Option<Callback>): (r: Result<Observer, Exn>)
    ensures r.Failure? <==> onNext.None?
    ensures r.Failure? ==> r.error == ArgumentNull("onNext")
    ensures r.Success? ==>
      r.value.onNext == onNext.value && r.value.onCompleted == onCompleted && r.value.onError == onError
  {
    match onNext
    case None => Failure(ArgumentNull("onNext"))
    case Some(f) => Success(Observer(f, onCompleted, onError))
  }

  /** `OnNext(value)` invokes onNext exactly once, with value. */
  function OnNext<T>(o: Observer, value: T): (effects: seq<Event<T>>)
    ensures |effects| == 1
    ensures effects[0].callback == o.onNext && effects[0].notification == Next(value)
    ensures effects[0].token.None?
  {
    [Invoked(o.onNext, Next(value), None)]
  }

  /** `OnCompleted()` invokes onCompleted once if it was supplied, and does
      nothing otherwise. */
  function OnCompleted<T>(o: Observer): (effects: seq<Event<T>>)
    ensures |effects| == if o.onCompleted.Some? then 1 else 0
    ensures o.onCompleted.Some? ==> effects[0] == Invoked(o.onCompleted.value, Completed, None)
  {
    InvokeIfPresent(o.onCompleted, Completed, None).effects
  }

  /** `OnError(error)` invokes onError once with error if it was supplied, and
      does nothing otherwise. */
  function OnError<T>(o: Observer, error: Exn): (effects: seq<Event<T>>)
    ensures |effects| == if o.onError.Some? then 1 else 0
    ensures o.onError.Some? ==> effects[0] == Invoked(o.onError.value, Error(error), None)
  {
    InvokeIfPresent(o.onError, Error(error), None).effects
  }

  /** The member the observable calls for notification n. */
  function Deliver<T>(o: Observer, n: Notification<T>): (effects: seq<Event<T>>)
  {
    match n
    case Next(v) => OnNext(o, v)
    case Completed => OnCompleted(o)
    case Error(e) => OnError(o, e)
  }

  /** The callback an observer holds for a notification of n's kind, if any. */
  function Handler<T>(o: Observer, n: Notification<T>): (cb: Option<Callback>)
  {
    match n
    case Next(_) => Some(o.onNext)
    case Completed => o.onCompleted
    case Error(_) => o.onError
  }

  /** Whatever the notification, an observer built from the given callbacks
      invokes exactly the callback supplied for that kind of notification,
      once and with the notification's payload, and nothing when that
      callback was not supplied. The callbacks never change after
      construction, so this holds for every later call. */
  lemma DeliversToItsOwnHandler<T>(onNext: Option<Callback>, onCompleted: Option<Callback>, onError: Option<Callback>, n: Notification<T>)
    requires Create(onNext, onCompleted, onError).Success?
    ensures var o := Create(onNext, onCompleted, onError).value;
      Deliver(o, n) == match Handler(o, n)
                       case None => []
                       case Some(cb) => [Invoked(cb, n, None)]
    ensures var o := Create(onNext, onCompleted, onError).value;
      Handler(o, n) == match n
                       case Next(_) => onNext
                       case Completed => onCompleted
                       case Error(_) => onError
  {
  }
}
