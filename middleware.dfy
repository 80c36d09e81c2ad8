/**
 * withMiddleware(handler, middleware): the route wrapper. The request and context objects
 * that both see are modelled as a state value of type S that the middleware may change and
 * the handler then receives; each call yields a Run, its outcome together with the state after it.
 */
module Middleware {
  import opened Wrappers

  datatype Run<S, T> = Run(outcome: Outcome<T>, state: S)

  /** The wrapper waits for the middleware, ignores what it returned (only a throw stops it), and
      then calls the handler on the same request. */
  function WithMiddleware<S, M, R>(handler: S -> Run<S, R>, middleware: S -> Run<S, M>, s: S): (r: Run<S, R>)
    ensures middleware(s).outcome.Threw? ==> r.outcome == Threw(middleware(s).outcome.error)
    ensures middleware(s).outcome.Returned? ==> r == handler(middleware(s).state)
  {
    var m := middleware(s);
    match m.outcome
    case Threw(e) => Run(Threw(e), m.state)
    case Returned(_) => handler(m.state)
  }

  /** The middleware's return value is discarded: two middlewares that leave the same state
      and both return lead to the same result, whatever each returned. */
  lemma MiddlewareResultIsDiscarded<S, M, R>(handler: S -> Run<S, R>, middleware1: S -> Run<S, M>,
                                             middleware2: S -> Run<S, M>, s: S)
    requires middleware1(s).outcome.Returned? && middleware2(s).outcome.Returned?
    requires middleware1(s).state == middleware2(s).state
    ensures WithMiddleware(handler, middleware1, s) == WithMiddleware(handler, middleware2, s)
  {
  }

  /** A middleware that throws stops the handler: the result is the same for every handler. */
  lemma ThrowingMiddlewareSkipsHandler<S, M, R>(handler1: S -> Run<S, R>, handler2: S -> Run<S, R>,
                                                middleware: S -> Run<S, M>, s: S)
    requires middleware(s).outcome.Threw?
    ensures WithMiddleware(handler1, middleware, s) == WithMiddleware(handler2, middleware, s)
  {
  }

  /** The intended wrapper: a middleware that returns a response (Some) answers the request
      itself, and only a middleware that returns null (None) lets the handler run. */
  function WithMiddlewareGuarded<S, R>(handler: S -> Run<S, R>, middleware: S -> Run<S, Option<R>>, s: S): (r: Run<S, R>)
    ensures middleware(s).outcome.Threw? ==> r.outcome == Threw(middleware(s).outcome.error)
    ensures middleware(s).outcome == Returned(None) ==> r == handler(middleware(s).state)
    ensures middleware(s).outcome.Returned? && middleware(s).outcome.value.Some? ==>
              r == Run(Returned(middleware(s).outcome.value.value), middleware(s).state)
  {
    var m := middleware(s);
    match m.outcome
    case Threw(e) => Run(Threw(e), m.state)
    case Returned(None) => handler(m.state)
    case Returned(Some(response)) => Run(Returned(response), m.state)
  }

  /** Under the intended wrapper a response from the middleware stops the handler. */
  lemma GuardedResponseSkipsHandler<S, R>(handler1: S -> Run<S, R>, handler2: S -> Run<S, R>,
                                          middleware: S -> Run<S, Option<R>>, s: S)
    requires middleware(s).outcome.Returned? && middleware(s).outcome.value.Some?
    ensures WithMiddlewareGuarded(handler1, middleware, s) == WithMiddlewareGuarded(handler2, middleware, s)
  {
  }

  /** The two wrappers differ only when the middleware returns a response. */
  lemma WrappersAgreeOnNull<S, R>(handler: S -> Run<S, R>, middleware: S -> Run<S, Option<R>>, s: S)
    requires middleware(s).outcome == Returned(None) || middleware(s).outcome.Threw?
    ensures WithMiddlewareGuarded(handler, middleware, s) == WithMiddleware(handler, middleware, s)
  {
  }
}
