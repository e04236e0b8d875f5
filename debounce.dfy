/**
 * `debounce(func, wait)`: the returned function cancels the timeout it armed last and arms
 * a new one carrying its own arguments; when a timeout runs it calls `func` with them.
 * The state is the armed call (if any) and the calls that reached `func`, in order.
 */
module Debounce {
  import opened Options

  datatype DebounceState<A> = DebounceState(armed: Option<A>, delivered: seq<A>)

  /** A call of the debounced function: `clearTimeout(timeout); timeout = setTimeout(later, wait)`. */
  function CallStep<A>(s: DebounceState<A>, args: A): DebounceState<A> {
    s.(armed := Some(args))
  }

  /** The armed timeout runs `later`, which calls `func(...args)`; with nothing armed no
      timer exists and nothing happens. */
  function FireStep<A>(s: DebounceState<A>): DebounceState<A> {
    match s.armed
    case None => s
    case Some(args) => DebounceState(None, s.delivered + [args])
  }

  /** What the page can do to a debounced function. */
  datatype Event<A> = Call(args: A) | Fire

  function Step<A>(s: DebounceState<A>, e: Event<A>): DebounceState<A> {
    match e
    case Call(args) => CallStep(s, args)
    case Fire => FireStep(s)
  }

  /** The state after a sequence of events. */
  function Run<A>(s: DebounceState<A>, events: seq<Event<A>>): DebounceState<A>
    decreases |events|
  {
    if events == [] then s else Run(Step(s, events[0]), events[1..])
  }

  /** A burst of calls with no timeout run between them. */
  function Calls<A>(xs: seq<A>): (r: seq<Event<A>>)
    ensures |r| == |xs|
    ensures forall k :: 0 <= k < |xs| ==> r[k] == Call(xs[k])
  {
    if xs == [] then [] else [Call(xs[0])] + Calls(xs[1..])
  }

  /** `n` timeouts in a row. */
  function Fires<A>(n: nat): (r: seq<Event<A>>)
    ensures |r| == n
    ensures forall k :: 0 <= k < n ==> r[k] == Fire
  {
    if n == 0 then [] else [Fire] + Fires(n - 1)
  }

  function FireCount<A>(events: seq<Event<A>>): nat
    decreases |events|
  {
    if events == [] then 0 else (if events[0].Fire? then 1 else 0) + FireCount(events[1..])
  }

  lemma {:induction false} RunAppend<A>(s: DebounceState<A>, e1: seq<Event<A>>, e2: seq<Event<A>>)
    ensures Run(s, e1 + e2) == Run(Run(s, e1), e2)
    decreases |e1|
  {
    if e1 == [] {
      assert e1 + e2 == e2;
    } else {
      assert (e1 + e2)[0] == e1[0];
      assert (e1 + e2)[1..] == e1[1..] + e2;
      RunAppend(Step(s, e1[0]), e1[1..], e2);
    }
  }

  /** A burst of calls delivers nothing and leaves only the last call's arguments armed. */
  lemma {:induction false} BurstArmsLast<A>(s: DebounceState<A>, xs: seq<A>)
    requires xs != []
    ensures Run(s, Calls(xs)) == DebounceState(Some(xs[|xs| - 1]), s.delivered)
    decreases |xs|
  {
    if |xs| > 1 {
      assert Calls(xs)[1..] == Calls(xs[1..]);
      BurstArmsLast(CallStep(s, xs[0]), xs[1..]);
    }
  }

  /** Of a burst of calls followed by the timeout, only the last call reaches `func`, and
      nothing is left armed. */
  lemma BurstDeliversLast<A>(s: DebounceState<A>, xs: seq<A>)
    requires xs != []
    ensures Run(s, Calls(xs) + [Fire]) == DebounceState(None, s.delivered + [xs[|xs| - 1]])
  {
    RunAppend(s, Calls(xs), [Fire]);
    BurstArmsLast(s, xs);
  }

  /** A delivered call is delivered once: further timeouts without a new call do nothing. */
  lemma {:induction false} DeliveredAtMostOnce<A>(s: DebounceState<A>, n: nat)
    ensures Run(FireStep(s), Fires(n)) == FireStep(s)
    decreases n
  {
    if n > 0 {
      DeliveredAtMostOnce(s, n - 1);
    }
  }

  /** Every event sequence delivers at most one call per timeout run, appends to what was
      delivered before, and delivers only arguments that were armed or passed to a call. */
  lemma {:induction false} RunDelivers<A>(s: DebounceState<A>, events: seq<Event<A>>)
    ensures |Run(s, events).delivered| <= |s.delivered| + FireCount(events)
    ensures s.delivered <= Run(s, events).delivered
    ensures forall k :: |s.delivered| <= k < |Run(s, events).delivered| ==>
      s.armed == Some(Run(s, events).delivered[k]) || Call(Run(s, events).delivered[k]) in events
    decreases |events|
  {
    if events != [] {
      var s' := Step(s, events[0]);
      RunDelivers(s', events[1..]);
      var r := Run(s, events);
      assert r == Run(s', events[1..]);
      forall k | |s.delivered| <= k < |r.delivered|
        ensures s.armed == Some(r.delivered[k]) || Call(r.delivered[k]) in events
      {
        if k < |s'.delivered| {
          assert r.delivered[k] == s'.delivered[k];
        } else {
          assert s'.armed == Some(r.delivered[k]) || Call(r.delivered[k]) in events[1..];
        }
      }
    }
  }

  /** The debounced wrapper as an object: the arguments its armed timeout carries, and the
      calls that have reached the wrapped function. */
  class Debouncer<A> {
    var armed: Option<A>
    var delivered: seq<A>

    function State(): DebounceState<A>
      reads this
    {
      DebounceState(armed, delivered)
    }

    constructor ()
      ensures State() == DebounceState(None, [])
    {
      armed := None;
      delivered := [];
    }

    /** `executedFunction(...args)`. */
    method Call(args: A)
      modifies this
      ensures State() == CallStep(old(State()), args)
    {
      armed := Some(args);
    }

    /** The armed timeout runs; `ran` says whether `func` was called. */
    method Fire() returns (ran: bool)
      modifies this
      ensures State() == FireStep(old(State()))
      ensures ran <==> old(armed).Some?
    {
      ran := armed.Some?;
      if ran {
        delivered := delivered + [armed.value];
        armed := None;
      }
    }
  }

  /** Three quick calls and two timeouts: only the third call reaches `func`, once. */
  method BurstScenario<A>(a: A, b: A, c: A) returns (delivered: seq<A>, secondRan: bool)
    ensures delivered == [c]
    ensures !secondRan
  {
    var d := new Debouncer<A>();
    d.Call(a);
    d.Call(b);
    d.Call(c);
    var firstRan := d.Fire();
    secondRan := d.Fire();
    delivered := d.delivered;
  }
}
