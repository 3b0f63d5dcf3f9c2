/** The limit on concurrent forwarded queries: one shared counter, taken and given
    back in separate atomic steps by any number of requests. */
module Admission {
  /** `refused` threads have counted themselves in but not yet out again. */
  datatype State = State(counter: nat, admitted: set<nat>, refused: set<nat>)

  const Initial := State(0, {}, {})

  /** `Enter` is the fetch-and-add with its comparison; the others give the count back. */
  datatype Event = Enter(thread: nat) | GiveUp(thread: nat) | Complete(thread: nat)

  predicate Enabled(s: State, e: Event) {
    match e
    case Enter(t) => t !in s.admitted && t !in s.refused
    case GiveUp(t) => t in s.refused
    case Complete(t) => t in s.admitted
  }

  /** A limit of 0 means no limit, and the counter is not touched. */
  function Step(limit: nat, s: State, e: Event): State
    requires Enabled(s, e)
  {
    match e
    case Enter(t) =>
      if limit == 0 then s.(admitted := s.admitted + {t})
      else if s.counter >= limit then s.(counter := s.counter + 1, refused := s.refused + {t})
      else s.(counter := s.counter + 1, admitted := s.admitted + {t})
    case GiveUp(t) => s.(counter := Less(s.counter), refused := s.refused - {t})
    case Complete(t) => s.(counter := if limit == 0 then s.counter else Less(s.counter), admitted := s.admitted - {t})
  }

  function Less(n: nat): nat { if n == 0 then 0 else n - 1 }

  function After(limit: nat, run: seq<Event>): State {
    if run == [] then Initial
    else
      var s, e := After(limit, run[..|run| - 1]), run[|run| - 1];
      if Enabled(s, e) then Step(limit, s, e) else s
  }

  ghost predicate Inv(limit: nat, s: State) {
    && s.admitted !! s.refused
    && (if limit == 0 then s.counter == 0 && s.refused == {}
        else s.counter == |s.admitted| + |s.refused| && |s.admitted| <= limit)
  }

  lemma {:induction false} InvHolds(limit: nat, run: seq<Event>)
    ensures Inv(limit, After(limit, run))
  {
    if run != [] { InvHolds(limit, run[..|run| - 1]); }
  }

  /** At most `limit` requests are past the gate, in every interleaving, and the
      counter is the number of requests that have counted themselves in. */
  lemma GateHolds(limit: nat, run: seq<Event>)
    requires limit > 0
    ensures var s := After(limit, run); |s.admitted| <= limit && s.counter == |s.admitted| + |s.refused|
  {
    InvHolds(limit, run);
  }

  /** The counter is zero exactly when every request has given its count back. */
  lemma CounterReturnsToZero(limit: nat, run: seq<Event>)
    requires limit > 0
    ensures var s := After(limit, run); s.counter == 0 <==> s.admitted == {} && s.refused == {}
  {
    InvHolds(limit, run);
  }

  /** When a request is let in. Requests on their way out still count. */
  lemma AdmittedIff(limit: nat, run: seq<Event>, t: nat)
    requires Enabled(After(limit, run), Enter(t))
    ensures var s := After(limit, run);
      t in Step(limit, s, Enter(t)).admitted <==> limit == 0 || |s.admitted| + |s.refused| < limit
  {
    InvHolds(limit, run);
  }

  /** So one can be refused although nobody is past the gate: for every limit the
      requests being refused can fill it. */
  lemma {:induction false} RefusedWhileEmpty(limit: nat)
    requires limit > 0
    ensures exists run, t :: var s := After(limit, run);
      s.admitted == {} && Enabled(s, Enter(t)) && t in Step(limit, s, Enter(t)).refused
  {
    var full := Arrivals(2 * limit);
    Arrived(limit, 2 * limit);
    var run := full + Departures(limit);
    Departed(limit, limit);
    var s := After(limit, run);
    assert Enabled(s, Enter(2 * limit));
    assert 2 * limit in Step(limit, s, Enter(2 * limit)).refused;
  }

  function Arrivals(n: nat): (r: seq<Event>)
    ensures |r| == n && forall i :: 0 <= i < n ==> r[i] == Enter(i)
  {
    seq(n, i requires 0 <= i < n => Enter(i))
  }

  function Departures(n: nat): (r: seq<Event>)
    ensures |r| == n && forall i :: 0 <= i < n ==> r[i] == Complete(i)
  {
    seq(n, i requires 0 <= i < n => Complete(i))
  }

  lemma {:induction false} Arrived(limit: nat, n: nat)
    requires limit > 0
    ensures var s := After(limit, Arrivals(n));
      && s.counter == n && (forall t :: t in s.admitted <==> 0 <= t < n && t < limit)
      && (forall t :: t in s.refused <==> limit <= t < n)
  {
    if n > 0 {
      Arrived(limit, n - 1);
      assert Arrivals(n)[..n - 1] == Arrivals(n - 1);
    }
  }

  lemma {:induction false} Departed(limit: nat, n: nat)
    requires 0 < limit && n <= limit
    ensures var s := After(limit, Arrivals(2 * limit) + Departures(n));
      && s.counter == 2 * limit - n && (forall t :: t in s.admitted <==> n <= t < limit)
      && (forall t :: t in s.refused <==> limit <= t < 2 * limit)
  {
    var run := Arrivals(2 * limit) + Departures(n);
    if n == 0 {
      Arrived(limit, 2 * limit);
      assert run == Arrivals(2 * limit);
    } else {
      Departed(limit, n - 1);
      assert run[..|run| - 1] == Arrivals(2 * limit) + Departures(n - 1);
    }
  }
}
