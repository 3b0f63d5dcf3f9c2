/** Single-flight background refresh, as interleaved atomic steps of any number
    of requests. A request registers or clones the key's flag, later swaps it,
    and, if the flag was down, runs a refresh that ends by removing the key. */
module Refresh {
  type Key(==, !new)
  type Flag = nat

  /** What a thread holds: the key it asks for and its clone of the flag. */
  datatype Ticket = Ticket(key: Key, flag: Flag)

  /** `raised` are the flags that have been swapped to true; flags from
      `created` on do not exist yet. */
  datatype State = State(
    inflight: map<Key, Flag>, raised: set<Flag>, created: nat,
    waiting: map<nat, Ticket>, running: map<nat, Ticket>)

  const Initial := State(map[], {}, 0, map[], map[])

  datatype Event =
    | Register(thread: nat, key: Key)
    | Swap(thread: nat)
    | Finish(thread: nat)

  predicate Enabled(s: State, e: Event) {
    match e
    case Register(t, _) => t !in s.waiting && t !in s.running
    case Swap(t) => t in s.waiting
    case Finish(t) => t in s.running
  }

  function Step(s: State, e: Event): State
    requires Enabled(s, e)
  {
    match e
    case Register(t, k) =>
      if k in s.inflight then s.(waiting := s.waiting[t := Ticket(k, s.inflight[k])])
      else s.(inflight := s.inflight[k := s.created], created := s.created + 1,
              waiting := s.waiting[t := Ticket(k, s.created)])
    case Swap(t) =>
      var ticket := s.waiting[t];
      if ticket.flag in s.raised then s.(waiting := s.waiting - {t})
      else s.(raised := s.raised + {ticket.flag}, waiting := s.waiting - {t}, running := s.running[t := ticket])
    case Finish(t) =>
      s.(inflight := s.inflight - {s.running[t].key}, running := s.running - {t})
  }

  /** The state after a sequence of events; one that is not enabled is no step. */
  function After(run: seq<Event>): State {
    if run == [] then Initial
    else
      var s, e := After(run[..|run| - 1]), run[|run| - 1];
      if Enabled(s, e) then Step(s, e) else s
  }

  /** Someone is refreshing `k`. */
  ghost predicate Refreshing(s: State, k: Key) { exists t :: t in s.running && s.running[t].key == k }

  /** The ticket's flag is the one under its key. */
  predicate Registered(s: State, ticket: Ticket) {
    ticket.key in s.inflight && s.inflight[ticket.key] == ticket.flag
  }

  /** Flags exist, and each is registered under one key at most. */
  ghost predicate FlagsInv(s: State) {
    && (forall k :: k in s.inflight ==> s.inflight[k] < s.created)
    && (forall f :: f in s.raised ==> f < s.created)
    && (forall k, k' :: k in s.inflight && k' in s.inflight && s.inflight[k] == s.inflight[k'] ==> k == k')
  }

  /** A registered raised flag was raised by a task that still runs. */
  ghost predicate BackedInv(s: State) {
    forall k :: k in s.inflight && s.inflight[k] in s.raised ==> Refreshing(s, k)
  }

  /** A flag that a request holds is registered or already spent. */
  ghost predicate WaitingInv(s: State) {
    forall t :: t in s.waiting ==>
      s.waiting[t].flag < s.created && (Registered(s, s.waiting[t]) || s.waiting[t].flag in s.raised)
  }

  /** Running tasks have raised, registered flags, each its own. */
  ghost predicate RunningInv(s: State) {
    && (forall t :: t in s.running ==> Registered(s, s.running[t]) && s.running[t].flag in s.raised)
    && (forall t, u :: t in s.running && u in s.running && s.running[t].flag == s.running[u].flag ==> t == u)
  }

  ghost predicate Inv(s: State) { FlagsInv(s) && BackedInv(s) && WaitingInv(s) && RunningInv(s) }

  lemma RegisterKeepsFlags(s: State, t: nat, k: Key)
    requires FlagsInv(s) && RunningInv(s) && Enabled(s, Register(t, k))
    ensures FlagsInv(Step(s, Register(t, k))) && RunningInv(Step(s, Register(t, k)))
  {
  }

  lemma RegisterKeepsWaiting(s: State, t: nat, k: Key)
    requires FlagsInv(s) && WaitingInv(s) && Enabled(s, Register(t, k))
    ensures WaitingInv(Step(s, Register(t, k)))
  {
    var n := Step(s, Register(t, k));
    forall u | u in n.waiting ensures n.waiting[u].flag < n.created && (Registered(n, n.waiting[u]) || n.waiting[u].flag in n.raised) {
      if u != t { assert n.waiting[u] == s.waiting[u]; }
    }
  }

  lemma RegisterKeepsBacked(s: State, t: nat, k: Key)
    requires FlagsInv(s) && BackedInv(s) && Enabled(s, Register(t, k))
    ensures BackedInv(Step(s, Register(t, k)))
  {
    var n := Step(s, Register(t, k));
    forall k' | k' in n.inflight && n.inflight[k'] in n.raised ensures Refreshing(n, k') {
      assert Refreshing(s, k');
    }
  }

  lemma RegisterKeeps(s: State, t: nat, k: Key)
    requires Inv(s) && Enabled(s, Register(t, k))
    ensures Inv(Step(s, Register(t, k)))
  {
    RegisterKeepsFlags(s, t, k);
    RegisterKeepsWaiting(s, t, k);
    RegisterKeepsBacked(s, t, k);
  }

  lemma SwapKeeps(s: State, t: nat)
    requires Inv(s) && t in s.waiting && t !in s.running
    ensures Inv(Step(s, Swap(t)))
  {
    var n, ticket := Step(s, Swap(t)), s.waiting[t];
    if ticket.flag in s.raised {
      forall k | k in n.inflight && n.inflight[k] in n.raised ensures Refreshing(n, k) {
        assert Refreshing(s, k);
      }
    } else {
      SwapStarts(s, t);
    }
  }

  lemma SwapStarts(s: State, t: nat)
    requires Inv(s) && t in s.waiting && t !in s.running && s.waiting[t].flag !in s.raised
    ensures Inv(Step(s, Swap(t)))
  {
    var n, ticket := Step(s, Swap(t)), s.waiting[t];
    assert n.running[t] == ticket && forall u :: u in s.running ==> u in n.running && n.running[u] == s.running[u];
    assert FlagsInv(n) && WaitingInv(n);
    assert RunningInv(n);
    forall k | k in n.inflight && n.inflight[k] in n.raised ensures Refreshing(n, k) {
      if n.inflight[k] in s.raised {
        var u :| u in s.running && s.running[u].key == k;
        assert u in n.running && n.running[u].key == k;
      } else {
        assert n.running[t].key == k;
      }
    }
  }

  /** The task that finishes is the only one with its key. */
  lemma FinishLeaves(s: State, t: nat, u: nat)
    requires FlagsInv(s) && RunningInv(s) && t in s.running && u in Step(s, Finish(t)).running
    ensures u in s.running && u != t && Step(s, Finish(t)).running[u] == s.running[u] && s.running[u].key != s.running[t].key
  {
    assert Registered(s, s.running[t]) && Registered(s, s.running[u]);
  }

  lemma FinishKeepsRunning(s: State, t: nat)
    requires FlagsInv(s) && RunningInv(s) && t in s.running
    ensures FlagsInv(Step(s, Finish(t))) && RunningInv(Step(s, Finish(t)))
  {
    var n := Step(s, Finish(t));
    forall u | u in n.running ensures Registered(n, n.running[u]) && n.running[u].flag in n.raised && n.running[u] == s.running[u] {
      FinishLeaves(s, t, u);
      assert Registered(s, s.running[u]);
    }
  }

  lemma FinishKeepsWaiting(s: State, t: nat)
    requires WaitingInv(s) && RunningInv(s) && t in s.running
    ensures WaitingInv(Step(s, Finish(t)))
  {
    var n := Step(s, Finish(t));
    forall u | u in n.waiting ensures n.waiting[u].flag < n.created && (Registered(n, n.waiting[u]) || n.waiting[u].flag in n.raised) {
      assert Registered(s, s.running[t]) && s.running[t].flag in s.raised;
    }
  }

  lemma FinishKeepsBacked(s: State, t: nat)
    requires FlagsInv(s) && BackedInv(s) && RunningInv(s) && t in s.running
    ensures BackedInv(Step(s, Finish(t)))
  {
    var n := Step(s, Finish(t));
    forall k | k in n.inflight && n.inflight[k] in n.raised ensures Refreshing(n, k) {
      var u :| u in s.running && s.running[u].key == k;
      assert u in n.running && n.running[u].key == k;
    }
  }

  lemma FinishKeeps(s: State, t: nat)
    requires Inv(s) && t in s.running
    ensures Inv(Step(s, Finish(t)))
  {
    FinishKeepsRunning(s, t);
    FinishKeepsWaiting(s, t);
    FinishKeepsBacked(s, t);
  }

  /** A thread is waiting or running, not both. */
  ghost predicate OneRole(s: State) { forall t :: t in s.waiting ==> t !in s.running }

  /** The invariant holds after every interleaving. */
  lemma {:induction false} InvHolds(run: seq<Event>)
    ensures Inv(After(run)) && OneRole(After(run))
  {
    if run != [] {
      var before, e := run[..|run| - 1], run[|run| - 1];
      InvHolds(before);
      StepKeeps(After(before), e);
    }
  }

  lemma StepKeeps(s: State, e: Event)
    requires Inv(s) && OneRole(s)
    ensures var n := if Enabled(s, e) then Step(s, e) else s; Inv(n) && OneRole(n)
  {
    if Enabled(s, e) {
      match e
      case Register(t, k) => RegisterKeeps(s, t, k);
      case Swap(t) => SwapKeeps(s, t);
      case Finish(t) => FinishKeeps(s, t);
    }
  }

  /** At most one refresh runs per key, in every interleaving. */
  lemma SingleFlight(run: seq<Event>, t: nat, u: nat)
    requires var s := After(run); t in s.running && u in s.running && s.running[t].key == s.running[u].key
    ensures t == u
  {
    InvHolds(run);
  }

  /** A finishing task removes the flag it raised itself, and nothing else. */
  lemma FinishRemovesOwnFlag(run: seq<Event>, t: nat)
    requires t in After(run).running
    ensures var s := After(run); var k, n := s.running[t].key, Step(s, Finish(t));
      && Registered(s, s.running[t]) && s.running[t].flag in s.raised
      && k !in n.inflight && !Refreshing(n, k) && n.inflight == s.inflight - {k} && n.running == s.running - {t}
  {
    InvHolds(run);
  }

  /** A waiting request starts a refresh exactly when the flag it cloned is still
      the registered one and nobody is refreshing the key. */
  lemma SwapStartsIff(run: seq<Event>, t: nat)
    requires t in After(run).waiting
    ensures var s := After(run);
      t in Step(s, Swap(t)).running <==> Registered(s, s.waiting[t]) && !Refreshing(s, s.waiting[t].key)
  {
    InvHolds(run);
  }

  /** A request that registers and swaps at once starts a refresh exactly when
      none is running for its key: after one completes, the next can start. */
  lemma LateRequestStartsIff(run: seq<Event>, t: nat, k: Key)
    requires Enabled(After(run), Register(t, k))
    ensures var n := Step(After(run), Register(t, k)); t in Step(n, Swap(t)).running <==> !Refreshing(After(run), k)
  {
    InvHolds(run);
    var s := After(run);
    var n := Step(s, Register(t, k));
    RegisterKeeps(s, t, k);
    assert n.running == s.running && n.waiting[t].key == k && Registered(n, n.waiting[t]);
  }

  /** Once no refresh runs, no key is blocked by a raised flag. */
  lemma QuietIsUnblocked(run: seq<Event>, k: Key)
    requires After(run).running == map[] && k in After(run).inflight
    ensures After(run).inflight[k] !in After(run).raised
  {
    InvHolds(run);
  }
}
