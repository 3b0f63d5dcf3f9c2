/** The forwarder: choosing upstreams for a query whatever their health does
    meanwhile, and the limit on concurrent queries. */
module Forward {
  import opened Names
  import Bits

  datatype Question = Question(name: Name, qtype: nat, qclass: nat)

  /** A message, reduced to what forwarding looks at. */
  datatype Response = Response(id: nat, isResponse: bool, question: Option<Question>, code: nat, body: seq<nat>)

  datatype Request = Request(id: nat, question: Option<Question>)

  /** The reply belongs to the query. */
  predicate Matches(req: Request, m: Response) {
    && m.id == req.id && m.isResponse
    && match (req.question, m.question)
       case (Some(q), Some(r)) => q.qtype == r.qtype && q.qclass == r.qclass && LowerAll(q.name) == LowerAll(r.name)
       case (None, None) => true
       case _ => false
  }

  /** Names are the same up to the case of their letters. */
  predicate SameName(a: Name, b: Name) {
    |a| == |b| && forall i :: 0 <= i < |a| ==> |a[i]| == |b[i]| && forall j :: 0 <= j < |a[i]| ==> LowerChar(a[i][j]) == LowerChar(b[i][j])
  }

  lemma LowerAllIff(a: Name, b: Name)
    ensures LowerAll(a) == LowerAll(b) <==> SameName(a, b)
  {
    if LowerAll(a) == LowerAll(b) {
      forall i | 0 <= i < |a| ensures |a[i]| == |b[i]| && forall j :: 0 <= j < |a[i]| ==> LowerChar(a[i][j]) == LowerChar(b[i][j]) {
        assert LowerAll(a)[i] == LowerAll(b)[i];
        assert forall j :: 0 <= j < |a[i]| ==> Lower(a[i])[j] == Lower(b[i])[j];
      }
    }
    if SameName(a, b) {
      forall i | 0 <= i < |a| ensures Lower(a[i]) == Lower(b[i]) { }
    }
  }

  /** A message is taken for the reply exactly if it is a response, carries the query's
      id, and asks back the same question: name up to case, type and class; or none,
      if the query asked none. */
  lemma MatchesIff(req: Request, m: Response)
    ensures Matches(req, m) <==>
      && m.isResponse && m.id == req.id && (req.question.Some? <==> m.question.Some?)
      && (req.question.Some? && m.question.Some? ==>
            && SameName(req.question.value.name, m.question.value.name)
            && req.question.value.qtype == m.question.value.qtype && req.question.value.qclass == m.question.value.qclass)
  {
    if req.question.Some? && m.question.Some? {
      LowerAllIff(req.question.value.name, m.question.value.name);
    }
  }

  /** The outside world, at each tick: which upstreams look down, what an exchange
      with one brings (nothing on failure or timeout), whether time is up. */
  datatype World = World(down: (nat, nat) -> bool, exchange: (nat, nat) -> Option<Response>, late: nat -> bool)

  ghost predicate AlwaysUp(w: World, p: nat) { forall tick :: !w.down(tick, p) }
  ghost predicate AlwaysDown(w: World, p: nat) { forall tick :: w.down(tick, p) }
  ghost predicate NeverLate(w: World) { forall tick :: !w.late(tick) }

  /** One attempt, made at tick `at`; `more` says that upstreams were left to try
      after it. */
  datatype Try = Try(proxy: nat, at: nat, got: Option<Response>, more: bool)

  datatype Outcome = Failed | Mismatched | PassedOver | Final

  function OutcomeOf(req: Request, failover: set<nat>, t: Try): Outcome {
    if t.got.None? then Failed
    else if !Matches(req, t.got.value) then Mismatched
    else if t.got.value.code in failover && t.more then PassedOver
    else Final
  }

  datatype Result = Reply(m: Response) | NoUpstream | AllFailed

  /** The newest reply that was passed over for a better one. */
  function Fallback(req: Request, failover: set<nat>, log: seq<Try>): (r: Option<Response>)
    ensures r.Some? ==> exists i :: 0 <= i < |log| && log[i].got == r && Matches(req, r.value)
  {
    if log == [] then None
    else
      var t := log[|log| - 1];
      if OutcomeOf(req, failover, t) == PassedOver then t.got else
        var before := log[..|log| - 1];
        var r := Fallback(req, failover, before);
        assert forall i :: 0 <= i < |before| ==> before[i] == log[i];
        r
  }

  /** What a log of attempts comes to. */
  function Verdict(req: Request, failover: set<nat>, log: seq<Try>): Result {
    if log == [] then NoUpstream
    else
      var t := log[|log| - 1];
      if OutcomeOf(req, failover, t) == Final then Reply(t.got.value.(id := req.id))
      else
        match Fallback(req, failover, log)
        case Some(m) => Reply(m.(id := req.id))
        case None => AllFailed
  }

  /** The attempts go up the list. */
  ghost predicate Rising(n: nat, log: seq<Try>) {
    && (forall i :: 0 <= i < |log| ==> log[i].proxy < n)
    && (forall i, j :: 0 <= i < j < |log| ==> log[i].proxy < log[j].proxy)
  }

  ghost predicate TwoPasses(n: nat, log: seq<Try>) {
    exists cut :: 0 <= cut <= |log| && Rising(n, log[..cut]) && Rising(n, log[cut..])
  }

  ghost predicate Tried(log: seq<Try>, p: nat) { exists i :: 0 <= i < |log| && log[i].proxy == p }

  /** Read one after another from tick `clock` on, upstreams `i` to `k` are down. */
  ghost predicate DownFrom(w: World, i: nat, k: nat, clock: nat) {
    forall q :: i <= q < k ==> ReadDown(w, i, clock, q)
  }

  /** Reading on from upstream `i` at tick `clock`, upstream `q` is found down. */
  predicate ReadDown(w: World, i: nat, clock: nat, q: nat)
    requires i <= q
  {
    w.down(clock + (q - i), q)
  }

  lemma DownMore(w: World, i: nat, k: nat, clock: nat)
    requires i <= k && DownFrom(w, i, k, clock)
    ensures DownFrom(w, i, k + 1, clock) <==> w.down(clock + (k - i), k)
  {
    assert ReadDown(w, i, clock, k) <==> w.down(clock + (k - i), k);
  }

  lemma NotAllDown(w: World, i: nat, k: nat, n: nat, clock: nat)
    requires i <= k < n && !DownFrom(w, i, k + 1, clock)
    ensures !DownFrom(w, i, n, clock)
  {
  }

  /** Are all upstreams down, each read in turn until one is up? */
  method AllDown(w: World, n: nat, clock: nat) returns (all: bool, tick: nat)
    ensures all ==> DownFrom(w, 0, n, clock) && tick == clock + n
    ensures !all ==> !DownFrom(w, 0, n, clock)
  {
    tick := clock;
    for p := 0 to n
      invariant tick == clock + p && DownFrom(w, 0, p, clock)
    {
      DownMore(w, 0, p, clock);
      if !w.down(tick, p) {
        NotAllDown(w, 0, p, n, clock);
        return false, tick;
      }
      tick := tick + 1;
    }
    all := true;
  }

  /** What is picked from upstream `i` on, reading from tick `clock` on: the first
      that looks up; or, once, when all are down here and again on a second look,
      the last of the list, starting over; or none. */
  ghost predicate Picked(w: World, n: nat, i: nat, triedDown: bool, clock: nat, p: Option<nat>, i': nat, triedDown': bool, tick: nat) {
    if p.Some? && triedDown' == triedDown then
      && i <= p.value < n && i' == p.value + 1 && tick == clock + (p.value - i) + 1
      && DownFrom(w, i, p.value, clock) && !w.down(tick - 1, p.value)
    else if p.Some? then
      && !triedDown && triedDown' && i < n && p == Some(n - 1) && i' == 0 && tick == clock + (n - i) + n
      && DownFrom(w, i, n, clock) && DownFrom(w, 0, n, tick - n)
    else
      && i' == n && triedDown' == triedDown && DownFrom(w, i, n, clock)
      && (i < n && !triedDown ==> !DownFrom(w, 0, n, clock + (n - i)))
  }

  method PickNext(w: World, n: nat, i: nat, triedDown: bool, clock: nat)
    returns (p: Option<nat>, i': nat, triedDown': bool, tick: nat)
    requires i <= n
    ensures Picked(w, n, i, triedDown, clock, p, i', triedDown', tick)
  {
    i', triedDown', tick := i, triedDown, clock;
    while i' < n
      invariant i <= i' <= n && triedDown' == triedDown && DownFrom(w, i, i', clock)
      invariant i' < n ==> tick == clock + (i' - i)
      invariant i' == n && i < n && !triedDown ==> !DownFrom(w, 0, n, clock + (n - i))
    {
      var candidate := i';
      DownMore(w, i, i', clock);
      i' := i' + 1;
      var down := w.down(tick, candidate);
      tick := tick + 1;
      if !down {
        return Some(candidate), i', triedDown', tick;
      }
      if !triedDown' && i' == n {
        var all;
        all, tick := AllDown(w, n, tick);
        if all {
          return Some(candidate), 0, true, tick;
        }
      }
    }
    p := None;
  }

  // ------------------------------------------------------ the retry loop

  /** The attempt is an exchange with the upstream it names. */
  ghost predicate Exchanged(w: World, t: Try) { t.got == w.exchange(t.at, t.proxy) }

  ghost predicate Genuine(w: World, log: seq<Try>) { forall i :: 0 <= i < |log| ==> Exchanged(w, log[i]) }

  ghost predicate NoneFinal(req: Request, failover: set<nat>, log: seq<Try>) {
    forall i :: 0 <= i < |log| ==> OutcomeOf(req, failover, log[i]) != Final
  }

  /** The tick at which the loop looks at the time before attempt `x`. */
  function ClockAt(log: seq<Try>, x: nat): nat
    requires x <= |log|
  {
    if x == 0 then 0 else log[x - 1].at + 1
  }

  /** The place in the list from which attempt `x` is picked: past the one before,
      or the start again after the attempt at `odd`. */
  function PlaceAt(log: seq<Try>, odd: int, x: nat): nat
    requires x <= |log|
  {
    if x == 0 || x - 1 == odd then 0 else log[x - 1].proxy + 1
  }

  /** Attempt `x` is the one to make: time is left, it is on the upstream picked from
      there on, and upstreams are left after it exactly when the place is not past
      the end of the list. */
  ghost predicate Chooses(w: World, n: nat, log: seq<Try>, odd: int, x: nat)
    requires x < |log|
  {
    var next := PlaceAt(log, odd, x + 1);
    && !w.late(ClockAt(log, x)) && (log[x].more <==> next < n)
    && Picked(w, n, PlaceAt(log, odd, x), 0 <= odd < x, ClockAt(log, x) + 1, Some(log[x].proxy), next, 0 <= odd <= x, log[x].at)
  }

  /** Every attempt is the one to make; `odd` is the one made with all down, if any. */
  ghost predicate Follows(w: World, n: nat, log: seq<Try>, odd: int) {
    -1 <= odd < |log| && forall x :: 0 <= x < |log| ==> Chooses(w, n, log, odd, x)
  }

  ghost predicate TimeUp(w: World, log: seq<Try>) { w.late(ClockAt(log, |log|)) }

  /** No upstream is picked any more. */
  ghost predicate Exhausted(w: World, n: nat, log: seq<Try>, odd: int) {
    Picked(w, n, PlaceAt(log, odd, |log|), odd >= 0, ClockAt(log, |log|) + 1, None, n, odd >= 0, 0)
  }

  /** The log is that of a whole run: every attempt is the one to make, and the last is
      final, or time is up, or no upstream is left to pick. */
  ghost predicate WholeRun(w: World, n: nat, req: Request, failover: set<nat>, log: seq<Try>, odd: int) {
    && Follows(w, n, log, odd)
    && ((log != [] && OutcomeOf(req, failover, log[|log| - 1]) == Final) || TimeUp(w, log) || Exhausted(w, n, log, odd))
  }

  lemma FallbackNext(req: Request, failover: set<nat>, log: seq<Try>, t: Try)
    ensures Fallback(req, failover, log + [t]) ==
      if OutcomeOf(req, failover, t) == PassedOver then t.got else Fallback(req, failover, log)
  {
    assert (log + [t])[..|log|] == log;
  }

  /** The loop's bookkeeping matches its log. */
  ghost predicate Tally(req: Request, failover: set<nat>, log: seq<Try>, lastReply: Option<Response>, fails: nat) {
    && NoneFinal(req, failover, log) && lastReply == Fallback(req, failover, log)
    && (fails == 0 && lastReply.None? <==> log == [])
  }

  lemma TallyNext(req: Request, failover: set<nat>, log: seq<Try>, lastReply: Option<Response>, fails: nat, t: Try)
    requires Tally(req, failover, log, lastReply, fails) && OutcomeOf(req, failover, t) != Final
    ensures if OutcomeOf(req, failover, t) == PassedOver then Tally(req, failover, log + [t], t.got, fails)
      else Tally(req, failover, log + [t], lastReply, fails + 1)
  {
    FallbackNext(req, failover, log, t);
  }

  lemma TallyDone(req: Request, failover: set<nat>, log: seq<Try>, lastReply: Option<Response>, fails: nat)
    requires Tally(req, failover, log, lastReply, fails)
    ensures Verdict(req, failover, log) == Summed(lastReply, req, fails)
  {
  }

  /** Where the loop stands: every attempt so far is the one to make, and `i` is the
      place to go on from. */
  ghost predicate Running(w: World, n: nat, log: seq<Try>, odd: int, i: nat, triedDown: bool) {
    Follows(w, n, log, odd) && Genuine(w, log) && i == PlaceAt(log, odd, |log|) <= n && (odd >= 0 <==> triedDown)
  }

  lemma RunningNext(w: World, n: nat, log: seq<Try>, odd: int, i: nat, triedDown: bool, t: Try, i': nat, triedDown': bool)
    requires Running(w, n, log, odd, i, triedDown) && Exchanged(w, t)
    requires !w.late(ClockAt(log, |log|)) && (t.more <==> i' < n)
    requires Picked(w, n, i, triedDown, ClockAt(log, |log|) + 1, Some(t.proxy), i', triedDown', t.at)
    ensures Running(w, n, log + [t], if triedDown' == triedDown then odd else |log|, i', triedDown')
  {
    var odd' := if triedDown' == triedDown then odd else |log|;
    ChoosesNext(w, n, log, odd', t, i, triedDown, i', triedDown');
    FollowsNext(w, n, log, odd, odd', t);
  }

  lemma ChoosesNext(w: World, n: nat, log: seq<Try>, odd: int, t: Try, i: nat, triedDown: bool, i': nat, triedDown': bool)
    requires i == PlaceAt(log, odd, |log|) && (triedDown <==> 0 <= odd < |log|) && (triedDown' <==> 0 <= odd <= |log|)
    requires !w.late(ClockAt(log, |log|)) && (t.more <==> i' < n)
    requires Picked(w, n, i, triedDown, ClockAt(log, |log|) + 1, Some(t.proxy), i', triedDown', t.at)
    ensures Chooses(w, n, log + [t], odd, |log|) && i' == PlaceAt(log + [t], odd, |log| + 1)
  {
    var next := log + [t];
    assert next[|log|] == t && (log != [] ==> next[|log| - 1] == log[|log| - 1]);
  }

  lemma FollowsNext(w: World, n: nat, log: seq<Try>, odd: int, odd': int, t: Try)
    requires Follows(w, n, log, odd) && (odd' == odd || (odd == -1 && odd' == |log|))
    requires Chooses(w, n, log + [t], odd', |log|)
    ensures Follows(w, n, log + [t], odd')
  {
    var next := log + [t];
    forall x | 0 <= x < |log| ensures Chooses(w, n, next, odd', x) {
      assert Chooses(w, n, log, odd, x) && next[x] == log[x];
      assert x > 0 ==> next[x - 1] == log[x - 1];
    }
  }

  /** What holds of a finished loop: genuine exchanges in a whole run, none final but
      the last, and their verdict. */
  ghost predicate Finished(w: World, n: nat, req: Request, failover: set<nat>, result: Result, log: seq<Try>) {
    && result == Verdict(req, failover, log) && Genuine(w, log)
    && (log != [] ==> NoneFinal(req, failover, log[..|log| - 1]))
    && (exists odd :: WholeRun(w, n, req, failover, log, odd))
  }

  lemma StoppedFinal(w: World, n: nat, req: Request, failover: set<nat>, log: seq<Try>, odd: int, i: nat, triedDown: bool, t: Try)
    requires Running(w, n, log + [t], odd, i, triedDown) && NoneFinal(req, failover, log)
    requires OutcomeOf(req, failover, t) == Final
    ensures Finished(w, n, req, failover, Reply(t.got.value.(id := req.id)), log + [t])
  {
    assert WholeRun(w, n, req, failover, log + [t], odd);
    assert (log + [t])[..|log|] == log;
  }

  lemma Stopped(
    w: World, n: nat, req: Request, failover: set<nat>, log: seq<Try>, odd: int, i: nat, triedDown: bool,
    lastReply: Option<Response>, fails: nat)
    requires Running(w, n, log, odd, i, triedDown) && Tally(req, failover, log, lastReply, fails)
    requires TimeUp(w, log) || Exhausted(w, n, log, odd)
    ensures Finished(w, n, req, failover, Summed(lastReply, req, fails), log)
  {
    TallyDone(req, failover, log, lastReply, fails);
    assert WholeRun(w, n, req, failover, log, odd);
    if log != [] {
      NoneFinalBefore(req, failover, log);
    }
  }

  lemma NoneFinalBefore(req: Request, failover: set<nat>, log: seq<Try>)
    requires NoneFinal(req, failover, log) && log != []
    ensures NoneFinal(req, failover, log[..|log| - 1])
  {
  }

  function Summed(lastReply: Option<Response>, req: Request, fails: nat): Result {
    if lastReply.Some? then Reply(lastReply.value.(id := req.id)) else if fails == 0 then NoUpstream else AllFailed
  }

  /** One attempt, if there is an upstream left to try. */
  method Attempt(w: World, n: nat, i: nat, triedDown: bool, clock: nat, ghost log: seq<Try>, ghost odd: int)
    returns (t: Option<Try>, i': nat, triedDown': bool, ghost odd': int)
    requires Running(w, n, log, odd, i, triedDown) && clock == ClockAt(log, |log|) && !w.late(clock)
    ensures t.None? ==> Exhausted(w, n, log, odd)
    ensures t.Some? ==> Running(w, n, log + [t.value], odd', i', triedDown')
    ensures t.Some? ==> (triedDown ==> triedDown') && (triedDown' == triedDown ==> i < i')
  {
    var p, tick;
    p, i', triedDown', tick := PickNext(w, n, i, triedDown, clock + 1);
    if p.None? {
      return None, i', triedDown', odd;
    }
    t := Some(Try(p.value, tick, w.exchange(tick, p.value), i' < n));
    RunningNext(w, n, log, odd, i, triedDown, t.value, i', triedDown');
    odd' := if triedDown' == triedDown then odd else |log|;
  }

  /** The retry loop over a list of `n` upstreams, with the attempts it makes. */
  method Send(w: World, n: nat, req: Request, failover: set<nat>) returns (result: Result, log: seq<Try>)
    ensures Finished(w, n, req, failover, result, log)
  {
    var i: nat, triedDown, clock: nat := 0, false, 0;
    var lastReply: Option<Response> := None;
    var fails: nat := 0;
    log := [];
    ghost var odd := -1;
    while true
      invariant Running(w, n, log, odd, i, triedDown)
      invariant Tally(req, failover, log, lastReply, fails)
      invariant clock == ClockAt(log, |log|)
      decreases !triedDown, n - i
    {
      if w.late(clock) {
        break;
      }
      var tried, i', triedDown';
      ghost var odd';
      tried, i', triedDown', odd' := Attempt(w, n, i, triedDown, clock, log, odd);
      if tried.None? {
        break;
      }
      var t := tried.value;
      var outcome := OutcomeOf(req, failover, t);
      if outcome == Final {
        StoppedFinal(w, n, req, failover, log, odd', i', triedDown', t);
        return Reply(t.got.value.(id := req.id)), log + [t];
      }
      TallyNext(req, failover, log, lastReply, fails, t);
      if outcome == PassedOver {
        lastReply := t.got;
      } else {
        fails := fails + 1;
      }
      i, triedDown, clock, odd, log := i', triedDown', t.at + 1, odd', log + [t];
    }
    Stopped(w, n, req, failover, log, odd, i, triedDown, lastReply, fails);
    if lastReply.Some? {
      result := Reply(lastReply.value.(id := req.id));
    } else {
      result := if fails == 0 then NoUpstream else AllFailed;
    }
  }

  // ------------------------------------------------- what a whole run comes to

  ghost predicate AllUp(w: World, n: nat) { forall p :: 0 <= p < n ==> AlwaysUp(w, p) }
  ghost predicate AllDownThroughout(w: World, n: nat) { forall p :: 0 <= p < n ==> AlwaysDown(w, p) }

  /** The upstream looked up when it was last read, just before the attempt. */
  ghost predicate LookedUp(w: World, t: Try) { t.at > 0 && !w.down(t.at - 1, t.proxy) }

  /** All upstreams were read down, one after another, just before it. */
  ghost predicate AllLookedDown(w: World, n: nat, t: Try) { t.at >= n && DownFrom(w, 0, n, t.at - n) }

  /** Every attempt is on an upstream that looked up, but for the one at `odd` (none
      if -1): that is on the last, after all looked down. */
  ghost predicate SightedBut(w: World, n: nat, log: seq<Try>, odd: int) {
    && -1 <= odd < |log|
    && (forall x :: 0 <= x < |log| && x != odd ==> LookedUp(w, log[x]))
    && (odd >= 0 ==> log[odd].proxy == n - 1 && AllLookedDown(w, n, log[odd]))
  }

  ghost predicate Sighted(w: World, n: nat, log: seq<Try>) { exists odd :: SightedBut(w, n, log, odd) }

  /** Where the sweep stands: a first pass up to `cut`, the current one below `i`. */
  ghost predicate Sweep(n: nat, log: seq<Try>, cut: nat, i: nat) {
    i <= n && cut <= |log| && Rising(n, log[..cut]) && Rising(i, log[cut..])
  }

  lemma SweepOn(n: nat, log: seq<Try>, cut: nat, i: nat, t: Try)
    requires Sweep(n, log, cut, i) && i <= t.proxy < n
    ensures Sweep(n, log + [t], cut, t.proxy + 1)
  {
    assert (log + [t])[..cut] == log[..cut];
    assert (log + [t])[cut..] == log[cut..] + [t];
  }

  lemma SweepAgain(n: nat, log: seq<Try>, i: nat, t: Try)
    requires Sweep(n, log, 0, i) && i < n && t.proxy == n - 1
    ensures Sweep(n, log + [t], |log| + 1, 0)
  {
    SweepOn(n, log, 0, i, t);
    assert (log + [t])[..|log| + 1] == (log + [t])[0..];
    assert (log + [t])[|log| + 1..] == [];
  }

  lemma SweepDone(n: nat, log: seq<Try>, cut: nat, i: nat)
    requires Sweep(n, log, cut, i)
    ensures TwoPasses(n, log)
  {
    assert Rising(n, log[..cut]) && Rising(n, log[cut..]);
  }

  /** What unchanging health implies for the attempts so far. */
  ghost predicate Health(w: World, n: nat, log: seq<Try>, i: nat, triedDown: bool) {
    && (AllUp(w, n) ==> !triedDown && |log| == i && forall x :: 0 <= x < |log| ==> log[x].proxy == x)
    && (AllDownThroughout(w, n) ==>
          if triedDown then n > 0 && |log| == 1 && log[0].proxy == n - 1 else log == [] && i == 0)
    && (triedDown ==> forall p :: 0 <= p < n ==> !AlwaysUp(w, p))
    && (forall p :: 0 <= p < i && AlwaysUp(w, p) ==> Tried(log, p))
  }

  /** What a pick means for upstreams whose health does not change. */
  ghost predicate Chosen(w: World, n: nat, i: nat, triedDown: bool, p: Option<nat>, i': nat, triedDown': bool) {
    && i' <= n && (triedDown ==> triedDown')
    && (p.None? ==> i' == n && triedDown' == triedDown && forall q :: i <= q < n ==> !AlwaysUp(w, q))
    && (p.Some? && triedDown' == triedDown ==>
          i <= p.value < n && i' == p.value + 1 && forall q :: i <= q < p.value ==> !AlwaysUp(w, q))
    && (p.Some? && triedDown' != triedDown ==>
          i < n && p == Some(n - 1) && i' == 0 && forall q :: 0 <= q < n ==> !AlwaysUp(w, q))
    && (AllUp(w, n) ==> p == (if i < n then Some(i) else None) && triedDown' == triedDown)
    && (AllDownThroughout(w, n) ==>
          p == (if i < n && !triedDown then Some(n - 1) else None) && (i < n ==> triedDown'))
  }

  lemma DownIsNotUp(w: World, i: nat, k: nat, clock: nat)
    requires DownFrom(w, i, k, clock)
    ensures forall q :: i <= q < k ==> !AlwaysUp(w, q)
  {
    forall q | i <= q < k ensures !AlwaysUp(w, q) { assert ReadDown(w, i, clock, q); }
  }

  lemma AllDownIsDown(w: World, n: nat, i: nat, k: nat, clock: nat)
    requires AllDownThroughout(w, n) && k <= n
    ensures DownFrom(w, i, k, clock)
  {
    forall q | i <= q < k ensures ReadDown(w, i, clock, q) { assert AlwaysDown(w, q); }
  }

  lemma PickedIsChosen(w: World, n: nat, i: nat, triedDown: bool, clock: nat, p: Option<nat>, i': nat, triedDown': bool, tick: nat)
    requires i <= n && Picked(w, n, i, triedDown, clock, p, i', triedDown', tick)
    ensures Chosen(w, n, i, triedDown, p, i', triedDown')
  {
    if p.Some? && triedDown' == triedDown {
      DownIsNotUp(w, i, p.value, clock);
      assert i < p.value ==> !AlwaysUp(w, i);
      assert !AlwaysDown(w, p.value);
    } else if p.Some? {
      DownIsNotUp(w, 0, n, tick - n);
      assert !AlwaysUp(w, i);
    } else {
      DownIsNotUp(w, i, n, clock);
      assert i < n ==> !AlwaysUp(w, i);
      if AllDownThroughout(w, n) { AllDownIsDown(w, n, 0, n, clock + (n - i)); }
    }
  }

  lemma HealthNext(w: World, n: nat, log: seq<Try>, i: nat, triedDown: bool, t: Try, i': nat, triedDown': bool)
    requires Health(w, n, log, i, triedDown) && Chosen(w, n, i, triedDown, Some(t.proxy), i', triedDown')
    ensures Health(w, n, log + [t], i', triedDown')
  {
    var next := log + [t];
    assert next[|log|].proxy == t.proxy;
    if triedDown' && n > 0 {
      assert !AlwaysUp(w, 0);
    }
    forall p | 0 <= p < i' && AlwaysUp(w, p) ensures Tried(next, p) {
      if p != t.proxy {
        var x :| 0 <= x < |log| && log[x].proxy == p;
        assert next[x].proxy == p;
      }
    }
  }

  ghost predicate Swept(w: World, n: nat, log: seq<Try>, cut: nat, i: nat, triedDown: bool) {
    Sweep(n, log, cut, i) && (cut > 0 <==> triedDown) && Health(w, n, log, i, triedDown) && Genuine(w, log)
  }

  lemma SweptNext(w: World, n: nat, log: seq<Try>, cut: nat, i: nat, triedDown: bool, t: Try, i': nat, triedDown': bool)
    requires Swept(w, n, log, cut, i, triedDown) && Exchanged(w, t)
    requires Chosen(w, n, i, triedDown, Some(t.proxy), i', triedDown')
    ensures Swept(w, n, log + [t], if triedDown' == triedDown then cut else |log| + 1, i', triedDown')
  {
    HealthNext(w, n, log, i, triedDown, t, i', triedDown');
    if triedDown' == triedDown {
      SweepOn(n, log, cut, i, t);
    } else {
      SweepAgain(n, log, i, t);
    }
  }

  lemma FollowsBefore(w: World, n: nat, log: seq<Try>, odd: int)
    requires log != [] && Follows(w, n, log, odd)
    ensures var last := |log| - 1; Follows(w, n, log[..last], if odd == last then -1 else odd)
  {
    var last := |log| - 1;
    var before, odd' := log[..last], if odd == last then -1 else odd;
    forall x | 0 <= x < last ensures Chooses(w, n, before, odd', x) {
      assert Chooses(w, n, log, odd, x) && before[x] == log[x];
      assert x > 0 ==> before[x - 1] == log[x - 1];
    }
  }

  lemma LastIsPicked(w: World, n: nat, log: seq<Try>, odd: int, before: seq<Try>, odd': int)
    requires log != [] && Follows(w, n, log, odd) && before == log[..|log| - 1]
    requires odd' == if odd == |log| - 1 then -1 else odd
    ensures var t := log[|log| - 1];
      Picked(w, n, PlaceAt(before, odd', |before|), odd' >= 0, ClockAt(before, |before|) + 1, Some(t.proxy),
             PlaceAt(log, odd, |log|), odd >= 0, t.at)
  {
    var last := |log| - 1;
    assert Chooses(w, n, log, odd, last);
    assert last > 0 ==> before[last - 1] == log[last - 1];
  }

  /** The sweep and what health implies, of every run so far. */
  lemma {:induction false} RunIsSwept(w: World, n: nat, log: seq<Try>, odd: int)
    requires Follows(w, n, log, odd) && Genuine(w, log)
    ensures Swept(w, n, log, odd + 1, PlaceAt(log, odd, |log|), odd >= 0)
    decreases |log|
  {
    if log != [] {
      var last := |log| - 1;
      var before, odd', t := log[..last], if odd == last then -1 else odd, log[last];
      FollowsBefore(w, n, log, odd);
      GenuineBefore(w, log);
      RunIsSwept(w, n, before, odd');
      LastIsPicked(w, n, log, odd, before, odd');
      LastIsSwept(w, n, before, odd', t, PlaceAt(log, odd, |log|), odd >= 0);
      assert before + [t] == log;
    }
  }

  lemma GenuineBefore(w: World, log: seq<Try>)
    requires log != [] && Genuine(w, log)
    ensures Genuine(w, log[..|log| - 1]) && Exchanged(w, log[|log| - 1])
  {
  }

  lemma LastIsSwept(w: World, n: nat, before: seq<Try>, odd: int, t: Try, i': nat, triedDown': bool)
    requires -1 <= odd && Swept(w, n, before, odd + 1, PlaceAt(before, odd, |before|), odd >= 0) && Exchanged(w, t)
    requires Picked(w, n, PlaceAt(before, odd, |before|), odd >= 0, ClockAt(before, |before|) + 1, Some(t.proxy), i', triedDown', t.at)
    ensures Swept(w, n, before + [t], if triedDown' == (odd >= 0) then odd + 1 else |before| + 1, i', triedDown')
  {
    PickedIsChosen(w, n, PlaceAt(before, odd, |before|), odd >= 0, ClockAt(before, |before|) + 1, Some(t.proxy), i', triedDown', t.at);
    SweptNext(w, n, before, odd + 1, PlaceAt(before, odd, |before|), odd >= 0, t, i', triedDown');
  }

  lemma FollowsIsSighted(w: World, n: nat, log: seq<Try>, odd: int)
    requires Follows(w, n, log, odd)
    ensures SightedBut(w, n, log, odd)
  {
    forall x | 0 <= x < |log| ensures if x == odd then log[x].proxy == n - 1 && AllLookedDown(w, n, log[x]) else LookedUp(w, log[x]) {
      assert Chooses(w, n, log, odd, x);
    }
  }

  lemma TimeAtFirst(w: World, n: nat, log: seq<Try>, odd: int)
    requires Follows(w, n, log, odd) && log != []
    ensures !w.late(0) && n > 0
  {
    assert Chooses(w, n, log, odd, 0);
  }

  /** What may be said of the attempts whenever the loop ends. */
  ghost predicate Fair(w: World, n: nat, result: Result, log: seq<Try>) {
    && TwoPasses(n, log) && Sighted(w, n, log)
    && (AllUp(w, n) ==> forall x :: 0 <= x < |log| ==> log[x].proxy == x)
    && (AllDownThroughout(w, n) ==> |log| == (if n == 0 || w.late(0) then 0 else 1) && (log != [] ==> log[0].proxy == n - 1))
    && (NeverLate(w) && !result.Reply? ==> forall p :: 0 <= p < n && AlwaysUp(w, p) ==> Tried(log, p))
  }

  /** The attempts go up the list at most twice; each is on an upstream that looked up
      when last read, but for at most one on the last of the list after all looked
      down; with all up they are the list in order, with all down there is one; an
      always-up upstream is left untried only if a reply was found or time ran out. */
  lemma RunsAreFair(w: World, n: nat, req: Request, failover: set<nat>, result: Result, log: seq<Try>)
    requires Finished(w, n, req, failover, result, log)
    ensures Fair(w, n, result, log)
  {
    var odd :| WholeRun(w, n, req, failover, log, odd);
    var i := PlaceAt(log, odd, |log|);
    RunIsSwept(w, n, log, odd);
    SweepDone(n, log, odd + 1, i);
    FollowsIsSighted(w, n, log, odd);
    if log != [] { TimeAtFirst(w, n, log, odd); }
    if Exhausted(w, n, log, odd) {
      PickedIsChosen(w, n, i, odd >= 0, ClockAt(log, |log|) + 1, None, n, odd >= 0, 0);
    }
  }

  // ------------------------------------------------ what follows from a log

  /** With all upstreams down throughout and time left, each of them is tried only
      if there is at most one: the loop does not try each once. */
  lemma EachTriedOnceIff(w: World, n: nat, req: Request, failover: set<nat>, result: Result, log: seq<Try>)
    requires Finished(w, n, req, failover, result, log) && AllDownThroughout(w, n) && !w.late(0)
    ensures (forall p :: 0 <= p < n ==> Tried(log, p)) <==> n <= 1
  {
    RunsAreFair(w, n, req, failover, result, log);
    if n > 0 { LastAloneTried(n, log); }
  }

  lemma LastAloneTried(n: nat, log: seq<Try>)
    requires n > 0 && |log| == 1 && log[0].proxy == n - 1
    ensures (forall p :: 0 <= p < n ==> Tried(log, p)) <==> n == 1
  {
    assert Tried(log, 0) <==> n == 1;
  }

  /** The failing case: two upstreams, both down, and the first is never tried. */
  lemma FirstOfTwoUntried(req: Request, result: Result, log: seq<Try>)
    requires Finished(World((_, _) => true, (_, _) => None, _ => false), 2, req, {}, result, log)
    ensures |log| == 1 && log[0].proxy == 1 && result == AllFailed
  {
    var w := World((_, _) => true, (_, _) => None, _ => false);
    assert AllDownThroughout(w, 2);
    assert !w.late(0);
    RunsAreFair(w, 2, req, {}, result, log);
    assert Exchanged(w, log[0]);
    assert log[..0] == [];
  }

  lemma {:induction false} RisingIsShort(n: nat, log: seq<Try>)
    requires Rising(n, log)
    ensures |log| <= n
  {
    if log != [] {
      var last := log[|log| - 1].proxy;
      RisingIsShort(last, log[..|log| - 1]);
    }
  }

  /** At most twice as many attempts as there are upstreams, and no upstream is
      asked more than twice. */
  lemma AttemptsBounded(w: World, n: nat, req: Request, failover: set<nat>, result: Result, log: seq<Try>)
    requires Finished(w, n, req, failover, result, log)
    ensures |log| <= 2 * n
    ensures !exists x, y, z :: 0 <= x < y < z < |log| && log[x].proxy == log[y].proxy == log[z].proxy
  {
    RunsAreFair(w, n, req, failover, result, log);
    PassesBounded(n, log);
  }

  lemma PassesBounded(n: nat, log: seq<Try>)
    requires TwoPasses(n, log)
    ensures |log| <= 2 * n
    ensures !exists x, y, z :: 0 <= x < y < z < |log| && log[x].proxy == log[y].proxy == log[z].proxy
  {
    var cut :| 0 <= cut <= |log| && Rising(n, log[..cut]) && Rising(n, log[cut..]);
    RisingIsShort(n, log[..cut]);
    RisingIsShort(n, log[cut..]);
    forall x, y, z | 0 <= x < y < z < |log| ensures !(log[x].proxy == log[y].proxy == log[z].proxy) {
      if y < cut {
        assert log[..cut][x].proxy < log[..cut][y].proxy;
      } else {
        assert log[cut..][y - cut].proxy < log[cut..][z - cut].proxy;
      }
    }
  }

  /** Only a reply to this very query is ever returned, unchanged, and it came
      from one of the attempts. */
  lemma RepliesMatch(req: Request, failover: set<nat>, log: seq<Try>)
    requires Verdict(req, failover, log).Reply?
    ensures var m := Verdict(req, failover, log).m;
      Matches(req, m) && exists i :: 0 <= i < |log| && log[i].got == Some(m)
  {
    var t := log[|log| - 1];
    if OutcomeOf(req, failover, t) == Final {
      assert log[|log| - 1].got == Some(Verdict(req, failover, log).m);
    } else {
      var m := Fallback(req, failover, log).value;
      assert m.(id := req.id) == m;
    }
  }

  lemma {:induction false} FallbackIff(req: Request, failover: set<nat>, log: seq<Try>)
    requires NoneFinal(req, failover, log)
    ensures Fallback(req, failover, log).Some? <==> exists i :: 0 <= i < |log| && OutcomeOf(req, failover, log[i]) == PassedOver
  {
    if log != [] {
      var n := |log| - 1;
      FallbackIff(req, failover, log[..n]);
      assert forall i :: 0 <= i < n ==> log[..n][i] == log[i];
      if OutcomeOf(req, failover, log[n]) != PassedOver && Fallback(req, failover, log).Some? {
        var i :| 0 <= i < n && OutcomeOf(req, failover, log[..n][i]) == PassedOver;
        assert OutcomeOf(req, failover, log[i]) == PassedOver;
      }
    }
  }

  predicate Good(req: Request, t: Try) { t.got.Some? && Matches(req, t.got.value) }

  /** No reply is thrown away: a query is answered exactly when some attempt
      brought a reply that matches it. */
  lemma AnsweredIff(req: Request, failover: set<nat>, log: seq<Try>)
    requires log != [] ==> NoneFinal(req, failover, log[..|log| - 1])
    ensures Verdict(req, failover, log).Reply? <==> exists i :: 0 <= i < |log| && Good(req, log[i])
    ensures Verdict(req, failover, log).NoUpstream? <==> log == []
  {
    if log != [] {
      var n := |log| - 1;
      var before := log[..n];
      if OutcomeOf(req, failover, log[n]) == Final {
        assert Good(req, log[n]);
      } else {
        forall i | 0 <= i < |log| ensures OutcomeOf(req, failover, log[i]) != Final {
          if i < n { assert log[i] == before[i]; }
        }
        FallbackIff(req, failover, log);
        if i :| 0 <= i < |log| && OutcomeOf(req, failover, log[i]) == PassedOver {
          assert Good(req, log[i]);
        }
        if i :| 0 <= i < |log| && Good(req, log[i]) {
          assert OutcomeOf(req, failover, log[i]) == PassedOver;
        }
      }
    }
  }

  predicate LatestGood(req: Request, log: seq<Try>, i: nat)
    requires i < |log|
  {
    Good(req, log[i]) && forall j :: i < j < |log| ==> !Good(req, log[j])
  }

  /** The reply returned is the latest that matched. */
  lemma ReplyIsLatest(req: Request, failover: set<nat>, log: seq<Try>)
    requires log != [] && NoneFinal(req, failover, log[..|log| - 1]) && Verdict(req, failover, log).Reply?
    ensures exists i :: 0 <= i < |log| && LatestGood(req, log, i) && log[i].got == Some(Verdict(req, failover, log).m)
  {
    var n := |log| - 1;
    if OutcomeOf(req, failover, log[n]) == Final {
      assert LatestGood(req, log, n);
    } else {
      forall i | 0 <= i < |log| ensures OutcomeOf(req, failover, log[i]) != Final {
        if i < n { assert log[i] == log[..n][i]; }
      }
      var i := FallbackIsNewest(req, failover, log);
      assert LatestGood(req, log, i);
      assert Fallback(req, failover, log).value.(id := req.id) == Fallback(req, failover, log).value;
    }
  }

  lemma {:induction false} FallbackIsNewest(req: Request, failover: set<nat>, log: seq<Try>) returns (i: nat)
    requires NoneFinal(req, failover, log) && Fallback(req, failover, log).Some?
    ensures i < |log| && Good(req, log[i]) && log[i].got == Fallback(req, failover, log)
    ensures forall j :: i < j < |log| ==> !Good(req, log[j])
  {
    var n := |log| - 1;
    if OutcomeOf(req, failover, log[n]) == PassedOver {
      i := n;
    } else {
      var before := log[..n];
      i := FallbackIsNewest(req, failover, before);
      assert forall j :: 0 <= j < n ==> before[j] == log[j];
    }
  }

  lemma {:induction false} FallbackIsFailover(req: Request, failover: set<nat>, log: seq<Try>)
    requires Fallback(req, failover, log).Some?
    ensures Fallback(req, failover, log).value.code in failover
  {
    if OutcomeOf(req, failover, log[|log| - 1]) != PassedOver {
      FallbackIsFailover(req, failover, log[..|log| - 1]);
    }
  }

  /** A reply with a failover code is returned only if no attempt brought a
      matching reply without one. */
  lemma NothingBetter(req: Request, failover: set<nat>, log: seq<Try>)
    requires log != [] && NoneFinal(req, failover, log[..|log| - 1]) && Verdict(req, failover, log).Reply?
    ensures Verdict(req, failover, log).m.code in failover <==>
      forall i :: 0 <= i < |log| && Good(req, log[i]) ==> log[i].got.value.code in failover
  {
    var n := |log| - 1;
    forall i | 0 <= i < n && Good(req, log[i]) ensures log[i].got.value.code in failover {
      assert log[..n][i] == log[i];
      assert OutcomeOf(req, failover, log[..n][i]) != Final;
    }
    if OutcomeOf(req, failover, log[n]) == Final {
      assert Good(req, log[n]);
    } else {
      FallbackIsFailover(req, failover, log);
    }
  }

  // ------------------------------------------------- the world fixes the log

  lemma PickedOnce(
    w: World, n: nat, i: nat, triedDown: bool, clock: nat,
    p: nat, i': nat, triedDown': bool, tick: nat, r: Option<nat>, j': nat, triedDown'': bool, tock: nat)
    requires Picked(w, n, i, triedDown, clock, Some(p), i', triedDown', tick)
    requires Picked(w, n, i, triedDown, clock, r, j', triedDown'', tock)
    ensures r == Some(p) && j' == i' && triedDown'' == triedDown' && tock == tick
  {
    assert triedDown' == triedDown ==> !ReadDown(w, i, clock, p);
    assert r.Some? && triedDown'' == triedDown ==> !ReadDown(w, i, clock, r.value);
  }

  /** Two logs tell the same of the first `x` attempts. */
  ghost predicate Agree(log: seq<Try>, odd: int, other: seq<Try>, odd': int, x: nat) {
    && x <= |log| && x <= |other| && log[..x] == other[..x]
    && PlaceAt(log, odd, x) == PlaceAt(other, odd', x) && (0 <= odd < x <==> 0 <= odd' < x)
  }

  lemma AgreeNext(w: World, n: nat, log: seq<Try>, odd: int, other: seq<Try>, odd': int, x: nat)
    requires Follows(w, n, log, odd) && Follows(w, n, other, odd') && Genuine(w, log) && Genuine(w, other)
    requires x < |log| && x < |other| && Agree(log, odd, other, odd', x)
    ensures Agree(log, odd, other, odd', x + 1)
  {
    assert Chooses(w, n, log, odd, x) && Chooses(w, n, other, odd', x);
    assert ClockAt(log, x) == ClockAt(other, x) by {
      if x > 0 { assert log[x - 1] == log[..x][x - 1] == other[..x][x - 1] == other[x - 1]; }
    }
    PickedOnce(
      w, n, PlaceAt(log, odd, x), 0 <= odd < x, ClockAt(log, x) + 1,
      log[x].proxy, PlaceAt(log, odd, x + 1), 0 <= odd <= x, log[x].at,
      Some(other[x].proxy), PlaceAt(other, odd', x + 1), 0 <= odd' <= x, other[x].at);
    assert Exchanged(w, log[x]) && Exchanged(w, other[x]);
    assert log[x] == other[x];
    assert log[..x + 1] == log[..x] + [log[x]] && other[..x + 1] == other[..x] + [other[x]];
  }

  lemma {:induction false} AgreeUpTo(w: World, n: nat, log: seq<Try>, odd: int, other: seq<Try>, odd': int, x: nat)
    requires Follows(w, n, log, odd) && Follows(w, n, other, odd') && Genuine(w, log) && Genuine(w, other)
    requires x <= |log| && x <= |other|
    ensures Agree(log, odd, other, odd', x)
  {
    if x > 0 {
      AgreeUpTo(w, n, log, odd, other, odd', x - 1);
      AgreeNext(w, n, log, odd, other, odd', x - 1);
    }
  }

  /** A whole run is no part of a longer one. */
  lemma NoLongerRun(w: World, n: nat, req: Request, failover: set<nat>, log: seq<Try>, odd: int, other: seq<Try>, odd': int)
    requires WholeRun(w, n, req, failover, log, odd) && Follows(w, n, other, odd')
    requires Agree(log, odd, other, odd', |log|) && (other != [] ==> NoneFinal(req, failover, other[..|other| - 1]))
    ensures |log| == |other|
  {
    var x := |log|;
    if x < |other| {
      assert Chooses(w, n, other, odd', x);
      if x > 0 {
        assert log[x - 1] == log[..x][x - 1] == other[..x][x - 1] == other[x - 1] == other[..|other| - 1][x - 1];
      }
      assert ClockAt(log, x) == ClockAt(other, x);
      PickedOnce(
        w, n, PlaceAt(other, odd', x), 0 <= odd' < x, ClockAt(other, x) + 1,
        other[x].proxy, PlaceAt(other, odd', x + 1), 0 <= odd' <= x, other[x].at, None, n, odd >= 0, 0);
    }
  }

  /** What holds of a finished loop leaves one result and one log of attempts. */
  lemma RunIsUnique(w: World, n: nat, req: Request, failover: set<nat>, a: Result, log: seq<Try>, b: Result, other: seq<Try>)
    requires Finished(w, n, req, failover, a, log) && Finished(w, n, req, failover, b, other)
    ensures a == b && log == other
  {
    var odd :| WholeRun(w, n, req, failover, log, odd);
    var odd' :| WholeRun(w, n, req, failover, other, odd');
    var x := if |log| < |other| then |log| else |other|;
    AgreeUpTo(w, n, log, odd, other, odd', x);
    if x == |log| {
      NoLongerRun(w, n, req, failover, log, odd, other, odd');
    } else {
      NoLongerRun(w, n, req, failover, other, odd', log, odd);
    }
    assert log == log[..x] && other == other[..x];
  }

  // ---------------------------------------------------------- failing over

  /** The attempt was on the last of the list, with none left after it. */
  predicate AtEnd(n: nat, t: Try) { t.proxy == n - 1 && !t.more }

  /** Upstreams from the place after the last attempt on, or the whole list when that
      attempt was made with all down, are read down one after another. */
  ghost predicate RestDown(w: World, n: nat, log: seq<Try>)
    requires log != []
  {
    var clock := ClockAt(log, |log|) + 1;
    DownFrom(w, log[|log| - 1].proxy + 1, n, clock) || DownFrom(w, 0, n, clock)
  }

  /** A reply with a failover code is returned only at the end of the list, when time
      is up, or when all upstreams still to come were read down. */
  lemma FailoverOnlyAtEnd(w: World, n: nat, req: Request, failover: set<nat>, result: Result, log: seq<Try>)
    requires Finished(w, n, req, failover, result, log) && result.Reply? && result.m.code in failover
    ensures log != [] && (AtEnd(n, log[|log| - 1]) || TimeUp(w, log) || RestDown(w, n, log))
  {
    var odd :| WholeRun(w, n, req, failover, log, odd);
    var last := |log| - 1;
    assert Chooses(w, n, log, odd, last);
    if Exhausted(w, n, log, odd) {
      assert DownFrom(w, PlaceAt(log, odd, |log|), n, ClockAt(log, |log|) + 1);
    }
  }

  /** With every upstream up and time left, it is returned only after all of them
      were tried, in order. */
  lemma FailoverTriesAll(w: World, n: nat, req: Request, failover: set<nat>, result: Result, log: seq<Try>)
    requires Finished(w, n, req, failover, result, log) && result.Reply? && result.m.code in failover
    requires AllUp(w, n) && NeverLate(w)
    ensures |log| == n && forall x :: 0 <= x < n ==> log[x].proxy == x
  {
    FailoverOnlyAtEnd(w, n, req, failover, result, log);
    RunsAreFair(w, n, req, failover, result, log);
    InList(w, n, req, failover, result, log);
    AllUpReachesEnd(w, n, log);
  }

  lemma InList(w: World, n: nat, req: Request, failover: set<nat>, result: Result, log: seq<Try>)
    requires Finished(w, n, req, failover, result, log) && log != []
    ensures log[|log| - 1].proxy < n
  {
    var odd :| WholeRun(w, n, req, failover, log, odd);
    assert Chooses(w, n, log, odd, |log| - 1);
  }

  lemma AllUpReachesEnd(w: World, n: nat, log: seq<Try>)
    requires AllUp(w, n) && NeverLate(w) && log != [] && log[|log| - 1].proxy == |log| - 1 < n
    requires AtEnd(n, log[|log| - 1]) || TimeUp(w, log) || RestDown(w, n, log)
    ensures |log| == n
  {
    var clock := ClockAt(log, |log|) + 1;
    assert AlwaysUp(w, 0) && (|log| < n ==> AlwaysUp(w, |log|));
    if DownFrom(w, 0, n, clock) { DownIsNotUp(w, 0, n, clock); }
    if DownFrom(w, |log|, n, clock) { DownIsNotUp(w, |log|, n, clock); }
  }

  /** An upstream passed over between two attempts looked down between them. */
  lemma SkippedLookedDown(w: World, n: nat, req: Request, failover: set<nat>, result: Result, log: seq<Try>, x: nat, p: nat)
    requires Finished(w, n, req, failover, result, log) && x < |log|
    requires p < log[x].proxy && (x > 0 ==> log[x - 1].proxy < p)
    ensures exists tick :: ClockAt(log, x) < tick < log[x].at && w.down(tick, p)
  {
    var odd :| WholeRun(w, n, req, failover, log, odd);
    assert Chooses(w, n, log, odd, x);
    var i, clock := PlaceAt(log, odd, x), ClockAt(log, x) + 1;
    assert ReadDown(w, i, clock, p);
  }

  // ------------------------------------------------------------- policies

  /** The round-robin list of `n` upstreams for the request that drew `ticket`. */
  method RoundRobin(n: nat, ticket: nat) returns (list: seq<nat>)
    ensures list == Rotated(n, ticket)
  {
    var start := if n == 0 then 0 else ticket % n;
    list := [];
    for i := 0 to n
      invariant |list| == i && forall k :: 0 <= k < i ==> list[k] == (start + k) % n
    {
      list := list + [(start + i) % n];
    }
  }

  function Rotated(n: nat, ticket: nat): (r: seq<nat>)
    ensures |r| == n && forall k :: 0 <= k < n ==> r[k] == (ticket % n + k) % n
  {
    seq(n, k requires 0 <= k < n => (ticket % n + k) % n)
  }

  function Wrap(a: nat, n: nat): nat { if a < n then a else a - n }

  lemma ModIsWrap(a: nat, d: nat, n: nat)
    requires d < n
    ensures (a + d) % n == Wrap(a % n + d, n)
  {
    var q, r := a / n, a % n;
    assert a == q * n + r;
    if r + d < n {
      Bits.DivModUnique(q, n, r + d);
    } else {
      assert (q + 1) * n == q * n + n;
      Bits.DivModUnique(q + 1, n, r + d - n);
    }
  }

  lemma RotatedAt(n: nat, ticket: nat, k: nat)
    requires k < n
    ensures Rotated(n, ticket)[k] == Wrap(ticket % n + k, n)
  {
    var start := ticket % n;
    ModIsWrap(start, k, n);
    Bits.DivModUnique(0, n, start);
  }

  /** The list names every upstream exactly once. */
  lemma RotationIsComplete(n: nat, ticket: nat, p: nat)
    requires p < n
    ensures exists k :: 0 <= k < n && Rotated(n, ticket)[k] == p && forall j :: 0 <= j < n && Rotated(n, ticket)[j] == p ==> j == k
  {
    var start, r := ticket % n, Rotated(n, ticket);
    forall j | 0 <= j < n ensures r[j] == Wrap(start + j, n) {
      RotatedAt(n, ticket, j);
    }
    WrapIsOnto(n, start, p, r);
  }

  lemma WrapIsOnto(n: nat, start: nat, p: nat, r: seq<nat>)
    requires p < n && start < n && |r| == n && forall j :: 0 <= j < n ==> r[j] == Wrap(start + j, n)
    ensures exists k :: 0 <= k < n && r[k] == p && forall j :: 0 <= j < n && r[j] == p ==> j == k
  {
    var k := if start <= p then p - start else p + n - start;
    assert r[k] == p;
  }

  /** The upstreams tried first by `n` requests in a row. */
  function Firsts(n: nat, from: nat): (r: seq<nat>)
    ensures |r| == n
  {
    seq(n, d requires 0 <= d < n => Rotated(n, from + d)[0])
  }

  lemma FirstsAt(n: nat, from: nat, d: nat)
    requires d < n
    ensures Firsts(n, from)[d] == Wrap(from % n + d, n)
  {
    RotatedAt(n, from + d, 0);
    ModIsWrap(from, d, n);
  }

  /** Over any `n` requests in a row each upstream is tried first exactly once. */
  lemma RotationIsFair(n: nat, from: nat, p: nat)
    requires p < n
    ensures var r := Firsts(n, from); exists d :: 0 <= d < n && r[d] == p && forall e :: 0 <= e < n && r[e] == p ==> e == d
  {
    var start, r := from % n, Firsts(n, from);
    forall d | 0 <= d < n ensures r[d] == Wrap(start + d, n) {
      FirstsAt(n, from, d);
    }
    WrapIsOnto(n, start, p, r);
  }
}
