/** The refresh loop of a secondary zone: SOA timers (section 3.3.13 of RFC 1035)
    and serial arithmetic (section 3.2 of RFC 1982). Times are milliseconds. */
module Secondary {
  import opened Names
  import opened Records
  import opened Zones

  const TWO32 := 0x1_0000_0000
  const TWO31 := 0x8000_0000

  /** Is serial `a` older than `b`? */
  predicate SerialLess(a: nat, b: nat) {
    if a < b then b - a <= TWO31 - 1 else a - b > TWO31 - 1
  }

  // ------------------------------------------------------------ one check

  /** A transferred zone: its owner map and apex SOA. */
  datatype Loaded = Loaded(names: Owners, serial: nat, refresh: int, retry: int, expire: int)

  /** Building a zone from transferred records fails without an apex SOA. */
  function Load(origin: Name, records: seq<Record>): Option<Loaded> {
    var names := BuildNames(origin, records);
    var soa := DataAt(names, origin).Set(SOA);
    if soa != [] && soa[0].data.SoaData? then
      var d := soa[0].data;
      Some(Loaded(names, d.serial, d.refresh, d.retry, d.expire))
    else None
  }

  lemma LoadIsBuild(origin: Name, records: seq<Record>, z: Zone)
    requires BuiltFrom(z, origin, records)
    ensures Load(origin, records).Some?
    ensures Load(origin, records).value.names == z.names && Load(origin, records).value.serial == z.serial
  {
  }

  /** A zone loads exactly if its first apex SOA is readable, and takes serial and
      timers from there. */
  lemma LoadedSoa(origin: Name, records: seq<Record>)
    ensures var soas, z := Selected(records, origin, SOA), Load(origin, records);
      && (z.Some? <==> soas != [] && soas[0].data.SoaData?)
      && (z.Some? ==> exists minimum ::
            soas[0].data == SoaData(z.value.serial, z.value.refresh, z.value.retry, z.value.expire, minimum))
  {
    BuildGroups(origin, records, origin, SOA);
    assert Suffix(origin, |origin|) == origin;
  }

  datatype Timers = Timers(refresh: nat, retry: nat, expire: nat)

  function AtLeastOneSecond(seconds: int): nat { if seconds < 1 then 1000 else 1000 * seconds }

  function TimersOf(zone: Option<Loaded>): Timers {
    match zone
    case Some(z) => Timers(AtLeastOneSecond(z.refresh), AtLeastOneSecond(z.retry), AtLeastOneSecond(z.expire))
    case None => Timers(3_600_000, 600_000, 604_800_000)
  }

  /** One pass of the loop as the world makes it: the random number drawn for the
      jitter, when a NOTIFY cuts the wait short if one comes, what each primary
      answers to the SOA question and to the transfer, and how long the check took. */
  datatype Round = Round(
    drawn: nat,
    notified: Option<nat>,
    serials: seq<Option<nat>>,
    transfers: seq<Option<seq<Record>>>,
    took: nat)

  datatype State = State(zone: Option<Loaded>, expired: bool, failing: bool, now: nat, lastGood: nat)

  function FirstAnswer<T>(answers: seq<Option<T>>): Option<T> {
    if answers == [] then None else if answers[0].Some? then answers[0] else FirstAnswer(answers[1..])
  }

  /** Whether a transfer is wanted; no answer when no primary replies. */
  function Wanted(serial: Option<nat>, expired: bool, serials: seq<Option<nat>>): Option<bool> {
    match FirstAnswer(serials)
    case Some(s) => Some(serial.None? || SerialLess(serial.value, s) || expired)
    case None => None
  }

  /** The zone a transfer brings: the first primary that delivers decides. */
  function Fetched(origin: Name, transfers: seq<Option<seq<Record>>>): Option<Loaded> {
    match FirstAnswer(transfers)
    case Some(records) => Load(origin, records)
    case None => None
  }

  function SerialOf(zone: Option<Loaded>): Option<nat> {
    match zone case Some(z) => Some(z.serial) case None => None
  }

  function Jitter(drawn: nat, max: nat): nat { if max == 0 then 0 else drawn % max }

  /** How long the loop waits if nothing interrupts it. */
  function Waiting(timers: Timers, failing: bool, drawn: nat): nat {
    if failing then timers.retry + Jitter(drawn, 2000) else timers.refresh + Jitter(drawn, 5000)
  }

  /** How long it does wait. */
  function Slept(wait: nat, notified: Option<nat>): nat {
    if notified.Some? && notified.value < wait then notified.value else wait
  }

  function SleptIn(s: State, r: Round): nat { Slept(Waiting(TimersOf(s.zone), s.failing, r.drawn), r.notified) }

  function AfterRound(origin: Name, s: State, r: Round): State {
    var now := s.now + SleptIn(s, r) + r.took;
    var wanted := Wanted(SerialOf(s.zone), s.expired, r.serials);
    var fetched := Fetched(origin, r.transfers);
    if wanted == Some(false) then s.(now := now, lastGood := now, failing := false)
    else if wanted == Some(true) && fetched.Some? then
      State(fetched, false, false, now, now)
    else
      s.(now := now, failing := true, expired := s.expired || now - s.lastGood >= TimersOf(s.zone).expire)
  }

  // ------------------------------------------------------ the loop as written

  class SecondaryZone {
    const origin: Name
    var zone: Option<Loaded>
    var expired: bool

    constructor (origin: Name)
      ensures zone == None && !expired && this.origin == origin
    {
      this.origin := origin;
      this.zone := None;
      this.expired := false;
    }

    method TransferIn(transfers: seq<Option<seq<Record>>>) returns (ok: bool)
      modifies this
      ensures ok == Fetched(origin, transfers).Some?
      ensures ok ==> zone == Fetched(origin, transfers) && !expired
      ensures !ok ==> zone == old(zone) && expired == old(expired)
    {
      for i := 0 to |transfers|
        invariant FirstAnswer(transfers) == FirstAnswer(transfers[i..])
        invariant zone == old(zone) && expired == old(expired)
      {
        assert transfers[i..][0] == transfers[i] && transfers[i..][1..] == transfers[i + 1..];
        if transfers[i].Some? {
          var z := Load(origin, transfers[i].value);
          if z.None? {
            return false;
          }
          zone := z;
          expired := false;
          return true;
        }
      }
      ok := false;
    }

    method ShouldTransfer(serials: seq<Option<nat>>) returns (r: Option<bool>)
      ensures r == Wanted(SerialOf(zone), expired, serials)
    {
      for i := 0 to |serials|
        invariant FirstAnswer(serials) == FirstAnswer(serials[i..])
      {
        assert serials[i..][0] == serials[i] && serials[i..][1..] == serials[i + 1..];
        if serials[i].Some? {
          return Some(zone.None? || SerialLess(zone.value.serial, serials[i].value) || expired);
        }
      }
      r := None;
    }

    /** The refresh loop, from a good first transfer at time `start`, over the
        rounds the world plays before shutdown. */
    method Run(start: nat, rounds: seq<Round>) returns (now: nat, lastGood: nat, failing: bool)
      requires zone.Some? && !expired
      modifies this
      ensures State(zone, expired, failing, now, lastGood) ==
        Played(origin, State(old(zone), false, false, start, start), rounds)
    {
      now, lastGood, failing := start, start, false;
      for i := 0 to |rounds|
        invariant State(zone, expired, failing, now, lastGood) ==
          Played(origin, State(old(zone), false, false, start, start), rounds[..i])
      {
        var r := rounds[i];
        assert rounds[..i + 1][..i] == rounds[..i];
        var timers := TimersOf(zone);
        var wait := if failing then timers.retry + Jitter(r.drawn, 2000) else timers.refresh + Jitter(r.drawn, 5000);
        now := now + Slept(wait, r.notified) + r.took;
        var wanted := ShouldTransfer(r.serials);
        var ok := false;
        if wanted == Some(true) {
          ok := TransferIn(r.transfers);
        } else if wanted == Some(false) {
          ok := true;
        }
        if ok {
          failing := false;
          lastGood := now;
        } else {
          failing := true;
          if now - lastGood >= timers.expire {
            expired := true;
          }
        }
      }
      assert rounds[..|rounds|] == rounds;
    }
  }

  // ------------------------------------------------------- whole timed runs

  function Played(origin: Name, s: State, rounds: seq<Round>): State {
    if rounds == [] then s else AfterRound(origin, Played(origin, s, rounds[..|rounds| - 1]), rounds[|rounds| - 1])
  }

  /** What holds between rounds. An expired zone has seen a failed check and no
      good one for `expire`; an unexpired one whose check failed is still within
      it; a good check is the present moment. */
  ghost predicate Sound(s: State) {
    && s.zone.Some? && s.lastGood <= s.now
    && (s.expired ==> s.failing && s.now - s.lastGood >= 1000 * Max(1, s.zone.value.expire))
    && (s.failing && !s.expired ==> s.now - s.lastGood < 1000 * Max(1, s.zone.value.expire))
    && (!s.failing ==> s.lastGood == s.now)
  }

  function Max(a: int, b: int): int { if a < b then b else a }

  lemma RoundKeepsSound(origin: Name, s: State, r: Round)
    requires Sound(s)
    ensures Sound(AfterRound(origin, s, r))
  {
  }

  lemma {:induction false} RunKeepsSound(origin: Name, s: State, rounds: seq<Round>)
    requires Sound(s)
    ensures Sound(Played(origin, s, rounds))
  {
    if rounds != [] {
      RunKeepsSound(origin, s, rounds[..|rounds| - 1]);
      RoundKeepsSound(origin, Played(origin, s, rounds[..|rounds| - 1]), rounds[|rounds| - 1]);
    }
  }

  /** Data is served while the zone is not expired. At every instant of every
      round of every run, the data then being served has been confirmed within
      max(refresh + 5 s, expire + retry + 2 s) of its SOA, plus the check under way. */
  lemma NeverServedTooLong(origin: Name, start: State, rounds: seq<Round>, s: State, r: Round, t: nat)
    requires Sound(start) && s == Played(origin, start, rounds)
    requires !s.expired && s.now <= t <= AfterRound(origin, s, r).now
    ensures s.zone.Some?
    ensures var z := s.zone.value;
      t - s.lastGood < 1000 * Max(Max(1, z.refresh) + 5, Max(1, z.expire) + Max(1, z.retry) + 2) + r.took
  {
    RunKeepsSound(origin, start, rounds);
    assert Sound(s);
    WaitIs(s, r);
  }

  /** The wait: the whole refresh interval of the SOA after a good check, the whole
      retry interval after a failed one, and a random part of five or two seconds,
      unless a NOTIFY comes first. */
  lemma WaitIs(s: State, r: Round)
    requires s.zone.Some?
    ensures var z := s.zone.value;
      var wait := if s.failing then 1000 * Max(1, z.retry) + r.drawn % 2000 else 1000 * Max(1, z.refresh) + r.drawn % 5000;
      SleptIn(s, r) == if r.notified.Some? then Min(r.notified.value, wait) else wait
  {
  }

  function Min(a: int, b: int): int { if b < a then b else a }

  /** Timers from the records: a zone loaded from them waits the intervals of their first
      apex SOA, and a failed check leaves it expired exactly if it was, or at least the
      expire time of that SOA has passed since the last good check. */
  lemma TimersFromRecords(origin: Name, records: seq<Record>, s: State, r: Round)
    requires s.zone.Some? && s.zone == Load(origin, records)
    ensures var soas, next := Selected(records, origin, SOA), AfterRound(origin, s, r);
      && soas != [] && soas[0].data.SoaData?
      && var soa, wait := soas[0].data, next.now - s.now - r.took;
         && (!s.failing ==> wait < 1000 * Max(1, soa.refresh) + 5000)
         && (s.failing ==> wait < 1000 * Max(1, soa.retry) + 2000)
         && (r.notified.None? ==> wait >= 1000 * Max(1, if s.failing then soa.retry else soa.refresh))
         && (next.failing ==> (next.expired <==> s.expired || next.now - s.lastGood >= 1000 * Max(1, soa.expire)))
  {
    LoadedSoa(origin, records);
    WaitIs(s, r);
  }

  /** A check is good exactly if the first primary that answers has nothing newer and
      the zone is not expired, or a transfer comes in and loads. */
  lemma GoodCheckIff(origin: Name, s: State, r: Round)
    requires s.zone.Some?
    ensures var answer, next := FirstAnswer(r.serials), AfterRound(origin, s, r);
      var newer := answer.Some? && (SerialLess(s.zone.value.serial, answer.value) || s.expired);
      && (!next.failing <==> answer.Some? && (newer ==> Fetched(origin, r.transfers).Some?))
      && next.zone == (if newer && Fetched(origin, r.transfers).Some? then Fetched(origin, r.transfers) else s.zone)
      && (next.failing ==> next.lastGood == s.lastGood)
      && (!next.failing ==> next.lastGood == next.now)
  {
  }

  /** The first answer is that of the first primary that gives one. */
  lemma {:induction false} FirstAnswerIs<T>(answers: seq<Option<T>>)
    ensures FirstAnswer(answers).None? <==> forall i :: 0 <= i < |answers| ==> answers[i].None?
    ensures FirstAnswer(answers).Some? ==>
      exists i :: 0 <= i < |answers| && answers[i] == FirstAnswer(answers) && forall j :: 0 <= j < i ==> answers[j].None?
  {
    if answers != [] && answers[0].None? {
      FirstAnswerIs(answers[1..]);
      if FirstAnswer(answers).Some? {
        var i :| 0 <= i < |answers| - 1 && answers[1..][i] == FirstAnswer(answers) && forall j :: 0 <= j < i ==> answers[1..][j].None?;
        assert answers[i + 1] == FirstAnswer(answers);
        assert forall j :: 0 < j < i + 1 ==> answers[j] == answers[1..][j - 1];
      }
    }
  }

  /** A good check always leaves the zone unexpired, and expiry only follows a
      failed one. */
  lemma GoodCheckUnexpires(origin: Name, s: State, r: Round)
    requires Sound(s)
    ensures !AfterRound(origin, s, r).failing ==> !AfterRound(origin, s, r).expired
    ensures AfterRound(origin, s, r).expired && !s.expired ==>
      AfterRound(origin, s, r).failing && AfterRound(origin, s, r).zone == s.zone
  {
    RoundKeepsSound(origin, s, r);
  }

  // -------------------------------------------------------------- versions

  /** Serial order against true order: a primary `ahead` versions on looks newer
      exactly when it is at most 2^31 - 1 ahead, or 2^31 ahead across the wrap. */
  lemma SerialOrder(held: nat, ahead: nat)
    requires ahead < 0x1_0000_0000
    ensures SerialLess(held % 0x1_0000_0000, (held + ahead) % 0x1_0000_0000) <==>
      0 < ahead < 0x8000_0000 || (ahead == 0x8000_0000 && held % 0x1_0000_0000 >= 0x8000_0000)
  {
    var h := held % TWO32;
    var k := held / TWO32;
    assert held + ahead == TWO32 * k + (h + ahead);
    if h + ahead < TWO32 {
      assert (held + ahead) % TWO32 == h + ahead;
    } else {
      assert held + ahead == TWO32 * (k + 1) + (h + ahead - TWO32);
      assert (held + ahead) % TWO32 == h + ahead - TWO32;
    }
  }

  /** The versions of the one primary during a round: when asked for its serial, and
      as transferred; none where the exchange fails. */
  datatype Primary = Primary(asked: Option<nat>, sent: Option<nat>)

  /** The round is one with that primary: it tells, and sends, its version's serial. */
  ghost predicate Speaks(origin: Name, r: Round, p: Primary) {
    && r.serials == [if p.asked.Some? then Some(p.asked.value % TWO32) else None]
    && (p.sent.Some? <==> Fetched(origin, r.transfers).Some?)
    && (p.sent.Some? ==> Fetched(origin, r.transfers).value.serial == p.sent.value % TWO32)
  }

  ghost predicate AllSpeak(origin: Name, rounds: seq<Round>, ps: seq<Primary>) {
    |rounds| == |ps| && forall i :: 0 <= i < |rounds| ==> Speaks(origin, rounds[i], ps[i])
  }

  /** The round replaces the zone. */
  predicate Installs(origin: Name, s: State, r: Round) {
    Wanted(SerialOf(s.zone), s.expired, r.serials) == Some(true) && Fetched(origin, r.transfers).Some?
  }

  /** The version held after a run that started with version `v`. */
  function HeldVersion(origin: Name, s: State, v: nat, rounds: seq<Round>, ps: seq<Primary>): nat
    requires |rounds| == |ps|
  {
    if rounds == [] then v
    else
      var n := |rounds| - 1;
      if Installs(origin, Played(origin, s, rounds[..n]), rounds[n]) && ps[n].sent.Some? then ps[n].sent.value
      else HeldVersion(origin, s, v, rounds[..n], ps[..n])
  }

  /** The zone's serial is that of the held version, after every run. */
  lemma {:induction false} SerialTracksVersion(origin: Name, s: State, v: nat, rounds: seq<Round>, ps: seq<Primary>)
    requires AllSpeak(origin, rounds, ps) && SerialOf(s.zone) == Some(v % TWO32)
    ensures SerialOf(Played(origin, s, rounds).zone) == Some(HeldVersion(origin, s, v, rounds, ps) % TWO32)
  {
    if rounds != [] {
      var n := |rounds| - 1;
      SerialTracksVersion(origin, s, v, rounds[..n], ps[..n]);
      assert Speaks(origin, rounds[n], ps[n]);
    }
  }

  /** The latest version the primary is known to have had. */
  function LatestVersion(v: nat, ps: seq<Primary>): nat {
    if ps == [] then v
    else
      var p := ps[|ps| - 1];
      if p.sent.Some? then p.sent.value else if p.asked.Some? then p.asked.value else LatestVersion(v, ps[..|ps| - 1])
  }

  /** The primary's version only grows, from `v` on. */
  predicate Grows(v: nat, ps: seq<Primary>) {
    ps == [] ||
    (var before, p := ps[..|ps| - 1], ps[|ps| - 1];
     && Grows(v, before)
     && (p.asked.Some? ==> LatestVersion(v, before) <= p.asked.value)
     && (p.sent.Some? ==> LatestVersion(v, before) <= p.sent.value)
     && (p.asked.Some? && p.sent.Some? ==> p.asked.value <= p.sent.value))
  }

  lemma {:induction false} HeldIsKnown(origin: Name, s: State, v: nat, rounds: seq<Round>, ps: seq<Primary>)
    requires |rounds| == |ps| && Grows(v, ps)
    ensures v <= HeldVersion(origin, s, v, rounds, ps) <= LatestVersion(v, ps)
  {
    if rounds != [] {
      var n := |rounds| - 1;
      HeldIsKnown(origin, s, v, rounds[..n], ps[..n]);
    }
  }

  /** Over every run of the refresh loop the held version never decreases, whatever
      the lag. */
  lemma {:induction false} HeldNeverDecreases(origin: Name, s: State, v: nat, rounds: seq<Round>, ps: seq<Primary>, m: nat)
    requires |rounds| == |ps| && Grows(v, ps) && m <= |rounds|
    ensures HeldVersion(origin, s, v, rounds[..m], ps[..m]) <= HeldVersion(origin, s, v, rounds, ps)
  {
    var n := |rounds|;
    if m == n {
      assert rounds[..m] == rounds && ps[..m] == ps;
    } else {
      HeldNeverDecreases(origin, s, v, rounds[..n - 1], ps[..n - 1], m);
      assert rounds[..n - 1][..m] == rounds[..m] && ps[..n - 1][..m] == ps[..m];
      HeldIsKnown(origin, s, v, rounds[..n - 1], ps[..n - 1]);
    }
  }

  /** After any run, with a lag below 2^31, the next check asks for a transfer
      exactly when the primary is ahead or the zone is expired. */
  lemma AsksExactlyWhenBehind(origin: Name, s: State, v: nat, rounds: seq<Round>, ps: seq<Primary>, r: Round, p: Primary)
    requires AllSpeak(origin, rounds, ps) && SerialOf(s.zone) == Some(v % TWO32) && Speaks(origin, r, p)
    requires p.asked.Some? && 0 <= p.asked.value - HeldVersion(origin, s, v, rounds, ps) < TWO31
    ensures var now := Played(origin, s, rounds);
      Wanted(SerialOf(now.zone), now.expired, r.serials) ==
        Some(p.asked.value > HeldVersion(origin, s, v, rounds, ps) || now.expired)
  {
    var held := HeldVersion(origin, s, v, rounds, ps);
    SerialTracksVersion(origin, s, v, rounds, ps);
    SerialOrder(held, p.asked.value - held);
    assert FirstAnswer(r.serials) == Some(p.asked.value % TWO32);
  }

  /** And once it is answered and the transfer arrives, the held version is at least
      what the primary had when asked, and the zone is unexpired. */
  lemma CaughtUp(origin: Name, s: State, v: nat, rounds: seq<Round>, ps: seq<Primary>, r: Round, p: Primary)
    requires AllSpeak(origin, rounds + [r], ps + [p]) && SerialOf(s.zone) == Some(v % TWO32) && |rounds| == |ps|
    requires p.asked.Some? && p.sent.Some? && p.asked.value <= p.sent.value
    requires 0 <= p.asked.value - HeldVersion(origin, s, v, rounds, ps) < TWO31
    ensures HeldVersion(origin, s, v, rounds + [r], ps + [p]) >= p.asked.value
    ensures !Played(origin, s, rounds + [r]).expired
  {
    var all, allP := rounds + [r], ps + [p];
    assert all[..|rounds|] == rounds && allP[..|ps|] == ps && all[|rounds|] == r && allP[|ps|] == p;
    assert forall i :: 0 <= i < |rounds| ==> all[i] == rounds[i] && allP[i] == ps[i];
    assert Speaks(origin, all[|rounds|], allP[|rounds|]);
    AsksExactlyWhenBehind(origin, s, v, rounds, ps, r, p);
  }
}
