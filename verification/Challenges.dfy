/**
 A store of challenges indexed by id and by Team, with a ghost log of every admission and what became of it.  The log is
 what the limits, the reissue chains and the single use of each challenge are stated over.
 */
module Challenges {
  import opened Basics

  /** A challenge; `serial` numbers the challenges ever admitted. */
  datatype Challenge = Challenge(id: string, team: string, expires: int, metadata: string, payload: string, serial: nat)

  datatype ChallengeError = Invalid | AlreadyPending | Capacity | NotFound | NotRetained | Unavailable | CommitFailed

  datatype Limits = Limits(capacity: nat, ttl: nat, retainExpired: bool)

  predicate ValidLimits(l: Limits) { 1 <= l.capacity <= 1024 && 30 <= l.ttl <= 900 }

  type Pending = map<string, Challenge>

  /** What became of an admitted challenge. */
  datatype Fate = Live | Claimed | Replaced | Withdrawn | Waiting | Drained | Dropped

  /** An admitted challenge's fate, its expiry, and the one it replaced. */
  datatype Admission = Admission(fate: Fate, expires: int, replaced: Option<nat>)

  // ----- What every store keeps ------------------------------------------------------------------------------------

  /** The index and the challenges are mutually inverse. */
  ghost predicate Inverse(pending: Pending, byTeam: map<string, string>) {
    && (forall id :: id in pending ==>
          pending[id].id == id && pending[id].team in byTeam && byTeam[pending[id].team] == id)
    && (forall t :: t in byTeam ==> byTeam[t] in pending && pending[byTeam[t]].team == t)
  }

  /** A challenge with this number is live. */
  ghost predicate Held(pending: Pending, n: nat) { exists id :: id in pending && pending[id].serial == n }

  /** A challenge with this number waits to be drained. */
  ghost predicate Waits(expired: seq<Challenge>, n: nat) { exists i :: 0 <= i < |expired| && expired[i].serial == n }

  /** The live and the waiting challenges are exactly the admitted ones with that fate, each once. */
  ghost predicate Fated(log: seq<Admission>, pending: Pending, expired: seq<Challenge>) {
    && (forall id :: id in pending ==> Recorded(log, pending[id], Live))
    && (forall i :: 0 <= i < |expired| ==> Recorded(log, expired[i], Waiting))
    && (forall a, b :: a in pending && b in pending && pending[a].serial == pending[b].serial ==> a == b)
    && (forall i, j :: 0 <= i < j < |expired| ==> expired[i].serial != expired[j].serial)
    && (forall n :: 0 <= n < |log| && log[n].fate.Live? ==> Held(pending, n))
    && (forall n :: 0 <= n < |log| && log[n].fate.Waiting? ==> Waits(expired, n))
  }

  ghost predicate Recorded(log: seq<Admission>, c: Challenge, fate: Fate) {
    c.serial < |log| && log[c.serial].fate == fate && log[c.serial].expires == c.expires
  }

  /** A reissued challenge has the expiry of the one it replaced. */
  ghost predicate Chained(log: seq<Admission>) {
    forall n :: 0 <= n < |log| && log[n].replaced.Some? ==>
      log[n].replaced.value < n && log[log[n].replaced.value].fate.Replaced? &&
      log[log[n].replaced.value].expires == log[n].expires
  }

  ghost predicate Kept(pending: Pending, byTeam: map<string, string>, expired: seq<Challenge>, log: seq<Admission>,
                       l: Limits)
  {
    && Inverse(pending, byTeam) && CountLive(log) <= l.capacity
    && Fated(log, pending, expired) && Chained(log)
    && (!l.retainExpired ==> expired == [])
  }

  /** The first challenge of a chain of reissues. */
  ghost function First(log: seq<Admission>, n: nat): (k: nat)
    requires Chained(log) && n < |log|
    ensures k <= n < |log| && log[k].replaced.None?
    decreases n
  {
    if log[n].replaced.None? then n else First(log, log[n].replaced.value)
  }

  /** No chain of reissues outlives the first expiry. */
  lemma {:induction false} ChainExpiry(log: seq<Admission>, n: nat)
    requires Chained(log) && n < |log|
    ensures log[n].expires == log[First(log, n)].expires
    decreases n
  {
    if log[n].replaced.Some? {
      ChainExpiry(log, log[n].replaced.value);
    }
  }

  function Marked(log: seq<Admission>, n: nat, fate: Fate): seq<Admission>
    requires n < |log|
  {
    log[n := log[n].(fate := fate)]
  }

  function Without<V>(m: map<string, V>, key: string): map<string, V> { map k | k in m && k != key :: m[k] }

  // ----- One challenge more or less --------------------------------------------------------------------------------

  lemma InverseWithout(pending: Pending, byTeam: map<string, string>, id: string)
    requires Inverse(pending, byTeam) && id in pending
    ensures Inverse(Without(pending, id), Without(byTeam, pending[id].team))
  {
  }

  lemma InverseWith(pending: Pending, byTeam: map<string, string>, c: Challenge)
    requires Inverse(pending, byTeam) && c.id !in pending && c.team !in byTeam
    ensures Inverse(pending[c.id := c], byTeam[c.team := c.id])
  {
  }

  /** A live challenge ends with another fate than waiting. */
  lemma EndedFated(log: seq<Admission>, pending: Pending, expired: seq<Challenge>, id: string, fate: Fate)
    requires Fated(log, pending, expired) && id in pending && !fate.Live? && !fate.Waiting?
    ensures Fated(Marked(log, pending[id].serial, fate), Without(pending, id), expired)
  {
    var after, rest := Marked(log, pending[id].serial, fate), Without(pending, id);
    forall n | 0 <= n < |after| && after[n].fate.Live? ensures Held(rest, n) {
      assert Held(pending, n);
      var other :| other in pending && pending[other].serial == n;
      assert other in rest && rest[other].serial == n;
    }
  }

  /** A live challenge expires and waits. */
  lemma WaitingFated(log: seq<Admission>, pending: Pending, expired: seq<Challenge>, id: string)
    requires Fated(log, pending, expired) && id in pending
    ensures Fated(Marked(log, pending[id].serial, Waiting), Without(pending, id), expired + [pending[id]])
  {
    var c := pending[id];
    var after, rest, all := Marked(log, c.serial, Waiting), Without(pending, id), expired + [c];
    forall n | 0 <= n < |after| && after[n].fate.Live? ensures Held(rest, n) {
      assert Held(pending, n);
      var other :| other in pending && pending[other].serial == n;
      assert other in rest && rest[other].serial == n;
    }
    forall n | 0 <= n < |after| && after[n].fate.Waiting? ensures Waits(all, n) {
      if n == c.serial {
        assert all[|expired|].serial == n;
      } else {
        assert Waits(expired, n);
        var i :| 0 <= i < |expired| && expired[i].serial == n;
        assert all[i].serial == n;
      }
    }
  }

  lemma AdmittedFated(log: seq<Admission>, pending: Pending, expired: seq<Challenge>, c: Challenge,
                      replaced: Option<nat>)
    requires Fated(log, pending, expired) && c.serial == |log| && c.id !in pending
    ensures Fated(log + [Admission(Live, c.expires, replaced)], pending[c.id := c], expired)
  {
    var after, all := log + [Admission(Live, c.expires, replaced)], pending[c.id := c];
    forall n | 0 <= n < |after| && after[n].fate.Live? ensures Held(all, n) {
      if n < |log| {
        assert Held(pending, n);
        var id :| id in pending && pending[id].serial == n;
        assert all[id].serial == n;
      } else {
        assert all[c.id].serial == n;
      }
    }
    forall n | 0 <= n < |after| && after[n].fate.Waiting? ensures Waits(expired, n) {
      assert n < |log|;
    }
  }

  lemma MarkedChained(log: seq<Admission>, n: nat, fate: Fate)
    requires Chained(log) && n < |log| && (log[n].fate.Replaced? ==> fate.Replaced?)
    ensures Chained(Marked(log, n, fate))
  {
  }

  lemma AdmittedChained(log: seq<Admission>, a: Admission)
    requires Chained(log)
    requires a.replaced.Some? ==>
      a.replaced.value < |log| && log[a.replaced.value].fate.Replaced? && log[a.replaced.value].expires == a.expires
    ensures Chained(log + [a])
  {
  }

  lemma EndedKept(
    pending: Pending, byTeam: map<string, string>, expired: seq<Challenge>, log: seq<Admission>, l: Limits, id: string,
    fate: Fate)
    requires Kept(pending, byTeam, expired, log, l) && id in pending && !fate.Live? && !fate.Waiting?
    ensures Kept(Without(pending, id), Without(byTeam, pending[id].team), expired,
                 Marked(log, pending[id].serial, fate), l)
  {
    InverseWithout(pending, byTeam, id);
    CountMarked(log, pending[id].serial, fate);
    EndedFated(log, pending, expired, id, fate);
    MarkedChained(log, pending[id].serial, fate);
  }

  lemma WaitingKept(
    pending: Pending, byTeam: map<string, string>, expired: seq<Challenge>, log: seq<Admission>, l: Limits, id: string)
    requires Kept(pending, byTeam, expired, log, l) && id in pending && l.retainExpired
    ensures
      Kept(Without(pending, id), Without(byTeam, pending[id].team), expired + [pending[id]],
           Marked(log, pending[id].serial, Waiting), l)
  {
    InverseWithout(pending, byTeam, id);
    CountMarked(log, pending[id].serial, Waiting);
    WaitingFated(log, pending, expired, id);
    MarkedChained(log, pending[id].serial, Waiting);
  }

  lemma AdmittedKept(
    pending: Pending, byTeam: map<string, string>, expired: seq<Challenge>, log: seq<Admission>, l: Limits,
    c: Challenge,
    replaced: Option<nat>)
    requires Kept(pending, byTeam, expired, log, l) && c.serial == |log| && c.id !in pending && c.team !in byTeam
    requires CountLive(log) < l.capacity
    requires replaced.Some? ==>
      replaced.value < |log| && log[replaced.value].fate.Replaced? && log[replaced.value].expires == c.expires
    ensures
      Kept(pending[c.id := c], byTeam[c.team := c.id], expired, log + [Admission(Live, c.expires, replaced)], l)
  {
    InverseWith(pending, byTeam, c);
    AdmittedFated(log, pending, expired, c, replaced);
    AdmittedChained(log, Admission(Live, c.expires, replaced));
  }

  // ----- The live challenges are counted by the log ----------------------------------------------------------------

  ghost function CountLive(log: seq<Admission>): nat {
    if log == [] then 0 else CountLive(log[..|log| - 1]) + if log[|log| - 1].fate.Live? then 1 else 0
  }

  lemma {:induction false} CountMarked(log: seq<Admission>, n: nat, fate: Fate)
    requires n < |log| && log[n].fate.Live? && !fate.Live?
    ensures CountLive(Marked(log, n, fate)) == CountLive(log) - 1
    decreases |log|
  {
    var last := |log| - 1;
    if n < last {
      CountMarked(log[..last], n, fate);
      assert Marked(log, n, fate)[..last] == Marked(log[..last], n, fate);
    } else {
      assert Marked(log, n, fate)[..last] == log[..last];
    }
  }

  ghost function LiveNumbers(log: seq<Admission>): set<nat> { set n: nat | n < |log| && log[n].fate.Live? }

  lemma {:induction false} CountNumbers(log: seq<Admission>)
    ensures |LiveNumbers(log)| == CountLive(log)
    decreases |log|
  {
    if log != [] {
      var last := |log| - 1;
      CountNumbers(log[..last]);
      if log[last].fate.Live? {
        assert LiveNumbers(log) == LiveNumbers(log[..last]) + {last};
      } else {
        assert LiveNumbers(log) == LiveNumbers(log[..last]);
      }
    } else {
      assert LiveNumbers(log) == {};
    }
  }

  lemma {:induction false} NumbersSize(pending: Pending, ids: set<string>, numbers: set<nat>)
    requires ids <= pending.Keys && numbers == set id | id in ids :: pending[id].serial
    requires forall a, b :: a in ids && b in ids && pending[a].serial == pending[b].serial ==> a == b
    ensures |numbers| == |ids|
    decreases |ids|
  {
    if ids == {} {
      assert numbers == {};
    } else {
      var id :| id in ids;
      var fewer := set i | i in ids - {id} :: pending[i].serial;
      NumbersSize(pending, ids - {id}, fewer);
      assert numbers == fewer + {pending[id].serial};
    }
  }

  /** As many challenges are live as the log has with that fate. */
  lemma CountIsSize(log: seq<Admission>, pending: Pending, expired: seq<Challenge>)
    requires Fated(log, pending, expired)
    ensures |pending.Keys| == CountLive(log)
  {
    CountNumbers(log);
    var numbers := set id | id in pending.Keys :: pending[id].serial;
    NumbersSize(pending, pending.Keys, numbers);
    forall n | n in LiveNumbers(log) ensures n in numbers {
      assert Held(pending, n);
    }
    forall n | n in numbers ensures n in LiveNumbers(log) {
      var id :| id in pending.Keys && pending[id].serial == n;
      assert Recorded(log, pending[id], Live);
    }
    assert numbers == LiveNumbers(log);
  }

  /** A sound store is within its capacity, and an admitted challenge is in the store exactly while its fate says so. */
  lemma KeptWithin(pending: Pending, byTeam: map<string, string>, expired: seq<Challenge>, log: seq<Admission>,
                   l: Limits, n: nat)
    requires Kept(pending, byTeam, expired, log, l) && n < |log|
    ensures |pending.Keys| <= l.capacity
    ensures (log[n].fate.Live? <==> Held(pending, n)) && (log[n].fate.Waiting? <==> Waits(expired, n))
  {
    CountIsSize(log, pending, expired);
    if Held(pending, n) {
      var id :| id in pending && pending[id].serial == n;
      assert Recorded(log, pending[id], Live);
    }
    if Waits(expired, n) {
      var i :| 0 <= i < |expired| && expired[i].serial == n;
      assert Recorded(log, expired[i], Waiting);
    }
  }

  /** The admissions after everything overdue ended with this fate. */
  ghost function Outdated(log: seq<Admission>, now: int, fate: Fate): (r: seq<Admission>)
    ensures |r| == |log|
  {
    seq(|log|, n requires 0 <= n < |log| =>
      if log[n].fate.Live? && log[n].expires <= now then log[n].(fate := fate) else log[n])
  }

  /** Ending one overdue challenge is part of ending all of them. */
  lemma OutdatedMarked(log: seq<Admission>, now: int, fate: Fate, n: nat)
    requires n < |log| && log[n].fate.Live? && log[n].expires <= now && !fate.Live?
    ensures Outdated(Marked(log, n, fate), now, fate) == Outdated(log, now, fate)
  {
  }

  /** With nothing overdue left, nothing more ends. */
  lemma NoneOutdated(log: seq<Admission>, pending: Pending, expired: seq<Challenge>, now: int, fate: Fate)
    requires Fated(log, pending, expired) && Overdue(pending, now) == {}
    ensures Outdated(log, now, fate) == log
  {
    forall n | 0 <= n < |log| && log[n].fate.Live? ensures log[n].expires > now {
      assert Held(pending, n);
      var id :| id in pending && pending[id].serial == n;
      assert Recorded(log, pending[id], Live) && id !in Overdue(pending, now);
    }
  }

  /** What expiry changes. */
  datatype Lapsed = Lapsed(pending: Pending, expired: seq<Challenge>, log: seq<Admission>)

  /** Between two overdue challenges: what ended so far ended with this fate, and waits if that is it. */
  ghost predicate Lapsing(before: Lapsed, at: Lapsed, now: int, fate: Fate) {
    && Unexpired(at.pending, now) == Unexpired(before.pending, now)
    && Outdated(at.log, now, fate) == Outdated(before.log, now, fate)
    && before.expired <= at.expired
    && (forall id :: id in at.pending ==> id in before.pending && at.pending[id] == before.pending[id])
    && forall c :: c in at.expired <==>
         c in before.expired ||
         (fate.Waiting? && c.id in Overdue(before.pending, now) && c == before.pending[c.id] && c.id !in at.pending)
  }

  lemma LapsingNext(before: Lapsed, at: Lapsed, now: int, fate: Fate, id: string)
    requires Lapsing(before, at, now, fate) && id in Overdue(at.pending, now) && !fate.Live?
    requires at.pending[id].id == id && Recorded(at.log, at.pending[id], Live)
    ensures
      var c := at.pending[id];
      Lapsing(before, Lapsed(Without(at.pending, id), if fate.Waiting? then at.expired + [c] else at.expired,
                             Marked(at.log, c.serial, fate)), now, fate)
  {
    var c := at.pending[id];
    OverdueWithout(at.pending, now, id);
    OutdatedMarked(at.log, now, fate, c.serial);
    assert forall x :: x in at.expired + [c] <==> x in at.expired || x == c;
  }

  // ----- The store -------------------------------------------------------------------------------------------------

  function Unexpired(pending: Pending, now: int): Pending {
    map id | id in pending && pending[id].expires > now :: pending[id]
  }

  function Overdue(pending: Pending, now: int): set<string> { set id | id in pending && pending[id].expires <= now }

  lemma OverdueWithout(pending: Pending, now: int, id: string)
    requires id in Overdue(pending, now)
    ensures |Overdue(Without(pending, id), now)| == |Overdue(pending, now)| - 1
    ensures Unexpired(Without(pending, id), now) == Unexpired(pending, now)
  {
    assert Overdue(Without(pending, id), now) == Overdue(pending, now) - {id};
  }

  lemma NoneOverdue(pending: Pending, now: int)
    requires Overdue(pending, now) == {}
    ensures Unexpired(pending, now) == pending
  {
    forall id | id in pending ensures pending[id].expires > now {
      assert id !in Overdue(pending, now);
    }
  }

  /** An answer, and the live challenges and admissions it leaves. */
  datatype Answer = Answer(r: Result<Challenge, ChallengeError>, live: Pending, log: seq<Admission>)

  /** A challenge is admitted beside the live ones only while its Team has none and they are fewer than the capacity. */
  ghost function Beside(live: Pending, log: seq<Admission>, l: Limits, c: Challenge): Answer {
    if exists id :: id in live && live[id].team == c.team then Answer(Err(AlreadyPending), live, log)
    else if CountLive(log) >= l.capacity then Answer(Err(Capacity), live, log)
    else Answer(Ok(c), live[c.id := c], log + [Admission(Live, c.expires, None)])
  }

  class ChallengeStore {
    const limits: Limits
    var pending: Pending
    var byTeam: map<string, string>
    var expired: seq<Challenge>
    /** How many challenges were ever admitted: each one's identity. */
    var count: nat
    ghost var log: seq<Admission>

    ghost predicate Valid()
      reads this
    {
      Kept(pending, byTeam, expired, log, limits) && count == |log|
    }

    constructor (limits: Limits)
      requires ValidLimits(limits)
      ensures Valid() && pending == map[] && expired == [] && log == [] && this.limits == limits
    {
      this.limits := limits;
      pending, byTeam, expired, count, log := map[], map[], [], 0, [];
    }

    /** Takes a live challenge out of the store and its index. */
    method Remove(id: string, ghost fate: Fate) returns (c: Challenge)
      requires Valid() && id in pending && !fate.Live? && !fate.Waiting?
      modifies this`pending, this`byTeam, this`log
      ensures Valid() && c == old(pending)[id] && pending == Without(old(pending), id)
      ensures c.serial < |old(log)| && log == Marked(old(log), c.serial, fate)
    {
      c := pending[id];
      EndedKept(pending, byTeam, expired, log, limits, id, fate);
      Unindex(c);
      pending := Without(pending, id);
      log := Marked(log, c.serial, fate);
    }

    /** The index lets go of a live challenge, if it still names it. */
    method Unindex(c: Challenge)
      requires Inverse(pending, byTeam) && c.id in pending && pending[c.id] == c
      modifies this`byTeam
      ensures byTeam == Without(old(byTeam), c.team)
    {
      if c.team in byTeam && byTeam[c.team] == c.id {
        byTeam := Without(byTeam, c.team);
      }
    }

    /** One overdue challenge goes: it waits where the store retains it, and is dropped otherwise. */
    method ExpireOne(id: string)
      requires Valid() && id in pending
      modifies this`pending, this`byTeam, this`expired, this`log
      ensures Valid() && pending == Without(old(pending), id)
      ensures
        var c := old(pending)[id];
        && c.serial < |old(log)|
        && log == Marked(old(log), c.serial, if limits.retainExpired then Waiting else Dropped)
        && expired == if limits.retainExpired then old(expired) + [c] else old(expired)
    {
      if !limits.retainExpired {
        var _ := Remove(id, Dropped);
        return;
      }
      var c := pending[id];
      WaitingKept(pending, byTeam, expired, log, limits, id);
      Unindex(c);
      pending := Without(pending, id);
      expired := expired + [c];
      log := Marked(log, c.serial, Waiting);
    }

    /** What becomes of an overdue challenge. */
    function Lapse(): (f: Fate)
      ensures !f.Live?
    {
      if limits.retainExpired then Waiting else Dropped
    }

    /** The lock: everything overdue goes first, to wait where the store retains it. */
    method Expire(now: int)
      requires Valid()
      modifies this`pending, this`byTeam, this`expired, this`log
      ensures Valid() && pending == Unexpired(old(pending), now) && log == Outdated(old(log), now, Lapse())
      ensures old(expired) <= expired
      ensures forall c :: c in expired <==>
        c in old(expired) || (limits.retainExpired && c.id in Overdue(old(pending), now) && c == old(pending)[c.id])
    {
      ghost var before := Lapsed(pending, expired, log);
      while Overdue(pending, now) != {}
        invariant Valid() && Lapsing(before, Lapsed(pending, expired, log), now, Lapse())
        decreases |Overdue(pending, now)|
      {
        var id :| id in Overdue(pending, now);
        OverdueWithout(pending, now, id);
        assert Recorded(log, pending[id], Live) && pending[id].id == id;
        LapsingNext(before, Lapsed(pending, expired, log), now, Lapse(), id);
        ExpireOne(id);
      }
      NoneOverdue(pending, now);
      NoneOutdated(log, pending, expired, now, Lapse());
    }

    method Insert(id: string, team: string, expires: int, metadata: string, payload: string,
                  ghost replaced: Option<nat>)
      returns (c: Challenge)
      requires Valid() && id !in pending && team !in byTeam && CountLive(log) < limits.capacity
      requires replaced.Some? ==>
        replaced.value < |log| && log[replaced.value].fate.Replaced? && log[replaced.value].expires == expires
      modifies this`pending, this`byTeam, this`count, this`log
      ensures Valid() && c == Challenge(id, team, expires, metadata, payload, |old(log)|)
      ensures pending == old(pending)[id := c] && log == old(log) + [Admission(Live, expires, replaced)]
    {
      c := Challenge(id, team, expires, metadata, payload, count);
      AdmittedKept(pending, byTeam, expired, log, limits, c, replaced);
      pending, byTeam, count := pending[id := c], byTeam[team := id], count + 1;
      log := log + [Admission(Live, expires, replaced)];
    }

    /** Why a Team's challenge cannot be admitted now, if anything. */
    function Room(team: string): Option<ChallengeError>
      reads this
    {
      if team in byTeam then Some(AlreadyPending)
      else if |pending.Keys| >= limits.capacity then Some(Capacity)
      else None
    }

    /** Admits a challenge under a free id while the Team has none and the store has room. */
    method Admit(team: string, id: string, expires: int, metadata: string, payload: string)
      returns (r: Result<Challenge, ChallengeError>)
      requires Valid() && id !in pending
      modifies this`pending, this`byTeam, this`count, this`log
      ensures Valid()
      ensures Answer(r, pending, log)
           == Beside(old(pending), old(log), limits, Challenge(id, team, expires, metadata, payload, |old(log)|))
    {
      CountIsSize(log, pending, expired);
      var full := Room(team);
      if full.Some? {
        assert team in byTeam ==> pending[byTeam[team]].team == team;
        return Err(full.value);
      }
      var c := Insert(id, team, expires, metadata, payload, None);
      return Ok(c);
    }

    /** Expiry, then `Beside` for a challenge that lives the whole time to live. */
    method Create(team: string, id: string, metadata: string, payload: string, now: int, later: int)
      returns (r: Result<Challenge, ChallengeError>)
      requires Valid() && now <= later && id !in Unexpired(pending, now)
      modifies this
      ensures Valid()
      ensures Answer(r, pending, log)
           == Beside(Unexpired(old(pending), now), Outdated(old(log), now, Lapse()), limits,
                     Challenge(id, team, later + limits.ttl, metadata, payload, |old(log)|))
    {
      Expire(now);
      r := Admit(team, id, later + limits.ttl, metadata, payload);
    }

    /** Expiry, then `Beside` for a challenge that lives only what remained of it. */
    method Restore(team: string, id: string, remaining: int, metadata: string, payload: string, now: int, later: int)
      returns (r: Result<Challenge, ChallengeError>)
      requires Valid() && now <= later
      modifies this
      ensures Valid()
      ensures !(1 <= remaining <= limits.ttl) ==> r == Err(Invalid) && pending == old(pending) && log == old(log)
      ensures 1 <= remaining <= limits.ttl ==>
        var live, lapsed := Unexpired(old(pending), now), Outdated(old(log), now, Lapse());
        Answer(r, pending, log)
        == if id in live then Answer(Err(AlreadyPending), live, lapsed)
           else Beside(live, lapsed, limits, Challenge(id, team, later + remaining, metadata, payload, |old(log)|))
    {
      if !(1 <= remaining <= limits.ttl) {
        return Err(Invalid);
      }
      Expire(now);
      if id in pending {
        return Err(AlreadyPending);
      }
      r := Admit(team, id, later + remaining, metadata, payload);
    }

    /** Looks a challenge up by id and checks its Team. */
    function Available(team: string, id: string): Option<Challenge>
      reads this
    {
      if id in pending && pending[id].team == team then Some(pending[id]) else None
    }

    /** One challenge's admission ends as replaced and a new one begins that names it, with the same expiry. */
    method Reissue(team: string, id: string, newId: string, metadata: string, now: int)
      returns (r: Result<Challenge, ChallengeError>)
      requires Valid() && newId !in Unexpired(pending, now)
      modifies this
      ensures Valid()
      ensures
        var live := Unexpired(old(pending), now);
        && (r.Ok? <==> id in live && live[id].team == team)
        && (r.Ok? ==>
              && r.value == Challenge(newId, team, live[id].expires, metadata, live[id].payload, |old(log)|)
              && pending == Without(live, id)[newId := r.value]
              && live[id].serial < |old(log)|
              && log == Marked(Outdated(old(log), now, Lapse()), live[id].serial, Replaced)
                        + [Admission(Live, live[id].expires, Some(live[id].serial))])
        && (r.Err? ==> r == Err(NotFound) && pending == live && log == Outdated(old(log), now, Lapse()))
    {
      Expire(now);
      var previous := Available(team, id);
      if previous.None? {
        return Err(NotFound);
      }
      var c := previous.value;
      ReissueRoom(log, c.serial);
      var _ := Remove(id, Replaced);
      var next := Insert(newId, team, c.expires, metadata, c.payload, Some(c.serial));
      return Ok(next);
    }

    static lemma ReissueRoom(log: seq<Admission>, n: nat)
      requires n < |log| && log[n].fate.Live?
      ensures CountLive(Marked(log, n, Replaced)) < CountLive(log)
    {
      CountMarked(log, n, Replaced);
    }

    /** `commits` is the outcome of the caller's commit: the challenge is claimed when it is true, and untouched
        otherwise. */
    method ClaimAfter(team: string, id: string, now: int, commits: bool) returns (r: Result<Challenge, ChallengeError>)
      requires Valid()
      modifies this
      ensures Valid()
      ensures
        var live := Unexpired(old(pending), now);
        var found := id in live && live[id].team == team;
        && r == (if !found then Err(NotFound) else if !commits then Err(CommitFailed) else Ok(live[id]))
        && pending == (if r.Ok? then Without(live, id) else live)
        && (r.Ok? ==> r.value.serial < |old(log)| && now < r.value.expires)
        && log == if r.Ok? then Marked(Outdated(old(log), now, Lapse()), r.value.serial, Claimed)
                  else Outdated(old(log), now, Lapse())
    {
      Expire(now);
      var found := Available(team, id);
      if found.None? {
        return Err(NotFound);
      }
      if !commits {
        return Err(CommitFailed);
      }
      var c := Remove(id, Claimed);
      return Ok(c);
    }

    /** Cancels the Team's challenge, expired or not, and returns it. */
    method WithdrawTeam(team: string) returns (r: Option<Challenge>)
      requires Valid()
      modifies this
      ensures Valid() && expired == old(expired)
      ensures r.Some? <==> exists id :: id in old(pending) && old(pending)[id].team == team
      ensures r.Some? ==>
        && r.value.team == team && r.value.id in old(pending) && old(pending)[r.value.id] == r.value
        && pending == Without(old(pending), r.value.id)
        && r.value.serial < |old(log)| && log == Marked(old(log), r.value.serial, Withdrawn)
      ensures r.None? ==> pending == old(pending) && log == old(log)
    {
      if team !in byTeam {
        return None;
      }
      var c := Remove(byTeam[team], Withdrawn);
      return Some(c);
    }

    /** Empties all three collections; the log marks what was live withdrawn and what waited dropped. */
    method CancelAll() returns (n: nat)
      requires Valid()
      modifies this
      ensures Valid() && pending == map[] && expired == [] && n == |old(pending).Keys|
      ensures log == Cancelled(old(log))
    {
      n := |pending.Keys|;
      CancelledKept(log, limits);
      pending, byTeam, expired := map[], map[], [];
      log := Cancelled(log);
    }

    /** Expiry, then the waiting challenges that match leave the list, and the log marks exactly those drained. */
    method DrainExpired(team: Option<string>, now: int) returns (r: Result<seq<Challenge>, ChallengeError>)
      requires Valid()
      modifies this
      ensures Valid()
      ensures !limits.retainExpired ==>
        r == Err(NotRetained) && pending == old(pending) && expired == old(expired) && log == old(log)
      ensures limits.retainExpired ==> r.Ok? && pending == Unexpired(old(pending), now)
      ensures r.Ok? ==> exists all ::
        && old(expired) <= all && r.value == Part(all, team, true) && expired == Part(all, team, false)
        && forall c :: c in all <==>
             c in old(expired) || (c.id in Overdue(old(pending), now) && c == old(pending)[c.id])
      ensures r.Ok? ==> log == DrainedLog(Outdated(old(log), now, Waiting), r.value)
      ensures r.Ok? ==> Parted(r.value, expired, team)
      ensures r.Ok? ==> forall c :: c in r.value || c in expired <==>
        c in old(expired) || (c.id in Overdue(old(pending), now) && c == old(pending)[c.id])
    {
      if !limits.retainExpired {
        return Err(NotRetained);
      }
      Expire(now);
      ghost var all := expired;
      var drained := Drain(team);
      assert old(expired) <= all && drained == Part(all, team, true);
      PartParts(all, team);
      return Ok(drained);
    }

    /** The waiting challenges the owner asked for go, the others stay. */
    method Drain(team: Option<string>) returns (drained: seq<Challenge>)
      requires Valid() && limits.retainExpired
      modifies this`expired, this`log
      ensures Valid() && drained == Part(old(expired), team, true) && expired == Part(old(expired), team, false)
      ensures log == DrainedLog(old(log), drained)
    {
      var all, kept := expired, [];
      drained := [];
      for i := 0 to |all|
        invariant drained == Part(all[..i], team, true) && kept == Part(all[..i], team, false)
      {
        assert all[..i + 1][..i] == all[..i];
        if Drains(team, all[i]) {
          drained := drained + [all[i]];
        } else {
          kept := kept + [all[i]];
        }
      }
      assert all[..|all|] == all;
      DrainKept(pending, byTeam, all, log, limits, team, |all|);
      assert kept + all[|all|..] == kept;
      expired := kept;
      log := DrainedLog(log, drained);
    }
  }

  /** The admissions once these challenges were drained. */
  ghost function DrainedLog(log: seq<Admission>, drained: seq<Challenge>): (r: seq<Admission>)
    ensures |r| == |log|
  {
    if drained == [] then log
    else
      var before, c := DrainedLog(log, drained[..|drained| - 1]), drained[|drained| - 1];
      if c.serial < |log| then Marked(before, c.serial, Drained) else before
  }

  lemma {:induction false} DrainedNext(log: seq<Admission>, drained: seq<Challenge>, c: Challenge)
    requires c.serial < |log|
    ensures DrainedLog(log, drained + [c]) == Marked(DrainedLog(log, drained), c.serial, Drained)
  {
    assert (drained + [c])[..|drained|] == drained;
  }

  /** Exactly the drained challenges' fates change. */
  lemma {:induction false} DrainedLogAt(log: seq<Admission>, drained: seq<Challenge>, n: nat)
    requires n < |log|
    ensures DrainedLog(log, drained)[n] == if Waits(drained, n) then log[n].(fate := Drained) else log[n]
  {
    if drained != [] {
      var front, last := drained[..|drained| - 1], drained[|drained| - 1];
      DrainedLogAt(log, front, n);
      assert Waits(drained, n) <==> Waits(front, n) || last.serial == n by {
        assert drained[|drained| - 1] == last;
        if Waits(front, n) {
          var i :| 0 <= i < |front| && front[i].serial == n;
          assert drained[i].serial == n;
        }
      }
    }
  }

  /** Draining the first `i` waiting challenges keeps the store sound. */
  lemma {:induction false} DrainKept(pending: Pending, byTeam: map<string, string>, all: seq<Challenge>,
                                     log: seq<Admission>, l: Limits, team: Option<string>, i: nat)
    requires Kept(pending, byTeam, all, log, l) && l.retainExpired && i <= |all|
    ensures Kept(pending, byTeam, Part(all[..i], team, false) + all[i..], DrainedLog(log, Part(all[..i], team, true)),
                 l)
    decreases i
  {
    if i == 0 {
      assert Part(all[..0], team, false) + all[0..] == all;
    } else {
      DrainKept(pending, byTeam, all, log, l, team, i - 1);
      var c, kept, drained := all[i - 1], Part(all[..i - 1], team, false), Part(all[..i - 1], team, true);
      assert all[i - 1..] == [c] + all[i..];
      PartNext(all, team, i, true);
      PartNext(all, team, i, false);
      DrainedStep(pending, byTeam, kept, drained, c, all[i..], log, l);
    }
  }

  lemma {:induction false} DrainedStep(pending: Pending, byTeam: map<string, string>, kept: seq<Challenge>,
                                       drained: seq<Challenge>, c: Challenge, rest: seq<Challenge>, log: seq<Admission>,
                                       l: Limits)
    requires Kept(pending, byTeam, kept + ([c] + rest), DrainedLog(log, drained), l) && l.retainExpired
    ensures Kept(pending, byTeam, kept + [c] + rest, DrainedLog(log, drained), l)
    ensures Kept(pending, byTeam, kept + rest, DrainedLog(log, drained + [c]), l)
  {
    assert kept + ([c] + rest) == kept + [c] + rest;
    DrainedKept(pending, byTeam, kept, c, rest, DrainedLog(log, drained), l);
    DrainedNext(log, drained, c);
  }

  // ----- Final fates -----------------------------------------------------------------------------------------------

  /** The same admissions and perhaps more, each fate but Live and Waiting as it was, and none Live again. */
  ghost predicate Continues(before: seq<Admission>, after: seq<Admission>) {
    |before| <= |after| && forall n :: 0 <= n < |before| ==>
      && after[n].expires == before[n].expires && after[n].replaced == before[n].replaced
      && (before[n].fate.Live? || before[n].fate.Waiting? || after[n].fate == before[n].fate)
      && (before[n].fate.Waiting? ==> after[n].fate.Waiting? || after[n].fate.Drained? || after[n].fate.Dropped?)
  }

  lemma ContinuesOn(a: seq<Admission>, b: seq<Admission>, c: seq<Admission>)
    requires Continues(a, b) && Continues(b, c)
    ensures Continues(a, c)
  {
  }

  /** Whatever operations follow one another, the last admissions continue the first. */
  lemma {:induction false} FatesStay(logs: seq<seq<Admission>>)
    requires logs != [] && forall i :: 0 <= i < |logs| - 1 ==> Continues(logs[i], logs[i + 1])
    ensures Continues(logs[0], logs[|logs| - 1])
    decreases |logs|
  {
    if |logs| > 1 {
      FatesStay(logs[..|logs| - 1]);
      ContinuesOn(logs[0], logs[|logs| - 2], logs[|logs| - 1]);
    }
  }

  /** In the admissions each operation leaves, every fate but Live and Waiting is final: expiry alone, an admission, a
      claim or a withdrawal of a live challenge, a reissue, a drain, and a cancellation of all. */
  lemma {:induction false} FatesAreFinal(
    log: seq<Admission>, now: int, lapse: Fate, n: nat, fate: Fate, admission: Admission, drained: seq<Challenge>)
    requires lapse.Waiting? || lapse.Dropped?
    ensures
      var lapsed := Outdated(log, now, lapse);
      && Continues(log, lapsed) && Continues(log, lapsed + [admission]) && Continues(log, Cancelled(log))
      && (n < |log| && log[n].fate.Live? ==> Continues(log, Marked(log, n, fate)))
      && (n < |log| && lapsed[n].fate.Live? ==> Continues(log, Marked(lapsed, n, fate) + [admission]))
      && ((forall k :: 0 <= k < |drained| && drained[k].serial < |log| ==> lapsed[drained[k].serial].fate.Waiting?) ==>
            Continues(log, DrainedLog(lapsed, drained)))
  {
    var lapsed := Outdated(log, now, lapse);
    forall m | 0 <= m < |log|
      ensures DrainedLog(lapsed, drained)[m] == if Waits(drained, m) then lapsed[m].(fate := Drained) else lapsed[m]
    {
      DrainedLogAt(lapsed, drained, m);
    }
  }

  /** The challenges the owner asked for, or the others, in order. */
  function Part(all: seq<Challenge>, team: Option<string>, asked: bool): seq<Challenge> {
    if all == [] then []
    else
      var before := Part(all[..|all| - 1], team, asked);
      if Drains(team, all[|all| - 1]) == asked then before + [all[|all| - 1]] else before
  }

  /** What was taken is the asked Team's, or anyone's when none is named, and nothing of it is left. */
  ghost predicate Parted(taken: seq<Challenge>, left: seq<Challenge>, team: Option<string>) {
    match team
    case None => left == []
    case Some(name) => (forall c :: c in taken ==> c.team == name) && forall c :: c in left ==> c.team != name
  }

  lemma {:induction false} PartParts(all: seq<Challenge>, team: Option<string>)
    ensures Parted(Part(all, team, true), Part(all, team, false), team)
    ensures forall c :: c in Part(all, team, true) || c in Part(all, team, false) <==> c in all
    decreases |all|
  {
    if all != [] {
      var front, last := all[..|all| - 1], all[|all| - 1];
      PartParts(front, team);
      assert all == front + [last];
    }
  }

  lemma {:induction false} PartNext(all: seq<Challenge>, team: Option<string>, i: nat, asked: bool)
    requires 0 < i <= |all|
    ensures
      var before := Part(all[..i - 1], team, asked);
      Part(all[..i], team, asked) == if Drains(team, all[i - 1]) == asked then before + [all[i - 1]] else before
  {
    assert all[..i][..i - 1] == all[..i - 1];
  }

  predicate Drains(team: Option<string>, c: Challenge) { team.None? || c.team == team.value }

  /** Every live challenge is withdrawn and every waiting one dropped. */
  ghost function Cancelled(log: seq<Admission>): (r: seq<Admission>)
    ensures |r| == |log|
  {
    seq(|log|, n requires 0 <= n < |log| =>
      log[n].(fate := if log[n].fate.Live? then Withdrawn else if log[n].fate.Waiting? then Dropped else log[n].fate))
  }

  lemma CancelledKept(log: seq<Admission>, l: Limits)
    requires Chained(log)
    ensures Kept(map[], map[], [], Cancelled(log), l)
  {
    CountNumbers(Cancelled(log));
    assert LiveNumbers(Cancelled(log)) == {};
  }

  lemma DrainedKept(
    pending: Pending, byTeam: map<string, string>, before: seq<Challenge>, c: Challenge, after: seq<Challenge>,
    log: seq<Admission>, l: Limits)
    requires Kept(pending, byTeam, before + ([c] + after), log, l) && l.retainExpired
    ensures c.serial < |log| && Kept(pending, byTeam, before + after, Marked(log, c.serial, Drained), l)
  {
    var all, rest := before + ([c] + after), before + after;
    assert all[|before|] == c;
    DrainedFated(log, pending, all, |before|);
    assert all[..|before|] + all[|before| + 1..] == rest;
    CountUnmarked(log, c.serial, Drained);
  }

  lemma {:induction false} CountUnmarked(log: seq<Admission>, n: nat, fate: Fate)
    requires n < |log| && !log[n].fate.Live? && !fate.Live?
    ensures CountLive(Marked(log, n, fate)) == CountLive(log)
    decreases |log|
  {
    var last := |log| - 1;
    if n < last {
      CountUnmarked(log[..last], n, fate);
      assert Marked(log, n, fate)[..last] == Marked(log[..last], n, fate);
    } else {
      assert Marked(log, n, fate)[..last] == log[..last];
    }
  }

  /** The challenges that still wait, once one was drained. */
  lemma {:induction false} WaitingWithout(log: seq<Admission>, expired: seq<Challenge>, i: nat)
    requires i < |expired| && expired[i].serial < |log|
    requires forall k :: 0 <= k < |expired| ==> Recorded(log, expired[k], Waiting)
    requires forall j, k :: 0 <= j < k < |expired| ==> expired[j].serial != expired[k].serial
    ensures
      var after, rest := Marked(log, expired[i].serial, Drained), expired[..i] + expired[i + 1..];
      && (forall k :: 0 <= k < |rest| ==> Recorded(after, rest[k], Waiting))
      && forall j, k :: 0 <= j < k < |rest| ==> rest[j].serial != rest[k].serial
  {
    var rest := expired[..i] + expired[i + 1..];
    assert forall k :: 0 <= k < |rest| ==> rest[k] == expired[if k < i then k else k + 1];
  }

  lemma DrainedFated(log: seq<Admission>, pending: Pending, expired: seq<Challenge>, i: nat)
    requires Fated(log, pending, expired) && i < |expired|
    ensures expired[i].serial < |log| && log[expired[i].serial].fate.Waiting?
    ensures Fated(Marked(log, expired[i].serial, Drained), pending, expired[..i] + expired[i + 1..])
  {
    assert Recorded(log, expired[i], Waiting);
    var after, rest := Marked(log, expired[i].serial, Drained), expired[..i] + expired[i + 1..];
    WaitingWithout(log, expired, i);
    forall n | 0 <= n < |after| && after[n].fate.Waiting? ensures Waits(rest, n) {
      assert Waits(expired, n);
      var k :| 0 <= k < |expired| && expired[k].serial == n;
      assert rest[if k < i then k else k - 1].serial == n;
    }
    forall n | 0 <= n < |after| && after[n].fate.Live? ensures Held(pending, n) {
      assert log[n].fate.Live?;
    }
  }
}
