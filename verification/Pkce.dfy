/**
 One-use OAuth challenges (sections 4.1 and 4.2 of RFC 7636): each browser session starts a bounded number of them, one
 per Team, Assistant and Integration, and only that session's callback takes the verifier, once.
 */
module Pkce {
  import opened Basics
  import Json

  /** A binding key: the session's digest, Team, Assistant and Integration. */
  datatype Key = Key(session: string, team: string, assistant: string, integration: string)

  /** A live challenge; `serial` numbers the challenges ever started. */
  datatype Live = Live(key: Key, verifier: string, expires: int, serial: nat)

  datatype PkceError = Invalid | AlreadyPending | Capacity | NotFound | Unavailable

  datatype Limits = Limits(capacity: nat, perSession: nat, perTeam: nat, ttl: nat)

  predicate ValidLimits(l: Limits) {
    && 1 <= l.capacity <= 1024 && 1 <= l.perSession <= l.capacity && 1 <= l.perTeam <= l.capacity
    && 30 <= l.ttl <= 900
  }

  type Pending = map<string, Live>

  // ----- What the index and the counts are -------------------------------------------------------------------------

  /** The index and the challenges are mutually inverse. */
  ghost predicate Inverse(pending: Pending, byBinding: map<Key, string>) {
    && (forall s :: s in pending ==> pending[s].key in byBinding && byBinding[pending[s].key] == s)
    && (forall k :: k in byBinding ==> byBinding[k] in pending && pending[byBinding[k]].key == k)
  }

  function OfSession(pending: Pending, session: string): set<string> {
    set s | s in pending && pending[s].key.session == session
  }

  function OfTeam(pending: Pending, team: string): set<string> { set s | s in pending && pending[s].key.team == team }

  ghost predicate WithinLimits(pending: Pending, l: Limits) {
    && |pending.Keys| <= l.capacity
    && (forall session :: |OfSession(pending, session)| <= l.perSession)
    && (forall team :: |OfTeam(pending, team)| <= l.perTeam)
  }

  /** Some of the challenges are within the limits all of them are. */
  lemma FewerWithin(some: Pending, all: Pending, l: Limits)
    requires WithinLimits(all, l) && forall s :: s in some ==> s in all && some[s] == all[s]
    ensures WithinLimits(some, l)
  {
    Json.SubsetSize(some.Keys, all.Keys);
    forall session ensures |OfSession(some, session)| <= l.perSession {
      Json.SubsetSize(OfSession(some, session), OfSession(all, session));
    }
    forall team ensures |OfTeam(some, team)| <= l.perTeam {
      Json.SubsetSize(OfTeam(some, team), OfTeam(all, team));
    }
  }

  lemma SessionAdded(pending: Pending, state: string, live: Live, session: string)
    requires state !in pending
    ensures |OfSession(pending[state := live], session)| ==
      |OfSession(pending, session)| + if session == live.key.session then 1 else 0
  {
    var after := OfSession(pending[state := live], session);
    if session == live.key.session {
      assert after == OfSession(pending, session) + {state};
    } else {
      assert after == OfSession(pending, session);
    }
  }

  lemma TeamAdded(pending: Pending, state: string, live: Live, team: string)
    requires state !in pending
    ensures |OfTeam(pending[state := live], team)| == |OfTeam(pending, team)| + if team == live.key.team then 1 else 0
  {
    var after := OfTeam(pending[state := live], team);
    if team == live.key.team {
      assert after == OfTeam(pending, team) + {state};
    } else {
      assert after == OfTeam(pending, team);
    }
  }

  lemma OneMoreWithin(pending: Pending, state: string, live: Live, l: Limits)
    requires WithinLimits(pending, l) && state !in pending && |pending.Keys| < l.capacity
    requires |OfSession(pending, live.key.session)| < l.perSession && |OfTeam(pending, live.key.team)| < l.perTeam
    ensures WithinLimits(pending[state := live], l)
  {
    var after := pending[state := live];
    assert after.Keys == pending.Keys + {state};
    forall session ensures |OfSession(after, session)| <= l.perSession {
      SessionAdded(pending, state, live, session);
    }
    forall team ensures |OfTeam(after, team)| <= l.perTeam {
      TeamAdded(pending, state, live, team);
    }
  }

  lemma InverseWithout(pending: Pending, byBinding: map<Key, string>, state: string)
    requires Inverse(pending, byBinding) && state in pending
    ensures Inverse(pending - {state}, byBinding - {pending[state].key})
  {
  }

  lemma InverseWith(pending: Pending, byBinding: map<Key, string>, state: string, live: Live)
    requires Inverse(pending, byBinding) && state !in pending && live.key !in byBinding
    ensures Inverse(pending[state := live], byBinding[live.key := state])
  {
  }

  function Selected(pending: Pending, selected: Live -> bool): set<string> {
    set s | s in pending && selected(pending[s])
  }

  function Unselected(pending: Pending, selected: Live -> bool): Pending {
    map s | s in pending && !selected(pending[s]) :: pending[s]
  }

  lemma SelectedWithout(pending: Pending, selected: Live -> bool, state: string)
    requires state in Selected(pending, selected)
    ensures |Selected(pending - {state}, selected)| == |Selected(pending, selected)| - 1
    ensures Unselected(pending - {state}, selected) == Unselected(pending, selected)
  {
    assert Selected(pending - {state}, selected) == Selected(pending, selected) - {state};
  }

  lemma NoneSelected(pending: Pending, selected: Live -> bool)
    requires Selected(pending, selected) == {}
    ensures Unselected(pending, selected) == pending
  {
    forall s | s in pending ensures !selected(pending[s]) {
      assert s !in Selected(pending, selected);
    }
  }

  /** What every store keeps of its challenges, its index and its history. */
  ghost predicate Kept(pending: Pending, byBinding: map<Key, string>, h: History, l: Limits) {
    Inverse(pending, byBinding) && WithinLimits(pending, l) && Told(h, pending)
  }

  lemma RemovedKept(pending: Pending, byBinding: map<Key, string>, h: History, l: Limits, state: string)
    requires Kept(pending, byBinding, h, l) && state in pending
    ensures pending[state].key in byBinding && byBinding[pending[state].key] == state
    ensures Kept(pending - {state}, byBinding - {pending[state].key}, h, l)
  {
    InverseWithout(pending, byBinding, state);
    FewerWithin(pending - {state}, pending, l);
  }

  function Unexpired(pending: Pending, now: int): Pending {
    map s | s in pending && pending[s].expires > now :: pending[s]
  }

  // ----- The history -----------------------------------------------------------------------------------------------

  /** The session and verifier each challenge ever started with, and the session each released verifier went to. */
  datatype History = History(started: seq<(string, string)>, released: map<nat, string>)

  /** Every live challenge is one that was started and not released, each its own; a verifier goes to its own
      session. */
  ghost predicate Told(h: History, pending: Pending) {
    && (forall s :: s in pending ==>
          && pending[s].serial < |h.started| && pending[s].serial !in h.released
          && h.started[pending[s].serial] == (pending[s].key.session, pending[s].verifier))
    && (forall s, t :: s in pending && t in pending && pending[s].serial == pending[t].serial ==> s == t)
    && (forall n :: n in h.released ==> n < |h.started| && h.released[n] == h.started[n].0)
  }

  /** What one challenge's release changes. */
  ghost predicate Releases(before: History, after: History, live: Live) {
    && live.serial !in before.released && live.serial < |before.started|
    && before.started[live.serial] == (live.key.session, live.verifier)
    && after == before.(released := before.released[live.serial := live.key.session])
  }

  class PkceStore {
    const limits: Limits
    var pending: Pending
    var byBinding: map<Key, string>
    /** How many challenges were ever started: each one's identity. */
    var count: nat
    ghost var history: History

    ghost predicate Valid()
      reads this
    {
      Kept(pending, byBinding, history, limits) && count == |history.started|
    }

    constructor (limits: Limits)
      requires ValidLimits(limits)
      ensures Valid() && pending == map[] && this.limits == limits && history == History([], map[])
    {
      this.limits := limits;
      pending, byBinding, count := map[], map[], 0;
      history := History([], map[]);
      new;
      assert forall s :: OfSession(map[], s) == {} && OfTeam(map[], s) == {};
    }

    method Remove(state: string)
      requires Valid() && state in pending
      modifies this`pending, this`byBinding
      ensures Valid() && pending == old(pending) - {state}
    {
      var key := pending[state].key;
      RemovedKept(pending, byBinding, history, limits, state);
      var index := if key in byBinding && byBinding[key] == state then byBinding - {key} else byBinding;
      assert index == byBinding - {key};
      pending, byBinding := pending - {state}, index;
    }

    /** Removes every selected challenge, one by one; how many. */
    method RemoveWhere(selected: Live -> bool) returns (n: nat)
      requires Valid()
      modifies this`pending, this`byBinding
      ensures Valid() && pending == Unselected(old(pending), selected)
      ensures n == |Selected(old(pending), selected)|
    {
      n := 0;
      while Selected(pending, selected) != {}
        invariant Valid() && Unselected(pending, selected) == Unselected(old(pending), selected)
        invariant n + |Selected(pending, selected)| == |Selected(old(pending), selected)|
        decreases |Selected(pending, selected)|
      {
        var state :| state in Selected(pending, selected);
        SelectedWithout(pending, selected, state);
        Remove(state);
        n := n + 1;
      }
      NoneSelected(pending, selected);
    }

    /** The lock: everything expired goes first. */
    method Expire(now: int)
      requires Valid()
      modifies this`pending, this`byBinding
      ensures Valid() && pending == Unexpired(old(pending), now)
    {
      var _ := RemoveWhere((live: Live) => live.expires <= now);
      assert Unselected(old(pending), (live: Live) => live.expires <= now) == Unexpired(old(pending), now);
    }

    /** Starts a challenge of a well-formed request under a state no live challenge has. */
    method Create(key: Key, state: string, verifier: string, now: int, later: int) returns (r: Result<(), PkceError>)
      requires Valid() && now <= later && state !in Unexpired(pending, now)
      modifies this
      ensures Valid()
      ensures
        var live := Unexpired(old(pending), now);
        var clash := exists s :: s in live && live[s].key == key;
        var full := |live.Keys| >= limits.capacity || |OfSession(live, key.session)| >= limits.perSession ||
                    |OfTeam(live, key.team)| >= limits.perTeam;
        && r == (if clash then Err(AlreadyPending) else if full then Err(Capacity) else Ok(()))
        && pending == (if r.Ok? then live[state := Live(key, verifier, later + limits.ttl, |old(history.started)|)]
                       else live)
        && history == (if r.Ok? then old(history).(started := old(history.started) + [(key.session, verifier)])
                       else old(history))
    {
      Expire(now);
      if key in byBinding {
        assert pending[byBinding[key]].key == key;
        return Err(AlreadyPending);
      }
      if |pending.Keys| >= limits.capacity || |OfSession(pending, key.session)| >= limits.perSession ||
         |OfTeam(pending, key.team)| >= limits.perTeam {
        return Err(Capacity);
      }
      var live := Live(key, verifier, later + limits.ttl, count);
      OneMoreWithin(pending, state, live, limits);
      InverseWith(pending, byBinding, state, live);
      StartTold(history, pending, state, live);
      pending := pending[state := live];
      byBinding := byBinding[key := state];
      count := count + 1;
      history := history.(started := history.started + [(key.session, verifier)]);
      return Ok(());
    }

    /** Releases a live challenge to the session in its key; a claim by another session leaves what expiry left. */
    method Claim(state: string, session: string, now: int) returns (r: Result<Live, PkceError>)
      requires Valid()
      modifies this
      ensures Valid()
      ensures
        var live := Unexpired(old(pending), now);
        && (r.Ok? <==> state in live && live[state].key.session == session)
        && (r.Ok? ==>
              && r.value == live[state] && pending == live - {state}
              && Releases(old(history), history, r.value) && history.released[r.value.serial] == session)
        && (r.Err? ==> r == Err(NotFound) && pending == live && history == old(history))
    {
      Expire(now);
      if state !in pending || pending[state].key.session != session {
        return Err(NotFound);
      }
      var live := Release(state);
      return Ok(live);
    }

    /** Removes a live challenge and hands its verifier out. */
    method Release(state: string) returns (live: Live)
      requires Valid() && state in pending
      modifies this
      ensures Valid() && live == old(pending)[state] && pending == old(pending) - {state}
      ensures Releases(old(history), history, live)
    {
      live := pending[state];
      ReleaseTold(history, pending, state);
      Remove(state);
      history := history.(released := history.released[live.serial := live.key.session]);
    }

    /** The key of a live challenge of this session. */
    method Inspect(state: string, session: string, now: int) returns (r: Result<Key, PkceError>)
      requires Valid()
      modifies this`pending, this`byBinding
      ensures Valid() && pending == Unexpired(old(pending), now)
      ensures r == if state in pending && pending[state].key.session == session then Ok(pending[state].key)
                   else Err(NotFound)
    {
      Expire(now);
      return if state in pending && pending[state].key.session == session then Ok(pending[state].key)
             else Err(NotFound);
    }
  }

  lemma StartTold(h: History, pending: Pending, state: string, live: Live)
    requires Told(h, pending) && state !in pending && live.serial == |h.started|
    ensures Told(h.(started := h.started + [(live.key.session, live.verifier)]), pending[state := live])
  {
  }

  lemma ReleaseTold(h: History, pending: Pending, state: string)
    requires Told(h, pending) && state in pending
    ensures Told(h.(released := h.released[pending[state].serial := pending[state].key.session]), pending - {state})
  {
  }
}
