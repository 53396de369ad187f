/**
 Concurrent callers of the token cache (internal/polaris/auth.go): every caller takes the mutex, looks at the
 cache, and exchanges credentials while holding it. Any interleaving amounts to one call after the other.
 */
module TokenThreads {
  import opened Wrappers
  import opened TokenCache

  datatype Phase = Outside | Waiting | Holding | Exchanging(asked: int)

  /** phases: absent means Outside. log: the calls finished so far, in lock order. */
  datatype State = State(phases: map<nat, Phase>, lock: Option<nat>, cache: Cache, now: int, log: seq<Call>)

  datatype Action =
    | Tick(to: int)
    | Arrive(t: nat)
    | Acquire(t: nat)
    | Look(t: nat)
    | Finish(t: nat, reply: Fetched)

  function PhaseOf(s: State, t: nat): Phase {
    if t in s.phases then s.phases[t] else Outside
  }

  /** Leave the mutex; the call is on record. */
  function Leave(s: State, t: nat, cache: Cache, call: Call): State {
    s.(phases := s.phases[t := Outside], lock := None, cache := cache, log := s.log + [call])
  }

  function Step(s: State, a: Action): State {
    match a
    case Tick(to) => if to >= s.now then s.(now := to) else s
    case Arrive(t) => if PhaseOf(s, t) == Outside then s.(phases := s.phases[t := Waiting]) else s
    case Acquire(t) =>
      if PhaseOf(s, t) == Waiting && s.lock.None? then s.(phases := s.phases[t := Holding], lock := Some(t)) else s
    case Look(t) =>
      if PhaseOf(s, t) != Holding then s
      else if Fresh(s.cache, s.now) then Leave(s, t, s.cache, Call(s.now, Failure, s.now))
      else s.(phases := s.phases[t := Exchanging(s.now)])
    case Finish(t, reply) =>
      (match PhaseOf(s, t)
       case Exchanging(asked) =>
         if !WellFormed(reply) then s
         else
           var call := Call(asked, reply, s.now);
           Leave(s, t, if reply.Failure? then s.cache else Cache(reply.r.accessToken, s.now + Lifetime(reply.r)), call)
       case _ => s)
  }

  function Steps(s: State, actions: seq<Action>): State
    decreases |actions|
  {
    if actions == [] then s else Steps(Step(s, actions[0]), actions[1..])
  }

  function Start(now: int): State {
    State(map[], None, NO_TOKEN, now, [])
  }

  predicate Inside(p: Phase) {
    p.Holding? || p.Exchanging?
  }

  predicate Inv(s: State, from: int) {
    && (forall t :: t in s.phases && Inside(s.phases[t]) ==> s.lock == Some(t))
    && (s.lock.Some? ==> s.lock.value in s.phases && Inside(s.phases[s.lock.value]))
    && (forall t :: t in s.phases && s.phases[t].Exchanging? ==>
          LastRecorded(s.log, from) <= s.phases[t].asked <= s.now && !Fresh(s.cache, s.phases[t].asked))
    && LastRecorded(s.log, from) <= s.now
    && InOrder(s.log, from)
    && s.cache == Run(NO_TOKEN, s.log)
  }

  function LastRecorded(log: seq<Call>, from: int): int {
    if log == [] then from else log[|log| - 1].recorded
  }

  lemma {:induction false} RunOneMore(c: Cache, calls: seq<Call>, call: Call)
    ensures Run(c, calls + [call]) == After(Run(c, calls), call)
    decreases |calls|
  {
    if calls == [] {
      assert [] + [call] == [call];
      assert [call][1..] == [];
    } else {
      assert (calls + [call])[1..] == calls[1..] + [call];
      RunOneMore(After(c, calls[0]), calls[1..], call);
    }
  }

  lemma {:induction false} InOrderOneMore(calls: seq<Call>, from: int, call: Call)
    requires InOrder(calls, from)
    requires LastRecorded(calls, from) <= call.asked <= call.recorded && WellFormed(call.reply)
    ensures InOrder(calls + [call], from)
    decreases |calls|
  {
    if calls == [] {
      assert ([] + [call])[1..] == [];
    } else {
      assert (calls + [call])[1..] == calls[1..] + [call];
      InOrderOneMore(calls[1..], calls[0].recorded, call);
    }
  }

  lemma StepKeepsInv(s: State, a: Action, from: int)
    requires Inv(s, from)
    ensures Inv(Step(s, a), from)
  {
    hide Fresh, Lifetime;
    var d := Step(s, a);
    if d.log != s.log {
      var call := d.log[|d.log| - 1];
      RunOneMore(NO_TOKEN, s.log, call);
      InOrderOneMore(s.log, from, call);
    }
  }

  lemma {:induction false} StepsKeepInv(s: State, actions: seq<Action>, from: int)
    requires Inv(s, from)
    ensures Inv(Steps(s, actions), from)
    decreases |actions|
  {
    hide Inv, Step;
    if actions != [] {
      StepKeepsInv(s, actions[0], from);
      StepsKeepInv(Step(s, actions[0]), actions[1..], from);
    }
  }

  /**
   In every interleaving at most one exchange is in flight, and the cache is what the finished calls make it
   one after the other, in the order of the lock.
   */
  lemma CallsAreSerialised(now: int, actions: seq<Action>)
    ensures var s := Steps(Start(now), actions);
            && (forall t, u :: PhaseOf(s, t).Exchanging? && PhaseOf(s, u).Exchanging? ==> t == u)
            && s.cache == Run(NO_TOKEN, s.log)
            && InOrder(s.log, now)
  {
    StepsKeepInv(Start(now), actions, now);
  }

  /** So the pace of refreshes holds for concurrent callers too. */
  lemma ConcurrentRefreshBound(now: int, actions: seq<Action>, least: int)
    requires var log := Steps(Start(now), actions).log;
             least > LEAD_TIME && LivesAtLeast(log, least) && Exchanges(NO_TOKEN, log) > 0
    ensures var log := Steps(Start(now), actions).log;
            var first := FirstExchange(NO_TOKEN, log);
            && first < |log|
            && log[|log| - 1].recorded - log[first].recorded >= (Exchanges(NO_TOKEN, log) - 1) * (least - LEAD_TIME)
  {
    CallsAreSerialised(now, actions);
    RefreshBound(NO_TOKEN, Steps(Start(now), actions).log, now, least);
  }
}
