/** The sliding-window rate limiter (crates/zerovpn-api/src/ratelimit.rs). */
module RateLimit {
  import opened Common

  const SWEEP_THRESHOLD := 10_000

  datatype Limits = Limits(max: nat, window: nat)

  /** Recorded hits per key, as the limiter stores them. */
  type Hits = map<string, seq<int>>

  /** `now.duration_since(t) < window`; `duration_since` saturates at zero. */
  predicate Fresh(l: Limits, now: int, t: int) {
    Max(0, now - t) < l.window
  }

  /** `v.retain(..)`. */
  function Retain(l: Limits, now: int, v: seq<int>): seq<int> {
    if v == [] then []
    else (if Fresh(l, now, v[0]) then [v[0]] else []) + Retain(l, now, v[1..])
  }

  function Get(m: Hits, key: string): seq<int> {
    if key in m then m[key] else []
  }

  function Sweep(l: Limits, now: int, m: Hits): Hits {
    map k | k in m && Retain(l, now, m[k]) != [] :: Retain(l, now, m[k])
  }

  /** One call of `check`, with the sweep threshold as a parameter. */
  function Step(l: Limits, threshold: nat, m: Hits, key: string, now: int): (Hits, bool) {
    var swept := if |m| > threshold then Sweep(l, now, m) else m;
    var v := Retain(l, now, Get(swept, key));
    if |v| >= l.max then (swept[key := v], false) else (swept[key := v + [now]], true)
  }

  // -------------------------------------------------------------------- runs

  datatype Call = Call(key: string, at: int)

  /** A limiter after a run, with every decision it made. */
  datatype Outcome = Outcome(hits: Hits, decisions: seq<bool>)

  function Run(l: Limits, threshold: nat, calls: seq<Call>): Outcome {
    if calls == [] then Outcome(map[], [])
    else
      var before := Run(l, threshold, calls[..|calls| - 1]);
      var last := calls[|calls| - 1];
      var (hits, accepted) := Step(l, threshold, before.hits, last.key, last.at);
      Outcome(hits, before.decisions + [accepted])
  }

  predicate Ordered(calls: seq<Call>) {
    forall i, j :: 0 <= i < j < |calls| ==> calls[i].at <= calls[j].at
  }

  /** The reference: how many of the first calls were accepted for `key` at a time in
      (now - window, now], counted over the whole history, with nothing ever forgotten. */
  function AcceptedIn(l: Limits, calls: seq<Call>, decisions: seq<bool>, key: string, now: int): nat
    requires |calls| == |decisions|
  {
    if calls == [] then 0
    else
      var n := |calls| - 1;
      AcceptedIn(l, calls[..n], decisions[..n], key, now)
      + if calls[n].key == key && decisions[n] && now - l.window < calls[n].at <= now then 1 else 0
  }

  lemma {:induction false} RunLength(l: Limits, threshold: nat, calls: seq<Call>)
    ensures |Run(l, threshold, calls).decisions| == |calls|
  {
    if calls != [] { RunLength(l, threshold, calls[..|calls| - 1]); }
  }

  lemma {:induction false} RetainAppend(l: Limits, now: int, v: seq<int>, t: int)
    ensures Retain(l, now, v + [t]) == Retain(l, now, v) + if Fresh(l, now, t) then [t] else []
  {
    if v == [] {
      assert v + [t] == [t];
    } else {
      RetainAppend(l, now, v[1..], t);
      assert (v + [t])[1..] == v[1..] + [t];
    }
  }

  /** Pruning at an earlier time loses nothing that a later time would still count. */
  lemma {:induction false} RetainTwice(l: Limits, early: int, late: int, v: seq<int>)
    requires early <= late
    ensures Retain(l, late, Retain(l, early, v)) == Retain(l, late, v)
  {
    if v != [] {
      RetainTwice(l, early, late, v[1..]);
      var rest := Retain(l, early, v[1..]);
      if Fresh(l, early, v[0]) {
        assert ([v[0]] + rest)[1..] == rest;
      } else {
        assert !Fresh(l, late, v[0]);
        assert Retain(l, early, v) == rest;
      }
    }
  }

  lemma {:induction false} StepLookup(l: Limits, threshold: nat, m: Hits, key: string, now: int, other: string, late: int)
    requires now <= late
    ensures Retain(l, late, Get(Step(l, threshold, m, key, now).0, other)) ==
            Retain(l, late, Get(m, other)) +
            (if other == key && Step(l, threshold, m, key, now).1 && Fresh(l, late, now) then [now] else [])
    ensures Step(l, threshold, m, key, now).1 <==> |Retain(l, now, Get(m, key))| < l.max
  {
    var swept := if |m| > threshold then Sweep(l, now, m) else m;
    SweepLookup(l, m, now, key, now);
    SweepLookup(l, m, now, other, late);
    assert Retain(l, now, Get(swept, key)) == Retain(l, now, Get(m, key));
    var v := Retain(l, now, Get(swept, key));
    if other == key {
      RetainAppend(l, late, v, now);
      RetainTwice(l, now, late, Get(swept, key));
      SweepLookup(l, m, now, key, late);
    }
  }

  lemma {:induction false} SweepLookup(l: Limits, m: Hits, now: int, key: string, late: int)
    requires now <= late
    ensures Retain(l, late, Get(Sweep(l, now, m), key)) == Retain(l, late, Get(m, key))
  {
    RetainTwice(l, now, late, Get(m, key));
  }

  /** What the limiter stores for a key counts exactly the accepted hits still in the
      window, at the time of the last call and at any later time. */
  lemma {:induction false} StoredIsReference(l: Limits, threshold: nat, calls: seq<Call>, key: string, late: int)
    requires Ordered(calls) && (calls != [] ==> calls[|calls| - 1].at <= late)
    ensures |Run(l, threshold, calls).decisions| == |calls|
    ensures |Retain(l, late, Get(Run(l, threshold, calls).hits, key))|
         == AcceptedIn(l, calls, Run(l, threshold, calls).decisions, key, late)
  {
    RunLength(l, threshold, calls);
    if calls != [] {
      var n := |calls| - 1;
      var front, last := calls[..n], calls[n];
      StoredIsReference(l, threshold, front, key, late);
      var before := Run(l, threshold, front);
      StepLookup(l, threshold, before.hits, last.key, last.at, key, late);
      assert Run(l, threshold, calls).decisions[..n] == before.decisions;
    }
  }

  /** A call is accepted if and only if its key has fewer than `max` accepted hits in the
      window ending now, counted over the whole history. */
  lemma {:induction false} DecisionIsExact(l: Limits, threshold: nat, calls: seq<Call>)
    requires Ordered(calls) && calls != []
    ensures var n := |calls| - 1;
            var d := Run(l, threshold, calls).decisions;
            && |d| == |calls|
            && (d[n] <==> AcceptedIn(l, calls[..n], d[..n], calls[n].key, calls[n].at) < l.max)
  {
    var n := |calls| - 1;
    var front, last := calls[..n], calls[n];
    StoredIsReference(l, threshold, front, last.key, last.at);
    var before := Run(l, threshold, front);
    StepLookup(l, threshold, before.hits, last.key, last.at, last.key, last.at);
    assert Run(l, threshold, calls).decisions[..n] == before.decisions;
  }

  /** The opportunistic sweep never changes a decision: any two thresholds, in particular
      one that is never reached, decide every call of every run alike. */
  lemma {:induction false} SweepIsInvisible(l: Limits, a: nat, b: nat, calls: seq<Call>)
    requires Ordered(calls)
    ensures Run(l, a, calls).decisions == Run(l, b, calls).decisions
  {
    if calls != [] {
      var n := |calls| - 1;
      SweepIsInvisible(l, a, b, calls[..n]);
      DecisionIsExact(l, a, calls);
      DecisionIsExact(l, b, calls);
      RunLength(l, a, calls[..n]);
      RunLength(l, b, calls[..n]);
      assert Run(l, a, calls).decisions[..n] == Run(l, a, calls[..n]).decisions;
      assert Run(l, b, calls).decisions[..n] == Run(l, b, calls[..n]).decisions;
    }
  }

  /** At no instant, at a call or between calls, does a window hold more than `max`
      accepted hits of one key. */
  lemma {:induction false} NeverMoreThanMax(l: Limits, threshold: nat, calls: seq<Call>, key: string, now: int)
    requires Ordered(calls)
    ensures |Run(l, threshold, calls).decisions| == |calls|
    ensures AcceptedIn(l, calls, Run(l, threshold, calls).decisions, key, now) <= l.max
  {
    RunLength(l, threshold, calls);
    if calls != [] {
      var n := |calls| - 1;
      var front, last := calls[..n], calls[n];
      var d := Run(l, threshold, calls).decisions;
      NeverMoreThanMax(l, threshold, front, key, now);
      assert d[..n] == Run(l, threshold, front).decisions;
      if last.key == key && d[n] && now - l.window < last.at <= now {
        DecisionIsExact(l, threshold, calls);
        EarlierWindow(l, front, d[..n], key, last.at, now);
      }
    }
  }

  /** If no call is later than `early`, a window ending later holds no more of them. */
  lemma {:induction false} EarlierWindow(l: Limits, calls: seq<Call>, d: seq<bool>, key: string, early: int, late: int)
    requires |calls| == |d| && early <= late
    requires forall i :: 0 <= i < |calls| ==> calls[i].at <= early
    ensures AcceptedIn(l, calls, d, key, late) <= AcceptedIn(l, calls, d, key, early)
  {
    if calls != [] {
      EarlierWindow(l, calls[..|calls| - 1], d[..|calls| - 1], key, early, late);
    }
  }

  // ----------------------------------------------------------------- limiters

  /** One more call: the stored hits and the answer are one step on, and the answer is the
      exact one. */
  lemma {:induction false} NextCall(l: Limits, threshold: nat, calls: seq<Call>, key: string, now: int)
    ensures var before, after := Run(l, threshold, calls), Run(l, threshold, calls + [Call(key, now)]);
            var step := Step(l, threshold, before.hits, key, now);
            && after == Outcome(step.0, before.decisions + [step.1])
            && |before.decisions| == |calls|
            && (Ordered(calls + [Call(key, now)]) ==>
                  (step.1 <==> AcceptedIn(l, calls, before.decisions, key, now) < l.max))
  {
    var all := calls + [Call(key, now)];
    assert all[..|calls|] == calls;
    RunLength(l, threshold, calls);
    if Ordered(all) { DecisionIsExact(l, threshold, all); }
  }

  /** `RateLimiter`, with the calls made to it so far. */
  class RateLimiter {
    const limits: Limits
    var hits: Hits
    ghost var calls: seq<Call>

    /** What is stored is what a run over all calls so far leaves behind. */
    ghost predicate Valid()
      reads this
    {
      hits == Run(limits, SWEEP_THRESHOLD, calls).hits
    }

    /** What the limiter has answered so far. */
    ghost function Answers(): seq<bool>
      reads this
    {
      Run(limits, SWEEP_THRESHOLD, calls).decisions
    }

    constructor (max: nat, window: nat)
      ensures Valid() && limits == Limits(max, window) && calls == []
    {
      limits := Limits(max, window);
      hits := map[];
      calls := [];
    }

    /** `check`, with the clock reading as an argument. While the clock does not go back a
        hit is accepted if and only if its key has fewer than `max` accepted hits in the
        window, counted over all calls there ever were. */
    method Check(key: string, now: int) returns (accepted: bool)
      requires Valid()
      modifies this
      ensures Valid() && calls == old(calls) + [Call(key, now)] && Answers() == old(Answers()) + [accepted]
      ensures |old(Answers())| == |old(calls)|
      ensures Ordered(calls) ==>
                (accepted <==> AcceptedIn(limits, old(calls), old(Answers()), key, now) < limits.max)
    {
      NextCall(limits, SWEEP_THRESHOLD, calls, key, now);
      calls := calls + [Call(key, now)];
      if |hits| > SWEEP_THRESHOLD {
        hits := Sweep(limits, now, hits);
      }
      var v := Retain(limits, now, Get(hits, key));
      if |v| >= limits.max {
        hits := hits[key := v];
        return false;
      }
      hits := hits[key := v + [now]];
      return true;
    }
  }

  /** `MailLimits`: one budget per address and one per client. */
  class MailLimits {
    const perEmail: RateLimiter
    const perIp: RateLimiter

    constructor ()
      ensures fresh(perEmail) && fresh(perIp) && perEmail != perIp && perEmail.Valid() && perIp.Valid()
      ensures perEmail.limits == Limits(3, 15 * 60) && perIp.limits == Limits(10, 60 * 60)
      ensures perEmail.calls == [] && perIp.calls == []
    {
      perEmail := new RateLimiter(3, 15 * 60);
      perIp := new RateLimiter(10, 60 * 60);
    }

    /** Both ceilings must allow the request; the address budget is charged first and is
        spent even when the client ceiling then refuses. */
    method Check(email: string, ip: Option<string>, now: int) returns (accepted: bool)
      requires perEmail != perIp && perEmail.Valid() && perIp.Valid()
      modifies perEmail, perIp
      ensures perEmail.Valid() && perIp.Valid()
      ensures perEmail.calls == old(perEmail.calls) + [Call(email, now)]
      ensures perIp.calls == old(perIp.calls) + if ip.Some? then [Call(ip.value, now)] else []
      ensures |perEmail.Answers()| == |old(perEmail.Answers())| + 1
      ensures ip.Some? ==> |perIp.Answers()| == |old(perIp.Answers())| + 1
      ensures accepted <==>
                && perEmail.Answers()[|old(perEmail.Answers())|]
                && (ip.Some? ==> perIp.Answers()[|old(perIp.Answers())|])
    {
      var emailOk := perEmail.Check(email, now);
      ghost var answers := perEmail.Answers();
      assert answers[|old(perEmail.Answers())|] == emailOk;
      var ipOk := true;
      if ip.Some? {
        ipOk := perIp.Check(ip.value, now);
        assert perIp.Answers()[|old(perIp.Answers())|] == ipOk;
      }
      assert perEmail.Answers() == answers;
      return emailOk && ipOk;
    }
  }
}
