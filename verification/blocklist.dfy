/** Feature 4: the per-host block list.  Each host is clean, suspicious
    (a tracker holding the second that opened its current 20-second burst
    window and the number of failed logins in it), or blocked since some
    second.  Three failed logins (reply 401) inside one burst window block
    the host for the next five minutes; while it is blocked every request
    from it is set aside for the blocked-request log and takes no further
    part in the processing.  A successful login (reply 200) inside the
    burst window forgives the earlier failures. */
module BlockList {

  /** The burst window, `timedelta(seconds=20)`, closed at its end. */
  const BurstSpan: int := 20
  /** The block, `timedelta(minutes=5)`, closed at its end. */
  const Cooldown: int := 300
  /** Failed logins in one burst window that block a host. */
  const Strikes: nat := 3

  datatype HostState =
    | Clean
    | Suspicious(windowStart: int, failures: nat)
    | Blocked(since: int)

  datatype Decision = Allow | Suppress

  /** The state of the host after one of its requests, and whether the
      request was set aside. */
  datatype Outcome = Outcome(next: HostState, decision: Decision)

  /** A tracker holds one or two failures: on the third the host is blocked
      and the tracker dropped. */
  ghost predicate WellFormed(s: HostState)
  {
    s.Suspicious? ==> 1 <= s.failures < Strikes
  }

  /** The tracker logic for a host that is not blocked: a 401 opens a
      tracker, restarts it when its burst window is over, or counts one more
      failure and blocks the host on the third; a 200 inside the burst
      window drops the tracker; every other reply changes nothing. */
  function Respond(s: HostState, t: int, reply: string): (r: HostState)
    requires !s.Blocked?
    ensures WellFormed(s) ==> WellFormed(r)
    ensures r.Blocked? ==> r.since == t && reply == "401"
    ensures reply != "401" && reply != "200" ==> r == s
    ensures reply == "200" ==> r == s || r == Clean
  {
    if reply == "401" then
      match s
      case Suspicious(start, failures) =>
        var tracker := if t > start + BurstSpan then Suspicious(t, 1) else Suspicious(start, failures + 1);
        if tracker.failures == Strikes then Blocked(t) else tracker
      case _ => Suspicious(t, 1)
    else if reply == "200" && s.Suspicious? && t <= s.windowStart + BurstSpan then Clean
    else s
  }

  /** One request from a host at second `t`: a block still in force sets
      the request aside and changes nothing; an expired block is lifted and
      the request goes on to the tracker logic like any other. */
  function Screen(s: HostState, t: int, reply: string): (o: Outcome)
    ensures o.decision == Suppress ==> o.next == s
    ensures WellFormed(s) ==> WellFormed(o.next)
  {
    if s.Blocked? && t <= s.since + Cooldown then Outcome(s, Suppress)
    else Outcome(Respond(if s.Blocked? then Clean else s, t, reply), Allow)
  }

  /** A request is set aside exactly when its host was blocked at most
      five minutes before it, the end second included. */
  lemma SuppressIff(s: HostState, t: int, reply: string)
    ensures Screen(s, t, reply).decision == Suppress <==> s.Blocked? && t <= s.since + Cooldown
  {
  }

  /** Once a block is over it is forgotten: the host answers as a clean
      host would. */
  lemma ExpiredBlockForgotten(since: int, t: int, reply: string)
    requires t > since + Cooldown
    ensures Screen(Blocked(since), t, reply) == Screen(Clean, t, reply)
  {
  }

  /** A request that is let through leaves the host blocked exactly when it
      is the third failed login inside the burst window of a suspicious
      host; the block then starts at that request's second. */
  lemma BlockedOnThirdStrike(s: HostState, t: int, reply: string)
    requires WellFormed(s)
    ensures var o := Screen(s, t, reply);
      o.decision == Allow && o.next.Blocked?
      <==>
      reply == "401" && s.Suspicious? && s.failures == Strikes - 1 && t <= s.windowStart + BurstSpan
    ensures var o := Screen(s, t, reply);
      o.decision == Allow && o.next.Blocked? ==> o.next == Blocked(t)
  {
  }

  /** A first failure opens a window at its own second.  A failed login
      inside the burst window, end second included, counts one more failure
      (the third blocks, see `BlockedOnThirdStrike`); a later one, whatever
      the tracker held, starts a new window with one failure. */
  lemma FailureInBurst(start: int, failures: nat, t: int)
    requires 1 <= failures < Strikes
    ensures Screen(Clean, t, "401") == Outcome(Suspicious(t, 1), Allow)
    ensures t <= start + BurstSpan && failures < Strikes - 1 ==>
      Screen(Suspicious(start, failures), t, "401") == Outcome(Suspicious(start, failures + 1), Allow)
    ensures t > start + BurstSpan ==>
      Screen(Suspicious(start, failures), t, "401") == Outcome(Suspicious(t, 1), Allow)
  {
  }

  /** A successful login inside the burst window drops the tracker; one
      after the window leaves it as it is. */
  lemma SuccessInBurst(start: int, failures: nat, t: int)
    ensures t <= start + BurstSpan ==> Screen(Suspicious(start, failures), t, "200").next == Clean
    ensures t > start + BurstSpan ==> Screen(Suspicious(start, failures), t, "200").next == Suspicious(start, failures)
  {
  }

  /** The outcomes of a host's requests `(second, reply)`, in order,
      starting from state `s`. */
  function Trace(s: HostState, requests: seq<(int, string)>): (r: seq<Outcome>)
    ensures |r| == |requests|
    ensures WellFormed(s) ==> forall i :: 0 <= i < |r| ==> WellFormed(r[i].next)
    decreases |requests|
  {
    if requests == [] then []
    else
      var o := Screen(s, requests[0].0, requests[0].1);
      [o] + Trace(o.next, requests[1..])
  }

  /** The state of a host after its requests `(second, reply)`, in order,
      starting from state `s`. */
  function After(s: HostState, requests: seq<(int, string)>): HostState
    decreases |requests|
  {
    if requests == [] then s
    else After(Screen(s, requests[0].0, requests[0].1).next, requests[1..])
  }

  /** The last outcome of a trace leaves the host in the state `After`
      computes. */
  lemma {:induction false} TraceEndsAfter(s: HostState, requests: seq<(int, string)>)
    requires requests != []
    ensures Trace(s, requests)[|requests| - 1].next == After(s, requests)
    decreases |requests|
  {
    var o := Screen(s, requests[0].0, requests[0].1);
    if |requests| > 1 {
      TraceEndsAfter(o.next, requests[1..]);
    }
  }

  /** One more request moves the host on from where its earlier requests
      left it. */
  lemma {:induction false} AfterSnoc(s: HostState, requests: seq<(int, string)>, x: (int, string))
    ensures After(s, requests + [x]) == Screen(After(s, requests), x.0, x.1).next
    decreases |requests|
  {
    if requests == [] {
      assert ([x])[1..] == [];
    } else {
      var o := Screen(s, requests[0].0, requests[0].1);
      assert (requests + [x])[1..] == requests[1..] + [x];
      AfterSnoc(o.next, requests[1..], x);
    }
  }

  /** Three failed logins from a clean host within twenty seconds of the
      first block it at the third. */
  lemma ThreeStrikes(t1: int, t2: int, t3: int)
    requires t1 <= t2 <= t3 <= t1 + BurstSpan
    ensures var r := Trace(Clean, [(t1, "401"), (t2, "401"), (t3, "401")]);
      && r[0] == Outcome(Suspicious(t1, 1), Allow)
      && r[1] == Outcome(Suspicious(t1, 2), Allow)
      && r[2] == Outcome(Blocked(t3), Allow)
  {
    var rq := [(t1, "401"), (t2, "401"), (t3, "401")];
    var s1, s2, s3 := Suspicious(t1, 1), Suspicious(t1, 2), Blocked(t3);
    assert rq[1..] == [(t2, "401"), (t3, "401")];
    assert rq[2..] == [(t3, "401")];
    assert Trace(s3, rq[3..]) == [];
    assert Trace(s2, rq[2..]) == [Outcome(s3, Allow)];
    assert Trace(s1, rq[1..]) == [Outcome(s2, Allow), Outcome(s3, Allow)];
  }

  /** Every request a blocked host sends within five minutes of the block,
      whatever its reply, is set aside and leaves the block as it is. */
  lemma {:induction false} BlockHolds(since: int, requests: seq<(int, string)>)
    requires forall i :: 0 <= i < |requests| ==> requests[i].0 <= since + Cooldown
    ensures forall i :: 0 <= i < |requests| ==> Trace(Blocked(since), requests)[i] == Outcome(Blocked(since), Suppress)
    decreases |requests|
  {
    if requests != [] {
      BlockHolds(since, requests[1..]);
      var r := Trace(Blocked(since), requests);
      assert r == [Outcome(Blocked(since), Suppress)] + Trace(Blocked(since), requests[1..]);
    }
  }

  /** Failed logins at `T`, `T + 5` and `T + 10` block the host at `T + 10`,
      and the successful login that follows at `T + 11` is set aside. */
  lemma BlockScenario(T: int)
    ensures var r := Trace(Clean, [(T, "401"), (T + 5, "401"), (T + 10, "401"), (T + 11, "200")]);
      && r[2] == Outcome(Blocked(T + 10), Allow)
      && r[3] == Outcome(Blocked(T + 10), Suppress)
  {
    var rq := [(T, "401"), (T + 5, "401"), (T + 10, "401"), (T + 11, "200")];
    var s1, s2, s3 := Suspicious(T, 1), Suspicious(T, 2), Blocked(T + 10);
    assert rq[1..] == [(T + 5, "401"), (T + 10, "401"), (T + 11, "200")];
    assert rq[2..] == [(T + 10, "401"), (T + 11, "200")];
    assert rq[3..] == [(T + 11, "200")];
    assert Trace(s3, rq[4..]) == [];
    assert Trace(s3, rq[3..]) == [Outcome(s3, Suppress)];
    assert Trace(s2, rq[2..]) == [Outcome(s3, Allow), Outcome(s3, Suppress)];
    assert Trace(s1, rq[1..]) == [Outcome(s2, Allow), Outcome(s3, Allow), Outcome(s3, Suppress)];
  }
}
