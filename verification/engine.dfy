/** The single pass of the log processor over already-parsed requests.
    Every request is counted for its host (feature 1), its resource's bytes
    (feature 2) and its second on the timeline (feature 3) before the block
    list (feature 4) looks at it; a request the block list sets aside is
    logged verbatim and skips the rest, in particular the optional per-host
    bandwidth (feature 5).  After the pass the report holds the ten top
    hosts, resources and hours, the blocked requests and, when asked for,
    the ten hosts with the most bytes. */
module LogEngine {
  import opened Ranking
  import opened Tallies
  import opened Timeline
  import opened BusiestHours
  import opened BlockList

  /** The bytes field of a log line: `-` or a number. */
  datatype Size = Dash | Sent(n: nat)

  /** The bytes a request delivered; `-` counts as none. */
  function BytesOf(s: Size): (r: nat)
    ensures s.Sent? ==> r == s.n
    ensures r == 0 <==> s == Dash || s == Sent(0)
  {
    match s
    case Dash => 0
    case Sent(n) => n
  }

  /** A parsed log line: the raw line, the requesting host, the second of
      the request, the resource, the reply code as written and the bytes. */
  datatype Event = Event(line: string, host: string, time: int, resource: string, reply: string, size: Size)

  /** An entry of the tracker map: `[windowStart, failures]`. */
  datatype Tracker = Tracker(windowStart: int, failures: nat)

  datatype Option<T> = None | Some(value: T)

  datatype Report = Report(
    hosts: seq<Ranked<string>>,
    resources: seq<Ranked<string>>,
    hours: seq<Ranked<int>>,
    blocked: seq<string>,
    bandwidth: Option<seq<Ranked<string>>>)

  /** The block-list state of host `h` read off the two maps. */
  function HostView(suspects: map<string, Tracker>, blocked: map<string, int>, h: string): HostState
  {
    if h in blocked then Blocked(blocked[h])
    else if h in suspects then Suspicious(suspects[h].windowStart, suspects[h].failures)
    else Clean
  }

  /** Feature 3 for one line: the first line, or a second other than the
      last bucket's, opens a bucket; a repeated second adds one to the last
      bucket. */
  method Record(hours: seq<Bucket>, ln: nat, t: int) returns (hours': seq<Bucket>)
    requires ln >= 1 && (hours == [] <==> ln == 1)
    ensures hours' == Coalesce(hours, t)
  {
    if ln == 1 || hours[|hours| - 1].time != t {
      hours' := hours + [Bucket(t, 1)];
    } else {
      hours' := hours[|hours| - 1 := Bucket(t, hours[|hours| - 1].count + 1)];
    }
  }

  /** Feature 4 for one line: a host blocked at most five minutes ago has
      the line set aside and nothing changes; an older block is deleted and
      the line goes on to the tracker logic. */
  method Screening(suspects: map<string, Tracker>, blocked: map<string, int>, e: Event)
    returns (suspects': map<string, Tracker>, blocked': map<string, int>, d: Decision)
    requires suspects.Keys !! blocked.Keys
    ensures suspects'.Keys !! blocked'.Keys
    ensures Outcome(HostView(suspects', blocked', e.host), d) == Screen(HostView(suspects, blocked, e.host), e.time, e.reply)
    ensures forall h :: h != e.host ==> HostView(suspects', blocked', h) == HostView(suspects, blocked, h)
  {
    suspects', blocked' := suspects, blocked;
    if e.host in blocked' {
      if e.time <= blocked'[e.host] + Cooldown {
        return suspects', blocked', Suppress;
      } else {
        blocked' := blocked' - {e.host};
      }
    }
    suspects', blocked' := Track(suspects', blocked', e);
    d := Allow;
  }

  /** Feature 4 for a host that is not blocked (any expired block already
      deleted): a 401 opens a tracker, restarts one whose burst window is
      over, or counts one more failure and on the third moves the host from
      the tracker map to the blocked map; a 200 inside the burst window
      deletes the tracker. */
  method Track(suspects: map<string, Tracker>, blocked: map<string, int>, e: Event)
    returns (suspects': map<string, Tracker>, blocked': map<string, int>)
    requires suspects.Keys !! blocked.Keys && e.host !in blocked
    ensures suspects'.Keys !! blocked'.Keys
    ensures HostView(suspects', blocked', e.host) == Respond(HostView(suspects, blocked, e.host), e.time, e.reply)
    ensures forall h :: h != e.host ==> HostView(suspects', blocked', h) == HostView(suspects, blocked, h)
  {
    var ip, dt := e.host, e.time;
    suspects', blocked' := suspects, blocked;
    if e.reply == "401" {
      if ip in suspects' {
        var stat := suspects'[ip];
        if dt > stat.windowStart + BurstSpan {
          stat := Tracker(dt, 1);
        } else {
          stat := stat.(failures := stat.failures + 1);
        }
        if stat.failures == Strikes {
          suspects' := suspects' - {ip};
          blocked' := blocked'[ip := dt];
        } else {
          suspects' := suspects'[ip := stat];
        }
      } else {
        suspects' := suspects'[ip := Tracker(dt, 1)];
      }
    }
    if e.reply == "200" && ip in suspects' && dt <= suspects'[ip].windowStart + BurstSpan {
      suspects' := suspects' - {ip};
    }
  }

  /** The block-list state of `h` in a map of host states; a host the map
      does not list is clean. */
  function StateOf(states: map<string, HostState>, h: string): HostState
  {
    if h in states then states[h] else Clean
  }

  /** What the block list makes of a log: the state of every host, the
      lines it sets aside, and the `(host, bytes)` of the requests it lets
      through. */
  datatype Screened = Screened(states: map<string, HostState>, suppressed: seq<string>, allowed: seq<(string, nat)>)

  /** The block list run over the requests of a log in order, each host's
      requests going through `Screen` from a clean start. */
  function ScreenLog(es: seq<Event>): (r: Screened)
    ensures |r.suppressed| + |r.allowed| == |es|
    ensures forall h :: WellFormed(StateOf(r.states, h))
  {
    if es == [] then Screened(map[], [], [])
    else
      var prev := ScreenLog(es[..|es| - 1]);
      ScreenStep(prev, es[|es| - 1])
  }

  /** One more request through the block list: it changes only its own
      host's state, and is either set aside or let through. */
  function ScreenStep(prev: Screened, e: Event): (r: Screened)
    ensures |r.suppressed| + |r.allowed| == |prev.suppressed| + |prev.allowed| + 1
    ensures forall h :: h != e.host ==> StateOf(r.states, h) == StateOf(prev.states, h)
    ensures (forall h :: WellFormed(StateOf(prev.states, h))) ==> forall h :: WellFormed(StateOf(r.states, h))
  {
    var o := Screen(StateOf(prev.states, e.host), e.time, e.reply);
    Screened(
      prev.states[e.host := o.next],
      if o.decision == Suppress then prev.suppressed + [e.line] else prev.suppressed,
      if o.decision == Allow then prev.allowed + [(e.host, BytesOf(e.size))] else prev.allowed)
  }

  /** One request per event, charged to its host. */
  function HostCharges(es: seq<Event>): seq<(string, nat)>
  {
    if es == [] then [] else HostCharges(es[..|es| - 1]) + [(es[|es| - 1].host, 1)]
  }

  /** The bytes of each event, charged to its resource. */
  function ResourceCharges(es: seq<Event>): seq<(string, nat)>
  {
    if es == [] then [] else ResourceCharges(es[..|es| - 1]) + [(es[|es| - 1].resource, BytesOf(es[|es| - 1].size))]
  }

  /** The seconds of the events, in log order. */
  function TimesOf(es: seq<Event>): (ts: seq<int>)
    ensures |ts| == |es|
    ensures forall k :: 0 <= k < |es| ==> ts[k] == es[k].time
  {
    if es == [] then [] else TimesOf(es[..|es| - 1]) + [es[|es| - 1].time]
  }

  /** The number of requests from host `h`. */
  function RequestsFrom(es: seq<Event>, h: string): nat
  {
    if es == [] then 0
    else RequestsFrom(es[..|es| - 1], h) + (if es[|es| - 1].host == h then 1 else 0)
  }

  /** The bytes delivered for resource `res`. */
  function BytesFor(es: seq<Event>, res: string): nat
  {
    if es == [] then 0
    else BytesFor(es[..|es| - 1], res) + (if es[|es| - 1].resource == res then BytesOf(es[|es| - 1].size) else 0)
  }

  /** The requests are logged in time order. */
  ghost predicate Chronological(es: seq<Event>)
  {
    Sorted(TimesOf(es))
  }

  /** Every request counts once for its host, blocked or not. */
  lemma {:induction false} HostTally(es: seq<Event>)
    ensures forall h :: Accumulate(HostCharges(es)).Get(h) == RequestsFrom(es, h)
    ensures Accumulate(HostCharges(es)).Total() == |es|
  {
    if es != [] {
      HostTally(es[..|es| - 1]);
    }
  }

  /** Every request adds its bytes to its resource, blocked or not. */
  lemma {:induction false} ResourceTally(es: seq<Event>)
    ensures forall res :: Accumulate(ResourceCharges(es)).Get(res) == BytesFor(es, res)
  {
    if es != [] {
      ResourceTally(es[..|es| - 1]);
    }
  }

  /** The `(second, reply)` of the requests from host `h`, in log order. */
  function HostRequests(es: seq<Event>, h: string): seq<(int, string)>
  {
    if es == [] then []
    else
      var e := es[|es| - 1];
      HostRequests(es[..|es| - 1], h) + if e.host == h then [(e.time, e.reply)] else []
  }

  /** The block list treats each host on its own: a host's state after a
      log is the state its own requests lead to from a clean start. */
  lemma {:induction false} ScreenLogPerHost(es: seq<Event>, h: string)
    ensures StateOf(ScreenLog(es).states, h) == After(Clean, HostRequests(es, h))
  {
    if es != [] {
      var front, e := es[..|es| - 1], es[|es| - 1];
      ScreenLogPerHost(front, h);
      assert ScreenLog(es) == ScreenStep(ScreenLog(front), e);
      if e.host == h {
        assert HostRequests(es, h) == HostRequests(front, h) + [(e.time, e.reply)];
        AfterSnoc(Clean, HostRequests(front, h), (e.time, e.reply));
      } else {
        assert HostRequests(es, h) == HostRequests(front, h);
      }
    }
  }

  /** A line is set aside exactly when its host's earlier requests left it
      blocked at most five minutes before the line's second; a line set
      aside adds nothing to the bandwidth, any other line adds its bytes to
      its host. */
  lemma LineSetAside(es: seq<Event>)
    requires es != []
    ensures var front, e := es[..|es| - 1], es[|es| - 1];
      var s := After(Clean, HostRequests(front, e.host));
      if s.Blocked? && e.time <= s.since + Cooldown then
        ScreenLog(es).suppressed == ScreenLog(front).suppressed + [e.line]
        && ScreenLog(es).allowed == ScreenLog(front).allowed
      else
        ScreenLog(es).suppressed == ScreenLog(front).suppressed
        && ScreenLog(es).allowed == ScreenLog(front).allowed + [(e.host, BytesOf(e.size))]
  {
    var front, e := es[..|es| - 1], es[|es| - 1];
    ScreenLogPerHost(front, e.host);
    SuppressIff(StateOf(ScreenLog(front).states, e.host), e.time, e.reply);
  }

  /** While the maps mirror the block list, every tracker holds one or two
      failures. */
  lemma TrackersHoldOneOrTwo(suspects: map<string, Tracker>, blocked: map<string, int>, es: seq<Event>)
    requires suspects.Keys !! blocked.Keys && Mirrors(suspects, blocked, ScreenLog(es).states)
    ensures forall h :: h in suspects ==> 1 <= suspects[h].failures < Strikes
  {
    forall h | h in suspects
      ensures 1 <= suspects[h].failures < Strikes
    {
      assert HostView(suspects, blocked, h) == StateOf(ScreenLog(es).states, h);
      assert WellFormed(StateOf(ScreenLog(es).states, h));
    }
  }

  /** `processLog` without its file handling: the pass over the parsed
      lines, then the selections the output files are written from. */
  method ProcessLog(events: seq<Event>, scrape: bool) returns (r: Report)
    requires events != [] && Chronological(events)
    ensures Increasing(Bucketed(TimesOf(events)))
    ensures r.hosts == TopTen(Accumulate(HostCharges(events)))
    ensures r.resources == TopTen(Accumulate(ResourceCharges(events)))
    ensures r.hours == TopK(AllWindows(Bucketed(TimesOf(events))), TopCount)
    ensures r.blocked == ScreenLog(events).suppressed
    ensures r.bandwidth == if scrape then Some(TopTen(Accumulate(ScreenLog(events).allowed))) else None
  {
    var hosts, resources, hours, blockedLines, hostBytes := Scan(events, scrape);
    BucketedIncreasing(TimesOf(events));
    var top := ComputeHours(hours);
    var bandwidth := if scrape then Some(TopTen(hostBytes)) else None;
    r := Report(TopTen(hosts), TopTen(resources), top, blockedLines, bandwidth);
  }

  /** The pass over the lines of the log: every line counts for its host,
      its resource and its second; the block list then either sets the line
      aside or lets it through to the per-host bandwidth. */
  method Scan(events: seq<Event>, scrape: bool)
    returns (hosts: Tally, resources: Tally, hours: seq<Bucket>, blockedLines: seq<string>, hostBytes: Tally)
    ensures hosts == Accumulate(HostCharges(events))
    ensures resources == Accumulate(ResourceCharges(events))
    ensures hours == Bucketed(TimesOf(events))
    ensures blockedLines == ScreenLog(events).suppressed
    ensures hostBytes == if scrape then Accumulate(ScreenLog(events).allowed) else Empty
  {
    hosts, resources, hostBytes := Empty, Empty, Empty;
    hours := [];
    var suspects: map<string, Tracker> := map[];
    var blocked: map<string, int> := map[];
    blockedLines := [];
    var ln: nat := 0;
    while ln < |events|
      invariant ln <= |events|
      invariant hosts == Accumulate(HostCharges(events[..ln]))
      invariant resources == Accumulate(ResourceCharges(events[..ln]))
      invariant hours == Bucketed(TimesOf(events[..ln]))
      invariant suspects.Keys !! blocked.Keys
      invariant forall h :: h in suspects ==> 1 <= suspects[h].failures < Strikes
      invariant Mirrors(suspects, blocked, ScreenLog(events[..ln]).states)
      invariant blockedLines == ScreenLog(events[..ln]).suppressed
      invariant hostBytes == if scrape then Accumulate(ScreenLog(events[..ln]).allowed) else Empty
    {
      var e := events[ln];
      LogStep(events, ln);
      ghost var prev := ScreenLog(events[..ln]);
      ln := ln + 1;
      // Features 1 and 2
      hosts := hosts.Add(e.host, 1);
      resources := resources.Add(e.resource, BytesOf(e.size));
      // Feature 3
      hours := Record(hours, ln, e.time);
      // Feature 4
      ghost var suspects0, blocked0 := suspects, blocked;
      var d;
      suspects, blocked, d := Screening(suspects, blocked, e);
      MirrorStep(suspects0, blocked0, suspects, blocked, d, prev, e);
      TrackersHoldOneOrTwo(suspects, blocked, events[..ln]);
      if d == Suppress {
        blockedLines := blockedLines + [e.line];
        continue;
      }
      // Feature 5
      if scrape {
        AccumulateSnoc(prev.allowed, (e.host, BytesOf(e.size)));
        hostBytes := hostBytes.Add(e.host, BytesOf(e.size));
      }
    }
    assert events[..ln] == events;
  }

  /** The two maps of the processor hold the state of every host. */
  ghost predicate Mirrors(suspects: map<string, Tracker>, blocked: map<string, int>, states: map<string, HostState>)
  {
    forall h :: HostView(suspects, blocked, h) == StateOf(states, h)
  }

  /** A request that moves its own host's state as `Screen` does, and no
      other host's, keeps the maps in step with the block list, and the
      decision taken on the maps is the block list's. */
  lemma MirrorStep(suspects: map<string, Tracker>, blocked: map<string, int>,
                   suspects': map<string, Tracker>, blocked': map<string, int>, d: Decision, prev: Screened, e: Event)
    requires Mirrors(suspects, blocked, prev.states)
    requires Outcome(HostView(suspects', blocked', e.host), d) == Screen(HostView(suspects, blocked, e.host), e.time, e.reply)
    requires forall h :: h != e.host ==> HostView(suspects', blocked', h) == HostView(suspects, blocked, h)
    ensures Mirrors(suspects', blocked', ScreenStep(prev, e).states)
    ensures d == Screen(StateOf(prev.states, e.host), e.time, e.reply).decision
    ensures ScreenStep(prev, e).suppressed == if d == Suppress then prev.suppressed + [e.line] else prev.suppressed
    ensures ScreenStep(prev, e).allowed == if d == Allow then prev.allowed + [(e.host, BytesOf(e.size))] else prev.allowed
  {
    assert HostView(suspects, blocked, e.host) == StateOf(prev.states, e.host);
  }

  /** How each summary of the first `n + 1` events extends that of the
      first `n`. */
  lemma LogStep(events: seq<Event>, n: nat)
    requires n < |events|
    ensures var front, e := events[..n], events[n];
      && Accumulate(HostCharges(events[..n + 1])) == Accumulate(HostCharges(front)).Add(e.host, 1)
      && Accumulate(ResourceCharges(events[..n + 1])) == Accumulate(ResourceCharges(front)).Add(e.resource, BytesOf(e.size))
      && Bucketed(TimesOf(events[..n + 1])) == Coalesce(Bucketed(TimesOf(front)), e.time)
      && ScreenLog(events[..n + 1]) == ScreenStep(ScreenLog(front), e)
  {
    var front, e := events[..n], events[n];
    assert events[..n + 1][..n] == front;
    AccumulateSnoc(HostCharges(front), (e.host, 1));
    AccumulateSnoc(ResourceCharges(front), (e.resource, BytesOf(e.size)));
    assert TimesOf(events[..n + 1]) == TimesOf(front) + [e.time];
    assert (TimesOf(front) + [e.time])[..n] == TimesOf(front);
  }
}
