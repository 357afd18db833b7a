/** `TimeoutManager` (io-reactor/src/timeouts.rs): a vector of timers kept latest first, into
    which a timer is admitted only if no other timer is closer than `threshold`. */
module Timeouts {
  import opened Base

  /** A `std::time::Duration`, in nanoseconds. */
  type Duration = nat

  datatype Timer<K> = Timer(key: K, at: Duration)

  /** The test by which `register` refuses a deadline. */
  predicate Crowded<K(==)>(timers: seq<Timer<K>>, threshold: Duration, time: Duration)
  {
    exists i | 0 <= i < |timers| ::
      if timers[i].at < time then time - timers[i].at < threshold else timers[i].at - time < threshold
  }

  ghost predicate LatestFirst<K>(timers: seq<Timer<K>>)
  {
    forall i, j | 0 <= i < j < |timers| :: timers[i].at >= timers[j].at
  }

  predicate Apart(a: Duration, b: Duration, threshold: Duration)
  {
    a + threshold <= b || b + threshold <= a
  }

  /** Equal, or strictly less than a threshold apart. */
  predicate Covers(a: Duration, b: Duration, threshold: Duration)
  {
    a == b || (a < b + threshold && b < a + threshold)
  }

  ghost predicate Spaced<K>(timers: seq<Timer<K>>, threshold: Duration)
  {
    forall i, j | 0 <= i < j < |timers| :: Apart(timers[i].at, timers[j].at, threshold)
  }

  /** The timers with a deadline reached at `time`, in vector order. */
  function Due<K>(timers: seq<Timer<K>>, time: Duration): seq<Timer<K>>
  {
    if timers == [] then []
    else (if timers[0].at <= time then [timers[0]] else []) + Due(timers[1..], time)
  }

  /** The timers with a deadline after `time`, in vector order. */
  function Later<K>(timers: seq<Timer<K>>, time: Duration): seq<Timer<K>>
  {
    if timers == [] then []
    else (if timers[0].at <= time then [] else [timers[0]]) + Later(timers[1..], time)
  }

  ghost predicate DueFrom<K>(timers: seq<Timer<K>>, n: nat, time: Duration)
  {
    forall i | n <= i < |timers| :: timers[i].at <= time
  }

  function Reversed<K>(timers: seq<Timer<K>>): (r: seq<Timer<K>>)
    ensures |r| == |timers|
  {
    if timers == [] then [] else Reversed(timers[1..]) + [timers[0]]
  }

  function Keys<K>(timers: seq<Timer<K>>): (r: seq<K>)
    ensures |r| == |timers|
  {
    if timers == [] then [] else [timers[0].key] + Keys(timers[1..])
  }

  /** What `register` does to the vector and answers. The order of timers with equal deadlines is
      open, as the source sorts with an unstable sort. */
  ghost predicate Registered<K>(before: seq<Timer<K>>, threshold: Duration, timer: Timer<K>,
                                after: seq<Timer<K>>, accepted: bool)
  {
    if Crowded(before, threshold, timer.at) then
      !accepted && after == before
    else
      accepted && LatestFirst(after) && multiset(after) == multiset(before + [timer])
  }

  /** What `register` does to the vector, whatever it answers. */
  ghost predicate Requested<K>(before: seq<Timer<K>>, threshold: Duration, timer: Timer<K>, after: seq<Timer<K>>)
  {
    Registered(before, threshold, timer, after, !Crowded(before, threshold, timer.at))
  }

  predicate StillPending<K(==)>(before: seq<Timer<K>>, after: seq<Timer<K>>)
  {
    forall timer | timer in before :: timer in after
  }

  /** Registering a timer removes none. */
  lemma RequestKeepsPending<K>(before: seq<Timer<K>>, threshold: Duration, timer: Timer<K>, after: seq<Timer<K>>)
    requires Requested(before, threshold, timer, after)
    ensures StillPending(before, after)
  {
    forall pending | pending in before
      ensures pending in after
    {
      assert pending in multiset(before + [timer]);
    }
  }

  /** A requested deadline is covered, whether it was admitted or refused. */
  lemma RequestIsCovered<K>(before: seq<Timer<K>>, threshold: Duration, timer: Timer<K>, after: seq<Timer<K>>)
    requires Requested(before, threshold, timer, after)
    ensures CoveredBy(after, threshold, timer.at)
    ensures forall other | other in after :: other in before || other == timer
  {
    if Crowded(before, threshold, timer.at) {
      var i :| 0 <= i < |before| && Covers(before[i].at, timer.at, threshold);
      assert before[i] in after;
    } else {
      assert timer in multiset(before + [timer]);
      assert timer in after;
      forall other | other in after
        ensures other in before || other == timer
      {
        assert other in multiset(after);
      }
    }
  }

  /** At `now`, after exactly this wait the first of the timers becomes due; none is left to wait for
      once one is due. */
  ghost predicate IsWait<K>(timers: seq<Timer<K>>, now: Duration, wait: Duration)
  {
    && (exists timer | timer in timers :: timer.at == now + wait || (timer.at < now && wait == 0))
    && forall timer | timer in timers :: now + wait <= timer.at || (timer.at < now && wait == 0)
  }

  /** The least wait, or `idle` if there are no timers. */
  ghost predicate IsLeastWait<K>(timers: seq<Timer<K>>, now: Duration, idle: Duration, wait: Duration)
  {
    if timers == [] then wait == idle else IsWait(timers, now, wait)
  }

  class TimeoutManager<K(==)> {
    var timeouts: seq<Timer<K>>
    const threshold: Duration

    ghost predicate Valid()
      reads this
    {
      LatestFirst(timeouts) && Spaced(timeouts, threshold)
    }

    constructor (threshold: Duration)
      ensures Valid() && timeouts == [] && this.threshold == threshold
    {
      timeouts := [];
      this.threshold := threshold;
    }

    method Register(key: K, time: Duration) returns (accepted: bool)
      requires Valid()
      modifies this
      ensures Valid()
      ensures Registered(old(timeouts), threshold, Timer(key, time), timeouts, accepted)
      ensures accepted ==> forall timer | timer in old(timeouts) :: Apart(timer.at, time, threshold)
      ensures !accepted ==> exists timer | timer in old(timeouts) :: !Apart(timer.at, time, threshold)
    {
      if Crowded(timeouts, threshold, time) {
        var i :| 0 <= i < |timeouts| &&
          if timeouts[i].at < time then time - timeouts[i].at < threshold else timeouts[i].at - time < threshold;
        assert timeouts[i] in timeouts;
        return false;
      }
      var pushed := timeouts + [Timer(key, time)];
      timeouts := SortLatestFirst(pushed);
      RegisteredKeepsSpacing(old(timeouts), threshold, Timer(key, time), timeouts, true);
      return true;
    }

    method Next(now: Duration) returns (wait: Option<Duration>)
      requires Valid()
      ensures wait.None? <==> timeouts == []
      ensures wait.Some? ==> IsWait(timeouts, now, wait.value)
    {
      if |timeouts| == 0 {
        return None;
      }
      var last := timeouts[|timeouts| - 1];
      assert last in timeouts;
      if last.at >= now {
        return Some(last.at - now);
      } else {
        return Some(0);
      }
    }

    method Check(time: Duration, fired: seq<K>) returns (firedNow: seq<K>, count: nat)
      requires Valid()
      modifies this
      ensures Valid()
      ensures timeouts == Later(old(timeouts), time)
      ensures firedNow == fired + Keys(Reversed(Due(old(timeouts), time)))
      ensures count == |Due(old(timeouts), time)|
    {
      firedNow := PopDue(time, fired);
      CheckKeepsSpacing(old(timeouts), threshold, time);
      count := |firedNow| - |fired|;
    }

    method PopDue(time: Duration, fired: seq<K>) returns (firedNow: seq<K>)
      requires LatestFirst(timeouts)
      modifies this
      ensures timeouts == Later(old(timeouts), time)
      ensures firedNow == fired + Keys(Reversed(Due(old(timeouts), time)))
    {
      ghost var initial := timeouts;
      firedNow := fired;
      ghost var n := |timeouts|;
      while timeouts != []
        invariant 0 <= n <= |initial| && timeouts == initial[..n]
        invariant DueFrom(initial, n, time)
        invariant firedNow == fired + Keys(Reversed(initial[n..]))
        decreases |timeouts|
      {
        var timer := timeouts[|timeouts| - 1];
        timeouts := timeouts[..|timeouts| - 1];
        if time >= timer.at {
          FireOne(fired, initial, n);
          firedNow := firedNow + [timer.key];
          n := n - 1;
        } else {
          timeouts := timeouts + [timer];
          break;
        }
      }
      SplitAtDeadline(initial, n, time);
    }
  }

  /** `sort_unstable_by` with the comparison reversed: the result is a permutation, latest first. */
  method SortLatestFirst<K(==)>(timers: seq<Timer<K>>) returns (sorted: seq<Timer<K>>)
    ensures LatestFirst(sorted) && multiset(sorted) == multiset(timers)
  {
    sorted := [];
    for i := 0 to |timers|
      invariant LatestFirst(sorted)
      invariant multiset(sorted) == multiset(timers[..i])
    {
      assert timers[..i + 1] == timers[..i] + [timers[i]];
      sorted := Place(sorted, timers[i]);
    }
    assert timers[..|timers|] == timers;
  }

  method Place<K(==)>(sorted: seq<Timer<K>>, timer: Timer<K>) returns (placed: seq<Timer<K>>)
    requires LatestFirst(sorted)
    ensures LatestFirst(placed) && multiset(placed) == multiset(sorted) + multiset{timer}
  {
    var pos := 0;
    while pos < |sorted| && sorted[pos].at >= timer.at
      invariant 0 <= pos <= |sorted|
      invariant pos > 0 ==> sorted[pos - 1].at >= timer.at
    {
      pos := pos + 1;
    }
    placed := sorted[..pos] + [timer] + sorted[pos..];
    PlacedInOrder(sorted, timer, pos);
    assert sorted == sorted[..pos] + sorted[pos..];
  }

  lemma PlacedInOrder<K>(sorted: seq<Timer<K>>, timer: Timer<K>, pos: nat)
    requires LatestFirst(sorted) && pos <= |sorted|
    requires pos > 0 ==> sorted[pos - 1].at >= timer.at
    requires pos < |sorted| ==> sorted[pos].at <= timer.at
    ensures LatestFirst(sorted[..pos] + [timer] + sorted[pos..])
  {
    var placed := sorted[..pos] + [timer] + sorted[pos..];
    forall i, j | 0 <= i < j < |placed|
      ensures placed[i].at >= placed[j].at
    {
      if j < pos {
        assert placed[i] == sorted[i] && placed[j] == sorted[j];
      } else if j == pos {
        assert placed[i] == sorted[i] && placed[j] == timer;
        assert i < pos - 1 ==> sorted[i].at >= sorted[pos - 1].at;
      } else {
        assert placed[j] == sorted[j - 1];
        assert j - 1 > pos ==> sorted[pos].at >= sorted[j - 1].at;
        if i < pos {
          assert placed[i] == sorted[i];
        } else if i == pos {
          assert placed[i] == timer;
        } else {
          assert placed[i] == sorted[i - 1];
        }
      }
    }
  }

  // ---------------------------------------------------------------- Lemmas about one call

  lemma SeparatedFrom<K>(timers: seq<Timer<K>>, threshold: Duration, timer: Timer<K>)
    requires Spaced(timers, threshold) && !Crowded(timers, threshold, timer.at)
    ensures Spaced(timers + [timer], threshold)
  {
  }

  /** Spacing is a property of the multiset of timers, so sorting keeps it. */
  lemma SpacedPermutation<K>(a: seq<Timer<K>>, b: seq<Timer<K>>, threshold: Duration)
    requires Spaced(a, threshold) && multiset(a) == multiset(b)
    ensures Spaced(b, threshold)
  {
    forall i, j | 0 <= i < j < |b|
      ensures Apart(b[i].at, b[j].at, threshold)
    {
      var x, y := b[i], b[j];
      PairInMultiset(b, i, j);
      var i', j' := PairFromMultiset(a, x, y);
    }
  }

  lemma PairInMultiset<T>(s: seq<T>, i: nat, j: nat)
    requires i < j < |s|
    ensures multiset{s[i], s[j]} <= multiset(s)
  {
    assert s == s[..i] + [s[i]] + s[i + 1..j] + [s[j]] + s[j + 1..];
  }

  lemma RemoveAt<T>(s: seq<T>, i: nat)
    requires i < |s|
    ensures multiset(s) == multiset(s[..i] + s[i + 1..]) + multiset{s[i]}
  {
    assert s == s[..i] + ([s[i]] + s[i + 1..]);
  }

  lemma PairFromMultiset<T>(s: seq<T>, x: T, y: T) returns (i: nat, j: nat)
    requires multiset{x, y} <= multiset(s)
    ensures i < |s| && j < |s| && i != j && s[i] == x && s[j] == y
  {
    assert multiset{x, y}[x] > 0;
    i :| i < |s| && s[i] == x;
    RemoveAt(s, i);
    var rest := s[..i] + s[i + 1..];
    assert multiset{x, y} == multiset{y} + multiset{x};
    assert multiset(rest)[y] > 0;
    var k :| 0 <= k < |rest| && rest[k] == y;
    j := if k < i then k else k + 1;
  }

  lemma RegisteredKeepsSpacing<K>(before: seq<Timer<K>>, threshold: Duration, timer: Timer<K>,
                                  after: seq<Timer<K>>, accepted: bool)
    requires LatestFirst(before) && Spaced(before, threshold)
    requires Registered(before, threshold, timer, after, accepted)
    ensures LatestFirst(after) && Spaced(after, threshold)
  {
    if accepted {
      SeparatedFrom(before, threshold, timer);
      SpacedPermutation(before + [timer], after, threshold);
    }
  }

  lemma FireOne<K>(fired: seq<K>, timers: seq<Timer<K>>, n: nat)
    requires 0 < n <= |timers|
    ensures fired + Keys(Reversed(timers[n - 1..])) ==
            fired + Keys(Reversed(timers[n..])) + [timers[n - 1].key]
  {
    assert timers[n - 1..][1..] == timers[n..];
    KeysSnoc(Reversed(timers[n..]), timers[n - 1]);
  }

  lemma {:induction false} SplitAtDeadline<K>(timers: seq<Timer<K>>, n: nat, time: Duration)
    requires LatestFirst(timers) && n <= |timers|
    requires DueFrom(timers, n, time)
    requires n > 0 ==> timers[n - 1].at > time
    ensures Later(timers, time) == timers[..n] && Due(timers, time) == timers[n..]
  {
    if timers != [] {
      if n > 0 {
        SplitAtDeadline(timers[1..], n - 1, time);
      } else {
        SplitAtDeadline(timers[1..], 0, time);
      }
    }
  }

  lemma {:induction false} DueAndLaterPartition<K>(timers: seq<Timer<K>>, time: Duration)
    ensures multiset(Due(timers, time)) + multiset(Later(timers, time)) == multiset(timers)
    ensures forall t | t in Due(timers, time) :: t in timers && t.at <= time
    ensures forall t | t in Later(timers, time) :: t in timers && t.at > time
  {
    if timers != [] {
      DueAndLaterPartition(timers[1..], time);
      assert timers == [timers[0]] + timers[1..];
    }
  }

  /** In a sorted vector the due timers are a suffix. */
  lemma SplitPoint<K>(timers: seq<Timer<K>>, time: Duration) returns (n: nat)
    requires LatestFirst(timers)
    ensures n <= |timers| && Later(timers, time) == timers[..n] && Due(timers, time) == timers[n..]
  {
    n := |timers|;
    while n > 0 && timers[n - 1].at <= time
      invariant 0 <= n <= |timers|
      invariant DueFrom(timers, n, time)
    {
      n := n - 1;
    }
    SplitAtDeadline(timers, n, time);
  }

  /** Exact firing: a check conserves the timers as a multiset, fires those and only those whose
      deadline is reached, earliest deadline first, and leaves nothing that is due. */
  lemma ExactFiring<K>(timers: seq<Timer<K>>, time: Duration)
    requires LatestFirst(timers)
    ensures var fired := Reversed(Due(timers, time));
            && multiset(fired) + multiset(Later(timers, time)) == multiset(timers)
            && (forall t | t in fired :: t.at <= time)
            && EarliestFirst(fired)
    ensures LatestFirst(Later(timers, time))
    ensures forall t | t in Later(timers, time) :: t.at > time
    ensures forall wait | Later(timers, time) != [] && IsWait(Later(timers, time), time, wait) :: wait > 0
  {
    DueAndLaterPartition(timers, time);
    var n := SplitPoint(timers, time);
    ReversedMultiset(Due(timers, time));
    ReversedOrder(timers[n..]);
    forall t | t in Reversed(Due(timers, time))
      ensures t.at <= time
    {
      assert t in multiset(Reversed(Due(timers, time)));
    }
  }

  /** The i-th key handed out is that of the i-th last timer due. */
  lemma {:induction false} FiredKeyAt<K>(timers: seq<Timer<K>>, i: nat)
    requires i < |timers|
    ensures Reversed(timers)[i] == timers[|timers| - 1 - i]
    ensures Keys(Reversed(timers))[i] == timers[|timers| - 1 - i].key
  {
    KeyAt(Reversed(timers), i);
    if i < |timers| - 1 {
      FiredKeyAt(timers[1..], i);
    }
  }

  lemma {:induction false} KeyAt<K>(timers: seq<Timer<K>>, i: nat)
    requires i < |timers|
    ensures Keys(timers)[i] == timers[i].key
  {
    if i > 0 {
      KeyAt(timers[1..], i - 1);
    }
  }

  ghost predicate EarliestFirst<K>(timers: seq<Timer<K>>)
  {
    forall i, j | 0 <= i < j < |timers| :: timers[i].at <= timers[j].at
  }

  lemma {:induction false} ReversedOrder<K>(timers: seq<Timer<K>>)
    requires LatestFirst(timers)
    ensures EarliestFirst(Reversed(timers))
  {
    if timers != [] {
      ReversedOrder(timers[1..]);
      ReversedMultiset(timers[1..]);
      var front := Reversed(timers[1..]);
      forall i | 0 <= i < |front|
        ensures front[i].at <= timers[0].at
      {
        assert front[i] in multiset(timers[1..]);
        var j :| 0 <= j < |timers[1..]| && timers[1..][j] == front[i];
        assert timers[j + 1] == front[i];
      }
    }
  }

  lemma {:induction false} KeysSnoc<K>(timers: seq<Timer<K>>, timer: Timer<K>)
    ensures Keys(timers + [timer]) == Keys(timers) + [timer.key]
  {
    if timers == [] {
      assert timers + [timer] == [timer];
    } else {
      KeysSnoc(timers[1..], timer);
      assert (timers + [timer])[1..] == timers[1..] + [timer];
    }
  }

  lemma {:induction false} ReversedMultiset<K>(timers: seq<Timer<K>>)
    ensures multiset(Reversed(timers)) == multiset(timers)
  {
    if timers != [] {
      ReversedMultiset(timers[1..]);
      assert timers == [timers[0]] + timers[1..];
    }
  }

  /** Packing: n timers span at least n - 1 thresholds. */
  lemma {:induction false} Packing<K>(timers: seq<Timer<K>>, threshold: Duration)
    requires LatestFirst(timers) && Spaced(timers, threshold) && timers != []
    ensures (|timers| - 1) * threshold <= timers[0].at - timers[|timers| - 1].at
  {
    if |timers| > 1 {
      var front := timers[..|timers| - 1];
      Packing(front, threshold);
      assert Apart(timers[|timers| - 2].at, timers[|timers| - 1].at, threshold);
      assert (|timers| - 1) * threshold == (|front| - 1) * threshold + threshold;
    }
  }

  // ---------------------------------------------------------------- Runs

  datatype Op<K> = Register(timer: Timer<K>) | Check(time: Duration)

  /** A manager together with everything that was ever asked of it and everything that fired. */
  datatype History<K> = History(pending: seq<Timer<K>>, fired: seq<Timer<K>>, requested: seq<Duration>)

  ghost predicate Step<K>(threshold: Duration, before: History<K>, op: Op<K>, after: History<K>)
  {
    match op
    case Register(timer) =>
      && after.requested == before.requested + [timer.at]
      && after.fired == before.fired
      && Requested(before.pending, threshold, timer, after.pending)
    case Check(time) =>
      && after.requested == before.requested
      && after.fired == before.fired + Reversed(Due(before.pending, time))
      && after.pending == Later(before.pending, time)
  }

  /** `states` is a run of the manager over `ops`, from the empty manager. */
  ghost predicate IsRun<K>(threshold: Duration, ops: seq<Op<K>>, states: seq<History<K>>)
  {
    && |states| == |ops| + 1
    && states[0] == History([], [], [])
    && forall i | 0 <= i < |ops| :: Step(threshold, states[i], ops[i], states[i + 1])
  }

  ghost predicate CoveredBy<K>(timers: seq<Timer<K>>, threshold: Duration, time: Duration)
  {
    exists t :: t in timers && Covers(t.at, time, threshold)
  }

  /** Over every mix of registrations and checks: the vector stays sorted and spaced, and every
      requested deadline, refused ones included, equals or lies strictly within `threshold` of a
      timer that is pending or has fired. */
  lemma {:induction false} RunsStaySpacedAndCover<K>(threshold: Duration, ops: seq<Op<K>>,
                                                     states: seq<History<K>>)
    requires IsRun(threshold, ops, states)
    ensures var h := states[|ops|];
            && LatestFirst(h.pending) && Spaced(h.pending, threshold)
            && (h.pending != [] ==>
                  (|h.pending| - 1) * threshold <= h.pending[0].at - h.pending[|h.pending| - 1].at)
            && (forall d | d in h.requested :: CoveredBy(h.pending + h.fired, threshold, d))
    decreases |ops|
  {
    if ops != [] {
      var n := |ops| - 1;
      RunsStaySpacedAndCover(threshold, ops[..n], states[..n + 1]);
      var before, after := states[n], states[n + 1];
      assert Step(threshold, before, ops[n], after);
      match ops[n] {
        case Register(timer) =>
          var accepted := !Crowded(before.pending, threshold, timer.at);
          RegisteredKeepsSpacing(before.pending, threshold, timer, after.pending, accepted);
          RegisterCovers(threshold, before, timer, after, accepted);
        case Check(time) =>
          CheckKeepsSpacing(before.pending, threshold, time);
          CheckCovers(threshold, before, time, after);
      }
      if after.pending != [] {
        Packing(after.pending, threshold);
      }
    }
  }

  lemma RegisterCovers<K>(threshold: Duration, before: History<K>, timer: Timer<K>,
                          after: History<K>, accepted: bool)
    requires Registered(before.pending, threshold, timer, after.pending, accepted)
    requires after.requested == before.requested + [timer.at] && after.fired == before.fired
    requires forall d | d in before.requested :: CoveredBy(before.pending + before.fired, threshold, d)
    ensures forall d | d in after.requested :: CoveredBy(after.pending + after.fired, threshold, d)
  {
    if accepted {
      assert timer in multiset(after.pending);
    } else {
      var i :| 0 <= i < |before.pending| && Covers(before.pending[i].at, timer.at, threshold);
      assert before.pending[i] in after.pending + after.fired;
    }
    forall d | d in before.requested
      ensures CoveredBy(after.pending + after.fired, threshold, d)
    {
      var t :| t in before.pending + before.fired && Covers(t.at, d, threshold);
      if t in before.pending && accepted {
        assert t in multiset(before.pending + [timer]);
        assert t in multiset(after.pending);
      }
      assert t in after.pending + after.fired;
    }
    assert timer.at in after.requested;
  }

  lemma CheckCovers<K>(threshold: Duration, before: History<K>, time: Duration, after: History<K>)
    requires Step(threshold, before, Check(time), after)
    requires forall d | d in before.requested :: CoveredBy(before.pending + before.fired, threshold, d)
    ensures forall d | d in after.requested :: CoveredBy(after.pending + after.fired, threshold, d)
  {
    DueAndLaterPartition(before.pending, time);
    ReversedMultiset(Due(before.pending, time));
    forall d | d in before.requested
      ensures CoveredBy(after.pending + after.fired, threshold, d)
    {
      var t :| t in before.pending + before.fired && Covers(t.at, d, threshold);
      if t in before.pending {
        assert t in multiset(before.pending);
        assert t in multiset(Due(before.pending, time)) || t in multiset(Later(before.pending, time));
        assert t in multiset(Reversed(Due(before.pending, time))) || t in Later(before.pending, time);
      }
      assert t in after.pending + after.fired;
    }
  }

  lemma CheckKeepsSpacing<K>(timers: seq<Timer<K>>, threshold: Duration, time: Duration)
    requires LatestFirst(timers) && Spaced(timers, threshold)
    ensures LatestFirst(Later(timers, time)) && Spaced(Later(timers, time), threshold)
  {
    var n := SplitPoint(timers, time);
  }
}
