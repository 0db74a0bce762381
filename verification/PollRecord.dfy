/** The record a run keeps of an alert rule's state, and what an empty finding over it shows
    (scripts/rule_backend.py fold, Watch; scripts/env_recover.py check_quiet). */
module PollRecord {
  import opened Options

  datatype State = Firing | Pending | Normal | Odd(text: string)

  predicate Known(s: State) { !s.Odd? }

  /** One poll's state over the instances it matched. */
  function Fold(states: seq<State>): State {
    var odd := FirstOdd(states);
    if odd.Some? then odd.value
    else if Firing in states then Firing
    else if Pending in states then Pending
    else Normal
  }

  function FirstOdd(states: seq<State>): Option<State> {
    if states == [] then None else if states[0].Odd? then Some(states[0]) else FirstOdd(states[1..])
  }

  lemma {:induction false} FirstOddIs(states: seq<State>)
    ensures FirstOdd(states).Some? <==> exists s | s in states :: s.Odd?
    ensures FirstOdd(states).Some? ==> FirstOdd(states).value in states && FirstOdd(states).value.Odd?
  {
    if states != [] && !states[0].Odd? { FirstOddIs(states[1..]); }
  }

  /** A poll is known exactly when all its instances are, and a known one fires exactly when one does. */
  lemma FoldShows(states: seq<State>)
    ensures Known(Fold(states)) <==> forall s | s in states :: Known(s)
    ensures Known(Fold(states)) ==> (Fold(states) == Firing <==> Firing in states)
  {
    FirstOddIs(states);
  }

  // ----- the record ------------------------------------------------------

  datatype Sample = Sample(t: real, state: State)

  /** One poll as it happened: when it began, what the instances it matched said, None for a failed read,
      and the clock when it was over. */
  datatype Poll = Poll(began: real, read: Option<seq<State>>, over: real)

  datatype Record = Record(started: real, samples: seq<Sample>, stopped: real)
  {
    /** The run's ends and its successful polls. */
    function Times(): seq<real> { [started] + seq(|samples|,
                   i requires 0 <= i < |samples| => samples[i].t) + [stopped] }
  }

  function SamplesOf(polls: seq<Poll>): seq<Sample> {
    if polls == [] then []
    else
      var p := polls[|polls| - 1];
      SamplesOf(polls[..|polls| - 1]) + if p.read.Some? then [Sample(p.over, Fold(p.read.value))] else []
  }

  /** When each failed read was over. */
  function ErrorsOf(polls: seq<Poll>): seq<real> {
    if polls == [] then []
    else
      var p := polls[|polls| - 1];
      ErrorsOf(polls[..|polls| - 1]) + if p.read.None? then [p.over] else []
  }

  /** A clock that never goes back. */
  ghost predicate Monotone(started: real, polls: seq<Poll>, stopped: real) {
    && started <= stopped
    && (forall i | 0 <= i < |polls| :: started <= polls[i].began <= polls[i].over <= stopped)
    && forall i, j | 0 <= i < j < |polls| :: polls[i].over <= polls[j].began
  }

  class Watch {
    var samples: seq<Sample>
    var errors: seq<real>
    var started: Option<real>
    var stopped: Option<real>

    constructor ()
      ensures samples == [] && errors == [] && started == None && stopped == None
    {
      samples, errors, started, stopped := [], [], None, None;
    }

    /** run and stop: every poll is kept, a sample or an error, in order. */
    method Run(begin: real, polls: seq<Poll>, end: real)
      requires samples == [] && errors == []
      modifies this
      ensures started == Some(begin) && stopped == Some(end) && samples == SamplesOf(polls)
      ensures errors == ErrorsOf(polls) && |samples| + |errors| == |polls|
    {
      started := Some(begin);
      for i := 0 to |polls|
        invariant samples == SamplesOf(polls[..i]) && errors == ErrorsOf(polls[..i])
        invariant |samples| + |errors| == i && started == Some(begin)
      {
        assert polls[..i + 1][..i] == polls[..i];
        var p := polls[i];
        if p.read.Some? {
          samples := samples + [Sample(p.over, Fold(p.read.value))];
        } else {
          errors := errors + [p.over];
        }
      }
      assert polls[..|polls|] == polls;
      stopped := Some(end);
    }
  }

  // ----- problems and firing ---------------------------------------------

  datatype Problem = Unknown(s: Sample) | Gap(from: real, to: real)

  function Unknowns(samples: seq<Sample>): seq<Problem> {
    if samples == [] then []
    else (if Known(samples[0].state) then [] else [Unknown(samples[0])]) + Unknowns(samples[1..])
  }

  function Gaps(times: seq<real>, interval: real): seq<Problem> {
    if |times| < 2 then []
    else (if times[1] - times[0] > interval then [Gap(times[0], times[1])] else []) + Gaps(times[1..], interval)
  }

  function Problems(r: Record, interval: real): seq<Problem> { Unknowns(r.samples) + Gaps(r.Times(), interval) }

  function FiringIn(samples: seq<Sample>): seq<Sample> {
    if samples == [] then []
    else (if samples[0].state == Firing then [samples[0]] else []) + FiringIn(samples[1..])
  }

  /** check_quiet. */
  predicate Quiet(r: Record, interval: real) { Problems(r, interval) == [] && FiringIn(r.samples) == [] }

  lemma {:induction false} SampleQuiet(samples: seq<Sample>, i: nat)
    requires Unknowns(samples) == [] && FiringIn(samples) == [] && i < |samples|
    ensures Known(samples[i].state) && samples[i].state != Firing
  {
    if i > 0 { SampleQuiet(samples[1..], i - 1); }
  }

  lemma {:induction false} NoGap(times: seq<real>, interval: real, i: nat)
    requires Gaps(times, interval) == [] && i + 1 < |times|
    ensures times[i + 1] - times[i] <= interval
  {
    if i > 0 { NoGap(times[1..], interval, i - 1); }
  }

  // ----- coverage --------------------------------------------------------

  /** Times no further apart than the interval, from one end to the other, meet every stretch longer than it,
      and one just as long that begins after the first of them. */
  lemma {:induction false} SomeTimeIn(times: seq<real>, interval: real, a: real, b: real, n: nat) returns (i: nat)
    requires Gaps(times, interval) == [] && |times| >= 2 && n < |times| - 1 && interval >= 0.0
    requires b <= times[|times| - 1]
    requires (times[n] <= a && b - a > interval) || (times[n] < a && b - a == interval)
    ensures 0 < i < |times| - 1 && a <= times[i] <= b
    decreases |times| - n
  {
    NoGap(times, interval, n);
    if times[n + 1] >= a {
      i := n + 1;
    } else {
      i := SomeTimeIn(times, interval, a, b, n + 1);
    }
  }

  /** When each sample's instances were true of the rule: at some instant of its read, which takes at most
      `lag` and is stamped once it is over. */
  ghost predicate Truthful(polls: seq<Poll>, fires: real -> bool, instants: seq<real>, lag: real) {
    && |instants| == |polls| && lag >= 0.0
    && forall i | 0 <= i < |polls| && polls[i].read.Some? ::
         && polls[i].began <= instants[i] <= polls[i].over && polls[i].over - lag <= instants[i]
         && (fires(instants[i]) <==> Firing in polls[i].read.value)
  }

  /** The sample a poll makes, and where the one before it came from. */
  lemma {:induction false} SampleAt(polls: seq<Poll>, i: nat) returns (k: nat)
    requires i < |polls| && polls[i].read.Some?
    requires forall a, b | 0 <= a < b < |polls| :: polls[a].over <= polls[b].began
    ensures k < |SamplesOf(polls)| && SamplesOf(polls)[k] == Sample(polls[i].over, Fold(polls[i].read.value))
    ensures k > 0 ==> SamplesOf(polls)[k - 1].t <= polls[i].began
    decreases |polls|
  {
    hide Fold;
    var front := polls[..|polls| - 1];
    if i < |polls| - 1 {
      k := SampleAt(front, i);
    } else {
      k := |SamplesOf(front)|;
      if k > 0 {
        var j := SampleFrom(front, k - 1);
        assert polls[j] == front[j];
      }
    }
  }

  lemma {:induction false} SampleFrom(polls: seq<Poll>, k: nat) returns (i: nat)
    requires k < |SamplesOf(polls)|
    ensures i < |polls| && polls[i].read.Some?
    ensures SamplesOf(polls)[k] == Sample(polls[i].over, Fold(polls[i].read.value))
    decreases |polls|
  {
    hide Fold;
    if k < |SamplesOf(polls[..|polls| - 1])| {
      i := SampleFrom(polls[..|polls| - 1], k);
    } else {
      i := |polls| - 1;
    }
  }

  /** A run's polls on a clock that never goes back, truthful, and a record of them that finds nothing. */
  ghost predicate QuietRun(started: real, polls: seq<Poll>, stopped: real, interval: real,
                           fires: real -> bool, instants: seq<real>, lag: real)
  {
    && Monotone(started, polls, stopped) && Truthful(polls, fires, instants, lag)
    && Quiet(Record(started, SamplesOf(polls), stopped), interval)
  }

  ghost predicate FiredThroughout(fires: real -> bool, a: real, b: real) { forall x: real | a <= x <= b :: fires(x) }

  function Least(a: real, b: real): real { if a < b then a else b }

  /** In a quiet run no read takes longer than the interval, so none is staler than that either. */
  lemma NoStalerThan(started: real, polls: seq<Poll>, stopped: real, interval: real,
                     fires: real -> bool, instants: seq<real>, lag: real, i: nat)
    requires QuietRun(started, polls, stopped, interval, fires, instants, lag) && i < |polls| && polls[i].read.Some?
    ensures polls[i].over - Least(lag, interval) <= instants[i]
  {
    var k := SampleAt(polls, i);
    var r := Record(started, SamplesOf(polls), stopped);
    var times := r.Times();
    assert times[k + 1] == polls[i].over && times[k] <= polls[i].began;
    NoGap(times, interval, k);
  }

  /** A quiet run rules out firing throughout a stretch longer than the interval that is also as long as the
      interval and the longest a read can take in it. */
  lemma QuietShows(started: real, polls: seq<Poll>, stopped: real, interval: real,
                   fires: real -> bool, instants: seq<real>, lag: real, a: real, b: real)
    requires QuietRun(started, polls, stopped, interval, fires, instants, lag) && interval >= 0.0
    requires started <= a && b <= stopped && b - a > interval && b - a >= interval + Least(lag, interval)
    ensures !FiredThroughout(fires, a, b)
  {
    hide Fold;
    var m := Least(lag, interval);
    var r := Record(started, SamplesOf(polls), stopped);
    var times := r.Times();
    var k := SomeTimeIn(times, interval, a + m, b, 0);
    SampleQuiet(r.samples, k - 1);
    var i := SampleFrom(polls, k - 1);
    FoldShows(polls[i].read.value);
    NoStalerThan(started, polls, stopped, interval, fires, instants, lag, i);
    assert a <= instants[i] <= b && !fires(instants[i]);
  }

  /** A quiet record always rules out firing throughout a stretch of a length. */
  ghost predicate RulesOut(interval: real, lag: real, length: real) {
    forall started, polls, stopped, fires, instants, a, b
      | QuietRun(started, polls, stopped, interval, fires, instants, lag)
        && started <= a && b <= stopped && b - a == length
      :: !FiredThroughout(fires, a, b)
  }

  /** With no poll at all, a window no longer than the interval is quiet. */
  lemma NoPollNeeded(interval: real, lag: real, length: real)
    requires interval >= 0.0 && lag >= 0.0 && 0.0 <= length <= interval
    ensures !RulesOut(interval, lag, length)
  {
    var fires := (x: real) => true;
    var r := Record(0.0, [], length);
    assert r.Times() == [0.0, length];
    assert SamplesOf([]) == [] && Unknowns([]) == [] && FiringIn([]) == [];
    assert [0.0, length][1..] == [length] && Gaps([length], interval) == [];
    assert Gaps([0.0, length], interval) == [];
    assert QuietRun(0.0, [], length, interval, fires, [], lag);
    assert FiredThroughout(fires, 0.0, length);
  }

  /** Two polls, the first slow: the rule fires from just after the first looked until the second. */
  function SlowPolls(interval: real, m: real): seq<Poll> {
    [Poll(interval - m, Some([Normal]), interval), Poll(2.0 * interval, Some([Normal]), 2.0 * interval)]
  }

  lemma SlowPollsQuiet(interval: real, m: real)
    requires 0.0 <= m <= interval
    ensures Quiet(Record(0.0, SamplesOf(SlowPolls(interval, m)), 2.0 * interval), interval)
  {
    var polls := SlowPolls(interval, m);
    assert polls[..1] == [polls[0]] && polls[..1][..0] == [];
    var s := [Sample(interval, Normal), Sample(2.0 * interval, Normal)];
    assert SamplesOf(polls[..1]) == [Sample(interval, Normal)];
    assert SamplesOf(polls) == s;
    hide SamplesOf;
    TwoQuiet(interval, s[0], s[1]);
  }

  lemma TwoQuiet(interval: real, a: Sample, b: Sample)
    requires interval >= 0.0 && a == Sample(interval, Normal) && b == Sample(2.0 * interval, Normal)
    ensures Quiet(Record(0.0, [a, b], 2.0 * interval), interval)
  {
    var s, i := [a, b], interval;
    var times := Record(0.0, s, 2.0 * i).Times();
    assert times == [0.0, i, 2.0 * i, 2.0 * i];
    hide Record.Times;
    assert times[1..] == [i, 2.0 * i, 2.0 * i] && times[1..][1..] == [2.0 * i, 2.0 * i];
    assert s[1..] == [b] && s[1..][1..] == [];
    assert Unknowns([]) == [] && FiringIn([]) == [];
    assert Unknowns(s[1..]) == [] && FiringIn(s[1..]) == [];
    var end, rest := [2.0 * i, 2.0 * i], [i, 2.0 * i, 2.0 * i];
    assert end[1..] == [2.0 * i] && Gaps([2.0 * i], i) == [] && Gaps(end, i) == [];
    assert rest[1..] == end && Gaps(rest, i) == [];
  }

  /** A slow read hides any stretch shorter than the interval and itself. */
  lemma SlowReadHides(interval: real, lag: real, length: real)
    requires interval >= 0.0 && lag >= 0.0 && interval < length < interval + Least(lag, interval)
    ensures !RulesOut(interval, lag, length)
  {
    var m := Least(lag, interval);
    var polls := SlowPolls(interval, m);
    var fires := (x: real) => interval - m < x < 2.0 * interval;
    var instants := [interval - m, 2.0 * interval];
    SlowPollsQuiet(interval, m);
    assert QuietRun(0.0, polls, 2.0 * interval, interval, fires, instants, lag);
    var a := interval - m + (interval + m - length) / 2.0;
    assert FiredThroughout(fires, a, a + length) && 0.0 <= a && a + length <= 2.0 * interval;
    assert (a + length) - a == length;
  }

  /** Exactly which stretches a quiet record rules out: those longer than the interval that are as long as the
      interval and a read, a read counting for no more than the interval. */
  lemma RulesOutIff(interval: real, lag: real, length: real)
    requires interval >= 0.0 && lag >= 0.0 && length >= 0.0
    ensures RulesOut(interval, lag, length) <==> length > interval && length >= interval + Least(lag, interval)
  {
    hide QuietRun; hide FiredThroughout;
    if length <= interval {
      NoPollNeeded(interval, lag, length);
    } else if length < interval + Least(lag, interval) {
      SlowReadHides(interval, lag, length);
    } else {
      forall started, polls, stopped, fires, instants, a, b
        | QuietRun(started, polls, stopped, interval, fires, instants, lag)
          && started <= a && b <= stopped && b - a == length
        ensures !FiredThroughout(fires, a, b)
      {
        QuietShows(started, polls, stopped, interval, fires, instants, lag, a, b);
      }
    }
  }

  /** A quiet record rules out every stretch longer than the interval exactly when reads take no time. */
  lemma ReadTimeCounts(interval: real, lag: real)
    requires interval > 0.0 && lag >= 0.0
    ensures (forall length: real | length > interval :: RulesOut(interval, lag, length)) <==> lag == 0.0
  {
    hide RulesOut;
    forall length: real | length > interval
      ensures RulesOut(interval, lag, length) <==> length >= interval + Least(lag, interval)
    {
      RulesOutIff(interval, lag, length);
    }
    var short := interval + Least(lag, interval) / 2.0;
    assert lag > 0.0 ==> short > interval && !RulesOut(interval, lag, short);
  }
}
