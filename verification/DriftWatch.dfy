/**
 The loop both drift watches run: drift events become debounced, rate-limited triggers, and a
 lost subscription is reopened with a backoff. What the clock, the events, the subscriptions and
 the shutdown do is a script, so what is proved of every script holds of every finite part of
 every run.
 */
module DriftWatch {
  import opened Common

  datatype Cause = Back | Timer | Closed

  /** A trigger: when it was due and armed (for a timer), when it happened, and the drift it stands for. */
  datatype Trigger = Trigger(at: int, cause: Cause, armedAt: int, due: int, counts: map<string, nat>)

  datatype Pending = Pending(armedAt: int, due: int)

  datatype End = Ended | Cancelled | Running

  function Get(counts: map<string, nat>, kind: string): nat {
    if kind in counts then counts[kind] else 0
  }

  function Sum(ts: seq<Trigger>, kind: string): nat {
    if ts == [] then 0 else Sum(ts[..|ts| - 1], kind) + Get(ts[|ts| - 1].counts, kind)
  }

  /** How often a kind of drift was taken from the event channel. */
  function Taken(kinds: seq<string>, kind: string): nat {
    if kinds == [] then 0 else Taken(kinds[..|kinds| - 1], kind) + (if kinds[|kinds| - 1] == kind then 1 else 0)
  }

  function LastAt(ts: seq<Trigger>): Option<int> {
    if ts == [] then None else Some(ts[|ts| - 1].at)
  }

  /** Only the trigger that ends a subscription may come early, and never right after another such one. */
  ghost predicate Spaced(ts: seq<Trigger>, gap: int) {
    forall i :: 0 < i < |ts| ==>
      && ts[i - 1].at <= ts[i].at
      && (ts[i].cause != Closed || ts[i - 1].cause == Closed ==> ts[i].at - ts[i - 1].at >= gap)
  }

  /** What the timer behind a trigger was armed for: the debounce, or the rest of the interval since the trigger before it. */
  function DueAt(armedAt: int, last: Option<int>, debounce: int, gap: int): int {
    armedAt + if last.None? then debounce else Max(debounce, gap - (armedAt - last.value))
  }

  predicate ArmedAfter(t: Trigger, last: Option<int>, debounce: int, gap: int) {
    t.cause != Back ==> t.armedAt <= t.at && t.due == DueAt(t.armedAt, last, debounce, gap) && (last.Some? ==> last.value <= t.armedAt)
  }

  predicate ArmedAt(ts: seq<Trigger>, i: nat, debounce: int, gap: int)
    requires i < |ts|
  {
    ArmedAfter(ts[i], if i == 0 then None else Some(ts[i - 1].at), debounce, gap)
  }

  ghost predicate Armed(ts: seq<Trigger>, debounce: int, gap: int) {
    forall i: nat :: i < |ts| ==> ArmedAt(ts, i, debounce, gap)
  }

  /** A timer fires when due, and is due no later than the longer of debounce and rate limit after it was armed. */
  ghost predicate Prompt(ts: seq<Trigger>, latest: int) {
    forall t :: t in ts && t.cause == Timer ==> t.at >= t.due && t.due <= t.armedAt + latest
  }

  lemma SpacedSnoc(ts: seq<Trigger>, t: Trigger, gap: int)
    requires Spaced(ts, gap)
    requires ts == [] || (var last := ts[|ts| - 1]; last.at <= t.at && (t.cause != Closed || last.cause == Closed ==> t.at - last.at >= gap))
    ensures Spaced(ts + [t], gap)
  {
  }

  lemma ArmedSnoc(ts: seq<Trigger>, t: Trigger, debounce: int, gap: int)
    requires Armed(ts, debounce, gap) && ArmedAfter(t, LastAt(ts), debounce, gap)
    ensures Armed(ts + [t], debounce, gap)
  {
    var more := ts + [t];
    forall i: nat | i < |more| ensures ArmedAt(more, i, debounce, gap) {
      if i < |ts| { assert ArmedAt(ts, i, debounce, gap); }
    }
  }

  lemma SumSnoc(ts: seq<Trigger>, t: Trigger)
    ensures forall kind :: Sum(ts + [t], kind) == Sum(ts, kind) + Get(t.counts, kind)
  {
    assert (ts + [t])[..|ts|] == ts;
  }

  lemma TakenSnoc(kinds: seq<string>, k: string)
    ensures forall kind :: Taken(kinds + [k], kind) == Taken(kinds, kind) + if k == kind then 1 else 0
  {
    assert (kinds + [k])[..|kinds|] == kinds;
  }

  /** No three triggers fall into less than the minimum interval, across all subscriptions. */
  lemma RateBound(ts: seq<Trigger>, gap: int, i: nat, j: nat, k: nat)
    requires Spaced(ts, gap) && i < j < k < |ts|
    ensures ts[k].at - ts[i].at >= gap
  {
    InOrder(ts, gap, i, k - 2);
    assert ts[k - 1].at <= ts[k].at && ts[k - 2].at <= ts[k - 1].at;
  }

  lemma {:induction false} InOrder(ts: seq<Trigger>, gap: int, i: nat, k: nat)
    requires Spaced(ts, gap) && i <= k < |ts|
    ensures ts[i].at <= ts[k].at
  {
    if i < k { InOrder(ts, gap, i, k - 1); }
  }

  /** A trigger that comes sooner than the minimum interval after its predecessor ended a subscription before its timer was due, and its predecessor ended none. */
  lemma EarlyTrigger(ts: seq<Trigger>, debounce: int, gap: int, i: nat)
    requires Spaced(ts, gap) && Armed(ts, debounce, gap) && 0 < i < |ts| && ts[i].at - ts[i - 1].at < gap
    ensures ts[i].cause == Closed && ts[i].at < ts[i].due && ts[i - 1].cause != Closed
  {
    assert ArmedAt(ts, i, debounce, gap);
  }

  // ---------------------------------------------------------------------------
  // Backoff
  // ---------------------------------------------------------------------------

  function NextBackoff(prev: int, lived: int, lo: int, hi: int): int {
    if prev == 0 || lived >= hi then lo else Min(2 * prev, hi)
  }

  function Pow2(n: nat): nat {
    if n == 0 then 1 else 2 * Pow2(n - 1)
  }

  /** Wait i follows from the one before it and from how long the subscription in between held. */
  predicate ChainAt(waits: seq<int>, lived: seq<int>, lo: int, hi: int, i: nat)
    requires i < |waits| == |lived|
  {
    waits[i] == NextBackoff(if i == 0 then 0 else waits[i - 1], lived[i], lo, hi)
  }

  ghost predicate BackoffChain(waits: seq<int>, lived: seq<int>, lo: int, hi: int) {
    |waits| == |lived| && forall i: nat :: i < |waits| ==> ChainAt(waits, lived, lo, hi, i)
  }

  /** After n short-lived or failed subscriptions in a row the wait is lo doubled n - 1 times, capped at hi. */
  lemma {:induction false} BackoffClosedForm(waits: seq<int>, lived: seq<int>, lo: int, hi: int, first: nat, n: nat)
    requires 0 <= lo <= hi && BackoffChain(waits, lived, lo, hi)
    requires 0 < n && first + n <= |waits|
    requires first == 0 || lived[first] >= hi
    requires forall i :: first < i < first + n ==> lived[i] < hi
    ensures waits[first + n - 1] == Min(lo * Pow2(n - 1), hi)
  {
    if n == 1 {
      assert ChainAt(waits, lived, lo, hi, first);
      assert lo * Pow2(0) == lo;
    } else {
      BackoffClosedForm(waits, lived, lo, hi, first, n - 1);
      var w, x := first + n - 1, lo * Pow2(n - 2);
      PowPositive(n - 2);
      DoubleProduct(lo, n - 1);
      ZeroProduct(lo, Pow2(n - 2));
      assert ChainAt(waits, lived, lo, hi, w);
      assert waits[w - 1] == Min(x, hi) && x >= 0;
      assert x == 0 ==> lo == 0;
      DoubleCapped(x, lo, hi);
    }
  }

  lemma DoubleCapped(x: int, lo: int, hi: int)
    requires 0 <= lo <= hi && x >= 0 && (x == 0 ==> lo == 0)
    ensures (if Min(x, hi) == 0 then lo else Min(2 * Min(x, hi), hi)) == Min(2 * x, hi)
  {
  }

  lemma DoubleProduct(lo: int, n: nat)
    requires n > 0
    ensures lo * Pow2(n) == 2 * (lo * Pow2(n - 1))
  {
    assert Pow2(n) == 2 * Pow2(n - 1);
  }

  lemma ZeroProduct(a: nat, b: nat)
    ensures a * b == 0 <==> a == 0 || b == 0
  {
  }

  lemma {:induction false} PowPositive(n: nat)
    ensures Pow2(n) >= 1
  {
    if n > 0 { PowPositive(n - 1); }
  }

  /** No wait is shorter than both bounds. */
  lemma BackoffAtLeast(prev: int, lived: int, lo: int, hi: int, gap: int)
    requires 0 <= gap <= lo && gap <= hi && (prev == 0 || prev >= gap)
    ensures NextBackoff(prev, lived, lo, hi) >= gap
  {
  }

  /** The settings of the rate limit, and the moment. */
  datatype Moment = Moment(debounce: int, minInterval: int, now: int, cancelled: bool) {
    function Latest(): int {
      Max(debounce, minInterval)
    }
  }

  ghost predicate After(m: Moment, n: Moment) {
    m.debounce == n.debounce && m.minInterval == n.minInterval && m.now <= n.now && (m.cancelled ==> n.cancelled)
  }

  /** Every drift event taken is in the counts of a trigger or still pending. */
  ghost predicate Conserved(base: seq<Trigger>, kinds: seq<string>, ts: seq<Trigger>, counts: map<string, nat>) {
    forall kind :: Sum(base, kind) + Taken(kinds, kind) == Sum(ts, kind) + Get(counts, kind)
  }

  ghost predicate NothingPending(counts: map<string, nat>) {
    forall kind :: Get(counts, kind) == 0
  }

  ghost predicate WellTriggered(m: Moment, last: Option<int>, base: seq<Trigger>, ts: seq<Trigger>) {
    && last == LastAt(ts) && base <= ts && Spaced(ts, m.minInterval) && Prompt(ts, m.Latest()) && Armed(ts, m.debounce, m.minInterval)
    && (ts != [] ==> ts[|ts| - 1].at <= m.now)
  }

  /** What holds between two events of a subscription. `base` is what was triggered before it. */
  ghost predicate Consuming(m: Moment, timer: Option<Pending>, counts: map<string, nat>, last: Option<int>,
                            kinds: seq<string>, base: seq<Trigger>, ts: seq<Trigger>) {
    && WellTriggered(m, last, base, ts)
    && (ts != [] && ts[|ts| - 1].cause == Closed ==> m.now - ts[|ts| - 1].at >= m.minInterval)
    && (timer.Some? ==>
          && timer.value.armedAt <= m.now && timer.value.due == DueAt(timer.value.armedAt, last, m.debounce, m.minInterval)
          && (last.Some? ==> last.value <= timer.value.armedAt))
    && Conserved(base, kinds, ts, counts)
    && (!m.cancelled && timer.None? ==> NothingPending(counts))
  }

  lemma ConsumingLater(m: Moment, n: Moment, timer: Option<Pending>, counts: map<string, nat>, last: Option<int>,
                       kinds: seq<string>, base: seq<Trigger>, ts: seq<Trigger>)
    requires Consuming(m, timer, counts, last, kinds, base, ts) && After(m, n)
    ensures Consuming(n, timer, counts, last, kinds, base, ts)
  {
  }

  lemma ConsumingEnds(m: Moment, timer: Option<Pending>, counts: map<string, nat>, last: Option<int>,
                      kinds: seq<string>, base: seq<Trigger>, ts: seq<Trigger>)
    requires Consuming(m, timer, counts, last, kinds, base, ts)
    ensures WellTriggered(m, last, base, ts) && Conserved(base, kinds, ts, counts)
    ensures !m.cancelled && timer.None? ==> NothingPending(counts)
  {
  }

  lemma PromptSnoc(ts: seq<Trigger>, t: Trigger, latest: int)
    requires Prompt(ts, latest) && (t.cause == Timer ==> t.at >= t.due && t.due <= t.armedAt + latest)
    ensures Prompt(ts + [t], latest)
  {
  }

  lemma ConservedTrigger(base: seq<Trigger>, kinds: seq<string>, ts: seq<Trigger>, t: Trigger)
    requires Conserved(base, kinds, ts, t.counts)
    ensures Conserved(base, kinds, ts + [t], map[]) && NothingPending(map[])
  {
    SumSnoc(ts, t);
    hide Sum, Taken;
    assert forall kind :: Get(map[], kind) == 0;
  }

  lemma TriggerStep(m: Moment, t: Trigger, counts: map<string, nat>, kinds: seq<string>, base: seq<Trigger>, ts: seq<Trigger>)
    requires WellTriggered(m, LastAt(ts), base, ts) && Conserved(base, kinds, ts, counts) && t.counts == counts && t.at == m.now
    requires t.cause == Timer ==> t.at >= t.due && t.due <= t.armedAt + m.Latest()
    requires ArmedAfter(t, LastAt(ts), m.debounce, m.minInterval)
    requires ts != [] && (t.cause != Closed || ts[|ts| - 1].cause == Closed) ==> t.at - ts[|ts| - 1].at >= m.minInterval
    ensures WellTriggered(m, Some(m.now), base, ts + [t]) && Conserved(base, kinds, ts + [t], map[]) && NothingPending(map[])
  {
    SpacedSnoc(ts, t, m.minInterval);
    ArmedSnoc(ts, t, m.debounce, m.minInterval);
    PromptSnoc(ts, t, m.Latest());
    ConservedTrigger(base, kinds, ts, t);
    hide Spaced, Armed, Prompt, Conserved, ArmedAfter, NothingPending;
  }

  // ---------------------------------------------------------------------------
  // What a script of a run does
  // ---------------------------------------------------------------------------

  /** What the loop of one subscription takes next. */
  datatype What = Drift(kind: string) | Fire | Close | Done

  /** One turn of that loop: the time that passes first, and whether the context is cancelled meanwhile. */
  datatype Input = Input(after: nat, stop: bool, what: What)

  /** One turn of the outer loop; `pause` is how much longer than the backoff the retry takes. */
  datatype Attempt =
    | Unsupported
    | Refused(pause: nat, stop: bool)
    | Opened(inputs: seq<Input>, pause: nat, stop: bool)

  datatype Watch = Watch(m: Moment, timer: Option<Pending>, counts: map<string, nat>, last: Option<int>,
                         kinds: seq<string>, ts: seq<Trigger>, end: End)

  function Later(m: Moment, after: int, stop: bool): Moment {
    m.(now := m.now + after, cancelled := m.cancelled || stop)
  }

  /** A timer fires no sooner than it is due. */
  function Clock(w: Watch, i: Input): Moment {
    var m := Later(w.m, i.after, i.stop);
    if i.what == Fire && w.timer.Some? then m.(now := Max(m.now, w.timer.value.due)) else m
  }

  function Fired(w: Watch, cause: Cause, p: Pending): Watch {
    if w.m.cancelled then w
    else w.(ts := w.ts + [Trigger(w.m.now, cause, p.armedAt, p.due, w.counts)], counts := map[], last := Some(w.m.now))
  }

  function Turn(w0: Watch, i: Input): Watch {
    if w0.end != Running then w0
    else
      var w := w0.(m := Clock(w0, i));
      match i.what
      case Done => if w.m.cancelled then w.(end := Cancelled) else w
      case Close => (if w.timer.Some? then Fired(w, Closed, w.timer.value) else w).(timer := None, end := Ended)
      case Fire => if w.timer.Some? then Fired(w, Timer, w.timer.value).(timer := None) else w
      case Drift(kind) =>
        w.(kinds := w.kinds + [kind], counts := w.counts[kind := Get(w.counts, kind) + 1],
           timer := if w.timer.Some? then w.timer else Some(Pending(w.m.now, DueAt(w.m.now, w.last, w.m.debounce, w.m.minInterval))))
  }

  function Turns(w: Watch, inputs: seq<Input>): Watch {
    if inputs == [] then w else Turn(Turns(w, inputs[..|inputs| - 1]), inputs[|inputs| - 1])
  }

  lemma {:induction false} TurnsEnd(w: Watch, inputs: seq<Input>, n: nat)
    requires n <= |inputs| && Turns(w, inputs[..n]).end != Running
    ensures Turns(w, inputs) == Turns(w, inputs[..n])
  {
    if n < |inputs| {
      assert inputs[..|inputs| - 1][..n] == inputs[..n];
      TurnsEnd(w, inputs[..|inputs| - 1], n);
    } else {
      assert inputs[..n] == inputs;
    }
  }

  lemma TurnsSnoc(w: Watch, inputs: seq<Input>, n: nat)
    requires n < |inputs|
    ensures Turns(w, inputs[..n + 1]) == Turn(Turns(w, inputs[..n]), inputs[n])
  {
    assert inputs[..n + 1][..n] == inputs[..n];
  }

  datatype Backoffs = Backoffs(min: int, max: int)

  datatype Life = Life(w: Watch, backoff: int, outage: bool, waits: seq<int>, lived: seq<int>, over: bool)

  /** A subscription that opens, after the trigger that makes up for an outage. */
  function Opening(r: Life): Watch {
    var w := if r.outage then r.w.(ts := r.w.ts + [Trigger(r.w.m.now, Back, r.w.m.now, r.w.m.now, map[])], last := Some(r.w.m.now)) else r.w;
    w.(timer := None, counts := map[], kinds := [], end := Running)
  }

  function Subscribed(r: Life, inputs: seq<Input>): Watch {
    var after := Turns(Opening(r), inputs);
    after.(kinds := r.w.kinds + after.kinds)
  }

  function Retried(r: Life, b: Backoffs, held: int, pause: nat, stop: bool): Life {
    if r.w.m.cancelled then r.(over := true)
    else
      var next := NextBackoff(r.backoff, held, b.min, b.max);
      r.(outage := true, backoff := next, waits := r.waits + [next], lived := r.lived + [held],
         w := r.w.(m := Later(r.w.m, next + pause, stop)))
  }

  function Attempted(r: Life, b: Backoffs, a: Attempt): Life {
    if r.over then r
    else if r.w.m.cancelled then r.(over := true)
    else match a
      case Unsupported => r.(over := true)
      case Refused(pause, stop) => Retried(r, b, 0, pause, stop)
      case Opened(inputs, pause, stop) =>
        var w := Subscribed(r, inputs);
        var held := r.(w := w, outage := false);
        if w.end != Ended then held.(over := true) else Retried(held, b, w.m.now - r.w.m.now, pause, stop)
  }

  function Lived(r: Life, b: Backoffs, attempts: seq<Attempt>): Life {
    if attempts == [] then r else Attempted(Lived(r, b, attempts[..|attempts| - 1]), b, attempts[|attempts| - 1])
  }

  function Born(m: Moment): Life {
    Life(Watch(m, None, map[], None, [], [], Running), 0, false, [], [], false)
  }

  lemma {:induction false} LivedEnd(r: Life, b: Backoffs, attempts: seq<Attempt>, n: nat)
    requires n <= |attempts| && Lived(r, b, attempts[..n]).over
    ensures Lived(r, b, attempts) == Lived(r, b, attempts[..n])
  {
    if n < |attempts| {
      assert attempts[..|attempts| - 1][..n] == attempts[..n];
      LivedEnd(r, b, attempts[..|attempts| - 1], n);
    } else {
      assert attempts[..n] == attempts;
    }
  }

  lemma LivedSnoc(r: Life, b: Backoffs, attempts: seq<Attempt>, n: nat)
    requires n < |attempts|
    ensures Lived(r, b, attempts[..n + 1]) == Attempted(Lived(r, b, attempts[..n]), b, attempts[n])
  {
    assert attempts[..n + 1][..n] == attempts[..n];
  }

  class DriftWatcher {
    const debounce: int
    const minInterval: int
    const backoffMin: int
    const backoffMax: int
    var now: int
    var cancelled: bool

    constructor (debounce: int, minInterval: int, backoffMin: int, backoffMax: int, now: int)
      ensures this.debounce == debounce && this.minInterval == minInterval
      ensures this.backoffMin == backoffMin && this.backoffMax == backoffMax && this.now == now && !cancelled
    {
      this.debounce, this.minInterval, this.backoffMin, this.backoffMax := debounce, minInterval, backoffMin, backoffMax;
      this.now, cancelled := now, false;
    }

    function At(): Moment
      reads this
    {
      Moment(debounce, minInterval, now, cancelled)
    }

    function Limits(): Backoffs {
      Backoffs(backoffMin, backoffMax)
    }

    /** Time passes, at least until `until`; the context may be cancelled. */
    method Wait(after: nat, until: int, stop: bool)
      modifies this
      ensures At() == Later(old(At()), after, stop).(now := Max(old(now) + after, until)) && After(old(At()), At())
    {
      now, cancelled := Max(now + after, until), cancelled || stop;
    }

    /** fireTrigger: nothing happens after the shutdown. */
    method FireTrigger(cause: Cause, p: Pending, counts: map<string, nat>, last: Option<int>, ghost ts: seq<Trigger>)
      returns (counts': map<string, nat>, last': Option<int>, ghost ts': seq<Trigger>)
      ensures if cancelled then counts' == counts && last' == last && ts' == ts
              else counts' == map[] && last' == Some(now) && ts' == ts + [Trigger(now, cause, p.armedAt, p.due, counts)]
    {
      counts', last', ts' := counts, last, ts;
      if cancelled {
        return;
      }
      ts' := ts + [Trigger(now, cause, p.armedAt, p.due, counts)];
      counts', last' := map[], Some(now);
    }

    /** One drift event arms the timer; events that arrive while it is pending ride along. */
    method OnDrift(kind: string, timer: Option<Pending>, counts: map<string, nat>, last: Option<int>,
                   ghost kinds: seq<string>, ghost base: seq<Trigger>, ghost ts: seq<Trigger>)
      returns (timer': Option<Pending>, counts': map<string, nat>)
      requires Consuming(At(), timer, counts, last, kinds, base, ts)
      ensures Consuming(At(), timer', counts', last, kinds + [kind], base, ts)
      ensures timer'.Some? && (timer.Some? ==> timer' == timer)
      ensures timer.None? ==> timer'.value == Pending(now, DueAt(now, last, debounce, minInterval))
      ensures counts' == counts[kind := Get(counts, kind) + 1]
    {
      counts' := counts[kind := Get(counts, kind) + 1];
      timer' := timer;
      if timer.None? {
        var wait := if last.None? then debounce else Max(debounce, minInterval - (now - last.value));
        timer' := Some(Pending(now, now + wait));
      }
      CountStep(base, kinds, ts, counts, kind);
      hide Conserved, Spaced, Prompt, Armed;
    }

    method OnFire(timer: Pending, counts: map<string, nat>, last: Option<int>,
                  ghost kinds: seq<string>, ghost base: seq<Trigger>, ghost ts: seq<Trigger>)
      returns (counts': map<string, nat>, last': Option<int>, ghost ts': seq<Trigger>)
      requires Consuming(At(), Some(timer), counts, last, kinds, base, ts) && now >= timer.due
      ensures Consuming(At(), None, counts', last', kinds, base, ts')
      ensures Fired(Watch(At(), Some(timer), counts, last, kinds, ts, Running), Timer, timer)
           == Watch(At(), Some(timer), counts', last', kinds, ts', Running)
    {
      counts', last', ts' := FireTrigger(Timer, timer, counts, last, ts);
      if !cancelled {
        TriggerStep(At(), ts'[|ts|], counts, kinds, base, ts);
      }
      hide Conserved, Spaced, Prompt, Armed;
    }

    /** A pending trigger does not wait for its timer when the subscription fails. */
    method OnClosed(timer: Option<Pending>, counts: map<string, nat>, last: Option<int>,
                    ghost kinds: seq<string>, ghost base: seq<Trigger>, ghost ts: seq<Trigger>)
      returns (counts': map<string, nat>, last': Option<int>, ghost ts': seq<Trigger>)
      requires Consuming(At(), timer, counts, last, kinds, base, ts)
      ensures WellTriggered(At(), last', base, ts') && Conserved(base, kinds, ts', counts')
      ensures !cancelled ==> NothingPending(counts')
      ensures var w := Watch(At(), timer, counts, last, kinds, ts, Running);
        (if timer.Some? then Fired(w, Closed, timer.value) else w) == w.(counts := counts', last := last', ts := ts')
    {
      counts', last', ts' := counts, last, ts;
      if timer.Some? {
        counts', last', ts' := FireTrigger(Closed, timer.value, counts, last, ts);
        if !cancelled {
          TriggerStep(At(), ts'[|ts|], counts, kinds, base, ts);
        }
      }
    }

    /** One turn of the loop: what the select takes. */
    method Take(i: Input, timer0: Option<Pending>, counts0: map<string, nat>, last0: Option<int>,
                ghost kinds0: seq<string>, ghost base: seq<Trigger>, ghost ts0: seq<Trigger>)
      returns (end: End, last: Option<int>, timer: Option<Pending>, counts: map<string, nat>, ghost kinds: seq<string>, ghost ts: seq<Trigger>)
      requires Consuming(At(), timer0, counts0, last0, kinds0, base, ts0)
      modifies this
      ensures After(old(At()), At())
      ensures if end.Running? then Consuming(At(), timer, counts, last, kinds, base, ts)
              else WellTriggered(At(), last, base, ts) && Conserved(base, kinds, ts, counts)
      ensures !cancelled && timer.None? ==> NothingPending(counts)
      ensures end.Ended? ==> timer.None?
      ensures end.Cancelled? ==> cancelled
      ensures Watch(At(), timer, counts, last, kinds, ts, end) == Turn(Watch(old(At()), timer0, counts0, last0, kinds0, ts0, Running), i)
    {
      hide Consuming, WellTriggered, Conserved, NothingPending, DueAt, Fired;
      end, last, timer, counts, kinds, ts := Running, last0, timer0, counts0, kinds0, ts0;
      ghost var m := At();
      Wait(i.after, if timer.Some? && i.what == Fire then timer.value.due else now, i.stop);
      ConsumingLater(m, At(), timer, counts, last, kinds, base, ts);
      assert At() == Clock(Watch(m, timer, counts, last, kinds, ts, Running), i);
      hide Clock, Later, After;
      match i.what {
        case Done =>
          end := if cancelled then Cancelled else Running;
        case Close =>
          counts, last, ts := OnClosed(timer, counts, last, kinds, base, ts);
          end, timer := Ended, None;
        case Fire =>
          if timer.Some? {
            counts, last, ts := OnFire(timer.value, counts, last, kinds, base, ts);
            timer := None;
          }
        case Drift(kind) =>
          timer, counts := OnDrift(kind, timer, counts, last, kinds, base, ts);
          kinds := kinds + [kind];
      }
      if !end.Ended? {
        ConsumingEnds(At(), timer, counts, last, kinds, base, ts);
      }
    }

    /**
     One subscription, until its channel is closed or the shutdown. Every drift event taken is in
     the counts of a trigger or still pending, and nothing is pending when the subscription ends
     without a shutdown.
     */
    method Consume(inputs: seq<Input>, lastTrigger: Option<int>, ghost base: seq<Trigger>)
      returns (end: End, last: Option<int>, timer: Option<Pending>, counts: map<string, nat>, ghost kinds: seq<string>, ghost ts: seq<Trigger>)
      requires Consuming(At(), None, map[], lastTrigger, [], base, base)
      modifies this
      ensures After(old(At()), At())
      ensures WellTriggered(At(), last, base, ts) && Conserved(base, kinds, ts, counts)
      ensures !cancelled && timer.None? ==> NothingPending(counts)
      ensures end.Ended? ==> timer.None?
      ensures end.Cancelled? ==> cancelled
      ensures Watch(At(), timer, counts, last, kinds, ts, end) == Turns(Watch(old(At()), None, map[], lastTrigger, [], base, Running), inputs)
    {
      end, timer, last, counts, kinds, ts := Running, None, lastTrigger, map[], [], base;
      ghost var w0 := Watch(At(), None, map[], lastTrigger, [], base, Running);
      ConsumingEnds(At(), timer, counts, last, kinds, base, ts);
      for n := 0 to |inputs|
        invariant Consuming(At(), timer, counts, last, kinds, base, ts) && end.Running?
        invariant After(old(At()), At())
        invariant Watch(At(), timer, counts, last, kinds, ts, end) == Turns(w0, inputs[..n])
      {
        hide Consuming, WellTriggered, Conserved, NothingPending, Turns, Turn;
        TurnsSnoc(w0, inputs, n);
        end, last, timer, counts, kinds, ts := Take(inputs[n], timer, counts, last, kinds, base, ts);
        if !end.Running? {
          TurnsEnd(w0, inputs, n + 1);
          return;
        }
      }
      assert inputs[..|inputs|] == inputs;
      ConsumingEnds(At(), timer, counts, last, kinds, base, ts);
    }

    /** One subscription that opened, after the trigger that makes up for an outage. */
    method Session(inputs: seq<Input>, outage: bool, last0: Option<int>, ghost counts0: map<string, nat>, ghost kinds0: seq<string>, ghost ts0: seq<Trigger>)
      returns (end: End, held: int, last: Option<int>, timer: Option<Pending>, counts: map<string, nat>, ghost kinds: seq<string>, ghost ts: seq<Trigger>)
      requires WellTriggered(At(), last0, [], ts0) && Conserved([], kinds0, ts0, counts0) && NothingPending(counts0)
      requires ts0 != [] ==> now - ts0[|ts0| - 1].at >= minInterval
      modifies this
      ensures WellTriggered(At(), last, [], ts) && Conserved([], kinds, ts, counts)
      ensures !cancelled && timer.None? ==> NothingPending(counts)
      ensures end.Ended? ==> timer.None?
      ensures forall r: Life :: r.w.m == old(At()) && r.outage == outage && r.w.last == last0 && r.w.kinds == kinds0 && r.w.ts == ts0 ==>
                Subscribed(r, inputs) == Watch(At(), timer, counts, last, kinds, ts, end)
      ensures held == now - old(now)
    {
      hide WellTriggered, Conserved, NothingPending, Spaced, Prompt, Armed, Consuming, Turns;
      ts, last := ts0, last0;
      if outage {
        BackStep(At(), last, kinds0, ts, counts0);
        ts := ts + [Trigger(now, Back, now, now, map[])];
        last := Some(now);
      }
      var subscribedAt := now;
      ghost var base, events := ts, [];
      StartConsuming(At(), last, base);
      end, last, timer, counts, events, ts := Consume(inputs, last, base);
      kinds := kinds0 + events;
      Rebase(At(), last, kinds0, events, base, ts, counts0, counts);
      held := now - subscribedAt;
    }

    /** One turn of the outer loop: a subscription, and the wait before the next one. */
    method TryOnce(a: Attempt, backoff0: int, outage0: bool, last0: Option<int>, counts0: map<string, nat>, ghost r: Life)
      returns (over: bool, backoff: int, outage: bool, last: Option<int>, timer: Option<Pending>, counts: map<string, nat>, ghost r': Life)
      requires 0 <= minInterval <= backoffMin && minInterval <= backoffMax
      requires r == Life(Watch(At(), None, counts0, last0, r.w.kinds, r.w.ts, r.w.end), backoff0, outage0, r.waits, r.lived, false)
      requires WatcherInv(r, Limits())
      modifies this
      ensures r' == Attempted(r, Limits(), a) && r'.over == over
      ensures r' == Life(Watch(At(), timer, counts, last, r'.w.kinds, r'.w.ts, r'.w.end), backoff, outage, r'.waits, r'.lived, over)
      ensures WatcherEnds(r', Limits()) && (!over ==> timer.None? && WatcherInv(r', Limits()))
    {
      hide WellTriggered, Conserved, NothingPending, BackoffChain, Spaced, Prompt, Armed, Subscribed;
      over, backoff, outage, last, timer, counts, r' := true, backoff0, outage0, last0, None, counts0, r.(over := true);
      if cancelled || a.Unsupported? {
        return;
      }
      var held := 0;
      ghost var kinds, ts := r.w.kinds, r.w.ts;
      ghost var ended: End := r.w.end;
      if a.Opened? {
        var end;
        end, held, last, timer, counts, kinds, ts := Session(a.inputs, outage, last, counts, kinds, ts);
        outage, ended := false, end;
        r' := r.(w := Watch(At(), timer, counts, last, kinds, ts, end), outage := false, over := true);
        if !end.Ended? {
          return;
        }
      }
      WellTriggeredMeans(At(), last, ts);
      if cancelled {
        return;
      }
      if !outage {
        outage := true;
      }
      ghost var r1 := Life(Watch(At(), None, counts, last, kinds, ts, ended), backoff, r'.outage && !a.Opened?, r.waits, r.lived, false);
      RetriedInv(r1, Limits(), held, a.pause, a.stop);
      backoff := NextBackoff(backoff, held, backoffMin, backoffMax);
      Wait(backoff + a.pause, now, a.stop);
      over := false;
      r' := Retried(r1, Limits(), held, a.pause, a.stop);
    }

    /**
     The watcher from start to shutdown. The triggers of all its subscriptions are spaced and
     prompt, every drift event is accounted for, and the waits between subscriptions follow the
     backoff.
     */
    method Run(attempts: seq<Attempt>) returns (timer: Option<Pending>, counts: map<string, nat>, ghost r: Life)
      requires 0 <= minInterval <= backoffMin && minInterval <= backoffMax
      modifies this
      ensures r == Lived(Born(old(At())), Limits(), attempts) && r.w.m == At() && r.w.timer == timer && r.w.counts == counts
      ensures Spaced(r.w.ts, minInterval) && Prompt(r.w.ts, Max(debounce, minInterval)) && Armed(r.w.ts, debounce, minInterval)
      ensures Conserved([], r.w.kinds, r.w.ts, counts)
      ensures !cancelled && timer.None? ==> NothingPending(counts)
      ensures BackoffChain(r.waits, r.lived, backoffMin, backoffMax)
      ensures HasEarly(r.w.ts, minInterval) <==> SomeAttemptsEarly(Born(old(At())), Limits(), attempts)
    {
      EarlyIff(At(), Limits(), attempts);
      hide HasEarly, SomeAttemptsEarly;
      var over, backoff, outage := false, 0, false;
      var last: Option<int> := None;
      timer, counts := None, map[];
      ghost var born := Born(At());
      r := born;
      StartsEmpty(At(), backoffMin, backoffMax);
      LivedStart(born, Limits(), attempts);
      for n := 0 to |attempts|
        invariant r == Lived(born, Limits(), attempts[..n])
        invariant r == Life(Watch(At(), None, counts, last, r.w.kinds, r.w.ts, r.w.end), backoff, outage, r.waits, r.lived, false)
        invariant WatcherInv(r, Limits()) && timer.None?
      {
        hide WatcherInv, WatcherEnds, Lived, Attempted;
        LivedSnoc(born, Limits(), attempts, n);
        over, backoff, outage, last, timer, counts, r := TryOnce(attempts[n], backoff, outage, last, counts, r);
        if over {
          LivedEnd(born, Limits(), attempts, n + 1);
          WatcherMeans(r, Limits());
          return;
        }
      }
      assert attempts[..|attempts|] == attempts;
      WellTriggeredMeans(At(), last, r.w.ts);
    }
  }

  ghost predicate WatcherEnds(r: Life, b: Backoffs) {
    && WellTriggered(r.w.m, r.w.last, [], r.w.ts) && Conserved([], r.w.kinds, r.w.ts, r.w.counts)
    && (!r.w.m.cancelled && r.w.timer.None? ==> NothingPending(r.w.counts))
    && BackoffChain(r.waits, r.lived, b.min, b.max)
  }

  /** What holds before each subscribe. */
  ghost predicate WatcherInv(r: Life, b: Backoffs) {
    && WatcherEnds(r, b) && r.w.timer.None? && (r.w.ts != [] ==> r.w.m.now - r.w.ts[|r.w.ts| - 1].at >= r.w.m.minInterval)
    && r.backoff == (if r.waits == [] then 0 else r.waits[|r.waits| - 1]) && (r.backoff == 0 || r.backoff >= r.w.m.minInterval)
  }

  lemma RetriedInv(r: Life, b: Backoffs, held: int, pause: nat, stop: bool)
    requires WatcherEnds(r, b) && r.w.timer.None? && !r.w.m.cancelled && 0 <= r.w.m.minInterval <= b.min && r.w.m.minInterval <= b.max
    requires r.backoff == (if r.waits == [] then 0 else r.waits[|r.waits| - 1]) && (r.backoff == 0 || r.backoff >= r.w.m.minInterval)
    ensures WatcherInv(Retried(r, b, held, pause, stop), b)
  {
    var next := NextBackoff(r.backoff, held, b.min, b.max);
    BackoffAtLeast(r.backoff, held, b.min, b.max, r.w.m.minInterval);
    BackoffStep(r.waits, r.lived, r.backoff, held, b.min, b.max);
    WellTriggeredLater(r.w.m, Later(r.w.m, next + pause, stop), r.w.last, r.w.ts);
    WellTriggeredMeans(r.w.m, r.w.last, r.w.ts);
    hide NextBackoff, BackoffChain, Conserved, NothingPending, WellTriggered;
  }

  lemma WatcherMeans(r: Life, b: Backoffs)
    requires WatcherEnds(r, b)
    ensures Spaced(r.w.ts, r.w.m.minInterval) && Prompt(r.w.ts, r.w.m.Latest()) && Armed(r.w.ts, r.w.m.debounce, r.w.m.minInterval)
    ensures Conserved([], r.w.kinds, r.w.ts, r.w.counts) && BackoffChain(r.waits, r.lived, b.min, b.max)
    ensures !r.w.m.cancelled && r.w.timer.None? ==> NothingPending(r.w.counts)
  {
  }

  lemma LivedStart(r: Life, b: Backoffs, attempts: seq<Attempt>)
    ensures Lived(r, b, attempts[..0]) == r
  {
  }

  // ---------------------------------------------------------------------------
  // When a trigger comes before the minimum interval is over
  // ---------------------------------------------------------------------------

  /** Some trigger comes sooner than the minimum interval after its predecessor. */
  ghost predicate HasEarly(ts: seq<Trigger>, gap: int) {
    exists i :: 0 < i < |ts| && ts[i].at - ts[i - 1].at < gap
  }

  /** The subscription is about to close with a trigger pending, without a shutdown, before the interval since the last trigger is over. */
  predicate ClosesEarly(w: Watch, i: Input) {
    && w.end == Running && i.what == Close && w.timer.Some? && !w.m.cancelled && !i.stop
    && w.last.Some? && w.m.now + i.after < w.last.value + w.m.minInterval
  }

  ghost predicate SomeClosesEarly(w: Watch, inputs: seq<Input>) {
    exists n: nat :: n < |inputs| && ClosesEarly(Turns(w, inputs[..n]), inputs[n])
  }

  /** An attempt that opens a subscription which then closes early. */
  ghost predicate AttemptsEarly(r: Life, a: Attempt) {
    !r.over && !r.w.m.cancelled && a.Opened? && SomeClosesEarly(Opening(r), a.inputs)
  }

  ghost predicate SomeAttemptsEarly(r: Life, b: Backoffs, attempts: seq<Attempt>) {
    exists n: nat :: n < |attempts| && AttemptsEarly(Lived(r, b, attempts[..n]), attempts[n])
  }

  /** What a turn keeps: the last trigger is known, and a pending timer waits out the interval. */
  ghost predicate Paced(w: Watch) {
    && w.last == LastAt(w.ts) && (w.last.Some? ==> w.last.value <= w.m.now)
    && (w.timer.Some? && w.last.Some? ==> w.timer.value.due >= w.last.value + w.m.minInterval)
  }

  lemma EarlySnoc(ts: seq<Trigger>, t: Trigger, gap: int)
    ensures HasEarly(ts + [t], gap) <==> HasEarly(ts, gap) || (ts != [] && t.at - ts[|ts| - 1].at < gap)
  {
    var more := ts + [t];
    if i :| 0 < i < |ts| && ts[i].at - ts[i - 1].at < gap {
      assert more[i].at - more[i - 1].at < gap;
    }
    if ts != [] && t.at - ts[|ts| - 1].at < gap {
      assert more[|ts|].at - more[|ts| - 1].at < gap;
    }
  }

  lemma FiredIsEarlyIff(w: Watch, cause: Cause, p: Pending)
    requires w.last == LastAt(w.ts)
    ensures var f := Fired(w, cause, p);
      && f.last == LastAt(f.ts) && f.m == w.m && f.timer == w.timer && f.end == w.end
      && f.last == (if w.m.cancelled then w.last else Some(w.m.now))
      && (HasEarly(f.ts, w.m.minInterval) <==>
            HasEarly(w.ts, w.m.minInterval) || (!w.m.cancelled && w.last.Some? && w.m.now < w.last.value + w.m.minInterval))
  {
    if !w.m.cancelled {
      EarlySnoc(w.ts, Fired(w, cause, p).ts[|w.ts|], w.m.minInterval);
    }
    hide HasEarly;
  }

  /** One turn triggers early exactly when it takes an early close. */
  lemma TurnIsEarlyIff(w: Watch, i: Input)
    requires Paced(w)
    ensures Paced(Turn(w, i)) && Turn(w, i).m.minInterval == w.m.minInterval
    ensures HasEarly(Turn(w, i).ts, w.m.minInterval) <==> HasEarly(w.ts, w.m.minInterval) || ClosesEarly(w, i)
  {
    var later := w.(m := Clock(w, i));
    if w.timer.Some? {
      FiredIsEarlyIff(later, Timer, w.timer.value);
      FiredIsEarlyIff(later, Closed, w.timer.value);
    }
    hide HasEarly, Fired, LastAt;
    match i.what
    case Drift(_) =>
    case Fire =>
    case Close =>
    case Done =>
  }

  lemma {:induction false} TurnsAreEarlyIff(w: Watch, inputs: seq<Input>)
    requires Paced(w)
    ensures Paced(Turns(w, inputs)) && Turns(w, inputs).m.minInterval == w.m.minInterval
    ensures HasEarly(Turns(w, inputs).ts, w.m.minInterval) <==> HasEarly(w.ts, w.m.minInterval) || SomeClosesEarly(w, inputs)
  {
    if inputs != [] {
      var n := |inputs| - 1;
      var most := inputs[..n];
      TurnsAreEarlyIff(w, most);
      TurnIsEarlyIff(Turns(w, most), inputs[n]);
      hide HasEarly, Turn, ClosesEarly, Paced;
      SomeClosesSnoc(w, inputs);
    }
  }

  lemma SomeClosesSnoc(w: Watch, inputs: seq<Input>)
    requires inputs != []
    ensures var n := |inputs| - 1;
      SomeClosesEarly(w, inputs) <==> SomeClosesEarly(w, inputs[..n]) || ClosesEarly(Turns(w, inputs[..n]), inputs[n])
  {
    hide Turns, ClosesEarly;
    var n := |inputs| - 1;
    forall k: nat | k < n ensures inputs[..n][..k] == inputs[..k] && inputs[..n][k] == inputs[k] {}
    if SomeClosesEarly(w, inputs) {
      var k: nat :| k < |inputs| && ClosesEarly(Turns(w, inputs[..k]), inputs[k]);
      assert k < n ==> ClosesEarly(Turns(w, inputs[..n][..k]), inputs[..n][k]);
    }
    if SomeClosesEarly(w, inputs[..n]) {
      var k: nat :| k < n && ClosesEarly(Turns(w, inputs[..n][..k]), inputs[..n][k]);
      assert ClosesEarly(Turns(w, inputs[..k]), inputs[k]);
    }
  }

  /** What holds before each attempt: the interval since the last trigger is over, and the backoff is no shorter. */
  ghost predicate Rested(r: Life) {
    && Paced(r.w) && (r.backoff == 0 || r.backoff >= r.w.m.minInterval)
    && (!r.over ==> r.w.last.Some? ==> r.w.m.now >= r.w.last.value + r.w.m.minInterval)
  }

  lemma OpeningIsPaced(r: Life)
    requires Rested(r) && !r.over
    ensures Paced(Opening(r)) && Opening(r).m == r.w.m
    ensures HasEarly(Opening(r).ts, r.w.m.minInterval) <==> HasEarly(r.w.ts, r.w.m.minInterval)
  {
    EarlySnoc(r.w.ts, Trigger(r.w.m.now, Back, r.w.m.now, r.w.m.now, map[]), r.w.m.minInterval);
    hide HasEarly;
  }

  lemma RetryRests(r: Life, b: Backoffs, held: int, pause: nat, stop: bool)
    requires Paced(r.w) && (r.backoff == 0 || r.backoff >= r.w.m.minInterval) && !r.over
    requires 0 <= r.w.m.minInterval <= b.min && r.w.m.minInterval <= b.max
    ensures Rested(Retried(r, b, held, pause, stop)) && Retried(r, b, held, pause, stop).w.ts == r.w.ts
    ensures Retried(r, b, held, pause, stop).w.m.minInterval == r.w.m.minInterval
  {
    BackoffAtLeast(r.backoff, held, b.min, b.max, r.w.m.minInterval);
  }

  lemma SubscribedIsEarlyIff(r: Life, inputs: seq<Input>)
    requires Rested(r) && !r.over
    ensures Paced(Subscribed(r, inputs)) && Subscribed(r, inputs).m.minInterval == r.w.m.minInterval
    ensures HasEarly(Subscribed(r, inputs).ts, r.w.m.minInterval) <==> HasEarly(r.w.ts, r.w.m.minInterval) || SomeClosesEarly(Opening(r), inputs)
  {
    OpeningIsPaced(r);
    TurnsAreEarlyIff(Opening(r), inputs);
    hide HasEarly, Turns, SomeClosesEarly, Opening;
  }

  lemma AttemptIsEarlyIff(r: Life, b: Backoffs, a: Attempt)
    requires Rested(r) && 0 <= r.w.m.minInterval <= b.min && r.w.m.minInterval <= b.max
    ensures Rested(Attempted(r, b, a)) && Attempted(r, b, a).w.m.minInterval == r.w.m.minInterval
    ensures HasEarly(Attempted(r, b, a).w.ts, r.w.m.minInterval) <==> HasEarly(r.w.ts, r.w.m.minInterval) || AttemptsEarly(r, a)
  {
    hide HasEarly, Subscribed, SomeClosesEarly, Retried, Opening;
    if !r.over && !r.w.m.cancelled {
      match a
      case Unsupported =>
      case Refused(pause, stop) =>
        RetryRests(r, b, 0, pause, stop);
      case Opened(inputs, pause, stop) =>
        SubscribedIsEarlyIff(r, inputs);
        var held := r.(w := Subscribed(r, inputs), outage := false);
        if held.w.end == Ended {
          RetryRests(held, b, held.w.m.now - r.w.m.now, pause, stop);
        }
    }
  }

  lemma SomeAttemptsSnoc(r: Life, b: Backoffs, attempts: seq<Attempt>)
    requires attempts != []
    ensures var n := |attempts| - 1;
      SomeAttemptsEarly(r, b, attempts) <==> SomeAttemptsEarly(r, b, attempts[..n]) || AttemptsEarly(Lived(r, b, attempts[..n]), attempts[n])
  {
    hide Lived, AttemptsEarly;
    var n := |attempts| - 1;
    forall k: nat | k < n ensures attempts[..n][..k] == attempts[..k] && attempts[..n][k] == attempts[k] {}
    if SomeAttemptsEarly(r, b, attempts) {
      var k: nat :| k < |attempts| && AttemptsEarly(Lived(r, b, attempts[..k]), attempts[k]);
      assert k < n ==> AttemptsEarly(Lived(r, b, attempts[..n][..k]), attempts[..n][k]);
    }
    if SomeAttemptsEarly(r, b, attempts[..n]) {
      var k: nat :| k < n && AttemptsEarly(Lived(r, b, attempts[..n][..k]), attempts[..n][k]);
      assert AttemptsEarly(Lived(r, b, attempts[..k]), attempts[k]);
    }
  }

  lemma {:induction false} LifeIsEarlyIff(r: Life, b: Backoffs, attempts: seq<Attempt>)
    requires Rested(r) && 0 <= r.w.m.minInterval <= b.min && r.w.m.minInterval <= b.max
    ensures Rested(Lived(r, b, attempts)) && Lived(r, b, attempts).w.m.minInterval == r.w.m.minInterval
    ensures HasEarly(Lived(r, b, attempts).w.ts, r.w.m.minInterval) <==> HasEarly(r.w.ts, r.w.m.minInterval) || SomeAttemptsEarly(r, b, attempts)
  {
    hide HasEarly, AttemptsEarly, Attempted, Rested;
    if attempts != [] {
      var most := attempts[..|attempts| - 1];
      LifeIsEarlyIff(r, b, most);
      AttemptIsEarlyIff(Lived(r, b, most), b, attempts[|attempts| - 1]);
      SomeAttemptsSnoc(r, b, attempts);
    }
  }

  /**
   Exactly when the minimum interval is not one between every two triggers: some subscription of
   the run closes with a trigger pending before the interval since the last trigger is over.
   */
  lemma EarlyIff(m: Moment, b: Backoffs, attempts: seq<Attempt>)
    requires 0 <= m.minInterval <= b.min && m.minInterval <= b.max
    ensures HasEarly(Lived(Born(m), b, attempts).w.ts, m.minInterval) <==> SomeAttemptsEarly(Born(m), b, attempts)
  {
    LifeIsEarlyIff(Born(m), b, attempts);
  }

  /** The first subscribe fails; the second succeeds, sees drift and fails at the same instant. */
  function QuickFailure(): seq<Attempt> {
    [Refused(0, false), Opened([Input(0, false, Drift("route")), Input(0, false, Close)], 0, false)]
  }

  lemma QuickFailureTurns(m: Moment, b: Backoffs) returns (w: Watch)
    requires !m.cancelled
    ensures var attempts, retried := QuickFailure(), Retried(Born(m), b, 0, 0, false);
      && Lived(Born(m), b, attempts[..1]) == retried && Lived(Born(m), b, attempts) == Attempted(retried, b, attempts[1])
      && w == Turn(Opening(retried), attempts[1].inputs[0]) == Turns(Opening(retried), attempts[1].inputs[..1])
      && Turn(w, attempts[1].inputs[1]) == Turns(Opening(retried), attempts[1].inputs)
  {
    var as0 := QuickFailure();
    var inputs := as0[1].inputs;
    var r0, r1 := Born(m), Retried(Born(m), b, 0, 0, false);
    LivedStart(r0, b, as0);
    LivedSnoc(r0, b, as0, 0);
    LivedSnoc(r0, b, as0, 1);
    assert as0[..2] == as0;
    assert Turns(Opening(r1), inputs[..0]) == Opening(r1);
    TurnsSnoc(Opening(r1), inputs, 0);
    TurnsSnoc(Opening(r1), inputs, 1);
    assert inputs[..2] == inputs;
    w := Turn(Opening(r1), inputs[0]);
  }

  /** Such a run, whatever the settings are: its early close triggers at the very instant of the trigger before it. */
  lemma TwoMayBeClose(m: Moment, b: Backoffs)
    requires !m.cancelled && m.minInterval > 0
    ensures SomeAttemptsEarly(Born(m), b, QuickFailure())
    ensures var ts := Lived(Born(m), b, QuickFailure()).w.ts; |ts| == 2 && ts[0].at == ts[1].at && ts[0].cause == Back && ts[1].cause == Closed
  {
    var as0 := QuickFailure();
    var inputs := as0[1].inputs;
    var w := QuickFailureTurns(m, b);
    var r1 := Lived(Born(m), b, as0[..1]);
    hide Turns, Lived;
    var now := r1.w.m.now;
    var back := Trigger(now, Back, now, now, map[]);
    assert Opening(r1).ts == [back] && w.timer.Some?;
    assert ClosesEarly(Turns(Opening(r1), inputs[..1]), inputs[1]);
    assert AttemptsEarly(r1, as0[1]);
    assert Turns(Opening(r1), inputs).ts == [back, Trigger(now, Closed, now, w.timer.value.due, w.counts)];
  }

  lemma StartsEmpty(m: Moment, lo: int, hi: int)
    ensures WellTriggered(m, None, [], []) && Conserved([], [], [], map[]) && NothingPending(map[]) && BackoffChain([], [], lo, hi)
  {
  }

  lemma WellTriggeredMeans(m: Moment, last: Option<int>, ts: seq<Trigger>)
    requires WellTriggered(m, last, [], ts)
    ensures Spaced(ts, m.minInterval) && Prompt(ts, m.Latest()) && Armed(ts, m.debounce, m.minInterval) && (ts != [] ==> ts[|ts| - 1].at <= m.now)
  {
  }

  lemma WellTriggeredLater(m: Moment, n: Moment, last: Option<int>, ts: seq<Trigger>)
    requires WellTriggered(m, last, [], ts) && After(m, n)
    ensures WellTriggered(n, last, [], ts)
  {
  }

  lemma BackStep(m: Moment, last: Option<int>, kinds: seq<string>, ts: seq<Trigger>, counts: map<string, nat>)
    requires WellTriggered(m, last, [], ts) && Conserved([], kinds, ts, counts)
    requires ts != [] ==> m.now - ts[|ts| - 1].at >= m.minInterval
    ensures var t := Trigger(m.now, Back, m.now, m.now, map[]);
      WellTriggered(m, Some(m.now), [], ts + [t]) && Conserved([], kinds, ts + [t], counts)
  {
    var t := Trigger(m.now, Back, m.now, m.now, map[]);
    SumSnoc(ts, t);
    ArmedSnoc(ts, t, m.debounce, m.minInterval);
    hide Sum, Taken, Spaced, Armed;
    if ts != [] { SpacedSnoc(ts, t, m.minInterval); } else { SpacedSnoc(ts, t, m.minInterval); }
  }

  lemma StartConsuming(m: Moment, last: Option<int>, base: seq<Trigger>)
    requires WellTriggered(m, last, [], base)
    requires base != [] && base[|base| - 1].cause == Closed ==> m.now - base[|base| - 1].at >= m.minInterval
    ensures Consuming(m, None, map[], last, [], base, base)
  {
  }

  lemma {:induction false} TakenConcat(a: seq<string>, b: seq<string>, kind: string)
    ensures Taken(a + b, kind) == Taken(a, kind) + Taken(b, kind)
  {
    if b == [] {
      assert a + b == a;
    } else {
      TakenConcat(a, b[..|b| - 1], kind);
      assert (a + b)[..|a + b| - 1] == a + b[..|b| - 1];
    }
  }

  lemma Rebase(m: Moment, last: Option<int>, before: seq<string>, events: seq<string>, base: seq<Trigger>, ts: seq<Trigger>,
               counts0: map<string, nat>, counts: map<string, nat>)
    requires WellTriggered(m, last, base, ts) && Conserved(base, events, ts, counts)
    requires Conserved([], before, base, counts0) && NothingPending(counts0)
    ensures WellTriggered(m, last, [], ts) && Conserved([], before + events, ts, counts)
  {
    forall kind ensures Sum([], kind) + Taken(before + events, kind) == Sum(ts, kind) + Get(counts, kind) {
      TakenConcat(before, events, kind);
      assert Sum(base, kind) + Taken(events, kind) == Sum(ts, kind) + Get(counts, kind);
      assert Sum([], kind) + Taken(before, kind) == Sum(base, kind) + Get(counts0, kind);
      assert Get(counts0, kind) == 0;
    }
  }

  lemma BackoffStep(waits: seq<int>, lived: seq<int>, backoff: int, held: int, lo: int, hi: int)
    requires BackoffChain(waits, lived, lo, hi) && backoff == if waits == [] then 0 else waits[|waits| - 1]
    ensures BackoffChain(waits + [NextBackoff(backoff, held, lo, hi)], lived + [held], lo, hi)
  {
    var ws, ls := waits + [NextBackoff(backoff, held, lo, hi)], lived + [held];
    forall i: nat | i < |ws| ensures ChainAt(ws, ls, lo, hi, i) {
      if i < |waits| { assert ChainAt(waits, lived, lo, hi, i); }
    }
  }

  lemma CountStep(base: seq<Trigger>, kinds: seq<string>, ts: seq<Trigger>, counts: map<string, nat>, kind: string)
    requires Conserved(base, kinds, ts, counts)
    ensures Conserved(base, kinds + [kind], ts, counts[kind := Get(counts, kind) + 1])
  {
    TakenSnoc(kinds, kind);
    hide Sum, Taken;
  }
}
