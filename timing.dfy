/**
 * The rate-limiting wrappers of app.js: the leading-edge `throttle` and the trailing-edge
 * `Utils.debounce`, each a closure over one variable that a timer updates.
 *
 * Time is a logical clock in milliseconds. The model assumes that every timer runs at exactly
 * its due time, so when a call arrives at time t every timer due at or before t has already run.
 * With a delay of 0 this also runs the timer before a second call made in the same task, which
 * the browser would not do.
 */
module Timing {
  import opened Wrappers
  import opened Seqs

  /** The throttle closure: `inThrottle` and the due time of the timer that clears it. */
  class Throttle {
    const limit: nat
    var inThrottle: bool
    /** Due time of the pending `inThrottle = false` timer; meaningful while inThrottle. */
    var releaseAt: int

    /** throttle(func, limit): `let inThrottle;` starts undefined, which is falsy. */
    constructor (limit: nat)
      ensures this.limit == limit && !inThrottle
    {
      this.limit := limit;
      inThrottle := false;
      releaseAt := 0;
    }

    /** The pending reset as the specification sees it: None when calls pass. */
    function Pending(): Option<int>
      reads this
    {
      if inThrottle then Some(releaseAt) else None
    }

    /** The event loop at time `now`: the reset timer runs if it is due. */
    method RunTimers(now: int)
      modifies this
      ensures inThrottle == (old(inThrottle) && now < old(releaseAt))
      ensures releaseAt == old(releaseAt)
    {
      if inThrottle && releaseAt <= now {
        inThrottle := false;
      }
    }

    /**
     * A call of the throttled function at `now`. It is forwarded to func exactly when
     * inThrottle is false; forwarding sets inThrottle and schedules its reset at now + limit.
     * A dropped call changes nothing and leaves no trailing call behind.
     */
    method Invoke(now: int) returns (forwarded: bool)
      modifies this
      ensures forwarded == !old(inThrottle)
      ensures inThrottle
      ensures releaseAt == if forwarded then now + limit else old(releaseAt)
    {
      if !inThrottle {
        forwarded := true;  // func.apply(context, args)
        inThrottle := true;
        releaseAt := now + limit;
      } else {
        forwarded := false;
      }
    }
  }

  /** Which of the calls at `times` are forwarded, when the reset is pending until `release`. */
  function ThrottleFrom(limit: nat, times: seq<int>, release: Option<int>): (r: seq<bool>)
    ensures |r| == |times|
    decreases |times|
  {
    if times == [] then []
    else if release.None? || release.value <= times[0] then [true] + ThrottleFrom(limit, times[1..], Some(times[0] + limit))
    else [false] + ThrottleFrom(limit, times[1..], release)
  }

  /** Which calls a fresh throttle forwards. */
  function ThrottleTrace(limit: nat, times: seq<int>): (r: seq<bool>)
    ensures |r| == |times|
  {
    ThrottleFrom(limit, times, None)
  }

  predicate NonDecreasing(times: seq<int>) {
    forall i, j :: 0 <= i < j < |times| ==> times[i] <= times[j]
  }

  /** Calls of a fresh throttle at the given times; `forwarded[i]` says whether call i reached func. */
  method RunThrottle(limit: nat, times: seq<int>) returns (forwarded: seq<bool>)
    ensures forwarded == ThrottleTrace(limit, times)
  {
    var t := new Throttle(limit);
    forwarded := [];
    var i := 0;
    while i < |times|
      invariant 0 <= i <= |times|
      invariant t.limit == limit
      invariant forwarded + ThrottleFrom(limit, times[i..], t.Pending()) == ThrottleTrace(limit, times)
    {
      ghost var before := t.Pending();
      assert times[i..][0] == times[i] && times[i..][1..] == times[i + 1..];
      t.RunTimers(times[i]);
      var f := t.Invoke(times[i]);
      assert ThrottleFrom(limit, times[i..], before) == [f] + ThrottleFrom(limit, times[i + 1..], t.Pending());
      AppendAssoc(forwarded, [f], ThrottleFrom(limit, times[i + 1..], t.Pending()));
      forwarded := forwarded + [f];
      i := i + 1;
    }
    assert times[i..] == [];
  }

  /**
   * On a clock that never goes back, call i is forwarded exactly when the reset it starts
   * with is due by then and every earlier forwarded call lies at least `limit` before it.
   */
  lemma {:induction false} ThrottleFromForwards(limit: nat, times: seq<int>, release: Option<int>, i: nat)
    requires NonDecreasing(times) && i < |times|
    ensures ThrottleFrom(limit, times, release)[i] <==>
      (release.None? || release.value <= times[i]) &&
      forall j :: 0 <= j < i && ThrottleFrom(limit, times, release)[j] ==> times[j] + limit <= times[i]
    decreases |times|
  {
    if i > 0 {
      var rest := times[1..];
      var open := release.None? || release.value <= times[0];
      var next := if open then Some(times[0] + limit) else release;
      var r := ThrottleFrom(limit, times, release);
      assert r == [open] + ThrottleFrom(limit, rest, next);
      assert r[1..] == ThrottleFrom(limit, rest, next) && rest[i - 1] == times[i];
      NonDecreasingTail(times);
      ThrottleFromForwards(limit, rest, next, i - 1);
      SpacedShift(limit, times, r, i);
      assert times[0] <= times[i];
    }
  }

  lemma NonDecreasingTail(times: seq<int>)
    requires NonDecreasing(times) && times != []
    ensures NonDecreasing(times[1..])
  {
  }

  /** "Every earlier forwarded call is at least `limit` before call i", split into call 0 and the calls after it. */
  lemma SpacedShift(limit: nat, times: seq<int>, flags: seq<bool>, i: nat)
    requires 0 < i < |times| && |flags| == |times|
    ensures (forall j :: 0 <= j < i && flags[j] ==> times[j] + limit <= times[i]) <==>
            (flags[0] ==> times[0] + limit <= times[i]) &&
            (forall j :: 0 <= j < i - 1 && flags[1..][j] ==> times[1..][j] + limit <= times[i])
  {
    var tail := forall j :: 0 <= j < i - 1 && flags[1..][j] ==> times[1..][j] + limit <= times[i];
    if tail {
      forall j | 1 <= j < i && flags[j] ensures times[j] + limit <= times[i] {
        assert flags[1..][j - 1] == flags[j] && times[1..][j - 1] == times[j];
      }
    }
  }

  /** A fresh throttle forwards call i exactly when no forwarded call lies less than `limit` before it. */
  lemma ThrottleForwardsIff(limit: nat, times: seq<int>, i: nat)
    requires NonDecreasing(times) && i < |times|
    ensures ThrottleTrace(limit, times)[i] <==>
      forall j :: 0 <= j < i && ThrottleTrace(limit, times)[j] ==> times[j] + limit <= times[i]
  {
    ThrottleFromForwards(limit, times, None, i);
  }

  /** Calls at t, t + 5 and t + 50 with limit 40: the first and the third reach func, the second is dropped. */
  lemma ThrottleExample(t: int)
    ensures ThrottleTrace(40, [t, t + 5, t + 50]) == [true, false, true]
  {
    var times := [t, t + 5, t + 50];
    assert times[1..] == [t + 5, t + 50] && times[1..][1..] == [t + 50];
    assert ThrottleFrom(40, [t + 50], Some(t + 40)) == [true] + ThrottleFrom(40, [], Some(t + 90));
    assert ThrottleFrom(40, [t + 5, t + 50], Some(t + 40)) == [false] + ThrottleFrom(40, [t + 50], Some(t + 40));
    assert ThrottleFrom(40, times, None) == [true] + ThrottleFrom(40, [t + 5, t + 50], Some(t + 40));
  }

  /** A pending debounced call: when its timer is due and the arguments it will pass. */
  datatype Fire<A> = Fire(time: int, args: A)

  /** A call of the debounced function: when it happens and its arguments. */
  datatype Call<A> = Call(time: int, args: A)

  /** The debounce closure's `timeout`: the pending timer, if any. */
  class Debouncer<A> {
    const wait: nat
    var pending: Option<Fire<A>>

    /** debounce(func, wait): no timer yet. */
    constructor (wait: nat)
      ensures this.wait == wait && pending == None
    {
      this.wait := wait;
      pending := None;
    }

    /** A call at `now`: clearTimeout(timeout), then a new timer for these arguments at now + wait. */
    method Invoke(now: int, args: A)
      modifies this
      ensures pending == Some(Fire(now + wait, args))
    {
      pending := Some(Fire(now + wait, args));
    }

    /** The event loop at time `now`: a due timer runs `later`, which calls func with its arguments. */
    method RunTimers(now: int) returns (fired: Option<Fire<A>>)
      modifies this
      ensures old(pending).Some? && old(pending).value.time <= now ==> fired == old(pending) && pending == None
      ensures !(old(pending).Some? && old(pending).value.time <= now) ==> fired == None && pending == old(pending)
    {
      if pending.Some? && pending.value.time <= now {
        fired := pending;
        pending := None;
      } else {
        fired := None;
      }
    }
  }

  function FireOf<A>(c: Call<A>, wait: nat): Fire<A> {
    Fire(c.time + wait, c.args)
  }

  /** Call i is followed by a quiet period: it is the last call, or the next one comes `wait` or more later. */
  predicate QuietAfter<A>(wait: nat, calls: seq<Call<A>>, i: nat)
    requires i < |calls|
  {
    i == |calls| - 1 || calls[i + 1].time >= calls[i].time + wait
  }

  /** The runs of func caused by calls 0 .. k - 1, each of which has a successor (k < |calls|). */
  function FiredBefore<A>(wait: nat, calls: seq<Call<A>>, k: nat): seq<Fire<A>>
    requires k < |calls|
  {
    if k == 0 then []
    else FiredBefore(wait, calls, k - 1) + (if QuietAfter(wait, calls, k - 1) then [FireOf(calls[k - 1], wait)] else [])
  }

  /** The runs of func, in order: one per quiet period, with the arguments of the call that began it. */
  function DebounceTrace<A>(wait: nat, calls: seq<Call<A>>): seq<Fire<A>> {
    if calls == [] then [] else FiredBefore(wait, calls, |calls| - 1) + [FireOf(calls[|calls| - 1], wait)]
  }

  /** Calls of a fresh debounced function, after which the event loop runs until nothing is pending. */
  method RunDebounce<A>(wait: nat, calls: seq<Call<A>>) returns (fires: seq<Fire<A>>)
    ensures fires == DebounceTrace(wait, calls)
  {
    var d := new Debouncer<A>(wait);
    fires := [];
    var i := 0;
    while i < |calls|
      invariant 0 <= i <= |calls|
      invariant d.wait == wait
      invariant i == 0 ==> d.pending == None && fires == []
      invariant i > 0 ==> d.pending == Some(FireOf(calls[i - 1], wait)) && fires == FiredBefore(wait, calls, i - 1)
    {
      var fired := d.RunTimers(calls[i].time);
      if fired.Some? {
        fires := fires + [fired.value];
      }
      d.Invoke(calls[i].time, calls[i].args);
      i := i + 1;
    }
    if d.pending.Some? {
      var fired := d.RunTimers(d.pending.value.time);
      fires := fires + [fired.value];
    }
  }

  /** A quiet call leads to a run of func with its arguments; every run comes from such a call. */
  lemma {:induction false} FiredBeforeIsQuiet<A>(wait: nat, calls: seq<Call<A>>, k: nat)
    requires k < |calls|
    ensures forall i :: 0 <= i < k && QuietAfter(wait, calls, i) ==> FireOf(calls[i], wait) in FiredBefore(wait, calls, k)
    ensures forall f :: f in FiredBefore(wait, calls, k) ==>
      exists i :: 0 <= i < k && QuietAfter(wait, calls, i) && f == FireOf(calls[i], wait)
  {
    if k > 0 {
      FiredBeforeIsQuiet(wait, calls, k - 1);
    }
  }

  /** func runs for call i exactly when a quiet period follows it, with call i's arguments at time + wait. */
  lemma DebounceRunsPerQuietPeriod<A>(wait: nat, calls: seq<Call<A>>)
    ensures forall i :: 0 <= i < |calls| && QuietAfter(wait, calls, i) ==> FireOf(calls[i], wait) in DebounceTrace(wait, calls)
    ensures forall f :: f in DebounceTrace(wait, calls) ==>
      exists i :: 0 <= i < |calls| && QuietAfter(wait, calls, i) && f == FireOf(calls[i], wait)
  {
    if calls != [] {
      FiredBeforeIsQuiet(wait, calls, |calls| - 1);
    }
  }

  /** Inside a burst (every gap before call k shorter than `wait`) no call before k has run func yet. */
  lemma {:induction false} FiredBeforeBurst<A>(wait: nat, calls: seq<Call<A>>, k: nat)
    requires k < |calls|
    requires forall i :: 0 < i <= k ==> calls[i].time < calls[i - 1].time + wait
    ensures FiredBefore(wait, calls, k) == []
  {
    if k > 0 {
      FiredBeforeBurst(wait, calls, k - 1);
    }
  }

  /** A burst whose gaps are all shorter than `wait` runs func once, with the last call's arguments. */
  lemma DebounceBurst<A>(wait: nat, calls: seq<Call<A>>)
    requires calls != []
    requires forall i :: 0 < i < |calls| ==> calls[i].time < calls[i - 1].time + wait
    ensures DebounceTrace(wait, calls) == [FireOf(calls[|calls| - 1], wait)]
  {
    FiredBeforeBurst(wait, calls, |calls| - 1);
  }

  /** Calls at t, t + 5 and t + 10 with wait 20: func runs once, at t + 30, with the last call's arguments. */
  lemma DebounceExample<A>(t: int, a: A, b: A, c: A)
    ensures DebounceTrace(20, [Call(t, a), Call(t + 5, b), Call(t + 10, c)]) == [Fire(t + 30, c)]
  {
    DebounceBurst(20, [Call(t, a), Call(t + 5, b), Call(t + 10, c)]);
  }
}
