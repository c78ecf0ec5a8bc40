/**
 * `debounce` of frontend/src/utils/debounce.ts as a state machine. The closure variable
 * `timeout` is a field; the browser's timer queue is modelled by the timers it holds, and
 * a timer firing is an explicit event rather than the passing of real time. Each call
 * carries its arguments and `this` together as one value of type `A`.
 */
module Debounce {
  import opened Wrappers

  /** A scheduled `later` callback: its timer id and the call it was scheduled for. */
  datatype Timer<A> = Timer(id: nat, call: A)

  /** The timers of `timers` other than the one with id `id` (`clearTimeout`). */
  function Without<A>(timers: seq<Timer<A>>, id: nat): (r: seq<Timer<A>>)
    ensures |r| <= |timers|
    ensures forall i :: 0 <= i < |r| ==> r[i] in timers && r[i].id != id
    ensures forall i :: 0 <= i < |timers| && timers[i].id != id ==> timers[i] in r
  {
    if timers == [] then []
    else (if timers[0].id == id then [] else [timers[0]]) + Without(timers[1..], id)
  }

  class Debounced<A> {
    /** The `immediate` flag `debounce` was created with. */
    const immediate: bool
    /** The closure variable `timeout`: the id of the pending timer, or null. */
    var timeout: Option<nat>
    /** The timers the browser holds for this debounced function. */
    var timers: seq<Timer<A>>
    /** The id the next `setTimeout` returns; browsers hand out positive ids. */
    var nextId: nat
    /** The calls `func` has received so far, in order. */
    var calls: seq<A>
    /** The most recent call of the debounced function. */
    ghost var latest: Option<A>

    /**
     * At most one timer is ever pending, and it is the one `timeout` remembers, scheduled
     * for the latest call.
     */
    ghost predicate Valid()
      reads this
    {
      && |timers| <= 1
      && (timeout.None? <==> timers == [])
      && (timeout.Some? ==> timers[0].id == timeout.value && 0 < timeout.value < nextId)
      && (timeout.Some? ==> latest == Some(timers[0].call))
      && nextId > 0
    }

    /** `debounce(func, wait, immediate)`: nothing pending, nothing called. */
    constructor (immediate: bool)
      ensures Valid()
      ensures this.immediate == immediate
      ensures timeout.None? && timers == [] && calls == [] && latest.None?
    {
      this.immediate := immediate;
      timeout := None;
      timers := [];
      nextId := 1;
      calls := [];
      latest := None;
    }

    /**
     * A call of the debounced function: the pending timer, if any, is cleared and a new
     * one is scheduled; in immediate mode `func` runs now exactly when nothing was pending.
     */
    method Call(call: A)
      requires Valid()
      modifies this
      ensures Valid()
      ensures timeout == Some(old(nextId)) && timers == [Timer(old(nextId), call)]
      ensures latest == Some(call)
      ensures immediate && old(timeout).None? ==> calls == old(calls) + [call]
      ensures !(immediate && old(timeout).None?) ==> calls == old(calls)
    {
      var callNow := immediate && timeout.None?;
      if timeout.Some? {
        timers := Without(timers, timeout.value);
      }
      timers := timers + [Timer(nextId, call)];
      timeout := Some(nextId);
      nextId := nextId + 1;
      latest := Some(call);
      if callNow {
        calls := calls + [call];
      }
    }

    /**
     * The pending timer fires (`later`): `timeout` becomes null and, unless in immediate
     * mode, `func` runs with the latest call. With nothing pending nothing happens.
     */
    method Expire()
      requires Valid()
      modifies this
      ensures Valid()
      ensures timeout.None? && timers == []
      ensures latest == old(latest) && nextId == old(nextId)
      ensures old(timeout).Some? && !immediate ==> calls == old(calls) + [old(latest).value]
      ensures old(timeout).None? || immediate ==> calls == old(calls)
    {
      if timers != [] {
        var fired := timers[0];
        timers := timers[1..];
        timeout := None;
        if !immediate {
          calls := calls + [fired.call];
        }
      }
    }

    /** `cancel`: a pending timer is cleared, so no deferred call happens. */
    method Cancel()
      requires Valid()
      modifies this
      ensures Valid()
      ensures timeout.None? && timers == []
      ensures calls == old(calls) && latest == old(latest) && nextId == old(nextId)
    {
      if timeout.Some? {
        timers := Without(timers, timeout.value);
        timeout := None;
      }
    }
  }

  /**
   * A burst of calls followed by one expiry, in non-immediate mode: `func` runs once,
   * with the last call of the burst.
   */
  method Burst<A>(burst: seq<A>) returns (d: Debounced<A>)
    requires burst != []
    ensures d.Valid() && d.calls == [burst[|burst| - 1]] && d.timeout.None?
  {
    d := new Debounced(false);
    for i := 0 to |burst|
      invariant d.Valid() && !d.immediate && d.calls == []
      invariant i > 0 ==> d.latest == Some(burst[i - 1]) && d.timeout.Some?
    {
      d.Call(burst[i]);
    }
    d.Expire();
  }

  /**
   * The same burst in immediate mode: `func` runs once, at once, with the first call, and
   * the expiry does not run it again.
   */
  method ImmediateBurst<A>(burst: seq<A>) returns (d: Debounced<A>)
    requires burst != []
    ensures d.Valid() && d.calls == [burst[0]] && d.timeout.None?
  {
    d := new Debounced(true);
    d.Call(burst[0]);
    for i := 1 to |burst|
      invariant d.Valid() && d.immediate && d.calls == [burst[0]] && d.timeout.Some?
    {
      d.Call(burst[i]);
    }
    d.Expire();
  }
}
