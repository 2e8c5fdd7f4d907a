/**
 * The debounce on the amount field (the `input` listener of script.js): every
 * edit cancels the pending timer and arms a new one 500 ms ahead; when the
 * timer expires the conversion runs. Real timer scheduling becomes a one-slot
 * state machine driven by two events: an edit at time t, and a tick of the
 * event loop at time t, that fires the armed timer once its deadline has come.
 */
module Debounce {
  import opened Wrappers

  /** The delay of `setTimeout` in the listener, in milliseconds. */
  const Delay: int := 500

  /** The captured `timeout` handle: nothing scheduled, or a callback due at `deadline`. */
  datatype Timer = Idle | Armed(deadline: int)

  /**
   * An `input` event at `time` that leaves `value` (the parsed amount, `None`
   * for NaN) in the field, or a turn of the event loop at `time`.
   */
  datatype Event = Edit(time: int, value: Option<real>) | Tick(time: int)

  datatype TickStep = TickStep(timer: Timer, fired: bool)

  /**
   * An edit: `clearTimeout` drops whatever was pending, `setTimeout` arms a
   * new deadline, so the conversion runs at a tick 500 ms after the edit and
   * at no earlier one.
   */
  function OnEdit(t: Timer, now: int): (r: Timer)
    ensures OnTick(r, now + Delay).fired && !OnTick(r, now + Delay - 1).fired
  {
    Armed(now + Delay)
  }

  /** A tick: an armed timer whose deadline has come fires once and is used up. */
  function OnTick(t: Timer, now: int): TickStep
  {
    if t.Armed? && t.deadline <= now then TickStep(Idle, true) else TickStep(t, false)
  }

  /** The timer after a sequence of events, started from the page's initial, empty handle. */
  function Run(es: seq<Event>): Timer
    decreases |es|
  {
    if es == [] then Idle
    else
      var t := Run(es[..|es| - 1]);
      match es[|es| - 1]
      case Edit(now, _) => OnEdit(t, now)
      case Tick(now) => OnTick(t, now).timer
  }

  /** The value the amount field holds after `es`, starting from the page's `init`. */
  function LastValue(es: seq<Event>, init: Option<real>): Option<real>
    decreases |es|
  {
    if es == [] then init
    else if es[|es| - 1].Edit? then es[|es| - 1].value
    else LastValue(es[..|es| - 1], init)
  }

  /** Whether the `k`-th event is a tick that runs the conversion. */
  predicate FiredAt(es: seq<Event>, k: nat)
    requires k < |es|
  {
    es[k].Tick? && OnTick(Run(es[..k]), es[k].time).fired
  }

  /**
   * The reference notion of a pending conversion: the event at `i` is an edit
   * and everything after it, up to `k`, is a tick that came before its
   * deadline.
   */
  ghost predicate QuietSince(es: seq<Event>, i: nat, k: nat)
    requires i < k <= |es|
  {
    es[i].Edit? &&
    forall j :: i < j < k ==> es[j].Tick? && es[j].time < es[i].time + Delay
  }

  /**
   * The timer is armed with deadline `d` exactly when the last edit is
   * followed only by ticks that came too early, and `d` is that edit's time
   * plus 500 ms.
   */
  lemma {:induction false} RunArmed(es: seq<Event>, d: int)
    ensures Run(es) == Armed(d) <==>
      exists i :: 0 <= i < |es| && QuietSince(es, i, |es|) && d == es[i].time + Delay
    decreases |es|
  {
    if es == [] {
      return;
    }
    var n := |es| - 1;
    var prefix := es[..n];
    assert forall j :: 0 <= j < n ==> prefix[j] == es[j];
    RunArmed(prefix, d);
    match es[n]
    case Edit(now, _) =>
      if Run(es) == Armed(d) {
        assert QuietSince(es, n, |es|) && d == es[n].time + Delay;
      }
      assert forall i :: 0 <= i < n ==> !QuietSince(es, i, |es|);
    case Tick(now) =>
      if Run(es) == Armed(d) {
        assert Run(prefix) == Armed(d) && d > now;
        var i :| 0 <= i < n && QuietSince(prefix, i, n) && d == prefix[i].time + Delay;
        assert QuietSince(es, i, |es|);
      }
      if i :| 0 <= i < |es| && QuietSince(es, i, |es|) && d == es[i].time + Delay {
        assert i < n;
        assert QuietSince(prefix, i, n);
        assert Run(prefix) == Armed(d);
      }
  }

  /**
   * The conversion runs at the `k`-th event exactly when it is a tick at or
   * after the deadline of an edit that only early ticks have followed.
   */
  lemma FiredAtIff(es: seq<Event>, k: nat)
    requires k < |es|
    ensures FiredAt(es, k) <==>
      es[k].Tick? &&
      exists i :: 0 <= i < k && QuietSince(es, i, k) && es[i].time + Delay <= es[k].time
  {
    var prefix := es[..k];
    assert forall j :: 0 <= j < k ==> prefix[j] == es[j];
    if FiredAt(es, k) {
      var d := Run(prefix).deadline;
      RunArmed(prefix, d);
      var i :| 0 <= i < k && QuietSince(prefix, i, k) && d == prefix[i].time + Delay;
      assert QuietSince(es, i, k);
    }
    if es[k].Tick? && exists i :: 0 <= i < k && QuietSince(es, i, k) && es[i].time + Delay <= es[k].time {
      var i :| 0 <= i < k && QuietSince(es, i, k) && es[i].time + Delay <= es[k].time;
      assert QuietSince(prefix, i, k);
      RunArmed(prefix, es[i].time + Delay);
    }
  }

  /**
   * An edit leaves the same timer whatever was pending: the earlier handle
   * is cleared, not merged with the new one.
   */
  lemma EditReplacesPending(t1: Timer, t2: Timer, now: int)
    ensures OnEdit(t1, now) == OnEdit(t2, now)
  {
  }

  /** A timer that has fired is used up: no later tick fires it again. */
  lemma FiredTimerIsSpent(t: Timer, now: int, later: int)
    ensures OnTick(t, now).fired ==> !OnTick(OnTick(t, now).timer, later).fired
  {
  }

  /**
   * What happened before an edit never matters afterwards: the timer after
   * `pre`, an edit and then any `post` is the one after the edit and `post`
   * alone.
   */
  lemma {:induction false} EditForgetsHistory(pre: seq<Event>, e: Event, post: seq<Event>)
    requires e.Edit?
    ensures Run(pre + [e] + post) == Run([e] + post)
    decreases |post|
  {
    if post == [] {
      assert (pre + [e])[..|pre|] == pre;
      assert [e][..0] == [];
    } else {
      var n := |post| - 1;
      EditForgetsHistory(pre, e, post[..n]);
      assert (pre + [e] + post)[..|pre| + 1 + n] == pre + [e] + post[..n];
      assert ([e] + post)[..1 + n] == [e] + post[..n];
    }
  }

  /** Ticks leave the field's value as the edit before them set it. */
  lemma {:induction false} QuietValue(es: seq<Event>, i: nat, k: nat, init: Option<real>)
    requires i < k <= |es|
    requires QuietSince(es, i, k)
    ensures LastValue(es[..k], init) == es[i].value
    decreases k
  {
    var prefix := es[..k];
    assert prefix[..k - 1] == es[..k - 1];
    if k - 1 > i {
      QuietValue(es, i, k - 1, init);
    }
  }

  /**
   * When the debounced conversion runs at the `k`-th event, the amount it
   * reads is the value of the last edit before it, the edit whose deadline
   * has come.
   */
  lemma FiredConvertsLastEdit(es: seq<Event>, k: nat, init: Option<real>)
    requires k < |es| && FiredAt(es, k)
    ensures exists i ::
              0 <= i < k && QuietSince(es, i, k) && es[i].time + Delay <= es[k].time &&
              (forall j :: i < j < k ==> es[j].Tick?) && LastValue(es[..k], init) == es[i].value
  {
    FiredAtIff(es, k);
    var i :| 0 <= i < k && QuietSince(es, i, k) && es[i].time + Delay <= es[k].time;
    QuietValue(es, i, k, init);
  }

  /**
   * Between two conversions the debounce runs there is always an edit: a
   * burst of edits, however long, triggers at most one conversion.
   */
  lemma EditBetweenFirings(es: seq<Event>, k1: nat, k2: nat)
    requires k1 < k2 < |es|
    requires FiredAt(es, k1) && FiredAt(es, k2)
    ensures exists i :: k1 < i < k2 && es[i].Edit?
  {
    FiredAtIff(es, k1);
    FiredAtIff(es, k2);
    var i2 :| 0 <= i2 < k2 && QuietSince(es, i2, k2) && es[i2].time + Delay <= es[k2].time;
    var i1 :| 0 <= i1 < k1 && QuietSince(es, i1, k1) && es[i1].time + Delay <= es[k1].time;
    // The edit before k1 is not after the one before k2; were the one before k2
    // also before k1, they would be the same edit, and k1 would have come both
    // before and after its deadline.
    assert i1 <= i2;
    assert k1 < i2;
  }

  /**
   * Three edits 200 ms apart followed by ticks: the conversion runs once, at
   * the first tick 500 ms after the last edit, on the last edit's value.
   */
  lemma ThreeEditsOneConversion(a: Option<real>, b: Option<real>, c: Option<real>, init: Option<real>)
    ensures var es := [Edit(0, a), Edit(200, b), Edit(400, c), Tick(600), Tick(900), Tick(1500)];
      !FiredAt(es, 3) && FiredAt(es, 4) && !FiredAt(es, 5) && LastValue(es[..4], init) == c
  {
    var es := [Edit(0, a), Edit(200, b), Edit(400, c), Tick(600), Tick(900), Tick(1500)];
    assert es[..3] == [Edit(0, a), Edit(200, b), Edit(400, c)];
    assert es[..4] == es[..3] + [Tick(600)];
    assert es[..5] == es[..4] + [Tick(900)];
  }
}
