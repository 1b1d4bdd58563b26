/**
 * The process lifecycle loop `Run`: an optional initialiser, then a loop
 * that waits for the next of three events. A tick calls the optional
 * diagnostics callback; SIGINT runs the optional teardown callback and
 * returns, but only when that callback is present; SIGTERM logs a stack
 * snapshot and returns without teardown.
 *
 * The `select` may deliver ready events in any order, so `Run` is a fold
 * over an arbitrary event trace and records which callbacks fired.
 */
module App {

  datatype Event = Tick | SigInt | SigTerm

  /** Which of the three callbacks passed to `Run` are non-nil. */
  datatype Callbacks = Callbacks(hasInit: bool, hasUninit: bool, hasDump: bool)

  /** Observable effects of `Run`, in order. */
  datatype Effect = InitCalled | DumpCalled | UninitCalled | StackLogged

  /** What a run did: its effects, how many events it consumed, and whether it returned. */
  datatype Outcome = Outcome(effects: seq<Effect>, consumed: nat, returned: bool)

  /** The events on which the loop returns under the given callbacks. */
  predicate Ends(cb: Callbacks, e: Event)
  {
    e == SigTerm || (e == SigInt && cb.hasUninit)
  }

  /** The effect of the event that ended the loop. */
  function FinalEffect(e: Event): Effect
  {
    if e == SigTerm then StackLogged else UninitCalled
  }

  /** How many ticks a trace holds. */
  function CountTicks(t: seq<Event>): nat
  {
    multiset(t)[Tick]
  }

  /** `n` calls of the diagnostics callback. */
  function Dumps(n: nat): seq<Effect>
  {
    if n == 0 then [] else [DumpCalled] + Dumps(n - 1)
  }

  lemma {:induction false} OnlyDumpsInDumps(n: nat)
    ensures |Dumps(n)| == n
    ensures forall x :: x in Dumps(n) ==> x == DumpCalled
  {
    if n > 0 {
      OnlyDumpsInDumps(n - 1);
    }
  }

  /**
   * The `for { select … }` loop over a trace. It stops at the first ending
   * event and consumes the whole trace when there is none.
   */
  function Loop(cb: Callbacks, t: seq<Event>): (r: Outcome)
    ensures r.consumed <= |t|
    ensures r.returned <==> exists i :: 0 <= i < |t| && Ends(cb, t[i])
    ensures r.returned ==> 0 < r.consumed && Ends(cb, t[r.consumed - 1])
    ensures forall i :: 0 <= i < r.consumed - 1 ==> !Ends(cb, t[i])
    ensures !r.returned ==> r.consumed == |t|
    ensures InitCalled !in r.effects
  {
    if |t| == 0 then Outcome([], 0, false)
    else
      match t[0]
      case SigTerm => Outcome([StackLogged], 1, true)
      case SigInt =>
        if cb.hasUninit then Outcome([UninitCalled], 1, true)
        else
          var rest := Loop(cb, t[1..]);
          Outcome(rest.effects, rest.consumed + 1, rest.returned)
      case Tick =>
        var rest := Loop(cb, t[1..]);
        Outcome((if cb.hasDump then [DumpCalled] else []) + rest.effects, rest.consumed + 1, rest.returned)
  }

  /** Effects a loop with `n` ticks before its end produces. */
  function LoopEffects(cb: Callbacks, ticks: nat, ending: seq<Event>): seq<Effect>
  {
    Dumps(if cb.hasDump then ticks else 0) + (if |ending| == 1 then [FinalEffect(ending[0])] else [])
  }

  /** The effects `LoopEffectsAre` promises for the outcome `r` of the loop over `t`. */
  predicate EffectsMatch(cb: Callbacks, t: seq<Event>, r: Outcome)
    requires r.consumed <= |t| && (r.returned ==> r.consumed > 0)
  {
    r.effects == LoopEffects(cb, CountTicks(t[..r.consumed]), if r.returned then [t[r.consumed - 1]] else [])
  }

  lemma EndingEventEffects(cb: Callbacks, t: seq<Event>)
    requires |t| > 0 && Ends(cb, t[0])
    ensures EffectsMatch(cb, t, Loop(cb, t))
  {
  }

  /** One step of the loop on an event that does not end it. */
  lemma LoopCons(cb: Callbacks, e: Event, u: seq<Event>)
    requires !Ends(cb, e)
    ensures var rest := Loop(cb, u);
            Loop(cb, [e] + u)
              == Outcome((if e == Tick && cb.hasDump then [DumpCalled] else []) + rest.effects,
                         rest.consumed + 1, rest.returned)
  {
  }

  lemma TicksCons(e: Event, u: seq<Event>, c: nat)
    requires c <= |u|
    ensures CountTicks(([e] + u)[..c + 1]) == (if e == Tick then 1 else 0) + CountTicks(u[..c])
  {
    assert ([e] + u)[..c + 1] == [e] + u[..c];
  }

  lemma ContinuingEventEffects(cb: Callbacks, e: Event, u: seq<Event>)
    requires !Ends(cb, e)
    requires EffectsMatch(cb, u, Loop(cb, u))
    ensures EffectsMatch(cb, [e] + u, Loop(cb, [e] + u))
  {
    var rest := Loop(cb, u);
    var c := rest.consumed;
    LoopCons(cb, e, u);
    TicksCons(e, u, c);
    var fin := if rest.returned then [FinalEffect(u[c - 1])] else [];
    if rest.returned {
      assert ([e] + u)[c] == u[c - 1];
    }
    if e == Tick && cb.hasDump {
      assert Loop(cb, [e] + u).effects == ([DumpCalled] + Dumps(CountTicks(u[..c]))) + fin;
    }
  }

  /**
   * Before the loop returns, every tick calls the diagnostics callback once
   * (when present) and nothing else fires; the ending event's callback fires last.
   */
  lemma {:induction false} LoopEffectsAre(cb: Callbacks, t: seq<Event>)
    ensures EffectsMatch(cb, t, Loop(cb, t))
  {
    if |t| > 0 && Ends(cb, t[0]) {
      EndingEventEffects(cb, t);
    } else if |t| > 0 {
      LoopEffectsAre(cb, t[1..]);
      assert t == [t[0]] + t[1..];
      ContinuingEventEffects(cb, t[0], t[1..]);
    }
  }

  /** `Run`: the initialiser fires once, before any event is handled, then the loop. */
  function Run(cb: Callbacks, t: seq<Event>): (r: Outcome)
    ensures cb.hasInit ==> |r.effects| > 0 && r.effects[0] == InitCalled && InitCalled !in r.effects[1..]
    ensures !cb.hasInit ==> InitCalled !in r.effects
    ensures r.consumed <= |t|
    ensures r.returned <==> exists i :: 0 <= i < |t| && Ends(cb, t[i])
  {
    var l := Loop(cb, t);
    Outcome((if cb.hasInit then [InitCalled] else []) + l.effects, l.consumed, l.returned)
  }

  /** No callback fires after the loop returns: events past that point change nothing. */
  lemma {:induction false} NothingAfterReturn(cb: Callbacks, t: seq<Event>, later: seq<Event>)
    requires Loop(cb, t).returned
    ensures Loop(cb, t + later) == Loop(cb, t)
    ensures Run(cb, t + later) == Run(cb, t)
  {
    assert (t + later)[1..] == t[1..] + later;
    if t[0] == Tick || (t[0] == SigInt && !cb.hasUninit) {
      NothingAfterReturn(cb, t[1..], later);
    }
  }

  /** A tick never ends the loop, and calls the diagnostics callback exactly when it is present. */
  lemma TickContinues(cb: Callbacks, t: seq<Event>)
    ensures var before := Loop(cb, t);
            var after := Loop(cb, [Tick] + t);
            && after.returned == before.returned
            && after.consumed == before.consumed + 1
            && after.effects == (if cb.hasDump then [DumpCalled] else []) + before.effects
  {
  }

  /** SIGINT with a teardown callback runs it once and returns at once. */
  lemma SigIntWithUninitReturns(cb: Callbacks, t: seq<Event>)
    requires cb.hasUninit
    ensures Run(cb, [SigInt] + t).effects == (if cb.hasInit then [InitCalled] else []) + [UninitCalled]
    ensures Run(cb, [SigInt] + t).returned && Run(cb, [SigInt] + t).consumed == 1
  {
  }

  /** SIGINT without a teardown callback is ignored: the loop goes on with the next event. */
  lemma SigIntWithoutUninitIgnored(cb: Callbacks, t: seq<Event>)
    requires !cb.hasUninit
    ensures var before := Loop(cb, t);
            Loop(cb, [SigInt] + t) == Outcome(before.effects, before.consumed + 1, before.returned)
  {
  }

  /** Without a teardown callback only SIGTERM stops the loop; a trace without it is consumed whole. */
  lemma OnlySigTermStopsWithoutUninit(cb: Callbacks, t: seq<Event>)
    requires !cb.hasUninit
    requires forall i :: 0 <= i < |t| ==> t[i] != SigTerm
    ensures !Run(cb, t).returned && Run(cb, t).consumed == |t|
    ensures UninitCalled !in Run(cb, t).effects
  {
    var l := Loop(cb, t);
    LoopEffectsAre(cb, t);
    OnlyDumpsInDumps(if cb.hasDump then CountTicks(t) else 0);
    assert t[..|t|] == t;
  }

  /** SIGTERM returns right after logging the stack and never runs the teardown callback. */
  lemma SigTermNeverTearsDown(cb: Callbacks, t: seq<Event>)
    ensures var r := Run(cb, [SigTerm] + t);
            && r.returned && r.consumed == 1
            && r.effects[|r.effects| - 1] == StackLogged
            && UninitCalled !in r.effects
  {
  }

  /** The teardown callback fires at most once, and only as the last effect of a SIGINT return. */
  lemma UninitOnlyOnSigInt(cb: Callbacks, t: seq<Event>)
    requires UninitCalled in Run(cb, t).effects
    ensures var r := Run(cb, t);
            && cb.hasUninit && r.returned && t[r.consumed - 1] == SigInt
            && r.effects[|r.effects| - 1] == UninitCalled
            && UninitCalled !in r.effects[..|r.effects| - 1]
  {
    var l := Loop(cb, t);
    LoopEffectsAre(cb, t);
    var n := if cb.hasDump then CountTicks(t[..l.consumed]) else 0;
    OnlyDumpsInDumps(n);
    var pre := if cb.hasInit then [InitCalled] else [];
    var effects := Run(cb, t).effects;
    if l.returned {
      var last := FinalEffect(t[l.consumed - 1]);
      assert effects == (pre + Dumps(n)) + [last];
      assert effects[..|effects| - 1] == pre + Dumps(n);
      assert UninitCalled !in effects[..|effects| - 1];
    }
  }
}
