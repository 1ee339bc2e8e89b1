/**
 * The generic run-to-completion engine behind every state machine of the
 * firmware (`base_state_class`). A machine holds the current state, the
 * pending target and the transition flag; a state is a handler, here a
 * function from (state, context, event) to a `Reaction`. A handler asks for
 * a transition by listing targets in `requests`, in the order it would have
 * called `TRAN`; the engine performs the exit and entry only after the
 * handler has returned.
 */
module Engine {
  import opened Bytes
  import opened Events

  /**
   * `state` and `nextState` are the two state pointers, `transition` the
   * pending flag, and the two events are the ENTER and EXIT events built
   * once at construction.
   */
  datatype Machine<S> = Machine(
    state: S,
    nextState: S,
    transition: bool,
    enterEvent: Event,
    exitEvent: Event)

  /** What a handler did: the new context, the `TRAN` calls it made in order, its outputs. */
  datatype Reaction<S, C, O> = Reaction(ctx: C, requests: seq<S>, out: seq<O>)

  /** What one engine step did: the new machine, the new context, every output in order. */
  datatype Stepped<S, C, O> = Stepped(machine: Machine<S>, ctx: C, out: seq<O>)

  /**
   * The ENTER event. The constructor sets only its source and kind; the data
   * byte is left to `event_element_class` in `event_listing.h`, which is not
   * part of this model, so it is a parameter.
   */
  function EnterEvent(sysData: Byte): Event {
    Event(StateMachine, EnterState, sysData)
  }

  /** The EXIT event, with the same data byte as the ENTER event. */
  function ExitEvent(sysData: Byte): Event {
    Event(StateMachine, ExitState, sysData)
  }

  /**
   * Construction: the initial state is current and no transition is pending.
   * The initial state's entry handler is NOT run here; `nextState` is
   * uninitialised in the firmware and is never read before a `Tran` writes
   * it, so it starts as `init`.
   */
  function Construct<S>(init: S, sysData: Byte): (m: Machine<S>)
    ensures m.state == init && !m.transition
    ensures m.enterEvent.source == StateMachine && m.enterEvent.kind == EnterState
    ensures m.exitEvent.source == StateMachine && m.exitEvent.kind == ExitState
    ensures m.enterEvent.data == m.exitEvent.data == sysData
  {
    Machine(init, init, false, EnterEvent(sysData), ExitEvent(sysData))
  }

  /** `TRAN`: record the target and raise the flag; the current state does not change yet. */
  function Tran<S>(m: Machine<S>, target: S): (r: Machine<S>)
    ensures r.nextState == target && r.transition
    ensures r.state == m.state
    ensures r.enterEvent == m.enterEvent && r.exitEvent == m.exitEvent
  {
    m.(nextState := target, transition := true)
  }

  /** Every `TRAN` a handler made, in order. */
  function TranAll<S>(m: Machine<S>, targets: seq<S>): (r: Machine<S>)
    ensures r.state == m.state
    ensures r.enterEvent == m.enterEvent && r.exitEvent == m.exitEvent
    ensures |targets| == 0 ==> r.nextState == m.nextState && r.transition == m.transition
    ensures |targets| > 0 ==> r.transition && r.nextState == targets[|targets| - 1]
    decreases |targets|
  {
    if |targets| == 0 then m else TranAll(Tran(m, targets[0]), targets[1..])
  }

  /**
   * The deferred part of `process`: if a transition is pending, send EXIT to
   * the outgoing state, make the target current, clear the flag, then send
   * ENTER to the new state. A `TRAN` made by the exit handler changes the
   * target before the switch; one made by the entry handler stays pending.
   */
  function Settle<S, C, O>(handler: (S, C, Event) -> Reaction<S, C, O>, m: Machine<S>, c: C): (r: Stepped<S, C, O>)
    ensures r.machine.enterEvent == m.enterEvent && r.machine.exitEvent == m.exitEvent
    ensures !m.transition ==> r.machine == m && r.ctx == c && r.out == []
  {
    if !m.transition then Stepped(m, c, [])
    else
      var x := handler(m.state, c, m.exitEvent);
      var m1 := TranAll(m, x.requests);
      var m2 := m1.(state := m1.nextState, transition := false);
      var n := handler(m2.state, x.ctx, m2.enterEvent);
      Stepped(TranAll(m2, n.requests), n.ctx, x.out + n.out)
  }

  /** `process`: run the current state's handler on `e`, then the deferred transition. */
  function Process<S, C, O>(handler: (S, C, Event) -> Reaction<S, C, O>, m: Machine<S>, c: C, e: Event): (r: Stepped<S, C, O>)
    ensures r.machine.enterEvent == m.enterEvent && r.machine.exitEvent == m.exitEvent
  {
    var a := handler(m.state, c, e);
    var s := Settle(handler, TranAll(m, a.requests), a.ctx);
    Stepped(s.machine, s.ctx, a.out + s.out)
  }

  /**
   * `EXTERNAL_TRAN`: a transition forced from outside a handler, performed
   * at once with the same exit/switch/enter sequence.
   */
  function ExternalTran<S, C, O>(handler: (S, C, Event) -> Reaction<S, C, O>, m: Machine<S>, c: C, target: S): (r: Stepped<S, C, O>)
    ensures r.machine.enterEvent == m.enterEvent && r.machine.exitEvent == m.exitEvent
  {
    Settle(handler, Tran(m, target), c)
  }

  /**
   * A forced transition: the current state sees EXIT, then `target` becomes
   * current and sees ENTER, even when `target` is the current state; when
   * neither handler asks for more, nothing stays pending.
   */
  lemma ExternalTranSwitches<S, C, O>(handler: (S, C, Event) -> Reaction<S, C, O>, m: Machine<S>, c: C, target: S)
    requires handler(m.state, c, m.exitEvent).requests == []
    ensures
      var x := handler(m.state, c, m.exitEvent);
      var n := handler(target, x.ctx, m.enterEvent);
      var r := ExternalTran(handler, m, c, target);
      && r.machine.state == target
      && r.ctx == n.ctx
      && r.out == x.out + n.out
      && (n.requests == [] ==> !r.machine.transition)
  {
  }

  /** The last of several `TRAN` calls wins, and none of them is an error. */
  lemma {:induction false} LastTranWins<S>(m: Machine<S>, first: S, targets: seq<S>)
    requires |targets| > 0
    ensures TranAll(Tran(m, first), targets) == TranAll(m, targets)
    decreases |targets|
  {
    if |targets| > 1 {
      LastTranWins(Tran(m, first), targets[0], targets[1..]);
      LastTranWins(m, targets[0], targets[1..]);
    }
  }

  /**
   * A handler that asks for nothing, with nothing pending, leaves the
   * current state in place and the outputs are the handler's own.
   */
  lemma ProcessWithoutRequest<S, C, O>(handler: (S, C, Event) -> Reaction<S, C, O>, m: Machine<S>, c: C, e: Event)
    requires !m.transition
    requires handler(m.state, c, e).requests == []
    ensures Process(handler, m, c, e) == Stepped(m, handler(m.state, c, e).ctx, handler(m.state, c, e).out)
  {
  }

  /**
   * A handler that asks for a transition: the old state sees EXIT, then the
   * last requested target becomes current and sees ENTER, in that order,
   * after the handler's own outputs; when neither the exit nor the entry
   * handler asks for more, nothing stays pending.
   */
  lemma ProcessWithRequest<S, C, O>(handler: (S, C, Event) -> Reaction<S, C, O>, m: Machine<S>, c: C, e: Event)
    requires handler(m.state, c, e).requests != []
    requires handler(m.state, handler(m.state, c, e).ctx, m.exitEvent).requests == []
    ensures
      var a := handler(m.state, c, e);
      var target := a.requests[|a.requests| - 1];
      var x := handler(m.state, a.ctx, m.exitEvent);
      var n := handler(target, x.ctx, m.enterEvent);
      var r := Process(handler, m, c, e);
      && r.machine.state == target
      && r.ctx == n.ctx
      && r.out == a.out + x.out + n.out
      && (n.requests == [] ==> !r.machine.transition)
  {
  }
}
