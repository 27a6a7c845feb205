/**
 The Android log adapter: any number of threads log into a bounded channel, one
 background thread hands the records to a callback, and dropping the adapter
 stops and joins that thread. All interleavings of their atomic steps.
 */
module LogAdapter {

  const CAPACITY: nat := 4096

  datatype Message = Stop | Record(text: string)

  /** Who holds the mutex around the `stopped` flag. */
  datatype Owner = Nobody | Background | Dropper

  /** Where the background thread is: waiting for a message, holding a record,
      inside the lock before the flag is looked at, in the callback, or gone. */
  datatype BackgroundPc = Receiving | Holding(text: string) | Checking(text: string) | InCallback | Exited

  /** Where the drop is: not begun, in the lock, flag set, stop message tried, waiting, done. */
  datatype DropPc = NotDropped | Locked | FlagSet | Sent | Joining | Joined

  datatype State = State(
    queue: seq<Message>, stopped: bool, owner: Owner, background: BackgroundPc, drop_: DropPc,
    disabled: bool,
    /* threads that saw the sink enabled and have not sent yet */ logging: nat,
    /* messages received so far */ received: nat,
    /* records the channel took, records taken from it, records given to the callback */
    accepted: seq<string>, taken: seq<string>, delivered: seq<string>)

  datatype Action =
    | LogCheck | LogSend(text: string)
    | Receive | Lock | Check | Return(keepGoing: bool)
    | DropLock | DropSetFlag | DropSend | DropUnlock | DropJoin

  const INIT: State := State([], false, Nobody, Receiving, NotDropped, false, 0, 0, [], [], [])

  predicate Enabled(s: State, a: Action) {
    match a
    case LogCheck => true
    case LogSend(_) => s.logging > 0
    case Receive => s.background.Receiving? && s.queue != []
    case Lock => s.background.Holding? && s.owner.Nobody?
    case Check => s.background.Checking?
    case Return(_) => s.background.InCallback?
    case DropLock => s.drop_.NotDropped? && s.owner.Nobody?
    case DropSetFlag => s.drop_.Locked?
    case DropSend => s.drop_.FlagSet?
    case DropUnlock => s.drop_.Sent?
    case DropJoin => s.drop_.Joining? && s.background.Exited?
  }

  /** A send succeeds unless the channel is full or the receiver is gone. */
  predicate CanSend(s: State) {
    |s.queue| < CAPACITY && !s.background.Exited?
  }

  function Sending(s: State, m: Message): seq<Message> {
    if CanSend(s) then s.queue + [m] else s.queue
  }

  function Step(s: State, a: Action): State
    requires Enabled(s, a)
  {
    match a
    case LogCheck => if s.disabled then s else s.(logging := s.logging + 1)
    case LogSend(text) =>
      s.(logging := s.logging - 1, queue := Sending(s, Record(text)), disabled := s.disabled || !CanSend(s),
         accepted := if CanSend(s) then s.accepted + [text] else s.accepted)
    case Receive =>
      var s' := s.(queue := s.queue[1..], received := s.received + 1);
      (match s.queue[0]
       case Stop => s'.(background := Exited)
       case Record(text) => s'.(background := Holding(text), taken := s.taken + [text]))
    case Lock => s.(owner := Background, background := Checking(s.background.text))
    case Check =>
      if s.stopped then s.(owner := Nobody, background := Exited)
      else s.(background := InCallback, delivered := s.delivered + [s.background.text])
    case Return(keepGoing) =>
      s.(owner := Nobody, stopped := s.stopped || !keepGoing, background := if keepGoing then Receiving else Exited)
    case DropLock => s.(owner := Dropper, drop_ := Locked)
    case DropSetFlag => s.(stopped := true, drop_ := FlagSet)
    case DropSend => s.(queue := Sending(s, Stop), drop_ := Sent)
    case DropUnlock => s.(owner := Nobody, drop_ := Joining)
    case DropJoin => s.(drop_ := Joined)
  }

  // ----- runs

  ghost predicate CanRun(s: State, actions: seq<Action>)
    decreases |actions|, 0
  {
    actions == [] || (CanRun(s, actions[..|actions| - 1])
                      && Enabled(After(s, actions[..|actions| - 1]), actions[|actions| - 1]))
  }

  ghost function After(s: State, actions: seq<Action>): State
    requires CanRun(s, actions)
    decreases |actions|, 1
  {
    if actions == [] then s else Step(After(s, actions[..|actions| - 1]), actions[|actions| - 1])
  }

  predicate IsBackground(a: Action) {
    a.Receive? || a.Lock? || a.Check? || a.Return?
  }

  ghost function BackgroundSteps(actions: seq<Action>): nat {
    if actions == [] then 0
    else BackgroundSteps(actions[..|actions| - 1]) + if IsBackground(actions[|actions| - 1]) then 1 else 0
  }

  ghost predicate Inv(s: State) {
    && (s.owner.Background? <==> s.background.Checking? || s.background.InCallback?)
    && (s.owner.Dropper? <==> s.drop_.Locked? || s.drop_.FlagSet? || s.drop_.Sent?)
    && (s.background.InCallback? ==> !s.stopped)
    && (s.drop_.FlagSet? || s.drop_.Sent? || s.drop_.Joining? || s.drop_.Joined? ==> s.stopped)
    && |s.queue| <= CAPACITY
    // Once the drop has tried to send, the thread is on its way out or has a message to receive.
    && (s.drop_.Sent? || s.drop_.Joining? || s.drop_.Joined? ==> !s.background.Receiving? || s.queue != [])
  }

  lemma StepKeepsInv(s: State, a: Action)
    requires Inv(s) && Enabled(s, a)
    ensures Inv(Step(s, a))
  {
  }

  lemma {:induction false} RunKeepsInv(s: State, actions: seq<Action>)
    requires Inv(s) && CanRun(s, actions)
    ensures Inv(After(s, actions))
  {
    if actions != [] {
      RunKeepsInv(s, actions[..|actions| - 1]);
      StepKeepsInv(After(s, actions[..|actions| - 1]), actions[|actions| - 1]);
    }
  }

  /** Once `stopped` is set, no callback is running, and none ever starts again. */
  lemma {:induction false} NoCallbackOnceStopped(before: seq<Action>, after: seq<Action>)
    requires CanRun(INIT, before) && After(INIT, before).stopped && CanRun(After(INIT, before), after)
    ensures var s := After(After(INIT, before), after);
      s.stopped && s.delivered == After(INIT, before).delivered && !s.background.InCallback?
  {
    RunKeepsInv(INIT, before);
    if after != [] {
      NoCallbackOnceStopped(before, after[..|after| - 1]);
      StoppedStep(After(After(INIT, before), after[..|after| - 1]), after[|after| - 1]);
    }
  }

  lemma StoppedStep(s: State, a: Action)
    requires s.stopped && !s.background.InCallback? && Enabled(s, a)
    ensures Step(s, a).stopped && Step(s, a).delivered == s.delivered && !Step(s, a).background.InCallback?
  {
  }

  /** The background steps left once the drop waits. */
  ghost function StepsLeft(s: State): nat {
    match s.background
    case Exited => 0
    case Checking(_) => 1
    case InCallback => 1
    case Holding(_) => 2
    case Receiving => 3
  }

  lemma {:induction false} JoiningStep(s: State, a: Action)
    requires Inv(s) && (s.drop_.Joining? || s.drop_.Joined?) && Enabled(s, a)
    ensures var s' := Step(s, a);
      && (s'.drop_.Joining? || s'.drop_.Joined?)
      && StepsLeft(s') + (if IsBackground(a) then 1 else 0) <= StepsLeft(s)
      && s'.received + (if s'.background.Receiving? then 1 else 0) <= s.received + if s.background.Receiving? then 1 else 0
  {
  }

  /** Once the drop waits for the thread, in every interleaving the thread takes
      at most three more steps and receives at most one more message. As long as
      it has not exited it can move, whatever the others do; when it has exited
      the join returns. */
  lemma {:induction false} JoinReturns(before: seq<Action>, after: seq<Action>)
    requires CanRun(INIT, before) && After(INIT, before).drop_.Joining? && CanRun(After(INIT, before), after)
    ensures var s0, s := After(INIT, before), After(After(INIT, before), after);
      && BackgroundSteps(after) + StepsLeft(s) <= 3
      && s.received <= s0.received + 1
      && (s.drop_.Joining? || s.drop_.Joined?)
      && (!s.background.Exited? ==> Enabled(s, Receive) || Enabled(s, Lock) || Enabled(s, Check))
      && (s.background.Exited? && s.drop_.Joining? ==> Enabled(s, DropJoin))
  {
    var s0 := After(INIT, before);
    RunKeepsInv(INIT, before);
    RunKeepsInv(s0, after);
    JoiningRun(s0, after);
  }

  lemma {:induction false} JoiningRun(s: State, actions: seq<Action>)
    requires Inv(s) && s.drop_.Joining? && CanRun(s, actions)
    ensures var s' := After(s, actions);
      && (s'.drop_.Joining? || s'.drop_.Joined?)
      && BackgroundSteps(actions) + StepsLeft(s') <= StepsLeft(s)
      && s'.received + (if s'.background.Receiving? then 1 else 0) <= s.received + if s.background.Receiving? then 1 else 0
  {
    if actions != [] {
      var init := actions[..|actions| - 1];
      JoiningRun(s, init);
      RunKeepsInv(s, init);
      JoiningStep(After(s, init), actions[|actions| - 1]);
    }
  }

  // ----- what reaches the callback

  /** The records waiting in the channel. */
  ghost function RecordsIn(queue: seq<Message>): seq<string> {
    if queue == [] then []
    else RecordsIn(queue[..|queue| - 1]) + if queue[|queue| - 1].Record? then [queue[|queue| - 1].text] else []
  }

  lemma {:induction false} RecordsInAppend(queue: seq<Message>, m: Message)
    ensures RecordsIn(queue + [m]) == RecordsIn(queue) + if m.Record? then [m.text] else []
  {
    assert (queue + [m])[..|queue|] == queue;
  }

  lemma {:induction false} RecordsInFirst(queue: seq<Message>)
    requires queue != []
    ensures RecordsIn(queue) == (if queue[0].Record? then [queue[0].text] else []) + RecordsIn(queue[1..])
  {
    if |queue| > 1 {
      var init := queue[..|queue| - 1];
      RecordsInFirst(init);
      assert queue[1..][..|queue| - 2] == init[1..];
    }
  }

  /** The record the background thread has taken and not yet given away. */
  function InHand(b: BackgroundPc): seq<string> {
    match b
    case Holding(text) => [text]
    case Checking(text) => [text]
    case _ => []
  }

  ghost predicate Flow(s: State) {
    && s.accepted == s.taken + RecordsIn(s.queue)
    && s.delivered <= s.taken
    && (!s.background.Exited? ==> s.taken == s.delivered + InHand(s.background))
    && (s.background.Exited? ==> s.stopped || s.drop_ != NotDropped)
    && (Stop in s.queue ==> s.stopped)
  }

  lemma Regroup(a: seq<string>, b: seq<string>, c: seq<string>)
    ensures a + (b + c) == (a + b) + c
  {
  }

  lemma {:induction false} SendKeepsFlow(s: State, a: Action)
    requires Inv(s) && Flow(s) && Enabled(s, a) && (a.LogSend? || a.DropSend?)
    ensures Flow(Step(s, a))
  {
    var m := if a.LogSend? then Record(a.text) else Stop;
    RecordsInAppend(s.queue, m);
    if a.LogSend? {
      Regroup(s.taken, RecordsIn(s.queue), [a.text]);
    }
  }

  lemma {:induction false} ReceiveKeepsFlow(s: State)
    requires Inv(s) && Flow(s) && Enabled(s, Receive)
    ensures Flow(Step(s, Receive))
  {
    RecordsInFirst(s.queue);
    assert s.queue[0] in s.queue && forall m | m in s.queue[1..] :: m in s.queue;
    if s.queue[0].Record? {
      Regroup(s.taken, [s.queue[0].text], RecordsIn(s.queue[1..]));
    } else {
      assert [] + RecordsIn(s.queue[1..]) == RecordsIn(s.queue[1..]);
    }
  }

  lemma {:induction false} OtherKeepsFlow(s: State, a: Action)
    requires Inv(s) && Flow(s) && Enabled(s, a) && !a.LogSend? && !a.DropSend? && !a.Receive?
    ensures Flow(Step(s, a))
  {
  }

  lemma {:induction false} StepKeepsFlow(s: State, a: Action)
    requires Inv(s) && Flow(s) && Enabled(s, a)
    ensures Flow(Step(s, a))
  {
    if a.LogSend? || a.DropSend? {
      SendKeepsFlow(s, a);
    } else if a.Receive? {
      ReceiveKeepsFlow(s);
    } else {
      OtherKeepsFlow(s, a);
    }
  }

  lemma {:induction false} RunKeepsFlow(actions: seq<Action>)
    requires CanRun(INIT, actions)
    ensures Inv(After(INIT, actions)) && Flow(After(INIT, actions))
  {
    if actions != [] {
      var init := actions[..|actions| - 1];
      RunKeepsFlow(init);
      StepKeepsInv(After(INIT, init), actions[|actions| - 1]);
      StepKeepsFlow(After(INIT, init), actions[|actions| - 1]);
    }
  }

  /** In every interleaving the callback gets the records that the channel took,
      in that order and once each. As long as the adapter is not stopped, every
      one of them has been given away, is in hand or waits in the channel, and
      then the background thread can move unless the drop is in its lock. */
  lemma RecordsArriveInOrder(actions: seq<Action>)
    requires CanRun(INIT, actions)
    ensures var s := After(INIT, actions);
      && s.delivered <= s.accepted
      && (!s.stopped && s.drop_.NotDropped? ==>
            && s.accepted == s.delivered + InHand(s.background) + RecordsIn(s.queue)
            && (s.delivered != s.accepted ==>
                  Enabled(s, Receive) || Enabled(s, Lock) || Enabled(s, Check) || Enabled(s, Return(true))))
  {
    RunKeepsFlow(actions);
    var s := After(INIT, actions);
    assert s.delivered <= s.taken <= s.accepted;
  }

  /** A send that fails disables the sink, for good: from then on only threads that
      had already seen it enabled can still get a record in. */
  lemma {:induction false} DisabledForGood(s: State, actions: seq<Action>)
    requires s.disabled && CanRun(s, actions)
    ensures var s' := After(s, actions);
      s'.disabled && |s'.accepted| + s'.logging <= |s.accepted| + s.logging
  {
    if actions != [] {
      DisabledForGood(s, actions[..|actions| - 1]);
      DisabledStep(After(s, actions[..|actions| - 1]), actions[|actions| - 1]);
    }
  }

  /** A thread can look at any time, and goes on to log exactly if the sink is enabled. */
  lemma LookingIsFree(s: State)
    ensures Enabled(s, LogCheck) && Step(s, LogCheck) == if s.disabled then s else s.(logging := s.logging + 1)
    ensures !s.disabled ==> Enabled(Step(s, LogCheck), LogSend("")) && Step(Step(s, LogCheck), LogSend("")).logging == s.logging
  {
  }

  lemma DisabledStep(s: State, a: Action)
    requires Enabled(s, a)
    ensures a.LogSend? && !CanSend(s) ==> Step(s, a).disabled
    ensures s.disabled ==> Step(s, a).disabled && |Step(s, a).accepted| + Step(s, a).logging <= |s.accepted| + s.logging
  {
  }
}
