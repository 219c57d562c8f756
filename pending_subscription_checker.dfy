/** The checker that resends the commands of workflow instance subscriptions
    still pending: every subscription whose last command was sent before
    now minus the timeout gets its open command (while opening) or its close
    command (while closing) again, and its sent time moves to now when the
    command was sent.

    The subscription state is its sent-time column, a list in visiting
    order; the command sender records its commands and reports success
    through the `accepts` parameter; the clock is the parameter `now`. */
module MessageSubscriptions {

  datatype Subscription = Subscription(
    subscriptionPartitionId: int,
    workflowInstanceKey: int,
    elementInstanceKey: int,
    messageName: string,
    correlationKey: string,
    closeOnCorrelate: bool,
    opening: bool,
    sentTime: int)

  datatype Command =
    | OpenMessageSubscription(partitionId: int, workflowInstanceKey: int, elementInstanceKey: int,
                              messageName: string, correlationKey: string, closeOnCorrelate: bool)
    | CloseMessageSubscription(partitionId: int, workflowInstanceKey: int, elementInstanceKey: int,
                               messageName: string)

  /** sendOpenCommand / sendCloseCommand: the command carries the
      subscription's partition, keys and message name; the open command also
      its correlation key and close-on-correlate flag. */
  function CommandFor(s: Subscription): (c: Command)
    ensures c.OpenMessageSubscription? <==> s.opening
    ensures c.partitionId == s.subscriptionPartitionId && c.messageName == s.messageName
    ensures c.workflowInstanceKey == s.workflowInstanceKey && c.elementInstanceKey == s.elementInstanceKey
    ensures c.OpenMessageSubscription? ==>
      c.correlationKey == s.correlationKey && c.closeOnCorrelate == s.closeOnCorrelate
  {
    if s.opening then
      OpenMessageSubscription(s.subscriptionPartitionId, s.workflowInstanceKey, s.elementInstanceKey,
                              s.messageName, s.correlationKey, s.closeOnCorrelate)
    else
      CloseMessageSubscription(s.subscriptionPartitionId, s.workflowInstanceKey, s.elementInstanceKey, s.messageName)
  }

  predicate Overdue(s: Subscription, deadline: int)
  {
    s.sentTime < deadline
  }

  /** Where the visit of a run that has reached position `i` ends: it goes on
      while the subscription is overdue and its command was sent, so it
      stops before the first subscription that is not overdue, or just after
      the first whose command was not sent. The result is the number of
      subscriptions visited. */
  function VisitedFrom(subs: seq<Subscription>, i: nat, deadline: int, accepts: Command -> bool): nat
    requires i <= |subs|
    decreases |subs| - i
  {
    if i == |subs| || !Overdue(subs[i], deadline) then i
    else if !accepts(CommandFor(subs[i])) then i + 1
    else VisitedFrom(subs, i + 1, deadline, accepts)
  }

  function Visited(subs: seq<Subscription>, deadline: int, accepts: Command -> bool): nat
  {
    VisitedFrom(subs, 0, deadline, accepts)
  }

  /** The commands of a run, in visiting order: one per visited
      subscription. */
  function Commands(subs: seq<Subscription>, deadline: int, accepts: Command -> bool): seq<Command>
  {
    var k := Visited(subs, deadline, accepts);
    if k <= |subs| then seq(k, j requires 0 <= j < k <= |subs| => CommandFor(subs[j])) else []
  }

  /** The subscriptions after a run: a visited one whose command was sent has
      its sent time moved to now. */
  function AfterRun(subs: seq<Subscription>, deadline: int, now: int, accepts: Command -> bool): (r: seq<Subscription>)
    ensures |r| == |subs|
  {
    var k := Visited(subs, deadline, accepts);
    seq(|subs|, j requires 0 <= j < |subs| =>
      if j < k && accepts(CommandFor(subs[j])) then subs[j].(sentTime := now) else subs[j])
  }

  /** Where the visit ends: every subscription visited is overdue, every one
      visited before the last had its command sent, and the visit ends only at
      the end of the list, before a subscription that is not overdue, or
      after one whose command was not sent. */
  lemma {:induction false} VisitStops(subs: seq<Subscription>, i: nat, deadline: int, accepts: Command -> bool)
    requires i <= |subs|
    ensures var k := VisitedFrom(subs, i, deadline, accepts);
      && i <= k <= |subs|
      && (forall j :: i <= j < k ==> Overdue(subs[j], deadline))
      && (forall j :: i <= j < k - 1 ==> accepts(CommandFor(subs[j])))
      && (k == |subs| || !Overdue(subs[k], deadline) || (i < k && !accepts(CommandFor(subs[k - 1]))))
    decreases |subs| - i
  {
    if i < |subs| && Overdue(subs[i], deadline) && accepts(CommandFor(subs[i])) {
      VisitStops(subs, i + 1, deadline, accepts);
    }
  }

  /** A command that is not sent ends the run: the subscriptions after it are
      neither sent nor changed, even when overdue. */
  lemma {:induction false} StopsAtFirstRejection(subs: seq<Subscription>, i: nat, deadline: int, now: int, accepts: Command -> bool)
    requires i < |subs|
    requires forall j :: 0 <= j <= i ==> Overdue(subs[j], deadline)
    requires forall j :: 0 <= j < i ==> accepts(CommandFor(subs[j]))
    requires !accepts(CommandFor(subs[i]))
    ensures Visited(subs, deadline, accepts) == i + 1
    ensures |Commands(subs, deadline, accepts)| == i + 1
    ensures forall j :: i <= j < |subs| ==> AfterRun(subs, deadline, now, accepts)[j] == subs[j]
  {
    var m := i;
    while m > 0
      invariant 0 <= m <= i
      invariant VisitedFrom(subs, m, deadline, accepts) == i + 1
      decreases m
    {
      m := m - 1;
    }
  }

  /** Only overdue subscriptions get a command, each at most once and in
      order; when all are overdue and every command is sent, all get one. */
  lemma CommandsAreOverdue(subs: seq<Subscription>, deadline: int, accepts: Command -> bool)
    ensures |Commands(subs, deadline, accepts)| <= |subs|
    ensures forall j :: 0 <= j < |Commands(subs, deadline, accepts)| ==>
      Overdue(subs[j], deadline) && Commands(subs, deadline, accepts)[j] == CommandFor(subs[j])
    ensures (forall j :: 0 <= j < |subs| ==> Overdue(subs[j], deadline)) && (forall c :: accepts(c)) ==>
      |Commands(subs, deadline, accepts)| == |subs|
  {
    VisitStops(subs, 0, deadline, accepts);
  }

  /** The sent-time column lists subscriptions by ascending sent time. */
  predicate SentTimeOrdered(subs: seq<Subscription>)
  {
    forall i, j :: 0 <= i < j < |subs| ==> subs[i].sentTime <= subs[j].sentTime
  }

  /** With the column in sent-time order, every send succeeding and the
      deadline not after now, no subscription is overdue after a run, and a
      second run at the same time visits nothing. */
  lemma RunSettles(subs: seq<Subscription>, deadline: int, now: int, accepts: Command -> bool)
    requires SentTimeOrdered(subs)
    requires deadline <= now
    requires forall c :: accepts(c)
    ensures forall j :: 0 <= j < |subs| ==> !Overdue(AfterRun(subs, deadline, now, accepts)[j], deadline)
    ensures Visited(AfterRun(subs, deadline, now, accepts), deadline, accepts) == 0
  {
    VisitStops(subs, 0, deadline, accepts);
    var after := AfterRun(subs, deadline, now, accepts);
    var k := Visited(subs, deadline, accepts);
    forall j | 0 <= j < |subs|
      ensures !Overdue(after[j], deadline)
    {
      if j < k {
        assert accepts(CommandFor(subs[j]));
        assert after[j].sentTime == now;
      } else {
        assert !Overdue(subs[k], deadline);
        assert subs[k].sentTime <= subs[j].sentTime;
        assert after[j] == subs[j];
      }
    }
  }

  /** A run never moves a sent time backwards when the deadline is not after
      now, and leaves every field but the sent time alone. */
  lemma RunKeepsSubscriptions(subs: seq<Subscription>, deadline: int, now: int, accepts: Command -> bool)
    requires deadline <= now
    ensures forall i :: 0 <= i < |subs| ==>
      AfterRun(subs, deadline, now, accepts)[i].sentTime >= subs[i].sentTime
      && AfterRun(subs, deadline, now, accepts)[i] == subs[i].(sentTime := AfterRun(subs, deadline, now, accepts)[i].sentTime)
  {
    VisitStops(subs, 0, deadline, accepts);
  }

  /** The subscription state as far as the checker uses it. */
  class SubscriptionState {
    var subscriptions: seq<Subscription>

    constructor(subscriptions: seq<Subscription>)
      ensures this.subscriptions == subscriptions
    {
      this.subscriptions := subscriptions;
    }

    /** updateSentTimeInTransaction */
    method UpdateSentTime(i: nat, time: int)
      requires i < |subscriptions|
      modifies this`subscriptions
      ensures subscriptions == old(subscriptions)[i := old(subscriptions)[i].(sentTime := time)]
    {
      subscriptions := subscriptions[i := subscriptions[i].(sentTime := time)];
    }
  }

  /** The subscription command sender: the commands it was asked to send, and
      which of them succeed. */
  class CommandSender {
    var sent: seq<Command>
    const accepts: Command -> bool

    constructor(accepts: Command -> bool)
      ensures sent == [] && this.accepts == accepts
    {
      sent := [];
      this.accepts := accepts;
    }

    method Send(c: Command) returns (success: bool)
      modifies this`sent
      ensures sent == old(sent) + [c] && success == accepts(c)
    {
      sent := sent + [c];
      success := accepts(c);
    }
  }

  class PendingSubscriptionChecker {
    const commandSender: CommandSender
    const subscriptionState: SubscriptionState
    const subscriptionTimeout: int

    constructor(commandSender: CommandSender, subscriptionState: SubscriptionState, subscriptionTimeout: int)
      ensures this.commandSender == commandSender && this.subscriptionState == subscriptionState
      ensures this.subscriptionTimeout == subscriptionTimeout
    {
      this.commandSender := commandSender;
      this.subscriptionState := subscriptionState;
      this.subscriptionTimeout := subscriptionTimeout;
    }

    /** sendCommand: the open or the close command; the sent time becomes now
        iff the send succeeded, which is the result. */
    method SendCommand(i: nat, now: int) returns (success: bool)
      requires i < |subscriptionState.subscriptions|
      modifies subscriptionState`subscriptions, commandSender`sent
      ensures var s := old(subscriptionState.subscriptions[i]);
        && commandSender.sent == old(commandSender.sent) + [CommandFor(s)]
        && success == commandSender.accepts(CommandFor(s))
        && subscriptionState.subscriptions ==
          if success then old(subscriptionState.subscriptions)[i := s.(sentTime := now)]
          else old(subscriptionState.subscriptions)
    {
      var s := subscriptionState.subscriptions[i];
      if s.opening {
        success := commandSender.Send(OpenMessageSubscription(s.subscriptionPartitionId, s.workflowInstanceKey,
          s.elementInstanceKey, s.messageName, s.correlationKey, s.closeOnCorrelate));
      } else {
        success := commandSender.Send(CloseMessageSubscription(s.subscriptionPartitionId, s.workflowInstanceKey,
          s.elementInstanceKey, s.messageName));
      }
      if success {
        subscriptionState.UpdateSentTime(i, now);
      }
    }

    /** run: visits the subscriptions sent before now minus the timeout in
        the state's order, sending each its command, and stops at the first
        one that is not overdue or whose command was not sent. */
    method Run(now: int)
      modifies subscriptionState`subscriptions, commandSender`sent
      ensures var deadline := now - subscriptionTimeout;
        commandSender.sent ==
          old(commandSender.sent) + Commands(old(subscriptionState.subscriptions), deadline, commandSender.accepts)
      ensures subscriptionState.subscriptions ==
        AfterRun(old(subscriptionState.subscriptions), now - subscriptionTimeout, now, commandSender.accepts)
    {
      var deadline := now - subscriptionTimeout;
      ghost var subs := subscriptionState.subscriptions;
      ghost var accepts := commandSender.accepts;
      ghost var k := Visited(subs, deadline, accepts);
      ghost var after := AfterRun(subs, deadline, now, accepts);
      ghost var cmds := Commands(subs, deadline, accepts);
      ghost var sent0 := commandSender.sent;
      VisitStops(subs, 0, deadline, accepts);
      assert |cmds| == k;
      var n := |subscriptionState.subscriptions|;
      var i := 0;
      var visiting := true;
      while visiting && i < n
        invariant 0 <= i <= n && |subscriptionState.subscriptions| == n == |subs| == |after|
        invariant i <= k <= n
        invariant visiting ==> VisitedFrom(subs, i, deadline, accepts) == k
        invariant !visiting ==> i == k
        invariant forall j :: 0 <= j < n ==>
          subscriptionState.subscriptions[j] == if j < i then after[j] else subs[j]
        invariant commandSender.sent == sent0 + cmds[..i]
        decreases n - i, visiting
      {
        VisitStops(subs, i, deadline, accepts);
        if subscriptionState.subscriptions[i].sentTime < deadline {
          var success := SendCommand(i, now);
          visiting := success;
          assert cmds[..i + 1] == cmds[..i] + [CommandFor(subs[i])];
          i := i + 1;
        } else {
          visiting := false;
        }
      }
      assert cmds[..i] == cmds;
      assert subscriptionState.subscriptions == after;
    }
  }
}
