/** The replaying event bus of one run: bounded queues that drop their oldest event, and resumption by number. */
module EventBus {
  import opened Option

  // One subscription is followed as a transition system over everything that can happen to it.
  // `RunChannels.RunChannel` is the mutable fan-out point, and carries each of its subscriptions
  // through those same steps.

  const REPLAY_BUFFER_SIZE := 1000
  const SUBSCRIBER_QUEUE_SIZE := 256

  datatype Event = Event(seqNo: nat, name: string, data: string)

  /** What a queue holds: events, and `None` for the end of the stream. */
  type Queue = seq<Option<Event>>

  function Replay(history: seq<Event>): seq<Event> {
    if |history| <= REPLAY_BUFFER_SIZE then history else history[|history| - REPLAY_BUFFER_SIZE..]
  }

  function Deliver(queue: Queue, event: Event): Queue {
    if |queue| < SUBSCRIBER_QUEUE_SIZE then queue + [Some(event)] else queue[1..] + [Some(event)]
  }

  /** What a new subscriber is given of the replay buffer: what it missed, while there is room. */
  function Backlog(replay: seq<Event>, after: nat): Queue {
    if replay == [] then []
    else
      var queue := Backlog(replay[..|replay| - 1], after);
      var event := replay[|replay| - 1];
      if event.seqNo > after && |queue| < SUBSCRIBER_QUEUE_SIZE then queue + [Some(event)] else queue
  }

  function CloseQueue(queue: Queue): Queue {
    if |queue| < SUBSCRIBER_QUEUE_SIZE then queue + [None] else queue
  }

  // ------------------------------------------------------ one subscription

  /**
   A subscription opened after `after` on a channel with `start` events; `received` is
   what its reader has taken, and `dropped` counts the events pushed out of its queue.
   */
  datatype View = View(
    after: nat,
    start: nat,
    history: seq<Event>,
    closed: bool,
    queue: Queue,
    received: seq<Event>,
    ended: bool,
    dropped: nat)

  datatype Step = Publish(name: string, data: string) | Receive | Close

  /** A queue that is full when the end marker is put in refuses it, and the caller gets the error. */
  function Open(history: seq<Event>, closed: bool, after: nat): Option<View> {
    var queue := Backlog(Replay(history), after);
    if closed && |queue| >= SUBSCRIBER_QUEUE_SIZE then None
    else
      Some(View(after, |history|, history, closed, if closed then queue + [None] else queue, [], false, 0))
  }

  /** Once the reader has seen the end it unsubscribes. */
  predicate Enabled(v: View, step: Step) {
    !v.ended && (step.Receive? ==> v.queue != [])
  }

  function NewEvent(history: seq<Event>, name: string, data: string): Event {
    Event(|history| + 1, name, data)
  }

  function Published(v: View, event: Event): View {
    v.(history := v.history + [event], queue := Deliver(v.queue, event),
       dropped := if Drops(v) then v.dropped + 1 else v.dropped)
  }

  function Received(v: View): View
    requires v.queue != []
  {
    match v.queue[0]
    case None => v.(queue := v.queue[1..], ended := true)
    case Some(event) => v.(queue := v.queue[1..], received := v.received + [event])
  }

  function Closed(v: View): View {
    v.(closed := true, queue := CloseQueue(v.queue))
  }

  function Next(v: View, step: Step): View
    requires Enabled(v, step)
  {
    match step
    case Publish(name, data) => Published(v, NewEvent(v.history, name, data))
    case Receive => Received(v)
    case Close => Closed(v)
  }

  predicate Legal(v: View, steps: seq<Step>)
    decreases |steps|
  {
    steps == [] || (Enabled(v, steps[0]) && Legal(Next(v, steps[0]), steps[1..]))
  }

  function After(v: View, steps: seq<Step>): View
    requires Legal(v, steps)
    decreases |steps|
  {
    if steps == [] then v else After(Next(v, steps[0]), steps[1..])
  }

  // ------------------------------------------------------------- invariants

  function EventsIn(queue: Queue): seq<Event> {
    if queue == [] then []
    else EventsIn(queue[..|queue| - 1]) + OneEvent(queue[|queue| - 1])
  }

  function OneEvent(item: Option<Event>): seq<Event> {
    match item case None => [] case Some(event) => [event]
  }

  /** What the reader has taken, and will take if nothing more happens. */
  function Delivered(v: View): seq<Event> {
    v.received + EventsIn(v.queue)
  }

  predicate Numbered(history: seq<Event>) {
    forall i :: 0 <= i < |history| ==> history[i].seqNo == i + 1
  }

  predicate Increasing(events: seq<Event>) {
    forall i, j :: 0 <= i < j < |events| ==> events[i].seqNo < events[j].seqNo
  }

  /** Every event is one the run published. */
  predicate Genuine(events: seq<Event>, history: seq<Event>) {
    forall i :: 0 <= i < |events| ==> 1 <= events[i].seqNo <= |history| && history[events[i].seqNo - 1] == events[i]
  }

  predicate AllAbove(events: seq<Event>, after: nat) {
    forall i :: 0 <= i < |events| ==> events[i].seqNo > after
  }

  /** Events a new subscriber had missed and got no room for. */
  function Skipped(v: View): nat {
    if v.start > v.after + SUBSCRIBER_QUEUE_SIZE then v.start - v.after - SUBSCRIBER_QUEUE_SIZE else 0
  }

  predicate Ordered(v: View) {
    && Numbered(v.history) && |v.queue| <= SUBSCRIBER_QUEUE_SIZE && v.start <= |v.history|
    && Increasing(Delivered(v)) && Genuine(Delivered(v), v.history)
    && (v.ended ==> v.closed)
    && MarkersMeanClosed(v)
  }

  /** Nothing the run published after `after` is unaccounted for. */
  predicate Accounted(v: View) {
    && v.after <= v.start <= |v.history|
    && AllAbove(Delivered(v), v.after)
    && |Delivered(v)| + Skipped(v) + v.dropped == |v.history| - v.after
    && (Skipped(v) + v.dropped == 0 ==> Delivered(v) == v.history[v.after..])
  }

  // --------------------------------------------------------- small lemmas

  lemma EventsSnoc(queue: Queue, item: Option<Event>)
    ensures EventsIn(queue + [item]) == EventsIn(queue) + OneEvent(item)
  {
    assert (queue + [item])[..|queue|] == queue;
  }

  lemma {:induction false} EventsCons(item: Option<Event>, queue: Queue)
    ensures EventsIn([item] + queue) == OneEvent(item) + EventsIn(queue)
  {
    if queue == [] {
      assert [item] + queue == [] + [item];
      EventsSnoc([], item);
    } else {
      var init, last := queue[..|queue| - 1], queue[|queue| - 1];
      assert [item] + queue == ([item] + init) + [last];
      EventsCons(item, init);
      EventsSnoc([item] + init, last);
      assert OneEvent(item) + (EventsIn(init) + OneEvent(last)) == (OneEvent(item) + EventsIn(init)) + OneEvent(last);
    }
  }

  lemma EventsUncons(queue: Queue)
    requires queue != []
    ensures EventsIn(queue) == OneEvent(queue[0]) + EventsIn(queue[1..])
  {
    assert queue == [queue[0]] + queue[1..];
    EventsCons(queue[0], queue[1..]);
  }

  /** A reader taking an item moves it, and changes nothing else. */
  lemma ReceiveMoves(v: View)
    requires v.queue != []
    ensures Delivered(Received(v)) == Delivered(v)
  {
    EventsUncons(v.queue);
  }

  lemma CloseAddsNothing(v: View)
    ensures Delivered(Closed(v)) == Delivered(v)
  {
    EventsSnoc(v.queue, None);
    assert EventsIn(v.queue) + [] == EventsIn(v.queue);
  }

  /** A publish that pushes an event out of a full queue. */
  predicate Drops(v: View) {
    |v.queue| >= SUBSCRIBER_QUEUE_SIZE && v.queue[0].Some?
  }

  lemma RoomDelivers(queue: Queue, event: Event)
    requires |queue| < SUBSCRIBER_QUEUE_SIZE
    ensures EventsIn(Deliver(queue, event)) == EventsIn(queue) + [event]
  {
    EventsSnoc(queue, Some(event));
  }

  lemma FullDelivers(queue: Queue, event: Event)
    requires |queue| >= SUBSCRIBER_QUEUE_SIZE
    ensures EventsIn(Deliver(queue, event)) == EventsIn(queue[1..]) + [event]
  {
    EventsSnoc(queue[1..], Some(event));
  }

  lemma DropEndMarker(queue: Queue)
    requires queue != [] && queue[0].None?
    ensures EventsIn(queue) == EventsIn(queue[1..])
  {
    EventsUncons(queue);
    NoneAdds(EventsIn(queue[1..]));
  }

  lemma NoneAdds(events: seq<Event>)
    ensures [] + events == events && events + [] == events
  {
  }

  lemma PublishAppends(v: View, event: Event)
    requires !Drops(v)
    ensures Delivered(Published(v, event)) == Delivered(v) + [event]
  {
    if |v.queue| < SUBSCRIBER_QUEUE_SIZE {
      RoomDelivers(v.queue, event);
    } else {
      FullDelivers(v.queue, event);
      DropEndMarker(v.queue);
    }
    assert (v.received + EventsIn(v.queue)) + [event] == v.received + (EventsIn(v.queue) + [event]);
  }

  lemma PublishDrops(v: View, event: Event) returns (rest: seq<Event>)
    requires Drops(v)
    ensures Delivered(v) == v.received + [v.queue[0].value] + rest
    ensures Delivered(Published(v, event)) == v.received + rest + [event]
  {
    rest := EventsIn(v.queue[1..]);
    EventsUncons(v.queue);
    FullDelivers(v.queue, event);
    assert v.received + ([v.queue[0].value] + rest) == v.received + [v.queue[0].value] + rest;
    assert v.received + (rest + [event]) == v.received + rest + [event];
  }

  lemma OneMore(events: seq<Event>, history: seq<Event>, event: Event)
    requires Numbered(history) && Increasing(events) && Genuine(events, history) && event.seqNo == |history| + 1
    ensures Numbered(history + [event]) && Increasing(events + [event]) && Genuine(events + [event], history + [event])
  {
  }

  lemma OneLess(a: seq<Event>, x: Event, b: seq<Event>, history: seq<Event>)
    requires Increasing(a + [x] + b) && Genuine(a + [x] + b, history)
    ensures Increasing(a + b) && Genuine(a + b, history)
  {
    var all := a + [x] + b;
    assert forall i :: 0 <= i < |a| ==> (a + b)[i] == all[i];
    assert forall i :: |a| <= i < |a| + |b| ==> (a + b)[i] == all[i + 1];
  }

  lemma OneLessAbove(a: seq<Event>, x: Event, b: seq<Event>, after: nat)
    requires AllAbove(a + [x] + b, after)
    ensures AllAbove(a + b, after)
  {
    var all := a + [x] + b;
    assert forall i :: 0 <= i < |a| ==> (a + b)[i] == all[i];
    assert forall i :: |a| <= i < |a| + |b| ==> (a + b)[i] == all[i + 1];
  }

  // ------------------------------------------------------- steps keep order

  lemma PublishKeepsOrder(v: View, name: string, data: string)
    requires Ordered(v)
    ensures Ordered(Published(v, NewEvent(v.history, name, data)))
  {
    var event := NewEvent(v.history, name, data);
    if Drops(v) {
      var rest := PublishDrops(v, event);
      OneLess(v.received, v.queue[0].value, rest, v.history);
      OneMore(v.received + rest, v.history, event);
    } else {
      PublishAppends(v, event);
      OneMore(Delivered(v), v.history, event);
    }
  }

  lemma StepKeepsOrder(v: View, step: Step)
    requires Ordered(v) && Enabled(v, step)
    ensures Ordered(Next(v, step))
  {
    match step
    case Publish(name, data) => PublishKeepsOrder(v, name, data);
    case Receive => ReceiveMoves(v);
    case Close => CloseAddsNothing(v);
  }

  lemma DropIsCounted(v: View, event: Event)
    requires Accounted(v) && Drops(v) && event.seqNo > v.after
    ensures Accounted(Published(v, event))
  {
    var rest := PublishDrops(v, event);
    OneLessAbove(v.received, v.queue[0].value, rest, v.after);
  }

  lemma AppendIsCounted(v: View, event: Event)
    requires Accounted(v) && !Drops(v) && event.seqNo > v.after
    ensures Accounted(Published(v, event))
  {
    PublishAppends(v, event);
    LongerTail(v.history, v.after, event);
  }

  lemma LongerTail(history: seq<Event>, after: nat, event: Event)
    requires after <= |history|
    ensures (history + [event])[after..] == history[after..] + [event]
  {
  }

  lemma StepKeepsAccount(v: View, step: Step)
    requires Ordered(v) && Accounted(v) && Enabled(v, step)
    ensures Accounted(Next(v, step))
  {
    match step
    case Publish(name, data) =>
      if Drops(v) {
        DropIsCounted(v, NewEvent(v.history, name, data));
      } else {
        AppendIsCounted(v, NewEvent(v.history, name, data));
      }
    case Receive => ReceiveMoves(v);
    case Close => CloseAddsNothing(v);
  }

  // -------------------------------------------------------------- opening

  lemma {:induction false} NothingMissed(replay: seq<Event>, after: nat)
    requires forall i :: 0 <= i < |replay| ==> replay[i].seqNo <= after
    ensures Backlog(replay, after) == []
  {
    if replay != [] {
      NothingMissed(replay[..|replay| - 1], after);
    }
  }

  function Max(a: nat, b: nat): nat {
    if a < b then b else a
  }

  /** Where the backlog stops once the first `k` events have been looked at. */
  function Reach(from: nat, k: nat): nat {
    if k <= from then from else if k <= from + SUBSCRIBER_QUEUE_SIZE then k else from + SUBSCRIBER_QUEUE_SIZE
  }

  predicate Holds(queue: Queue, events: seq<Event>) {
    |queue| == |events| && forall i :: 0 <= i < |queue| ==> queue[i] == Some(events[i])
  }

  lemma {:induction false} HeldEvents(queue: Queue, events: seq<Event>)
    requires Holds(queue, events)
    ensures EventsIn(queue) == events
  {
    if queue != [] {
      HeldEvents(queue[..|queue| - 1], events[..|queue| - 1]);
    }
  }

  /** The backlog is a stretch of the history: from the first event missed and still kept, as far as there is room. */
  lemma {:induction false} BacklogIsStretch(history: seq<Event>, lo: nat, after: nat, k: nat)
    requires Numbered(history) && lo <= k <= |history| && after <= |history|
    ensures var from := Max(lo, after);
            Holds(Backlog(history[lo..k], after), history[from..Reach(from, k)])
    decreases k
  {
    var from := Max(lo, after);
    if k > lo {
      BacklogIsStretch(history, lo, after, k - 1);
      assert history[lo..k][..k - lo - 1] == history[lo..k - 1];
      assert history[lo..k][k - lo - 1] == history[k - 1];
    }
  }

  lemma WholeBacklog(history: seq<Event>, after: nat)
    requires Numbered(history) && after <= |history|
    ensures var from := Max(|history| - |Replay(history)|, after);
            Holds(Backlog(Replay(history), after), history[from..Reach(from, |history|)])
  {
    var lo := |history| - |Replay(history)|;
    assert history[lo..|history|] == Replay(history);
    BacklogIsStretch(history, lo, after, |history|);
  }

  /** A subscription that opens starts in order, and accounts for everything it missed. */
  lemma OpeningIsSound(history: seq<Event>, closed: bool, after: nat)
    requires Numbered(history) && Open(history, closed, after).Some?
    ensures var v := Open(history, closed, after).value;
            Ordered(v) && (after <= |history| ==> Accounted(v))
  {
    OpensWithBacklog(history, closed, after);
    if after <= |history| {
      MissedIsSound(history, closed, after);
    } else {
      NothingMissed(Replay(history), after);
    }
  }

  /** Only a closed channel has end markers in its queues. */
  predicate MarkersMeanClosed(v: View) {
    forall i :: 0 <= i < |v.queue| && v.queue[i].None? ==> v.closed
  }

  lemma MissedIsSound(history: seq<Event>, closed: bool, after: nat)
    requires Numbered(history) && Open(history, closed, after).Some? && after <= |history|
    ensures Ordered(Open(history, closed, after).value) && Accounted(Open(history, closed, after).value)
  {
    var from := Max(|history| - |Replay(history)|, after);
    var to := Reach(from, |history|);
    WholeBacklog(history, after);
    StretchIsAll(history, after);
    BacklogIsSound(history, closed, after, from, to);
  }

  lemma BacklogIsSound(history: seq<Event>, closed: bool, after: nat, from: nat, to: nat)
    requires Numbered(history) && Open(history, closed, after).Some? && after <= from <= to <= |history|
    requires Holds(Backlog(Replay(history), after), history[from..to]) && to - from <= SUBSCRIBER_QUEUE_SIZE
    requires if |history| <= after + SUBSCRIBER_QUEUE_SIZE then from == after && to == |history|
             else to == from + SUBSCRIBER_QUEUE_SIZE
    ensures Ordered(Open(history, closed, after).value) && Accounted(Open(history, closed, after).value)
  {
    OpenDelivers(history, closed, after, history[from..to]);
    OpenQueue(history, closed, after, history[from..to]);
    StretchViewIsSound(Open(history, closed, after).value, from, to);
  }

  lemma OpenDelivers(history: seq<Event>, closed: bool, after: nat, events: seq<Event>)
    requires Holds(Backlog(Replay(history), after), events) && Open(history, closed, after).Some?
    ensures var v := Open(history, closed, after).value;
            && Delivered(v) == events && v.history == history && v.after == after && v.start == |history|
            && v.dropped == 0 && !v.ended
  {
    HeldEvents(Backlog(Replay(history), after), events);
    OpensWithBacklog(history, closed, after);
  }

  lemma OpenQueue(history: seq<Event>, closed: bool, after: nat, events: seq<Event>)
    requires Holds(Backlog(Replay(history), after), events) && |events| <= SUBSCRIBER_QUEUE_SIZE
    requires Open(history, closed, after).Some?
    ensures var v := Open(history, closed, after).value;
            |v.queue| <= SUBSCRIBER_QUEUE_SIZE && MarkersMeanClosed(v)
  {
  }

  lemma StretchViewIsSound(v: View, from: nat, to: nat)
    requires Numbered(v.history) && v.after <= from <= to <= |v.history| == v.start
    requires Delivered(v) == v.history[from..to] && !v.ended && v.dropped == 0
    requires |v.queue| <= SUBSCRIBER_QUEUE_SIZE && MarkersMeanClosed(v)
    requires if v.start <= v.after + SUBSCRIBER_QUEUE_SIZE then from == v.after && to == v.start
             else to == from + SUBSCRIBER_QUEUE_SIZE
    ensures Ordered(v) && Accounted(v)
  {
    StretchIsSound(v.history, from, to, v.after);
  }

  lemma StretchIsAll(history: seq<Event>, after: nat)
    requires after <= |history|
    ensures var from := Max(|history| - |Replay(history)|, after);
            if |history| <= after + SUBSCRIBER_QUEUE_SIZE then from == after && Reach(from, |history|) == |history|
            else Reach(from, |history|) == from + SUBSCRIBER_QUEUE_SIZE
  {
  }

  lemma OpensWithBacklog(history: seq<Event>, closed: bool, after: nat)
    requires Open(history, closed, after).Some?
    ensures Delivered(Open(history, closed, after).value) == EventsIn(Backlog(Replay(history), after))
  {
    var backlog := Backlog(Replay(history), after);
    NoneAdds(EventsIn(backlog));
    if closed {
      EventsSnoc(backlog, None);
    }
  }

  lemma StretchIsSound(history: seq<Event>, from: nat, to: nat, after: nat)
    requires Numbered(history) && after <= from <= to <= |history|
    ensures var events := history[from..to];
            Increasing(events) && Genuine(events, history) && AllAbove(events, after)
  {
  }

  // -------------------------------------------------------------- every run

  lemma {:induction false} StepsKeepOrder(v: View, steps: seq<Step>)
    requires Ordered(v) && Legal(v, steps)
    ensures Ordered(After(v, steps)) && v.history <= After(v, steps).history
    ensures After(v, steps).after == v.after && After(v, steps).start == v.start
    ensures Accounted(v) ==> Accounted(After(v, steps))
    decreases |steps|
  {
    if steps != [] {
      StepKeepsOrder(v, steps[0]);
      if Accounted(v) {
        StepKeepsAccount(v, steps[0]);
      }
      StepsKeepOrder(Next(v, steps[0]), steps[1..]);
    }
  }

  /** A view some run of a subscription leads to. */
  ghost predicate Reached(history: seq<Event>, closed: bool, after: nat, v: View) {
    && Numbered(history) && Open(history, closed, after).Some?
    && exists steps: seq<Step> ::
         Legal(Open(history, closed, after).value, steps) && v == After(Open(history, closed, after).value, steps)
  }

  lemma ReachedIsSound(history: seq<Event>, closed: bool, after: nat, v: View)
    requires Reached(history, closed, after, v)
    ensures Ordered(v) && history <= v.history && v.after == after && v.start == |history|
    ensures after <= |history| ==> Accounted(v)
  {
    var first := Open(history, closed, after).value;
    var steps: seq<Step> :| Legal(first, steps) && v == After(first, steps);
    OpeningIsSound(history, closed, after);
    StepsKeepOrder(first, steps);
  }

  /** Whatever happens, a reader sees events the run published, in order, each at most once. */
  lemma ReaderSeesOrder(history: seq<Event>, closed: bool, after: nat, v: View)
    requires Reached(history, closed, after, v)
    ensures Increasing(v.received) && Genuine(v.received, v.history) && |v.queue| <= SUBSCRIBER_QUEUE_SIZE
    ensures after <= |history| ==> AllAbove(v.received, after)
  {
    ReachedIsSound(history, closed, after, v);
    var events := Delivered(v);
    assert forall i :: 0 <= i < |v.received| ==> v.received[i] == events[i];
  }

  /**
   Nothing is lost exactly when at most a queue's worth had been missed and no full queue
   had to drop an event. The replay buffer keeps 1000 events, but only 256 of them can
   ever reach a subscriber that comes back.
   */
  lemma CompleteUnlessLost(history: seq<Event>, closed: bool, after: nat, v: View)
    requires Reached(history, closed, after, v) && after <= |history|
    ensures after <= |v.history| && Delivered(v) == v.history[after..]
            <==> |history| - after <= SUBSCRIBER_QUEUE_SIZE && v.dropped == 0
    ensures |Delivered(v)| + Skipped(v) + v.dropped == |v.history| - after
  {
    ReachedIsSound(history, closed, after, v);
  }

  /** The number a reader resumes from. */
  function LastSeen(v: View): nat {
    if v.received == [] then v.after else v.received[|v.received| - 1].seqNo
  }

  /**
   A reader that is cut off and resumes at the last number it saw has, before and after
   together, the history with no gap and no duplicate, if neither part lost anything.
   */
  lemma ResumeLosesNothing(first: seq<Event>, after: nat, v: View, second: seq<Event>, closed: bool, w: View)
    requires Reached(first, false, after, v) && after <= |first| && |first| - after <= SUBSCRIBER_QUEUE_SIZE
    requires v.dropped == 0 && v.history <= second
    requires Reached(second, closed, LastSeen(v), w) && |second| - LastSeen(v) <= SUBSCRIBER_QUEUE_SIZE
    requires w.dropped == 0
    ensures after <= |w.history| && v.received + Delivered(w) == w.history[after..]
  {
    CompleteUnlessLost(first, false, after, v);
    ReachedIsSound(first, false, after, v);
    ReachedIsSound(second, closed, LastSeen(v), w);
    SeenSoFar(v);
    CompleteUnlessLost(second, closed, LastSeen(v), w);
    SplitHistory(v.history, w.history, after, LastSeen(v));
  }

  lemma SeenSoFar(v: View)
    requires v.after <= |v.history| && Numbered(v.history) && Delivered(v) == v.history[v.after..]
    ensures LastSeen(v) == v.after + |v.received| <= |v.history|
    ensures v.received == v.history[v.after..LastSeen(v)]
  {
    var n := |v.received|;
    assert n <= |Delivered(v)|;
    assert v.received == Delivered(v)[..n] == v.history[v.after..][..n];
    assert v.history[v.after..][..n] == v.history[v.after..v.after + n];
    if n > 0 {
      assert v.received[n - 1] == v.history[v.after + n - 1];
    }
  }

  lemma SplitHistory(earlier: seq<Event>, later: seq<Event>, a: nat, b: nat)
    requires earlier <= later && a <= b <= |earlier|
    ensures earlier[a..b] + later[b..] == later[a..]
  {
    assert earlier == later[..|earlier|];
  }

  /** A channel that has ended can be joined again exactly when its queue has room for the end marker. */
  lemma RejoinAfterClose(history: seq<Event>, after: nat)
    requires Numbered(history) && after <= |history|
    ensures Open(history, true, after).Some? <==> |history| - after < SUBSCRIBER_QUEUE_SIZE
  {
    WholeBacklog(history, after);
  }

  /** A number from the future is not honoured: events up to it are delivered all the same. */
  lemma FutureNumberIsIgnored(history: seq<Event>, after: nat, name: string, data: string)
    requires Numbered(history) && after > |history|
    ensures Open(history, false, after).Some?
    ensures var v := Next(Open(history, false, after).value, Publish(name, data));
            Delivered(v) == [NewEvent(history, name, data)] && !AllAbove(Delivered(v), after)
  {
    NothingMissed(Replay(history), after);
    var v := Open(history, false, after).value;
    PublishAppends(v, NewEvent(history, name, data));
    assert Delivered(v) == [];
    assert [] + [NewEvent(history, name, data)] == [NewEvent(history, name, data)];
  }
}
