/**
 The fan-out point of one run: a mutable channel and its subscriptions. Every method takes
 each subscription through one step of `EventBus`, so what is proved of every run of a
 subscription there holds of every subscription here.
 */
module RunChannels {
  import opened Option
  import opened EventBus

  datatype SubscribeError = QueueFull

  class Subscription {
    var queue: Queue
    ghost var view: View

    constructor (first: Queue, ghost view: View)
      ensures queue == first && this.view == view
    {
      this.queue := first;
      this.view := view;
    }

    /** `put_nowait`, making room by taking the oldest item out. */
    method Put(event: Event)
      requires view.queue == queue && !view.ended && event == NewEvent(view.history, event.name, event.data)
      modifies this
      ensures queue == (if |old(queue)| < 256 then old(queue) else old(queue)[1..]) + [Some(event)]
      ensures view == Next(old(view), Publish(event.name, event.data)) && view.queue == queue
    {
      view := Next(view, Publish(event.name, event.data));
      if |queue| < SUBSCRIBER_QUEUE_SIZE {
        queue := queue + [Some(event)];
      } else {
        queue := queue[1..];
        queue := queue + [Some(event)];
      }
    }

    method PutEnd()
      requires view.queue == queue && !view.ended
      modifies this
      ensures view == Next(old(view), Step.Close) && view.queue == queue
      ensures queue == old(queue) + if |old(queue)| < 256 then [None] else []
    {
      view := Next(view, Step.Close);
      if |queue| < SUBSCRIBER_QUEUE_SIZE {
        queue := queue + [None];
      }
    }
  }

  class RunChannel {
    var subscribers: set<Subscription>
    var replay: seq<Event>
    var seqNo: nat
    var closed: bool
    /** Everything the run has published. */
    ghost var history: seq<Event>

    ghost predicate Follows(s: Subscription)
      reads this, s
    {
      s.view.queue == s.queue && Tracks(s.view, history, closed)
    }

    ghost predicate Valid()
      reads this, subscribers
    {
      && Numbered(history) && seqNo == |history| && replay == Replay(history)
      && forall s <- subscribers :: Follows(s)
    }

    constructor ()
      ensures Valid() && subscribers == {} && history == [] && !closed
    {
      subscribers, replay, seqNo, closed, history := {}, [], 0, false, [];
    }

    /** Emits one event: numbers it, keeps it for replay, and hands it to every subscriber. */
    method Publish(name: string, data: string) returns (event: Event)
      requires Valid()
      modifies this, subscribers
      ensures Valid() && subscribers == old(subscribers) && closed == old(closed)
      ensures event == NewEvent(old(history), name, data) && history == old(history) + [event]
      ensures event == Event(|old(history)| + 1, name, data)
      ensures replay == if |history| <= 1000 then history else history[|history| - 1000..]
      ensures forall s <- subscribers :: s.view == EventBus.Next(old(s.view), Step.Publish(name, data))
    {
      seqNo := seqNo + 1;
      event := Event(seqNo, name, data);
      KeepsLast(history, event);
      replay := replay + [event];
      if |replay| > REPLAY_BUFFER_SIZE {
        replay := replay[1..];
      }
      FanOut(event);
      history := history + [event];
      forall s | s in subscribers
        ensures Follows(s)
      {
        PublishTracks(old(s.view), old(history), closed, name, data);
      }
    }

    /** Hands one event to every subscriber, whether its queue has room or not. */
    method FanOut(event: Event)
      requires forall s <- subscribers :: s.view.queue == s.queue && !s.view.ended
      requires forall s <- subscribers :: event == NewEvent(s.view.history, event.name, event.data)
      modifies subscribers
      ensures forall s <- subscribers ::
          s.view == EventBus.Next(old(s.view), Step.Publish(event.name, event.data)) && s.view.queue == s.queue
    {
      var waiting := subscribers;
      while waiting != {}
        invariant waiting <= subscribers
        invariant forall s <- waiting :: s.queue == old(s.queue) && s.view == old(s.view)
        invariant forall s <- subscribers - waiting ::
            s.view == EventBus.Next(old(s.view), Step.Publish(event.name, event.data)) && s.view.queue == s.queue
        decreases |waiting|
      {
        var s :| s in waiting;
        s.Put(event);
        waiting := waiting - {s};
      }
    }

    /** The queue a new subscriber starts with: what it missed, while there is room. */
    method MissedSince(after: nat) returns (queue: Queue)
      ensures queue == Backlog(replay, after)
    {
      queue := [];
      for i := 0 to |replay|
        invariant queue == Backlog(replay[..i], after)
      {
        assert replay[..i + 1][..i] == replay[..i];
        if replay[i].seqNo > after && |queue| < SUBSCRIBER_QUEUE_SIZE {
          queue := queue + [Some(replay[i])];
        }
      }
      assert replay[..|replay|] == replay;
    }

    /** Joins the run, given everything still kept after `after` that fits. */
    method Subscribe(after: nat) returns (r: Result<Subscription, SubscribeError>)
      requires Valid()
      modifies this
      ensures Valid() && history == old(history) && closed == old(closed)
      ensures r.Ok? <==> Open(history, closed, after).Some?
      ensures r.Ok? ==> fresh(r.value) && subscribers == old(subscribers) + {r.value}
      ensures r.Ok? ==> r.value.view == Open(history, closed, after).value
      ensures !closed ==> r.Ok?
      ensures after <= |history| < after + 256 ==> r.Ok? && EventsIn(r.value.view.queue) == history[after..]
      ensures r.Err? ==> subscribers == old(subscribers)
    {
      var queue := MissedSince(after);
      RecentRejoins(history, after);
      if closed {
        if |queue| >= SUBSCRIBER_QUEUE_SIZE {
          return Err(QueueFull);
        }
        queue := queue + [None];
      }
      OpeningIsSound(history, closed, after);
      RecentOpens(history, closed, after);
      var s := new Subscription(queue, Open(history, closed, after).value);
      subscribers := subscribers + {s};
      r := Ok(s);
    }

    /** A reader takes the next item; at the end of the stream it leaves. */
    method Receive(s: Subscription) returns (item: Option<Event>)
      requires Valid() && s in subscribers && s.queue != []
      modifies this`subscribers, s
      ensures Valid() && item == old(s.queue)[0] && s.view == EventBus.Next(old(s.view), Step.Receive)
      ensures s.queue == old(s.queue)[1..]
      ensures subscribers == if item.None? then old(subscribers) - {s} else old(subscribers)
    {
      item := s.queue[0];
      ReceiveTracks(s.view, history, closed);
      s.queue := s.queue[1..];
      s.view := EventBus.Next(s.view, Step.Receive);
      if item.None? {
        subscribers := subscribers - {s};
      }
    }

    /** Puts the end marker into every queue that has room. */
    method EndAll()
      requires forall s <- subscribers :: s.view.queue == s.queue && !s.view.ended
      modifies subscribers
      ensures forall s <- subscribers ::
          s.view == EventBus.Next(old(s.view), Step.Close) && s.view.queue == s.queue &&
          s.queue == old(s.queue) + if |old(s.queue)| < 256 then [None] else []
    {
      var waiting := subscribers;
      while waiting != {}
        invariant waiting <= subscribers
        invariant forall s <- waiting :: s.queue == old(s.queue) && s.view == old(s.view)
        invariant forall s <- subscribers - waiting ::
            s.view == EventBus.Next(old(s.view), Step.Close) && s.view.queue == s.queue &&
            s.queue == old(s.queue) + if |old(s.queue)| < 256 then [None] else []
        decreases |waiting|
      {
        var s :| s in waiting;
        s.PutEnd();
        waiting := waiting - {s};
      }
    }

    /** The run has finished: every queue with room gets the end marker. */
    method CloseAll()
      requires Valid()
      modifies this, subscribers
      ensures Valid() && closed && history == old(history) && subscribers == old(subscribers)
      ensures forall s <- subscribers :: s.view == EventBus.Next(old(s.view), Step.Close)
      ensures forall s <- subscribers ::
                s.queue == old(s.queue) + if |old(s.queue)| < 256 then [None] else []
    {
      EndAll();
      closed := true;
      forall s | s in subscribers
        ensures Follows(s)
      {
        CloseTracks(old(s.view), history, old(closed));
      }
    }

    /** The kept events after a number. */
    method EventsAfter(after: nat) returns (events: seq<Event>)
      requires Valid()
      ensures events == KeptFrom(history, |history| - |Replay(history)|, after, |history|)
      ensures after < |history| <= after + 1000 ==> events == history[after..]
      ensures after + 1000 < |history| ==> events == history[|history| - 1000..]
      ensures after >= |history| ==> events == []
    {
      events := KeptAfter(history, replay, after);
    }
  }

  /** The events of `history[lo..to]` numbered above `after`. */
  function KeptFrom(history: seq<Event>, lo: nat, after: nat, to: nat): seq<Event>
    requires to <= |history|
  {
    Stretch(history, Max(lo, after), to)
  }

  method KeptAfter(ghost history: seq<Event>, replay: seq<Event>, after: nat) returns (events: seq<Event>)
    requires Numbered(history) && |replay| <= |history| && replay == history[|history| - |replay|..]
    ensures events == KeptFrom(history, |history| - |replay|, after, |history|)
  {
    events := [];
    ghost var lo := |history| - |replay|;
    for i := 0 to |replay|
      invariant events == KeptFrom(history, lo, after, lo + i)
    {
      StretchNext(history, replay, after, i);
      if replay[i].seqNo > after {
        events := events + [replay[i]];
      }
    }
  }

  function Stretch(history: seq<Event>, from: nat, to: nat): seq<Event>
    requires to <= |history|
  {
    if from < to then history[from..to] else []
  }

  lemma StretchNext(history: seq<Event>, replay: seq<Event>, after: nat, i: nat)
    requires Numbered(history) && i < |replay| <= |history| && replay == history[|history| - |replay|..]
    ensures var lo := |history| - |replay|;
            KeptFrom(history, lo, after, lo + i + 1)
            == if replay[i].seqNo > after then KeptFrom(history, lo, after, lo + i) + [replay[i]]
               else KeptFrom(history, lo, after, lo + i)
  {
    var lo := |history| - |replay|;
    assert replay[i] == history[lo + i];
  }

  lemma KeepsLast(history: seq<Event>, event: Event)
    ensures Replay(history + [event])
            == var kept := Replay(history) + [event]; if |kept| > REPLAY_BUFFER_SIZE then kept[1..] else kept
  {
  }

  /** A subscriber that has missed less than a queue's worth is given all of it. */
  lemma RecentOpens(history: seq<Event>, closed: bool, after: nat)
    requires Numbered(history) && Open(history, closed, after).Some?
    ensures after <= |history| < after + 256 ==>
              EventsIn(Open(history, closed, after).value.queue) == history[after..]
  {
    if after <= |history| < after + 256 {
      WholeBacklog(history, after);
      StretchIsAll(history, after);
      HeldEvents(Backlog(Replay(history), after), history[after..]);
      if closed {
        EventsSnoc(Backlog(Replay(history), after), None);
      }
    }
  }

  lemma RecentRejoins(history: seq<Event>, after: nat)
    requires Numbered(history)
    ensures after <= |history| < after + 256 ==> |Backlog(Replay(history), after)| < 256
  {
    if after <= |history| < after + 256 {
      WholeBacklog(history, after);
    }
  }

  /** What a subscription's view is to its run. */
  predicate Tracks(v: View, history: seq<Event>, closed: bool) {
    v.history == history && v.closed == closed && !v.ended && Ordered(v) && (v.after <= v.start ==> Accounted(v))
  }

  lemma PublishTracks(v: View, history: seq<Event>, closed: bool, name: string, data: string)
    requires Tracks(v, history, closed)
    ensures Tracks(EventBus.Next(v, Step.Publish(name, data)), history + [NewEvent(history, name, data)], closed)
  {
    EventStepIsSound(v, Step.Publish(name, data));
  }

  lemma CloseTracks(v: View, history: seq<Event>, closed: bool)
    requires Tracks(v, history, closed)
    ensures Tracks(EventBus.Next(v, Step.Close), history, true)
  {
    EventStepIsSound(v, Step.Close);
  }

  lemma ReceiveTracks(v: View, history: seq<Event>, closed: bool)
    requires Tracks(v, history, closed) && v.queue != []
    ensures v.queue[0].Some? ==> Tracks(EventBus.Next(v, Step.Receive), history, closed)
  {
    EventStepIsSound(v, Step.Receive);
  }

  lemma EventStepIsSound(v: View, step: Step)
    requires Ordered(v) && (v.after <= v.start ==> Accounted(v)) && Enabled(v, step)
    ensures var w := EventBus.Next(v, step);
            && Ordered(w) && w.after == v.after && w.start == v.start
            && (w.after <= w.start ==> Accounted(w)) && (w.ended <==> step.Receive? && v.queue[0].None?)
  {
    StepKeepsOrder(v, step);
    if v.after <= v.start {
      StepKeepsAccount(v, step);
    }
  }
}
