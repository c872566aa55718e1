/** The end of a reader's stream: what a close does, and the only thing that ends a stream. */
module StreamEnd {
  import opened Option
  import opened Collections
  import opened EventBus

  predicate HasEnd(queue: Queue) {
    exists i :: 0 <= i < |queue| && queue[i].None?
  }

  /** Where the first end marker is, or the length of the queue. */
  function FirstEnd(queue: Queue): (n: nat)
    ensures n <= |queue| && (n < |queue| ==> queue[n].None?)
    ensures forall i :: 0 <= i < n ==> queue[i].Some?
  {
    if queue == [] || queue[0].None? then 0
    else
      assert forall i :: 0 < i < |queue| ==> queue[i] == queue[1..][i - 1];
      1 + FirstEnd(queue[1..])
  }

  // ------------------------------------------------------------ reading on

  /** What the reader ends with: what it took, and all that stands before the first end marker. */
  function Final(v: View): seq<Event> {
    v.received + EventsIn(v.queue[..FirstEnd(v.queue)])
  }

  lemma OneRead(v: View)
    requires !v.ended && HasEnd(v.queue) && FirstEnd(v.queue) > 0
    ensures var w := Next(v, Step.Receive);
            && !w.ended && HasEnd(w.queue) && FirstEnd(w.queue) == FirstEnd(v.queue) - 1
            && |w.queue| < |v.queue| && Final(w) == Final(v)
  {
    var n := FirstEnd(v.queue);
    EndComesNearer(v.queue);
    EventsUncons(v.queue[..n]);
    assert v.queue[..n][1..] == v.queue[1..][..n - 1];
    Assoc(v.received, [v.queue[0].value], EventsIn(v.queue[1..][..n - 1]));
  }

  lemma LastRead(v: View)
    requires !v.ended && HasEnd(v.queue) && FirstEnd(v.queue) == 0
    ensures Next(v, Step.Receive).ended && Next(v, Step.Receive).received == Final(v)
  {
    assert v.queue[..0] == [];
    NoneAdds(v.received);
  }

  /** A reader that takes everything up to the first end marker has it all, and its stream is over. */
  lemma {:induction false} ReadsToTheEnd(v: View, n: nat)
    requires !v.ended && HasEnd(v.queue) && n == FirstEnd(v.queue)
    ensures var steps := Repeat(Step.Receive, n + 1);
            Legal(v, steps) && After(v, steps).ended && After(v, steps).received == Final(v)
    decreases n
  {
    RepeatTail(Step.Receive, n + 1);
    if n > 0 {
      OneRead(v);
      ReadsToTheEnd(Next(v, Step.Receive), n - 1);
    } else {
      LastRead(v);
    }
  }

  lemma EndComesNearer(queue: Queue)
    requires HasEnd(queue) && FirstEnd(queue) > 0
    ensures HasEnd(queue[1..]) && FirstEnd(queue[1..]) == FirstEnd(queue) - 1
  {
    var i :| 0 <= i < |queue| && queue[i].None?;
    assert queue[1..][i - 1].None?;
  }

  // -------------------------------------------------------- nothing else ends

  predicate NoClose(steps: seq<Step>) {
    forall k :: 0 <= k < |steps| ==> !steps[k].Close?
  }

  lemma StepPutsNoEnd(v: View, step: Step)
    requires Enabled(v, step) && !step.Close? && !HasEnd(v.queue) && |v.queue| <= SUBSCRIBER_QUEUE_SIZE
    ensures var w := Next(v, step); !HasEnd(w.queue) && !w.ended && |w.queue| <= SUBSCRIBER_QUEUE_SIZE
  {
  }

  lemma {:induction false} NeverEnds(v: View, steps: seq<Step>)
    requires Legal(v, steps) && NoClose(steps) && !v.ended
    requires !HasEnd(v.queue) && |v.queue| <= SUBSCRIBER_QUEUE_SIZE
    ensures !After(v, steps).ended
    decreases |steps|
  {
    if steps != [] {
      StepPutsNoEnd(v, steps[0]);
      NeverEnds(Next(v, steps[0]), steps[1..]);
    }
  }

  // --------------------------------------------------------- main results

  /** Some run without another close ends the stream. */
  ghost predicate CanEnd(v: View) {
    exists steps: seq<Step> :: Legal(v, steps) && NoClose(steps) && After(v, steps).ended
  }

  /**
   A close lets a reader finish: one whose queue has room takes what is queued and is done,
   with everything it had coming; and one whose queue is full waits for ever.
   */
  lemma CloseEndsTheStream(history: seq<Event>, after: nat, v: View)
    requires Reached(history, false, after, v) && !v.ended && !v.closed
    ensures var w := Next(v, Step.Close);
            && (CanEnd(w) <==> |v.queue| < 256)
            && (|v.queue| < 256 ==>
                  var steps := Repeat(Step.Receive, |v.queue| + 1);
                  && Legal(w, steps) && After(w, steps).ended
                  && After(w, steps).received == v.received + EventsIn(v.queue))
  {
    ReachedIsSound(history, false, after, v);
    var w := Next(v, Step.Close);
    if |v.queue| < 256 {
      RoomForTheEnd(v);
      ReadsToTheEnd(w, |v.queue|);
      AllReceives(|v.queue| + 1);
    } else {
      forall steps: seq<Step> | Legal(w, steps) && NoClose(steps)
        ensures !After(w, steps).ended
      {
        NeverEnds(w, steps);
      }
    }
  }

  lemma RoomForTheEnd(v: View)
    requires !v.ended && !HasEnd(v.queue) && |v.queue| < 256
    ensures var w := Next(v, Step.Close);
            && HasEnd(w.queue) && !w.ended && w.received == v.received
            && FirstEnd(w.queue) == |v.queue| && w.queue[..|v.queue|] == v.queue
  {
    var w := Next(v, Step.Close);
    assert w.queue[|v.queue|].None?;
  }

  lemma {:induction false} AllReceives(n: nat)
    ensures NoClose(Repeat(Step.Receive, n))
  {
    if n > 0 {
      AllReceives(n - 1);
      RepeatTail(Step.Receive, n);
      assert forall k :: 0 < k < n ==> Repeat(Step.Receive, n)[k] == Repeat(Step.Receive, n)[1..][k - 1];
    }
  }

  /** Who joins a run that has ended gets what there is and then the end. */
  lemma ClosedRunEndsAtOnce(history: seq<Event>, after: nat)
    requires Numbered(history) && Open(history, true, after).Some?
    ensures var v := Open(history, true, after).value;
            var steps := Repeat(Step.Receive, |v.queue|);
            Legal(v, steps) && After(v, steps).ended && After(v, steps).received == Delivered(v)
  {
    OpeningIsSound(history, true, after);
    var v := Open(history, true, after).value;
    var backlog := v.queue[..|v.queue| - 1];
    assert v.queue == backlog + [None];
    BacklogHasNoEnd(Replay(history), after);
    assert HasEnd(v.queue) by {
      assert v.queue[|v.queue| - 1].None?;
    }
    assert FirstEnd(v.queue) == |v.queue| - 1;
    ReadsToTheEnd(v, |v.queue| - 1);
    EventsSnoc(backlog, None);
    NoneAdds(EventsIn(backlog));
  }

  lemma {:induction false} BacklogHasNoEnd(replay: seq<Event>, after: nat)
    ensures !HasEnd(Backlog(replay, after))
  {
    if replay != [] {
      BacklogHasNoEnd(replay[..|replay| - 1], after);
    }
  }

  /** Nothing but a close ends a stream: without one, on a run that had not ended, no reader is done. */
  lemma OnlyACloseEnds(history: seq<Event>, after: nat, steps: seq<Step>)
    requires Numbered(history) && Open(history, false, after).Some?
    requires Legal(Open(history, false, after).value, steps) && NoClose(steps)
    ensures !After(Open(history, false, after).value, steps).ended
  {
    OpeningIsSound(history, false, after);
    BacklogHasNoEnd(Replay(history), after);
    NeverEnds(Open(history, false, after).value, steps);
  }
}
