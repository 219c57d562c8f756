/** A deployed activity of a workflow: its boundary events (which are also
    the catch events it supplies), the ids of the interrupting ones, and
    optional multi-instance loop characteristics. */
module Elements {
  import opened Common
  import JsonPath

  /** Element ids are byte buffers. */
  type ElementId = seq<JsonPath.byte>

  datatype BoundaryEvent = BoundaryEvent(id: ElementId, cancelActivity: bool)

  /** The loop characteristics of a multi-instance activity: sequential or
      parallel, the compiled input-collection query and the optional input
      element. */
  datatype LoopCharacteristics = LoopCharacteristics(
    isSequential: bool,
    inputCollection: JsonPath.Query,
    inputElement: Option<seq<JsonPath.byte>>)

  /** The ids of the interrupting events, in attach order. */
  function InterruptingIds(events: seq<BoundaryEvent>): (ids: seq<ElementId>)
    ensures |ids| <= |events|
  {
    if |events| == 0 then []
    else
      var front := InterruptingIds(events[..|events| - 1]);
      var e := events[|events| - 1];
      if e.cancelActivity then front + [e.id] else front
  }

  /** Attaching events one batch after another collects their interrupting
      ids in the same order. */
  lemma {:induction false} InterruptingIdsAppend(a: seq<BoundaryEvent>, b: seq<BoundaryEvent>)
    ensures InterruptingIds(a + b) == InterruptingIds(a) + InterruptingIds(b)
    decreases |b|
  {
    if |b| == 0 {
      assert a + b == a;
    } else {
      var b' := b[..|b| - 1];
      assert (a + b)[..|a + b| - 1] == a + b';
      assert (a + b)[|a + b| - 1] == b[|b| - 1];
      InterruptingIdsAppend(a, b');
    }
  }

  /** An id is interrupting exactly when some attached event with that id
      cancels the activity. */
  lemma {:induction false} InterruptingIdsMeaning(events: seq<BoundaryEvent>, id: ElementId)
    ensures id in InterruptingIds(events) <==>
      exists i :: 0 <= i < |events| && events[i].cancelActivity && events[i].id == id
    decreases |events|
  {
    if |events| > 0 {
      var front := events[..|events| - 1];
      InterruptingIdsMeaning(front, id);
      if exists i :: 0 <= i < |front| && front[i].cancelActivity && front[i].id == id {
        var i :| 0 <= i < |front| && front[i].cancelActivity && front[i].id == id;
        assert events[i] == front[i];
      }
      if exists i :: 0 <= i < |events| && events[i].cancelActivity && events[i].id == id {
        var i :| 0 <= i < |events| && events[i].cancelActivity && events[i].id == id;
        if i < |front| {
          assert front[i] == events[i];
        }
      }
    }
  }

  class ExecutableActivity {
    const id: ElementId
    var boundaryEvents: seq<BoundaryEvent>
    var catchEvents: seq<BoundaryEvent>
    var interruptingIds: seq<ElementId>
    var loopCharacteristics: Option<LoopCharacteristics>

    /** The catch events are the boundary events, and the interrupting ids are
        those of the cancelling ones. */
    ghost predicate Valid()
      reads this
    {
      catchEvents == boundaryEvents && interruptingIds == InterruptingIds(boundaryEvents)
    }

    constructor(id: ElementId)
      ensures Valid() && this.id == id
      ensures boundaryEvents == [] && catchEvents == [] && interruptingIds == []
      ensures loopCharacteristics == None
    {
      this.id := id;
      boundaryEvents := [];
      catchEvents := [];
      interruptingIds := [];
      loopCharacteristics := None;
    }

    /** attach: the event joins the boundary and catch events; its id joins
        the interrupting ids iff it cancels the activity. */
    method Attach(e: BoundaryEvent)
      requires Valid()
      modifies this`boundaryEvents, this`catchEvents, this`interruptingIds
      ensures Valid()
      ensures boundaryEvents == old(boundaryEvents) + [e]
      ensures catchEvents == old(catchEvents) + [e]
      ensures interruptingIds == if e.cancelActivity then old(interruptingIds) + [e.id] else old(interruptingIds)
      ensures loopCharacteristics == old(loopCharacteristics)
    {
      assert (boundaryEvents + [e])[..|boundaryEvents|] == boundaryEvents;
      boundaryEvents := boundaryEvents + [e];
      catchEvents := catchEvents + [e];
      if e.cancelActivity {
        interruptingIds := interruptingIds + [e.id];
      }
    }

    /** setLoopCharacteristics: None stands for null. */
    method SetLoopCharacteristics(l: Option<LoopCharacteristics>)
      modifies this`loopCharacteristics
      ensures loopCharacteristics == l
      ensures HasLoopCharacteristics() <==> l.Some?
    {
      loopCharacteristics := l;
    }

    predicate HasLoopCharacteristics()
      reads this
    {
      loopCharacteristics.Some?
    }

    /** getEvents: the catch events, which are the attached boundary events in
        attach order. */
    method GetEvents() returns (r: seq<BoundaryEvent>)
      requires Valid()
      ensures r == boundaryEvents
    {
      r := catchEvents;
    }

    method GetBoundaryEvents() returns (r: seq<BoundaryEvent>)
      ensures r == boundaryEvents
    {
      r := boundaryEvents;
    }

    /** getInterruptingElementIds: exactly the ids of attached events that
        cancel the activity. */
    method GetInterruptingElementIds() returns (r: seq<ElementId>)
      requires Valid()
      ensures r == InterruptingIds(boundaryEvents)
      ensures forall x :: x in r <==>
        exists i :: 0 <= i < |boundaryEvents| && boundaryEvents[i].cancelActivity && boundaryEvents[i].id == x
    {
      r := interruptingIds;
      forall x {
        InterruptingIdsMeaning(boundaryEvents, x);
      }
    }
  }

  /** A freshly created activity to which a non-interrupting and then an
      interrupting event are attached supplies both events, in order, and
      only the second one's id as interrupting. */
  method AttachExample(a: ElementId, b: ElementId, c: ElementId) returns (events: seq<BoundaryEvent>, ids: seq<ElementId>)
    ensures events == [BoundaryEvent(b, false), BoundaryEvent(c, true)]
    ensures ids == [c]
  {
    var activity := new ExecutableActivity(a);
    activity.Attach(BoundaryEvent(b, false));
    activity.Attach(BoundaryEvent(c, true));
    events := activity.GetEvents();
    ids := activity.GetInterruptingElementIds();
  }
}
