/**
 * The event boundary (EventAction): forward the event ID at the start of an
 * event; at its end flush one row, wipe the tracker, count the event.
 */
module Events {
  import opened Common
  import opened Writer
  import opened Tracking

  /**
   * The processed-event counter. It is a static member of EventAction shared
   * by every instance; here one object stands for it and every EventAction
   * holds a reference to it.
   */
  class EventCounter {
    var nEventsProcessed: nat

    constructor ()
      ensures nEventsProcessed == 0
    {
      nEventsProcessed := 0;
    }
  }

  class EventAction {
    const rootWriter: RootWriter
    const trackingAction: TrackingAction
    const counter: EventCounter

    constructor (rootWriter: RootWriter, ta: TrackingAction, counter: EventCounter)
      ensures this.rootWriter == rootWriter && trackingAction == ta && this.counter == counter
    {
      this.rootWriter := rootWriter;
      trackingAction := ta;
      this.counter := counter;
    }

    /** Hands the event's ID to the writer. */
    method BeginOfEventAction(eventID: int)
      requires rootWriter.Valid()
      modifies rootWriter`eventID
      ensures rootWriter.Valid()
      ensures rootWriter.Pending() == WithEventNumber(old(rootWriter.Pending()), rootWriter.settings, eventID)
      ensures rootWriter.rows == old(rootWriter.rows) && rootWriter.columns == old(rootWriter.columns)
    {
      rootWriter.SetEventNumber(eventID);
    }

    /**
     * Writes the event's row and empties the writer's buffers, then wipes
     * the tracker's tables, then counts the event.
     */
    method EndOfEventAction()
      requires rootWriter.Valid()
      modifies rootWriter`rows, rootWriter`positrons, rootWriter`escaping, rootWriter`nuclei
      modifies trackingAction, counter
      ensures rootWriter.Valid()
      ensures rootWriter.rows == old(rootWriter.rows) + [old(rootWriter.Pending())]
      ensures rootWriter.Pending() == Flushed(old(rootWriter.Pending()))
      ensures rootWriter.columns == old(rootWriter.columns)
      ensures trackingAction.Valid() && trackingAction.Lineage() && trackingAction.ParentsFirst()
      ensures trackingAction.childParentRelationMap == map[]
      ensures trackingAction.parentChildrenRelationMap == map[]
      ensures trackingAction.particleMemoryMap == map[]
      ensures counter.nEventsProcessed == old(counter.nEventsProcessed) + 1
    {
      rootWriter.FillTree();

      trackingAction.Reset();

      counter.nEventsProcessed := counter.nEventsProcessed + 1;
    }
  }
}
