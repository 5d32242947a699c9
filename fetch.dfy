/** The receive side of the transfer layer (src/transport/fetch.rs): check
    the ticket, announce what it names, then report a download in a fixed
    number of steps. Ticket parsing belongs to the store library and is an
    input. */
module Fetch {
  import opened Wrappers
  import opened Blobs
  import opened Comms

  /** "Empty Blob", and the error of `BlobTicket::from_str`. */
  datatype FetchError = EmptyBlob | InvalidTicket

  /** The number of progress steps of a download. */
  const MAX: nat := 100

  /** The name of the download's progress track. */
  const TRACK: string := "Downloading"

  /** The two messages announcing a parsed ticket: its node id, then its hash. */
  function Announcement(ticket: BlobTicket): seq<Event> {
    [Correct(NodeIdText("nodeid : ", ticket.nodeId)), Correct(HashText("hash : ", ticket.hash))]
  }

  /** `receive`: an empty ticket fails before anything else, a ticket that
      does not parse fails with nothing emitted; otherwise the node id and
      the hash are announced and the counter runs from 1 to `MAX`, one
      progress event per step, returning as soon as it reaches `MAX`. */
  method Receive(ticket: string, parse: string -> Option<BlobTicket>)
    returns (events: seq<Event>, r: Result<(), FetchError>)
    ensures ticket == "" ==> r == Err(EmptyBlob) && events == []
    ensures ticket != "" && parse(ticket).None? ==> r == Err(InvalidTicket) && events == []
    ensures ticket != "" && parse(ticket).Some? ==>
              r == Ok(()) && ReceiveEvents(events, parse(ticket).value)
  {
    if ticket == "" {
      return [], Err(EmptyBlob);
    }
    var parsed := parse(ticket);
    if parsed.None? {
      return [], Err(InvalidTicket);
    }
    events := Announcement(parsed.value);
    var counter := 0;
    while true
      invariant 0 <= counter < MAX
      invariant |events| == 2 + counter
      invariant events[..2] == Announcement(parsed.value)
      invariant forall k :: 2 <= k < |events| ==> events[k] == Progress(TRACK, k - 1, MAX)
      decreases MAX - counter
    {
      counter := counter + 1;
      events := events + [Progress(TRACK, counter, MAX)];
      if counter == MAX {
        return events, Ok(());
      }
    }
  }

  /** The events of a successful `receive`: the two announcements, then
      the progress steps. */
  ghost predicate ReceiveEvents(events: seq<Event>, ticket: BlobTicket) {
    |events| == 2 + MAX &&
    events[..2] == Announcement(ticket) &&
    forall k :: 2 <= k < |events| ==> events[k] == Progress(TRACK, k - 1, MAX)
  }

  /** What a successful `receive` emits: both messages come before any
      progress event; the progress events all belong to the download track,
      their current value rises strictly and never exceeds the total, the
      last one is complete, and no `Finished` event is sent. */
  lemma ReceiveEventsShape(events: seq<Event>, ticket: BlobTicket)
    requires ReceiveEvents(events, ticket)
    ensures events[0].Message? && events[1].Message?
    ensures forall k :: 2 <= k < |events| ==> events[k].Progress? && events[k].name == TRACK
    ensures forall k, l :: 2 <= k < l < |events| ==> events[k].current < events[l].current
    ensures forall k :: 2 <= k < |events| ==> 1 <= events[k].current <= events[k].total == MAX
    ensures events[|events| - 1] == Progress(TRACK, MAX, MAX)
    ensures Finished !in events
  {
    assert events[0] == events[..2][0] && events[1] == events[..2][1];
  }
}
