/**
  The outbound side: the `waiting_message` list that the Enter key
  appends to, and the send loop that writes every queued payload to the
  socket and then clears the list.
 */
module Outbound {

  /** current_user_id: the handshake reply is read and discarded, so the
      client always sends as user 1. */
  const CurrentUserId: int := 1

  /** The object key_enter serialises: {OwnerID, Message}. */
  datatype Payload = Payload(ownerId: int, message: string)

  /** The queue and what has been written to the socket so far. */
  datatype Line = Line(waiting: seq<Payload>, sent: seq<Payload>)

  /** key_enter: queue the input text, with no check that it is empty. */
  function Submit(l: Line, text: string): Line {
    l.(waiting := l.waiting + [Payload(CurrentUserId, text)])
  }

  /** One pass of the send loop: if anything waits, send it all in list
      order, then clear the list. */
  function Flush(l: Line): Line {
    if |l.waiting| > 0 then Line([], l.sent + l.waiting) else l
  }

  /** What happens on the outbound side, one atomic step at a time. */
  datatype Event = EnterPressed(text: string) | SendPass

  function Run(l: Line, events: seq<Event>): Line
    decreases |events|
  {
    if events == [] then l
    else
      var l' := Run(l, events[..|events| - 1]);
      match events[|events| - 1]
      case EnterPressed(text) => Submit(l', text)
      case SendPass => Flush(l')
  }

  /** The payloads the Enter presses among `events` produce, in order. */
  function Submitted(events: seq<Event>): seq<Payload>
    decreases |events|
  {
    if events == [] then []
    else
      Submitted(events[..|events| - 1]) +
      match events[|events| - 1]
      case EnterPressed(text) => [Payload(CurrentUserId, text)]
      case SendPass => []
  }

  /** A send pass writes exactly what was queued, in order, and leaves
      the queue empty; on an empty queue it writes nothing. */
  lemma FlushSendsQueue(l: Line)
    ensures Flush(l).waiting == []
    ensures Flush(l).sent == l.sent + l.waiting
    ensures l.waiting == [] ==> Flush(l) == l
  {
  }

  /** A second send pass straight after the first sends nothing. */
  lemma FlushIdempotent(l: Line)
    ensures Flush(Flush(l)) == Flush(l)
  {
  }

  /** Under any interleaving of Enter presses and send passes, nothing is
      lost, duplicated or reordered: what has been sent, followed by what
      still waits, is every submitted payload in submission order; and
      what was sent before is never taken back. */
  lemma {:induction false} RunLossless(l: Line, events: seq<Event>)
    ensures Run(l, events).sent + Run(l, events).waiting == l.sent + l.waiting + Submitted(events)
    ensures |Run(l, events).sent| >= |l.sent| && Run(l, events).sent[..|l.sent|] == l.sent
    decreases |events|
  {
    if events != [] {
      var init := events[..|events| - 1];
      RunLossless(l, init);
      var l' := Run(l, init);
      match events[|events| - 1]
      case EnterPressed(text) =>
        assert Run(l, events).sent + Run(l, events).waiting
            == (l'.sent + l'.waiting) + [Payload(CurrentUserId, text)];
      case SendPass =>
        if |l'.waiting| > 0 {
          assert Run(l, events).sent[..|l.sent|] == l'.sent[..|l.sent|];
        }
    }
  }

  /** After a run that ends with a send pass, every payload submitted
      during it has been sent, each once, in order, and the queue is empty. */
  lemma RunEndingInSendPass(l: Line, events: seq<Event>)
    requires events != [] && events[|events| - 1] == SendPass
    ensures Run(l, events).waiting == []
    ensures Run(l, events).sent == l.sent + l.waiting + Submitted(events)
  {
    RunLossless(l, events);
  }

  /** The socket as a sink of written payloads. */
  class Channel {
    var sent: seq<Payload>

    constructor ()
      ensures sent == []
    {
      sent := [];
    }

    method Send(p: Payload)
      modifies this
      ensures sent == old(sent) + [p]
    {
      sent := sent + [p];
    }
  }

  /** waiting_message together with the socket it is drained into. */
  class Outbox {
    var waiting: seq<Payload>
    const channel: Channel

    constructor (channel: Channel)
      ensures this.channel == channel && waiting == []
    {
      this.channel := channel;
      waiting := [];
    }

    ghost function State(): Line
      reads this, channel
    {
      Line(waiting, channel.sent)
    }

    /** key_enter */
    method KeyEnter(text: string)
      modifies this
      ensures State() == Submit(old(State()), text)
    {
      waiting := waiting + [Payload(CurrentUserId, text)];
    }

    /** One pass of send_message_on_server: a loop that sends every
        queued payload in list order, then a clear. */
    method Drain()
      modifies this, channel
      ensures State() == Flush(old(State()))
    {
      if |waiting| > 0 {
        var i := 0;
        while i < |waiting|
          invariant 0 <= i <= |waiting|
          invariant waiting == old(waiting)
          invariant channel.sent == old(channel.sent) + waiting[..i]
        {
          channel.Send(waiting[i]);
          i := i + 1;
        }
        waiting := [];
      }
    }
  }
}
