/** The notification client `PPA`: the six-field message `report_exposure`
    builds, and a connection that is opened lazily and closed after every
    send. The broker is abstracted to whether it accepts a connection and
    whether it accepts a publish. */
module PpaCommunication {
  import opened Common

  const ReportQueue := "instrument.ralftest"
  const MessageSource := "instrument"
  const MessageDestination := "ppa"

  /** The arguments of one `report_exposure` call; an omitted one is `None`. */
  datatype Report = Report(obsid: string, msgType: string, timestamp: Option<Time>, comment: Option<string>)

  /** The notification body: one field per key of the JSON object. */
  datatype Message = Message(time: Time, id: string, source: string, destination: string,
                             msgType: string, comment: string)

  /** The body `report_exposure` builds for report `r`; `now` is the clock
      reading taken when no timestamp is given. */
  function ReportMessage(r: Report, now: Time): (m: Message)
    ensures m.source == MessageSource && m.destination == MessageDestination
    ensures m.id == r.obsid && m.msgType == r.msgType
    ensures r.timestamp.None? ==> m.time == now
    ensures r.comment.None? ==> m.comment == ""
  {
    Message(if r.timestamp.Some? then r.timestamp.value else now,
            r.obsid, MessageSource, MessageDestination, r.msgType,
            if r.comment.Some? then r.comment.value else "")
  }

  /** The report a message carries, every field given. */
  function ReportOf(m: Message): Report
  {
    Report(m.id, m.msgType, Some(m.time), Some(m.comment))
  }

  /** A message from this client is exactly the message of the report it carries. */
  lemma MessageRoundTrip(m: Message, now: Time)
    requires m.source == MessageSource && m.destination == MessageDestination
    ensures ReportMessage(ReportOf(m), now) == m
  {
  }

  /** Building a message fills in the defaults and loses nothing else. */
  lemma ReportRoundTrip(r: Report, now: Time)
    ensures ReportOf(ReportMessage(r, now))
            == Report(r.obsid, r.msgType,
                      Some(if r.timestamp.Some? then r.timestamp.value else now),
                      Some(if r.comment.Some? then r.comment.value else ""))
  {
  }

  /** The `channel` attribute: never assigned yet, set to None, or holding a channel. */
  datatype Slot = Unassigned | Cleared | Held

  class PPA {
    var connection: bool              // `self.connection is not None`
    var channel: Slot
    var sent: seq<(string, Message)>  // (queue, body) of every publish, in order

    /** A held connection always comes with a channel. */
    ghost predicate Valid()
      reads this
    {
      connection ==> channel == Held
    }

    constructor ()
      ensures Valid() && !connection && channel == Unassigned && sent == []
    {
      connection := false;
      channel := Unassigned;
      sent := [];
    }

    /** `connect`: a connection and a channel are created only when no
        connection is held. When the broker refuses, the handler only prints,
        and asking the missing connection for a channel raises. */
    method Connect(brokerUp: bool) returns (r: Result<bool>)
      requires Valid()
      modifies this`connection, this`channel
      ensures Valid()
      ensures r.Ok? ==> r.value == (connection && channel == Held)
      ensures old(connection) ==> r.Ok? && connection && channel == old(channel)
      ensures !old(connection) && brokerUp ==> r.Ok? && connection && channel == Held
      ensures !old(connection) && !brokerUp ==> r == Err(AttributeError("channel"))
      ensures !old(connection) && !brokerUp ==> !connection && channel == old(channel)
    {
      if !connection {
        if !brokerUp {
          return Err(AttributeError("channel"));
        }
        connection := true;
        channel := Held;
      }
      return Ok(connection && channel == Held);
    }

    /** `close`: clears the channel and the connection. The test of the
        channel attribute raises when `connect` never assigned it. */
    method Close() returns (r: Result<()>)
      requires Valid()
      modifies this`connection, this`channel
      ensures Valid()
      ensures old(channel) == Unassigned <==> r.Err?
      ensures r.Err? ==> r.error == AttributeError("channel")
                         && connection == old(connection) && channel == old(channel)
      ensures r.Ok? ==> !connection && channel == Cleared
    {
      if channel == Unassigned {
        return Err(AttributeError("channel"));
      }
      channel := Cleared;
      connection := false;
      return Ok(());
    }

    /** `send_message`: connect, publish to `targetQueue`, close, and hand
        back the broker's answer to the publish unchanged. */
    method SendMessage(targetQueue: string, message: Message, brokerUp: bool, accepted: bool)
      returns (r: Result<bool>)
      requires Valid()
      modifies this
      ensures Valid()
      ensures r.Err? <==> !old(connection) && !brokerUp
      ensures r.Err? ==> r.error == AttributeError("channel")
      ensures r.Err? ==> connection == old(connection) && channel == old(channel) && sent == old(sent)
      ensures r.Ok? ==> r.value == accepted
      ensures r.Ok? ==> !connection && channel == Cleared
      ensures r.Ok? ==> sent == old(sent) + [(targetQueue, message)]
    {
      var connected := Connect(brokerUp);
      if connected.Err? {
        return Err(connected.error);
      }
      sent := sent + [(targetQueue, message)];
      var success := accepted;
      var _ := Close();
      return Ok(success);
    }

    /** `report_exposure`: builds the message of the report and sends it to
        the fixed report queue. */
    method ReportExposure(report: Report, now: Time, brokerUp: bool, accepted: bool)
      returns (r: Result<bool>)
      requires Valid()
      modifies this
      ensures Valid()
      ensures r.Err? <==> !old(connection) && !brokerUp
      ensures r.Err? ==> r.error == AttributeError("channel")
      ensures r.Err? ==> connection == old(connection) && channel == old(channel) && sent == old(sent)
      ensures r.Ok? ==> r.value == accepted && !connection && channel == Cleared
      ensures r.Ok? ==> sent == old(sent) + [(ReportQueue, ReportMessage(report, now))]
    {
      var msg := ReportMessage(report, now);
      r := SendMessage(ReportQueue, msg, brokerUp, accepted);
    }
  }
}
