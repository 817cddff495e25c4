/** The asynchronous publisher `_PPAsender` and its thread wrapper
    `PPA_Sender`. The model keeps the publisher's bookkeeping: the delivery
    tags awaiting confirmation, the ack/nack/message counters, and the
    stopping, closing and channel flags. Broker callbacks are methods the
    event loop would invoke; what the broker does is a parameter. */
module PpaSender {
  import opened Common
  import opened Text
  import opened PpaCommunication

  const RemoveMissing := ValueError("list.remove(x): x not in list")

  /** Strictly increasing: no tag repeats, and later tags are larger. */
  predicate Increasing(s: seq<int>)
  {
    forall i, j :: 0 <= i < j < |s| ==> s[i] < s[j]
  }

  /** `list.remove(x)` when `x` is present: the first occurrence goes. */
  function RemoveFirst(s: seq<int>, x: int): (r: seq<int>)
    ensures |r| <= |s|
  {
    if s == [] then []
    else if s[0] == x then s[1..]
    else [s[0]] + RemoveFirst(s[1..], x)
  }

  /** Removing a present element drops exactly one copy of it and keeps
      every other element. */
  lemma {:induction false} RemoveFirstRemovesOne(s: seq<int>, x: int)
    requires x in s
    ensures |RemoveFirst(s, x)| == |s| - 1
    ensures multiset(RemoveFirst(s, x)) == multiset(s) - multiset{x}
    decreases |s|
  {
    assert s == [s[0]] + s[1..];
    if s[0] != x {
      RemoveFirstRemovesOne(s[1..], x);
    }
  }

  /** Removing any element keeps a strictly increasing list strictly
      increasing, and removes nothing but that element. */
  lemma {:induction false} RemoveFirstKeepsOrder(s: seq<int>, x: int)
    ensures forall y :: y in RemoveFirst(s, x) ==> y in s
    ensures Increasing(s) ==> Increasing(RemoveFirst(s, x))
    decreases |s|
  {
    if s != [] && s[0] != x {
      var tail := RemoveFirst(s[1..], x);
      RemoveFirstKeepsOrder(s[1..], x);
      assert RemoveFirst(s, x) == [s[0]] + tail;
      if Increasing(s) {
        assert Increasing(s[1..]);
        var r := [s[0]] + tail;
        forall i, j | 0 <= i < j < |r| ensures r[i] < r[j] {
          if i == 0 {
            assert r[j] == tail[j - 1] && r[j] in tail;
            var k :| 0 <= k < |s| - 1 && s[k + 1] == r[j];
            assert s[0] < s[k + 1];
          } else {
            assert r[i] == tail[i - 1] && r[j] == tail[j - 1];
          }
        }
      }
    }
  }

  /** The kind of a confirmation frame: the second `.`-separated part of its
      method name, lower-cased. A name without a `.` has no second part. */
  function ConfirmationType(methodName: string): (r: Result<string>)
    ensures r.Err? ==> r.error == IndexError
  {
    var parts := Pieces(methodName, ".");
    if |parts| < 2 then Err(IndexError) else Ok(Lower(parts[1]))
  }

  /** The type is missing exactly when the name has no `.`; otherwise it
      is the lower-cased text between the first and the next `.`. */
  lemma ConfirmationTypeOf(prefix: string, rest: string)
    requires '.' !in prefix
    ensures ConfirmationType(prefix + "." + rest) == Ok(Lower(Pieces(rest, ".")[0]))
    ensures ConfirmationType(prefix).Err?
  {
    PiecesAtFirstChar(prefix, '.', rest);
    PiecesMoreThanOne(prefix, ".");
    NoDotNoContains(prefix);
  }

  lemma NoDotNoContains(s: string)
    requires '.' !in s
    ensures !Contains(s, ".")
  {
    forall i: nat | i <= |s| ensures !OccursAt(s, ".", i) {
      if i < |s| { assert s[i] != '.'; }
    }
  }

  /** A frame name made of two dot-free parts has the second as its kind. */
  lemma ConfirmationTypeOfKind(prefix: string, kind: string)
    requires '.' !in prefix && '.' !in kind
    ensures ConfirmationType(prefix + "." + kind) == Ok(Lower(kind))
  {
    ConfirmationTypeOf(prefix, kind);
    PiecesMoreThanOne(kind, ".");
    NoDotNoContains(kind);
  }

  /** The frames the broker sends, "Basic.Ack" and "Basic.Nack", are
      classified as an ack and a nack. */
  lemma ConfirmationFrames(kind: string)
    requires kind == "Ack" || kind == "Nack"
    ensures ConfirmationType("Basic." + kind) == Ok(if kind == "Ack" then "ack" else "nack")
  {
    assert "Basic." + kind == "Basic" + "." + kind;
    if kind == "Ack" {
      assert Lower(kind) == "ack" by { assert LowerChar('A') == 'a'; }
    } else {
      assert Lower(kind) == "nack" by { assert LowerChar('N') == 'n'; }
    }
    ConfirmationTypeOfKind("Basic", kind);
  }

  /** What the event loop does after the connection closed. */
  datatype Next = StopLoop | ReconnectAfter(seconds: nat)

  class PPASender {
    var connection: bool          // `self._connection is not None`
    var channel: bool             // `self._channel is not None`
    var deliveries: seq<int>      // tags published and not yet confirmed
    var acked: nat
    var nacked: nat
    var messageNumber: nat
    var stopping: bool
    var closing: bool
    var published: seq<Message>   // every message handed to the channel, in order

    /** The counting invariant: every published tag is pending or has been
        counted once, and the pending tags are distinct numbers already issued. */
    ghost predicate Valid()
      reads this
    {
      && acked + nacked + |deliveries| == messageNumber
      && Increasing(deliveries)
      && (forall i :: 0 <= i < |deliveries| ==> 1 <= deliveries[i] <= messageNumber)
    }

    constructor ()
      ensures Valid()
      ensures !connection && !channel && deliveries == []
      ensures acked == 0 && nacked == 0 && messageNumber == 0
      ensures !stopping && !closing && published == []
    {
      connection := false;
      channel := false;
      deliveries := [];
      acked := 0;
      nacked := 0;
      messageNumber := 0;
      stopping := false;
      closing := false;
      published := [];
    }

    /** `run`: create the connection; the event loop then delivers the callbacks. */
    method Run()
      modifies this`connection
      ensures connection
    {
      connection := true;
    }

    /** `on_channel_open`: the channel is now held. */
    method OnChannelOpen()
      modifies this`channel
      ensures channel
    {
      channel := true;
    }

    /** `reconnect`: the bookkeeping is reset first; stopping the old event
        loop then fails when no connection was ever made. Otherwise a new
        connection is made, and `reopened` says whether its channel opened. */
    method Reconnect(reopened: bool) returns (r: Result<()>)
      modifies this`deliveries, this`acked, this`nacked, this`messageNumber, this`connection, this`channel
      ensures deliveries == [] && acked == 0 && nacked == 0 && messageNumber == 0
      ensures Valid()
      ensures r.Err? <==> !old(connection)
      ensures r.Err? ==> r.error == AttributeError("ioloop") && !connection && channel == old(channel)
      ensures r.Ok? ==> connection && channel == (old(channel) || reopened)
    {
      deliveries := [];
      acked := 0;
      nacked := 0;
      messageNumber := 0;
      if !connection {
        return Err(AttributeError("ioloop"));
      }
      connection := true;
      if reopened {
        channel := true;
      }
      return Ok(());
    }

    /** `publish_message`: nothing while stopping (the result is `None`);
        otherwise reconnect when there is no channel, publish, and record the
        next delivery tag. `accepted` is the broker's answer to the publish. */
    method PublishMessage(message: Message, reopened: bool, accepted: bool) returns (r: Result<Option<bool>>)
      modifies this
      ensures old(stopping) ==> r == Ok(None) && unchanged(this)
      ensures stopping == old(stopping) && closing == old(closing)
      ensures r.Err? <==> !old(stopping) && !old(channel) && !(old(connection) && reopened)
      ensures r.Err? ==> r.error == (if old(connection) then AttributeError("basic_publish") else AttributeError("ioloop"))
      ensures r.Err? ==> deliveries == [] && acked == 0 && nacked == 0 && messageNumber == 0
                         && published == old(published) && connection == old(connection) && !channel
      ensures !old(stopping) && old(channel) ==>
                messageNumber == old(messageNumber) + 1 && deliveries == old(deliveries) + [messageNumber]
                && acked == old(acked) && nacked == old(nacked)
                && connection == old(connection) && channel
      ensures !old(stopping) && !old(channel) && r.Ok? ==>
                messageNumber == 1 && deliveries == [1] && acked == 0 && nacked == 0
                && connection && channel
      ensures r.Ok? && !old(stopping) ==> r.value == Some(accepted) && published == old(published) + [message]
      ensures old(Valid()) ==> Valid()
    {
      if stopping {
        return Ok(None);
      }
      if !channel {
        var reconnected := Reconnect(reopened);
        if reconnected.Err? {
          return Err(reconnected.error);
        }
        if !channel {
          return Err(AttributeError("basic_publish"));
        }
      }
      published := published + [message];
      messageNumber := messageNumber + 1;
      deliveries := deliveries + [messageNumber];
      return Ok(Some(accepted));
    }

    /** `on_delivery_confirmation`: classify the frame, count an ack or a
        nack, then remove the tag. A name without a second part raises before
        anything changes; a tag that is not pending raises after counting. */
    method OnDeliveryConfirmation(methodName: string, tag: int) returns (r: Result<()>)
      modifies this`acked, this`nacked, this`deliveries
      ensures ConfirmationType(methodName).Err? ==>
                r == Err(IndexError) && acked == old(acked) && nacked == old(nacked) && deliveries == old(deliveries)
      ensures ConfirmationType(methodName).Ok? ==>
                acked == old(acked) + (if ConfirmationType(methodName).value == "ack" then 1 else 0)
                && nacked == old(nacked) + (if ConfirmationType(methodName).value == "nack" then 1 else 0)
      ensures ConfirmationType(methodName).Ok? && tag in old(deliveries) ==>
                r.Ok? && deliveries == RemoveFirst(old(deliveries), tag)
      ensures ConfirmationType(methodName).Ok? && tag !in old(deliveries) ==>
                r == Err(RemoveMissing) && deliveries == old(deliveries)
      ensures old(Valid()) && r.Ok? && ConfirmationType(methodName).value in {"ack", "nack"} ==> Valid()
    {
      var kind := ConfirmationType(methodName);
      if kind.Err? {
        return Err(kind.error);
      }
      if kind.value == "ack" {
        acked := acked + 1;
      } else if kind.value == "nack" {
        nacked := nacked + 1;
      }
      if tag !in deliveries {
        return Err(RemoveMissing);
      }
      RemoveFirstRemovesOne(deliveries, tag);
      RemoveFirstKeepsOrder(deliveries, tag);
      ghost var before := deliveries;
      deliveries := RemoveFirst(deliveries, tag);
      if old(Valid()) {
        forall i | 0 <= i < |deliveries| ensures 1 <= deliveries[i] <= messageNumber {
          assert deliveries[i] in RemoveFirst(before, tag);
          var k :| 0 <= k < |before| && before[k] == deliveries[i];
        }
      }
      return Ok(());
    }

    /** `on_connection_closed`: the channel is gone; a deliberate close stops
        the event loop, any other close schedules a reconnect in 5 seconds. */
    method OnConnectionClosed() returns (next: Next)
      modifies this`channel
      ensures !channel
      ensures next == if closing then StopLoop else ReconnectAfter(5)
    {
      channel := false;
      if closing {
        next := StopLoop;
      } else {
        next := ReconnectAfter(5);
      }
    }

    /** `close_connection`: mark the close as deliberate, then close; there is
        nothing to close when no connection was made. */
    method CloseConnection() returns (r: Result<()>)
      modifies this`closing
      ensures closing
      ensures r.Err? <==> !connection
      ensures r.Err? ==> r.error == AttributeError("close")
    {
      closing := true;
      if !connection {
        return Err(AttributeError("close"));
      }
      return Ok(());
    }

    /** `stop`: stop publishing, close, and let the event loop run until the
        close arrives, which by then stops the loop. */
    method Stop() returns (r: Result<()>)
      modifies this`stopping, this`closing, this`channel
      ensures stopping && closing
      ensures r.Err? <==> !connection
      ensures r.Ok? ==> !channel
      ensures r.Err? ==> channel == old(channel)
    {
      stopping := true;
      r := CloseConnection();
      if r.Ok? {
        var next := OnConnectionClosed();
        assert next == StopLoop;
      }
    }
  }

  /** `PPA_Sender`: the thread that owns a publisher. */
  class Sender {
    const ppa: PPASender

    constructor ()
      ensures fresh(ppa) && ppa.Valid()
      ensures !ppa.connection && !ppa.channel && ppa.deliveries == []
      ensures ppa.acked == 0 && ppa.nacked == 0 && ppa.messageNumber == 0
      ensures !ppa.stopping && !ppa.closing && ppa.published == []
    {
      ppa := new PPASender();
    }

    /** `send_message`: publish, and answer true whatever the broker said;
        only an exception from the publish reaches the caller. */
    method SendMessage(message: Message, reopened: bool, accepted: bool) returns (r: Result<bool>)
      modifies ppa
      ensures r.Ok? ==> r.value
      ensures r.Err? <==> !old(ppa.stopping) && !old(ppa.channel) && !(old(ppa.connection) && reopened)
      ensures r.Ok? && !old(ppa.stopping) ==> ppa.published == old(ppa.published) + [message]
      ensures old(ppa.stopping) ==> unchanged(ppa)
      ensures ppa.stopping == old(ppa.stopping) && ppa.closing == old(ppa.closing)
      ensures r.Err? ==> r.error == (if old(ppa.connection) then AttributeError("basic_publish") else AttributeError("ioloop"))
      ensures r.Err? ==> ppa.deliveries == [] && ppa.acked == 0 && ppa.nacked == 0 && ppa.messageNumber == 0
                         && ppa.published == old(ppa.published) && ppa.connection == old(ppa.connection) && !ppa.channel
      ensures !old(ppa.stopping) && old(ppa.channel) ==>
                ppa.messageNumber == old(ppa.messageNumber) + 1 && ppa.deliveries == old(ppa.deliveries) + [ppa.messageNumber]
                && ppa.acked == old(ppa.acked) && ppa.nacked == old(ppa.nacked)
                && ppa.connection == old(ppa.connection) && ppa.channel
      ensures !old(ppa.stopping) && !old(ppa.channel) && r.Ok? ==>
                ppa.messageNumber == 1 && ppa.deliveries == [1] && ppa.acked == 0 && ppa.nacked == 0 && ppa.connection && ppa.channel
      ensures old(ppa.Valid()) ==> ppa.Valid()
    {
      var success := ppa.PublishMessage(message, reopened, accepted);
      if success.Err? {
        return Err(success.error);
      }
      return Ok(true);
    }

    /** `report_exposure`: the same message the direct client builds, sent
        through the publisher. */
    method ReportExposure(report: Report, now: Time, reopened: bool, accepted: bool) returns (r: Result<bool>)
      modifies ppa
      ensures r.Ok? ==> r.value
      ensures r.Err? <==> !old(ppa.stopping) && !old(ppa.channel) && !(old(ppa.connection) && reopened)
      ensures r.Ok? && !old(ppa.stopping) ==> ppa.published == old(ppa.published) + [ReportMessage(report, now)]
      ensures old(ppa.stopping) ==> unchanged(ppa)
      ensures ppa.stopping == old(ppa.stopping) && ppa.closing == old(ppa.closing)
      ensures r.Err? ==> r.error == (if old(ppa.connection) then AttributeError("basic_publish") else AttributeError("ioloop"))
      ensures r.Err? ==> ppa.deliveries == [] && ppa.acked == 0 && ppa.nacked == 0 && ppa.messageNumber == 0
                         && ppa.published == old(ppa.published) && ppa.connection == old(ppa.connection) && !ppa.channel
      ensures !old(ppa.stopping) && old(ppa.channel) ==>
                ppa.messageNumber == old(ppa.messageNumber) + 1 && ppa.deliveries == old(ppa.deliveries) + [ppa.messageNumber]
                && ppa.acked == old(ppa.acked) && ppa.nacked == old(ppa.nacked)
                && ppa.connection == old(ppa.connection) && ppa.channel
      ensures !old(ppa.stopping) && !old(ppa.channel) && r.Ok? ==>
                ppa.messageNumber == 1 && ppa.deliveries == [1] && ppa.acked == 0 && ppa.nacked == 0 && ppa.connection && ppa.channel
      ensures old(ppa.Valid()) ==> ppa.Valid()
    {
      var msg := ReportMessage(report, now);
      r := SendMessage(msg, reopened, accepted);
    }
  }
}
