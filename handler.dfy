/** The buffering SMTP logging handler: records go into an intake queue, a
    worker periodically drains them into a staging queue, and each non-empty
    batch goes out as one mail. Threads are replaced by a single interleaving:
    producers' records reach the intake queue through `Emit` between worker
    steps, or through the `arrivals` the drain loop takes in at each round.
    The clock is a sequence of readings, and the mail transport is an outbox
    that records every message handed to it. */
module Handler {
  import opened Wrappers
  import opened Strings
  import opened Message
  import opened Schedule
  import opened Drain

  datatype Credentials = Credentials(username: string, password: string)

  /** One message handed to the mail transport, with how the session is opened. */
  datatype Dispatch = Dispatch(host: string, startTls: bool, login: Option<Credentials>,
                               fromaddr: string, toaddrs: seq<string>, message: string)

  /** The numeric part of the diagnostic snapshot. */
  datatype StateReport = StateReport(pending: nat, pollInterval: int, sendInterval: int,
                                     pollDurationMax: int, sinceLast: Option<int>,
                                     untilNext: int, recipients: string)

  /** The inputs of one wake-up of the worker: the two clock readings of the
      scheduling decision, the readings and producer arrivals of the drain,
      and the clock reading taken after the send. */
  datatype Wake = Wake(now: int, later: int, readings: seq<int>,
                       arrivals: seq<seq<string>>, sentAt: int)

  /** Consecutive sends more than one send interval apart. */
  ghost predicate Spaced(times: seq<int>)
  {
    forall i :: 0 < i < |times| ==> times[i] > times[i - 1] + SendInterval
  }

  /** A drain keeps "sent, staged and queued records are exactly those
      emitted" true once the records that arrived during it are counted as
      emitted, and with no producer activity nothing arrives. */
  lemma DrainKeepsAccount(delivered: seq<string>, staging: seq<string>, intake: seq<string>,
                          emitted: seq<string>, readings: seq<int>, arrivals: seq<seq<string>>,
                          window: int)
    requires delivered + staging + intake == emitted
    requires CoversWindow(readings, window)
    ensures var r := DrainAll(staging, intake, readings, arrivals, window);
            && delivered + r.staging + r.intake == emitted + r.arrived
            && (NoArrivals(arrivals) ==> r.arrived == [])
  {
    var deadline := readings[0] + window;
    var r := DrainFrom(staging, intake, readings, arrivals, deadline, 1);
    DrainConserves(staging, intake, readings, arrivals, deadline, 1);
    calc {
      delivered + r.staging + r.intake;
      delivered + (r.staging + r.intake);
      delivered + (staging + intake + r.arrived);
      delivered + staging + intake + r.arrived;
    }
    if NoArrivals(arrivals) {
      DrainArrivals(staging, intake, readings, arrivals, deadline, 1);
      NothingArrivedDuring(arrivals, 0, r.rounds);
    }
  }

  /** The records of a sequence of batches, in order. */
  function Concat(batches: seq<seq<string>>): seq<string>
  {
    if batches == [] then [] else Concat(batches[..|batches| - 1]) + batches[|batches| - 1]
  }

  lemma {:induction false} ConcatAppend(a: seq<seq<string>>, b: seq<seq<string>>)
    ensures Concat(a + b) == Concat(a) + Concat(b)
    decreases |b|
  {
    if b != [] {
      var front := b[..|b| - 1];
      assert (a + b)[..|a + b| - 1] == a + front;
      ConcatAppend(a, front);
    } else {
      assert a + b == a;
    }
  }

  lemma ConcatSuffix(a: seq<seq<string>>, b: seq<seq<string>>)
    requires a <= b
    ensures Concat(b) == Concat(a) + Concat(b[|a|..])
  {
    assert b == a + b[|a|..];
    ConcatAppend(a, b[|a|..]);
  }

  /** Batches that are never empty carry at least one record each, so there
      are records exactly when there are batches. */
  lemma {:induction false} ConcatCovers(batches: seq<seq<string>>)
    requires forall i :: 0 <= i < |batches| ==> batches[i] != []
    ensures |batches| <= |Concat(batches)|
    ensures Concat(batches) == [] <==> batches == []
    decreases |batches|
  {
    if batches != [] {
      ConcatCovers(batches[..|batches| - 1]);
    }
  }

  class BufferingSmtpHandler {
    const fromaddr: string
    const toaddrs: seq<string>
    const subject: string
    const header: string
    const host: string
    const tls: bool
    const credentials: Option<Credentials>

    var active: bool
    var pollDurationMax: int
    var lastSendTime: Option<int>
    /** The intake queue every producer appends to. */
    var intake: seq<string>
    /** The staging queue one drain fills and one send empties. */
    var staging: seq<string>
    /** Every message handed to the transport, oldest first. */
    var outbox: seq<Dispatch>

    /** Every record ever emitted, and every record ever sent, in order. */
    ghost var emitted: seq<string>
    ghost var delivered: seq<string>
    /** The clock reading taken after each send. */
    ghost var sendTimes: seq<int>
    /** The batch of records each mail of the outbox carries, and the pending
        count it reports. */
    ghost var batches: seq<seq<string>>
    ghost var pendings: seq<nat>

    /** The mail that carries one non-empty batch. */
    function Mail(batch: seq<string>, pending: nat): Dispatch
      requires batch != []
    {
      Dispatch(host, tls, credentials, fromaddr, toaddrs, Compose(header, batch, pending).value)
    }

    /** Mail i of `outbox` carries batch i with pending count i, and no batch is empty. */
    ghost predicate MailsCarry(outbox: seq<Dispatch>, batches: seq<seq<string>>, pendings: seq<nat>)
    {
      && |batches| == |outbox| && |pendings| == |outbox|
      && forall i {:trigger pendings[i]} :: 0 <= i < |outbox| ==>
           batches[i] != [] && outbox[i] == Mail(batches[i], pendings[i])
    }

    /** Sending one more non-empty batch keeps the outbox and the batches in step. */
    lemma MailsCarryAppend(outbox: seq<Dispatch>, batches: seq<seq<string>>, pendings: seq<nat>,
                           batch: seq<string>, pending: nat)
      requires MailsCarry(outbox, batches, pendings) && batch != []
      ensures MailsCarry(outbox + [Mail(batch, pending)], batches + [batch], pendings + [pending])
    {
      var outbox', batches', pendings' := outbox + [Mail(batch, pending)], batches + [batch], pendings + [pending];
      forall i | 0 <= i < |outbox'|
        ensures batches'[i] != [] && outbox'[i] == Mail(batches'[i], pendings'[i])
      {
        if i < |outbox| {
          assert batches'[i] == batches[i] && pendings'[i] == pendings[i];
          assert Mail(batches[i], pendings[i]) == outbox[i];
        }
      }
    }

    /** The mail log: every mail carries one batch, and the batches, in
        order, are exactly the records sent. */
    ghost predicate Logged()
      reads this`outbox, this`batches, this`pendings, this`delivered
    {
      MailsCarry(outbox, batches, pendings) && delivered == Concat(batches)
    }

    /** No record is lost or duplicated on its way through the two queues:
        sent, then staged, then queued records are the records emitted. */
    ghost predicate Accounted()
      reads this`delivered, this`staging, this`intake, this`emitted
    {
      delivered + staging + intake == emitted
    }

    /** There is one send time per mail, and the last-send time is that of
        the latest send. */
    ghost predicate Timed()
      reads this`sendTimes, this`outbox, this`lastSendTime
    {
      && |sendTimes| == |outbox|
      && lastSendTime == (if sendTimes == [] then None else Some(sendTimes[|sendTimes| - 1]))
    }

    /** The header is the one built from the sender, recipients and subject. */
    predicate Headed()
    {
      header == HeaderText(fromaddr, toaddrs, subject)
    }

    /** The handler's invariant: the header, the record accounting, the mail
        log and the send times. */
    ghost predicate Valid()
      reads this`delivered, this`staging, this`intake, this`emitted, this`sendTimes,
            this`outbox, this`lastSendTime, this`batches, this`pendings
    {
      Headed() && Accounted() && Logged() && Timed()
    }

    constructor (fromaddr: string, toaddrs: seq<string>, subject: string,
                 host: string, tls: bool, credentials: Option<Credentials>)
      ensures Valid()
      ensures this.fromaddr == fromaddr && this.toaddrs == toaddrs && this.subject == subject
      ensures this.host == host && this.tls == tls && this.credentials == credentials
      ensures header == "From: " + fromaddr + "\r\nTo: " + Join(toaddrs, ",") + "\r\nSubject: " + subject + "\r\n\r\n"
      ensures active && pollDurationMax == PollDurationMax && lastSendTime == None
      ensures intake == [] && staging == [] && outbox == []
      ensures emitted == [] && delivered == [] && sendTimes == [] && batches == [] && pendings == []
    {
      this.fromaddr := fromaddr;
      this.toaddrs := toaddrs;
      this.subject := subject;
      this.header := HeaderText(fromaddr, toaddrs, subject);
      HeaderFormat(fromaddr, toaddrs, subject);
      this.host := host;
      this.tls := tls;
      this.credentials := credentials;
      active := true;
      pollDurationMax := PollDurationMax;
      lastSendTime := None;
      intake := [];
      staging := [];
      outbox := [];
      emitted := [];
      delivered := [];
      sendTimes := [];
      batches := [];
      pendings := [];
    }

    /** A producer queues one already formatted record. */
    method Emit(record: string)
      requires Valid()
      modifies this`intake, this`emitted
      ensures Valid()
      ensures intake == old(intake) + [record] && emitted == old(emitted) + [record]
    {
      intake := intake + [record];
      emitted := emitted + [record];
    }

    /** `_move_recordset_from_Q_to_q`: the drain of `DrainAll`, with the
        deadline one `pollDurationMax` after the first clock reading. */
    method MoveRecordset(readings: seq<int>, arrivals: seq<seq<string>>)
      returns (rounds: nat, stop: StopReason, ghost arrived: seq<string>)
      requires Accounted()
      requires CoversWindow(readings, pollDurationMax)
      modifies this`intake, this`staging, this`emitted
      ensures Accounted()
      ensures var r := DrainAll(old(staging), old(intake), readings, arrivals, pollDurationMax);
              && staging == r.staging && intake == r.intake && rounds == r.rounds && stop == r.stop
              && arrived == r.arrived
      ensures emitted == old(emitted) + arrived
      ensures NoArrivals(arrivals) ==> arrived == []
    {
      var deadline := readings[0] + pollDurationMax;
      ghost var target := DrainFrom(staging, intake, readings, arrivals, deadline, 1);
      // The two queues, as the loop sees them.
      var staged, queued := staging, intake;
      var i := 1;
      stop := DeadlineReached;
      while readings[i] < deadline
        invariant 1 <= i < |readings|
        invariant SameQueues(DrainFrom(staged, queued, readings, arrivals, deadline, i), target)
        invariant staging == old(staging) && intake == old(intake) && emitted == old(emitted)
        decreases |readings| - i
      {
        DrainStep(staged, queued, readings, arrivals, deadline, i);
        // Producers add this round's records.
        queued := queued + RoundArrivals(arrivals, i - 1);
        if queued != [] {
          // `put(get_nowait())`: the oldest intake record moves to the staging queue.
          staged := staged + [queued[0]];
          queued := queued[1..];
        } else if staged == [] {
          stop := NothingPending;
          break;
        }
        // Otherwise the worker backs off for 0.1 s; the readings carry the time.
        i := i + 1;
      }
      DrainKeepsAccount(delivered, staging, intake, emitted, readings, arrivals, pollDurationMax);
      arrived := target.arrived;
      staging, intake := staged, queued;
      // The records producers emitted while the drain ran.
      emitted := emitted + arrived;
      rounds := if stop == NothingPending then i else i - 1;
    }

    /** Empties the staging queue into a batch, oldest first, and hands the
        batch to the transport as one message when it is not empty. The
        pending count is taken after the staging queue has been emptied. */
    method SendRecords() returns (records: seq<string>)
      requires Logged()
      modifies this`staging, this`outbox, this`delivered, this`batches, this`pendings
      ensures Logged()
      ensures records == old(staging) && staging == []
      ensures delivered == old(delivered) + records
      ensures records == [] ==> outbox == old(outbox) && batches == old(batches) && pendings == old(pendings)
      ensures records != [] ==> outbox == old(outbox) + [Mail(records, |intake|)]
                                && batches == old(batches) + [records] && pendings == old(pendings) + [|intake|]
    {
      records := [];
      while staging != []
        invariant records + staging == old(staging)
        invariant outbox == old(outbox) && delivered == old(delivered)
        invariant batches == old(batches) && pendings == old(pendings)
        decreases |staging|
      {
        records := records + [staging[0]];
        staging := staging[1..];
      }
      if records != [] {
        var pending := |intake| + |staging|;
        var message := Compose(header, records, pending);
        MailsCarryAppend(outbox, batches, pendings, records, pending);
        ConcatAppend(batches, [records]);
        outbox := outbox + [Dispatch(host, tls, credentials, fromaddr, toaddrs, message.value)];
        delivered := delivered + records;
        // The mail log gains the batch just sent.
        batches := batches + [records];
        pendings := pendings + [pending];
      }
    }

    /** `_process_recordset`: one drain-and-send cycle. When the staging
        queue holds records after the drain they are sent, and `sentAt`, the
        clock reading after the send, becomes the last-send time; an empty
        drain sends nothing and leaves the last-send time as it was. */
    method ProcessRecordset(readings: seq<int>, arrivals: seq<seq<string>>, sentAt: int)
      returns (ghost batch: seq<string>, ghost arrived: seq<string>)
      requires Valid()
      requires CoversWindow(readings, pollDurationMax)
      modifies this`intake, this`staging, this`emitted, this`outbox, this`delivered,
               this`lastSendTime, this`sendTimes, this`batches, this`pendings
      ensures Valid()
      ensures var r := DrainAll(old(staging), old(intake), readings, arrivals, pollDurationMax);
              batch == r.staging && intake == r.intake && arrived == r.arrived
      ensures staging == []
      ensures emitted == old(emitted) + arrived
      ensures NoArrivals(arrivals) ==> arrived == []
      ensures delivered == old(delivered) + batch
      ensures batch == [] ==> outbox == old(outbox) && sendTimes == old(sendTimes)
                              && lastSendTime == old(lastSendTime)
                              && batches == old(batches) && pendings == old(pendings)
      ensures batch != [] ==> lastSendTime == Some(sentAt) && sendTimes == old(sendTimes) + [sentAt]
                              && outbox == old(outbox) + [Mail(batch, |intake|)]
                              && batches == old(batches) + [batch] && pendings == old(pendings) + [|intake|]
    {
      var rounds, stop;
      rounds, stop, arrived := MoveRecordset(readings, arrivals);
      batch := staging;
      if staging != [] {
        ghost var sent := delivered + staging;
        var records := SendRecords();
        assert delivered + staging == sent;
        lastSendTime := Some(sentAt);
        sendTimes := sendTimes + [sentAt];
      }
    }

    /** `close`: marks the handler inactive, shrinks the drain window to at
        most ClosePollDurationMax, and forces one final drain-and-send cycle
        whether or not a send is due. */
    method Close(readings: seq<int>, arrivals: seq<seq<string>>, sentAt: int)
      returns (ghost batch: seq<string>, ghost arrived: seq<string>)
      requires Valid()
      requires CoversWindow(readings, Min(ClosePollDurationMax, pollDurationMax))
      modifies this`active, this`pollDurationMax, this`intake, this`staging, this`emitted,
               this`outbox, this`delivered, this`lastSendTime, this`sendTimes, this`batches, this`pendings
      ensures Valid()
      ensures !active && pollDurationMax == Min(ClosePollDurationMax, old(pollDurationMax))
      ensures pollDurationMax <= ClosePollDurationMax
      ensures var r := DrainAll(old(staging), old(intake), readings, arrivals, pollDurationMax);
              batch == r.staging && intake == r.intake && arrived == r.arrived
      ensures staging == []
      ensures emitted == old(emitted) + arrived
      ensures NoArrivals(arrivals) ==> arrived == []
      ensures delivered == old(delivered) + batch
      ensures batch == [] ==> outbox == old(outbox) && lastSendTime == old(lastSendTime)
                              && batches == old(batches) && pendings == old(pendings)
      ensures batch != [] ==> lastSendTime == Some(sentAt)
                              && outbox == old(outbox) + [Mail(batch, |intake|)]
                              && batches == old(batches) + [batch] && pendings == old(pendings) + [|intake|]
      ensures NoArrivals(arrivals)
              && (forall j :: 1 <= j <= |old(intake)| && j < |readings| ==> readings[j] < readings[0] + pollDurationMax)
              ==> intake == []
      ensures (forall j :: 1 <= j <= |old(intake)| && j < |readings| ==> readings[j] < readings[0] + pollDurationMax)
              ==> old(staging) + old(intake) <= batch
    {
      active := false;
      pollDurationMax := Min(ClosePollDurationMax, pollDurationMax);
      DrainAllFlushes(staging, intake, readings, arrivals, pollDurationMax);
      DrainAllTakesQueued(staging, intake, readings, arrivals, pollDurationMax);
      batch, arrived := ProcessRecordset(readings, arrivals, sentAt);
    }

    /** One iteration of `run`: nothing when the handler is inactive (the
        loop has ended); otherwise a drain-and-send cycle when a send is due,
        followed by a sleep of PollInterval, or else a sleep until the next
        send is due. */
    method RunIteration(w: Wake) returns (sleepTime: Option<int>, ghost batch: seq<string>,
                                          ghost arrived: seq<string>)
      requires Valid()
      requires CoversWindow(w.readings, pollDurationMax)
      modifies this`intake, this`staging, this`emitted, this`outbox, this`delivered,
               this`lastSendTime, this`sendTimes, this`batches, this`pendings
      ensures Valid()
      ensures sleepTime.None? <==> !active
      ensures sleepTime.Some? ==> sleepTime.value >= 0
      ensures active && SendDue(old(lastSendTime), w.now) ==>
                && sleepTime == Some(PollInterval) && staging == []
                && var r := DrainAll(old(staging), old(intake), w.readings, w.arrivals, pollDurationMax);
                   batch == r.staging && intake == r.intake && arrived == r.arrived
      ensures active && !SendDue(old(lastSendTime), w.now) ==>
                sleepTime == Some(TimeUntilNext(lastSendTime, w.later))
      ensures !(active && SendDue(old(lastSendTime), w.now)) ==>
                batch == [] && arrived == [] && intake == old(intake) && staging == old(staging)
      ensures emitted == old(emitted) + arrived
      ensures NoArrivals(w.arrivals) ==> arrived == []
      ensures delivered == old(delivered) + batch
      ensures batch == [] ==> outbox == old(outbox) && sendTimes == old(sendTimes)
                              && lastSendTime == old(lastSendTime)
                              && batches == old(batches) && pendings == old(pendings)
      ensures batch != [] ==> SendDue(old(lastSendTime), w.now) && lastSendTime == Some(w.sentAt)
                              && sendTimes == old(sendTimes) + [w.sentAt]
                              && outbox == old(outbox) + [Mail(batch, |intake|)]
                              && batches == old(batches) + [batch] && pendings == old(pendings) + [|intake|]
      ensures Spaced(old(sendTimes)) && w.sentAt >= w.now ==> Spaced(sendTimes)
      ensures NoArrivals(w.arrivals) && old(emitted) == old(delivered) ==>
                emitted == old(emitted) && delivered == old(delivered)
                && outbox == old(outbox) && sendTimes == old(sendTimes)
    {
      batch, arrived := [], [];
      if !active {
        return None, batch, arrived;
      }
      var d := Decide(lastSendTime, w.now, w.later);
      if d == Process {
        batch, arrived := ProcessRecordset(w.readings, w.arrivals, w.sentAt);
        sleepTime := Some(PollInterval);
      } else {
        SleepIsTimeUntilNext(lastSendTime, w.now, w.later);
        sleepTime := Some(d.duration);
      }
    }

    /** `run` over a sequence of wake-ups during which the handler stays
        active. Every sleep is non-negative; sends stay more than one send
        interval apart when no wake-up's clock runs backwards; and with no
        producer activity and nothing buffered, nothing is ever sent and the
        last-send time stays as it was. The mails sent during the run carry,
        batch by batch and in order, exactly the records sent during it. */
    method Run(wakes: seq<Wake>) returns (sleeps: seq<int>)
      requires Valid() && active
      requires forall k :: 0 <= k < |wakes| ==> CoversWindow(wakes[k].readings, pollDurationMax)
      modifies this`intake, this`staging, this`emitted, this`outbox, this`delivered,
               this`lastSendTime, this`sendTimes, this`batches, this`pendings
      ensures Valid()
      ensures |sleeps| == |wakes| && forall k :: 0 <= k < |sleeps| ==> sleeps[k] >= 0
      ensures old(emitted) <= emitted && old(delivered) <= delivered && old(outbox) <= outbox
      ensures old(batches) <= batches && delivered == old(delivered) + Concat(batches[|old(batches)|..])
      ensures Spaced(old(sendTimes)) && (forall k :: 0 <= k < |wakes| ==> wakes[k].sentAt >= wakes[k].now)
              ==> Spaced(sendTimes)
      ensures (forall k :: 0 <= k < |wakes| ==> NoArrivals(wakes[k].arrivals)) && old(emitted) == old(delivered)
              ==> outbox == old(outbox) && lastSendTime == old(lastSendTime) && delivered == old(delivered)
    {
      sleeps := [];
      var k := 0;
      while k < |wakes|
        invariant 0 <= k <= |wakes| && |sleeps| == k
        invariant Valid()
        invariant forall j :: 0 <= j < k ==> sleeps[j] >= 0
        invariant old(emitted) <= emitted && old(delivered) <= delivered && old(outbox) <= outbox
        invariant old(batches) <= batches
        invariant Spaced(old(sendTimes)) && (forall j :: 0 <= j < |wakes| ==> wakes[j].sentAt >= wakes[j].now)
                  ==> Spaced(sendTimes)
        invariant (forall j :: 0 <= j < |wakes| ==> NoArrivals(wakes[j].arrivals)) && old(emitted) == old(delivered)
                  ==> outbox == old(outbox) && sendTimes == old(sendTimes) && delivered == old(delivered)
                      && emitted == old(emitted)
      {
        var sleepTime, batch, arrived := RunIteration(wakes[k]);
        sleeps := sleeps + [sleepTime.value];
        k := k + 1;
      }
      ConcatSuffix(old(batches), batches);
    }

    /** The numeric part of the diagnostic snapshot at clock reading `now`. */
    function State(now: int): (r: StateReport)
      reads this
      ensures r.pending == |intake| + |staging|
      ensures r.untilNext >= 0 && (lastSendTime.None? ==> r.untilNext == 0)
      ensures lastSendTime.Some? ==> now + r.untilNext == Max(now, lastSendTime.value + SendInterval)
      ensures r.sinceLast.Some? <==> lastSendTime.Some?
      ensures r.sinceLast.Some? ==> lastSendTime.value + r.sinceLast.value == now
      ensures r.recipients == RecipientList(toaddrs)
    {
      StateReport(|intake| + |staging|, PollInterval, SendInterval, pollDurationMax,
                  TimeSinceLast(lastSendTime, now), TimeUntilNext(lastSendTime, now),
                  RecipientList(toaddrs))
    }

    /** Every record recorded as sent went out in some mail: there is a mail
        exactly when records were sent, and no more mails than records. */
    lemma SentRecordsWereMailed()
      requires Valid()
      ensures delivered != [] <==> outbox != []
      ensures |outbox| <= |delivered|
    {
      forall i | 0 <= i < |batches|
        ensures batches[i] != []
      {
        assert pendings[i] >= 0;
      }
      ConcatCovers(batches);
    }

    /** The pending count is exactly the number of records emitted and not yet sent. */
    lemma PendingIsUnsent(now: int)
      requires Valid()
      ensures State(now).pending == |emitted| - |delivered|
    {
      assert |delivered + staging + intake| == |emitted|;
    }
  }
}
