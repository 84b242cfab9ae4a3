/** The mail the handler sends for one batch of records: a fixed header
    built once at construction, then a body that counts the included and
    the still-pending records and lists the records one per line. The mail is
    laid out as section 2.1 of RFC 5322 describes: header fields each ended
    by CRLF, an empty line, the body. It carries no `Date:` field. */
module Message {
  import opened Wrappers
  import opened Strings

  const IncludedLabel: string := "Included messages: "
  const PendingLabel: string := "Pending messages:  "

  /** The `To:` field value: the addresses joined with commas. */
  function RecipientList(toaddrs: seq<string>): string
  {
    Join(toaddrs, ",")
  }

  /** The header text built once by the constructor. */
  function HeaderText(fromaddr: string, toaddrs: seq<string>, subject: string): string
  {
    "From: " + fromaddr + CRLF + "To: " + RecipientList(toaddrs) + CRLF + "Subject: " + subject + CRLF + CRLF
  }

  /** The header is exactly `From: f\r\nTo: a1,a2,...\r\nSubject: s\r\n\r\n`. */
  lemma HeaderFormat(fromaddr: string, toaddrs: seq<string>, subject: string)
    ensures HeaderText(fromaddr, toaddrs, subject)
            == "From: " + fromaddr + "\r\nTo: " + Join(toaddrs, ",") + "\r\nSubject: " + subject + "\r\n\r\n"
  {
  }

  /** The body: the included count, the pending count when there is one,
      an empty line, then the records separated by CRLF. */
  function Body(records: seq<string>, pending: nat): string
  {
    IncludedLabel + NatToString(|records|) + CRLF
    + (if pending > 0 then PendingLabel + NatToString(pending) + CRLF else "")
    + CRLF + Join(records, CRLF)
  }

  /** The message for a batch, or nothing when the batch is empty. */
  function Compose(header: string, records: seq<string>, pending: nat): (m: Option<string>)
    ensures m.Some? <==> |records| > 0
    ensures m.Some? ==> header <= m.value && |m.value| > |header| + |IncludedLabel|
  {
    if |records| == 0 then None else Some(header + Body(records, pending))
  }

  /** The header section as lines: three fields and the empty line that ends it. */
  function HeaderLines(fromaddr: string, toaddrs: seq<string>, subject: string): seq<string>
  {
    ["From: " + fromaddr, "To: " + RecipientList(toaddrs), "Subject: " + subject, ""]
  }

  /** The body as lines: the counts, an empty line, the records. */
  function BodyLines(records: seq<string>, pending: nat): seq<string>
  {
    [IncludedLabel + NatToString(|records|)]
    + (if pending > 0 then [PendingLabel + NatToString(pending)] else [])
    + [""] + records
  }

  /** The message as a sequence of lines. */
  function Lines(fromaddr: string, toaddrs: seq<string>, subject: string,
                 records: seq<string>, pending: nat): seq<string>
  {
    HeaderLines(fromaddr, toaddrs, subject) + BodyLines(records, pending)
  }

  /** What a reader of the message can recover from it. */
  datatype Digest = Digest(fromaddr: string, toaddrs: seq<string>, subject: string,
                           included: nat, pending: nat, records: seq<string>)

  function StripPrefix(s: string, prefix: string): (r: Option<string>)
    ensures r.Some? <==> prefix <= s
    ensures r.Some? ==> s == prefix + r.value
  {
    if prefix <= s then Some(s[|prefix|..]) else None
  }

  function ParseCount(s: string): Option<nat>
  {
    if |s| > 0 && IsDigits(s) then Some(ParseDigits(s)) else None
  }

  function ParseRecipients(s: string): seq<string>
  {
    if s == "" then [] else Split(s, ",")
  }

  /** Reads a message laid out as `Compose` lays it out. */
  function Decode(m: string): Option<Digest>
  {
    var lines := Split(m, CRLF);
    if |lines| < 7 || lines[3] != "" then None
    else
      var f := StripPrefix(lines[0], "From: ");
      var t := StripPrefix(lines[1], "To: ");
      var s := StripPrefix(lines[2], "Subject: ");
      var inc := StripPrefix(lines[4], IncludedLabel);
      if f.None? || t.None? || s.None? || inc.None? then None
      else
        var n := ParseCount(inc.value);
        if n.None? then None
        else if lines[5] == "" then
          Some(Digest(f.value, ParseRecipients(t.value), s.value, n.value, 0, lines[6..]))
        else
          var p := StripPrefix(lines[5], PendingLabel);
          if p.None? || lines[6] != "" then None
          else
            var pc := ParseCount(p.value);
            if pc.None? then None
            else Some(Digest(f.value, ParseRecipients(t.value), s.value, n.value, pc.value, lines[7..]))
  }

  /** What the text format can carry without ambiguity: no CR in any field or
      record, addresses non-empty and free of commas, at least one record. */
  predicate Encodable(d: Digest)
  {
    && '\r' !in d.fromaddr && '\r' !in d.subject
    && (forall i :: 0 <= i < |d.toaddrs| ==> d.toaddrs[i] != "" && ',' !in d.toaddrs[i] && '\r' !in d.toaddrs[i])
    && |d.records| > 0
    && (forall i :: 0 <= i < |d.records| ==> '\r' !in d.records[i])
    && d.included == |d.records|
  }

  lemma NoCarriageReturnInNumber(n: nat)
    ensures '\r' !in NatToString(n)
  {
  }

  lemma JoinCons(x: string, rest: seq<string>)
    requires |rest| > 0
    ensures Join([x] + rest, CRLF) == x + CRLF + Join(rest, CRLF)
  {
    assert ([x] + rest)[1..] == rest;
  }

  /** The header section is its three field lines and an empty line, each ended by CRLF. */
  lemma {:induction false} HeaderIsLines(fromaddr: string, toaddrs: seq<string>, subject: string)
    ensures HeaderText(fromaddr, toaddrs, subject) == Join(HeaderLines(fromaddr, toaddrs, subject), CRLF) + CRLF
  {
    var f, t, s := "From: " + fromaddr, "To: " + RecipientList(toaddrs), "Subject: " + subject;
    assert HeaderLines(fromaddr, toaddrs, subject) == [f] + ([t] + ([s] + [""]));
    JoinCons(f, [t] + ([s] + [""]));
    JoinCons(t, [s] + [""]);
    JoinCons(s, [""]);
    assert Join([""], CRLF) == "";
  }

  /** The body is its lines joined by CRLF. */
  lemma {:induction false} BodyIsLines(records: seq<string>, pending: nat)
    requires |records| > 0
    ensures Body(records, pending) == Join(BodyLines(records, pending), CRLF)
  {
    var inc := IncludedLabel + NatToString(|records|);
    var pend := if pending > 0 then [PendingLabel + NatToString(pending)] else [];
    var counts := [inc] + pend + [""];
    assert BodyLines(records, pending) == counts + records;
    JoinAppend(counts, records, CRLF);
    if pending > 0 {
      assert counts == [inc] + ([PendingLabel + NatToString(pending)] + [""]);
      JoinCons(inc, [PendingLabel + NatToString(pending)] + [""]);
      JoinCons(PendingLabel + NatToString(pending), [""]);
    } else {
      JoinCons(inc, [""]);
    }
  }

  /** The composed message is exactly its lines joined by CRLF. */
  lemma {:induction false} ComposeIsLines(fromaddr: string, toaddrs: seq<string>, subject: string,
                                          records: seq<string>, pending: nat)
    requires |records| > 0
    ensures Compose(HeaderText(fromaddr, toaddrs, subject), records, pending).value
            == Join(Lines(fromaddr, toaddrs, subject, records, pending), CRLF)
  {
    HeaderIsLines(fromaddr, toaddrs, subject);
    BodyIsLines(records, pending);
    JoinAppend(HeaderLines(fromaddr, toaddrs, subject), BodyLines(records, pending), CRLF);
  }

  /** No line of the message carries a CR, provided no field or record does. */
  lemma LinesAvoidCR(fromaddr: string, toaddrs: seq<string>, subject: string,
                     records: seq<string>, pending: nat)
    requires '\r' !in fromaddr && '\r' !in subject
    requires forall i :: 0 <= i < |toaddrs| ==> '\r' !in toaddrs[i]
    requires forall i :: 0 <= i < |records| ==> '\r' !in records[i]
    ensures var ls := Lines(fromaddr, toaddrs, subject, records, pending);
            forall i :: 0 <= i < |ls| ==> CRLF[0] !in ls[i]
  {
    JoinAvoids(toaddrs, ",", '\r');
    NoCarriageReturnInNumber(|records|);
    NoCarriageReturnInNumber(pending);
    var hs := HeaderLines(fromaddr, toaddrs, subject);
    var counts := [IncludedLabel + NatToString(|records|)]
                  + (if pending > 0 then [PendingLabel + NatToString(pending)] else []) + [""];
    assert forall i :: 0 <= i < |hs| ==> CRLF[0] !in hs[i];
    assert forall i :: 0 <= i < |counts| ==> CRLF[0] !in counts[i];
    var ls := Lines(fromaddr, toaddrs, subject, records, pending);
    assert ls == hs + counts + records;
    forall i | 0 <= i < |ls|
      ensures CRLF[0] !in ls[i]
    {
      if i < |hs| {
        assert ls[i] == hs[i];
      } else if i < |hs| + |counts| {
        assert ls[i] == counts[i - |hs|];
      } else {
        assert ls[i] == records[i - |hs| - |counts|];
      }
    }
  }

  /** Splitting the message at CRLF gives back its lines, provided no field
      or record carries a CR of its own. */
  lemma {:induction false} MessageLines(fromaddr: string, toaddrs: seq<string>, subject: string,
                                        records: seq<string>, pending: nat)
    requires |records| > 0
    requires '\r' !in fromaddr && '\r' !in subject
    requires forall i :: 0 <= i < |toaddrs| ==> '\r' !in toaddrs[i]
    requires forall i :: 0 <= i < |records| ==> '\r' !in records[i]
    ensures Split(Compose(HeaderText(fromaddr, toaddrs, subject), records, pending).value, CRLF)
            == Lines(fromaddr, toaddrs, subject, records, pending)
  {
    ComposeIsLines(fromaddr, toaddrs, subject, records, pending);
    LinesAvoidCR(fromaddr, toaddrs, subject, records, pending);
    SplitJoin(Lines(fromaddr, toaddrs, subject, records, pending), CRLF);
  }

  /** The line after the included count carries the pending count exactly
      when some records are still pending; otherwise it is the empty line
      that ends the counts, and the records follow it. */
  lemma PendingLineIffPending(fromaddr: string, toaddrs: seq<string>, subject: string,
                              records: seq<string>, pending: nat)
    requires |records| > 0
    requires '\r' !in fromaddr && '\r' !in subject
    requires forall i :: 0 <= i < |toaddrs| ==> '\r' !in toaddrs[i]
    requires forall i :: 0 <= i < |records| ==> '\r' !in records[i]
    ensures var lines := Split(Compose(HeaderText(fromaddr, toaddrs, subject), records, pending).value, CRLF);
            && |lines| == 6 + (if pending > 0 then 1 else 0) + |records|
            && lines[4] == IncludedLabel + NatToString(|records|)
            && (pending > 0 <==> lines[5] != "")
            && (pending > 0 ==> lines[5] == PendingLabel + NatToString(pending) && lines[6] == "")
            && lines[|lines| - |records|..] == records
  {
    MessageLines(fromaddr, toaddrs, subject, records, pending);
  }

  /** Splitting the `To:` value at commas gives back the recipients. */
  lemma {:induction false} RecipientsRoundTrip(toaddrs: seq<string>)
    requires forall i :: 0 <= i < |toaddrs| ==> toaddrs[i] != "" && ',' !in toaddrs[i]
    ensures ParseRecipients(RecipientList(toaddrs)) == toaddrs
  {
    if |toaddrs| > 0 {
      if |toaddrs| == 1 {
        assert RecipientList(toaddrs) == toaddrs[0];
      } else {
        assert |RecipientList(toaddrs)| > 0;
      }
      SplitJoin(toaddrs, ",");
    }
  }

  /** The line layout of a message carrying a digest: the three header
      lines, an empty line, the counts, an empty line and the records. */
  predicate LaidOut(lines: seq<string>, d: Digest)
  {
    && |lines| == 6 + (if d.pending > 0 then 1 else 0) + |d.records|
    && lines[0] == "From: " + d.fromaddr
    && lines[1] == "To: " + RecipientList(d.toaddrs)
    && lines[2] == "Subject: " + d.subject
    && lines[3] == ""
    && lines[4] == IncludedLabel + NatToString(|d.records|)
    && (d.pending > 0 ==> lines[5] == PendingLabel + NatToString(d.pending) && lines[6] == "")
    && (d.pending == 0 ==> lines[5] == "")
    && lines[|lines| - |d.records|..] == d.records
  }

  /** A message laid out as the lines of a digest decodes to that digest. */
  lemma DecodeLines(m: string, d: Digest)
    requires Encodable(d)
    requires LaidOut(Split(m, CRLF), d)
    ensures Decode(m) == Some(d)
  {
    RecipientsRoundTrip(d.toaddrs);
    ParseNatToString(|d.records|);
    ParseNatToString(d.pending);
    assert ("From: " + d.fromaddr)[|"From: "|..] == d.fromaddr;
    assert ("To: " + RecipientList(d.toaddrs))[|"To: "|..] == RecipientList(d.toaddrs);
    assert ("Subject: " + d.subject)[|"Subject: "|..] == d.subject;
    assert (IncludedLabel + NatToString(|d.records|))[|IncludedLabel|..] == NatToString(|d.records|);
    if d.pending > 0 {
      assert (PendingLabel + NatToString(d.pending))[|PendingLabel|..] == NatToString(d.pending);
    }
  }

  /** Decoding a composed message gives back everything that went into it. */
  lemma DecodeCompose(d: Digest)
    requires Encodable(d)
    ensures Decode(Compose(HeaderText(d.fromaddr, d.toaddrs, d.subject), d.records, d.pending).value) == Some(d)
  {
    var m := Compose(HeaderText(d.fromaddr, d.toaddrs, d.subject), d.records, d.pending).value;
    MessageLines(d.fromaddr, d.toaddrs, d.subject, d.records, d.pending);
    PendingLineIffPending(d.fromaddr, d.toaddrs, d.subject, d.records, d.pending);
    assert LaidOut(Split(m, CRLF), d);
    DecodeLines(m, d);
  }
}
