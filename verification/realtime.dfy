/**
 * The realtime metrics channel: a SignalR hub spoken as JSON text over a
 * web socket, every frame terminated by the record separator U+001E. The
 * adapter sends a handshake when the socket opens, answers the hub's empty
 * acknowledgement `{}` with one subscription frame for its organisation, and
 * hands every other non-empty record of an incoming message to the metrics
 * parser.
 */
module Realtime {
  import opened Wrappers
  import opened JsText
  import opened ObjectDb
  import opened Metrics

  /** The record separator that ends every hub frame. */
  const RS: char := 0x1E as char

  /** `JSON.stringify({ protocol: "json", version: 1 })`, written in three pieces. */
  const HandshakeBody: string := "{\"protocol\"" + ":\"json\"," + "\"version\":1}"

  /** The handshake, terminated by the separator. */
  const HandshakeFrame: string := HandshakeBody + [RS]

  /** The hub's handshake acknowledgement, as one whole message. */
  const AckMessage: string := "{}" + [RS]

  const HubUrl: string := "wss://portal.libreo.cloud/api/customer/hubs/metrics?id="

  /** The socket address for a negotiated connection token. */
  function SocketUrl(connectionToken: string): (url: string)
    ensures |url| == |HubUrl| + |connectionToken|
    ensures url[..|HubUrl|] == HubUrl && url[|HubUrl|..] == connectionToken
  {
    HubUrl + connectionToken
  }

  /** The subscription request's JSON text up to its invocation id. */
  function SubscribeHead(org: string): string
  {
    "{\"arguments\":[" + JsonQuote(org) + "],\"invocationId\":"
  }

  const SubscribeTail: string := ",\"target\":" + "\"SubscribeMetrics" + "ByOrgPath\"," + "\"type\":1}"

  /** The JSON text of the subscription request, without its separator. */
  function SubscribeBody(org: string, invocationId: nat): string
  {
    SubscribeHead(org) + JsonQuote(DecimalString(invocationId)) + SubscribeTail
  }

  /**
   * `JSON.stringify({ arguments: [org], invocationId: "" + id, target:
   * "SubscribeMetricsByOrgPath", type: 1 }) + "\u001e"`: the invocation id
   * travels as a string.
   */
  function SubscribeFrame(org: string, invocationId: nat): string
  {
    SubscribeBody(org, invocationId) + [RS]
  }

  // ---------------------------------------------------------------------------
  // Incoming messages
  // ---------------------------------------------------------------------------

  /** A decoded hub invocation: its `target` and its `arguments`, read as metrics. */
  datatype Frame = Frame(target: string, arguments: seq<Metric>)

  /** What the message handler does with one incoming message. */
  datatype Reaction = Subscribe | Parse(records: seq<string>)

  /** The pieces of a split that are not empty (`if (messages[i])`), in order. */
  function NonEmptyRecords(parts: seq<string>): (r: seq<string>)
    ensures |r| <= |parts|
    ensures forall i :: 0 <= i < |r| ==> r[i] != [] && r[i] in parts
    ensures forall p :: p in parts && p != [] ==> p in r
  {
    if parts == [] then []
    else
      var init := parts[..|parts| - 1];
      var last := parts[|parts| - 1];
      assert parts == init + [last];
      NonEmptyRecords(init) + (if last == [] then [] else [last])
  }

  /** Dropping empty pieces keeps the order: the records of two runs of pieces are those of the first, then those of the second. */
  lemma {:induction false} NonEmptyRecordsAppend(a: seq<string>, b: seq<string>)
    ensures NonEmptyRecords(a + b) == NonEmptyRecords(a) + NonEmptyRecords(b)
    decreases |b|
  {
    if b == [] {
      assert a + b == a;
    } else {
      var init := b[..|b| - 1];
      var last := b[|b| - 1];
      assert (a + b)[..|a + b| - 1] == a + init;
      NonEmptyRecordsAppend(a, init);
    }
  }

  /** The message handler's branch: the exact acknowledgement subscribes, anything else is parsed record by record. */
  function React(msg: string): (r: Reaction)
    ensures r.Subscribe? <==> msg == AckMessage
    ensures r.Parse? ==> forall i :: 0 <= i < |r.records| ==> r.records[i] != [] && RS !in r.records[i]
  {
    if msg == AckMessage then Subscribe else Parse(NonEmptyRecords(Split(msg, RS)))
  }

  /**
   * What `ParseMetricsMessage(orgPath, record)` writes: nothing when the
   * record is not JSON (`decode` answers None) or its target is not
   * `receiveMetrics`, otherwise every metric of its arguments in turn.
   */
  function RecordOps(orgPath: string, record: string, decode: string -> Option<Frame>, now: int): seq<Op>
  {
    match decode(record)
    case None => []
    case Some(f) => if f.target == "receiveMetrics" then MetricListOps(orgPath, f.arguments, now) else []
  }

  function RecordsOps(orgPath: string, records: seq<string>, decode: string -> Option<Frame>, now: int): seq<Op>
  {
    if records == [] then []
    else RecordsOps(orgPath, records[..|records| - 1], decode, now) + RecordOps(orgPath, records[|records| - 1], decode, now)
  }

  /** Concatenation of strings, the inverse of splitting once separators are dropped. */
  function Concat(parts: seq<string>): string
  {
    if parts == [] then "" else parts[0] + Concat(parts[1..])
  }

  /** The text with every occurrence of `c` removed. */
  function Remove(s: string, c: char): (r: string)
    ensures c !in r
    ensures |r| == |s| - Count(s, c)
  {
    if s == [] then "" else (if s[0] == c then "" else [s[0]]) + Remove(s[1..], c)
  }

  // ---------------------------------------------------------------------------
  // The socket
  // ---------------------------------------------------------------------------

  /**
   * One web socket connection. The organisation and node path it was opened
   * for are fixed at creation: they are what its message handler closes over.
   * `sent` is every frame written to it, in order.
   */
  class Socket {
    const url: string
    const org: string
    const orgPath: string
    var closed: bool
    var sent: seq<string>

    constructor (url: string, org: string, orgPath: string)
      ensures this.url == url && this.org == org && this.orgPath == orgPath
      ensures !closed && sent == []
    {
      this.url := url;
      this.org := org;
      this.orgPath := orgPath;
      closed := false;
      sent := [];
    }

    method Close()
      modifies this
      ensures closed && sent == old(sent)
    {
      closed := true;
    }

    method Send(frame: string)
      modifies this
      ensures sent == old(sent) + [frame] && closed == old(closed)
    {
      sent := sent + [frame];
    }
  }

  // ---------------------------------------------------------------------------
  // Properties
  // ---------------------------------------------------------------------------

  lemma {:induction false} CountAbsent(s: string, c: char)
    requires c !in s
    ensures Count(s, c) == 0
  {
    if s != [] {
      assert s[0] != c;
      assert s == [s[0]] + s[1..];
      CountAbsent(s[1..], c);
    }
  }

  lemma NoControlNoSeparator(s: string)
    requires NoControlChars(s)
    ensures RS !in s
  {
  }

  lemma NoSeparatorConcat(a: string, b: string)
    requires RS !in a && RS !in b
    ensures RS !in a + b
  {
  }

  lemma SubscribeHeadClean(org: string)
    ensures RS !in SubscribeHead(org)
  {
    var a := "{\"arguments\":[";
    var b := "],\"invocationId\":";
    JsonQuoteNoControlChars(org);
    NoControlNoSeparator(JsonQuote(org));
    assert NoControlChars(a) && NoControlChars(b);
    NoControlNoSeparator(a);
    NoControlNoSeparator(b);
    NoSeparatorConcat(a, JsonQuote(org));
    NoSeparatorConcat(a + JsonQuote(org), b);
  }

  /** The subscription body holds no separator, whatever the organisation path. */
  lemma SubscribeBodyClean(org: string, invocationId: nat)
    ensures RS !in SubscribeBody(org, invocationId)
  {
    var d := JsonQuote(DecimalString(invocationId));
    JsonQuoteNoControlChars(DecimalString(invocationId));
    NoControlNoSeparator(d);
    SubscribeHeadClean(org);
    var t1, t2, t3, t4 := ",\"target\":", "\"SubscribeMetrics", "ByOrgPath\",", "\"type\":1}";
    assert NoControlChars(t1) && NoControlChars(t2) && NoControlChars(t3) && NoControlChars(t4);
    NoControlNoSeparator(t1);
    NoControlNoSeparator(t2);
    NoControlNoSeparator(t3);
    NoControlNoSeparator(t4);
    assert SubscribeTail == t1 + t2 + t3 + t4;
    NoSeparatorConcat(SubscribeHead(org), d);
    NoSeparatorConcat(SubscribeHead(org) + d, SubscribeTail);
  }

  /**
   * A subscription frame is exactly one hub record: splitting it on the
   * separator gives its JSON text followed by the empty remainder.
   */
  lemma SubscribeFrameIsOneRecord(org: string, invocationId: nat)
    ensures Split(SubscribeFrame(org, invocationId), RS) == [SubscribeBody(org, invocationId), ""]
    ensures Count(SubscribeFrame(org, invocationId), RS) == 1
  {
    SubscribeBodyClean(org, invocationId);
    OneRecord(SubscribeBody(org, invocationId));
  }

  /** The handshake is one record too. */
  lemma HandshakeIsOneRecord()
    ensures Split(HandshakeFrame, RS) == [HandshakeBody, ""]
  {
    HandshakeBodyClean();
    OneRecord(HandshakeBody);
  }

  lemma HandshakeBodyClean()
    ensures RS !in HandshakeBody
  {
    var t1, t2, t3 := "{\"protocol\"", ":\"json\",", "\"version\":1}";
    assert NoControlChars(t1) && NoControlChars(t2) && NoControlChars(t3);
    NoControlNoSeparator(t1);
    NoControlNoSeparator(t2);
    NoControlNoSeparator(t3);
    NoSeparatorConcat(t1, t2);
    NoSeparatorConcat(t1 + t2, t3);
  }

  /** A separator-free text followed by the separator splits into the text and the empty remainder. */
  lemma OneRecord(body: string)
    requires RS !in body
    ensures Split(body + [RS], RS) == [body, ""]
    ensures Count(body + [RS], RS) == 1
  {
    assert body + [RS] == body + [RS] + "";
    SplitAppend(body, "", RS);
    SplitNoSeparator(body, RS);
  }

  lemma SameAround(q: string, d1: string, d2: string, t: string)
    requires q + d1 + t == q + d2 + t
    ensures d1 == d2
  {
    var s := q + d1 + t;
    assert |d1| == |d2|;
    assert d1 == s[|q|..|q| + |d1|];
    assert d2 == (q + d2 + t)[|q|..|q| + |d2|];
  }

  /** Digits need no escaping in JSON text. */
  lemma {:induction false} EscapeDigits(d: string)
    requires IsDigits(d)
    ensures Escape(d) == d
  {
    if d != [] {
      EscapeDigits(d[1..]);
      assert d == [d[0]] + d[1..];
    }
  }

  /** Different invocation ids give different subscription frames: the id is recoverable from the frame. */
  lemma SubscribeFrameInjective(org: string, a: nat, b: nat)
    requires SubscribeFrame(org, a) == SubscribeFrame(org, b)
    ensures a == b
  {
    var h := SubscribeHead(org);
    var t := SubscribeTail + [RS];
    var da := DecimalString(a);
    var db := DecimalString(b);
    assert SubscribeFrame(org, a) == h + JsonQuote(da) + t;
    assert SubscribeFrame(org, b) == h + JsonQuote(db) + t;
    SameAround(h, JsonQuote(da), JsonQuote(db), t);
    SameAround("\"", Escape(da), Escape(db), "\"");
    EscapeDigits(da);
    EscapeDigits(db);
    DecimalStringInjective(a, b);
  }

  lemma {:induction false} ConcatAppend(a: seq<string>, b: seq<string>)
    ensures Concat(a + b) == Concat(a) + Concat(b)
  {
    if a != [] {
      assert (a + b)[1..] == a[1..] + b;
      ConcatAppend(a[1..], b);
    } else {
      assert a + b == b;
    }
  }

  lemma {:induction false} ConcatNonEmpty(parts: seq<string>)
    ensures Concat(NonEmptyRecords(parts)) == Concat(parts)
  {
    if parts != [] {
      var init := parts[..|parts| - 1];
      var last := parts[|parts| - 1];
      assert parts == init + [last];
      ConcatNonEmpty(init);
      ConcatAppend(init, [last]);
      ConcatAppend(NonEmptyRecords(init), if last == [] then [] else [last]);
    }
  }

  /** Gluing the pieces of a split back together loses exactly the separators. */
  lemma {:induction false} ConcatSplit(s: string, sep: char)
    ensures Concat(Split(s, sep)) == Remove(s, sep)
  {
    if s != [] {
      var rest := Split(s[1..], sep);
      ConcatSplit(s[1..], sep);
      if s[0] == sep {
        assert Split(s, sep) == [""] + rest;
        assert Concat([""] + rest) == "" + Concat(rest);
      } else {
        var parts := [[s[0]] + rest[0]] + rest[1..];
        assert Split(s, sep) == parts;
        assert parts[1..] == rest[1..];
        assert Concat(rest) == rest[0] + Concat(rest[1..]);
        assert Concat(parts) == [s[0]] + rest[0] + Concat(rest[1..]);
      }
    }
  }

  /**
   * Apart from the acknowledgement, the records the parser receives are all
   * non-empty, hold no separator, and together are the message with its
   * separators removed: nothing is lost or reordered.
   */
  lemma RecordsCoverMessage(msg: string)
    requires msg != AckMessage
    ensures Concat(React(msg).records) == Remove(msg, RS)
  {
    ConcatNonEmpty(Split(msg, RS));
    ConcatSplit(msg, RS);
  }

  /**
   * An acknowledgement that arrives together with data in one message is not
   * recognised: both records go to the parser and no subscription is sent.
   */
  lemma CombinedAckIsParsed(data: string)
    requires data != [] && RS !in data
    ensures React(AckMessage + data + [RS]) == Parse(["{}", data])
  {
    var msg := AckMessage + data + [RS];
    assert msg != AckMessage by { assert |msg| > |AckMessage|; }
    CombinedSplit(data);
    CombinedRecords(data);
  }

  lemma CombinedSplit(data: string)
    requires RS !in data
    ensures Split(AckMessage + data + [RS], RS) == ["{}", data, ""]
  {
    var rest := data + [RS] + "";
    assert rest == data + [RS];
    Regroup(AckMessage, data, [RS]);
    assert AckMessage + data + [RS] == "{}" + [RS] + rest;
    SplitAppend("{}", rest, RS);
    SplitAppend(data, "", RS);
    SplitNoSeparator("{}", RS);
    SplitNoSeparator(data, RS);
  }

  lemma Regroup(a: string, b: string, c: string)
    ensures a + b + c == a + (b + c)
  {
  }

  lemma CombinedRecords(data: string)
    requires data != []
    ensures NonEmptyRecords(["{}", data, ""]) == ["{}", data]
  {
    assert ["{}", data, ""][..2] == ["{}", data];
    assert ["{}", data][..1] == ["{}"];
    assert NonEmptyRecords(["{}"]) == ["{}"] by {
      assert ["{}"][..0] == [];
    }
    assert NonEmptyRecords(["{}", data]) == ["{}", data];
  }

  /** Records whose JSON is not an invocation of `receiveMetrics` write nothing. */
  lemma {:induction false} IgnoredRecordsWriteNothing(orgPath: string, records: seq<string>, decode: string -> Option<Frame>, now: int)
    requires forall i :: 0 <= i < |records| ==> decode(records[i]).None? || decode(records[i]).value.target != "receiveMetrics"
    ensures RecordsOps(orgPath, records, decode, now) == []
  {
    if records != [] {
      IgnoredRecordsWriteNothing(orgPath, records[..|records| - 1], decode, now);
    }
  }

  /** Whatever a message holds, it writes only under the organisation's node and creates before it writes. */
  lemma {:induction false} RecordsFrame(orgPath: string, records: seq<string>, decode: string -> Option<Frame>, now: int)
    ensures OpsUnder(RecordsOps(orgPath, records, decode, now), orgPath + ".")
    ensures CreatedBeforeWritten(RecordsOps(orgPath, records, decode, now))
  {
    if records != [] {
      var init := records[..|records| - 1];
      var last := RecordOps(orgPath, records[|records| - 1], decode, now);
      RecordsFrame(orgPath, init, decode, now);
      match decode(records[|records| - 1])
      case None =>
      case Some(f) =>
        if f.target == "receiveMetrics" {
          MetricListFrame(orgPath, f.arguments, now);
        }
      OpsUnderAppend(RecordsOps(orgPath, init, decode, now), last, orgPath + ".");
      CreatedBeforeWrittenAppend(RecordsOps(orgPath, init, decode, now), last);
    }
  }
}
