/** The canonical bytes of a send request. Replay protection compares these
    bytes, so they must determine the request. Strings are their UTF-8 bytes. */
module Canonical {
  import opened Wrappers

  type Byte = b: nat | b < 256

  type Bytes = seq<Byte>

  datatype Origin = Human | Agent | Routine | System

  datatype Intent = QueueOnly | TriggerTurn | SteerCurrent | InterruptAndStart | ControlOnly

  datatype Routing = Routing(scope: Bytes, id: Bytes, to: Bytes, body: Bytes)

  datatype Delivery = Delivery(reply: bool, hops: int, deadlineAt: Option<nat>, inReplyTo: Option<Bytes>)

  datatype Control = Control(origin: Option<Origin>, intent: Option<Intent>, references: seq<Bytes>)

  datatype Notice = Notice(version: nat, threadId: Bytes, throughSeq: nat, generation: nat)

  datatype Envelope = Envelope(
    routing: Routing, delivery: Delivery, control: Control, issuedAt: int, notice: Option<Notice>,
    reason: Option<Bytes>)

  // ---------------------------------------------------------------- the integers

  function Pow(k: nat): (p: nat)
    ensures p > 0
  {
    if k == 0 then 1 else 256 * Pow(k - 1)
  }

  /** Big-endian, `k` bytes. */
  function BigEndian(n: nat, k: nat): Bytes {
    seq(k, i requires 0 <= i < k => n / Pow(k - 1 - i) % 256)
  }

  function Number(s: Bytes): nat {
    if s == [] then 0 else Number(s[..|s| - 1]) * 256 + s[|s| - 1]
  }

  lemma BigEndianFront(n: nat, k: nat)
    requires k > 0
    ensures BigEndian(n, k) == BigEndian(n / 256, k - 1) + [n % 256]
  {
    var front := BigEndian(n / 256, k - 1);
    forall i | 0 <= i < k - 1 ensures BigEndian(n, k)[i] == front[i] {
      assert Pow(k - 1 - i) == 256 * Pow(k - 2 - i);
      DivideTwice(n, Pow(k - 2 - i));
    }
    assert BigEndian(n, k)[k - 1] == n / Pow(0) % 256;
  }

  lemma DivideTwice(n: nat, p: nat)
    requires p > 0
    ensures n / (256 * p) == n / 256 / p
  {
    var q := n / 256;
    var r := n % 256;
    assert n == 256 * q + r;
    var a, b := q / p, q % p;
    assert q == p * a + b;
    assert n == 256 * p * a + (256 * b + r);
    assert 0 <= 256 * b + r < 256 * p;
    QuotientIs(n, 256 * p, a, 256 * b + r);
  }

  lemma QuotientIs(n: nat, d: nat, q: nat, r: nat)
    requires n == d * q + r && r < d
    ensures n / d == q
  {
    var e := n / d - q;
    assert d * e == r - n % d;
    MultipleIsFar(d, e);
  }

  lemma {:induction false} Multiple(d: nat, e: nat)
    requires e > 0
    ensures d * e >= d
  {
    if e > 1 {
      Multiple(d, e - 1);
      assert d * e == d * (e - 1) + d;
    }
  }

  lemma MultipleIsFar(d: nat, e: int)
    ensures e == 0 || d * e >= d || d * -e >= d
  {
    if e > 0 { Multiple(d, e); }
    if e < 0 { Multiple(d, -e); }
  }

  lemma {:induction false} NumberBigEndian(n: nat, k: nat)
    requires n < Pow(k)
    ensures |BigEndian(n, k)| == k && Number(BigEndian(n, k)) == n
  {
    if k > 0 {
      NumberBigEndian(n / 256, k - 1);
      BigEndianFront(n, k);
      assert BigEndian(n, k)[..k - 1] == BigEndian(n / 256, k - 1);
    }
  }

  /** Two's complement in `k` bytes. */
  function Unsigned(n: int, k: nat): int { if n < 0 then n + Pow(k) else n }

  function Signed(n: nat, k: nat): int { if 2 * n >= Pow(k) then n - Pow(k) else n }

  function Decimal(n: nat): Bytes {
    if n < 10 then [48 + n] else Decimal(n / 10) + [48 + n % 10]
  }

  function DecimalValue(s: Bytes): Option<nat> {
    if s == [] then Some(0)
    else
      var front, digit := DecimalValue(s[..|s| - 1]), s[|s| - 1];
      if front.Some? && 48 <= digit < 58 then Some(front.value * 10 + (digit - 48)) else None
  }

  lemma {:induction false} DecimalReads(n: nat)
    ensures DecimalValue(Decimal(n)) == Some(n)
  {
    if n < 10 {
      assert Decimal(n)[..0] == [] && DecimalValue([]) == Some(0);
    } else {
      DecimalReads(n / 10);
      assert Decimal(n)[..|Decimal(n)| - 1] == Decimal(n / 10);
    }
  }

  lemma {:induction false} DecimalShort(n: nat)
    ensures |Decimal(n)| <= if n == 0 then 1 else n
  {
    if n >= 10 { DecimalShort(n / 10); }
  }

  // --------------------------------------------------------------------- encoding

  function Field(value: Bytes): Bytes { BigEndian(|value|, 8) + value }

  function Optional(value: Option<Bytes>): Bytes {
    if value.Some? then [1] + Field(value.value) else [0]
  }

  function Fields(values: seq<Bytes>): Bytes {
    if values == [] then [] else Field(values[0]) + Fields(values[1..])
  }

  function OriginCode(origin: Option<Origin>): Byte {
    match origin
    case None => 0
    case Some(Human) => 1
    case Some(Agent) => 2
    case Some(Routine) => 3
    case Some(System) => 4
  }

  function IntentCode(intent: Option<Intent>): Byte {
    match intent
    case None => 0
    case Some(QueueOnly) => 1
    case Some(TriggerTurn) => 2
    case Some(SteerCurrent) => 3
    case Some(InterruptAndStart) => 4
    case Some(ControlOnly) => 5
  }

  const NO_CONTROL: Control := Control(None, None, [])

  /** Nothing at all for a request of the old form. */
  function ControlBytes(control: Control): Bytes {
    if control == NO_CONTROL then []
    else [0xff, OriginCode(control.origin), IntentCode(control.intent)]
         + (Field(BigEndian(|control.references|, 8)) + Fields(control.references))
  }

  // "bridget/client-send/v1\0", "bridget/thread-notice/v1\0" and "bridget/cross-project/v1\0"
  const CLIENT_SEND: Bytes := [98, 114, 105, 100, 103, 101, 116, 47, 99, 108, 105, 101, 110, 116, 45, 115, 101, 110,
    100, 47, 118, 49, 0]
  const THREAD_NOTICE: Bytes := [98, 114, 105, 100, 103, 101, 116, 47, 116, 104, 114, 101, 97, 100, 45, 110, 111, 116,
    105, 99, 101, 47, 118, 49, 0]
  const CROSS_PROJECT: Bytes := [98, 114, 105, 100, 103, 101, 116, 47, 99, 114, 111, 115, 115, 45, 112, 114, 111, 106,
    101, 99, 116, 47, 118, 49, 0]

  function NoticeBytes(notice: Option<Notice>): Bytes {
    if notice.None? then []
    else THREAD_NOTICE + (Field(BigEndian(notice.value.version, 2)) + (Field(notice.value.threadId)
         + (Field(BigEndian(notice.value.throughSeq, 8)) + Field(BigEndian(notice.value.generation, 8)))))
  }

  function ReasonBytes(reason: Option<Bytes>): Bytes {
    if reason.None? then [] else CROSS_PROJECT + Field(reason.value)
  }

  function RoutingBytes(r: Routing): Bytes {
    Field(r.scope) + (Field(r.id) + (Field(r.to) + Field(r.body)))
  }

  function DeliveryBytes(d: Delivery): Bytes
    requires FitsDelivery(d)
  {
    [if d.reply then 1 else 0] + (Field(BigEndian(Unsigned(d.hops, 4), 4)) + (
      Optional(if d.deadlineAt.Some? then Some(Decimal(d.deadlineAt.value)) else None) + Optional(d.inReplyTo)))
  }

  function Encode(e: Envelope): Bytes
    requires Fits(e)
  {
    CLIENT_SEND + (RoutingBytes(e.routing) + (DeliveryBytes(e.delivery) + (ControlBytes(e.control)
      + (Field(BigEndian(Unsigned(e.issuedAt, 8), 8)) + (NoticeBytes(e.notice) + ReasonBytes(e.reason))))))
  }

  /** The lengths fit 64 bits and the integers their machine types. */
  predicate Short(s: Bytes) { |s| < Pow(8) }

  predicate FitsDelivery(d: Delivery) {
    && 0 <= 2 * d.hops + Pow(4) < 2 * Pow(4)
    && (d.deadlineAt.Some? ==> d.deadlineAt.value < Pow(8))
    && (d.inReplyTo.Some? ==> Short(d.inReplyTo.value))
  }

  predicate FitsControl(c: Control) {
    |c.references| < Pow(8) && forall i | 0 <= i < |c.references| :: Short(c.references[i])
  }

  predicate FitsNotice(n: Notice) {
    n.version < Pow(2) && Short(n.threadId) && n.throughSeq < Pow(8) && n.generation < Pow(8)
  }

  predicate Fits(e: Envelope) {
    && Short(e.routing.scope) && Short(e.routing.id) && Short(e.routing.to) && Short(e.routing.body)
    && FitsDelivery(e.delivery) && FitsControl(e.control)
    && 0 <= 2 * e.issuedAt + Pow(8) < 2 * Pow(8)
    && (e.notice.Some? ==> FitsNotice(e.notice.value))
    && (e.reason.Some? ==> Short(e.reason.value))
  }

  // --------------------------------------------------------------------- decoding

  datatype Parsed<T> = Parsed(value: T, rest: Bytes)

  function ReadField(s: Bytes): Option<Parsed<Bytes>> {
    if |s| < 8 || |s| < 8 + Number(s[..8]) then None
    else Some(Parsed(s[8..8 + Number(s[..8])], s[8 + Number(s[..8])..]))
  }

  function ReadNumber(s: Bytes, k: nat): Option<Parsed<nat>> {
    var field := ReadField(s);
    if field.None? || |field.value.value| != k then None
    else Some(Parsed(Number(field.value.value), field.value.rest))
  }

  function ReadOptional(s: Bytes): Option<Parsed<Option<Bytes>>> {
    if s == [] then None
    else if s[0] == 0 then Some(Parsed(None, s[1..]))
    else
      var field := ReadField(s[1..]);
      if field.None? then None else Some(Parsed(Some(field.value.value), field.value.rest))
  }

  function ReadFields(s: Bytes, n: nat): Option<Parsed<seq<Bytes>>> {
    if n == 0 then Some(Parsed([], s))
    else
      var first := ReadField(s);
      if first.None? then None
      else
        var others := ReadFields(first.value.rest, n - 1);
        if others.None? then None else Some(Parsed([first.value.value] + others.value.value, others.value.rest))
  }

  function OriginOf(code: Byte): Option<Origin> {
    if code == 1 then Some(Human) else if code == 2 then Some(Agent)
    else if code == 3 then Some(Routine) else if code == 4 then Some(System) else None
  }

  function IntentOf(code: Byte): Option<Intent> {
    if code == 1 then Some(QueueOnly) else if code == 2 then Some(TriggerTurn) else if code == 3 then Some(SteerCurrent)
    else if code == 4 then Some(InterruptAndStart) else if code == 5 then Some(ControlOnly) else None
  }

  function ReadBlock(origin: Byte, intent: Byte, s: Bytes): Option<Parsed<Control>> {
    var count := ReadNumber(s, 8);
    if count.None? then None
    else
      var references := ReadFields(count.value.rest, count.value.value);
      if references.None? then None
      else Some(Parsed(Control(OriginOf(origin), IntentOf(intent), references.value.value), references.value.rest))
  }

  /** The control block is there exactly when the next byte is 0xff: a length never starts with it. */
  function ReadControl(s: Bytes): Option<Parsed<Control>> {
    if s == [] || s[0] != 0xff then Some(Parsed(NO_CONTROL, s))
    else if |s| < 3 then None
    else ReadBlock(s[1], s[2], s[3..])
  }

  function ReadNotice(s: Bytes): Option<Parsed<Option<Notice>>> {
    if !(THREAD_NOTICE <= s) then Some(Parsed(None, s))
    else
      var version := ReadNumber(s[|THREAD_NOTICE|..], 2);
      if version.None? then None else
      var thread := ReadField(version.value.rest);
      if thread.None? then None else
      var through := ReadNumber(thread.value.rest, 8);
      if through.None? then None else
      var generation := ReadNumber(through.value.rest, 8);
      if generation.None? then None
      else
        var notice := Notice(version.value.value, thread.value.value, through.value.value, generation.value.value);
        Some(Parsed(Some(notice), generation.value.rest))
  }

  function ReadReason(s: Bytes): Option<Parsed<Option<Bytes>>> {
    if !(CROSS_PROJECT <= s) then Some(Parsed(None, s))
    else
      var reason := ReadField(s[|CROSS_PROJECT|..]);
      if reason.None? then None else Some(Parsed(Some(reason.value.value), reason.value.rest))
  }

  function ReadRouting(s: Bytes): Option<Parsed<Routing>> {
    var scope := ReadField(s);
    if scope.None? then None else
    var id := ReadField(scope.value.rest);
    if id.None? then None else
    var to := ReadField(id.value.rest);
    if to.None? then None else
    var body := ReadField(to.value.rest);
    if body.None? then None
    else Some(Parsed(Routing(scope.value.value, id.value.value, to.value.value, body.value.value), body.value.rest))
  }

  function ReadTerms(reply: bool, s: Bytes): Option<Parsed<Delivery>> {
    var hops := ReadNumber(s, 4);
    if hops.None? then None else
    var deadline := ReadOptional(hops.value.rest);
    if deadline.None? then None else
    var inReply := ReadOptional(deadline.value.rest);
    if inReply.None? then None
    else
      var at := if deadline.value.value.Some? then DecimalValue(deadline.value.value.value) else None;
      Some(Parsed(Delivery(reply, Signed(hops.value.value, 4), at, inReply.value.value), inReply.value.rest))
  }

  function ReadDelivery(s: Bytes): Option<Parsed<Delivery>> {
    if s == [] then None else ReadTerms(s[0] == 1, s[1..])
  }

  datatype Tail = Tail(control: Control, issuedAt: int, notice: Option<Notice>, reason: Option<Bytes>)

  function ReadTail(s: Bytes): Option<Tail> {
    var control := ReadControl(s);
    if control.None? then None else
    var issued := ReadNumber(control.value.rest, 8);
    if issued.None? then None else
    var notice := ReadNotice(issued.value.rest);
    if notice.None? then None else
    var reason := ReadReason(notice.value.rest);
    if reason.None? || reason.value.rest != [] then None
    else Some(Tail(control.value.value, Signed(issued.value.value, 8), notice.value.value, reason.value.value))
  }

  function Decode(s: Bytes): Option<Envelope> {
    if !(CLIENT_SEND <= s) then None else
    var routing := ReadRouting(s[|CLIENT_SEND|..]);
    if routing.None? then None else
    var delivery := ReadDelivery(routing.value.rest);
    if delivery.None? then None else
    var tail := ReadTail(delivery.value.rest);
    if tail.None? then None
    else Some(Envelope(routing.value.value, delivery.value.value, tail.value.control, tail.value.issuedAt,
      tail.value.notice, tail.value.reason))
  }

  // ------------------------------------------------------------------- round trips

  lemma FieldReads(value: Bytes, rest: Bytes)
    requires Short(value)
    ensures ReadField(Field(value) + rest) == Some(Parsed(value, rest))
    ensures |Field(value)| == 8 + |value|
  {
    var s := Field(value) + rest;
    NumberBigEndian(|value|, 8);
    assert s[..8] == BigEndian(|value|, 8);
    assert s[8..8 + |value|] == value;
    assert s[8 + |value|..] == rest;
  }

  lemma PowersGrow(k: nat)
    ensures k <= Pow(k)
    ensures k <= 8 ==> k < Pow(8)
  {
    if k > 0 { PowersGrow(k - 1); }
    assert Pow(8) > 8;
  }

  lemma NumberReads(n: nat, k: nat, rest: Bytes)
    requires n < Pow(k) && k <= 8
    ensures ReadNumber(Field(BigEndian(n, k)) + rest, k) == Some(Parsed(n, rest))
  {
    NumberBigEndian(n, k);
    PowersGrow(k);
    FieldReads(BigEndian(n, k), rest);
  }

  lemma OptionalReads(value: Option<Bytes>, rest: Bytes)
    requires value.Some? ==> Short(value.value)
    ensures ReadOptional(Optional(value) + rest) == Some(Parsed(value, rest))
  {
    if value.Some? {
      FieldReads(value.value, rest);
      assert (Optional(value) + rest)[1..] == Field(value.value) + rest;
    }
  }

  lemma ReadFieldsNext(s: Bytes, n: nat, first: Bytes, rest: Bytes, others: seq<Bytes>, after: Bytes)
    requires ReadField(s) == Some(Parsed(first, rest)) && ReadFields(rest, n) == Some(Parsed(others, after))
    ensures ReadFields(s, n + 1) == Some(Parsed([first] + others, after))
  {
  }

  lemma {:induction false} FieldsRead(values: seq<Bytes>, rest: Bytes)
    requires forall i | 0 <= i < |values| :: Short(values[i])
    ensures ReadFields(Fields(values) + rest, |values|) == Some(Parsed(values, rest))
    decreases values
  {
    if values == [] {
      assert Fields(values) + rest == rest;
    } else {
      var after := Fields(values[1..]) + rest;
      FieldReads(values[0], after);
      FieldsRead(values[1..], rest);
      ReadFieldsNext(Field(values[0]) + after, |values| - 1, values[0], after, values[1..], rest);
      FieldsFirst(values, rest);
      assert [values[0]] + values[1..] == values;
    }
  }

  lemma FieldsFirst(values: seq<Bytes>, rest: Bytes)
    requires values != []
    ensures Fields(values) + rest == Field(values[0]) + (Fields(values[1..]) + rest)
  {
    Associative(Field(values[0]), Fields(values[1..]), rest);
  }

  lemma Associative(a: Bytes, b: Bytes, c: Bytes)
    ensures (a + b) + c == a + (b + c)
  {
  }

  lemma BlockReads(origin: Byte, intent: Byte, references: seq<Bytes>, rest: Bytes)
    requires FitsControl(Control(None, None, references))
    ensures ReadBlock(origin, intent, Field(BigEndian(|references|, 8)) + (Fields(references) + rest))
            == Some(Parsed(Control(OriginOf(origin), IntentOf(intent), references), rest))
  {
    NumberReads(|references|, 8, Fields(references) + rest);
    FieldsRead(references, rest);
  }

  lemma Prefixed(head: Bytes, a: Bytes, b: Bytes, c: Bytes)
    ensures (head + (a + b)) + c == head + (a + (b + c))
    ensures (head + (a + (b + c)))[|head|..] == a + (b + c)
  {
  }

  lemma CodesRead(control: Control)
    ensures OriginOf(OriginCode(control.origin)) == control.origin
    ensures IntentOf(IntentCode(control.intent)) == control.intent
  {
  }

  lemma ControlFrom(origin: Byte, intent: Byte, s: Bytes, control: Control, rest: Bytes)
    requires ReadBlock(origin, intent, s) == Some(Parsed(control, rest))
    ensures ReadControl([0xff, origin, intent] + s) == Some(Parsed(control, rest))
  {
    var all: Bytes := [0xff, origin, intent] + s;
    assert all[3..] == s;
  }

  lemma ControlReads(control: Control, rest: Bytes)
    requires FitsControl(control) && (rest != [] ==> rest[0] != 0xff)
    ensures ReadControl(ControlBytes(control) + rest) == Some(Parsed(control, rest))
  {
    if control == NO_CONTROL {
      assert ControlBytes(control) + rest == rest;
    } else {
      var origin, intent := OriginCode(control.origin), IntentCode(control.intent);
      var count := Field(BigEndian(|control.references|, 8));
      Prefixed([0xff, origin, intent], count, Fields(control.references), rest);
      BlockReads(origin, intent, control.references, rest);
      CodesRead(control);
      ControlFrom(origin, intent, count + (Fields(control.references) + rest), control, rest);
    }
  }

  lemma NoticeReads(n: Notice, rest: Bytes)
    requires FitsNotice(n)
    ensures ReadNotice(NoticeBytes(Some(n)) + rest) == Some(Parsed(Some(n), rest))
  {
    var s := NoticeBytes(Some(n)) + rest;
    var d := Field(BigEndian(n.generation, 8)) + rest;
    var c := Field(BigEndian(n.throughSeq, 8)) + d;
    var b := Field(n.threadId) + c;
    var a := Field(BigEndian(n.version, 2)) + b;
    assert s == THREAD_NOTICE + a;
    assert s[|THREAD_NOTICE|..] == a;
    NumberReads(n.version, 2, b);
    FieldReads(n.threadId, c);
    NumberReads(n.throughSeq, 8, d);
    NumberReads(n.generation, 8, rest);
  }

  lemma ReasonReads(reason: Option<Bytes>)
    requires reason.Some? ==> Short(reason.value)
    ensures ReadReason(ReasonBytes(reason)) == Some(Parsed(reason, []))
    ensures !(THREAD_NOTICE <= ReasonBytes(reason))
  {
    if reason.Some? {
      var s := ReasonBytes(reason);
      assert s[|CROSS_PROJECT|..] == Field(reason.value) + [];
      FieldReads(reason.value, []);
      assert s[8] == CROSS_PROJECT[8] != THREAD_NOTICE[8];
    }
  }

  lemma RoutingReads(r: Routing, rest: Bytes)
    requires Short(r.scope) && Short(r.id) && Short(r.to) && Short(r.body)
    ensures ReadRouting(RoutingBytes(r) + rest) == Some(Parsed(r, rest))
  {
    var c := Field(r.body) + rest;
    var b := Field(r.to) + c;
    var a := Field(r.id) + b;
    assert RoutingBytes(r) + rest == Field(r.scope) + a;
    FieldReads(r.scope, a);
    FieldReads(r.id, b);
    FieldReads(r.to, c);
    FieldReads(r.body, rest);
  }

  lemma TermsRead(d: Delivery, deadline: Option<Bytes>, rest: Bytes)
    requires FitsDelivery(d)
    requires deadline == if d.deadlineAt.Some? then Some(Decimal(d.deadlineAt.value)) else None
    ensures ReadTerms(d.reply,
            Field(BigEndian(Unsigned(d.hops, 4), 4)) + (Optional(deadline) + (Optional(d.inReplyTo) + rest)))
            == Some(Parsed(d, rest))
  {
    if d.deadlineAt.Some? {
      DecimalReads(d.deadlineAt.value);
      DecimalShort(d.deadlineAt.value);
    }
    var b := Optional(d.inReplyTo) + rest;
    NumberReads(Unsigned(d.hops, 4), 4, Optional(deadline) + b);
    OptionalReads(deadline, b);
    OptionalReads(d.inReplyTo, rest);
  }

  lemma FourParts(a: Bytes, b: Bytes, c: Bytes, d: Bytes, e: Bytes)
    ensures (a + (b + (c + d))) + e == a + (b + (c + (d + e)))
    ensures (a + (b + (c + (d + e))))[|a|..] == b + (c + (d + e))
  {
  }

  lemma DeliveryReads(d: Delivery, rest: Bytes)
    requires FitsDelivery(d)
    ensures ReadDelivery(DeliveryBytes(d) + rest) == Some(Parsed(d, rest))
  {
    var reply: Bytes := [if d.reply then 1 else 0];
    var deadline := if d.deadlineAt.Some? then Some(Decimal(d.deadlineAt.value)) else None;
    FourParts(reply, Field(BigEndian(Unsigned(d.hops, 4), 4)), Optional(deadline), Optional(d.inReplyTo), rest);
    TermsRead(d, deadline, rest);
  }

  lemma TailReads(notice: Option<Notice>, reason: Option<Bytes>)
    requires (notice.Some? ==> FitsNotice(notice.value)) && (reason.Some? ==> Short(reason.value))
    ensures ReadNotice(NoticeBytes(notice) + ReasonBytes(reason)) == Some(Parsed(notice, ReasonBytes(reason)))
  {
    ReasonReads(reason);
    if notice.Some? {
      NoticeReads(notice.value, ReasonBytes(reason));
    } else {
      assert NoticeBytes(notice) + ReasonBytes(reason) == ReasonBytes(reason);
    }
  }

  lemma NumberStarts(n: nat, k: nat)
    requires n < Pow(k) && k <= 8
    ensures Field(BigEndian(n, k))[0] != 0xff
  {
    NumberBigEndian(n, k);
    assert k / Pow(7) == 0;
  }

  lemma TailFrom(
    s: Bytes, a: Bytes, b: Bytes, c: Bytes, control: Control, issued: nat, notice: Option<Notice>,
    reason: Option<Bytes>)
    requires ReadControl(s) == Some(Parsed(control, a)) && ReadNumber(a, 8) == Some(Parsed(issued, b))
    requires ReadNotice(b) == Some(Parsed(notice, c)) && ReadReason(c) == Some(Parsed(reason, []))
    ensures ReadTail(s) == Some(Tail(control, Signed(issued, 8), notice, reason))
  {
  }

  lemma RestReads(e: Envelope)
    requires Fits(e)
    ensures ReadTail(ControlBytes(e.control)
            + (Field(BigEndian(Unsigned(e.issuedAt, 8), 8)) + (NoticeBytes(e.notice) + ReasonBytes(e.reason))))
            == Some(Tail(e.control, e.issuedAt, e.notice, e.reason))
  {
    var b := NoticeBytes(e.notice) + ReasonBytes(e.reason);
    var issued := Unsigned(e.issuedAt, 8);
    var a := Field(BigEndian(issued, 8)) + b;
    NumberStarts(issued, 8);
    ControlReads(e.control, a);
    NumberReads(issued, 8, b);
    TailReads(e.notice, e.reason);
    ReasonReads(e.reason);
    TailFrom(ControlBytes(e.control) + a, a, b, ReasonBytes(e.reason), e.control, issued, e.notice, e.reason);
  }

  lemma DecodeFrom(s: Bytes, a: Bytes, b: Bytes, routing: Routing, delivery: Delivery, tail: Tail)
    requires ReadRouting(s) == Some(Parsed(routing, a)) && ReadDelivery(a) == Some(Parsed(delivery, b))
    requires ReadTail(b) == Some(tail)
    ensures Decode(CLIENT_SEND + s)
            == Some(Envelope(routing, delivery, tail.control, tail.issuedAt, tail.notice, tail.reason))
  {
    assert (CLIENT_SEND + s)[|CLIENT_SEND|..] == s;
  }

  /** Every request can be read back from its bytes. */
  lemma DecodeEncode(e: Envelope)
    requires Fits(e)
    ensures Decode(Encode(e)) == Some(e)
  {
    var b := ControlBytes(e.control)
      + (Field(BigEndian(Unsigned(e.issuedAt, 8), 8)) + (NoticeBytes(e.notice) + ReasonBytes(e.reason)));
    var a := DeliveryBytes(e.delivery) + b;
    RoutingReads(e.routing, a);
    DeliveryReads(e.delivery, b);
    RestReads(e);
    DecodeFrom(RoutingBytes(e.routing) + a, a, b, e.routing, e.delivery,
      Tail(e.control, e.issuedAt, e.notice, e.reason));
  }

  /** Equal bytes mean the same request. */
  lemma EncodeInjective(e: Envelope, f: Envelope)
    requires Fits(e) && Fits(f) && Encode(e) == Encode(f)
    ensures e == f
  {
    DecodeEncode(e);
    DecodeEncode(f);
  }

  // --------------------------------------------------------------- the byte buffer

  lemma {:induction false} FieldsLast(values: seq<Bytes>, n: nat)
    requires n < |values|
    ensures Fields(values[..n + 1]) == Fields(values[..n]) + Field(values[n])
    decreases n
  {
    if n == 0 {
      assert values[..1][1..] == [] && values[..0] == [];
      assert Fields(values[..1]) == Field(values[0]) + Fields([]);
    } else {
      FieldsLast(values[1..], n - 1);
      assert values[1..][..n] == values[..n + 1][1..] && values[1..][..n - 1] == values[..n][1..];
      calc {
        Fields(values[..n + 1]);
        Field(values[0]) + Fields(values[1..][..n]);
        Field(values[0]) + (Fields(values[1..][..n - 1]) + Field(values[n]));
        { Associative(Field(values[0]), Fields(values[1..][..n - 1]), Field(values[n])); }
        Fields(values[..n]) + Field(values[n]);
      }
    }
  }

  /** Appends one length-prefixed field per reference. */
  method AppendReferences(bytes: Bytes, references: seq<Bytes>) returns (out: Bytes)
    ensures out == bytes + Fields(references)
  {
    out := bytes;
    for i := 0 to |references|
      invariant out == bytes + Fields(references[..i])
    {
      FieldsLast(references, i);
      Associative(bytes, Fields(references[..i]), Field(references[i]));
      out := out + Field(references[i]);
    }
    assert references[..|references|] == references;
  }

  method AppendControl(bytes: Bytes, control: Control) returns (out: Bytes)
    ensures out == bytes + ControlBytes(control)
  {
    if control.origin.None? && control.intent.None? && control.references == [] { return bytes; }
    var head: Bytes := [0xff, OriginCode(control.origin), IntentCode(control.intent)];
    var count := Field(BigEndian(|control.references|, 8));
    out := AppendReferences(bytes + head + count, control.references);
    ghost var refs := Fields(control.references);
    calc {
      ((bytes + head) + count) + refs;
      { Associative(bytes + head, count, refs); }
      (bytes + head) + (count + refs);
      { Associative(bytes, head, count + refs); }
      bytes + (head + (count + refs));
    }
  }

  /** The whole request, appended piece by piece. */
  method CanonicalSend(e: Envelope) returns (bytes: Bytes)
    requires Fits(e)
    ensures bytes == Encode(e) && Decode(bytes) == Some(e)
  {
    bytes := CLIENT_SEND + RoutingBytes(e.routing) + DeliveryBytes(e.delivery);
    bytes := AppendControl(bytes, e.control);
    var issued := Field(BigEndian(Unsigned(e.issuedAt, 8), 8));
    bytes := bytes + issued + NoticeBytes(e.notice) + ReasonBytes(e.reason);
    SevenParts(CLIENT_SEND, RoutingBytes(e.routing), DeliveryBytes(e.delivery), ControlBytes(e.control), issued,
      NoticeBytes(e.notice), ReasonBytes(e.reason));
    DecodeEncode(e);
  }

  lemma SevenParts(a: Bytes, b: Bytes, c: Bytes, d: Bytes, e: Bytes, f: Bytes, g: Bytes)
    ensures a + b + c + d + e + f + g == a + (b + (c + (d + (e + (f + g)))))
  {
    Associative(a + b + c + d + e, f, g);
    Associative(a + b + c + d, e, f + g);
    Associative(a + b + c, d, e + (f + g));
    Associative(a + b, c, d + (e + (f + g)));
    Associative(a, b, c + (d + (e + (f + g))));
  }
}
