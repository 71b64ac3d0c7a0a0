/** The packet builders of the MQTT client, against the wire format of MQTT 3.1.1. */
module Mqtt {
  import opened Common
  import opened Bytes

  // ---- MQTT 3.1.1, sections 2.2.3, 3.1 and 3.3 ----

  /** A CONNECT without will, user name and password, or a PUBLISH (its packet identifier is 0 at QoS 0). */
  datatype Packet =
    | Connect(cleanSession: bool, keepAlive: nat, clientId: seq<Byte>)
    | Publish(dup: bool, qos: nat, retain: bool, topic: seq<Byte>, packetId: nat, payload: seq<Byte>)

  /** The remaining-length field: seven bits a byte, least significant first, the top bit announcing more. */
  function EncodeLength(n: nat): (bs: seq<Byte>)
    ensures bs != []
  {
    if n < 128 then [n] else [n % 128 + 128] + EncodeLength(n / 128)
  }

  function DecodeLength(bs: seq<Byte>, room: nat): (r: Option<(nat, nat)>)
    ensures r.Some? ==> 0 < r.value.1 <= |bs|
  {
    if bs == [] || room == 0 then None
    else if bs[0] < 128 then Some((bs[0], 1))
    else match DecodeLength(bs[1..], room - 1)
      case None => None
      case Some((v, k)) => Some((bs[0] - 128 + 128 * v, k + 1))
  }

  function LengthLimit(room: nat): (n: nat) {
    if room == 0 then 1 else 128 * LengthLimit(room - 1)
  }

  function Word16(n: nat): (bs: seq<Byte>) {
    [n / 256 % 256, n % 256]
  }

  function Number16(high: int, low: int): (n: int) {
    high * 256 + low
  }

  function Text(s: seq<Byte>): (bs: seq<Byte>) {
    Word16(|s|) + s
  }

  /** A length-prefixed string and what follows it. */
  function TakeText(bs: seq<Byte>): (r: Option<(seq<Byte>, seq<Byte>)>) {
    if |bs| < 2 then None
    else
      var n := Number16(bs[0], bs[1]);
      if |bs| < 2 + n then None else Some((bs[2..2 + n], bs[2 + n..]))
  }

  const MQTT_NAME: seq<Byte> := [77, 81, 84, 84]

  function FirstByte(p: Packet): (b: int) {
    match p
    case Connect(_, _, _) => 0x10
    case Publish(dup, qos, retain, _, _, _) => 0x30 + (if dup then 8 else 0) + 2 * qos + (if retain then 1 else 0)
  }

  function Body(p: Packet): (bs: seq<Byte>) {
    match p
    case Connect(clean, keepAlive, id) =>
      Text(MQTT_NAME) + [4, if clean then 2 else 0] + Word16(keepAlive) + Text(id)
    case Publish(_, qos, _, topic, packetId, payload) =>
      Text(topic) + (if qos > 0 then Word16(packetId) else []) + payload
  }

  ghost predicate WellFormed(p: Packet) {
    && |Body(p)| < LengthLimit(4)
    && match p
       case Connect(clean, keepAlive, id) => keepAlive < 0x1_0000 && |id| < 0x1_0000 && (id == [] ==> clean)
       case Publish(dup, qos, _, topic, packetId, _) =>
         && |topic| < 0x1_0000 && qos < 3 && packetId < 0x1_0000
         && (qos == 0 ==> !dup && packetId == 0) && (qos > 0 ==> packetId > 0)
  }

  function Wire(p: Packet): (bs: seq<Byte>)
    requires 0 <= FirstByte(p) < 256
  {
    [FirstByte(p)] + EncodeLength(|Body(p)|) + Body(p)
  }

  function DecodeConnect(body: seq<Byte>): (r: Option<Packet>) {
    match TakeText(body)
    case None => None
    case Some((name, rest)) =>
      if name != MQTT_NAME || |rest| < 4 || rest[0] != 4 || rest[1] !in {0, 2} then None
      else match TakeText(rest[4..])
        case None => None
        case Some((id, end)) =>
          if end != [] || (id == [] && rest[1] == 0) then None
          else Some(Connect(rest[1] == 2, Number16(rest[2], rest[3]), id))
  }

  function DecodePublish(flags: nat, body: seq<Byte>): (r: Option<Packet>)
    requires flags < 16
  {
    var dup, qos, retain := flags / 8 == 1, flags / 2 % 4, flags % 2 == 1;
    if qos == 3 || (dup && qos == 0) then None
    else match TakeText(body)
      case None => None
      case Some((topic, rest)) =>
        if qos == 0 then Some(Publish(dup, qos, retain, topic, 0, rest))
        else if |rest| < 2 || Number16(rest[0], rest[1]) == 0 then None
        else Some(Publish(dup, qos, retain, topic, Number16(rest[0], rest[1]), rest[2..]))
  }

  /** Exactly one packet. */
  function Receive(bs: seq<Byte>): (r: Option<Packet>) {
    if bs == [] then None
    else match DecodeLength(bs[1..], 4)
      case None => None
      case Some((n, k)) =>
        if |bs| != 1 + k + n then None
        else if bs[0] == 0x10 then DecodeConnect(bs[1 + k..])
        else if 0x30 <= bs[0] < 0x40 then DecodePublish(bs[0] - 0x30, bs[1 + k..])
        else None
  }

  lemma {:induction false} LengthReadsBack(n: nat, room: nat, rest: seq<Byte>)
    requires room > 0 && n < LengthLimit(room)
    ensures DecodeLength(EncodeLength(n) + rest, room) == Some((n, |EncodeLength(n)|))
  {
    var bs := EncodeLength(n) + rest;
    if n >= 128 {
      assert bs[1..] == EncodeLength(n / 128) + rest;
      assert LengthLimit(1) == 128 * LengthLimit(0) == 128;
      LengthReadsBack(n / 128, room - 1, rest);
    }
  }

  lemma TextReadsBack(s: seq<Byte>, rest: seq<Byte>)
    requires |s| < 0x1_0000
    ensures TakeText(Text(s) + rest) == Some((s, rest))
  {
    var bs := Text(s) + rest;
    assert bs[0] == |s| / 256 && bs[1] == |s| % 256;
    assert bs[2..2 + |s|] == s && bs[2 + |s|..] == rest;
  }

  /** The format is unambiguous: every well-formed packet is read back from its encoding. */
  lemma FormatRoundTrip(p: Packet)
    requires WellFormed(p)
    ensures Receive(Wire(p)) == Some(p)
  {
    hide EncodeLength, DecodeLength, LengthLimit, DecodeConnect, DecodePublish, Body;
    var body := Body(p);
    var bs := Wire(p);
    LengthReadsBack(|body|, 4, body);
    assert bs[1..] == EncodeLength(|body|) + body;
    assert bs[1 + |EncodeLength(|body|)|..] == body;
    if p.Connect? {
      ConnectBody(p.cleanSession, p.keepAlive, p.clientId);
    } else {
      PublishBody(p.dup, p.qos, p.retain, p.topic, p.packetId, p.payload);
    }
  }

  lemma ConnectBody(clean: bool, keepAlive: nat, id: seq<Byte>)
    requires WellFormed(Connect(clean, keepAlive, id))
    ensures DecodeConnect(Body(Connect(clean, keepAlive, id))) == Some(Connect(clean, keepAlive, id))
  {
    hide TakeText, Text, LengthLimit;
    var rest := [4, if clean then 2 else 0] + Word16(keepAlive) + Text(id);
    assert Body(Connect(clean, keepAlive, id)) == Text(MQTT_NAME) + rest;
    TextReadsBack(MQTT_NAME, rest);
    assert rest[4..] == Text(id) + [];
    TextReadsBack(id, []);
  }

  lemma Word16ReadsBack(n: nat)
    requires n < 0x1_0000
    ensures Number16(Word16(n)[0], Word16(n)[1]) == n
  {
  }

  lemma Flags(dup: bool, qos: nat, retain: bool)
    requires qos < 3
    ensures var flags := (if dup then 8 else 0) + 2 * qos + (if retain then 1 else 0);
            flags < 16 && (flags / 8 == 1 <==> dup) && flags / 2 % 4 == qos && (flags % 2 == 1 <==> retain)
  {
  }

  lemma PublishBody(dup: bool, qos: nat, retain: bool, topic: seq<Byte>, packetId: nat, payload: seq<Byte>)
    requires WellFormed(Publish(dup, qos, retain, topic, packetId, payload))
    ensures var p := Publish(dup, qos, retain, topic, packetId, payload);
            0 <= FirstByte(p) - 0x30 < 16 && DecodePublish(FirstByte(p) - 0x30, Body(p)) == Some(p)
  {
    hide TakeText, Text, LengthLimit;
    Flags(dup, qos, retain);
    var rest := (if qos > 0 then Word16(packetId) else []) + payload;
    assert Body(Publish(dup, qos, retain, topic, packetId, payload)) == Text(topic) + rest;
    TextReadsBack(topic, rest);
    Word16ReadsBack(packetId);
    if qos > 0 {
      assert rest[2..] == payload && rest[0] == Word16(packetId)[0] && rest[1] == Word16(packetId)[1];
    } else {
      assert rest == payload;
    }
  }

  // ---- The builders ----

  const MQTT_KEEPALIVE := 60

  /** `rt_uint16_t n = rt_strlen(s)`, and the `n` bytes that are then copied. */
  function Short(s: seq<Byte>): (t: seq<Byte>)
    ensures |t| == |s| % 0x1_0000
  {
    s[..|s| % 0x1_0000]
  }

  function ConnectFields(id: seq<Byte>): (bs: seq<Byte>) {
    [0, 4, 77, 81, 84, 84, 4, 2, 0, MQTT_KEEPALIVE] + Word16(|Short(id)|) + Short(id)
  }

  function PublishFields(topic: seq<Byte>, payload: seq<Byte>): (bs: seq<Byte>) {
    Word16(|Short(topic)|) + Short(topic) + Short(payload)
  }

  /**
   * The bytes the builders leave: one byte of remaining length; beyond 127, a second one over the first byte of
   * the fields, with the top bit of the first set only in PUBLISH.
   */
  function Built(first: Byte, fields: seq<Byte>): (bs: seq<Byte>)
    requires fields != []
  {
    var r := |fields|;
    if r <= 127 then [first, r] + fields
    else [first, if first == 0x30 then r % 128 + 128 else r % 128, r / 128 % 128] + fields[1..]
  }

  method Copy(buffer: array<Byte>, p: nat, src: seq<Byte>, n: nat)
    requires n <= |src| && p + n <= buffer.Length
    modifies buffer
    ensures buffer[..] == Put(old(buffer[..]), p, src[..n])
  {
    PutNothing(buffer[..], p);
    for i := 0 to n
      invariant buffer[..] == Put(old(buffer[..]), p, src[..i])
    {
      buffer[p + i] := src[i];
      assert src[..i + 1] == src[..i] + [src[i]];
    }
  }

  /** Fixed header, with the remaining length still 0, and protocol name. */
  method ConnectName(buffer: array<Byte>) returns (p: nat)
    requires 14 <= buffer.Length
    modifies buffer
    ensures p == 8 && buffer[..8] == [0x10, 0, 0, 4, 77, 81, 84, 84]
    ensures buffer[8..] == old(buffer[8..])
  {
    p := 0;
    buffer[p] := 0x10; p := p + 1;
    buffer[p] := 0; p := p + 1;
    buffer[p] := 0; buffer[p + 1] := 4; p := p + 2;
    buffer[p] := 77; buffer[p + 1] := 81; buffer[p + 2] := 84; buffer[p + 3] := 84; p := p + 4;
  }

  /** Protocol level, flags, keep-alive time and the length of the client id. */
  method ConnectSettings(buffer: array<Byte>, start: nat, len: nat) returns (p: nat)
    requires start == 8 && 14 <= buffer.Length
    modifies buffer
    ensures p == 14 && buffer[..8] == old(buffer[..8])
    ensures buffer[8..14] == [4, 2, 0, MQTT_KEEPALIVE, len / 256 % 256, len % 256]
    ensures buffer[14..] == old(buffer[14..])
  {
    p := start;
    buffer[p] := 4; p := p + 1;
    buffer[p] := 2; p := p + 1;
    buffer[p] := MQTT_KEEPALIVE / 256 % 256; buffer[p + 1] := MQTT_KEEPALIVE % 256; p := p + 2;
    buffer[p] := len / 256 % 256; buffer[p + 1] := len % 256; p := p + 2;
  }

  method PatchConnect(buffer: array<Byte>, p: nat)
    requires 14 <= p <= buffer.Length && buffer[0] == 0x10
    modifies buffer
    ensures buffer[..p] == Built(0x10, old(buffer[2..p])) && buffer[p..] == old(buffer[p..])
  {
    var remaining := p - 2;
    buffer[1] := remaining % 128;
    if remaining > 127 {
      buffer[1] := buffer[1] % 128 + 128;
      buffer[1] := remaining % 128;
      buffer[2] := remaining / 128 % 128;
    }
  }

  method PatchPublish(buffer: array<Byte>, p: nat)
    requires 4 <= p <= buffer.Length && buffer[0] == 0x30
    modifies buffer
    ensures buffer[..p] == Built(0x30, old(buffer[2..p])) && buffer[p..] == old(buffer[p..])
  {
    var remaining := p - 2;
    buffer[1] := remaining % 128;
    if remaining > 127 {
      buffer[1] := buffer[1] % 128 + 128;
      buffer[2] := remaining / 128 % 128;
    }
  }

  /** `mqtt_build_connect_packet`: what it writes, that it writes no further, and the length it returns. */
  method BuildConnect(buffer: array<Byte>, clientId: seq<Byte>) returns (n: nat)
    requires 14 + |clientId| % 0x1_0000 <= buffer.Length
    modifies buffer
    ensures n == 14 + |clientId| % 0x1_0000
    ensures buffer[..n] == Built(0x10, ConnectFields(clientId)) && buffer[n..] == old(buffer[n..])
  {
    hide Built, Put, Short, ConnectFields;
    var len := |clientId| % 0x1_0000;
    var p := ConnectName(buffer);
    p := ConnectSettings(buffer, p, len);
    ghost var head := buffer[..];
    ConnectHead(head, clientId);
    assert buffer[14..] == old(buffer[8..])[6..] == old(buffer[14..]);
    Copy(buffer, p, clientId, len);
    p := p + len;
    Cuts(clientId);
    Appended(head, 14, Short(clientId), buffer[..]);
    assert buffer[2..p] == buffer[..p][2..] == ConnectFields(clientId);
    PatchConnect(buffer, p);
    n := p;
  }

  lemma ConnectHead(head: seq<Byte>, id: seq<Byte>)
    requires 14 <= |head| && head[..8] == [0x10, 0, 0, 4, 77, 81, 84, 84]
    requires var len := |id| % 0x1_0000;
             head[8..14] == [4, 2, 0, MQTT_KEEPALIVE, len / 256 % 256, len % 256]
    ensures head[0] == 0x10 && (head[..14] + Short(id))[2..] == ConnectFields(id)
  {
    hide Short;
    assert head[..14] == head[..8] + head[8..14];
    assert head[0] == head[..8][0];
  }

  lemma Appended(before: seq<Byte>, p: nat, src: seq<Byte>, after: seq<Byte>)
    requires p + |src| <= |before| && after == Put(before, p, src)
    ensures |after| == |before| && after[..p + |src|] == before[..p] + src && after[p + |src|..] == before[p + |src|..]
  {
  }

  lemma Cuts(s: seq<Byte>)
    ensures Short(s) == s[..|s| % 0x1_0000]
  {
  }

  method PublishHead(buffer: array<Byte>, topicLen: nat) returns (p: nat)
    requires 4 <= buffer.Length
    modifies buffer
    ensures p == 4 && buffer[..4] == [0x30, 0] + Word16(topicLen) && buffer[4..] == old(buffer[4..])
  {
    p := 0;
    buffer[p] := 0x30; p := p + 1;
    buffer[p] := 0; p := p + 1;
    buffer[p] := topicLen / 256 % 256; buffer[p + 1] := topicLen % 256; p := p + 2;
  }

  lemma PublishAssembled(head: seq<Byte>, middle: seq<Byte>, last: seq<Byte>, topic: seq<Byte>, payload: seq<Byte>)
    requires 4 + |Short(topic)| + |Short(payload)| <= |head| && head[..4] == [0x30, 0] + Word16(|topic| % 0x1_0000)
    requires middle == Put(head, 4, Short(topic)) && last == Put(middle, 4 + |Short(topic)|, Short(payload))
    ensures var p := 4 + |Short(topic)| + |Short(payload)|;
            |last| == |head| && last[0] == 0x30 && last[2..p] == PublishFields(topic, payload) && last[p..] == head[p..]
  {
    hide Put, Short, Word16;
    var p := 4 + |Short(topic)| + |Short(payload)|;
    Appended(head, 4, Short(topic), middle);
    Appended(middle, 4 + |Short(topic)|, Short(payload), last);
    assert last[..p] == [0x30, 0] + PublishFields(topic, payload);
    assert last[2..p] == last[..p][2..] && last[0] == last[..p][0];
    assert last[p..] == middle[p..] == middle[4 + |Short(topic)|..][|Short(payload)|..];
  }

  /** `mqtt_build_publish_packet`. */
  method BuildPublish(buffer: array<Byte>, topic: seq<Byte>, payload: seq<Byte>) returns (n: nat)
    requires 4 + |topic| % 0x1_0000 + |payload| % 0x1_0000 <= buffer.Length
    modifies buffer
    ensures n == 4 + |topic| % 0x1_0000 + |payload| % 0x1_0000
    ensures buffer[..n] == Built(0x30, PublishFields(topic, payload)) && buffer[n..] == old(buffer[n..])
  {
    hide Built, Put, Short, Word16;
    var topicLen, payloadLen := |topic| % 0x1_0000, |payload| % 0x1_0000;
    var p := PublishHead(buffer, topicLen);
    ghost var head := buffer[..];
    Cuts(topic);
    Cuts(payload);
    Copy(buffer, p, topic, topicLen);
    p := p + topicLen;
    ghost var middle := buffer[..];
    Copy(buffer, p, payload, payloadLen);
    p := p + payloadLen;
    PublishAssembled(head, middle, buffer[..], topic, payload);
    assert buffer[2..p] == buffer[..][2..p] && buffer[p..] == buffer[..][p..];
    assert head[p..] == head[4..][p - 4..] == old(buffer[4..])[p - 4..] == old(buffer[p..]);
    PatchPublish(buffer, p);
    n := p;
  }

  // ---- What a receiver makes of the packets ----

  lemma OneLengthByte(n: nat)
    requires n < 128
    ensures EncodeLength(n) == [n] && n < LengthLimit(4)
  {
    assert LengthLimit(4) == 128 * 128 * LengthLimit(2);
    assert LengthLimit(2) == 128 * 128 * LengthLimit(0);
  }

  lemma ConnectFits(id: seq<Byte>)
    requires |id| <= 115
    ensures Built(0x10, ConnectFields(id)) == Wire(Connect(true, MQTT_KEEPALIVE, id))
    ensures Receive(Built(0x10, ConnectFields(id))) == Some(Connect(true, MQTT_KEEPALIVE, id))
  {
    hide Receive, EncodeLength, LengthLimit;
    var packet := Connect(true, MQTT_KEEPALIVE, id);
    assert Short(id) == id;
    assert Body(packet) == ConnectFields(id);
    OneLengthByte(|Body(packet)|);
    FormatRoundTrip(packet);
  }

  lemma PublishFits(topic: seq<Byte>, payload: seq<Byte>)
    requires |topic| + |payload| <= 125
    ensures Built(0x30, PublishFields(topic, payload)) == Wire(Publish(false, 0, false, topic, 0, payload))
    ensures Receive(Built(0x30, PublishFields(topic, payload))) == Some(Publish(false, 0, false, topic, 0, payload))
  {
    hide Receive, EncodeLength, LengthLimit;
    var packet := Publish(false, 0, false, topic, 0, payload);
    assert Short(topic) == topic && Short(payload) == payload;
    assert Body(packet) == PublishFields(topic, payload);
    OneLengthByte(|Body(packet)|);
    FormatRoundTrip(packet);
  }

  lemma {:induction false} LengthBytes(n: nat)
    ensures n >= 128 ==> |EncodeLength(n)| >= 2
  {
  }

  /**
   * Beyond 127 the two length bytes never name the length of the packet: CONNECT drops the bit that announces
   * the second byte, and PUBLISH puts the second byte where the fields start.
   */
  lemma TooLong(first: Byte, fields: seq<Byte>)
    requires |fields| > 127
    ensures Receive(Built(first, fields)) == None
  {
    hide DecodeConnect, DecodePublish;
    var bs, r := Built(first, fields), |fields|;
    if first == 0x30 {
      assert bs[1..][1..][0] == r / 128 % 128;
      assert DecodeLength(bs[1..][1..], 3) == Some((r / 128 % 128, 1));
      assert DecodeLength(bs[1..], 4) == Some((r % 128 + 128 * (r / 128 % 128), 2));
      NoMatch(r);
    } else {
      assert DecodeLength(bs[1..], 4) == Some((r % 128, 1));
    }
  }

  lemma NoMatch(r: nat)
    ensures 2 + r != 3 + (r % 128 + 128 * (r / 128 % 128))
  {
    var q, d := r / 128, r % 128;
    assert r == 128 * q + d;
    var e := q % 128;
    assert 128 * q - 1 != 128 * e;
  }

  function Number14(high: int, low: int): (n: int) {
    high * 128 + low
  }

  /**
   * What the two length bytes hold then: the low fourteen bits of the length, announced
   * as two bytes only in PUBLISH, and the second one in place of the first field byte.
   */
  lemma LengthBytesWritten(first: Byte, fields: seq<Byte>)
    requires |fields| > 127
    ensures var bs := Built(first, fields);
            && |bs| == 2 + |fields| && bs[0] == first && bs[3..] == fields[1..]
            && bs[2] < 128 && Number14(bs[2], bs[1] % 128) == |fields| % 16384
            && (bs[1] >= 128 <==> first == 0x30)
  {
    var r := |fields|;
    var q, d := r / 128, r % 128;
    var u, e := q / 128, q % 128;
    assert r == 16384 * u + (128 * e + d);
    ModUnique(r, u, 128 * e + d, 16384);
  }

  lemma ShortFacts(s: seq<Byte>)
    ensures Short(Short(s)) == Short(s) && |Short(s)| <= |s|
    ensures |s| < 0x1_0000 ==> Short(s) == s
  {
  }

  lemma ConnectLengths(id: seq<Byte>)
    ensures |ConnectFields(id)| == 12 + |Short(id)| && |Built(0x10, ConnectFields(id))| == 14 + |Short(id)|
    ensures |id| > 115 ==> |Wire(Connect(true, MQTT_KEEPALIVE, id))| >= 15 + |id|
  {
    hide EncodeLength, Short;
    LengthBytes(|Body(Connect(true, MQTT_KEEPALIVE, id))|);
  }

  lemma PublishLengths(topic: seq<Byte>, payload: seq<Byte>)
    ensures |Built(0x30, PublishFields(topic, payload))| == 4 + |Short(topic)| + |Short(payload)|
    ensures |topic| + |payload| > 125 ==>
              |Wire(Publish(false, 0, false, topic, 0, payload))| >= 5 + |topic| + |payload|
  {
    hide EncodeLength, Short;
    LengthBytes(|Body(Publish(false, 0, false, topic, 0, payload))|);
  }

  lemma SameShort(id: seq<Byte>, s: seq<Byte>)
    requires Short(s) == Short(id)
    ensures ConnectFields(s) == ConnectFields(id)
  {
  }

  /**
   * CONNECT: a receiver gets the client id back exactly when it has at most 115 bytes, and then the packet is
   * the standard's encoding. Longer ids give a packet that is rejected, or from 65536 bytes on a wrong id.
   */
  lemma ConnectRoundTrip(id: seq<Byte>)
    ensures var packet := Connect(true, MQTT_KEEPALIVE, id);
            && (Built(0x10, ConnectFields(id)) == Wire(packet) <==> |id| <= 115)
            && (Receive(Built(0x10, ConnectFields(id))) == Some(packet) <==> |id| <= 115)
    ensures Receive(Built(0x10, ConnectFields(id))) ==
            if |Short(id)| <= 115 then Some(Connect(true, MQTT_KEEPALIVE, Short(id))) else None
  {
    hide Receive, EncodeLength, Wire, Built, ConnectFields, Short;
    ShortFacts(id);
    ConnectLengths(id);
    if |Short(id)| <= 115 {
      SameShort(id, Short(id));
      ConnectFits(Short(id));
    } else {
      TooLong(0x10, ConnectFields(id));
    }
  }

  /** PUBLISH: topic and payload come back exactly when they have at most 125 bytes together. */
  lemma PublishRoundTrip(topic: seq<Byte>, payload: seq<Byte>)
    ensures var packet := Publish(false, 0, false, topic, 0, payload);
            && (Built(0x30, PublishFields(topic, payload)) == Wire(packet) <==> |topic| + |payload| <= 125)
            && (Receive(Built(0x30, PublishFields(topic, payload))) == Some(packet) <==> |topic| + |payload| <= 125)
    ensures Receive(Built(0x30, PublishFields(topic, payload))) ==
            if |Short(topic)| + |Short(payload)| <= 125
            then Some(Publish(false, 0, false, Short(topic), 0, Short(payload))) else None
  {
    hide Receive, EncodeLength, Wire, Built, Short;
    ShortFacts(topic);
    ShortFacts(payload);
    PublishLengths(topic, payload);
    if |Short(topic)| + |Short(payload)| <= 125 {
      PublishFits(Short(topic), Short(payload));
    } else {
      TooLong(0x30, PublishFields(topic, payload));
    }
  }

  /** The strings the client passes: an id printed into 32 bytes, the fixed topic, a payload printed into 100. */
  lemma CallSitesRoundTrip(id: seq<Byte>, topic: seq<Byte>, payload: seq<Byte>)
    requires |id| < 32 && |topic| == |"sensors/dht11/data"| && |payload| < 100
    ensures Receive(Built(0x10, ConnectFields(id))) == Some(Connect(true, 60, id))
    ensures Receive(Built(0x30, PublishFields(topic, payload))) == Some(Publish(false, 0, false, topic, 0, payload))
  {
    hide Receive, Built;
    ConnectRoundTrip(id);
    PublishRoundTrip(topic, payload);
  }

  /**
   * Bytes on the wire: the length 321 of section 2.2.3 is 193 and 2, and the shortest
   * ids, topics and payloads give these packets.
   */
  lemma BytesOnTheWire()
    ensures EncodeLength(321) == [193, 2]
    ensures Built(0x10, ConnectFields([97])) == [16, 13, 0, 4, 77, 81, 84, 84, 4, 2, 0, 60, 0, 1, 97]
    ensures Built(0x30, PublishFields([97], [98])) == [48, 4, 0, 1, 97, 98]
    ensures FirstByte(Publish(true, 1, true, [97], 7, [])) == 0x3B
    ensures Body(Publish(true, 1, true, [97], 7, [98])) == [0, 1, 97, 0, 7, 98]
  {
    hide LengthLimit, DecodeLength, Receive;
    assert EncodeLength(2) == [2];
    assert Short([97]) == [97] && Short([98]) == [98];
    assert ConnectFields([97]) == [0, 4, 77, 81, 84, 84, 4, 2, 0, 60, 0, 1, 97];
    assert PublishFields([97], [98]) == [0, 1, 97, 98];
  }
}
