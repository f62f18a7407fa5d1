/** Session descriptions, and the text they are printed as. */
module Sdp {
  import opened Wrappers
  import opened Text

  datatype Address = Address(v6: bool, host: string)

  datatype Codec = Codec(payloadType: int, name: string)

  datatype Media = Media(kind: string, address: Option<Address>, attributes: map<string, string>, port: int,
                         codecs: seq<Codec>)

  datatype Session = Session(username: string, id: int, version: int, address: Address, name: string,
                             attributes: map<string, string>, media: seq<Media>)

  const DEFAULT_CLOCK := 8000

  function IpName(a: Address): string {
    if a.v6 then "IP6" else "IP4"
  }

  /** A media address stands in for the one of the session. */
  function ConnectionLine(a: Address): string {
    "c=" + Joined(["IN", IpName(a), a.host])
  }

  function OriginLine(s: Session): string {
    "o=" + Joined([s.username, PrintInt(s.id), PrintInt(s.version), "IN", IpName(s.address), s.address.host])
  }

  function RtpMapLine(c: Codec): string {
    "a=rtpmap:" + PrintInt(c.payloadType) + " " + c.name + "/" + PrintInt(DEFAULT_CLOCK)
  }

  function PayloadTypes(codecs: seq<Codec>): seq<string> {
    if codecs == [] then [] else [PrintInt(codecs[0].payloadType)] + PayloadTypes(codecs[1..])
  }

  function MediaLine(m: Media): string {
    "m=" + Joined([m.kind, PrintInt(m.port), "RTP/AVP"] + PayloadTypes(m.codecs))
  }

  function AttributeLine(name: string, value: string): string {
    "a=" + name + if IsBlank(value) then "" else ":" + value
  }

  /** One line for each attribute, in the order in which the table lists them. */
  function AttributeLines(attributes: map<string, string>, order: seq<string>): seq<string>
    requires forall k <- order :: k in attributes
  {
    if order == [] then [] else [AttributeLine(order[0], attributes[order[0]])] + AttributeLines(attributes, order[1..])
  }

  function RtpMapLines(codecs: seq<Codec>): seq<string> {
    if codecs == [] then [] else [RtpMapLine(codecs[0])] + RtpMapLines(codecs[1..])
  }

  predicate Lists(order: seq<string>, attributes: map<string, string>) {
    && (forall i, j | 0 <= i < j < |order| :: order[i] != order[j])
    && (forall k <- order :: k in attributes) && (forall k <- attributes :: k in order)
  }

  function MediaLines(m: Media, order: seq<string>): seq<string>
    requires Lists(order, m.attributes)
  {
    [MediaLine(m)] + (if m.address.Some? then [ConnectionLine(m.address.value)] else [])
    + RtpMapLines(m.codecs) + AttributeLines(m.attributes, order)
  }

  predicate AllList(orders: seq<seq<string>>, media: seq<Media>) {
    |orders| == |media| && forall i | 0 <= i < |media| :: Lists(orders[i], media[i].attributes)
  }

  function AllMediaLines(media: seq<Media>, orders: seq<seq<string>>): seq<string>
    requires AllList(orders, media)
  {
    if media == [] then [] else MediaLines(media[0], orders[0]) + AllMediaLines(media[1..], orders[1..])
  }

  function HeaderLines(s: Session): seq<string> {
    ["v=0", OriginLine(s), "s=" + s.name, ConnectionLine(s.address), "t=0 0"]
  }

  /** The session level prints a blank attribute without its line end. */
  function SessionAttributeText(attributes: map<string, string>, order: seq<string>): string
    requires forall k <- order :: k in attributes
  {
    if order == [] then ""
    else
      var value := attributes[order[0]];
      "a=" + order[0] + (if IsBlank(value) then "" else ":" + value + "\r\n")
      + SessionAttributeText(attributes, order[1..])
  }

  /** The whole text; the hash tables list their keys in the given orders. */
  function SessionText(s: Session, order: seq<string>, orders: seq<seq<string>>): string
    requires Lists(order, s.attributes) && AllList(orders, s.media)
  {
    Ended(HeaderLines(s)) + SessionAttributeText(s.attributes, order) + Ended(AllMediaLines(s.media, orders))
  }

  lemma {:induction false} AttributeTextIsLines(attributes: map<string, string>, order: seq<string>)
    requires forall k <- order :: k in attributes && !IsBlank(attributes[k])
    ensures SessionAttributeText(attributes, order) == Ended(AttributeLines(attributes, order))
  {
    if order != [] {
      assert order[0] in order;
      AttributeTextIsLines(attributes, order[1..]);
    }
  }

  /** Without blank session attributes, the text is a sequence of complete lines. */
  lemma TextIsLines(s: Session, order: seq<string>, orders: seq<seq<string>>)
    requires Lists(order, s.attributes) && AllList(orders, s.media)
    requires forall k <- s.attributes :: !IsBlank(s.attributes[k])
    ensures SessionText(s, order, orders) ==
      Ended(HeaderLines(s) + AttributeLines(s.attributes, order) + AllMediaLines(s.media, orders))
  {
    AttributeTextIsLines(s.attributes, order);
    EndedJoined(HeaderLines(s), AttributeLines(s.attributes, order));
    EndedJoined(HeaderLines(s) + AttributeLines(s.attributes, order), AllMediaLines(s.media, orders));
  }

  lemma ClockText()
    ensures PrintInt(DEFAULT_CLOCK) == "8000"
  {
    assert PrintNat(8) == "8" && PrintNat(80) == "80" && PrintNat(800) == "800";
  }

  /** `Codec.toString` */
  method PrintCodec(c: Codec) returns (buf: string)
    ensures buf == RtpMapLine(c) + "\r\n"
    ensures buf == "a=rtpmap:" + PrintInt(c.payloadType) + " " + c.name + "/8000" + "\r\n"
  {
    ClockText();
    buf := "a" + "=";
    buf := buf + "rtpmap" + ":";
    buf := buf + PrintInt(c.payloadType) + " " + c.name + "/";
    buf := buf + PrintInt(DEFAULT_CLOCK) + "\r\n";
  }

  /** `MediaDescription.toString` */
  method PrintMedia(m: Media, order: seq<string>) returns (buf: string)
    requires Lists(order, m.attributes)
    ensures buf == Ended(MediaLines(m, order))
  {
    ghost var lines := [MediaLine(m)];
    buf := PrintMediaLine(m);
    EndedAppend([], MediaLine(m));
    assert [] + [MediaLine(m)] == lines;
    if m.address.Some? {
      var ipVersion := if m.address.value.v6 then 6 else 4;
      ConnectionText(m.address.value);
      var connection := "c=";
      connection := connection + "IN IP" + PrintInt(ipVersion) + " ";
      connection := connection + m.address.value.host;
      EndedAppend(lines, ConnectionLine(m.address.value));
      buf := buf + connection + "\r\n";
      lines := lines + [ConnectionLine(m.address.value)];
    }
    assert lines == [MediaLine(m)] + (if m.address.Some? then [ConnectionLine(m.address.value)] else []);
    buf := PrintCodecs(buf, m.codecs, lines);
    buf := PrintAttributes(buf, m.attributes, order, lines + RtpMapLines(m.codecs));
  }

  method PrintMediaLine(m: Media) returns (buf: string)
    ensures buf == MediaLine(m) + "\r\n"
  {
    buf := "m" + "=";
    buf := buf + m.kind + " " + PrintInt(m.port);
    buf := buf + " RTP/AVP";
    ghost var tokens := [m.kind, PrintInt(m.port), "RTP/AVP"];
    JoinedThree(m.kind, PrintInt(m.port), "RTP/AVP");
    assert buf == "m=" + Joined(tokens);
    for i := 0 to |m.codecs|
      invariant tokens != [] && buf == "m=" + Joined(tokens)
      invariant tokens + PayloadTypes(m.codecs[i..]) == [m.kind, PrintInt(m.port), "RTP/AVP"] + PayloadTypes(m.codecs)
    {
      JoinedAppend(tokens, PrintInt(m.codecs[i].payloadType));
      buf := buf + " ";
      buf := buf + PrintInt(m.codecs[i].payloadType);
      assert m.codecs[i..][1..] == m.codecs[i + 1..];
      tokens := tokens + [PrintInt(m.codecs[i].payloadType)];
    }
    assert tokens + [] == tokens && m.codecs[|m.codecs|..] == [];
    buf := buf + "\r\n";
  }

  method PrintCodecs(start: string, codecs: seq<Codec>, ghost before: seq<string>) returns (buf: string)
    requires start == Ended(before)
    ensures buf == Ended(before + RtpMapLines(codecs))
  {
    buf := start;
    ghost var lines := before;
    for i := 0 to |codecs|
      invariant buf == Ended(lines) && lines + RtpMapLines(codecs[i..]) == before + RtpMapLines(codecs)
    {
      var codec := PrintCodec(codecs[i]);
      buf := buf + codec;
      lines := CodecPrinted(lines, codecs, i);
    }
    assert lines + [] == lines && codecs[|codecs|..] == [];
  }

  lemma CodecPrinted(lines: seq<string>, codecs: seq<Codec>, i: nat) returns (more: seq<string>)
    requires i < |codecs|
    ensures more + RtpMapLines(codecs[i + 1..]) == lines + RtpMapLines(codecs[i..])
    ensures Ended(more) == Ended(lines) + (RtpMapLine(codecs[i]) + "\r\n")
  {
    more := lines + [RtpMapLine(codecs[i])];
    EndedAppend(lines, RtpMapLine(codecs[i]));
    Regroup(Ended(lines), RtpMapLine(codecs[i]), "\r\n");
    assert codecs[i..][1..] == codecs[i + 1..];
    Regroup(lines, [RtpMapLine(codecs[i])], RtpMapLines(codecs[i + 1..]));
  }

  method PrintAttributes(start: string, attributes: map<string, string>, order: seq<string>,
                         ghost before: seq<string>) returns (buf: string)
    requires start == Ended(before) && forall k <- order :: k in attributes
    ensures buf == Ended(before + AttributeLines(attributes, order))
  {
    buf := start;
    ghost var lines := before;
    for i := 0 to |order|
      invariant buf == Ended(lines)
      invariant lines + AttributeLines(attributes, order[i..]) == before + AttributeLines(attributes, order)
    {
      var value := attributes[order[i]];
      var line := "a=" + order[i];
      if !IsBlank(value) {
        line := line + ":" + value;
      }
      Regroup("a=" + order[i], ":", value);
      assert line == AttributeLine(order[i], value);
      EndedAppend(lines, line);
      buf := buf + line + "\r\n";
      assert order[i..][1..] == order[i + 1..];
      lines := lines + [line];
    }
    assert lines + [] == lines && order[|order|..] == [];
  }

  lemma EndedAppend(lines: seq<string>, line: string)
    ensures Ended(lines + [line]) == Ended(lines) + line + "\r\n"
  {
    EndedJoined(lines, [line]);
    assert [line][1..] == [];
  }

  lemma ConnectionText(a: Address)
    ensures ConnectionLine(a) == "c=" + "IN IP" + PrintInt(if a.v6 then 6 else 4) + " " + a.host
  {
    JoinedThree("IN", IpName(a), a.host);
    assert PrintInt(6) == "6" && PrintInt(4) == "4";
    assert "IN IP" + PrintInt(if a.v6 then 6 else 4) == "IN" + " " + IpName(a);
  }

  lemma JoinedThree(a: string, b: string, c: string)
    ensures Joined([a, b, c]) == a + " " + b + " " + c
  {
    JoinedAppend([a], b);
    JoinedAppend([a, b], c);
    assert [a] + [b] == [a, b] && [a, b] + [c] == [a, b, c];
  }

  lemma JoinedSix(a: string, b: string, c: string, d: string, e: string, f: string)
    ensures Joined([a, b, c, d, e, f]) == a + " " + b + " " + c + " " + d + " " + e + " " + f
  {
    JoinedThree(a, b, c);
    JoinedAppend([a, b, c], d);
    JoinedAppend([a, b, c, d], e);
    JoinedAppend([a, b, c, d, e], f);
    assert [a, b, c] + [d] == [a, b, c, d] && [a, b, c, d] + [e] == [a, b, c, d, e];
    assert [a, b, c, d, e] + [f] == [a, b, c, d, e, f];
  }

  lemma OriginText(s: Session)
    ensures OriginLine(s) == "o=" + s.username + " " + PrintInt(s.id) + " " + PrintInt(s.version)
      + " IN IP" + PrintInt(if s.address.v6 then 6 else 4) + " " + s.address.host
  {
    JoinedSix(s.username, PrintInt(s.id), PrintInt(s.version), "IN", IpName(s.address), s.address.host);
    assert PrintInt(6) == "6" && PrintInt(4) == "4";
    assert " IN IP" + PrintInt(if s.address.v6 then 6 else 4) == " " + "IN" + " " + IpName(s.address);
  }

  /** `SessionDescription.toString` */
  method PrintSession(s: Session, order: seq<string>, orders: seq<seq<string>>) returns (buf: string)
    requires Lists(order, s.attributes) && AllList(orders, s.media)
    ensures buf == SessionText(s, order, orders)
  {
    buf := PrintHeader(s);
    buf := PrintSessionAttributes(buf, s.attributes, order);
    buf := PrintAllMedia(buf, s, orders);
  }

  method PrintSessionAttributes(start: string, attributes: map<string, string>, order: seq<string>)
    returns (buf: string)
    requires forall k <- order :: k in attributes
    ensures buf == start + SessionAttributeText(attributes, order)
  {
    buf := start;
    for i := 0 to |order|
      invariant buf + SessionAttributeText(attributes, order[i..]) == start + SessionAttributeText(attributes, order)
    {
      var value := attributes[order[i]];
      var line := "a=" + order[i];
      if !IsBlank(value) {
        line := line + (":" + value + "\r\n");
      }
      assert order[i..][1..] == order[i + 1..];
      Regroup(buf, line, SessionAttributeText(attributes, order[i + 1..]));
      buf := buf + line;
    }
    assert order[|order|..] == [] && buf + "" == buf;
  }

  lemma Regroup<T>(a: seq<T>, b: seq<T>, c: seq<T>)
    ensures (a + b) + c == a + (b + c)
  {}

  method PrintAllMedia(start: string, s: Session, orders: seq<seq<string>>) returns (buf: string)
    requires AllList(orders, s.media)
    ensures buf == start + Ended(AllMediaLines(s.media, orders))
  {
    buf := start;
    for i := 0 to |s.media|
      invariant buf + Ended(AllMediaLines(s.media[i..], orders[i..])) == start + Ended(AllMediaLines(s.media, orders))
    {
      assert s.media[i..][1..] == s.media[i + 1..] && orders[i..][1..] == orders[i + 1..];
      EndedJoined(MediaLines(s.media[i], orders[i]), AllMediaLines(s.media[i + 1..], orders[i + 1..]));
      var media := PrintMedia(s.media[i], orders[i]);
      Regroup(buf, media, Ended(AllMediaLines(s.media[i + 1..], orders[i + 1..])));
      buf := buf + media;
    }
    assert s.media[|s.media|..] == [] && buf + "" == buf;
  }

  method PrintHeader(s: Session) returns (buf: string)
    ensures buf == Ended(HeaderLines(s))
  {
    var ipVersion := if s.address.v6 then 6 else 4;
    var origin := "o=" + s.username + " " + PrintInt(s.id);
    origin := origin + " " + PrintInt(s.version);
    origin := origin + " IN IP" + PrintInt(ipVersion) + " ";
    origin := origin + s.address.host;
    OriginText(s);
    var connection := "c=IN IP" + PrintInt(ipVersion) + " ";
    connection := connection + s.address.host;
    ConnectionText(s.address);
    assert "c=IN IP" == "c=" + "IN IP";
    buf := PrintLines(["v=0", origin, "s=" + s.name, connection, "t=0 0"]);
  }

  method PrintLines(lines: seq<string>) returns (buf: string)
    ensures buf == Ended(lines)
  {
    buf := "";
    for i := 0 to |lines|
      invariant buf == Ended(lines[..i])
    {
      EndedAppend(lines[..i], lines[i]);
      assert lines[..i] + [lines[i]] == lines[..i + 1];
      buf := buf + lines[i] + "\r\n";
    }
    assert lines[..|lines|] == lines;
  }
}
