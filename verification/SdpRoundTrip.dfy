/** Parsing the printed form of a session description gives the description back. */
module SdpRoundTrip {
  import opened Wrappers
  import opened Text
  import opened Sdp
  import opened SdpParsing

  predicate Token(s: string) {
    ' ' !in s && OneLine(s)
  }

  predicate GoodAddress(net: Network, a: Address) {
    a.host != "" && Token(a.host) && a.host in net.lookup && net.lookup[a.host] == a
  }

  predicate GoodName(name: string) {
    ':' !in name && OneLine(name)
  }

  /** The value would be taken for a codec: it starts with a number and a blank. */
  predicate StartsWithNumber(value: string) {
    var blank := IndexOf(value, ' ');
    blank > -1 && ParseInt(value[..blank], 32).Some?
  }

  predicate GoodCodec(c: Codec) {
    InRange(c.payloadType, 32) && OneLine(c.name) && '/' !in c.name
  }

  predicate DistinctTypes(codecs: seq<Codec>) {
    forall i, j | 0 <= i < j < |codecs| :: codecs[i].payloadType != codecs[j].payloadType
  }

  predicate GoodMediaAttribute(name: string, value: string) {
    name != "" && GoodName(name) && OneLine(value) && (IsBlank(value) || !StartsWithNumber(value))
  }

  predicate GoodMedia(net: Network, m: Media) {
    && Token(m.kind) && InRange(m.port, 32) && (m.address.Some? ==> GoodAddress(net, m.address.value))
    && (forall c <- m.codecs :: GoodCodec(c)) && DistinctTypes(m.codecs)
    && forall k <- m.attributes :: GoodMediaAttribute(k, m.attributes[k])
  }

  predicate GoodSession(net: Network, s: Session) {
    && Token(s.username) && InRange(s.id, 64) && InRange(s.version, 64) && GoodAddress(net, s.address)
    && s.name != "" && OneLine(s.name)
    && (forall k <- s.attributes :: GoodName(k) && OneLine(s.attributes[k]) && !IsBlank(s.attributes[k]))
    && forall m <- s.media :: GoodMedia(net, m)
  }

  function Unblanked(value: string): string {
    if IsBlank(value) then "" else value
  }

  /** Blank attribute values come back empty. */
  function ExpectedMedia(m: Media): Media {
    m.(attributes := map k | k in m.attributes :: Unblanked(m.attributes[k]))
  }

  function ExpectedAll(media: seq<Media>): seq<Media> {
    if media == [] then [] else [ExpectedMedia(media[0])] + ExpectedAll(media[1..])
  }

  function Expected(s: Session): Session {
    s.(media := WithAddresses(ExpectedAll(s.media), s.address))
  }

  // The session level

  lemma NumbersAreTokens(n: int)
    ensures Token(PrintInt(n)) && PrintInt(n) != ""
  {}

  lemma OriginTokens(net: Network, s: Session)
    requires GoodSession(net, s)
    ensures Split(OriginLine(s)[2..])
      == [s.username, PrintInt(s.id), PrintInt(s.version), "IN", IpName(s.address), s.address.host]
  {
    var tokens := [s.username, PrintInt(s.id), PrintInt(s.version), "IN", IpName(s.address), s.address.host];
    NumbersAreTokens(s.id);
    NumbersAreTokens(s.version);
    SplitJoined(tokens);
    assert OriginLine(s)[2..] == Joined(tokens);
  }

  lemma OriginParsed(net: Network, s: Session)
    requires GoodSession(net, s)
    ensures ParseOrigin(net, OriginLine(s)) == Read(Session(s.username, s.id, s.version, s.address, "", map[], []))
  {
    OriginTokens(net, s);
    ParsePrinted(s.id, 64);
    ParsePrinted(s.version, 64);
    OriginText(s);
  }

  lemma ConnectionParsed(net: Network, a: Address)
    requires GoodAddress(net, a)
    ensures ParseConnection(ConnectionLine(a)[2..]) == Some(a.host) && |ConnectionLine(a)| > 3
    ensures Starts(ConnectionLine(a), 'c')
  {
    var tokens := ["IN", IpName(a), a.host];
    SplitJoined(tokens);
    assert ConnectionLine(a)[2..] == Joined(tokens);
    ConnectionText(a);
  }

  lemma HeaderParsed(net: Network, s: Session, rest: seq<string>)
    requires GoodSession(net, s)
    ensures ParseHeader(net, HeaderLines(s) + rest)
      == Read(Session(s.username, s.id, s.version, s.address, s.name, map[], []))
    ensures (HeaderLines(s) + rest)[3..] == [ConnectionLine(s.address), "t=0 0"] + rest
  {
    OriginParsed(net, s);
    NameLine(s.name);
    HeaderAt(s, rest);
  }

  lemma NameLine(name: string)
    requires name != ""
    ensures |"s=" + name| >= 3 && Starts("s=" + name, 's') && ("s=" + name)[2..] == name
  {}

  lemma HeaderAt(s: Session, rest: seq<string>)
    ensures var lines := HeaderLines(s) + rest;
      && |lines| >= 5 && lines[0] == "v=0" && lines[1] == OriginLine(s) && lines[2] == "s=" + s.name
      && lines[3..] == [ConnectionLine(s.address), "t=0 0"] + rest
  {}

  /** The attributes so far, and those of `order` put on top. */
  function Collected(acc: map<string, string>, attributes: map<string, string>, order: seq<string>): map<string, string>
    requires forall k <- order :: k in attributes
    decreases |order|
  {
    if order == [] then acc else Collected(acc[order[0] := attributes[order[0]]], attributes, order[1..])
  }

  lemma {:induction false} CollectedAll(acc: map<string, string>, attributes: map<string, string>, order: seq<string>)
    requires forall k <- order :: k in attributes
    ensures forall k :: k in Collected(acc, attributes, order) <==> k in acc || k in order
    ensures forall k <- Collected(acc, attributes, order) ::
      Collected(acc, attributes, order)[k] == if k in order then attributes[k] else acc[k]
    decreases |order|
  {
    if order != [] {
      CollectedAll(acc[order[0] := attributes[order[0]]], attributes, order[1..]);
      assert forall k :: k in order <==> k == order[0] || k in order[1..];
    }
  }

  lemma CollectedMap(attributes: map<string, string>, order: seq<string>)
    requires Lists(order, attributes)
    ensures Collected(map[], attributes, order) == attributes
  {
    CollectedAll(map[], attributes, order);
  }

  lemma {:induction false} AttributesParsed(net: Network, s: Session, attributes: map<string, string>,
                                            order: seq<string>, rest: seq<string>)
    requires forall k <- order :: k in attributes && GoodName(k) && OneLine(attributes[k]) && !IsBlank(attributes[k])
    ensures ParseSessionLines(net, s, AttributeLines(attributes, order) + rest)
         == ParseSessionLines(net, s.(attributes := Collected(s.attributes, attributes, order)), rest)
    decreases |order|
  {
    if order == [] {
      assert AttributeLines(attributes, order) + rest == rest;
      assert s.(attributes := s.attributes) == s;
    } else {
      var name, value := order[0], attributes[order[0]];
      assert name in order;
      SessionAttributeParsed(net, s, name, value);
      var more := AttributeLines(attributes, order[1..]) + rest;
      assert AttributeLines(attributes, order) + rest == [AttributeLine(name, value)] + more;
      SessionLineParsed(net, s, AttributeLine(name, value), more, s.(attributes := s.attributes[name := value]));
      AttributesParsed(net, s.(attributes := s.attributes[name := value]), attributes, order[1..], rest);
    }
  }

  lemma SessionLineParsed(net: Network, s: Session, line: string, rest: seq<string>, next: Session)
    requires line != "" && line[0] == 'a' && ParseSessionLine(net, s, line) == Read(next)
    ensures ParseSessionLines(net, s, [line] + rest) == ParseSessionLines(net, next, rest)
  {
    assert ([line] + rest)[1..] == rest;
  }

  lemma SessionAttributeParsed(net: Network, s: Session, name: string, value: string)
    requires GoodName(name) && OneLine(value) && !IsBlank(value)
    ensures AttributeLine(name, value) != "" && AttributeLine(name, value)[0] == 'a'
    ensures ParseSessionLine(net, s, AttributeLine(name, value)) == Read(s.(attributes := s.attributes[name := value]))
  {
    var line := AttributeLine(name, value);
    assert line[2..] == name + [':'] + value;
    IndexAfter(name, ':', value);
    assert line[2..][..|name|] == name && line[2..][|name| + 1..] == value;
  }

  // The media level

  /** What a codec without an rtpmap line is called. */
  function Unmapped(c: Codec): Codec {
    Codec(c.payloadType, if c.payloadType == 0 then "PCMU" else if c.payloadType == 8 then "PCMA" else "unsupported")
  }

  function Defaults(codecs: seq<Codec>): seq<Codec> {
    if codecs == [] then [] else [Unmapped(codecs[0])] + Defaults(codecs[1..])
  }

  lemma {:induction false} CodecsParsed(codecs: seq<Codec>)
    requires forall c <- codecs :: GoodCodec(c)
    ensures ParseCodecs(PayloadTypes(codecs)) == Read(Defaults(codecs))
    ensures |PayloadTypes(codecs)| == |codecs| && forall t <- PayloadTypes(codecs) :: Token(t) && t != ""
  {
    if codecs != [] {
      assert codecs[0] in codecs;
      CodecsParsed(codecs[1..]);
      ParsePrinted(codecs[0].payloadType, 32);
      NumbersAreTokens(codecs[0].payloadType);
      assert PayloadTypes(codecs)[1..] == PayloadTypes(codecs[1..]);
    }
  }

  lemma MediaLineParsed(net: Network, m: Media)
    requires GoodMedia(net, m)
    ensures ParseMediaLine(MediaLine(m)[2..]) == if m.codecs == [] then Nothing
      else Read(Media(m.kind, None, map[], m.port, Defaults(m.codecs)))
  {
    var front := [m.kind, PrintInt(m.port), "RTP/AVP"];
    var tokens := front + PayloadTypes(m.codecs);
    CodecsParsed(m.codecs);
    NumbersAreTokens(m.port);
    ParsePrinted(m.port, 32);
    forall t | t in tokens ensures ' ' !in t { assert t in front || t in PayloadTypes(m.codecs); }
    assert tokens[|tokens| - 1] != "" by {
      if m.codecs != [] { assert tokens[|tokens| - 1] in PayloadTypes(m.codecs); }
    }
    SplitJoined(tokens);
    assert MediaLine(m)[2..] == Joined(tokens);
    assert tokens[3..] == PayloadTypes(m.codecs);
  }

  /** The first `i` codecs have their names if there is an rtpmap line for them. */
  function Known(codecs: seq<Codec>, mapped: set<int>, i: nat): seq<Codec> {
    seq(|codecs|, k requires 0 <= k < |codecs| =>
      if k < i && codecs[k].payloadType in mapped then codecs[k] else Unmapped(codecs[k]))
  }

  /** The rtpmap lines of some of the codecs. */
  function SomeMapLines(codecs: seq<Codec>, mapped: set<int>): seq<string> {
    if codecs == [] then []
    else
      var rest := SomeMapLines(codecs[1..], mapped);
      if codecs[0].payloadType in mapped then [RtpMapLine(codecs[0])] + rest else rest
  }

  lemma {:induction false} SomeMapLinesAll(codecs: seq<Codec>, mapped: set<int>)
    requires forall c <- codecs :: c.payloadType in mapped
    ensures SomeMapLines(codecs, mapped) == RtpMapLines(codecs)
  {
    if codecs != [] {
      assert codecs[0] in codecs;
      SomeMapLinesAll(codecs[1..], mapped);
    }
  }

  lemma {:induction false} RenamedAt(codecs: seq<Codec>, i: nat, payloadType: int, value: string)
    requires i < |codecs| && codecs[i].payloadType == payloadType && IndexOf(value, '/') > -1
    requires forall k | 0 <= k < i :: codecs[k].payloadType != payloadType
    ensures Renamed(codecs, payloadType, value) == codecs[i := codecs[i].(name := value[..IndexOf(value, '/')])]
  {
    if i == 0 {
      var renamed := codecs[0].(name := value[..IndexOf(value, '/')]);
      assert codecs[0 := renamed] == [renamed] + codecs[1..];
    } else {
      RenamedAt(codecs[1..], i - 1, payloadType, value);
    }
  }

  lemma {:induction false} DefaultsKnown(codecs: seq<Codec>, mapped: set<int>)
    ensures Defaults(codecs) == Known(codecs, mapped, 0)
  {
    if codecs != [] {
      DefaultsKnown(codecs[1..], mapped);
      var known := Known(codecs, mapped, 0);
      assert known == [known[0]] + Known(codecs[1..], mapped, 0);
    }
  }

  lemma RtpMapParsed(m: Media, codecs: seq<Codec>, mapped: set<int>, i: nat)
    requires i < |codecs| && GoodCodec(codecs[i]) && DistinctTypes(codecs) && codecs[i].payloadType in mapped
    requires m.codecs == Known(codecs, mapped, i)
    ensures ParseMediaAttribute(m, RtpMapLine(codecs[i])[2..]) == m.(codecs := Known(codecs, mapped, i + 1))
  {
    var c := codecs[i];
    var number, rest := PrintInt(c.payloadType), c.name + "/" + PrintInt(DEFAULT_CLOCK);
    var value := number + [' '] + rest;
    RtpMapApart(c);
    NumbersAreTokens(c.payloadType);
    IndexAfter(number, ' ', rest);
    assert value[..|number|] == number && value[|number| + 1..] == rest;
    ParsePrinted(c.payloadType, 32);
    NameBeforeSlash(c);
    KnownNext(codecs, mapped, i, rest);
  }

  lemma RtpMapApart(c: Codec)
    ensures var line := RtpMapLine(c)[2..];
      IndexOf(line, ':') == 6 && line[7..] == PrintInt(c.payloadType) + [' '] + (c.name + "/" + PrintInt(DEFAULT_CLOCK))
  {
    var value := PrintInt(c.payloadType) + [' '] + (c.name + "/" + PrintInt(DEFAULT_CLOCK));
    assert RtpMapLine(c)[2..] == "rtpmap" + [':'] + value;
    IndexAfter("rtpmap", ':', value);
  }

  lemma NameBeforeSlash(c: Codec)
    requires '/' !in c.name
    ensures var rest := c.name + "/" + PrintInt(DEFAULT_CLOCK);
      IndexOf(rest, '/') == |c.name| && rest[..|c.name|] == c.name
  {
    IndexAfter(c.name, '/', PrintInt(DEFAULT_CLOCK));
    assert c.name + "/" + PrintInt(DEFAULT_CLOCK) == c.name + ['/'] + PrintInt(DEFAULT_CLOCK);
  }

  lemma KnownNext(codecs: seq<Codec>, mapped: set<int>, i: nat, rest: string)
    requires i < |codecs| && DistinctTypes(codecs) && IndexOf(rest, '/') == |codecs[i].name|
    requires rest[..|codecs[i].name|] == codecs[i].name && codecs[i].payloadType in mapped
    ensures Renamed(Known(codecs, mapped, i), codecs[i].payloadType, rest) == Known(codecs, mapped, i + 1)
  {
    var known := Known(codecs, mapped, i);
    RenamedAt(known, i, codecs[i].payloadType, rest);
    assert known[i].(name := codecs[i].name) == codecs[i];
    assert known[i := codecs[i]] == Known(codecs, mapped, i + 1);
  }

  lemma MediaAttributeParsed(m: Media, name: string, value: string)
    requires GoodMediaAttribute(name, value)
    ensures ParseMediaAttribute(m, AttributeLine(name, value)[2..])
      == m.(attributes := m.attributes[name := Unblanked(value)])
  {
    var line := AttributeLine(name, value)[2..];
    if IsBlank(value) {
      assert line == name;
    } else {
      assert line == name + [':'] + value;
      IndexAfter(name, ':', value);
      assert line[..|name|] == name && line[|name| + 1..] == value;
    }
  }

  // Lines

  predicate GoodLine(line: string) {
    OneLine(line) && |line| >= 3 && line[1] == '='
  }

  lemma {:induction false} RtpMapLinesGood(codecs: seq<Codec>)
    requires forall c <- codecs :: GoodCodec(c)
    ensures forall l <- RtpMapLines(codecs) :: GoodLine(l) && l[0] == 'a'
  {
    if codecs != [] {
      assert codecs[0] in codecs;
      RtpMapLinesGood(codecs[1..]);
      NumbersAreTokens(codecs[0].payloadType);
      NumbersAreTokens(DEFAULT_CLOCK);
    }
  }

  lemma {:induction false} AttributeLinesGood(attributes: map<string, string>, order: seq<string>)
    requires forall k <- order ::
      k in attributes && OneLine(k) && OneLine(attributes[k]) && (k != "" || !IsBlank(attributes[k]))
    ensures forall l <- AttributeLines(attributes, order) :: GoodLine(l) && l[0] == 'a'
  {
    if order != [] {
      assert order[0] in order;
      AttributeLinesGood(attributes, order[1..]);
    }
  }

  lemma {:induction false} JoinedOneLine(tokens: seq<string>)
    requires tokens != [] && forall t <- tokens :: OneLine(t)
    ensures OneLine(Joined(tokens))
  {
    assert tokens[0] in tokens;
    if |tokens| > 1 { JoinedOneLine(tokens[1..]); }
  }

  lemma MediaLineGood(net: Network, m: Media)
    requires GoodMedia(net, m)
    ensures GoodLine(MediaLine(m)) && MediaLine(m)[0] == 'm'
  {
    CodecsParsed(m.codecs);
    NumbersAreTokens(m.port);
    JoinedOneLine([m.kind, PrintInt(m.port), "RTP/AVP"] + PayloadTypes(m.codecs));
    JoinedLength([m.kind, PrintInt(m.port), "RTP/AVP"] + PayloadTypes(m.codecs));
  }

  lemma JoinedLength(tokens: seq<string>)
    requires |tokens| > 1
    ensures |Joined(tokens)| >= 1
  {}

  lemma ConnectionGood(net: Network, a: Address)
    requires GoodAddress(net, a)
    ensures GoodLine(ConnectionLine(a)) && ConnectionLine(a)[0] == 'c'
  {
    JoinedOneLine(["IN", IpName(a), a.host]);
    ConnectionParsed(net, a);
  }

  lemma HeaderLinesGood(net: Network, s: Session)
    requires GoodSession(net, s)
    ensures forall l <- HeaderLines(s) :: OneLine(l)
  {
    NumbersAreTokens(s.id);
    NumbersAreTokens(s.version);
    JoinedOneLine([s.username, PrintInt(s.id), PrintInt(s.version), "IN", IpName(s.address), s.address.host]);
    ConnectionGood(net, s.address);
  }

  // Whole media

  lemma StepParsed(net: Network, media: seq<Media>, line: string, rest: seq<string>, next: seq<Media>)
    requires GoodLine(line) && WellShaped(rest) && ParseMediaLevel(net, media, line) == Read(next)
    ensures WellShaped([line] + rest) && ParseMediaLines(net, media, [line] + rest) == ParseMediaLines(net, next, rest)
  {
    assert ([line] + rest)[1..] == rest;
  }

  lemma RtpMapStep(net: Network, media: seq<Media>, m: Media, codecs: seq<Codec>, mapped: set<int>, i: nat)
    requires i < |codecs| && GoodCodec(codecs[i]) && DistinctTypes(codecs) && codecs[i].payloadType in mapped
    requires m.codecs == Known(codecs, mapped, i)
    ensures GoodLine(RtpMapLine(codecs[i]))
    ensures ParseMediaLevel(net, media + [m], RtpMapLine(codecs[i]))
      == Read(media + [m.(codecs := Known(codecs, mapped, i + 1))])
  {
    RtpMapLinesGood([codecs[i]]);
    assert RtpMapLine(codecs[i]) in RtpMapLines([codecs[i]]);
    RtpMapParsed(m, codecs, mapped, i);
    LastReplaced(media, m, m.(codecs := Known(codecs, mapped, i + 1)));
  }

  lemma {:induction false} SomeMapLinesGood(codecs: seq<Codec>, mapped: set<int>)
    requires forall c <- codecs :: GoodCodec(c)
    ensures forall l <- SomeMapLines(codecs, mapped) :: GoodLine(l)
  {
    if codecs != [] {
      assert codecs[0] in codecs;
      SomeMapLinesGood(codecs[1..], mapped);
      RtpMapLinesGood([codecs[0]]);
      assert RtpMapLine(codecs[0]) in RtpMapLines([codecs[0]]);
    }
  }

  /** An rtpmap line names its own codec; a codec without one keeps its first name. */
  lemma {:induction false} RtpMapsParsed(net: Network, media: seq<Media>, m: Media, codecs: seq<Codec>,
                                         mapped: set<int>, i: nat, rest: seq<string>)
    requires i <= |codecs| && (forall c <- codecs :: GoodCodec(c)) && DistinctTypes(codecs)
    requires m.codecs == Known(codecs, mapped, i)
    requires WellShaped(rest)
    ensures WellShaped(SomeMapLines(codecs[i..], mapped) + rest)
    ensures ParseMediaLines(net, media + [m], SomeMapLines(codecs[i..], mapped) + rest)
         == ParseMediaLines(net, media + [m.(codecs := Known(codecs, mapped, |codecs|))], rest)
    decreases |codecs| - i
  {
    SomeMapLinesGood(codecs[i..], mapped);
    if i == |codecs| {
      assert SomeMapLines(codecs[i..], mapped) + rest == rest;
      assert m.(codecs := Known(codecs, mapped, |codecs|)) == m;
    } else {
      assert codecs[i..][1..] == codecs[i + 1..];
      var next := m.(codecs := Known(codecs, mapped, i + 1));
      RtpMapsParsed(net, media, next, codecs, mapped, i + 1, rest);
      if codecs[i].payloadType in mapped {
        RtpMapStep(net, media, m, codecs, mapped, i);
        StepParsed(net, media + [m], RtpMapLine(codecs[i]), SomeMapLines(codecs[i + 1..], mapped) + rest,
                   media + [next]);
        Regroup([RtpMapLine(codecs[i])], SomeMapLines(codecs[i + 1..], mapped), rest);
      } else {
        assert Known(codecs, mapped, i + 1) == Known(codecs, mapped, i);
      }
    }
  }

  lemma AttributeLineGood(name: string, value: string)
    requires GoodMediaAttribute(name, value)
    ensures GoodLine(AttributeLine(name, value)) && AttributeLine(name, value)[0] == 'a'
  {}

  lemma AttributeStep(net: Network, media: seq<Media>, m: Media, name: string, value: string)
    requires GoodMediaAttribute(name, value)
    ensures GoodLine(AttributeLine(name, value))
    ensures ParseMediaLevel(net, media + [m], AttributeLine(name, value))
      == Read(media + [m.(attributes := m.attributes[name := Unblanked(value)])])
  {
    AttributeLineGood(name, value);
    MediaAttributeParsed(m, name, value);
    LastReplaced(media, m, m.(attributes := m.attributes[name := Unblanked(value)]));
  }

  lemma LastReplaced(media: seq<Media>, m: Media, next: Media)
    ensures (media + [m])[|media|] == m && (media + [m])[|media| := next] == media + [next]
  {}

  lemma {:induction false} MediaAttributesParsed(net: Network, media: seq<Media>, m: Media,
                                                 attributes: map<string, string>,
                                                 unblanked: map<string, string>, order: seq<string>, rest: seq<string>)
    requires forall k <- order :: k in attributes && GoodMediaAttribute(k, attributes[k])
    requires forall k <- order :: k in unblanked && unblanked[k] == Unblanked(attributes[k])
    requires WellShaped(rest)
    ensures WellShaped(AttributeLines(attributes, order) + rest)
    ensures ParseMediaLines(net, media + [m], AttributeLines(attributes, order) + rest)
         == ParseMediaLines(net, media + [m.(attributes := Collected(m.attributes, unblanked, order))], rest)
    decreases |order|
  {
    if order == [] {
      assert AttributeLines(attributes, order) + rest == rest;
      assert m.(attributes := m.attributes) == m;
    } else {
      assert order[0] in order;
      var name, value := order[0], attributes[order[0]];
      var next := m.(attributes := m.attributes[name := Unblanked(value)]);
      AttributeStep(net, media, m, name, value);
      MediaAttributesParsed(net, media, next, attributes, unblanked, order[1..], rest);
      StepParsed(net, media + [m], AttributeLine(name, value), AttributeLines(attributes, order[1..]) + rest,
                 media + [next]);
      Regroup([AttributeLine(name, value)], AttributeLines(attributes, order[1..]), rest);
    }
  }

  function ConnectionLines(m: Media): seq<string> {
    if m.address.Some? then [ConnectionLine(m.address.value)] else []
  }

  lemma MediaConnected(net: Network, media: seq<Media>, m: Media, first: Media, rest: seq<string>)
    requires GoodMedia(net, m) && WellShaped(rest) && first.address == None
    ensures WellShaped(ConnectionLines(m) + rest)
    ensures ParseMediaLines(net, media + [first], ConnectionLines(m) + rest)
      == ParseMediaLines(net, media + [first.(address := m.address)], rest)
  {
    if m.address.Some? {
      var line := ConnectionLine(m.address.value);
      ConnectionParsed(net, m.address.value);
      ConnectionGood(net, m.address.value);
      LastReplaced(media, first, first.(address := m.address));
      StepParsed(net, media + [first], line, rest, media + [first.(address := m.address)]);
    } else {
      assert ConnectionLines(m) + rest == rest && first.(address := m.address) == first;
    }
  }

  /** The first line of a media, and its address. */
  lemma MediaStarted(net: Network, media: seq<Media>, m: Media, rest: seq<string>)
    requires GoodMedia(net, m) && WellShaped(rest)
    ensures WellShaped([MediaLine(m)] + (ConnectionLines(m) + rest))
    ensures ParseMediaLines(net, media, [MediaLine(m)] + (ConnectionLines(m) + rest)) ==
      if m.codecs == [] then Nothing
      else ParseMediaLines(net, media + [Media(m.kind, m.address, map[], m.port, Defaults(m.codecs))], rest)
  {
    var first := Media(m.kind, None, map[], m.port, Defaults(m.codecs));
    var lines := [MediaLine(m)] + (ConnectionLines(m) + rest);
    MediaLineGood(net, m);
    MediaLineParsed(net, m);
    MediaConnected(net, media, m, first, rest);
    if m.codecs != [] {
      StepParsed(net, media, MediaLine(m), ConnectionLines(m) + rest, media + [first]);
    } else {
      assert lines[0] == MediaLine(m) && WellShaped(lines);
      assert ParseMediaLevel(net, media, MediaLine(m)) == Nothing;
    }
  }

  lemma RegroupFive<T>(a: seq<T>, b: seq<T>, c: seq<T>, d: seq<T>, e: seq<T>)
    ensures (a + b + c + d) + e == a + (b + (c + (d + e)))
  {}

  /** The lines of a media of which only some codecs have an rtpmap line. */
  function MappedLines(m: Media, order: seq<string>, mapped: set<int>): seq<string>
    requires Lists(order, m.attributes)
  {
    [MediaLine(m)] + ConnectionLines(m) + SomeMapLines(m.codecs, mapped) + AttributeLines(m.attributes, order)
  }

  function MappedMedia(m: Media, mapped: set<int>): Media {
    ExpectedMedia(m).(codecs := Known(m.codecs, mapped, |m.codecs|))
  }

  lemma MediaParsed(net: Network, media: seq<Media>, m: Media, order: seq<string>, mapped: set<int>, rest: seq<string>)
    requires GoodMedia(net, m) && Lists(order, m.attributes) && WellShaped(rest)
    ensures WellShaped(MappedLines(m, order, mapped) + rest)
    ensures ParseMediaLines(net, media, MappedLines(m, order, mapped) + rest)
         == if m.codecs == [] then Nothing else ParseMediaLines(net, media + [MappedMedia(m, mapped)], rest)
  {
    var maps, attributes := SomeMapLines(m.codecs, mapped), AttributeLines(m.attributes, order);
    RegroupFive([MediaLine(m)], ConnectionLines(m), maps, attributes, rest);
    MediaFilled(net, media, m, order, mapped, rest);
    MediaStarted(net, media, m, maps + (attributes + rest));
  }

  /** Codec names and attributes, after the first line of a media. */
  lemma MediaFilled(net: Network, media: seq<Media>, m: Media, order: seq<string>, mapped: set<int>, rest: seq<string>)
    requires GoodMedia(net, m) && Lists(order, m.attributes) && WellShaped(rest)
    ensures WellShaped(SomeMapLines(m.codecs, mapped) + (AttributeLines(m.attributes, order) + rest))
    ensures ParseMediaLines(net, media + [Media(m.kind, m.address, map[], m.port, Defaults(m.codecs))],
                            SomeMapLines(m.codecs, mapped) + (AttributeLines(m.attributes, order) + rest))
         == ParseMediaLines(net, media + [MappedMedia(m, mapped)], rest)
  {
    var second := Media(m.kind, m.address, map[], m.port, Defaults(m.codecs));
    var third := second.(codecs := Known(m.codecs, mapped, |m.codecs|));
    var unblanked := ExpectedMedia(m).attributes;
    MediaAttributesParsed(net, media, third, m.attributes, unblanked, order, rest);
    CollectedMap(unblanked, order);
    assert m.codecs[0..] == m.codecs;
    DefaultsKnown(m.codecs, mapped);
    RtpMapsParsed(net, media, second, m.codecs, mapped, 0, AttributeLines(m.attributes, order) + rest);
  }

  predicate HaveCodecs(media: seq<Media>) {
    forall m <- media :: m.codecs != []
  }

  /** The lines of all media, with rtpmap lines for the payload types in `maps`. */
  function AllMappedLines(media: seq<Media>, orders: seq<seq<string>>, maps: seq<set<int>>): seq<string>
    requires AllList(orders, media) && |maps| == |media|
  {
    if media == [] then []
    else MappedLines(media[0], orders[0], maps[0]) + AllMappedLines(media[1..], orders[1..], maps[1..])
  }

  function AllMapped(media: seq<Media>, maps: seq<set<int>>): seq<Media>
    requires |maps| == |media|
  {
    if media == [] then [] else [MappedMedia(media[0], maps[0])] + AllMapped(media[1..], maps[1..])
  }

  lemma {:induction false} AllMappedAt(media: seq<Media>, maps: seq<set<int>>)
    requires |maps| == |media|
    ensures |AllMapped(media, maps)| == |media|
    ensures forall i | 0 <= i < |media| :: AllMapped(media, maps)[i] == MappedMedia(media[i], maps[i])
  {
    if media != [] {
      AllMappedAt(media[1..], maps[1..]);
    }
  }

  lemma {:induction false} AllMediaParsed(net: Network, acc: seq<Media>, media: seq<Media>, orders: seq<seq<string>>,
                                          maps: seq<set<int>>)
    requires AllList(orders, media) && |maps| == |media| && (forall m <- media :: GoodMedia(net, m))
    ensures WellShaped(AllMappedLines(media, orders, maps))
    ensures ParseMediaLines(net, acc, AllMappedLines(media, orders, maps)) == if HaveCodecs(media)
      then Read(acc + AllMapped(media, maps)) else Nothing
    decreases |media|
  {
    if media == [] {
      assert acc + AllMapped(media, maps) == acc;
    } else {
      var m, rest := media[0], AllMappedLines(media[1..], orders[1..], maps[1..]);
      assert m in media;
      AllMediaParsed(net, acc + [MappedMedia(m, maps[0])], media[1..], orders[1..], maps[1..]);
      MediaParsed(net, acc, m, orders[0], maps[0], rest);
      Regroup(acc, [MappedMedia(m, maps[0])], AllMapped(media[1..], maps[1..]));
      assert HaveCodecs(media) <==> m.codecs != [] && HaveCodecs(media[1..]);
    }
  }

  lemma MappedLinesGood(net: Network, m: Media, order: seq<string>, mapped: set<int>)
    requires GoodMedia(net, m) && Lists(order, m.attributes)
    ensures forall l <- MappedLines(m, order, mapped) :: GoodLine(l)
    ensures MappedLines(m, order, mapped) != [] && MappedLines(m, order, mapped)[0] == MediaLine(m)
    ensures MediaLine(m) != "" && MediaLine(m)[0] == 'm'
  {
    MediaLineGood(net, m);
    if m.address.Some? { ConnectionGood(net, m.address.value); }
    SomeMapLinesGood(m.codecs, mapped);
    AttributeLinesGood(m.attributes, order);
  }

  lemma {:induction false} AllMappedLinesGood(net: Network, media: seq<Media>, orders: seq<seq<string>>,
                                              maps: seq<set<int>>)
    requires AllList(orders, media) && |maps| == |media| && forall m <- media :: GoodMedia(net, m)
    ensures forall l <- AllMappedLines(media, orders, maps) :: GoodLine(l)
    ensures media != [] ==>
      AllMappedLines(media, orders, maps) != [] && AllMappedLines(media, orders, maps)[0][0] == 'm'
  {
    if media != [] {
      assert media[0] in media;
      MappedLinesGood(net, media[0], orders[0], maps[0]);
      AllMappedLinesGood(net, media[1..], orders[1..], maps[1..]);
    }
  }

  /** The printed form of a session in which only some codecs have an rtpmap line. */
  function MappedText(s: Session, order: seq<string>, orders: seq<seq<string>>, maps: seq<set<int>>): string
    requires Lists(order, s.attributes) && AllList(orders, s.media) && |maps| == |s.media|
  {
    Ended(HeaderLines(s) + AttributeLines(s.attributes, order) + AllMappedLines(s.media, orders, maps))
  }

  function MappedSession(s: Session, maps: seq<set<int>>): Session
    requires |maps| == |s.media|
  {
    s.(media := WithAddresses(AllMapped(s.media, maps), s.address))
  }

  lemma ParseMappedText(net: Network, s: Session, order: seq<string>, orders: seq<seq<string>>, maps: seq<set<int>>)
    requires GoodSession(net, s) && Lists(order, s.attributes) && AllList(orders, s.media) && |maps| == |s.media|
    ensures ParseText(net, MappedText(s, order, orders, maps)) == if s.media != [] && HaveCodecs(s.media)
      then Read(MappedSession(s, maps)) else Nothing
  {
    var media := AllMappedLines(s.media, orders, maps);
    TextRead(net, s, order, orders, maps);
    HeaderParsed(net, s, AttributeLines(s.attributes, order) + media);
    TailParsed(net, s, order, orders, maps);
    MediaPartParsed(net, s, orders, maps);
  }

  lemma MediaPartParsed(net: Network, s: Session, orders: seq<seq<string>>, maps: seq<set<int>>)
    requires GoodSession(net, s) && AllList(orders, s.media) && |maps| == |s.media|
    ensures ParseMediaPart(net, s.(media := []), AllMappedLines(s.media, orders, maps)) == if HaveCodecs(s.media)
      then Read(MappedSession(s, maps)) else Nothing
  {
    var lines, media := AllMappedLines(s.media, orders, maps), AllMapped(s.media, maps);
    AllMediaParsed(net, [], s.media, orders, maps);
    assert [] + media == media;
    PartParsed(net, s.(media := []), lines, if HaveCodecs(s.media) then Read(media) else Nothing);
  }

  lemma PartParsed(net: Network, s: Session, lines: seq<string>, media: Reading<seq<Media>>)
    requires WellShaped(lines) && ParseMediaLines(net, [], lines) == media && !media.Thrown?
    ensures ParseMediaPart(net, s, lines) == if media.Read?
      then Read(s.(media := WithAddresses(media.value, s.address))) else Nothing
  {}

  /** Offers may leave out the rtpmap lines of static payload types. With an rtpmap line for some codecs
      only, each codec without one is called PCMU for payload type 0, PCMA for 8, and otherwise
      unsupported; everything else comes back as printed. */
  lemma ParsePartlyMapped(net: Network, s: Session, order: seq<string>, orders: seq<seq<string>>, maps: seq<set<int>>)
    returns (r: Session)
    requires GoodSession(net, s) && Lists(order, s.attributes) && AllList(orders, s.media) && |maps| == |s.media|
    requires s.media != [] && HaveCodecs(s.media)
    ensures ParseText(net, MappedText(s, order, orders, maps)) == Read(r)
    ensures r == s.(media := r.media) && |r.media| == |s.media|
    ensures forall i | 0 <= i < |s.media| ::
      && r.media[i].kind == s.media[i].kind && r.media[i].port == s.media[i].port
      && r.media[i].address == Some(if s.media[i].address.Some? then s.media[i].address.value else s.address)
      && r.media[i].attributes.Keys == s.media[i].attributes.Keys && |r.media[i].codecs| == |s.media[i].codecs|
    ensures forall i, j | 0 <= i < |s.media| && 0 <= j < |s.media[i].codecs| ::
      var c := s.media[i].codecs[j];
      r.media[i].codecs[j] == Codec(c.payloadType,
        if c.payloadType in maps[i] then c.name
        else if c.payloadType == 0 then "PCMU" else if c.payloadType == 8 then "PCMA" else "unsupported")
  {
    ParseMappedText(net, s, order, orders, maps);
    AllMappedAt(s.media, maps);
    r := MappedSession(s, maps);
    forall i | 0 <= i < |s.media|
      ensures r.media[i] == WithAddress(MappedMedia(s.media[i], maps[i]), s.address)
    {}
  }

  /** All payload types have an rtpmap line. */
  function FullMaps(media: seq<Media>): seq<set<int>> {
    seq(|media|, i requires 0 <= i < |media| => set c <- media[i].codecs :: c.payloadType)
  }

  lemma {:induction false} FullyMapped(media: seq<Media>, orders: seq<seq<string>>)
    requires AllList(orders, media)
    ensures AllMappedLines(media, orders, FullMaps(media)) == AllMediaLines(media, orders)
    ensures AllMapped(media, FullMaps(media)) == ExpectedAll(media)
  {
    if media != [] {
      var maps := FullMaps(media);
      assert maps[1..] == FullMaps(media[1..]);
      FullyMapped(media[1..], orders[1..]);
      SomeMapLinesAll(media[0].codecs, maps[0]);
      assert Known(media[0].codecs, maps[0], |media[0].codecs|) == media[0].codecs;
    }
  }

  /** The parser undoes the printer: all of user, id, version, address, name, attributes, media,
      ports, codecs in order, and media addresses or else the one of the session. It gives nothing
      back exactly if there is no media, or one without a codec. */
  lemma ParsePrintedSession(net: Network, s: Session, order: seq<string>, orders: seq<seq<string>>)
    requires GoodSession(net, s) && Lists(order, s.attributes) && AllList(orders, s.media)
    ensures ParseText(net, SessionText(s, order, orders)) == if s.media != [] && HaveCodecs(s.media)
      then Read(Expected(s)) else Nothing
  {
    TextIsLines(s, order, orders);
    FullyMapped(s.media, orders);
    ParseMappedText(net, s, order, orders, FullMaps(s.media));
  }

  lemma TailParsed(net: Network, s: Session, order: seq<string>, orders: seq<seq<string>>, maps: seq<set<int>>)
    requires GoodSession(net, s) && Lists(order, s.attributes) && AllList(orders, s.media) && |maps| == |s.media|
    ensures var start := Session(s.username, s.id, s.version, s.address, s.name, map[], []);
      var media := AllMappedLines(s.media, orders, maps);
      var tail := AttributeLines(s.attributes, order) + media;
      ParseSessionLines(net, start, [ConnectionLine(s.address), "t=0 0"] + tail)
        == if s.media == [] then Nothing else Read((s.(media := []), media))
  {
    var start := Session(s.username, s.id, s.version, s.address, s.name, map[], []);
    var media := AllMappedLines(s.media, orders, maps);
    SessionLevelParsed(net, s, start, AttributeLines(s.attributes, order) + media);
    AttributesParsed(net, start, s.attributes, order, media);
    CollectedMap(s.attributes, order);
    AllMappedLinesGood(net, s.media, orders, maps);
  }

  lemma TextRead(net: Network, s: Session, order: seq<string>, orders: seq<seq<string>>, maps: seq<set<int>>)
    requires GoodSession(net, s) && Lists(order, s.attributes) && AllList(orders, s.media) && |maps| == |s.media|
    ensures MappedText(s, order, orders, maps) != ""
    ensures ReadLines(MappedText(s, order, orders, maps))
      == HeaderLines(s) + (AttributeLines(s.attributes, order) + AllMappedLines(s.media, orders, maps))
  {
    var media := AllMappedLines(s.media, orders, maps);
    var lines := HeaderLines(s) + AttributeLines(s.attributes, order) + media;
    Regroup(HeaderLines(s), AttributeLines(s.attributes, order), media);
    HeaderLinesGood(net, s);
    AttributeLinesGood(s.attributes, order);
    AllMappedLinesGood(net, s.media, orders, maps);
    ReadPrintedLines(lines);
    assert lines[0] == "v=0";
  }

  lemma SessionLevelParsed(net: Network, s: Session, start: Session, tail: seq<string>)
    requires GoodAddress(net, s.address) && start.address == s.address
    ensures ParseSessionLines(net, start, [ConnectionLine(s.address), "t=0 0"] + tail)
         == ParseSessionLines(net, start, tail)
  {
    var lines := [ConnectionLine(s.address), "t=0 0"] + tail;
    ConnectionParsed(net, s.address);
    assert start.(address := s.address) == start;
    assert lines[1..] == ["t=0 0"] + tail && (["t=0 0"] + tail)[1..] == tail;
  }
}
