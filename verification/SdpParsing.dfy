/** The SDP parser, line by line. */
module SdpParsing {
  import opened Wrappers
  import opened Text
  import opened Sdp

  /** What a step of the parser gives: a value, the answer null, or an exception. */
  datatype Reading<+T> = Read(value: T) | Nothing | Thrown

  /** How host names are looked up. Without a name the address is that of the loopback interface. */
  datatype Network = Network(lookup: map<string, Address>, loopback: Address) {
    function ByName(host: Option<string>): Reading<Address> {
      if host.None? then Read(loopback)
      else if host.value in lookup then Read(lookup[host.value])
      else Thrown
    }
  }

  predicate Starts(line: string, type_: char) {
    |line| >= 2 && line[0] == type_ && line[1] == '='
  }

  /** The address in the value of a connection line. */
  function ParseConnection(value: string): Option<string> {
    var tokens := Split(value);
    if |tokens| != 3 then None else Some(tokens[2])
  }

  function ParseOrigin(net: Network, line: string): Reading<Session> {
    if |line| < 3 || !Starts(line, 'o') then Nothing
    else
      var tokens := Split(line[2..]);
      if |tokens| != 6 then Nothing
      else
        var id, version, address := ParseInt(tokens[1], 64), ParseInt(tokens[2], 64), net.ByName(Some(tokens[5]));
        if id.None? || version.None? || !address.Read? then Thrown
        else Read(Session(tokens[0], id.value, version.value, address.value, "", map[], []))
  }

  /** The three lines that every description starts with. */
  function ParseHeader(net: Network, lines: seq<string>): Reading<Session> {
    if lines == [] then Thrown
    else if |lines[0]| < 3 || !Starts(lines[0], 'v') || lines[0][2] != '0' then Nothing
    else if |lines| < 2 then Thrown
    else
      var s := ParseOrigin(net, lines[1]);
      if !s.Read? then s
      else if |lines| < 3 then Thrown
      else if |lines[2]| < 3 || !Starts(lines[2], 's') then Nothing
      else Read(s.value.(name := lines[2][2..]))
  }

  /** A line of the session level: an address, an attribute, or something that is passed over. */
  function ParseSessionLine(net: Network, s: Session, line: string): Reading<Session>
    requires line != ""
  {
    if |line| > 3 && Starts(line, 'c') then
      var connection := ParseConnection(line[2..]);
      if connection.None? then Read(s)
      else
        var address := net.ByName(connection);
        if address.Read? then Read(s.(address := address.value)) else Thrown
    else if |line| > 3 && Starts(line, 'a') then
      var value := line[2..];
      var pos := IndexOf(value, ':');
      if pos > -1 then Read(s.(attributes := s.attributes[value[..pos] := value[pos + 1..]]))
      else Read(s.(attributes := s.attributes[value := ""]))
    else Read(s)
  }

  /** The session level up to the first media line. */
  function ParseSessionLines(net: Network, s: Session, lines: seq<string>): Reading<(Session, seq<string>)>
    ensures var r := ParseSessionLines(net, s, lines);
      r.Read? ==> r.value.1 != [] && r.value.1[0] != "" && r.value.1[0][0] == 'm'
    decreases |lines|
  {
    if lines == [] then Nothing
    else if lines[0] == "" then Thrown
    else if lines[0][0] == 'm' then Read((s, lines))
    else
      var next := ParseSessionLine(net, s, lines[0]);
      if next.Read? then ParseSessionLines(net, next.value, lines[1..]) else Thrown
  }

  /** Every line from the first media line on has a type, an equals sign and a value. */
  predicate WellShaped(lines: seq<string>) {
    forall l <- lines :: |l| >= 3 && l[1] == '='
  }

  function DefaultName(payloadType: int): string {
    if payloadType == 0 then "PCMU" else if payloadType == 8 then "PCMA" else "unsupported"
  }

  function ParseCodecs(tokens: seq<string>): Reading<seq<Codec>> {
    if tokens == [] then Read([])
    else
      var payloadType, rest := ParseInt(tokens[0], 32), ParseCodecs(tokens[1..]);
      if payloadType.None? || !rest.Read? then Thrown
      else Read([Codec(payloadType.value, DefaultName(payloadType.value))] + rest.value)
  }

  function ParseMediaLine(value: string): Reading<Media> {
    var tokens := Split(value);
    if |tokens| < 4 then Nothing
    else
      var port, codecs := ParseInt(tokens[1], 32), ParseCodecs(tokens[3..]);
      if port.None? || !codecs.Read? then Thrown
      else Read(Media(tokens[0], None, map[], port.value, codecs.value))
  }

  /** The first codec with that payload type gets the name before the slash, if there is a slash. */
  function Renamed(codecs: seq<Codec>, payloadType: int, value: string): seq<Codec> {
    if codecs == [] then []
    else if codecs[0].payloadType == payloadType then
      var pos := IndexOf(value, '/');
      if pos > -1 then [codecs[0].(name := value[..pos])] + codecs[1..] else codecs
    else [codecs[0]] + Renamed(codecs[1..], payloadType, value)
  }

  /** An attribute of a media: the name of a codec if its value starts with a number and a blank. */
  function ParseMediaAttribute(m: Media, line: string): Media {
    var pos := IndexOf(line, ':');
    if pos == -1 then m.(attributes := m.attributes[line := ""])
    else
      var name, value := line[..pos], line[pos + 1..];
      var blank := IndexOf(value, ' ');
      if blank == -1 then m.(attributes := m.attributes[name := value])
      else
        var payloadType := ParseInt(value[..blank], 32);
        if payloadType.None? then m.(attributes := m.attributes[name := value])
        else m.(codecs := Renamed(m.codecs, payloadType.value, value[blank + 1..]))
  }

  /** One line of the media level: a new media, or something about the last one. */
  function ParseMediaLevel(net: Network, media: seq<Media>, line: string): Reading<seq<Media>>
    requires |line| >= 3 && line[1] == '='
  {
    var value := line[2..];
    if line[0] == 'm' then
      var m := ParseMediaLine(value);
      if m.Read? then Read(media + [m.value]) else if m.Nothing? then Nothing else Thrown
    else if media == [] then Thrown
    else
      var m := media[|media| - 1];
      if line[0] == 'c' then
        var address := net.ByName(ParseConnection(value));
        if address.Read? then Read(media[|media| - 1 := m.(address := Some(address.value))]) else Thrown
      else if line[0] == 'a' then Read(media[|media| - 1 := ParseMediaAttribute(m, value)])
      else Read(media)
  }

  function ParseMediaLines(net: Network, media: seq<Media>, lines: seq<string>): Reading<seq<Media>>
    requires WellShaped(lines)
    decreases |lines|
  {
    if lines == [] then Read(media)
    else
      var next := ParseMediaLevel(net, media, lines[0]);
      if next.Read? then ParseMediaLines(net, next.value, lines[1..]) else next
  }

  /** A media without an address of its own has the one of the session. */
  function WithAddress(m: Media, address: Address): Media {
    if m.address.None? then m.(address := Some(address)) else m
  }

  function WithAddresses(media: seq<Media>, address: Address): seq<Media> {
    seq(|media|, i requires 0 <= i < |media| => WithAddress(media[i], address))
  }

  /** The media level, and the addresses that are still missing. */
  function ParseMediaPart(net: Network, s: Session, rest: seq<string>): Reading<Session> {
    if !WellShaped(rest) then Nothing
    else
      var media := ParseMediaLines(net, [], rest);
      if media.Nothing? then Nothing
      else if media.Thrown? then Thrown
      else Read(s.(media := WithAddresses(media.value, s.address)))
  }

  function ParseLines(net: Network, lines: seq<string>): Reading<Session> {
    var header := ParseHeader(net, lines);
    if !header.Read? then header
    else
      var session := ParseSessionLines(net, header.value, lines[3..]);
      if session.Nothing? then Nothing
      else if session.Thrown? then Thrown
      else ParseMediaPart(net, session.value.0, session.value.1)
  }

  function ParseText(net: Network, body: string): Reading<Session> {
    if body == "" then Nothing else ParseLines(net, ReadLines(body))
  }

  /** `SdpParser.parse`, reading lines until there are none. */
  method Parse(net: Network, body: string) returns (r: Reading<Session>)
    ensures r == ParseText(net, body)
  {
    if body == "" {
      return Nothing;
    }
    var lines := ReadLines(body);
    var header := ParseHeader(net, lines);
    if !header.Read? {
      return header;
    }
    var s := header.value;
    var i := 3;
    while i < |lines| && lines[i] != "" && lines[i][0] != 'm'
      invariant 3 <= i <= |lines|
      invariant ParseSessionLines(net, s, lines[i..]) == ParseSessionLines(net, header.value, lines[3..])
    {
      assert lines[i..][1..] == lines[i + 1..];
      var next := ParseSessionLine(net, s, lines[i]);
      if !next.Read? {
        return Thrown;
      }
      s := next.value;
      i := i + 1;
    }
    if i == |lines| {
      return Nothing;
    }
    if lines[i] == "" {
      return Thrown;
    }
    var mediaLines := lines[i..];
    if !WellShaped(mediaLines) {
      return Nothing;
    }
    r := ParseMedia(net, s, mediaLines);
  }

  method ParseMedia(net: Network, s: Session, mediaLines: seq<string>) returns (r: Reading<Session>)
    requires WellShaped(mediaLines)
    ensures var media := ParseMediaLines(net, [], mediaLines);
      r == if media.Read? then Read(s.(media := WithAddresses(media.value, s.address))) else if media.Nothing?
        then Nothing else Thrown
  {
    var descriptions: seq<Media> := [];
    for j := 0 to |mediaLines|
      invariant ParseMediaLines(net, descriptions, mediaLines[j..]) == ParseMediaLines(net, [], mediaLines)
    {
      assert mediaLines[j..][1..] == mediaLines[j + 1..];
      var next := ParseMediaLevel(net, descriptions, mediaLines[j]);
      if !next.Read? {
        return if next.Nothing? then Nothing else Thrown;
      }
      descriptions := next.value;
    }
    ghost var parsed := descriptions;
    for j := 0 to |descriptions|
      invariant |descriptions| == |parsed|
      invariant forall k | 0 <= k < |parsed| ::
        descriptions[k] == if k < j then WithAddress(parsed[k], s.address) else parsed[k]
    {
      if descriptions[j].address.None? {
        descriptions := descriptions[j := descriptions[j].(address := Some(s.address))];
      }
    }
    assert descriptions == WithAddresses(parsed, s.address);
    r := Read(s.(media := descriptions));
  }
}
