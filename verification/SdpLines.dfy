/** What the SDP parser makes of each kind of line, in texts that no printer of this model has made. */
module SdpLines {
  import opened Wrappers
  import opened Text
  import opened Sdp
  import opened SdpParsing

  /** A line end may be LF or CR alone. */
  lemma OtherLineEnds(line: string, rest: string)
    requires OneLine(line)
    ensures ReadLines(line + "\n" + rest) == [line] + ReadLines(rest)
    ensures rest != "" && rest[0] != '\n' ==> ReadLines(line + "\r" + rest) == [line] + ReadLines(rest)
  {
    LineBefore(line, '\n', rest);
    LineBefore(line, '\r', rest);
    assert (line + "\n" + rest)[|line| + 1..] == rest && (line + "\r" + rest)[|line| + 1..] == rest;
  }

  lemma LineBefore(line: string, c: char, rest: string)
    requires OneLine(line) && IsBreak(c)
    ensures var s := line + [c] + rest; LineLength(s) == |line| && s[..|line|] == line && s[|line|] == c
  {
    var s := line + [c] + rest;
    assert s[|line|] == c;
    assert forall k | 0 <= k < |line| :: line[k] in line && s[k] == line[k];
  }

  /** A number that does not fit its type is refused, and so is text without digits. */
  lemma NumbersInRange(s: string, bits: nat)
    requires bits == 32 || bits == 64
    ensures ParseInt(s, bits).Some? ==> s != ""
    ensures bits == 32 && ParseInt(s, bits).Some? ==> -0x8000_0000 <= ParseInt(s, bits).value < 0x8000_0000
    ensures bits == 64 && ParseInt(s, bits).Some? ==>
      -0x8000_0000_0000_0000 <= ParseInt(s, bits).value < 0x8000_0000_0000_0000
    ensures ParseInt(s, 32).Some? ==> ParseInt(s, 64) == ParseInt(s, 32)
  {}

  // The header

  predicate OriginShaped(line: string) {
    "o=" <= line && |line| >= 3 && |Split(line[2..])| == 6
  }

  /** Id and version are longs, and the host is known. */
  predicate OriginReadable(net: Network, line: string)
    requires OriginShaped(line)
  {
    var tokens := Split(line[2..]);
    ParseInt(tokens[1], 64).Some? && ParseInt(tokens[2], 64).Some? && tokens[5] in net.lookup
  }

  /** The header is read exactly if there are three lines of the right shape; it throws exactly if one of
      them is missing, or the origin has a number or a host that cannot be read, before a line of the
      wrong shape has been met. */
  lemma HeaderRead(net: Network, lines: seq<string>)
    ensures ParseHeader(net, lines).Read? <==>
      && |lines| >= 3 && "v=0" <= lines[0] && OriginShaped(lines[1]) && OriginReadable(net, lines[1])
      && "s=" <= lines[2] && |lines[2]| >= 3
    ensures ParseHeader(net, lines).Thrown? <==>
      || lines == []
      || ("v=0" <= lines[0] && (|lines| == 1
          || (OriginShaped(lines[1]) && (|lines| == 2 || !OriginReadable(net, lines[1])))))
    ensures ParseHeader(net, lines).Read? ==>
      var tokens := Split(lines[1][2..]);
      ParseHeader(net, lines).value == Session(tokens[0], ParseInt(tokens[1], 64).value, ParseInt(tokens[2], 64).value,
                                               net.lookup[tokens[5]], lines[2][2..], map[], [])
  {
    if lines != [] { assert "v=0" <= lines[0] <==> |lines[0]| >= 3 && lines[0][..3] == "v=0"; }
  }

  // The session level

  /** A line of the session level that is neither an address nor an attribute changes nothing, and
      neither does one that is too short or an address with other than three parts. */
  lemma SessionLineIgnored(net: Network, s: Session, line: string)
    requires line != ""
    requires !("c=" <= line || "a=" <= line) || |line| <= 3 || ("c=" <= line && |Split(line[2..])| != 3)
    ensures ParseSessionLine(net, s, line) == Read(s)
  {}

  /** An address line gives the session its address, or fails if the host is unknown. */
  lemma SessionAddress(net: Network, s: Session, line: string)
    requires "c=" <= line && |line| > 3 && |Split(line[2..])| == 3
    ensures var host := Split(line[2..])[2];
      ParseSessionLine(net, s, line) == if host in net.lookup then Read(s.(address := net.lookup[host])) else Thrown
  {}

  /** An attribute line: what comes before the first colon is the name. */
  lemma SessionAttribute(net: Network, s: Session, name: string, value: string)
    requires ':' !in name
    ensures |name| + |value| > 0 ==>
      ParseSessionLine(net, s, "a=" + name + ":" + value) == Read(s.(attributes := s.attributes[name := value]))
    ensures |name| > 1 ==> ParseSessionLine(net, s, "a=" + name) == Read(s.(attributes := s.attributes[name := ""]))
  {
    var line := "a=" + name + ":" + value;
    assert line[2..] == name + [':'] + value;
    IndexAfter(name, ':', value);
    assert line[2..][..|name|] == name && line[2..][|name| + 1..] == value;
    assert ("a=" + name)[2..] == name;
  }

  /** Lines are taken one by one up to the first one of a media; an empty line or a failing one is an
      exception. */
  lemma SessionLevel(net: Network, s: Session, line: string, rest: seq<string>)
    ensures line != "" && line[0] == 'm' ==> ParseSessionLines(net, s, [line] + rest) == Read((s, [line] + rest))
    ensures line == "" ==> ParseSessionLines(net, s, [line] + rest) == Thrown
    ensures line != "" && line[0] != 'm' ==>
      var next := ParseSessionLine(net, s, line);
      ParseSessionLines(net, s, [line] + rest) ==
        if next.Read? then ParseSessionLines(net, next.value, rest) else Thrown
  {
    assert ([line] + rest)[1..] == rest;
  }

  /** Without a media line there is no session. */
  lemma {:induction false} NoMediaNoSession(net: Network, s: Session, lines: seq<string>)
    requires forall i | 0 <= i < |lines| :: lines[i] == "" || lines[i][0] != 'm'
    ensures !ParseSessionLines(net, s, lines).Read?
    decreases |lines|
  {
    if lines != [] && lines[0] != "" && ParseSessionLine(net, s, lines[0]).Read? {
      NoMediaNoSession(net, ParseSessionLine(net, s, lines[0]).value, lines[1..]);
    }
  }

  // The media level

  lemma {:induction false} CodecsRead(tokens: seq<string>)
    ensures ParseCodecs(tokens).Read? <==> forall i | 0 <= i < |tokens| :: ParseInt(tokens[i], 32).Some?
    ensures !ParseCodecs(tokens).Nothing?
    ensures ParseCodecs(tokens).Read? ==> |ParseCodecs(tokens).value| == |tokens| && forall i | 0 <= i < |tokens| ::
      var t := ParseInt(tokens[i], 32).value;
      ParseCodecs(tokens).value[i] ==
        Codec(t, if t == 0 then "PCMU" else if t == 8 then "PCMA" else "unsupported")
  {
    if tokens != [] {
      CodecsRead(tokens[1..]);
    }
  }

  /** A media line has a kind, a port, a transport and at least one payload type; port and payload types
      must be ints. */
  lemma MediaLineRead(value: string)
    ensures ParseMediaLine(value).Nothing? <==> |Split(value)| < 4
    ensures ParseMediaLine(value).Read? <==> var tokens := Split(value);
      |tokens| >= 4 && ParseInt(tokens[1], 32).Some? && forall i | 3 <= i < |tokens| :: ParseInt(tokens[i], 32).Some?
    ensures ParseMediaLine(value).Read? ==>
      var tokens, m := Split(value), ParseMediaLine(value).value;
      && m.kind == tokens[0] && m.port == ParseInt(tokens[1], 32).value && m.address == None && m.attributes == map[]
      && |m.codecs| == |tokens| - 3
      && forall i | 3 <= i < |tokens| :: m.codecs[i - 3].payloadType == ParseInt(tokens[i], 32).value
  {
    var tokens := Split(value);
    if |tokens| >= 4 {
      var types := tokens[3..];
      assert forall i | 3 <= i < |tokens| :: tokens[i] == types[i - 3];
      CodecsRead(types);
    }
  }

  /** An attribute of a media without a value, or with one that does not start with a number and a
      blank. */
  lemma MediaAttribute(m: Media, name: string, value: string)
    requires ':' !in name
    ensures ParseMediaAttribute(m, name) == m.(attributes := m.attributes[name := ""])
    ensures ' ' !in value || ParseInt(value[..IndexOf(value, ' ')], 32).None? ==>
      ParseMediaAttribute(m, name + ":" + value) == m.(attributes := m.attributes[name := value])
  {
    var line := name + ":" + value;
    assert line == name + [':'] + value;
    IndexAfter(name, ':', value);
    assert line[..|name|] == name && line[|name| + 1..] == value;
  }

  /** An attribute whose value starts with a number and a blank, under any name: the first codec with
      that payload type is called what stands before the slash. Without such a codec, or without a
      slash, nothing changes. */
  lemma MediaMapping(m: Media, name: string, number: string, rest: string, i: nat)
    requires ':' !in name && ' ' !in number && ParseInt(number, 32).Some? && i <= |m.codecs|
    requires forall k | 0 <= k < i :: m.codecs[k].payloadType != ParseInt(number, 32).value
    requires i < |m.codecs| ==> m.codecs[i].payloadType == ParseInt(number, 32).value
    ensures var after := ParseMediaAttribute(m, name + ":" + number + " " + rest);
      if i == |m.codecs| || '/' !in rest then after == m
      else after == m.(codecs := m.codecs[i := m.codecs[i].(name := rest[..IndexOf(rest, '/')])])
  {
    var value := number + " " + rest;
    var line := name + ":" + number + " " + rest;
    assert line == name + [':'] + value && value == number + [' '] + rest;
    IndexAfter(name, ':', value);
    IndexAfter(number, ' ', rest);
    assert line[|name| + 1..] == value && value[..|number|] == number && value[|number| + 1..] == rest;
    FirstRenamed(m.codecs, ParseInt(number, 32).value, rest, i);
  }

  lemma {:induction false} FirstRenamed(codecs: seq<Codec>, payloadType: int, rest: string, i: nat)
    requires i <= |codecs| && forall k | 0 <= k < i :: codecs[k].payloadType != payloadType
    requires i < |codecs| ==> codecs[i].payloadType == payloadType
    ensures Renamed(codecs, payloadType, rest) == if i == |codecs| || '/' !in rest then codecs
      else codecs[i := codecs[i].(name := rest[..IndexOf(rest, '/')])]
  {
    if i > 0 {
      FirstRenamed(codecs[1..], payloadType, rest, i - 1);
      assert codecs == [codecs[0]] + codecs[1..];
    }
  }

  /** The other lines of the media level: an address for the last media, that of the loopback interface
      if it has other than three parts; a line of another type changes nothing. Before the first media
      only a media line may come. */
  lemma MediaLevel(net: Network, media: seq<Media>, line: string)
    requires |line| >= 3 && line[1] == '='
    ensures line[0] != 'm' && media == [] ==> ParseMediaLevel(net, media, line) == Thrown
    ensures line[0] !in {'m', 'c', 'a'} && media != [] ==> ParseMediaLevel(net, media, line) == Read(media)
    ensures line[0] == 'c' && media != [] ==>
      var last, tokens := |media| - 1, Split(line[2..]);
      if |tokens| != 3 then
        ParseMediaLevel(net, media, line) == Read(media[last := media[last].(address := Some(net.loopback))])
      else if tokens[2] in net.lookup then
        ParseMediaLevel(net, media, line) == Read(media[last := media[last].(address := Some(net.lookup[tokens[2]]))])
      else ParseMediaLevel(net, media, line) == Thrown
    ensures line[0] == 'm' ==>
      var m, after := ParseMediaLine(line[2..]), ParseMediaLevel(net, media, line);
      if m.Read? then after == Read(media + [m.value]) else after.Nothing? == m.Nothing? && !after.Read?
  {}

  /** From the first media line on every line must have a type, an equals sign and a value; else there is
      no session, whatever the lines are. */
  lemma MediaPartRefused(net: Network, s: Session, rest: seq<string>, i: nat)
    requires i < |rest| && (|rest[i]| < 3 || rest[i][1] != '=')
    ensures ParseMediaPart(net, s, rest) == Nothing
  {
    assert rest[i] in rest;
  }
}
