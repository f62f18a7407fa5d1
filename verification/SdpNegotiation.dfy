/** How two ends settle on a codec: the answer to an offer, and what each end picks. */
module SdpNegotiation {
  import opened Wrappers
  import opened Text
  import opened Sdp
  import opened SdpParsing
  import opened SdpRoundTrip

  /** Where to send media, and in which codec. */
  datatype Destination = Destination(host: string, port: int, codec: Codec)

  const PCMU := Codec(0, "PCMU")
  const PCMA := Codec(8, "PCMA")
  const TELEPHONE_EVENT := Codec(101, "telephone-event")
  const SUPPORTED := [PCMU, PCMA, TELEPHONE_EVENT]

  /** `Codec.equals`: codecs are told by name, whatever its case and the payload type. */
  predicate SameCodec(a: Codec, b: Codec) {
    EqualsIgnoreCase(b.name, a.name)
  }

  predicate Supported(c: Codec) {
    exists i | 0 <= i < |SUPPORTED| :: SameCodec(c, SUPPORTED[i])
  }

  predicate Voice(c: Codec) {
    EqualsIgnoreCase(c.name, "PCMU") || EqualsIgnoreCase(c.name, "PCMA")
  }

  predicate Audio(m: Media) {
    m.kind == "audio"
  }

  /** All codecs of the audio media, in order. */
  function AudioCodecs(media: seq<Media>): seq<Codec> {
    if media == [] then [] else (if Audio(media[0]) then media[0].codecs else []) + AudioCodecs(media[1..])
  }

  function OnlySupported(codecs: seq<Codec>): seq<Codec> {
    if codecs == [] then [] else (if Supported(codecs[0]) then [codecs[0]] else []) + OnlySupported(codecs[1..])
  }

  function FirstVoice(codecs: seq<Codec>): Option<Codec> {
    if codecs == [] then None else if Voice(codecs[0]) then Some(codecs[0]) else FirstVoice(codecs[1..])
  }

  /** The codec that a description leads to. */
  function Picked(s: Session): Option<Codec> {
    FirstVoice(AudioCodecs(s.media))
  }

  /** A voice codec is called PCMU or PCMA, in letters of any case. */
  lemma VoiceMeans(c: Codec)
    ensures Voice(c) <==>
      && |c.name| == 4 && (c.name[0] == 'P' || c.name[0] == 'p') && (c.name[1] == 'C' || c.name[1] == 'c')
      && (c.name[2] == 'M' || c.name[2] == 'm')
      && (c.name[3] == 'U' || c.name[3] == 'u' || c.name[3] == 'A' || c.name[3] == 'a')
  {
    if |c.name| == 4 {
      LowerIs(c.name[0], 'P');
      LowerIs(c.name[1], 'C');
      LowerIs(c.name[2], 'M');
      LowerIs(c.name[3], 'U');
      LowerIs(c.name[3], 'A');
      assert "PCMU"[0] == "PCMA"[0] == 'P' && "PCMU"[1] == "PCMA"[1] == 'C' && "PCMU"[2] == "PCMA"[2] == 'M';
      assert "PCMU"[3] == 'U' && "PCMA"[3] == 'A';
    }
  }

  lemma LowerIs(c: char, upper: char)
    requires 'A' <= upper <= 'Z'
    ensures Lower(c) == Lower(upper) <==> c == upper || c == upper + ('a' - 'A')
  {}

  lemma SupportedMeans(c: Codec)
    ensures Supported(c) <==>
      || EqualsIgnoreCase("PCMU", c.name) || EqualsIgnoreCase("PCMA", c.name)
      || EqualsIgnoreCase("telephone-event", c.name)
  {
    assert SUPPORTED[0].name == "PCMU" && SUPPORTED[1].name == "PCMA" && SUPPORTED[2].name == "telephone-event";
    assert SameCodec(c, SUPPORTED[0]) <==> EqualsIgnoreCase("PCMU", c.name);
    assert SameCodec(c, SUPPORTED[1]) <==> EqualsIgnoreCase("PCMA", c.name);
    assert SameCodec(c, SUPPORTED[2]) <==> EqualsIgnoreCase("telephone-event", c.name);
  }

  lemma VoiceIsSupported(c: Codec)
    ensures Voice(c) ==> Supported(c)
  {
    if EqualsIgnoreCase(c.name, "PCMU") { assert SameCodec(c, SUPPORTED[0]); }
    if EqualsIgnoreCase(c.name, "PCMA") { assert SameCodec(c, SUPPORTED[1]); }
  }

  lemma {:induction false} FirstVoiceJoined(a: seq<Codec>, b: seq<Codec>)
    ensures FirstVoice(a + b) == if FirstVoice(a).Some? then FirstVoice(a) else FirstVoice(b)
  {
    if a == [] {
      assert a + b == b;
    } else {
      assert (a + b)[1..] == a[1..] + b;
      FirstVoiceJoined(a[1..], b);
    }
  }

  lemma {:induction false} FirstVoiceKept(codecs: seq<Codec>)
    ensures FirstVoice(OnlySupported(codecs)) == FirstVoice(codecs)
  {
    if codecs != [] {
      VoiceIsSupported(codecs[0]);
      FirstVoiceKept(codecs[1..]);
      if Supported(codecs[0]) {
        assert OnlySupported(codecs)[1..] == OnlySupported(codecs[1..]);
      } else {
        assert OnlySupported(codecs) == OnlySupported(codecs[1..]);
      }
    }
  }

  lemma {:induction false} OnlySupportedJoined(a: seq<Codec>, b: seq<Codec>)
    ensures OnlySupported(a + b) == OnlySupported(a) + OnlySupported(b)
  {
    if a == [] {
      assert a + b == b;
    } else {
      var first := if Supported(a[0]) then [a[0]] else [];
      assert (a + b)[1..] == a[1..] + b;
      OnlySupportedJoined(a[1..], b);
      assert OnlySupported(a + b) == first + (OnlySupported(a[1..]) + OnlySupported(b));
    }
  }

  lemma {:induction false} AudioCodecsJoined(a: seq<Media>, b: seq<Media>)
    ensures AudioCodecs(a + b) == AudioCodecs(a) + AudioCodecs(b)
  {
    if a == [] {
      assert a + b == b;
    } else {
      var first := if Audio(a[0]) then a[0].codecs else [];
      assert (a + b)[1..] == a[1..] + b;
      AudioCodecsJoined(a[1..], b);
      assert AudioCodecs(a + b) == first + (AudioCodecs(a[1..]) + AudioCodecs(b));
    }
  }

  lemma {:induction false} NoneMeansNoVoice(codecs: seq<Codec>)
    ensures FirstVoice(codecs).None? <==> forall c <- codecs :: !Voice(c)
    ensures FirstVoice(codecs).Some? ==> FirstVoice(codecs).value in codecs && Voice(FirstVoice(codecs).value)
  {
    if codecs != [] {
      NoneMeansNoVoice(codecs[1..]);
      assert forall c :: c in codecs <==> c == codecs[0] || c in codecs[1..];
    }
  }

  /** Not an audio media, or one without PCMU and PCMA. */
  ghost predicate NoVoice(m: Media) {
    m.kind == "audio" ==> forall j | 0 <= j < |m.codecs| :: !Voice(m.codecs[j])
  }

  /** `getMediaDestination`: the first PCMU or PCMA codec of an audio media, or nothing if there is
      none; it goes to that media's address, or else to the one of the session. */
  method GetMediaDestination(s: Session) returns (d: Option<Destination>)
    ensures d.Some? <==> Picked(s).Some?
    ensures d.Some? ==> d.value.codec == Picked(s).value
    ensures d.Some? ==> exists i, j | 0 <= i < |s.media| && 0 <= j < |s.media[i].codecs| ::
      && s.media[i].kind == "audio" && Voice(s.media[i].codecs[j]) && d.value.codec == s.media[i].codecs[j]
      && (forall k | 0 <= k < j :: !Voice(s.media[i].codecs[k])) && (forall k | 0 <= k < i :: NoVoice(s.media[k]))
      && d.value.port == s.media[i].port
      && d.value.host == (if s.media[i].address.Some? then s.media[i].address.value.host else s.address.host)
    ensures d.None? ==> forall i | 0 <= i < |s.media| :: NoVoice(s.media[i])
  {
    for i := 0 to |s.media|
      invariant FirstVoice(AudioCodecs(s.media[..i])).None?
      invariant forall k | 0 <= k < i :: NoVoice(s.media[k])
    {
      var m := s.media[i];
      AudioUpTo(s.media, i);
      if m.kind == "audio" {
        for j := 0 to |m.codecs|
          invariant FirstVoice(m.codecs[..j]).None?
          invariant forall k | 0 <= k < j :: !Voice(m.codecs[k])
        {
          var c := m.codecs[j];
          VoiceUpTo(m.codecs, j);
          if Supported(c) {
            if EqualsIgnoreCase(c.name, "PCMU") || EqualsIgnoreCase(c.name, "PCMA") {
              var address := if m.address.Some? then m.address.value else s.address;
              return Some(Destination(address.host, m.port, c));
            }
          }
          VoiceIsSupported(c);
        }
        assert m.codecs[..|m.codecs|] == m.codecs;
      }
    }
    assert s.media[..|s.media|] == s.media;
    d := None;
  }

  lemma AudioUpTo(media: seq<Media>, i: nat)
    requires i < |media| && FirstVoice(AudioCodecs(media[..i])).None?
    ensures FirstVoice(AudioCodecs(media[..i + 1])) == if Audio(media[i]) then FirstVoice(media[i].codecs) else None
    ensures Audio(media[i]) && FirstVoice(media[i].codecs).Some? ==>
      FirstVoice(AudioCodecs(media)) == FirstVoice(media[i].codecs)
  {
    var own := if Audio(media[i]) then media[i].codecs else [];
    assert media[..i + 1] == media[..i] + [media[i]] && [media[i]][1..] == [];
    AudioCodecsJoined(media[..i], [media[i]]);
    assert AudioCodecs([media[i]]) == own;
    FirstVoiceJoined(AudioCodecs(media[..i]), own);
    assert media == media[..i + 1] + media[i + 1..];
    AudioCodecsJoined(media[..i + 1], media[i + 1..]);
    FirstVoiceJoined(AudioCodecs(media[..i + 1]), AudioCodecs(media[i + 1..]));
  }

  lemma VoiceUpTo(codecs: seq<Codec>, j: nat)
    requires j < |codecs| && FirstVoice(codecs[..j]).None?
    ensures FirstVoice(codecs[..j + 1]) == if Voice(codecs[j]) then Some(codecs[j]) else None
    ensures Voice(codecs[j]) ==> FirstVoice(codecs) == Some(codecs[j])
  {
    assert codecs[..j + 1] == codecs[..j] + [codecs[j]] && [codecs[j]][1..] == [];
    FirstVoiceJoined(codecs[..j], [codecs[j]]);
    assert codecs == codecs[..j] + codecs[j..];
    FirstVoiceJoined(codecs[..j], codecs[j..]);
  }

  /** `createSessionDescription`: an offer of everything supported, or the answer to an offer. */
  method CreateSessionDescription(offer: Option<Session>, id: int, version: int, local: Address, port: int)
    returns (s: Session)
    ensures s.address == local && s.attributes == map[] && s.username == "user1" && s.name == "-" && s.id == id
    ensures s.version == version
    ensures |s.media| == 1
    ensures s.media[0] == Media("audio", None, map["sendrecv" := ""], port,
      if offer.None? then [Codec(0, "PCMU"), Codec(8, "PCMA"), Codec(101, "telephone-event")]
      else OnlySupported(AudioCodecs(offer.value.media)))
  {
    var codecs: seq<Codec>;
    if offer.None? {
      codecs := SUPPORTED;
    } else {
      codecs := [];
      var media := offer.value.media;
      for i := 0 to |media|
        invariant codecs == OnlySupported(AudioCodecs(media[..i]))
      {
        ghost var before := codecs;
        assert media[..i + 1] == media[..i] + [media[i]] && [media[i]][1..] == [];
        AudioCodecsJoined(media[..i], [media[i]]);
        OnlySupportedJoined(AudioCodecs(media[..i]), AudioCodecs([media[i]]));
        if media[i].kind == "audio" {
          codecs := AddSupported(codecs, media[i].codecs);
          assert AudioCodecs([media[i]]) == media[i].codecs;
        }
      }
      assert media[..|media|] == media;
    }
    s := Session("user1", id, version, local, "-", map[], [Media("audio", None, map["sendrecv" := ""], port, codecs)]);
  }

  method AddSupported(start: seq<Codec>, more: seq<Codec>) returns (codecs: seq<Codec>)
    ensures codecs == start + OnlySupported(more)
  {
    codecs := start;
    for j := 0 to |more|
      invariant codecs == start + OnlySupported(more[..j])
    {
      assert more[..j + 1] == more[..j] + [more[j]] && [more[j]][1..] == [];
      OnlySupportedJoined(more[..j], [more[j]]);
      if Supported(more[j]) {
        codecs := codecs + [more[j]];
      }
    }
    assert more[..|more|] == more;
  }

  /** What `createSessionDescription` answers. */
  ghost predicate Answers(answer: Session, offer: Session, net: Network, port: int) {
    && answer.username == "user1" && answer.name == "-" && InRange(answer.id, 64) && InRange(answer.version, 64)
    && GoodAddress(net, answer.address) && answer.attributes == map[] && InRange(port, 32)
    && answer.media == [Media("audio", None, map["sendrecv" := ""], port, OnlySupported(AudioCodecs(offer.media)))]
  }

  /** Both ends pick the same codec, and neither finds one exactly if the offer has no PCMU or PCMA
      in an audio media. */
  lemma EndsAgree(offer: Session, answer: Session)
    requires |answer.media| == 1 && Audio(answer.media[0])
    requires answer.media[0].codecs == OnlySupported(AudioCodecs(offer.media))
    ensures Picked(answer) == Picked(offer)
    ensures Picked(offer).None? <==> forall c <- AudioCodecs(offer.media) :: !Voice(c)
  {
    FirstVoiceKept(AudioCodecs(offer.media));
    NoneMeansNoVoice(AudioCodecs(offer.media));
    assert answer.media[1..] == [] && Audio(answer.media[0]);
    assert AudioCodecs(answer.media) == answer.media[0].codecs + [];
    assert answer.media[0].codecs + [] == answer.media[0].codecs;
  }

  lemma SupportedNameIsClean(c: Codec)
    requires Supported(c)
    ensures OneLine(c.name) && '/' !in c.name
  {
    var i :| 0 <= i < |SUPPORTED| && SameCodec(c, SUPPORTED[i]);
    forall k | 0 <= k < |c.name| ensures !IsBreak(c.name[k]) && c.name[k] != '/' {
      assert Lower(SUPPORTED[i].name[k]) == Lower(c.name[k]);
    }
  }

  lemma {:induction false} OnlySupportedElements(codecs: seq<Codec>)
    ensures forall c <- OnlySupported(codecs) :: c in codecs && Supported(c)
  {
    if codecs != [] {
      OnlySupportedElements(codecs[1..]);
    }
  }

  /** An answer is well formed, so that it survives printing and parsing. */
  lemma AnswerIsGood(offer: Session, answer: Session, net: Network, port: int)
    requires Answers(answer, offer, net, port) && (forall c <- AudioCodecs(offer.media) :: InRange(c.payloadType, 32))
    requires DistinctTypes(OnlySupported(AudioCodecs(offer.media)))
    ensures GoodSession(net, answer) && Lists([], answer.attributes) && AllList([["sendrecv"]], answer.media)
  {
    assert GoodMedia(net, answer.media[0]) by {
      OnlySupportedElements(AudioCodecs(offer.media));
      forall c | c in answer.media[0].codecs ensures GoodCodec(c) { SupportedNameIsClean(c); }
      assert GoodMediaAttribute("sendrecv", "");
    }
  }

  /** The text of an answer. */
  function AnswerText(answer: Session): string
    requires Lists([], answer.attributes) && AllList([["sendrecv"]], answer.media)
  {
    SessionText(answer, [], [["sendrecv"]])
  }

  /** The offering end reads the answer from its text, and still picks the codec that the answering
      end has picked. */
  lemma EndsAgreeOnTheWire(offer: Session, answer: Session, net: Network, port: int)
    requires Answers(answer, offer, net, port) && (forall c <- AudioCodecs(offer.media) :: InRange(c.payloadType, 32))
    requires OnlySupported(AudioCodecs(offer.media)) != [] && DistinctTypes(OnlySupported(AudioCodecs(offer.media)))
    ensures Lists([], answer.attributes) && AllList([["sendrecv"]], answer.media)
    ensures var received := ParseText(net, AnswerText(answer));
      received.Read? && Picked(received.value) == Picked(offer)
  {
    AnswerIsGood(offer, answer, net, port);
    ParsePrintedSession(net, answer, [], [["sendrecv"]]);
    EndsAgree(offer, answer);
    SameMediaPick(Expected(answer), answer);
  }

  lemma SameMediaPick(s: Session, t: Session)
    requires |t.media| == 1 && s == Expected(t)
    ensures Picked(s) == Picked(t)
  {
    assert ExpectedAll(t.media) == [ExpectedMedia(t.media[0])];
    assert s.media[1..] == [] && t.media[1..] == [];
  }

  lemma AnswerParsed(offer: Session, answer: Session, net: Network, port: int)
    requires Answers(answer, offer, net, port) && (forall c <- AudioCodecs(offer.media) :: InRange(c.payloadType, 32))
    requires DistinctTypes(OnlySupported(AudioCodecs(offer.media)))
    ensures Lists([], answer.attributes) && AllList([["sendrecv"]], answer.media)
    ensures ParseText(net, AnswerText(answer)) == if answer.media[0].codecs != [] then Read(Expected(answer))
      else Nothing
  {
    AnswerIsGood(offer, answer, net, port);
    ParsePrintedSession(net, answer, [], [["sendrecv"]]);
  }

  /** What the offering end makes of it. */
  lemma AnswerExpected(answer: Session)
    requires |answer.media| == 1 && answer.media[0].address.None?
    ensures var s := Expected(answer);
      && Picked(s) == Picked(answer) && |s.media| == 1
      && s.media[0].port == answer.media[0].port && s.media[0].address == Some(answer.address)
  {
    SameMediaPick(Expected(answer), answer);
    assert answer.media == [answer.media[0]];
    assert ExpectedAll(answer.media) == [ExpectedMedia(answer.media[0])];
  }

  lemma NothingPicked(answer: Session)
    requires |answer.media| == 1 && answer.media[0].codecs == []
    ensures Picked(answer).None?
  {
    assert answer.media[1..] == [];
    assert AudioCodecs(answer.media) == [];
  }

  /** What the offering end reads in the answer, if anything. */
  lemma AnswerReceived(offer: Session, answer: Session, net: Network, port: int)
    requires Answers(answer, offer, net, port) && (forall c <- AudioCodecs(offer.media) :: InRange(c.payloadType, 32))
    requires DistinctTypes(OnlySupported(AudioCodecs(offer.media)))
    ensures Lists([], answer.attributes) && AllList([["sendrecv"]], answer.media)
    ensures var received := ParseText(net, AnswerText(answer));
      if received.Read? then
        && Picked(received.value) == Picked(offer) && |received.value.media| == 1
        && received.value.media[0].port == port && received.value.media[0].address == Some(answer.address)
      else Picked(offer).None?
  {
    AnswerParsed(offer, answer, net, port);
    EndsAgree(offer, answer);
    if answer.media[0].codecs == [] {
      NothingPicked(answer);
    } else {
      AnswerExpected(answer);
    }
  }

  /** The answering end picks a codec from the offer, and sends its answer. */
  method Answer(offer: Session, id: int, version: int, local: Address, port: int, ghost net: Network)
    returns (picked: Option<Destination>, text: string, ghost answer: Session)
    requires InRange(id, 64) && InRange(version, 64) && InRange(port, 32) && GoodAddress(net, local)
    requires (forall c <- AudioCodecs(offer.media) :: InRange(c.payloadType, 32))
    requires DistinctTypes(OnlySupported(AudioCodecs(offer.media)))
    ensures Answers(answer, offer, net, port) && answer.address == local
    ensures Lists([], answer.attributes) && AllList([["sendrecv"]], answer.media) && text == AnswerText(answer)
    ensures if picked.Some? then Picked(offer) == Some(picked.value.codec) else Picked(offer).None?
  {
    picked := GetMediaDestination(offer);
    var s := CreateSessionDescription(Some(offer), id, version, local, port);
    assert s.media == [s.media[0]];
    AnswerReceived(offer, s, net, port);
    answer := s;
    text := PrintSession(s, [], [["sendrecv"]]);
  }

  /** The whole exchange: the answering end answers, and the offering end picks a codec from the text of
      the answer. If either finds a codec, both have the same one, and the offering end sends to the
      address and port of the answer. */
  method Negotiate(offer: Session, id: int, version: int, local: Address, port: int, net: Network)
    returns (answering: Option<Destination>, offering: Option<Destination>)
    requires InRange(id, 64) && InRange(version, 64) && InRange(port, 32) && GoodAddress(net, local)
    requires (forall c <- AudioCodecs(offer.media) :: InRange(c.payloadType, 32))
    requires DistinctTypes(OnlySupported(AudioCodecs(offer.media)))
    ensures answering.Some? <==> offering.Some?
    ensures answering.None? <==> forall c <- AudioCodecs(offer.media) :: !Voice(c)
    ensures answering.Some? ==> offering.value == Destination(local.host, port, answering.value.codec)
  {
    var text;
    ghost var answer;
    answering, text, answer := Answer(offer, id, version, local, port, net);
    AnswerReceived(offer, answer, net, port);
    NoneMeansNoVoice(AudioCodecs(offer.media));
    offering := None;
    var received := Parse(net, text);
    if received.Read? {
      offering := GetMediaDestination(received.value);
    }
  }

  /** A session in which no codec has an rtpmap line is read from its text, and the first codec of its
      audio media has payload type 0 or 8: it is picked as PCMU or PCMA. */
  lemma StaticTypeIsPicked(net: Network, s: Session, order: seq<string>, orders: seq<seq<string>>)
    requires GoodSession(net, s) && Lists(order, s.attributes) && AllList(orders, s.media)
    requires |s.media| == 1 && s.media[0].kind == "audio" && s.media[0].codecs != []
    requires s.media[0].codecs[0].payloadType in {0, 8}
    ensures var received := ParseText(net, MappedText(s, order, orders, [{}]));
      received.Read? && Picked(received.value) ==
        Some(if s.media[0].codecs[0].payloadType == 0 then Codec(0, "PCMU") else Codec(8, "PCMA"))
  {
    var r := ParsePartlyMapped(net, s, order, orders, [{}]);
    var c := r.media[0].codecs[0];
    assert r.media[1..] == [];
    assert AudioCodecs(r.media) == r.media[0].codecs + [];
    VoiceMeans(c);
    assert r.media[0].codecs + [] == r.media[0].codecs;
  }
}
