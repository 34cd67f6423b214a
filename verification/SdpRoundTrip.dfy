// The parser reads back what the printer wrote.
module SdpRoundTrip {
  import opened Text
  import opened PacketTime
  import opened Sdp

  /** The clock identity is hexadecimal digits and dashes, or empty before the first lock. */
  predicate GmidChar(c: char) { IsDigit(c) || 'a' <= c <= 'f' || c == '-' }

  predicate GoodEnv(env: Env) {
    && env.sampleRate > 0
    && Lacks(env.nodeId, '\n')
    && forall k :: 0 <= k < |env.gmid| ==> GmidChar(env.gmid[k])
  }

  /** What adding a source leaves in the table: unicast streams have a fixed TTL, the codec fits
      its field. Both legs carry the same number of samples; name and codecs are one line. */
  predicate StoredStream(s: Stream, env: Env) {
    (!Multicast(s.destIp) ==> s.ttl == 64) && |s.codec| <= env.codecCap && Lacks(s.codec, '\n')
  }

  predicate Stored(src: Source, env: Env) {
    && Lacks(src.name, '\n')
    && StoredStream(src.first, env)
    && (src.dual ==> StoredStream(src.second, env) && src.second.maxSamples == src.first.maxSamples)
  }

  // ----- one line at a time -----

  /** A tidy field comes back as its key and its value. */
  lemma ReadField(key: char, val: string, p: Parser, env: Env)
    requires Reading(p) && Tidy(val) && !IsSpace(key)
    ensures ParseLine(p, Field(key, val), env) == ParseField(p, key, val, env)
    ensures Lacks(Field(key, val), '\n')
  {
  }

  lemma ReadAttribute(name: string, value: string, p: Parser, env: Env)
    requires Reading(p) && p.section.InMedia?
    requires LacksAll(name, ":\n") && Tidy(value)
    ensures ParseLine(p, Attribute(name, value), env) == ParseMediaAttribute(p, name, value, env)
    ensures Lacks(Attribute(name, value), '\n')
  {
    var val := name + ":" + value;
    assert val == name + [':'] + value;
    assert val[|val| - 1] == if value == "" then ':' else value[|value| - 1];
    ReadField('a', val, p, env);
    IndexAfter(name, ':', value);
  }

  lemma ReadOrigin(src: Source, p: Parser, env: Env)
    requires Reading(p)
    ensures Lacks(OriginLine(src), '\n')
    ensures ParseLine(p, OriginLine(src), env) ==
            Some(p.(info := p.info.(origin := Origin("-", Dec(src.sessionId), src.sessionVersion,
                                                     "IN", "IP4", Dotted(src.srcIp)))))
  {
    hide StoU, Split, Trim, Join;
    var f := ["-", Dec(src.sessionId), Dec(src.sessionVersion), "IN", "IP4", Dotted(src.srcIp)];
    TidyDec(src.sessionId); TidyDec(src.sessionVersion); DottedShape(src.srcIp);
    TidyJoin(f, ' ');
    ReadField('o', Join(f, ' '), p, env);
    SplitJoin(f, ' ', " ");
    ReadDec(src.sessionVersion, "");
  }

  lemma ReadSession(src: Source, p: Parser, env: Env, at: Env)
    requires Reading(p) && Lacks(src.name, '\n') && Lacks(env.nodeId, '\n')
    ensures Lacks(SessionLine(src, env), '\n')
    ensures ParseLine(p, SessionLine(src, env), at) == Some(p)
  {
    var line := SessionLine(src, env);
    TrimKeepsHead(line, 2);
    assert Trim(line)[0] == line[..2][0] && Trim(line)[1] == line[..2][1];
  }

  lemma TakeMedia(val: string, s: Stream, p: Parser)
    requires Reading(p) && p.mid + 1 < MEDIA_MAX
    requires Split(val, " ") == ["audio", Dec(s.destPort), "RTP/AVP", Dec(s.payloadType)]
    ensures var q := p.(mid := p.mid + 1, section := InMedia);
            ParseMedia(p, val) ==
            Some(SetStream(q, q.info.streams[q.mid].(destPort := s.destPort, payloadType := s.payloadType)))
  {
    hide StoI;
    assert StoI(Dec(s.destPort)) == Some(s.destPort) by { ReadDec(s.destPort, ""); }
    assert StoI(Dec(s.payloadType)) == Some(s.payloadType) by { ReadDec(s.payloadType, ""); }
  }

  lemma ReadMedia(s: Stream, p: Parser, env: Env)
    requires Reading(p) && p.mid + 1 < MEDIA_MAX
    ensures Lacks(MediaLine(s), '\n')
    ensures var q := p.(mid := p.mid + 1, section := InMedia);
            ParseLine(p, MediaLine(s), env) ==
            Some(SetStream(q, q.info.streams[q.mid].(destPort := s.destPort, payloadType := s.payloadType)))
  {
    hide Split, ParseMedia, Join, Trim;
    var f := ["audio", Dec(s.destPort), "RTP/AVP", Dec(s.payloadType)];
    var val := Join(f, ' ');
    assert Tidy(val) && Split(val, " ") == f by {
      TidyDec(s.destPort); TidyDec(s.payloadType);
      TidyJoin(f, ' ');
      SplitJoin(f, ' ', " ");
    }
    ReadField('m', val, p, env);
    TakeMedia(val, s, p);
  }

  lemma SplitAddress(s: Stream)
    ensures Tidy(Join([Dotted(s.destIp)] + TtlField(s), '/')) && Join([Dotted(s.destIp)] + TtlField(s), '/') != ""
    ensures Split(Join([Dotted(s.destIp)] + TtlField(s), '/'), " /") == [Dotted(s.destIp)] + TtlField(s)
  {
    var f := [Dotted(s.destIp)] + TtlField(s);
    DottedShape(s.destIp); TidyDec(s.ttl);
    assert forall k :: 0 <= k < |f| ==> LacksAll(f[k], " /") && Tidy(f[k]);
    TidyJoin(f, '/');
    SplitJoin(f, '/', " /");
  }

  lemma SplitConnection(rest: string)
    ensures Split(Join(["IN", "IP4", rest], ' '), " /") == ["IN", "IP4"] + Split(rest, " /")
  {
    var r1 := Join(["IP4", rest], ' ');
    assert ["IN", "IP4", rest][1..] == ["IP4", rest] && ["IP4", rest][1..] == [rest];
    assert Join([rest], ' ') == rest;
    SplitOff("IN", ' ', r1, " /");
    SplitOff("IP4", ' ', rest, " /");
    assert ["IN"] + (["IP4"] + Split(rest, " /")) == ["IN", "IP4"] + Split(rest, " /");
  }

  lemma TakeConnection(val: string, s: Stream, p: Parser)
    requires Reading(p) && p.section.InMedia?
    requires !Multicast(s.destIp) ==> s.ttl == 64
    requires Split(val, " /") == ["IN", "IP4"] + ([Dotted(s.destIp)] + TtlField(s))
    ensures ParseConnection(p, val) ==
            if s.destIp == NO_ADDRESS then None
            else Some(SetStream(p, p.info.streams[p.mid].(destIp := s.destIp, ttl := s.ttl)))
  {
    hide StoI, ParseDotted, Dotted, Dec;
    assert ParseDotted(Dotted(s.destIp)) == Some(s.destIp) by { DottedRoundTrip(s.destIp); }
    assert StoI(Dec(s.ttl)) == Some(s.ttl) by { ReadDec(s.ttl, ""); }
  }

  lemma ReadConnection(s: Stream, p: Parser, env: Env)
    requires Reading(p) && p.section.InMedia?
    requires !Multicast(s.destIp) ==> s.ttl == 64
    ensures Lacks(ConnectionLine(s), '\n')
    ensures ParseLine(p, ConnectionLine(s), env) ==
            if s.destIp == NO_ADDRESS then None
            else Some(SetStream(p, p.info.streams[p.mid].(destIp := s.destIp, ttl := s.ttl)))
  {
    hide Split, ParseConnection, Join, Dotted, Trim;
    var address := Join([Dotted(s.destIp)] + TtlField(s), '/');
    var val := Join(["IN", "IP4", address], ' ');
    SplitAddress(s);
    assert Tidy(val) by { TidyJoin(["IN", "IP4", address], ' '); }
    ReadField('c', val, p, env);
    SplitConnection(address);
    TakeConnection(val, s, p);
  }

  lemma ReadFilter(s: Stream, from: uint32, p: Parser, env: Env)
    requires Reading(p) && p.section.InMedia?
    ensures Lacks(FilterLine(s, from), '\n') && ParseLine(p, FilterLine(s, from), env) == Some(p)
  {
    hide Trim, Dotted;
    DottedShape(s.destIp); DottedShape(from);
    TidyCat(" incl IN IP4 " + Dotted(s.destIp) + " ", Dotted(from));
    ReadAttribute("source-filter", " incl IN IP4 " + Dotted(s.destIp) + " " + Dotted(from), p, env);
  }

  /** Codec and rate as the parser reads them: separators inside the codec shift the fields. */
  function RtpmapRead(s: Stream, env: Env): (r: Option<(string, uint32)>) {
    var f := Split(s.codec, " /") + [Dec(env.sampleRate), Dec(s.channels)];
    match StoU(f[1])
    case None => None
    case Some(rate) => if StoI(f[2]).None? then None else Some((f[0], Low(rate, U32)))
  }

  lemma TakeRtpmap(value: string, s: Stream, p: Parser, env: Env, at: Env)
    requires Reading(p) && p.section.InMedia? && |s.codec| <= at.codecCap
    requires p.info.streams[p.mid].payloadType == s.payloadType
    requires Split(value, " /") == [Dec(s.payloadType)] + (Split(s.codec, " /") + [Dec(env.sampleRate), Dec(s.channels)])
    ensures ParseRtpmap(p, value, at.codecCap) ==
            match RtpmapRead(s, env)
            case None => None
            case Some((codec, rate)) =>
              Some(SetStream(p, p.info.streams[p.mid].(codec := codec, wordLength := WordLength(codec), samplingRate := rate)))
  {
    hide StoI, StoU, Split;
    FirstField(s.codec, " /");
    assert StoI(Dec(s.payloadType)) == Some(s.payloadType) by { ReadDec(s.payloadType, ""); }
  }

  lemma SplitRtpmap(s: Stream, env: Env)
    requires Lacks(s.codec, '\n')
    ensures var value := Dec(s.payloadType) + " " + Join([s.codec, Dec(env.sampleRate), Dec(s.channels)], '/');
            && Tidy(value)
            && Split(value, " /") == [Dec(s.payloadType)] + (Split(s.codec, " /") + [Dec(env.sampleRate), Dec(s.channels)])
  {
    hide Split;
    var a, b := Dec(s.payloadType), [Dec(env.sampleRate), Dec(s.channels)];
    TidyDec(s.payloadType); TidyDec(env.sampleRate); TidyDec(s.channels);
    var tail := Join(b, '/');
    TidyJoin(b, '/');
    SplitJoin(b, '/', " /");
    var rest := s.codec + ['/'] + tail;
    assert Join([s.codec, Dec(env.sampleRate), Dec(s.channels)], '/') == rest by {
      assert [s.codec, Dec(env.sampleRate), Dec(s.channels)][1..] == b;
    }
    SplitApart(s.codec, '/', tail, " /");
    assert a + " " + rest == a + [' '] + rest;
    SplitOff(a, ' ', rest, " /");
    assert a + " " + rest == (a + " " + s.codec + "/") + tail;
    TidyCat(a + " " + s.codec + "/", tail);
  }

  lemma ReadRtpmap(s: Stream, p: Parser, env: Env, at: Env)
    requires Reading(p) && p.section.InMedia? && |s.codec| <= at.codecCap && Lacks(s.codec, '\n')
    requires p.info.streams[p.mid].payloadType == s.payloadType
    ensures Lacks(RtpmapLine(s, env), '\n')
    ensures ParseLine(p, RtpmapLine(s, env), at) ==
            match RtpmapRead(s, env)
            case None => None
            case Some((codec, rate)) =>
              Some(SetStream(p, p.info.streams[p.mid].(codec := codec, wordLength := WordLength(codec), samplingRate := rate)))
  {
    hide Split, ParseRtpmap, Join, Trim, RtpmapRead;
    var value := Dec(s.payloadType) + " " + Join([s.codec, Dec(env.sampleRate), Dec(s.channels)], '/');
    SplitRtpmap(s, env);
    ReadAttribute("rtpmap", value, p, at);
    TakeRtpmap(value, s, p, env, at);
  }

  /** The codec comes back exactly when it holds no separator, and then so does the rate. */
  lemma CodecIsKept(s: Stream, env: Env)
    ensures LacksAll(s.codec, " /") ==> RtpmapRead(s, env) == Some((s.codec, env.sampleRate))
    ensures RtpmapRead(s, env).Some? && RtpmapRead(s, env).value.0 == s.codec ==> LacksAll(s.codec, " /")
  {
    hide StoI, StoU, Split;
    FirstField(s.codec, " /");
    if LacksAll(s.codec, " /") {
      SplitLast(s.codec, " /");
      assert StoU(Dec(env.sampleRate)) == Some(env.sampleRate) by { ReadDec(env.sampleRate, ""); }
      assert StoI(Dec(s.channels)) == Some(s.channels) by { ReadDec(s.channels, ""); }
    }
  }

  /** A codec with a number after a slash: the number is taken for the rate, and the printed
      rate for the number of channels, if it is small enough for one. */
  lemma NumberAfterSlash(s: Stream, a: string, n: nat, env: Env)
    requires LacksAll(a, " /") && n < U64 && s.codec == a + "/" + Dec(n)
    ensures env.sampleRate < 0x8000_0000 ==> RtpmapRead(s, env) == Some((a, n % U32))
  {
    hide StoI, StoU, Split, Dec;
    assert s.codec == a + ['/'] + Dec(n);
    TidyDec(n);
    SplitOff(a, '/', Dec(n), " /");
    SplitLast(Dec(n), " /");
    assert StoU(Dec(n)) == Some(n) by { ReadDec(n, ""); }
    if env.sampleRate < 0x8000_0000 {
      assert StoI(Dec(env.sampleRate)) == Some(env.sampleRate) by { ReadDec(env.sampleRate, ""); }
    }
  }

  lemma ReadZero()
    ensures StoU("0") == Some(0) && Tidy("0")
  {
    hide StoU;
    assert Dec(0) + "" == "0";
    ReadDec(0, "");
  }

  lemma SplitDirect()
    ensures Split("direct=0", "=") == ["direct", "0"] && Tidy("direct=0")
  {
    hide Split;
    SplitOff("direct", '=', "0", "=");
    SplitLast("0", "=");
    assert "direct" + ['='] + "0" == "direct=0";
  }

  lemma ReadOffsets(p: Parser, env: Env)
    requires Reading(p) && p.section.InMedia?
    ensures Lacks(Attribute("sync-time", "0"), '\n') && Lacks(Attribute("mediaclk", "direct=0"), '\n')
    ensures ParseLine(p, Attribute("sync-time", "0"), env)
            == Some(SetStream(p, p.info.streams[p.mid].(rtpOffset := 0)))
    ensures ParseLine(p, Attribute("mediaclk", "direct=0"), env)
            == Some(SetStream(p, p.info.streams[p.mid].(rtpOffset := 0)))
  {
    hide StoU, Split, Trim;
    ReadZero();
    SplitDirect();
    var zero, direct := "0", "direct=0";
    ReadAttribute("sync-time", zero, p, env);
    ReadAttribute("mediaclk", direct, p, env);
    assert ParseOffset(p, zero) == Some(SetStream(p, p.info.streams[p.mid].(rtpOffset := 0)));
  }

  lemma ReadIgnored(n: nat, p: Parser, env: Env)
    requires Reading(p) && p.section.InMedia?
    ensures Lacks(Attribute("framecount", Dec(n)), '\n')
    ensures Lacks(Attribute("clock-domain", "PTPv2 " + Dec(n)), '\n')
    ensures ParseLine(p, Attribute("framecount", Dec(n)), env) == Some(p)
    ensures ParseLine(p, Attribute("clock-domain", "PTPv2 " + Dec(n)), env) == Some(p)
  {
    hide Trim;
    TidyDec(n);
    TidyCat("PTPv2 ", Dec(n));
    ReadAttribute("framecount", Dec(n), p, env);
    ReadAttribute("clock-domain", "PTPv2 " + Dec(n), p, env);
  }

  lemma TidyPtime(samples: uint32, rate: uint32)
    requires rate > 0
    ensures Tidy(Ptime(samples, rate))
  {
  }

  lemma ReadPtime(samples: uint32, p: Parser, env: Env, at: Env)
    requires Reading(p) && p.section.InMedia? && env.sampleRate > 0
    ensures Lacks(Attribute("ptime", Ptime(samples, env.sampleRate)), '\n')
    ensures ParseLine(p, Attribute("ptime", Ptime(samples, env.sampleRate)), at) ==
            if samples == 0 then None
            else
              var s := p.info.streams[p.mid];
              Some(SetStream(p, s.(maxSamples := ReadAt(samples, env.sampleRate, s.samplingRate))))
  {
    var t := Ptime(samples, env.sampleRate);
    TidyPtime(samples, env.sampleRate);
    ReadAttribute("ptime", t, p, at);
    TicksArePositive(samples, env.sampleRate);
    PtimeIsSeen(samples, env.sampleRate);
    if samples > 0 {
      SamplesOfSame(StoD(t).value, Seen(Ticks(samples, env.sampleRate)).value, p.info.streams[p.mid].samplingRate);
    }
  }

  /** A parser with the clock state `at` takes a printed clock reference: one that is traceable
      to any clock, or one to the clock and domain it has itself, unless it is told not to look. */
  predicate ClockAccepted(traceable: bool, env: Env, ignored: bool, at: Env) {
    traceable || ignored || (at.gmid == env.gmid && at.domain == env.domain)
  }

  lemma TakeRefclk(value: string, traceable: bool, p: Parser, env: Env, at: Env)
    requires Reading(p)
    requires Split(value, ":") ==
             if traceable then ["ptp=IEEE1588-2008", "traceable"] else ["ptp=IEEE1588-2008", env.gmid, Dec(env.domain)]
    ensures ParseRefclk(p, value, at) == if ClockAccepted(traceable, env, p.info.ignoreGmid, at) then Some(p) else None
  {
    hide StoI;
    assert StoI(Dec(env.domain)) == Some(env.domain) by { ReadDec(env.domain, ""); }
  }

  lemma SplitRefclk(traceable: bool, env: Env)
    requires GoodEnv(env)
    ensures var value := Join(["ptp=IEEE1588-2008"] + ClockFields(traceable, env), ':');
            && Tidy(value)
            && Split(value, ":") ==
               if traceable then ["ptp=IEEE1588-2008", "traceable"] else ["ptp=IEEE1588-2008", env.gmid, Dec(env.domain)]
  {
    var c := ClockFields(traceable, env);
    TidyDec(env.domain);
    GmidIsPlain(env);
    assert forall k :: 0 <= k < |c| ==> Tidy(c[k]) && LacksAll(c[k], ":");
    var f := ["ptp=IEEE1588-2008"] + c;
    assert Tidy(f[0]) && LacksAll(f[0], ":");
    TidyJoin(f, ':');
    SplitJoin(f, ':', ":");
  }

  lemma ReadRefclk(traceable: bool, p: Parser, env: Env, at: Env)
    requires Reading(p) && p.section.InMedia? && GoodEnv(env)
    ensures Lacks(RefclkLine(traceable, env), '\n')
    ensures ParseLine(p, RefclkLine(traceable, env), at) ==
            if ClockAccepted(traceable, env, p.info.ignoreGmid, at) then Some(p) else None
  {
    hide Split, ParseRefclk, Join, Trim;
    var value := Join(["ptp=IEEE1588-2008"] + ClockFields(traceable, env), ':');
    SplitRefclk(traceable, env);
    ReadAttribute("ts-refclk", value, p, at);
    TakeRefclk(value, traceable, p, env, at);
  }

  lemma GmidIsPlain(env: Env)
    requires GoodEnv(env)
    ensures Tidy(env.gmid) && LacksAll(env.gmid, ":")
  {
  }

  // ----- a media section -----

  /** What the parser knows of a stream that was printed. */
  function Recovered(was: Stream, s: Stream, samples: uint32, env: Env): (r: Stream)
    requires env.sampleRate > 0 && samples > 0 && RtpmapRead(s, env).Some?
  {
    var (codec, rate) := RtpmapRead(s, env).value;
    was.(destPort := s.destPort, payloadType := s.payloadType, destIp := s.destIp, ttl := s.ttl,
         codec := codec, wordLength := WordLength(codec), samplingRate := rate,
         rtpOffset := 0, maxSamples := ReadAt(samples, env.sampleRate, rate))
  }

  function Filled(p: Parser, s: Stream, samples: uint32, env: Env): (q: Parser)
    requires Reading(p) && p.mid + 1 < MEDIA_MAX && env.sampleRate > 0 && samples > 0 && RtpmapRead(s, env).Some?
    ensures Reading(q) && q.section.InMedia? && q.mid == p.mid + 1
  {
    Parser(p.info.(streams := p.info.streams[p.mid + 1 := Recovered(p.info.streams[p.mid + 1], s, samples, env)]),
           p.mid + 1, InMedia, p.dup)
  }

  lemma StepAt(lines: seq<string>, k: nat, p: Parser, q: Parser, env: Env)
    requires k < |lines| && Reading(p) && ParseLine(p, lines[k], env) == Some(q)
    ensures Legal(q) && ParseLines(p, lines[k..], env) == ParseLines(q, lines[k + 1..], env)
  {
  }

  lemma StopAt(lines: seq<string>, k: nat, p: Parser, env: Env)
    requires k < |lines| && Reading(p) && ParseLine(p, lines[k], env) == None
    ensures ParseLines(p, lines[k..], env) == None
  {
  }

  predicate SectionAt(lines: seq<string>, k: nat, section: seq<string>) {
    k + |section| <= |lines| && lines[k..k + |section|] == section
  }

  lemma LineOf(lines: seq<string>, k: nat, section: seq<string>, i: nat)
    requires SectionAt(lines, k, section) && i < |section|
    ensures k + i < |lines| && lines[k + i] == section[i]
  {
  }

  /** The first four lines set the addresses and the format. */
  lemma SectionStart(lines: seq<string>, k: nat, p: Parser, s: Stream, from: uint32, env: Env,
                                      at: Env)
    returns (q: Parser)
    requires Reading(p) && p.mid + 1 < MEDIA_MAX && GoodEnv(env) && StoredStream(s, env) && env.codecCap <= at.codecCap
    requires k + 4 <= |lines| && lines[k] == MediaLine(s) && lines[k + 1] == ConnectionLine(s)
    requires lines[k + 2] == FilterLine(s, from) && lines[k + 3] == RtpmapLine(s, env)
    ensures s.destIp == NO_ADDRESS || RtpmapRead(s, env).None? ==> ParseLines(p, lines[k..], at) == None
    ensures Reading(q) && q.section.InMedia? && q.mid == p.mid + 1 && q.dup == p.dup
    ensures RtpmapRead(s, env).Some? ==>
              var (codec, rate) := RtpmapRead(s, env).value;
              q.info == p.info.(streams := p.info.streams[p.mid + 1 := p.info.streams[p.mid + 1].(
                destPort := s.destPort, payloadType := s.payloadType, destIp := s.destIp, ttl := s.ttl,
                codec := codec, wordLength := WordLength(codec), samplingRate := rate)])
    ensures s.destIp != NO_ADDRESS && RtpmapRead(s, env).Some? ==>
              ParseLines(p, lines[k..], at) == ParseLines(q, lines[k + 4..], at)
  {
    hide ParseLine, ParseLines, MediaLine, ConnectionLine, FilterLine, RtpmapLine, WordLength, RtpmapRead;
    var p0 := p.(mid := p.mid + 1, section := InMedia);
    var p1 := SetStream(p0, p0.info.streams[p0.mid].(destPort := s.destPort, payloadType := s.payloadType));
    ReadMedia(s, p, at);
    StepAt(lines, k, p, p1, at);
    var p2 := SetStream(p1, p1.info.streams[p1.mid].(destIp := s.destIp, ttl := s.ttl));
    var read := RtpmapRead(s, env);
    q := if read.None? then p2
         else SetStream(p2, p2.info.streams[p2.mid].(codec := read.value.0, wordLength := WordLength(read.value.0),
                                                     samplingRate := read.value.1));
    ReadConnection(s, p1, at);
    if s.destIp == NO_ADDRESS {
      StopAt(lines, k + 1, p1, at);
    } else {
      StepAt(lines, k + 1, p1, p2, at);
      ReadFilter(s, from, p2, at);
      StepAt(lines, k + 2, p2, p2, at);
      ReadRtpmap(s, p2, env, at);
      if read.None? {
        StopAt(lines, k + 3, p2, at);
      } else {
        StepAt(lines, k + 3, p2, q, at);
      }
    }
  }

  /** The other six lines set the packet time and check the clock. */
  lemma SectionEnd(lines: seq<string>, k: nat, p: Parser, shown: nat, samples: uint32,
                                      traceable: bool, env: Env, at: Env)
    returns (q: Parser)
    requires Reading(p) && p.section.InMedia? && GoodEnv(env)
    requires k + 6 <= |lines| && lines[k] == Attribute("sync-time", "0")
    requires lines[k + 1] == Attribute("framecount", Dec(shown))
    requires lines[k + 2] == Attribute("ptime", Ptime(samples, env.sampleRate))
    requires lines[k + 3] == Attribute("mediaclk", "direct=0")
    requires lines[k + 4] == Attribute("clock-domain", "PTPv2 " + Dec(env.domain))
    requires lines[k + 5] == RefclkLine(traceable, env)
    ensures samples == 0 || !ClockAccepted(traceable, env, p.info.ignoreGmid, at) ==> ParseLines(p, lines[k..], at) == None
    ensures samples > 0 && ClockAccepted(traceable, env, p.info.ignoreGmid, at) ==>
              && var s := p.info.streams[p.mid];
              && q == SetStream(p, s.(rtpOffset := 0, maxSamples := ReadAt(samples, env.sampleRate, s.samplingRate)))
              && ParseLines(p, lines[k..], at) == ParseLines(q, lines[k + 6..], at)
  {
    hide ParseLine, ParseLines, Attribute, RefclkLine, Ptime, ReadAt;
    ReadOffsets(p, at);
    var p1 := SetStream(p, p.info.streams[p.mid].(rtpOffset := 0));
    StepAt(lines, k, p, p1, at);
    ReadIgnored(shown, p1, at);
    StepAt(lines, k + 1, p1, p1, at);
    ReadPtime(samples, p1, env, at);
    q := p1;
    if samples == 0 {
      StopAt(lines, k + 2, p1, at);
    } else {
      var s := p1.info.streams[p1.mid];
      q := SetStream(p1, s.(maxSamples := ReadAt(samples, env.sampleRate, s.samplingRate)));
      StepAt(lines, k + 2, p1, q, at);
      ReadOffsets(q, at);
      assert SetStream(q, q.info.streams[q.mid].(rtpOffset := 0)) == q;
      StepAt(lines, k + 3, q, q, at);
      ReadIgnored(env.domain, q, at);
      StepAt(lines, k + 4, q, q, at);
      ReadRefclk(traceable, q, env, at);
      if ClockAccepted(traceable, env, q.info.ignoreGmid, at) {
        StepAt(lines, k + 5, q, q, at);
      } else {
        StopAt(lines, k + 5, q, at);
      }
    }
  }

  /** A whole section fills one media slot, or stops the parser. */
  lemma ReadSection(lines: seq<string>, k: nat, p: Parser, s: Stream, samples: uint32, from: uint32,
                                       traceable: bool, env: Env, at: Env)
    requires Reading(p) && p.mid + 1 < MEDIA_MAX && GoodEnv(env) && StoredStream(s, env) && env.codecCap <= at.codecCap
    requires SectionAt(lines, k, Media(s, Ptime(samples, env.sampleRate), from, traceable, env))
    ensures ParseLines(p, lines[k..], at) ==
            if s.destIp == NO_ADDRESS || RtpmapRead(s, env).None? || samples == 0
               || !ClockAccepted(traceable, env, p.info.ignoreGmid, at) then None
            else ParseLines(Filled(p, s, samples, env), lines[k + 10..], at)
  {
    hide ParseLine, ParseLines, Attribute, RefclkLine, MediaLine, ConnectionLine, FilterLine, RtpmapLine;
    hide Ptime, ReadAt, WordLength, RtpmapRead;
    var section := Media(s, Ptime(samples, env.sampleRate), from, traceable, env);
    forall i | 0 <= i < 10
      ensures k + i < |lines| && lines[k + i] == section[i]
    {
      LineOf(lines, k, section, i);
    }
    var q1 := SectionStart(lines, k, p, s, from, env, at);
    var q2 := SectionEnd(lines, k + 4, q1, s.maxSamples, samples, traceable, env, at);
    if samples > 0 && RtpmapRead(s, env).Some? && ClockAccepted(traceable, env, p.info.ignoreGmid, at) {
      assert q2.info.streams == Filled(p, s, samples, env).info.streams;
    }
  }

  // ----- the whole description -----

  function AfterHead(src: Source, env: Env, info: Info): (p: Parser) {
    Parser(info.(origin := Origin("-", Dec(src.sessionId), src.sessionVersion, "IN", "IP4", Dotted(src.srcIp))),
           -1, AfterTime, Dup(src, env))
  }

  lemma ReadPlain(p: Parser, env: Env)
    requires Reading(p)
    ensures ParseLine(p, Field('v', "0"), env) == Some(p) && Lacks(Field('v', "0"), '\n')
    ensures ParseLine(p, Field('t', "0 0"), env) == Some(p.(section := AfterTime)) && Lacks(Field('t', "0 0"), '\n')
    ensures ParseLine(p, Field('a', "recvonly"), env) == Some(p) && Lacks(Field('a', "recvonly"), '\n')
  {
    hide ParseLine;
    ReadField('v', "0", p, env);
    ReadField('t', "0 0", p, env);
    ReadField('a', "recvonly", p, env);
    assert IndexOf("recvonly", ':') == 8;
  }

  lemma ReadGroup(p: Parser, env: Env)
    requires Reading(p) && p.section.AfterTime?
    ensures Lacks(Attribute("group", "DUP 1 2"), '\n')
    ensures ParseLine(p, Attribute("group", "DUP 1 2"), env) == Some(p.(dup := true))
  {
    hide ParseLine;
    var val := "group" + ":" + "DUP 1 2";
    assert val == "group" + [':'] + "DUP 1 2";
    IndexAfter("group", ':', "DUP 1 2");
    assert val[|val| - 1] == '2';
    ReadField('a', val, p, env);
    assert "DUP" <= "DUP 1 2";
  }

  lemma ReadMid(p: Parser, env: Env)
    requires Reading(p) && p.section.InMedia?
    ensures ParseLine(p, Attribute("mid", "1"), env) == Some(p) && Lacks(Attribute("mid", "1"), '\n')
    ensures ParseLine(p, Attribute("mid", "2"), env) == Some(p) && Lacks(Attribute("mid", "2"), '\n')
  {
    hide ParseLine;
    ReadAttribute("mid", "1", p, env);
    ReadAttribute("mid", "2", p, env);
  }

  lemma ReadHead(lines: seq<string>, src: Source, env: Env, info: Info, at: Env)
    requires |info.streams| == MEDIA_MAX && Lacks(src.name, '\n') && Lacks(env.nodeId, '\n')
    requires SectionAt(lines, 0, Head(src, env))
    ensures Reading(AfterHead(src, env, info)) && OneLiners(Head(src, env))
    ensures ParseLines(Start(info), lines, at) == ParseLines(AfterHead(src, env, info), lines[|Head(src, env)|..], at)
  {
    hide ParseLine, ParseLines, Attribute, Field, OriginLine, SessionLine, Dotted, Dec;
    var head := Head(src, env);
    forall i | 0 <= i < |head|
      ensures lines[i] == head[i]
    {
      LineOf(lines, 0, head, i);
    }
    var p0 := Start(info);
    assert lines[0..] == lines;
    ReadPlain(p0, at);
    StepAt(lines, 0, p0, p0, at);
    ReadOrigin(src, p0, at);
    var p1 := AfterHead(src, env, info).(section := InSession, dup := false);
    StepAt(lines, 1, p0, p1, at);
    ReadSession(src, p1, env, at);
    StepAt(lines, 2, p1, p1, at);
    ReadPlain(p1, at);
    var p2 := p1.(section := AfterTime);
    StepAt(lines, 3, p1, p2, at);
    if Dup(src, env) {
      ReadGroup(p2, at);
      StepAt(lines, 4, p2, p2.(dup := true), at);
    }
  }

  lemma SectionIsLines(s: Stream, samples: uint32, from: uint32, traceable: bool, env: Env)
    requires GoodEnv(env) && StoredStream(s, env)
    ensures OneLiners(Media(s, Ptime(samples, env.sampleRate), from, traceable, env))
  {
    hide ParseLine, Attribute, RefclkLine, MediaLine, ConnectionLine, FilterLine, RtpmapLine, Ptime;
    var blank := Stream(0, s.payloadType, "", 0, env.sampleRate, 0, 0, 0, 0, 0);
    var info := Info([blank, blank], Origin("", "", 0, "", "", ""), false, false);
    var p := Parser(info, 0, InMedia, false);
    ReadMedia(s, p, env); ReadConnection(s, p, env); ReadFilter(s, from, p, env); ReadRtpmap(s, p, env, env);
    ReadOffsets(p, env); ReadIgnored(s.maxSamples, p, env); ReadIgnored(env.domain, p, env);
    ReadPtime(samples, p, env, env); ReadRefclk(traceable, p, env, env);
  }

  /** What the parser makes of a leg: the address must not be the one that also means "no
      address", and a codec with separators must leave numbers where numbers are read. */
  predicate ReadableLeg(s: Stream, env: Env) { s.destIp != NO_ADDRESS && RtpmapRead(s, env).Some? }

  /** The parser accepts its own daemon's description if its packets have samples. */
  predicate Readable(src: Source, env: Env) {
    && src.first.maxSamples > 0
    && ReadableLeg(src.first, env)
    && (Dup(src, env) ==> ReadableLeg(src.second, env))
  }

  function Expected(src: Source, env: Env, info: Info): (r: Info)
    requires |info.streams| == MEDIA_MAX && GoodEnv(env) && Readable(src, env)
  {
    var n := src.first.maxSamples;
    Info([Recovered(info.streams[0], src.first, n, env),
          if Dup(src, env) then Recovered(info.streams[1], src.second, n, env) else info.streams[1]],
         Origin("-", Dec(src.sessionId), src.sessionVersion, "IN", "IP4", Dotted(src.srcIp)),
         info.dual || Dup(src, env), info.ignoreGmid)
  }

  lemma LinesAreLines(src: Source, env: Env)
    requires GoodEnv(env) && Stored(src, env)
    ensures OneLiners(Lines(src, env))
  {
    hide Media, ParseLine, ParseLines, Attribute, Field, Ptime;
    var n := src.first.maxSamples;
    var stream := Stream(0, 0, "", 0, 0, 0, 0, 0, 0, 0);
    var info := Info([stream, stream], Origin("", "", 0, "", "", ""), false, false);
    ReadHead(Head(src, env), src, env, info, env);
    SectionIsLines(src.first, n, env.ip, src.traceable, env);
    ReadPlain(Start(info), env);
    ReadMid(Parser(info, 0, InMedia, false), env);
    if Dup(src, env) {
      SectionIsLines(src.second, n, env.secIp.value, src.traceable, env);
    }
  }

  /** Printing a stored source and parsing the text gives the source back, also where another
      daemon parses it, under the clock state `at` that it has. */
  lemma RoundTrip(src: Source, env: Env, info: Info, at: Env)
    requires |info.streams| == MEDIA_MAX && GoodEnv(env) && Stored(src, env) && env.codecCap <= at.codecCap
    ensures Parse(Print(src, env), info, at) ==
            if Readable(src, env) && ClockAccepted(src.traceable, env, info.ignoreGmid, at) then Some(Expected(src, env, info))
            else None
  {
    hide Media, Head, ParseLine, ParseLines, Attribute, Field, Ptime, Recovered, GetLines, Unlines, AfterHead, RtpmapRead;
    var lines := Lines(src, env);
    LinesAreLines(src, env);
    LinesOfUnlines(lines);
    ParsesTo(lines, src, env, info, at);
  }

  /** The bytes of a sample in each of the codecs. */
  predicate BytesOf(codec: string, bytes: nat) {
    && (forall k :: 2 <= k <= 3 && codec == "L" + Dec(8 * k) ==> bytes == k)
    && (codec in {"L2432", "AM824", "DSD64_32", "DSD128_32", "DSD256"} ==> bytes == 4)
    && (codec == "DSD64" ==> bytes == 1) && (codec == "DSD128" ==> bytes == 2)
    && (codec !in {"L16", "L24", "L2432", "AM824", "DSD64", "DSD128", "DSD64_32", "DSD128_32", "DSD256"} ==> bytes == 0)
  }

  lemma WordsAreBytes(codec: string)
    ensures BytesOf(codec, WordLength(codec))
  {
    assert "L" + Dec(16) == "L16" && "L" + Dec(24) == "L24";
  }

  /** A leg comes back with its codec if and only if the codec holds neither space nor slash; it
      then comes back with the rate, and with the packet length as far as the packet time tells. */
  predicate LegRecovered(r: Stream, s: Stream, samples: uint32, env: Env)
    requires env.sampleRate > 0 && samples > 0
  {
    && r.destPort == s.destPort && r.payloadType == s.payloadType && r.destIp == s.destIp && r.ttl == s.ttl
    && (r.codec == s.codec <==> LacksAll(s.codec, " /")) && BytesOf(r.codec, r.wordLength)
    && (r.codec == s.codec ==> r.samplingRate == env.sampleRate && r.maxSamples == ReadBack(samples, env.sampleRate))
  }

  lemma LegIsRecovered(was: Stream, s: Stream, samples: uint32, env: Env)
    requires env.sampleRate > 0 && samples > 0 && RtpmapRead(s, env).Some?
    ensures LegRecovered(Recovered(was, s, samples, env), s, samples, env)
  {
    hide RtpmapRead, ReadAt, BytesOf;
    CodecIsKept(s, env);
    WordsAreBytes(RtpmapRead(s, env).value.0);
  }

  lemma LegsAreRecovered(src: Source, env: Env, info: Info, at: Env)
    requires |info.streams| == MEDIA_MAX && GoodEnv(env) && Stored(src, env) && Readable(src, env)
    requires env.codecCap <= at.codecCap && ClockAccepted(src.traceable, env, info.ignoreGmid, at)
    ensures var r := Parse(Print(src, env), info, at);
            && r.Some? && |r.value.streams| == MEDIA_MAX
            && LegRecovered(r.value.streams[0], src.first, src.first.maxSamples, env)
            && (Dup(src, env) ==> LegRecovered(r.value.streams[1], src.second, src.first.maxSamples, env))
  {
    hide Print, Parse, RtpmapRead, Recovered, LegRecovered;
    RoundTrip(src, env, info, at);
    LegIsRecovered(info.streams[0], src.first, src.first.maxSamples, env);
    if Dup(src, env) {
      LegIsRecovered(info.streams[1], src.second, src.first.maxSamples, env);
    }
  }

  lemma ParsesTo(lines: seq<string>, src: Source, env: Env, info: Info, at: Env)
    requires |info.streams| == MEDIA_MAX && GoodEnv(env) && Stored(src, env) && env.codecCap <= at.codecCap
    requires lines == Lines(src, env)
    ensures var r := ParseLines(Start(info), lines, at);
            if Readable(src, env) && ClockAccepted(src.traceable, env, info.ignoreGmid, at) then r.Some? && Finish(r.value) == Expected(src, env, info) else r.None?
  {
    hide Media, Head, ParseLine, ParseLines, Attribute, Field, Ptime, Recovered, RtpmapRead;
    var n, samples := |Head(src, env)|, src.first.maxSamples;
    var ptime := Ptime(samples, env.sampleRate);
    var first := Media(src.first, ptime, env.ip, src.traceable, env);
    MediaLength(src.first, ptime, env.ip, src.traceable, env);
    assert SectionAt(lines, 0, Head(src, env));
    ReadHead(lines, src, env, info, at);
    var p0 := AfterHead(src, env, info);
    assert SectionAt(lines, n, first);
    ReadSection(lines, n, p0, src.first, samples, env.ip, src.traceable, env, at);
    if samples > 0 && ReadableLeg(src.first, env) && ClockAccepted(src.traceable, env, info.ignoreGmid, at) {
      var p1 := Filled(p0, src.first, samples, env);
      assert lines[n + 10] == Field('a', "recvonly");
      ReadPlain(p1, at);
      StepAt(lines, n + 10, p1, p1, at);
      if Dup(src, env) {
        ParsesSecond(lines, n, p1, src, env, at);
      } else {
        NothingLeft(p1, lines[n + 11..], at);
      }
    }
  }

  lemma MediaLength(s: Stream, ptime: string, from: uint32, traceable: bool, env: Env)
    ensures |Media(s, ptime, from, traceable, env)| == 10
  {
  }

  lemma NothingLeft(p: Parser, lines: seq<string>, env: Env)
    requires Legal(p) && |lines| == 0
    ensures ParseLines(p, lines, env) == Some(p)
  {
  }

  lemma ParsesSecond(lines: seq<string>, n: nat, p: Parser, src: Source, env: Env, at: Env)
    requires GoodEnv(env) && Stored(src, env) && env.codecCap <= at.codecCap && Dup(src, env) && src.first.maxSamples > 0
    requires lines == Lines(src, env) && n == |Head(src, env)|
    requires Reading(p) && p.section.InMedia? && p.mid == 0
    requires ClockAccepted(src.traceable, env, p.info.ignoreGmid, at)
    ensures ParseLines(p, lines[n + 11..], at) ==
            if !ReadableLeg(src.second, env) then None
            else Some(Filled(p, src.second, src.first.maxSamples, env))
  {
    hide Media, Head, ParseLine, ParseLines, Attribute, Field, Ptime, Filled, RtpmapRead;
    var samples := src.first.maxSamples;
    var ptime := Ptime(samples, env.sampleRate);
    var second := Media(src.second, ptime, env.secIp.value, src.traceable, env);
    MediaLength(src.first, ptime, env.ip, src.traceable, env);
    MediaLength(src.second, ptime, env.secIp.value, src.traceable, env);
    assert lines[n + 11] == Attribute("mid", "1");
    ReadMid(p, at);
    StepAt(lines, n + 11, p, p, at);
    assert SectionAt(lines, n + 12, second);
    ReadSection(lines, n + 12, p, src.second, samples, env.secIp.value, src.traceable, env, at);
    if ReadableLeg(src.second, env) {
      var q := Filled(p, src.second, samples, env);
      assert lines[n + 22] == Attribute("mid", "2");
      ReadMid(q, at);
      StepAt(lines, n + 22, q, q, at);
      NothingLeft(q, lines[n + 23..], at);
    }
  }

  // ----- names of more than one line -----

  /** A line break in a line is the end of one line and the start of another. */
  lemma BreakInLine(before: seq<string>, a: string, b: string, after: seq<string>)
    ensures Unlines(before + [a + "\n" + b] + after) == Unlines(before + [a, b] + after)
  {
    var one, two := [a + "\n" + b], [a, b];
    assert one[1..] == [] && two[1..] == [b] && [b][1..] == [];
    assert Unlines(two) == a + "\n" + (b + "\n" + Unlines([])) && Unlines(one) == a + "\n" + b + "\n" + Unlines([]);
    UnlinesAppend(before, one);
    UnlinesAppend(before, two);
    UnlinesAppend(before + one, after);
    UnlinesAppend(before + two, after);
  }

  lemma SameButName(src: Source, name: string, env: Env)
    requires GoodEnv(env)
    ensures var x, y := Lines(src, env), Lines(src.(name := name), env);
            |x| == |y| > 3 && x[2] == SessionLine(src, env) && y[2] == SessionLine(src.(name := name), env)
            && x[..2] == y[..2] && x[3..] == y[3..]
  {
    hide Media, Attribute, OriginLine, Ptime, SessionLine;
    var other := src.(name := name);
    assert OriginLine(src) == OriginLine(other) by { SameOrigins(src, name); }
  }

  lemma SameOrigins(src: Source, name: string)
    ensures OriginLine(src) == OriginLine(src.(name := name))
  {
  }

  lemma TwoLineName(src: Source, a: string, b: string, env: Env)
    requires GoodEnv(env) && src.name == a + "\n" + b
    ensures var y := Lines(src.(name := a), env);
            |y| > 3 && Print(src, env) == Unlines(y[..3] + [b] + y[3..])
  {
    hide Lines, Unlines;
    var x, y := Lines(src, env), Lines(src.(name := a), env);
    SameButName(src, a, env);
    var line := y[2];
    assert x[2] == line + "\n" + b;
    assert x == x[..2] + [line + "\n" + b] + x[3..];
    BreakInLine(x[..2], line, b, x[3..]);
    assert y[..2] + [line, b] + y[3..] == y[..3] + [b] + y[3..];
  }

  lemma NoFieldStops(lines: seq<string>, src: Source, env: Env, info: Info)
    requires |info.streams| == MEDIA_MAX && Lacks(src.name, '\n') && Lacks(env.nodeId, '\n')
    requires |lines| > 3 && lines[..3] == [Field('v', "0"), OriginLine(src), SessionLine(src, env)]
    requires forall p: Parser :: Reading(p) ==> ParseLine(p, lines[3], env) == None
    ensures ParseLines(Start(info), lines, env) == None
  {
    hide ParseLine, ParseLines, OriginLine, SessionLine, Dotted, Dec;
    assert forall i :: 0 <= i < 3 ==> lines[i] == lines[..3][i];
    var p0 := Start(info);
    ReadPlain(p0, env);
    ReadOrigin(src, p0, env);
    var p1 := ParseLine(p0, OriginLine(src), env).value;
    ReadSession(src, p1, env, env);
    assert lines[0..] == lines;
    StepAt(lines, 0, p0, p0, env);
    StepAt(lines, 1, p0, p1, env);
    StepAt(lines, 2, p1, p1, env);
    StopAt(lines, 3, p1, env);
  }

  /** A line of its own in the session name is read as one: if it is no field, the daemon
      rejects its own description. */
  lemma LineInNameIsRead(src: Source, a: string, b: string, env: Env, info: Info)
    requires |info.streams| == MEDIA_MAX && GoodEnv(env) && src.name == a + "\n" + b
    requires Stored(src.(name := a), env) && Lacks(b, '\n')
    ensures |Trim(b)| < 2 || Trim(b)[1] != '=' ==> Parse(Print(src, env), info, env) == None
  {
    hide Lines, ParseLines, GetLines, Trim, Unlines;
    var one := src.(name := a);
    var y := Lines(one, env);
    TwoLineName(src, a, b, env);
    LinesAreLines(one, env);
    var lines := y[..3] + [b] + y[3..];
    LinesOfUnlines(lines);
    if |Trim(b)| < 2 || Trim(b)[1] != '=' {
      assert lines[..3] == y[..3] && lines[3] == b;
      FirstLines(one, env);
      NoFieldStops(lines, one, env, info);
    }
  }

  lemma FirstLines(src: Source, env: Env)
    requires GoodEnv(env)
    ensures |Lines(src, env)| > 3
    ensures Lines(src, env)[..3] == [Field('v', "0"), OriginLine(src), SessionLine(src, env)]
  {
    hide Media, Field, Attribute, OriginLine, SessionLine;
  }
}
