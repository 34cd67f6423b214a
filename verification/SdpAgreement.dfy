// Both readers of a printed description agree.
module SdpAgreement {
  import opened Text
  import opened Sdp
  import opened SdpRoundTrip
  import opened NmosSdp
  import opened PacketTime

  /** Neither the session name nor a codec contains a marker that a search starts from. */
  predicate MarkerFree(src: Source, env: Env) {
    Unmarked(env.nodeId + " " + src.name) && PlainCodecs(src)
  }

  predicate PlainCodecs(src: Source) { Unmarked(src.first.codec) && (src.dual ==> Unmarked(src.second.codec)) }

  lemma SessionMarks(src: Source, env: Env)
    requires MarkerFree(src, env)
    ensures Unmarked(SessionLine(src, env))
  {
    var name := env.nodeId + " " + src.name;
    SessionMark(name, AUDIO); SessionMark(name, FILTER); SessionMark(name, GROUP);
  }

  lemma SessionMark(name: string, pat: string)
    requires NoMatchFrom(name, pat, 0) && |pat| >= 2 && pat[0] != 's' && pat[0] != '='
    ensures NoMatchFrom(Field('s', name), pat, 0)
  {
    var line := Field('s', name);
    forall i | 0 <= i <= |line|
      ensures !Matches(line, pat, i)
    {
      if i + |pat| <= |line| {
        assert line[i..i + |pat|][0] == line[i];
        assert i >= 2 ==> line[i..i + |pat|] == name[i - 2..i - 2 + |pat|];
        assert i >= 2 ==> !Matches(name, pat, i - 2);
      }
    }
  }

  lemma PlainFieldMarks(key: char, val: string)
    requires Lacks(val, '=') && key !in "mca"
    ensures Unmarked(Field(key, val)) && NoMatchFrom(Field(key, val), CONNECTION, 0)
  {
    hide NoMatchFrom, Quiet;
    LacksIsQuiet(val);
    FieldMarks(key, val, AUDIO); FieldMarks(key, val, CONNECTION);
    FieldMarks(key, val, FILTER); FieldMarks(key, val, GROUP);
  }

  lemma OriginMarks(src: Source)
    ensures Unmarked(OriginLine(src))
  {
    hide NoMatchFrom, Unmarked, Join, Dec, Dotted;
    var f := ["-", Dec(src.sessionId), Dec(src.sessionVersion), "IN", "IP4", Dotted(src.srcIp)];
    NumbersLack(src.sessionId, src.srcIp); NumbersLack(src.sessionVersion, src.srcIp);
    LacksJoin(f, ' ', '=');
    PlainFieldMarks('o', Join(f, ' '));
  }

  lemma RecvonlyMarks()
    ensures Unmarked(Field('a', "recvonly")) && Unmarked(Attribute("mid", "1")) && Unmarked(Attribute("mid", "2"))
  {
    hide NoMatchFrom;
    var val := "recvonly";
    LacksIsQuiet(val);
    FieldMarks('a', val, AUDIO); FieldMarks('a', val, CONNECTION);
    FieldMarks('a', val, FILTER); FieldMarks('a', val, GROUP);
    assert FILTER[2..][0] == FILTER[2] == 's';
    assert GROUP[2..][0] == GROUP[2] == 'g';
    assert val[0] == 'r';
    PlainAttributeMarks("mid", "1"); PlainAttributeMarks("mid", "2");
  }

  lemma GroupMarks()
    ensures var g := Attribute("group", "DUP 1 2");
            GROUP <= g && NoMatchFrom(g, AUDIO, 0) && NoMatchFrom(g, CONNECTION, 0) && NoMatchFrom(g, FILTER, 0)
  {
    hide NoMatchFrom;
    var val := "group" + ":" + "DUP 1 2";
    LacksIsQuiet(val);
    AttributeMarks("group", "DUP 1 2");
    FieldMarks('a', val, GROUP);
    assert GROUP[2..] == "group:DUP" && val == "group:DUP" + " 1 2";
  }

  lemma ClockMarks(traceable: bool, env: Env)
    requires GoodEnv(env)
    ensures Unmarked(RefclkLine(traceable, env))
  {
    hide NoMatchFrom, Dec, Quiet;
    assert forall k :: 0 <= k < |env.gmid| ==> GmidChar(env.gmid[k]);
    NumbersLack(env.domain, 0);
    var c := ClockFields(traceable, env);
    assert forall k :: 0 <= k < |c| ==> Lacks(c[k], '=');
    LacksJoin(c, ':', '=');
    var value := Join(["ptp=IEEE1588-2008"] + c, ':');
    RefclkText(c);
    QuietKind();
    QuietCat("ts-refclk:ptp=IEEE1588-2008", ":" + Join(c, ':'));
    AttributeMarks("ts-refclk", value);
  }

  lemma QuietKind()
    ensures Quiet("ts-refclk:ptp=IEEE1588-2008")
  {
  }

  lemma RefclkText(c: seq<string>)
    requires c != []
    ensures "ts-refclk" + ":" + Join(["ptp=IEEE1588-2008"] + c, ':') == "ts-refclk:ptp=IEEE1588-2008" + (":" + Join(c, ':'))
  {
  }

  lemma PtimeLacks(samples: uint32, rate: uint32)
    requires rate > 0
    ensures Lacks(Ptime(samples, rate), '=')
  {
  }

  lemma FormatMarks(shown: nat, samples: uint32, env: Env)
    requires env.sampleRate > 0
    ensures Unmarked(Attribute("sync-time", "0")) && Unmarked(Attribute("framecount", Dec(shown)))
    ensures Unmarked(Attribute("ptime", Ptime(samples, env.sampleRate)))
    ensures Unmarked(Attribute("mediaclk", "direct=0"))
    ensures Unmarked(Attribute("clock-domain", "PTPv2 " + Dec(env.domain)))
  {
    hide NoMatchFrom, Dec, Ptime;
    NumbersLack(shown, 0); NumbersLack(env.domain, 0);
    PtimeLacks(samples, env.sampleRate);
    PlainAttributeMarks("sync-time", "0");
    PlainAttributeMarks("framecount", Dec(shown));
    PlainAttributeMarks("ptime", Ptime(samples, env.sampleRate));
    PlainAttributeMarks("clock-domain", "PTPv2 " + Dec(env.domain));
    assert Quiet("mediaclk" + ":" + "direct=0");
    AttributeMarks("mediaclk", "direct=0");
  }

  /** Which markers the ten lines of a section carry, and where. */
  predicate SectionMarked(section: seq<string>) {
    && |section| == 10
    && AUDIO <= section[0] && NoMatchFrom(section[0], AUDIO, 1)
    && CONNECTION <= section[1] && FILTER <= section[2] && NoMatchFrom(section[2], FILTER, 1)
    && (forall i :: 0 <= i < 10 ==> i != 0 ==> NoMatchFrom(section[i], AUDIO, 0))
    && (forall i :: 0 <= i < 10 ==> i != 2 ==> NoMatchFrom(section[i], FILTER, 0))
    && (forall i :: 0 <= i < 10 ==> NoMatchFrom(section[i], GROUP, 0))
  }

  lemma MarkSection(s: Stream, samples: uint32, from: uint32, traceable: bool, env: Env)
    requires GoodEnv(env) && Unmarked(s.codec)
    ensures SectionMarked(Media(s, Ptime(samples, env.sampleRate), from, traceable, env))
  {
    hide NoMatchFrom, Ptime, MediaLine, ConnectionLine, FilterLine, RtpmapLine, RefclkLine, Attribute, Dec;
    MediaMarks(s); ConnectionMarks(s); FilterMarks(s, from); RtpmapMarks(s, env);
    FormatMarks(s.maxSamples, samples, env);
    ClockMarks(traceable, env);
  }

  /** The lines before the first section. */
  predicate HeadMarked(head: seq<string>, dup: bool) {
    && |head| == (if dup then 5 else 4)
    && (forall i :: 0 <= i < |head| ==>
          NoMatchFrom(head[i], AUDIO, 0) && NoMatchFrom(head[i], FILTER, 0))
    && (forall i :: 0 <= i < 4 ==> NoMatchFrom(head[i], GROUP, 0))
    && (dup ==> GROUP <= head[4])
  }

  lemma MarkHead(src: Source, env: Env)
    requires MarkerFree(src, env)
    ensures HeadMarked(Head(src, env), Dup(src, env))
  {
    hide NoMatchFrom, OriginLine, SessionLine, Field, Attribute, Dec, Dotted;
    PlainFieldMarks('v', "0"); PlainFieldMarks('t', "0 0");
    OriginMarks(src); SessionMarks(src, env); GroupMarks();
  }

  // ----- one leg -----

  /** "\nm=" does not occur before the connection line. */
  lemma {:induction false} NoMediaBefore(lines: seq<string>, k: nat)
    requires k + 1 < |lines| && Lacks(lines[k], '\n') && CONNECTION <= lines[k + 1]
    ensures var next := Find(Unlines(lines), "\nm=", Offset(lines, k) + 1);
            next.Some? ==> next.value >= Offset(lines, k + 1)
  {
    hide Unlines, Find;
    var sdp, pos := Unlines(lines), Offset(lines, k);
    TextAt(lines, k);
    TextAt(lines, k + 1);
    NextOffset(lines, k);
    var next := Find(sdp, "\nm=", pos + 1);
    FindIsMatch(sdp, "\nm=", pos + 1);
    if next.Some? {
      var x := next.value;
      assert sdp[x..x + 3][0] == sdp[x] && sdp[x..x + 3][1] == sdp[x + 1];
      assert forall i :: pos <= i < pos + |lines[k]| ==> sdp[i] == lines[k][i - pos];
      assert sdp[pos + |lines[k]| + 1] == lines[k + 1][0] == CONNECTION[0];
    }
  }

  lemma FindIsMatch(s: string, pat: string, from: nat)
    ensures Find(s, pat, from).Some? ==> Find(s, pat, from).value >= from && Matches(s, pat, Find(s, pat, from).value)
  {
  }

  lemma NextOffset(lines: seq<string>, k: nat)
    requires k < |lines|
    ensures Offset(lines, k + 1) == Offset(lines, k) + |lines[k]| + 1
  {
    assert lines[..k + 1] == lines[..k] + [lines[k]];
    UnlinesAppend(lines[..k], [lines[k]]);
    assert [lines[k]][1..] == [] && Unlines([lines[k]]) == lines[k] + "\n" + Unlines([]);
  }

  /** The address and port of the section that starts at line `k`. */
  lemma ReadLeg(lines: seq<string>, k: nat, leg: nat, s: Stream)
    requires k + 1 < |lines| && lines[k] == MediaLine(s) && lines[k + 1] == ConnectionLine(s)
    requires MediaStart(Unlines(lines), leg, 0) == Some(Offset(lines, k))
    ensures MediaPort(Unlines(lines), leg) == s.destPort
    ensures ConnectionIp(Unlines(lines), leg) == Dotted(s.destIp)
  {
    hide Unlines, MediaStart, Dec, Dotted, MediaLine, ConnectionLine, NoMatchFrom;
    ReadPort(lines, k, leg, s);
    ReadConnectionIp(lines, k, leg, s);
  }

  lemma ReadPort(lines: seq<string>, k: nat, leg: nat, s: Stream)
    requires k < |lines| && lines[k] == MediaLine(s)
    requires MediaStart(Unlines(lines), leg, 0) == Some(Offset(lines, k))
    ensures MediaPort(Unlines(lines), leg) == s.destPort
  {
    hide Unlines, MediaStart, Dec, MediaLine, StoI, FindFirstOf;
    MediaText(s);
    NumbersLack(s.destPort, 0);
    var tail := " RTP/AVP " + Dec(s.payloadType) + "\n";
    assert lines[k] + "\n" == AUDIO + Dec(s.destPort) + tail;
    ReadUpTo(lines, k, AUDIO, Dec(s.destPort), tail, " ");
    assert StoI(Dec(s.destPort)) == Some(s.destPort) by { ReadDec(s.destPort, ""); }
  }

  lemma ReadConnectionIp(lines: seq<string>, k: nat, leg: nat, s: Stream)
    requires k + 1 < |lines| && lines[k] == MediaLine(s) && lines[k + 1] == ConnectionLine(s)
    requires MediaStart(Unlines(lines), leg, 0) == Some(Offset(lines, k))
    ensures ConnectionIp(Unlines(lines), leg) == Dotted(s.destIp)
  {
    hide Unlines, MediaStart, Dec, Dotted, MediaLine, ConnectionLine, FindFirstOf, Find, NoMatchFrom;
    MediaMarks(s); ConnectionMarks(s); ConnectionText(s);
    MediaIsOneLine(s);
    NumbersLack(0, s.destIp);
    NoMediaBefore(lines, k);
    FindLineAfter(lines, k, 0, k + 1, CONNECTION);
    var tail := (if Multicast(s.destIp) then "/" + Dec(s.ttl) else "") + "\n";
    assert lines[k + 1] + "\n" == CONNECTION + Dotted(s.destIp) + tail;
    ReadUpTo(lines, k + 1, CONNECTION, Dotted(s.destIp), tail, "/\r\n");
  }

  lemma MediaIsOneLine(s: Stream)
    ensures Lacks(MediaLine(s), '\n')
  {
    hide Dec, Join;
    MediaText(s);
    TidyDec(s.destPort); TidyDec(s.payloadType);
  }

  lemma ReadFilterIp(lines: seq<string>, k: nat, leg: nat, s: Stream, from: uint32)
    requires k < |lines| && lines[k] == FilterLine(s, from)
    requires FilterStart(Unlines(lines), leg, 0) == Some(Offset(lines, k))
    ensures SourceFilterIp(Unlines(lines), leg) == Dotted(from)
  {
    hide Unlines, FilterStart, Dotted, FilterLine, FindFirstOf;
    FilterText(s, from);
    NumbersLack(0, s.destIp); NumbersLack(0, from);
    var d, f := Dotted(s.destIp), Dotted(from);
    assert lines[k] + "\n" == FILTER + d + (" " + f + "\n");
    ReadUpTo(lines, k, FILTER, d, " " + f + "\n", " ");
    assert lines[k] + "\n" == (FILTER + d + " ") + f + "\n";
    ReadUpTo(lines, k, FILTER + d + " ", f, "\n", "\r\n");
  }

  // ----- the whole description -----

  predicate Hit(lines: seq<string>, k: nat, pat: string) {
    k < |lines| && pat <= lines[k]
  }

  /** Where the markers are in a whole description. */
  predicate Marked(lines: seq<string>, n: nat, dup: bool) {
    && |lines| == n + (if dup then 23 else 11)
    && (forall i :: 0 <= i < |lines| ==> i != n && !(dup && i == n + 12) ==> NoMatchFrom(lines[i], AUDIO, 0))
    && Hit(lines, n, AUDIO) && NoMatchFrom(lines[n], AUDIO, 1)
    && (forall i :: 0 <= i < |lines| ==> i != n + 2 && !(dup && i == n + 14) ==> NoMatchFrom(lines[i], FILTER, 0))
    && Hit(lines, n + 2, FILTER) && NoMatchFrom(lines[n + 2], FILTER, 1)
    && (dup ==> Hit(lines, n + 12, AUDIO) && Hit(lines, n + 14, FILTER))
    && (forall i :: 0 <= i < |lines| ==> !(dup && i == 4) ==> NoMatchFrom(lines[i], GROUP, 0))
    && n == (if dup then 5 else 4) && (dup ==> Hit(lines, 4, GROUP))
  }

  lemma MarkLines(src: Source, env: Env)
    requires GoodEnv(env) && Stored(src, env) && MarkerFree(src, env)
    ensures Marked(Lines(src, env), |Head(src, env)|, Dup(src, env))
  {
    hide NoMatchFrom, Head, Media, Field, Attribute, Ptime, MarkerFree, Stored;
    var ptime := Ptime(src.first.maxSamples, env.sampleRate);
    var head, first := Head(src, env), Media(src.first, ptime, env.ip, src.traceable, env);
    assert PlainCodecs(src) by { CodecsArePlain(src, env); }
    MarkHead(src, env);
    MarkSection(src.first, src.first.maxSamples, env.ip, src.traceable, env);
    RecvonlyMarks();
    var lines := Lines(src, env);
    if Dup(src, env) {
      var second := Media(src.second, ptime, env.secIp.value, src.traceable, env);
      assert second == Media(src.second, Ptime(src.first.maxSamples, env.sampleRate), env.secIp.value, src.traceable, env);
      MarkSection(src.second, src.first.maxSamples, env.secIp.value, src.traceable, env);
      assert lines == head + first + [Field('a', "recvonly")] + ([Attribute("mid", "1")] + second + [Attribute("mid", "2")]);
    } else {
      assert lines == head + first + [Field('a', "recvonly")];
    }
  }

  lemma CodecsArePlain(src: Source, env: Env)
    requires MarkerFree(src, env)
    ensures PlainCodecs(src)
  {
  }

  /** Sections and filters are found leg by leg. */
  lemma FindLegs(lines: seq<string>, n: nat, dup: bool)
    requires Marked(lines, n, dup)
    ensures var sdp := Unlines(lines);
            && MediaStart(sdp, 0, 0) == Some(Offset(lines, n))
            && FilterStart(sdp, 0, 0) == Some(Offset(lines, n + 2))
            && (HasDup(sdp) <==> dup)
            && (dup ==>
                  && MediaStart(sdp, 1, 0) == Some(Offset(lines, n + 12))
                  && FilterStart(sdp, 1, 0) == Some(Offset(lines, n + 14)))
  {
    hide Unlines, Find, NoMatchFrom;
    var sdp := Unlines(lines);
    FindLine(lines, n, AUDIO);
    FindLine(lines, n + 2, FILTER);
    if dup {
      FindLine(lines, 4, GROUP);
      FindLineAfter(lines, n, 1, n + 12, AUDIO);
      Later(lines[n + 2], FILTER, 1, |FILTER|);
      FindLineAfter(lines, n + 2, |FILTER|, n + 14, FILTER);
      assert MediaStart(sdp, 1, 0) == MediaStart(sdp, 0, Offset(lines, n) + 1);
      assert FilterStart(sdp, 1, 0) == FilterStart(sdp, 0, Offset(lines, n + 2) + |FILTER|);
    } else {
      FindNowhere(lines, GROUP);
    }
  }

  lemma Later(line: string, pat: string, d: nat, e: nat)
    requires NoMatchFrom(line, pat, d) && d <= e
    ensures NoMatchFrom(line, pat, e)
  {
  }

  /** On every description of a stored source that holds no marker, the registration
      side reads the printed addresses, ports, source filters and number of legs. */
  lemma HelpersAgree(src: Source, env: Env)
    requires GoodEnv(env) && Stored(src, env) && MarkerFree(src, env)
    ensures var sdp := Print(src, env);
            && ConnectionIp(sdp, 0) == Dotted(src.first.destIp)
            && MediaPort(sdp, 0) == src.first.destPort
            && SourceFilterIp(sdp, 0) == Dotted(env.ip)
            && (HasDup(sdp) <==> Dup(src, env))
            && (Dup(src, env) ==>
                  && ConnectionIp(sdp, 1) == Dotted(src.second.destIp)
                  && MediaPort(sdp, 1) == src.second.destPort
                  && SourceFilterIp(sdp, 1) == Dotted(env.secIp.value))
  {
    hide Unlines, MediaStart, FilterStart, Dotted, HasDup, ConnectionIp, MediaPort, SourceFilterIp;
    hide MediaLine, ConnectionLine, FilterLine, RtpmapLine, RefclkLine, Ptime, Marked, Stored, MarkerFree, Head;
    var lines, n := Lines(src, env), |Head(src, env)|;
    MarkLines(src, env);
    FindLegs(lines, n, Dup(src, env));
    assert lines[n] == MediaLine(src.first) && lines[n + 1] == ConnectionLine(src.first)
        && lines[n + 2] == FilterLine(src.first, env.ip);
    ReadLeg(lines, n, 0, src.first);
    ReadFilterIp(lines, n + 2, 0, src.first, env.ip);
    if Dup(src, env) {
      assert lines[n + 12] == MediaLine(src.second) && lines[n + 13] == ConnectionLine(src.second)
          && lines[n + 14] == FilterLine(src.second, env.secIp.value);
      ReadLeg(lines, n + 12, 1, src.second);
      ReadFilterIp(lines, n + 14, 1, src.second, env.secIp.value);
    }
  }

  /** For a readable source the two readers agree leg by leg. */
  lemma ReadersAgree(src: Source, env: Env, info: Info)
    requires |info.streams| == MEDIA_MAX && !info.dual
    requires GoodEnv(env) && Stored(src, env) && MarkerFree(src, env) && Readable(src, env)
    ensures var sdp := Print(src, env);
            match Parse(sdp, info, env)
            case None => false
            case Some(r) =>
              && |r.streams| == MEDIA_MAX && (r.dual <==> HasDup(sdp))
              && ConnectionIp(sdp, 0) == Dotted(r.streams[0].destIp) && MediaPort(sdp, 0) == r.streams[0].destPort
              && (r.dual ==>
                    && ConnectionIp(sdp, 1) == Dotted(r.streams[1].destIp)
                    && MediaPort(sdp, 1) == r.streams[1].destPort)
  {
    hide Parse, Dotted, HasDup, ConnectionIp, MediaPort, Stored, MarkerFree, Print, ReadBack, WordLength;
    RoundTrip(src, env, info, env);
    HelpersAgree(src, env);
  }

  /** The transport parameters of a leg that receives a printed stream. */
  function TpOf(s: Stream, from: uint32, interfaceIp: string): (tp: ReceiverTp) {
    ReceiverTp(interfaceIp, if Multicast(s.destIp) then Dotted(s.destIp) else "", s.destPort, Dotted(from), true)
  }

  lemma LegOfPrinted(sdp: string, leg: nat, s: Stream, from: uint32, interfaceIp: string)
    requires ConnectionIp(sdp, leg) == Dotted(s.destIp) && MediaPort(sdp, leg) == s.destPort
    requires SourceFilterIp(sdp, leg) == Dotted(from)
    ensures LegTp(sdp, leg, interfaceIp) == TpOf(s, from, interfaceIp)
  {
    hide Dotted, ParseDotted, ConnectionIp, MediaPort, SourceFilterIp;
    DottedRoundTrip(s.destIp);
    DottedShape(from);
  }

  /** What a receiver's transport parameters are set to for a printed description: both legs of
      a two-leg stream, and a disabled second leg for a stream that has only one. */
  lemma TpsOfPrinted(src: Source, env: Env, first: string, second: Option<string>)
    requires GoodEnv(env) && Stored(src, env) && MarkerFree(src, env)
    ensures TpsFromSdp(Print(src, env), first, second) ==
            [TpOf(src.first, env.ip, first)]
            + (match second
               case None => []
               case Some(ip) => [if Dup(src, env) then TpOf(src.second, env.secIp.value, ip)
                                 else ReceiverTp(ip, "", DEFAULT_PORT, "auto", false)])
  {
    hide Dotted, HasDup, ConnectionIp, MediaPort, SourceFilterIp, Stored, MarkerFree, Print, LegTp, TpOf;
    var sdp := Print(src, env);
    HelpersAgree(src, env);
    LegOfPrinted(sdp, 0, src.first, env.ip, first);
    if Dup(src, env) && second.Some? {
      LegOfPrinted(sdp, 1, src.second, env.secIp.value, second.value);
    }
  }
}
