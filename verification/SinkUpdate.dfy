// Automatic sink updates: each sink follows its origin.
module SinkUpdate {
  // Each sink takes the newest description announced for its origin. Announcements and sinks
  // read the origin off the same text with two different readers.

  import opened Text
  import opened Sdp
  import SdpRoundTrip
  import PacketTime

  type Id = uint8

  datatype Remote = Remote(origin: Origin, sdp: string)

  datatype Sink = Sink(sdp: string, origin: Origin)

  const NO_ORIGIN := Origin("", "", 0, "", "", "")

  // ----- the browser's reader of origins -----

  /** The first origin line, unless something before it or the line itself is malformed. */
  function OriginIn(lines: seq<string>): (o: Origin)
    decreases |lines|
  {
    if lines == [] then NO_ORIGIN
    else
      var t := Trim(lines[0]);
      if |t| < 2 || t[1] != '=' then NO_ORIGIN
      else if t[0] != 'o' then OriginIn(lines[1..])
      else OriginFrom(Split(t[2..], " "))
  }

  function OriginFrom(f: seq<string>): (o: Origin) {
    if |f| < 6 then NO_ORIGIN
    else match StoU(f[2])
      case None => NO_ORIGIN.(username := f[0], sessionId := f[1])
      case Some(v) => Origin(f[0], f[1], v, f[3], f[4], f[5])
  }

  method SdpGetOrigin(sdp: string) returns (origin: Origin)
    ensures origin == OriginIn(GetLines(sdp))
  {
    origin := NO_ORIGIN;
    var lines := GetLines(sdp);
    var i := 0;
    while i < |lines|
      invariant 0 <= i <= |lines| && origin == NO_ORIGIN
      invariant OriginIn(lines) == OriginIn(lines[i..])
    {
      assert lines[i..][0] == lines[i] && lines[i..][1..] == lines[i + 1..];
      var line := Trim(lines[i]);
      if |line| < 2 || line[1] != '=' {
        return;
      }
      if line[0] == 'o' {
        var fields := Split(line[2..], " ");
        if |fields| < 6 {
          return;
        }
        origin := origin.(username := fields[0], sessionId := fields[1]);
        var version := StoU(fields[2]);
        if version.None? {
          return;
        }
        origin := origin.(version := version.value, networkType := fields[3], addressType := fields[4],
                          unicastAddress := fields[5]);
        return;
      }
      i := i + 1;
    }
  }

  /** An origin line whose version is no number names its user and session only; one with too few
      fields names nothing. */
  lemma BrokenOrigin(line: string, rest: seq<string>)
    requires |Trim(line)| >= 2 && Trim(line)[0] == 'o' && Trim(line)[1] == '='
    ensures var f := Split(Trim(line)[2..], " ");
            && (|f| < 6 ==> OriginIn([line] + rest) == Origin("", "", 0, "", "", ""))
            && (|f| >= 6 && StoU(f[2]).None? ==> OriginIn([line] + rest) == Origin(f[0], f[1], 0, "", "", ""))
  {
    hide Trim, Split, StoU;
  }

  // ----- the two readers agree -----

  /** The type of a line, if it has one. */
  function Key(line: string): (k: Option<char>) {
    var t := Trim(line);
    if |t| < 2 || t[1] != '=' then None else Some(t[0])
  }

  predicate NoOrigin(lines: seq<string>) { forall i :: 0 <= i < |lines| ==> Key(lines[i]) != Some('o') }

  /** At most one origin line, ahead of any media section. */
  predicate OriginFirst(lines: seq<string>)
    decreases |lines|
  {
    if lines == [] then true
    else match Key(lines[0])
      case Some(c) => if c == 'o' || c == 'm' then NoOrigin(lines[1..]) else OriginFirst(lines[1..])
      case None => true
  }

  /** Reading a line that is no origin line leaves the origin alone. */
  lemma OtherLinesKeepOrigin(p: Parser, line: string, env: Env)
    requires Reading(p) && Key(line) != Some('o')
    ensures var r := ParseLine(p, line, env); r.Some? ==> r.value.info.origin == p.info.origin
  {
    hide Trim, Split, StoI, StoU, ParseDotted;
  }

  /** Only a media line can change the section count. */
  lemma OtherLinesKeepMid(p: Parser, line: string, env: Env)
    requires Reading(p) && Key(line) != Some('m')
    ensures var r := ParseLine(p, line, env); r.Some? ==> r.value.mid == p.mid
  {
  }

  lemma {:induction false} NoMoreOrigins(p: Parser, lines: seq<string>, env: Env)
    requires Legal(p) && NoOrigin(lines)
    ensures var r := ParseLines(p, lines, env); r.Some? ==> r.value.info.origin == p.info.origin
    decreases |lines|
  {
    hide ParseLine, Key;
    if lines != [] && p.mid != MEDIA_MAX {
      var r := ParseLine(p, lines[0], env);
      OtherLinesKeepOrigin(p, lines[0], env);
      if r.Some? {
        NoMoreOrigins(r.value, lines[1..], env);
      }
    }
  }

  lemma {:induction false} NoOriginToFind(lines: seq<string>)
    requires NoOrigin(lines)
    ensures OriginIn(lines) == NO_ORIGIN
    decreases |lines|
  {
    hide Trim, Split, StoU;
    if lines != [] {
      NoOriginToFind(lines[1..]);
    }
  }

  lemma OriginLineRead(p: Parser, line: string, env: Env)
    requires Reading(p) && p.info.origin == NO_ORIGIN && Key(line) == Some('o')
    ensures var r := ParseLine(p, line, env);
            r.Some? ==> r.value.mid == p.mid && forall rest :: r.value.info.origin == OriginIn([line] + rest)
  {
  }

  /** An accepted description gives both readers the same origin. */
  lemma {:induction false} ReadersAgree(p: Parser, lines: seq<string>, env: Env)
    requires Reading(p) && p.mid == -1 && p.info.origin == NO_ORIGIN && OriginFirst(lines)
    ensures var r := ParseLines(p, lines, env); r.Some? ==> r.value.info.origin == OriginIn(lines)
    decreases |lines|
  {
    hide ParseLine, Split, StoU, Trim;
    if lines != [] {
      var line, rest, r := lines[0], lines[1..], ParseLine(p, lines[0], env);
      assert lines == [line] + rest;
      if r.Some? {
        if Key(line) == Some('o') {
          OriginLineRead(p, line, env);
          NoMoreOrigins(r.value, rest, env);
        } else if Key(line) == Some('m') {
          OtherLinesKeepOrigin(p, line, env);
          NoMoreOrigins(r.value, rest, env);
          NoOriginToFind(rest);
        } else {
          OtherLinesKeepOrigin(p, line, env);
          OtherLinesKeepMid(p, line, env);
          AcceptedHasKey(p, line, env);
          ReadersAgree(r.value, rest, env);
        }
      }
    }
  }

  lemma AcceptedHasKey(p: Parser, line: string, env: Env)
    requires Reading(p) && ParseLine(p, line, env).Some?
    ensures Key(line).Some?
  {
  }

  lemma OriginsAgree(sdp: string, info: Info, env: Env)
    requires |info.streams| == MEDIA_MAX && info.origin == NO_ORIGIN && OriginFirst(GetLines(sdp))
    ensures var r := Parse(sdp, info, env); r.Some? ==> r.value.origin == OriginIn(GetLines(sdp))
  {
    hide ParseLines, OriginIn, OriginFirst, GetLines;
    ReadersAgree(Start(info), GetLines(sdp), env);
  }

  // ----- several origin lines -----

  /** The last origin line with all its fields, which is the one the parser ends up with. */
  function LastOrigin(lines: seq<string>, before: Origin): (o: Origin)
    decreases |lines|
  {
    if lines == [] then before else LastOrigin(lines[1..], OriginAfter(lines[0], before))
  }

  function OriginAfter(line: string, before: Origin): (o: Origin) {
    if Key(line) != Some('o') then before
    else
      var f := Split(Trim(line)[2..], " ");
      if |f| < 6 then before else OriginFrom(f)
  }

  lemma OriginLineKept(p: Parser, line: string, env: Env)
    requires Reading(p) && Key(line) == Some('o')
    ensures var r := ParseLine(p, line, env);
            r.Some? ==> r.value.mid == p.mid && r.value.info.origin == LastOrigin([line], p.info.origin)
  {
    hide Trim, Split, StoU;
    assert [line][1..] == [];
  }

  lemma LastOfFirst(line: string, rest: seq<string>, before: Origin)
    ensures LastOrigin([line] + rest, before) == LastOrigin(rest, LastOrigin([line], before))
    ensures Key(line) != Some('o') ==> LastOrigin([line], before) == before
  {
    hide Trim, Split, StoU;
    assert ([line] + rest)[1..] == rest && [line][1..] == [];
  }

  /** A line that opens an audio section, if it is well formed. */
  predicate OpensAudio(line: string) { Key(line) == Some('m') && Split(Trim(line)[2..], " ")[0] == "audio" }

  /** The lines up to the one that opens audio section number `left`, which is the last one read. */
  function ReadPart(lines: seq<string>, left: nat): (part: seq<string>)
    ensures part <= lines
    decreases |lines|
  {
    if lines == [] || left == 0 then []
    else [lines[0]] + ReadPart(lines[1..], if OpensAudio(lines[0]) then left - 1 else left)
  }

  lemma AudioIsCounted(p: Parser, line: string, env: Env)
    requires Reading(p)
    ensures var r := ParseLine(p, line, env); r.Some? ==> r.value.mid == if OpensAudio(line) then p.mid + 1 else p.mid
  {
    if Key(line) == Some('m') {
      hide Trim, Split, StoI;
    } else {
      hide Trim, Split;
      OtherLinesKeepMid(p, line, env);
    }
  }

  /** The parser takes the last complete origin line of what it reads. */
  lemma {:induction false} ParserTakesLast(p: Parser, lines: seq<string>, env: Env)
    requires Legal(p)
    ensures var r := ParseLines(p, lines, env);
            r.Some? ==> r.value.info.origin == LastOrigin(ReadPart(lines, MEDIA_MAX - p.mid), p.info.origin)
    decreases |lines|
  {
    hide ParseLine, LastOrigin, Key, OpensAudio;
    NothingRead(p.info.origin);
    if lines != [] && p.mid < MEDIA_MAX {
      var line, rest, r := lines[0], lines[1..], ParseLine(p, lines[0], env);
      if r.Some? {
        AudioIsCounted(p, line, env);
        if Key(line) == Some('o') {
          OriginLineKept(p, line, env);
        } else {
          OtherLinesKeepOrigin(p, line, env);
        }
        LastOfFirst(line, ReadPart(rest, MEDIA_MAX - r.value.mid), p.info.origin);
        ParserTakesLast(r.value, rest, env);
      }
    }
  }

  /** What the first origin line says: nothing, if it is not complete. */
  function FirstOrigin(lines: seq<string>): (o: Option<Origin>)
    decreases |lines|
  {
    if lines == [] then None
    else if Key(lines[0]) == Some('o') then Some(OriginFrom(Split(Trim(lines[0])[2..], " ")))
    else FirstOrigin(lines[1..])
  }

  /** The browser takes the first origin line of what the parser accepts, or goes on behind it. */
  lemma {:induction false} BrowserTakesFirst(p: Parser, lines: seq<string>, env: Env)
    requires Legal(p) && ParseLines(p, lines, env).Some?
    ensures var part := ReadPart(lines, MEDIA_MAX - p.mid);
            OriginIn(lines) ==
            match FirstOrigin(part)
            case Some(o) => o
            case None => OriginIn(lines[|part|..])
    decreases |lines|
  {
    hide ParseLine, OriginFrom, OpensAudio, Trim, Split;
    if lines != [] && p.mid < MEDIA_MAX {
      var line, rest, r := lines[0], lines[1..], ParseLine(p, lines[0], env);
      AudioIsCounted(p, line, env);
      AcceptedHasKey(p, line, env);
      BrowserTakesFirst(r.value, rest, env);
      var part := ReadPart(lines, MEDIA_MAX - p.mid);
      assert part == [line] + ReadPart(rest, MEDIA_MAX - r.value.mid);
      assert part[1..] == ReadPart(rest, MEDIA_MAX - r.value.mid);
      assert lines[|part|..] == rest[|part| - 1..];
    } else {
      assert lines[0..] == lines;
    }
  }

  lemma NothingRead(before: Origin)
    ensures LastOrigin([], before) == before
  {
  }

  /** With any number of origin lines and sections, on an accepted description: the two readers
      agree if and only if the last complete origin line up to the third audio section says what
      the first origin line there says; without one, if and only if there is none behind it that
      says anything. */
  lemma OriginsAgreeExactly(sdp: string, info: Info, env: Env)
    requires |info.streams| == MEDIA_MAX && info.origin == NO_ORIGIN && Parse(sdp, info, env).Some?
    ensures var lines := GetLines(sdp);
            var part := ReadPart(lines, 3);
            Parse(sdp, info, env).value.origin == OriginIn(lines) <==>
            match FirstOrigin(part)
            case Some(o) => LastOrigin(part, NO_ORIGIN) == o
            case None => OriginIn(lines[|part|..]) == NO_ORIGIN
  {
    hide ParseLines, OriginIn, GetLines, ReadPart, FirstOrigin, LastOrigin;
    var lines := GetLines(sdp);
    ParserTakesLast(Start(info), lines, env);
    BrowserTakesFirst(Start(info), lines, env);
    if FirstOrigin(ReadPart(lines, 3)).None? {
      NoFirstNoLast(ReadPart(lines, 3), NO_ORIGIN);
    }
  }

  lemma {:induction false} NoFirstNoLast(lines: seq<string>, before: Origin)
    requires FirstOrigin(lines).None?
    ensures LastOrigin(lines, before) == before
    decreases |lines|
  {
    hide Trim, Split;
    if lines != [] {
      NoFirstNoLast(lines[1..], before);
    }
  }

  function OriginOf(src: Source): (o: Origin) {
    Origin("-", Dec(src.sessionId), src.sessionVersion, "IN", "IP4", Dotted(src.srcIp))
  }

  /** The readers disagree on two printed origin lines: the parser takes the second one and the
      browser's reader the first one. */
  lemma TwoOriginsDisagree(a: Source, b: Source, info: Info, env: Env)
    requires |info.streams| == MEDIA_MAX
    ensures var sdp := Unlines([OriginLine(a), OriginLine(b)]);
            && OriginIn(GetLines(sdp)) == OriginOf(a)
            && Parse(sdp, info, env) == Some(info.(origin := OriginOf(b)))
  {
    hide ParseLine, Dec, Dotted, GetLines, Unlines, OriginLine, OriginIn;
    var lines := [OriginLine(a), OriginLine(b)];
    var blank := Parser(info.(origin := NO_ORIGIN), -1, InSession, false);
    SdpRoundTrip.ReadOrigin(a, blank, env);
    SdpRoundTrip.ReadOrigin(a, Start(info), env);
    SdpRoundTrip.ReadOrigin(b, Start(info.(origin := OriginOf(a))), env);
    LinesOfUnlines(lines);
    PrintedIsOrigin(a);
    OriginLineRead(blank, OriginLine(a), env);
    assert lines == [OriginLine(a)] + [OriginLine(b)];
    TwoSteps(Start(info), lines, env);
  }

  lemma PrintedIsOrigin(src: Source)
    ensures Key(OriginLine(src)) == Some('o')
  {
    hide Dec, Dotted, Join;
    KeyOfField('o', Join(["-", Dec(src.sessionId), Dec(src.sessionVersion), "IN", "IP4", Dotted(src.srcIp)], ' '));
  }

  lemma KeyOfField(key: char, val: string)
    requires !IsSpace(key)
    ensures Key(Field(key, val)) == Some(key)
  {
    var line := Field(key, val);
    TrimKeepsHead(line, 2);
    assert Trim(line)[0] == line[..2][0] && Trim(line)[1] == line[..2][1];
  }

  // ----- printed descriptions -----

  /** No line of a media section is an origin line. */
  lemma MediaHasNoOrigin(s: Stream, ptime: string, from: uint32, traceable: bool, env: Env)
    ensures NoOrigin(Media(s, ptime, from, traceable, env))
  {
    hide Join, Dec, Dotted, Key;
    KeyOfField('m', Join(["audio", Dec(s.destPort), "RTP/AVP", Dec(s.payloadType)], ' '));
    KeyOfField('c', Join(["IN", "IP4", Join([Dotted(s.destIp)] + TtlField(s), '/')], ' '));
    forall name: string, value: string
      ensures Key(Attribute(name, value)) == Some('a')
    {
      KeyOfField('a', name + ":" + value);
    }
  }

  lemma AttributeKeys()
    ensures Key(Field('a', "recvonly")) == Key(Attribute("mid", "1")) == Key(Attribute("mid", "2")) == Some('a')
    ensures Key(Attribute("group", "DUP 1 2")) == Some('a')
  {
    hide Key;
    KeyOfField('a', "recvonly");
    KeyOfField('a', "mid" + ":" + "1");
    KeyOfField('a', "mid" + ":" + "2");
    KeyOfField('a', "group" + ":" + "DUP 1 2");
  }

  /** A printed description starts with a version and its one origin. */
  lemma PrintedOriginFirst(src: Source, env: Env)
    requires SdpRoundTrip.GoodEnv(env) && SdpRoundTrip.Stored(src, env)
    ensures OriginFirst(GetLines(Print(src, env))) && OriginIn(GetLines(Print(src, env))) == OriginOf(src)
  {
    hide Media, Key, Attribute, Field, PacketTime.Ptime, OriginLine, SessionLine, GetLines, Unlines, OriginFrom;
    var lines := Lines(src, env);
    SdpRoundTrip.LinesAreLines(src, env);
    LinesOfUnlines(lines);
    OtherLinesHaveNoOrigin(src, env);
    assert lines[0] == Field('v', "0") && lines[1] == OriginLine(src);
    KeyOfField('v', "0");
    PrintedIsOrigin(src);
    PrintedOrigin(src, lines[2..]);
    assert lines[1..] == [OriginLine(src)] + lines[2..];
    FirstKeys(lines, src);
  }

  lemma FirstKeys(lines: seq<string>, src: Source)
    requires |lines| > 2 && Key(lines[0]) == Some('v') && Key(lines[1]) == Some('o') && NoOrigin(lines[2..])
    ensures OriginFirst(lines) && OriginIn(lines) == OriginIn(lines[1..])
  {
    hide Trim, OriginFrom;
    assert lines[1..][1..] == lines[2..] && lines[1..][0] == lines[1];
  }

  lemma PrintedOrigin(src: Source, rest: seq<string>)
    ensures OriginIn([OriginLine(src)] + rest) == OriginOf(src)
  {
    hide ParseLine, Dec, Dotted, OriginLine, OriginIn, Key;
    var stream := Stream(0, 0, "", 0, 0, 0, 0, 0, 0, 0);
    var p := Start(Info([stream, stream], NO_ORIGIN, false, false));
    var env := Env(1, "", 0, None, 0, "", 0);
    SdpRoundTrip.ReadOrigin(src, p, env);
    PrintedIsOrigin(src);
    OriginLineRead(p, OriginLine(src), env);
  }

  lemma OtherLinesHaveNoOrigin(src: Source, env: Env)
    requires SdpRoundTrip.GoodEnv(env)
    ensures |Lines(src, env)| > 2 && NoOrigin(Lines(src, env)[2..])
  {
    hide Media, Key, Attribute, Field, PacketTime.Ptime, OriginLine;
    var ptime, lines := PacketTime.Ptime(src.first.maxSamples, env.sampleRate), Lines(src, env);
    MediaHasNoOrigin(src.first, ptime, env.ip, src.traceable, env);
    if Dup(src, env) {
      MediaHasNoOrigin(src.second, ptime, env.secIp.value, src.traceable, env);
    }
    AttributeKeys();
    KeyOfField('s', env.nodeId + " " + src.name);
    KeyOfField('t', "0 0");
  }

  lemma TwoSteps(p: Parser, lines: seq<string>, env: Env)
    requires |lines| == 2 && Reading(p)
    requires ParseLine(p, lines[0], env).Some? && Reading(ParseLine(p, lines[0], env).value)
    ensures ParseLines(p, lines, env) == ParseLine(ParseLine(p, lines[0], env).value, lines[1], env)
  {
    hide ParseLine;
    var q := ParseLine(p, lines[0], env).value;
    assert ParseLines(p, lines, env) == ParseLines(q, lines[1..], env);
    var r := ParseLine(q, lines[1], env);
    assert r.Some? ==> ParseLines(r.value, lines[1..][1..], env) == r;
  }

  // ----- one pass of the update -----

  /** Two origins are the same exactly when they differ at most in their version. */
  lemma SameOriginExactly(a: Origin, b: Origin)
    ensures SameOrigin(a, b) <==> a == b.(version := a.version)
  {
  }

  predicate Newer(sink: Sink, r: Remote) {
    r.origin.sessionId != "" && SameOrigin(sink.origin, r.origin) && sink.origin.version < r.origin.version
  }

  /** An announcement is news for a sink if it names a session, from the same origin, in a higher
      version. */
  lemma NewerExactly(sink: Sink, r: Remote)
    ensures Newer(sink, r) <==>
            && r.origin.sessionId != "" && r.origin == sink.origin.(version := r.origin.version)
            && r.origin.version > sink.origin.version
  {
  }

  /** The newest version found for a sink, 0 for none, with its description. */
  function Scan(sink: Sink, remotes: seq<Remote>): (r: (nat, string)) {
    if remotes == [] then (0, sink.sdp)
    else
      var n := |remotes| - 1;
      var best, src := Scan(sink, remotes[..n]), remotes[n];
      if Newer(sink, src) && best.1 != src.sdp && best.0 < src.origin.version then (src.origin.version, src.sdp) else best
  }

  /** Origins are what the descriptions say: for a sink by its parser, for an announcement by
      the browser's reader; `reading` is that common reading. */
  ghost predicate Faithful(sink: Sink, remotes: seq<Remote>, reading: string -> Origin) {
    && sink.origin == reading(sink.sdp)
    && forall r :: r in remotes ==> r.origin == reading(r.sdp)
  }

  /** The scan finds the highest newer version, in an announcement of the sink's origin. */
  lemma {:induction false} ScanFindsNewest(sink: Sink, remotes: seq<Remote>, reading: string -> Origin)
    requires Faithful(sink, remotes, reading)
    ensures var best := Scan(sink, remotes);
            && (forall r :: r in remotes && Newer(sink, r) ==> r.origin.version <= best.0)
            && (best.0 > 0 ==> exists r :: r in remotes && Newer(sink, r) && r.origin.version == best.0 && r.sdp == best.1)
            && (best.0 == 0 ==> best.1 == sink.sdp)
  {
    if remotes != [] {
      var n := |remotes| - 1;
      var src := remotes[n];
      assert forall r :: r in remotes[..n] ==> r in remotes;
      assert remotes == remotes[..n] + [src];
      ScanFindsNewest(sink, remotes[..n], reading);
      var best := Scan(sink, remotes[..n]);
      assert src in remotes;
      // the same text has the same version, so a newer one is another text
      assert Newer(sink, src) && best.0 < src.origin.version ==> best.1 != src.sdp;
    }
  }

  /** Among announcements of the same version the scan takes the first. */
  lemma {:induction false} ScanTakesTheFirst(sink: Sink, remotes: seq<Remote>, reading: string -> Origin, i: nat)
    requires Faithful(sink, remotes, reading) && i < |remotes| && Newer(sink, remotes[i])
    requires forall j :: 0 <= j < |remotes| && Newer(sink, remotes[j]) ==> remotes[j].origin.version <= remotes[i].origin.version
    requires forall j :: 0 <= j < i && Newer(sink, remotes[j]) ==> remotes[j].origin.version < remotes[i].origin.version
    ensures Scan(sink, remotes) == (remotes[i].origin.version, remotes[i].sdp)
  {
    var n := |remotes| - 1;
    var before := remotes[..n];
    assert remotes == before + [remotes[n]];
    assert forall r :: r in before ==> r in remotes;
    assert forall j :: 0 <= j < n ==> before[j] == remotes[j];
    ScanFindsNewest(sink, before, reading);
    if i < n {
      ScanTakesTheFirst(sink, before, reading, i);
    } else {
      var best := Scan(sink, before);
      assert remotes[n] in remotes;
      assert best.0 < remotes[n].origin.version;
    }
  }

  /** After a sink has taken what the scan found, the same announcements hold nothing newer. */
  lemma SecondPassFindsNothing(sink: Sink, remotes: seq<Remote>, reading: string -> Origin)
    requires Faithful(sink, remotes, reading)
    ensures var best := Scan(sink, remotes);
            var updated := if best.0 > 0 then Sink(best.1, reading(best.1)) else sink;
            && Scan(updated, remotes).0 == 0
            && SameOrigin(updated.origin, sink.origin)
            && (best.0 > 0 ==> updated.origin.version == best.0 > sink.origin.version)
  {
    ScanFindsNewest(sink, remotes, reading);
    var best := Scan(sink, remotes);
    var updated := if best.0 > 0 then Sink(best.1, reading(best.1)) else sink;
    forall r | r in remotes
      ensures !Newer(updated, r)
    {
      if Newer(updated, r) {
        assert Newer(sink, r);
      }
    }
    NothingNewer(updated, remotes);
  }

  /** A sink has the origin its parser read from its description. */
  predicate Parsed(sink: Sink, info: Info, env: Env)
    requires |info.streams| == MEDIA_MAX
  {
    Parse(sink.sdp, info, env).Some? && sink.origin == Parse(sink.sdp, info, env).value.origin
  }

  /** Everything announced was read by the browser. */
  ghost predicate Browsed(remotes: seq<Remote>) {
    forall r :: r in remotes ==> r.origin == OriginIn(GetLines(r.sdp))
  }

  /** The two readers and the scan together: a sink that was added again with what the scan
      found finds nothing newer among the same announcements. */
  lemma ReAddedSinkIsUpToDate(sink: Sink, updated: Sink, remotes: seq<Remote>, info: Info, env: Env)
    requires |info.streams| == MEDIA_MAX && info.origin == NO_ORIGIN
    requires Parsed(sink, info, env) && OriginFirst(GetLines(sink.sdp)) && Browsed(remotes)
    requires Scan(sink, remotes).0 > 0 && updated.sdp == Scan(sink, remotes).1 && Parsed(updated, info, env)
    requires OriginFirst(GetLines(updated.sdp))
    ensures Scan(updated, remotes).0 == 0
    ensures SameOrigin(updated.origin, sink.origin)
    ensures updated.origin.version == Scan(sink, remotes).0 > sink.origin.version
  {
    hide Parse, OriginIn, GetLines, OriginFirst;
    var reading := (sdp: string) => OriginIn(GetLines(sdp));
    OriginsAgree(sink.sdp, info, env);
    assert Faithful(sink, remotes, reading);
    ScanFindsNewest(sink, remotes, reading);
    var r :| r in remotes && Newer(sink, r) && r.origin.version == Scan(sink, remotes).0 && r.sdp == Scan(sink, remotes).1;
    OriginsAgree(r.sdp, info, env);
    SecondPassFindsNothing(sink, remotes, reading);
    assert updated == Sink(r.sdp, reading(r.sdp));
  }

  /** Printer, parser, browser and scan joined: a sink that plays a printed description and hears
      the source announced again, in whatever else it has changed, takes the new description if
      and only if its version is higher, and then is up to date. */
  lemma PrintedSourceIsFollowed(was: Source, now: Source, sink: Sink, updated: Sink, info: Info, env: Env)
    requires SdpRoundTrip.GoodEnv(env) && SdpRoundTrip.Stored(was, env) && SdpRoundTrip.Stored(now, env)
    requires |info.streams| == MEDIA_MAX && info.origin == NO_ORIGIN
    requires now.sessionId == was.sessionId && now.srcIp == was.srcIp
    requires sink.sdp == Print(was, env) && Parsed(sink, info, env)
    requires updated.sdp == Print(now, env) && Parsed(updated, info, env)
    ensures var remotes := [Remote(OriginIn(GetLines(Print(now, env))), Print(now, env))];
            && (Scan(sink, remotes).0 > 0 <==> now.sessionVersion > was.sessionVersion)
            && (now.sessionVersion > was.sessionVersion ==>
                  Scan(sink, remotes) == (now.sessionVersion, Print(now, env)) && Scan(updated, remotes).0 == 0)
  {
    hide Parse, OriginIn, GetLines, OriginFirst, Print, Dec, Dotted;
    PrintedOriginFirst(was, env);
    PrintedOriginFirst(now, env);
    OriginsAgree(sink.sdp, info, env);
    var remote := Remote(OriginIn(GetLines(Print(now, env))), Print(now, env));
    DecIsNotEmpty(now.sessionId);
    assert [remote][..0] == [];
    if now.sessionVersion > was.sessionVersion {
      assert sink.sdp != remote.sdp;
      assert Scan(sink, [remote]) == (now.sessionVersion, Print(now, env));
      ReAddedSinkIsUpToDate(sink, updated, [remote], info, env);
    }
  }

  lemma DecIsNotEmpty(n: nat)
    ensures Dec(n) != ""
  {
  }

  lemma {:induction false} NothingNewer(sink: Sink, remotes: seq<Remote>)
    requires forall r :: r in remotes ==> !Newer(sink, r)
    ensures Scan(sink, remotes) == (0, sink.sdp)
  {
    if remotes != [] {
      NothingNewer(sink, remotes[..|remotes| - 1]);
      assert remotes[|remotes| - 1] in remotes;
    }
  }

  /** The updates of one pass over the sinks. */
  method GetUpdatedSinks(sinks: map<Id, Sink>, remotes: seq<Remote>) returns (updates: map<Id, string>)
    ensures updates == map id | id in sinks && Scan(sinks[id], remotes).0 > 0 :: Scan(sinks[id], remotes).1
  {
    updates := map[];
    var todo := sinks.Keys;
    while todo != {}
      invariant todo <= sinks.Keys
      invariant updates == map id | id in sinks && id !in todo && Scan(sinks[id], remotes).0 > 0 :: Scan(sinks[id], remotes).1
      decreases |todo|
    {
      var id :| id in todo;
      var newVersion, sdp := ScanOne(sinks[id], remotes);
      if newVersion > 0 {
        updates := updates[id := sdp];
      }
      todo := todo - {id};
    }
  }

  method ScanOne(sink: Sink, remotes: seq<Remote>) returns (newVersion: nat, sdp: string)
    ensures (newVersion, sdp) == Scan(sink, remotes)
  {
    newVersion, sdp := 0, sink.sdp;
    var i := 0;
    while i < |remotes|
      invariant 0 <= i <= |remotes|
      invariant (newVersion, sdp) == Scan(sink, remotes[..i])
    {
      var source := remotes[i];
      assert remotes[..i + 1][..i] == remotes[..i];
      if source.origin.sessionId != "" {
        if SameOrigin(sink.origin, source.origin) && sdp != source.sdp && sink.origin.version < source.origin.version
           && newVersion < source.origin.version {
          newVersion, sdp := source.origin.version, source.sdp;
        }
      }
      i := i + 1;
    }
    assert remotes[..i] == remotes;
  }
}
