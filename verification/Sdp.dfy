// The session descriptions the daemon prints for its sources, and the parser that reads
// descriptions for its sinks.
module Sdp {
  import opened Text
  import opened PacketTime

  const MEDIA_MAX := 2
  const NO_ADDRESS: uint32 := 0xFFFF_FFFF

  datatype Stream = Stream(destPort: uint16, payloadType: uint8, codec: string, wordLength: uint8,
                           samplingRate: uint32, rtpOffset: uint32, maxSamples: uint32,
                           destIp: uint32, ttl: uint8, channels: uint8)

  datatype Origin = Origin(username: string, sessionId: string, version: nat, networkType: string,
                           addressType: string, unicastAddress: string)

  /** The version is not part of the comparison. */
  predicate SameOrigin(a: Origin, b: Origin) {
    && a.username == b.username && a.sessionId == b.sessionId
    && a.networkType == b.networkType && a.addressType == b.addressType
    && a.unicastAddress == b.unicastAddress
  }

  /** Configuration and clock state that printing and parsing depend on. `secIp` is the
      address of the secondary interface, when it has one. */
  datatype Env = Env(sampleRate: uint32, nodeId: string, ip: uint32, secIp: Option<uint32>,
                     domain: uint8, gmid: string, codecCap: nat)

  /** A stored source. */
  datatype Source = Source(sessionId: uint32, sessionVersion: uint32, srcIp: uint32, name: string,
                           first: Stream, second: Stream, dual: bool, traceable: bool)

  function WordLength(codec: string): (n: uint8) {
    if codec == "L16" then 2
    else if codec == "L24" then 3
    else if codec == "L2432" || codec == "AM824" then 4
    else if codec == "DSD64" then 1
    else if codec == "DSD128" then 2
    else if codec == "DSD64_32" || codec == "DSD128_32" || codec == "DSD256" then 4
    else 0
  }

  // ----- printing -----

  predicate Dup(src: Source, env: Env) { src.dual && env.secIp.Some? }

  /** One line of a description: a type character and a value. */
  function Field(key: char, val: string): (line: string) { [key, '='] + val }

  function Attribute(name: string, value: string): (line: string) { Field('a', name + ":" + value) }

  function OriginLine(src: Source): (line: string) {
    Field('o', Join(["-", Dec(src.sessionId), Dec(src.sessionVersion), "IN", "IP4", Dotted(src.srcIp)], ' '))
  }

  function SessionLine(src: Source, env: Env): (line: string) {
    Field('s', env.nodeId + " " + src.name)
  }

  function MediaLine(s: Stream): (line: string) {
    Field('m', Join(["audio", Dec(s.destPort), "RTP/AVP", Dec(s.payloadType)], ' '))
  }

  function ConnectionLine(s: Stream): (line: string) {
    Field('c', Join(["IN", "IP4", Join([Dotted(s.destIp)] + TtlField(s), '/')], ' '))
  }

  function TtlField(s: Stream): (fields: seq<string>) {
    if Multicast(s.destIp) then [Dec(s.ttl)] else []
  }

  function FilterLine(s: Stream, from: uint32): (line: string) {
    Attribute("source-filter", " incl IN IP4 " + Dotted(s.destIp) + " " + Dotted(from))
  }

  function RtpmapLine(s: Stream, env: Env): (line: string) {
    Attribute("rtpmap", Dec(s.payloadType) + " " + Join([s.codec, Dec(env.sampleRate), Dec(s.channels)], '/'))
  }

  function RefclkLine(traceable: bool, env: Env): (line: string) {
    Attribute("ts-refclk", Join(["ptp=IEEE1588-2008"] + ClockFields(traceable, env), ':'))
  }

  function ClockFields(traceable: bool, env: Env): (fields: seq<string>) {
    if traceable then ["traceable"] else [env.gmid, Dec(env.domain)]
  }

  function Media(s: Stream, ptime: string, from: uint32, traceable: bool, env: Env): (lines: seq<string>) {
    [MediaLine(s), ConnectionLine(s), FilterLine(s, from), RtpmapLine(s, env),
     Attribute("sync-time", "0"), Attribute("framecount", Dec(s.maxSamples)), Attribute("ptime", ptime),
     Attribute("mediaclk", "direct=0"), Attribute("clock-domain", "PTPv2 " + Dec(env.domain)),
     RefclkLine(traceable, env)]
  }

  function Head(src: Source, env: Env): (lines: seq<string>) {
    [Field('v', "0"), OriginLine(src), SessionLine(src, env), Field('t', "0 0")]
    + if Dup(src, env) then [Attribute("group", "DUP 1 2")] else []
  }

  function Lines(src: Source, env: Env): (lines: seq<string>)
    requires env.sampleRate > 0
  {
    var ptime := Ptime(src.first.maxSamples, env.sampleRate);
    Head(src, env)
    + Media(src.first, ptime, env.ip, src.traceable, env) + [Field('a', "recvonly")]
    + if Dup(src, env) then
        [Attribute("mid", "1")] + Media(src.second, ptime, env.secIp.value, src.traceable, env) + [Attribute("mid", "2")]
      else []
  }

  function Print(src: Source, env: Env): (sdp: string)
    requires env.sampleRate > 0
  {
    Unlines(Lines(src, env))
  }

  // ----- parsing -----

  datatype Info = Info(streams: seq<Stream>, origin: Origin, dual: bool, ignoreGmid: bool)

  datatype Section = InSession | AfterTime | InMedia

  datatype Parser = Parser(info: Info, mid: int, section: Section, dup: bool)

  /** Where the parser can be while it still reads lines. */
  predicate Reading(p: Parser) {
    |p.info.streams| == MEDIA_MAX && -1 <= p.mid < MEDIA_MAX && (p.section.InMedia? ==> p.mid >= 0)
  }

  /** Once a third audio section has been seen no more lines are read. */
  predicate Legal(p: Parser) {
    Reading(p) || (|p.info.streams| == MEDIA_MAX && p.mid == MEDIA_MAX)
  }

  function SetStream(p: Parser, s: Stream): (r: Parser)
    requires Reading(p) && p.section.InMedia?
    ensures Reading(r) && r.section.InMedia?
  {
    p.(info := p.info.(streams := p.info.streams[p.mid := s]))
  }

  function Low(n: int, size: nat): (r: nat)
    requires size > 0
    ensures r < size
  {
    n % size
  }

  function Cut(codec: string, cap: nat): (r: string) {
    if |codec| <= cap then codec else codec[..cap]
  }

  function ParseOrigin(p: Parser, val: string): (r: Option<Parser>)
    requires Reading(p)
    ensures r.Some? ==> Legal(r.value) && r.value.mid == p.mid
  {
    var f := Split(val, " ");
    if |f| < 6 then Some(p)
    else match StoU(f[2])
      case None => None
      case Some(v) => Some(p.(info := p.info.(origin := Origin(f[0], f[1], v, f[3], f[4], f[5]))))
  }

  function ParseRtpmap(p: Parser, value: string, cap: nat): (r: Option<Parser>)
    requires Reading(p) && p.section.InMedia?
    ensures r.Some? ==> Reading(r.value)
  {
    var f := Split(value, " /");
    if |f| < 4 then None
    else match StoI(f[0])
      case None => None
      case Some(pt) =>
        var s := p.info.streams[p.mid];
        if s.payloadType != pt then Some(p)
        else match StoU(f[2])
          case None => None
          case Some(rate) =>
            if StoI(f[3]).None? then None
            else Some(SetStream(p, s.(codec := Cut(f[1], cap), wordLength := WordLength(f[1]),
                                      samplingRate := Low(rate, U32))))
  }

  function ParseOffset(p: Parser, text: string): (r: Option<Parser>)
    requires Reading(p) && p.section.InMedia?
    ensures r.Some? ==> Reading(r.value)
  {
    match StoU(text)
    case None => None
    case Some(v) => Some(SetStream(p, p.info.streams[p.mid].(rtpOffset := Low(v, U32))))
  }

  function ParsePtime(p: Parser, value: string): (r: Option<Parser>)
    requires Reading(p) && p.section.InMedia?
    ensures r.Some? ==> Reading(r.value)
  {
    match StoD(value)
    case None => None
    case Some(d) =>
      var s := p.info.streams[p.mid];
      Some(SetStream(p, s.(maxSamples := SamplesOf(d, s.samplingRate))))
  }

  /** A reference clock with a clock identity must be the one in use. */
  function ParseRefclk(p: Parser, value: string, env: Env): (r: Option<Parser>)
    requires Reading(p)
    ensures r.Some? ==> Reading(r.value)
  {
    var f := Split(value, ":");
    if p.info.ignoreGmid || |f| != 3 then Some(p)
    else if f[1] != env.gmid || StoI(f[2]) != Some(env.domain) then None
    else Some(p)
  }

  function ParseMediaAttribute(p: Parser, name: string, value: string, env: Env): (r: Option<Parser>)
    requires Reading(p) && p.section.InMedia?
    ensures r.Some? ==> Reading(r.value)
  {
    if name == "rtpmap" then ParseRtpmap(p, value, env.codecCap)
    else if name == "sync-time" then ParseOffset(p, value)
    else if name == "ptime" then ParsePtime(p, value)
    else if name == "mediaclk" then
      var f := Split(value, "=");
      if |f| == 2 && f[0] == "direct" then ParseOffset(p, f[1]) else Some(p)
    else if name == "ts-refclk" then ParseRefclk(p, value, env)
    else Some(p)
  }

  predicate StartsWith(s: string, prefix: string) { prefix <= s }

  function ParseSessionAttribute(p: Parser, name: string, value: string): (r: Option<Parser>) {
    if name == "group" then Some(if StartsWith(value, "DUP") then p.(dup := true) else p)
    else if name == "clock-domain" && !StartsWith(value, "PTPv2") then None
    else Some(p)
  }

  function ParseAttribute(p: Parser, val: string, env: Env): (r: Option<Parser>)
    requires Reading(p)
    ensures r.Some? ==> Reading(r.value)
  {
    var i := IndexOf(val, ':');
    if i == |val| then Some(p)
    else if p.section.InMedia? then ParseMediaAttribute(p, val[..i], val[i + 1..], env)
    else ParseSessionAttribute(p, val[..i], val[i + 1..])
  }

  function ParseMedia(p: Parser, val: string): (r: Option<Parser>)
    requires Reading(p)
    ensures r.Some? ==> Legal(r.value)
  {
    var f := Split(val, " ");
    if |f| < 4 then None
    else if f[0] != "audio" then Some(p)
    else if p.mid + 1 == MEDIA_MAX then Some(p.(mid := MEDIA_MAX))
    else match (StoI(f[1]), StoI(f[3]))
      case (Some(port), Some(pt)) =>
        var q := p.(mid := p.mid + 1, section := InMedia);
        Some(SetStream(q, q.info.streams[q.mid].(destPort := Low(port, 0x1_0000), payloadType := Low(pt, 0x100))))
      case _ => None
  }

  function ParseConnection(p: Parser, val: string): (r: Option<Parser>)
    requires Reading(p)
    ensures r.Some? ==> Reading(r.value)
  {
    if p.section.AfterTime? then Some(p)
    else
      var f := Split(val, " /");
      if |f| < 3 || f[0] != "IN" || f[1] != "IP4" then None
      else match (ParseDotted(f[2]), if |f| > 3 then StoI(f[3]) else Some(64))
        case (Some(ip), Some(ttl)) =>
          if ip == NO_ADDRESS then None
          else if p.section.InMedia? then
            Some(SetStream(p, p.info.streams[p.mid].(destIp := ip, ttl := Low(ttl, 0x100))))
          else
            Some(p.(info := p.info.(streams :=
              [p.info.streams[0].(destIp := ip, ttl := Low(ttl, 0x100)),
               p.info.streams[1].(destIp := ip, ttl := Low(ttl, 0x100))])))
        case _ => None
  }

  function ParseField(p: Parser, key: char, val: string, env: Env): (r: Option<Parser>)
    requires Reading(p)
    ensures r.Some? ==> Legal(r.value)
  {
    match key
    case 'v' => if val == "0" then Some(p) else None
    case 'o' => ParseOrigin(p, val)
    case 't' => Some(p.(section := AfterTime))
    case 'a' => ParseAttribute(p, val, env)
    case 'm' => ParseMedia(p, val)
    case 'c' => ParseConnection(p, val)
    case ch => if 'a' <= ch <= 'z' then Some(p) else None
  }

  /** One line; None where the parser gives up. */
  function ParseLine(p: Parser, line: string, env: Env): (r: Option<Parser>)
    requires Reading(p)
    ensures r.Some? ==> Legal(r.value)
  {
    var t := Trim(line);
    if |t| < 2 || t[1] != '=' then None else ParseField(p, t[0], t[2..], env)
  }

  function ParseLines(p: Parser, lines: seq<string>, env: Env): (r: Option<Parser>)
    requires Legal(p)
    ensures r.Some? ==> Legal(r.value)
    decreases |lines|
  {
    if lines == [] || p.mid == MEDIA_MAX then Some(p)
    else match ParseLine(p, lines[0], env)
      case None => None
      case Some(q) => ParseLines(q, lines[1..], env)
  }

  function Start(info: Info): (p: Parser) { Parser(info, -1, InSession, false) }

  function Finish(p: Parser): (info: Info) {
    if p.dup && p.mid > 0 then p.info.(dual := true) else p.info
  }

  function Parse(sdp: string, info: Info, env: Env): (r: Option<Info>)
    requires |info.streams| == MEDIA_MAX
  {
    match ParseLines(Start(info), GetLines(sdp), env)
    case None => None
    case Some(p) => Some(Finish(p))
  }

  /** The parser's loop. Whatever the text, only the two media slots are touched. */
  method ParseSdp(sdp: string, info: Info, env: Env) returns (ok: bool, out: Info)
    requires |info.streams| == MEDIA_MAX
    ensures ok <==> Parse(sdp, info, env).Some?
    ensures ok ==> Parse(sdp, info, env) == Some(out) && |out.streams| == MEDIA_MAX
  {
    var lines := GetLines(sdp);
    var p := Start(info);
    var i := 0;
    while i < |lines| && p.mid < MEDIA_MAX
      invariant 0 <= i <= |lines| && Legal(p)
      invariant ParseLines(Start(info), lines, env) == ParseLines(p, lines[i..], env)
    {
      var step := ParseLine(p, lines[i], env);
      assert lines[i..][0] == lines[i] && lines[i..][1..] == lines[i + 1..];
      if step.None? {
        return false, info;
      }
      p := step.value;
      i := i + 1;
    }
    return true, Finish(p);
  }
}
