// The registration side reads descriptions again, by searching the text for markers. On
// what the session side prints both readers see the same addresses and ports.
module NmosSdp {
  import opened Text
  import opened Sdp
  import opened SdpRoundTrip

  const AUDIO := "m=audio "
  const CONNECTION := "c=IN IP4 "
  const FILTER := "a=source-filter: incl IN IP4 "
  const GROUP := "a=group:DUP"
  const DEFAULT_PORT: uint16 := 5004

  // ----- searching -----

  predicate Matches(s: string, pat: string, i: nat) {
    i + |pat| <= |s| && s[i..i + |pat|] == pat
  }

  predicate NoMatchFrom(s: string, pat: string, d: nat) {
    forall i :: d <= i <= |s| ==> !Matches(s, pat, i)
  }

  /** std::string::find */
  function Find(s: string, pat: string, from: nat): (r: Option<nat>)
    ensures r.Some? ==> from <= r.value && Matches(s, pat, r.value)
    decreases |s| - from
  {
    if from + |pat| > |s| then None
    else if Matches(s, pat, from) then Some(from)
    else if from == |s| then None
    else Find(s, pat, from + 1)
  }

  /** std::string::find_first_of, with the end of the text for "not found". */
  function FindFirstOf(s: string, chars: string, from: nat): (i: nat)
    requires from <= |s|
    ensures from <= i <= |s| && (i < |s| ==> s[i] in chars)
    ensures forall k :: from <= k < i ==> s[k] !in chars
    decreases |s| - from
  {
    if from == |s| || s[from] in chars then from else FindFirstOf(s, chars, from + 1)
  }

  function MediaStart(sdp: string, leg: nat, from: nat): (r: Option<nat>) {
    match Find(sdp, AUDIO, from)
    case None => None
    case Some(k) => if leg == 0 then Some(k) else MediaStart(sdp, leg - 1, k + 1)
  }

  function ConnectionIp(sdp: string, leg: nat): (ip: string) {
    match MediaStart(sdp, leg, 0)
    case None => ""
    case Some(pos) =>
      var next := Find(sdp, "\nm=", pos + 1);
      match Find(sdp, CONNECTION, pos)
      case None => ""
      case Some(c) =>
        if next.Some? && c > next.value then ""
        else sdp[c + |CONNECTION|..FindFirstOf(sdp, "/\r\n", c + |CONNECTION|)]
  }

  function MediaPort(sdp: string, leg: nat): (port: uint16) {
    match MediaStart(sdp, leg, 0)
    case None => DEFAULT_PORT
    case Some(pos) =>
      assert Matches(sdp, AUDIO, pos) by { MediaStartIsThere(sdp, leg, 0); }
      var start := pos + |AUDIO|;
      match StoI(sdp[start..FindFirstOf(sdp, " ", start)])
      case None => DEFAULT_PORT
      case Some(n) => Low(n, 0x1_0000)
  }

  lemma MediaStartIsThere(sdp: string, leg: nat, from: nat)
    ensures var r := MediaStart(sdp, leg, from); r.Some? ==> Matches(sdp, AUDIO, r.value)
  {
  }

  function FilterStart(sdp: string, leg: nat, from: nat): (r: Option<nat>)
    ensures r.Some? ==> Matches(sdp, FILTER, r.value)
  {
    match Find(sdp, FILTER, from)
    case None => None
    case Some(k) => if leg == 0 then Some(k) else FilterStart(sdp, leg - 1, k + |FILTER|)
  }

  function SourceFilterIp(sdp: string, leg: nat): (ip: string) {
    match FilterStart(sdp, leg, 0)
    case None => ""
    case Some(pos) =>
      var sp := FindFirstOf(sdp, " ", pos + |FILTER|);
      if sp == |sdp| then "" else sdp[sp + 1..FindFirstOf(sdp, "\r\n", sp + 1)]
  }

  predicate HasDup(sdp: string) { Find(sdp, GROUP, 0).Some? }

  /** Transport parameters of one receiver leg; an empty multicast address stands for none. */
  datatype ReceiverTp = ReceiverTp(interfaceIp: string, multicastIp: string, destPort: uint16,
                                   sourceIp: string, rtpEnabled: bool)

  function LegTp(sdp: string, leg: nat, interfaceIp: string): (tp: ReceiverTp) {
    var dest, from := ConnectionIp(sdp, leg), SourceFilterIp(sdp, leg);
    ReceiverTp(interfaceIp,
               match ParseDotted(dest) { case Some(ip) => if Multicast(ip) then dest else "" case None => "" },
               MediaPort(sdp, leg), if from == "" then "auto" else from, true)
  }

  /** `second` is the secondary interface's address, when one is configured. */
  function TpsFromSdp(sdp: string, first: string, second: Option<string>): (tps: seq<ReceiverTp>)
    ensures |tps| == if second.Some? then 2 else 1
  {
    [LegTp(sdp, 0, first)]
    + match second
      case None => []
      case Some(ip) =>
        [if HasDup(sdp) then LegTp(sdp, 1, ip) else ReceiverTp(ip, "", DEFAULT_PORT, "auto", false)]
  }

  /** A description without sections and filters says nothing about where to listen. */
  lemma NothingSaid(sdp: string, leg: nat, interfaceIp: string)
    requires Find(sdp, AUDIO, 0).None? && Find(sdp, FILTER, 0).None?
    ensures LegTp(sdp, leg, interfaceIp) == ReceiverTp(interfaceIp, "", 5004, "auto", true)
    ensures ConnectionIp(sdp, leg) == "" && MediaPort(sdp, leg) == 5004 && SourceFilterIp(sdp, leg) == ""
  {
    assert ParseDotted("").None?;
  }

  /** Neither does a filter without a space behind its destination. */
  lemma NoSourceSaid(sdp: string, leg: nat)
    ensures FilterStart(sdp, leg, 0).None? ==> SourceFilterIp(sdp, leg) == ""
    ensures FilterStart(sdp, leg, 0).Some? && LacksAll(sdp[FilterStart(sdp, leg, 0).value + |FILTER|..], " ") ==>
              SourceFilterIp(sdp, leg) == ""
  {
    hide FilterStart;
    var r := FilterStart(sdp, leg, 0);
    if r.Some? && LacksAll(sdp[r.value + |FILTER|..], " ") {
      var k := r.value + |FILTER|;
      assert forall i :: k <= i < |sdp| ==> sdp[i] == sdp[k..][i - k];
    }
  }

  // ----- searching in lines -----

  function Shift(r: Option<nat>, n: nat): (t: Option<nat>) {
    match r
    case None => None
    case Some(k) => Some(n + k)
  }

  lemma {:induction false} FindDrop(a: string, b: string, pat: string, d: nat)
    ensures Find(a + b, pat, |a| + d) == Shift(Find(b, pat, d), |a|)
    decreases |b| - d
  {
    if d + |pat| <= |b| {
      assert (a + b)[|a| + d..|a| + d + |pat|] == b[d..d + |pat|];
      if !Matches(b, pat, d) && d < |b| {
        FindDrop(a, b, pat, d + 1);
      }
    }
  }

  /** A marker never runs over the end of a line. */
  lemma NotAcrossLines(line: string, rest: string, pat: string, d: nat)
    requires pat != "" && Lacks(pat, '\n') && d <= |line| && !Matches(line, pat, d)
    ensures !Matches(line + "\n" + rest, pat, d)
  {
    var s := line + "\n" + rest;
    assert s[|line|] == '\n';
    assert d + |pat| <= |line| ==> s[d..d + |pat|] == line[d..d + |pat|];
    assert |line| < d + |pat| <= |s| ==> s[d..d + |pat|][|line| - d] == '\n';
    assert |line| < d + |pat| ==> pat[|line| - d] != '\n';
  }

  lemma {:induction false} FindSkipsLine(line: string, rest: string, pat: string, d: nat)
    requires pat != "" && Lacks(pat, '\n') && d <= |line| && NoMatchFrom(line, pat, d)
    ensures Find(line + "\n" + rest, pat, d) == Shift(Find(rest, pat, 0), |line| + 1)
    decreases |line| - d
  {
    hide Matches;
    var s := line + "\n" + rest;
    NotAcrossLines(line, rest, pat, d);
    if d < |line| {
      FindSkipsLine(line, rest, pat, d + 1);
    } else {
      FindDrop(line + "\n", rest, pat, 0);
    }
    if d + |pat| > |s| {
      assert Find(s, pat, d + 1) == None;
    }
  }

  function Offset(lines: seq<string>, k: nat): (n: nat)
    requires k <= |lines|
  {
    |Unlines(lines[..k])|
  }

  predicate AbsentBetween(lines: seq<string>, pat: string, j: nat, k: nat)
    requires j <= k <= |lines|
  {
    forall i :: j <= i < k ==> NoMatchFrom(lines[i], pat, 0)
  }

  /** The first line that starts with the marker is where it is found. */
  lemma {:induction false} FindLine(lines: seq<string>, k: nat, pat: string)
    requires k < |lines| && pat != "" && Lacks(pat, '\n')
    requires AbsentBetween(lines, pat, 0, k) && pat <= lines[k]
    ensures Find(Unlines(lines), pat, 0) == Some(Offset(lines, k))
  {
    if k == 0 {
      assert Unlines(lines)[0..|pat|] == lines[0][..|pat|];
    } else {
      assert NoMatchFrom(lines[0], pat, 0);
      FindSkipsLine(lines[0], Unlines(lines[1..]), pat, 0);
      FindLine(lines[1..], k - 1, pat);
      assert lines[..k][1..] == lines[1..][..k - 1];
      assert Unlines(lines[..k]) == lines[0] + "\n" + Unlines(lines[1..][..k - 1]);
    }
  }

  lemma {:induction false} FindNowhere(lines: seq<string>, pat: string)
    requires pat != "" && Lacks(pat, '\n') && AbsentBetween(lines, pat, 0, |lines|)
    ensures Find(Unlines(lines), pat, 0) == None
  {
    if lines != [] {
      assert NoMatchFrom(lines[0], pat, 0);
      FindSkipsLine(lines[0], Unlines(lines[1..]), pat, 0);
      FindNowhere(lines[1..], pat);
    }
  }

  lemma {:induction false} OffsetSplit(lines: seq<string>, j: nat, k: nat)
    requires j <= k <= |lines|
    ensures Offset(lines, k) == Offset(lines, j) + Offset(lines[j..], k - j)
    ensures Unlines(lines) == Unlines(lines[..j]) + Unlines(lines[j..])
  {
    assert lines[..k] == lines[..j] + lines[j..][..k - j];
    UnlinesAppend(lines[..j], lines[j..][..k - j]);
    assert lines == lines[..j] + lines[j..];
    UnlinesAppend(lines[..j], lines[j..]);
  }

  /** Searching on from column `d` of the first line. */
  lemma FindAfterFirst(lines: seq<string>, d: nat, k: nat, pat: string)
    requires 0 < k < |lines| && pat != "" && Lacks(pat, '\n')
    requires d <= |lines[0]| && NoMatchFrom(lines[0], pat, d)
    requires AbsentBetween(lines, pat, 1, k) && pat <= lines[k]
    ensures Find(Unlines(lines), pat, d) == Some(Offset(lines, k))
  {
    hide Find, NoMatchFrom;
    var tail := lines[1..];
    FindSkipsLine(lines[0], Unlines(tail), pat, d);
    FindLine(tail, k - 1, pat);
    OffsetSplit(lines, 1, k);
    assert lines[..1] == [lines[0]];
    assert Unlines([lines[0]][1..]) == "";
  }

  /** Searching on from column `d` of line `j`. */
  lemma FindLineAfter(lines: seq<string>, j: nat, d: nat, k: nat, pat: string)
    requires j < k < |lines| && pat != "" && Lacks(pat, '\n')
    requires d <= |lines[j]| && NoMatchFrom(lines[j], pat, d)
    requires AbsentBetween(lines, pat, j + 1, k) && pat <= lines[k]
    ensures Find(Unlines(lines), pat, Offset(lines, j) + d) == Some(Offset(lines, k))
  {
    hide Find, NoMatchFrom, Unlines;
    var b := lines[j..];
    forall i | 1 <= i < k - j
      ensures NoMatchFrom(b[i], pat, 0)
    {
      assert b[i] == lines[j + i];
    }
    FindAfterFirst(b, d, k - j, pat);
    OffsetSplit(lines, j, k);
    FindDrop(Unlines(lines[..j]), Unlines(b), pat, d);
  }

  /** The text from line `k` on. */
  lemma TextAt(lines: seq<string>, k: nat)
    requires k < |lines|
    ensures Unlines(lines) == Unlines(lines[..k]) + (lines[k] + "\n" + Unlines(lines[k + 1..]))
  {
    assert lines == lines[..k] + lines[k..];
    UnlinesAppend(lines[..k], lines[k..]);
    assert lines[k..][0] == lines[k] && lines[k..][1..] == lines[k + 1..];
  }

  /** Reading up to a stop character that ends a field of line `k`. */
  lemma ReadUpTo(lines: seq<string>, k: nat, head: string, field: string, tail: string, stops: string)
    requires k < |lines| && lines[k] + "\n" == head + field + tail && LacksAll(field, stops)
    requires tail != "" && tail[0] in stops
    ensures var sdp, at := Unlines(lines), Offset(lines, k) + |head|;
            && at + |field| < |sdp| && FindFirstOf(sdp, stops, at) == at + |field|
            && sdp[at..at + |field|] == field
  {
    hide Unlines;
    var sdp, at := Unlines(lines), Offset(lines, k) + |head|;
    TextAt(lines, k);
    var before, after := Unlines(lines[..k]) + head, tail + Unlines(lines[k + 1..]);
    assert sdp == before + field + after;
    assert |before| == at && after[0] == tail[0];
    assert sdp[at..at + |field|] == field;
    assert sdp[at + |field|] == after[0];
    assert forall i :: at <= i < at + |field| ==> sdp[i] == field[i - at];
  }

  // ----- the markers in a printed description -----

  /** No equals sign inside could complete a marker. */
  predicate Quiet(val: string) {
    forall i :: 0 <= i < |val| && val[i] == '=' ==> i > 0 && val[i - 1] !in "mca"
  }

  lemma QuietCat(a: string, b: string)
    requires Quiet(a) && Lacks(b, '=')
    ensures Quiet(a + b)
  {
  }

  lemma {:induction false} LacksJoin(fields: seq<string>, sep: char, c: char)
    requires sep != c && forall k :: 0 <= k < |fields| ==> Lacks(fields[k], c)
    ensures Lacks(Join(fields, sep), c)
  {
    if |fields| > 1 {
      assert Lacks(fields[0], c);
      LacksJoin(fields[1..], sep, c);
    }
  }

  lemma NumbersLack(n: nat, ip: uint32)
    ensures Lacks(Dec(n), '=') && Lacks(Dotted(ip), '=') && Lacks(Dotted(ip), '\r') && Lacks(Dotted(ip), '\n')
    ensures LacksAll(Dec(n), " ") && LacksAll(Dotted(ip), "/\r\n ")
  {
    var a, b := Dec(n), Dotted(ip);
    DottedShape(ip);
    assert forall k :: 0 <= k < |a| ==> IsDigit(a[k]);
    assert forall k :: 0 <= k < |b| ==> DotOrDigit(b[k]);
  }

  /** A marker can only be the start of a quiet line of its own type. */
  lemma FieldMarks(key: char, val: string, pat: string)
    requires Quiet(val) && |pat| >= 2 && pat[1] == '=' && pat[0] in "mca"
    ensures NoMatchFrom(Field(key, val), pat, 1)
    ensures key != pat[0] || !(pat[2..] <= val) ==> NoMatchFrom(Field(key, val), pat, 0)
    ensures key == pat[0] && pat[2..] <= val ==> pat <= Field(key, val)
  {
  }

  lemma AttributeMarks(name: string, value: string)
    requires |name| >= 2 && Quiet(name + ":" + value)
    ensures NoMatchFrom(Attribute(name, value), AUDIO, 0) && NoMatchFrom(Attribute(name, value), CONNECTION, 0)
    ensures NoMatchFrom(Attribute(name, value), FILTER, 1)
    ensures name[1] != 'o' ==> NoMatchFrom(Attribute(name, value), FILTER, 0)
    ensures name[0] != 'g' ==> NoMatchFrom(Attribute(name, value), GROUP, 0)
  {
    hide NoMatchFrom, Quiet;
    var val := name + ":" + value;
    FieldMarks('a', val, AUDIO); FieldMarks('a', val, CONNECTION);
    FieldMarks('a', val, FILTER); FieldMarks('a', val, GROUP);
    assert val[0] == name[0] && val[1] == name[1];
    if FILTER[2..] <= val { assert FILTER[2..][1] == val[1]; }
    if GROUP[2..] <= val { assert GROUP[2..][0] == val[0]; }
  }

  lemma PlainAttributeMarks(name: string, value: string)
    requires |name| >= 2 && Lacks(name, '=') && Lacks(value, '=') && name[1] != 'o' && name[0] != 'g'
    ensures NoMatchFrom(Attribute(name, value), AUDIO, 0) && NoMatchFrom(Attribute(name, value), CONNECTION, 0)
    ensures NoMatchFrom(Attribute(name, value), FILTER, 0) && NoMatchFrom(Attribute(name, value), GROUP, 0)
  {
    LacksIsQuiet(name + ":" + value);
    AttributeMarks(name, value);
  }

  /** None of the markers that a search starts from. Addresses are searched from a section on. */
  predicate Unmarked(line: string) {
    NoMatchFrom(line, AUDIO, 0) && NoMatchFrom(line, FILTER, 0) && NoMatchFrom(line, GROUP, 0)
  }

  lemma MediaMarks(s: Stream)
    ensures var m := MediaLine(s);
            && AUDIO <= m && NoMatchFrom(m, AUDIO, 1)
            && NoMatchFrom(m, CONNECTION, 0) && NoMatchFrom(m, FILTER, 0) && NoMatchFrom(m, GROUP, 0)
  {
    hide NoMatchFrom, Quiet, Join, Dec, Dotted, MediaLine;
    MediaText(s);
    NumbersLack(s.destPort, 0); NumbersLack(s.payloadType, 0);
    var m := "audio " + Dec(s.destPort) + " RTP/AVP " + Dec(s.payloadType);
    LacksIsQuiet(m);
    FieldMarks('m', m, AUDIO); FieldMarks('m', m, CONNECTION); FieldMarks('m', m, FILTER); FieldMarks('m', m, GROUP);
    assert AUDIO[2..] == "audio " && m[..6] == "audio ";
  }

  lemma ConnectionMarks(s: Stream)
    ensures var c := ConnectionLine(s);
            && CONNECTION <= c
            && NoMatchFrom(c, AUDIO, 0) && NoMatchFrom(c, FILTER, 0) && NoMatchFrom(c, GROUP, 0)
  {
    hide NoMatchFrom, Quiet, Join, Dec, Dotted, ConnectionLine;
    ConnectionText(s);
    NumbersLack(s.ttl, s.destIp);
    var c := "IN IP4 " + Dotted(s.destIp) + (if Multicast(s.destIp) then "/" + Dec(s.ttl) else "");
    LacksIsQuiet(c);
    FieldMarks('c', c, AUDIO); FieldMarks('c', c, CONNECTION); FieldMarks('c', c, FILTER); FieldMarks('c', c, GROUP);
    assert CONNECTION[2..] == "IN IP4 " && c[..7] == "IN IP4 ";
  }

  lemma FilterMarks(s: Stream, from: uint32)
    ensures var f := FilterLine(s, from);
            && FILTER <= f && NoMatchFrom(f, FILTER, 1)
            && NoMatchFrom(f, AUDIO, 0) && NoMatchFrom(f, CONNECTION, 0) && NoMatchFrom(f, GROUP, 0)
  {
    hide NoMatchFrom, Quiet, Dotted;
    NumbersLack(0, s.destIp); NumbersLack(0, from);
    var f := " incl IN IP4 " + Dotted(s.destIp) + " " + Dotted(from);
    var val := "source-filter" + ":" + f;
    LacksIsQuiet(val);
    AttributeMarks("source-filter", f);
    FieldMarks('a', val, FILTER);
    FilterTail(Dotted(s.destIp) + " " + Dotted(from));
    assert val == "source-filter" + ":" + (" incl IN IP4 " + (Dotted(s.destIp) + " " + Dotted(from)));
  }

  lemma FilterTail(rest: string)
    ensures FILTER[2..] <= "source-filter" + ":" + (" incl IN IP4 " + rest)
  {
    assert FILTER[2..] == "source-filter" + ":" + " incl IN IP4 ";
    assert "source-filter" + ":" + (" incl IN IP4 " + rest) == FILTER[2..] + rest;
  }

  /** A marker that is not in the codec is not there because of the codec. */
  lemma AroundCodec(head: string, codec: string, tail: string, pat: string)
    requires |pat| >= 3 && pat[0] != ' ' && pat[1] == '=' && Lacks(pat, '/')
    requires |head| >= 3 && head[..3] != pat[..3] && head[|head| - 1] == ' '
    requires forall j :: 2 <= j < |head| ==> head[j] != '='
    requires tail != "" && tail[0] == '/' && Lacks(tail, '=') && NoMatchFrom(codec, pat, 0)
    ensures NoMatchFrom(head + codec + tail, pat, 0)
  {
    var s, h, m := head + codec + tail, |head|, |head| + |codec|;
    forall i | 0 <= i <= |s|
      ensures !Matches(s, pat, i)
    {
      if i + |pat| <= |s| {
        var t := s[i..i + |pat|];
        assert t[0] == s[i] && t[1] == s[i + 1];
        if i == 0 {
          assert t[..3] == head[..3];
        } else if h <= i < m {
          assert !Matches(codec, pat, i - h);
          assert i + |pat| <= m ==> t == codec[i - h..i - h + |pat|];
          assert i + |pat| > m ==> t[m - i] == '/';
        } else if m <= i {
          assert s[i + 1] == tail[i + 1 - m];
        }
      }
    }
  }

  lemma RtpmapText(s: Stream, env: Env)
    ensures RtpmapLine(s, env) == ("a=rtpmap:" + Dec(s.payloadType) + " ") + s.codec
                                  + ("/" + Dec(env.sampleRate) + "/" + Dec(s.channels))
  {
    hide Dec;
    var a, b := Dec(env.sampleRate), Dec(s.channels);
    assert Join([b], '/') == b && Join([a, b], '/') == a + "/" + b by {
      assert [a, b][1..] == [b];
    }
    assert [s.codec, a, b][1..] == [a, b];
  }

  predicate MarkerShape(pat: string) {
    |pat| >= 3 && pat[0] != ' ' && pat[1] == '=' && pat[..3] != "a=r" && Lacks(pat, '/')
  }

  lemma MarkersAreShaped()
    ensures MarkerShape(AUDIO) && MarkerShape(FILTER) && MarkerShape(GROUP)
  {
    assert AUDIO[..3] == "m=a" && FILTER[..3] == "a=s" && GROUP[..3] == "a=g";
  }

  lemma RtpmapMark(s: Stream, env: Env, pat: string)
    requires MarkerShape(pat) && NoMatchFrom(s.codec, pat, 0)
    ensures NoMatchFrom(RtpmapLine(s, env), pat, 0)
  {
    hide NoMatchFrom, Join, Dec, RtpmapLine;
    NumbersLack(s.payloadType, 0); NumbersLack(env.sampleRate, 0); NumbersLack(s.channels, 0);
    RtpmapText(s, env);
    var head, tail := "a=rtpmap:" + Dec(s.payloadType) + " ", "/" + Dec(env.sampleRate) + "/" + Dec(s.channels);
    assert head[..3] == "a=r";
    AroundCodec(head, s.codec, tail, pat);
  }

  lemma RtpmapMarks(s: Stream, env: Env)
    requires Unmarked(s.codec)
    ensures Unmarked(RtpmapLine(s, env))
  {
    hide NoMatchFrom, RtpmapLine, MarkerShape;
    MarkersAreShaped();
    RtpmapMark(s, env, AUDIO);
    RtpmapMark(s, env, FILTER);
    RtpmapMark(s, env, GROUP);
  }

  lemma LacksIsQuiet(val: string)
    requires Lacks(val, '=')
    ensures Quiet(val)
  {
  }

  lemma MediaText(s: Stream)
    ensures MediaLine(s) == Field('m', "audio " + Dec(s.destPort) + " RTP/AVP " + Dec(s.payloadType))
    ensures MediaLine(s) == AUDIO + Dec(s.destPort) + (" RTP/AVP " + Dec(s.payloadType))
  {
    hide Dec;
    var a, b := Dec(s.destPort), Dec(s.payloadType);
    assert Join([b], ' ') == b;
    assert Join(["RTP/AVP", b], ' ') == "RTP/AVP" + " " + b;
    assert Join([a, "RTP/AVP", b], ' ') == a + " " + ("RTP/AVP" + " " + b);
    assert Join(["audio", a, "RTP/AVP", b], ' ') == "audio" + " " + (a + " " + ("RTP/AVP" + " " + b));
  }

  lemma ConnectionText(s: Stream)
    ensures var ttl := if Multicast(s.destIp) then "/" + Dec(s.ttl) else "";
            && ConnectionLine(s) == Field('c', "IN IP4 " + Dotted(s.destIp) + ttl)
            && ConnectionLine(s) == CONNECTION + Dotted(s.destIp) + ttl
  {
    hide Dec, Dotted, Multicast;
    var a, t := Dotted(s.destIp), Dec(s.ttl);
    var address := Join([a] + TtlField(s), '/');
    assert Join([a], '/') == a && Join([t], '/') == t;
    assert [a] + [] == [a] && [a] + [t] == [a, t];
    assert Join([a, t], '/') == a + "/" + t;
    assert Join([address], ' ') == address;
    assert Join(["IP4", address], ' ') == "IP4" + " " + address;
    assert Join(["IN", "IP4", address], ' ') == "IN" + " " + ("IP4" + " " + address);
  }

  lemma FilterText(s: Stream, from: uint32)
    ensures FilterLine(s, from) == FILTER + Dotted(s.destIp) + (" " + Dotted(from))
  {
    hide Dotted;
  }
}
