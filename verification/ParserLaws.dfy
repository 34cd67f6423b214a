// What the parser does with lines that the daemon does not print.
module ParserLaws {
  // Other senders put the address in front of the sections, leave out the TTL, list several
  // payload types, describe video, or make mistakes.

  import opened Text
  import opened Sdp
  import opened SdpRoundTrip

  // ----- addresses -----

  /** The value of a connection line, with or without a TTL. */
  function Address(ip: uint32, ttl: Option<uint8>): (val: string) { Join(["IN", "IP4", Target(ip, ttl)], ' ') }

  function Target(ip: uint32, ttl: Option<uint8>): (val: string) {
    Dotted(ip) + if ttl.Some? then ['/'] + Dec(ttl.value) else ""
  }

  lemma TargetFields(ip: uint32, ttl: Option<uint8>)
    ensures Tidy(Target(ip, ttl)) && Target(ip, ttl) != ""
    ensures Split(Target(ip, ttl), " /") == [Dotted(ip)] + if ttl.Some? then [Dec(ttl.value)] else []
  {
    hide Split, Dotted, Dec;
    var d := Dotted(ip);
    DottedShape(ip);
    if ttl.Some? {
      var t := Dec(ttl.value);
      TidyDec(ttl.value);
      assert Target(ip, ttl) == d + ['/'] + t == (d + ['/']) + t;
      SplitOff(d, '/', t, " /");
      SplitLast(t, " /");
      TidyCat(d + ['/'], t);
    } else {
      assert Target(ip, ttl) == d;
      SplitLast(d, " /");
    }
  }

  lemma AddressFields(ip: uint32, ttl: Option<uint8>)
    ensures Tidy(Address(ip, ttl))
    ensures Split(Address(ip, ttl), " /") ==
            ["IN", "IP4"] + ([Dotted(ip)] + if ttl.Some? then [Dec(ttl.value)] else [])
  {
    hide Split, Dotted, Dec, Target, Join;
    TargetFields(ip, ttl);
    TidyJoin(["IN", "IP4", Target(ip, ttl)], ' ');
    SplitConnection(Target(ip, ttl));
  }

  /** An address line: for the section it is in, for both slots in front of all sections, and
      for nothing behind the time line; without a TTL it is 64. The address 255.255.255.255 is
      refused where the line counts. */
  lemma ReadAddress(ip: uint32, ttl: Option<uint8>, p: Parser, env: Env)
    requires Reading(p)
    ensures var n := if ttl.Some? then ttl.value else 64;
            ParseLine(p, Field('c', Address(ip, ttl)), env) ==
            if p.section == AfterTime then Some(p)
            else if ip == 0xFFFF_FFFF then None
            else if p.section == InMedia then
              Some(p.(info := p.info.(streams := p.info.streams[p.mid := p.info.streams[p.mid].(destIp := ip, ttl := n)])))
            else
              Some(p.(info := p.info.(streams := [p.info.streams[0].(destIp := ip, ttl := n),
                                                  p.info.streams[1].(destIp := ip, ttl := n)])))
  {
    hide Split, Dotted, Dec, StoI, ParseDotted, Trim, Address;
    AddressFields(ip, ttl);
    ReadField('c', Address(ip, ttl), p, env);
    assert ParseDotted(Dotted(ip)) == Some(ip) by { DottedRoundTrip(ip); }
    if ttl.Some? {
      assert StoI(Dec(ttl.value)) == Some(ttl.value) by { ReadDec(ttl.value, ""); }
    }
  }

  // ----- sections -----

  /** A section of another medium is passed over: its attributes go to the section in front. */
  lemma OtherMediaArePassedOver(f: seq<string>, p: Parser, env: Env)
    requires Reading(p) && |f| >= 4 && f[0] != "audio" && (forall k :: 0 <= k < |f| ==> LacksAll(f[k], " \n"))
    requires Tidy(Join(f, ' '))
    ensures ParseLine(p, Field('m', Join(f, ' ')), env) == Some(p)
  {
    hide Split, Join, Trim, StoI;
    ReadField('m', Join(f, ' '), p, env);
    assert forall k :: 0 <= k < |f| ==> LacksAll(f[k], " ");
    SplitJoin(f, ' ', " ");
  }

  /** An audio section opens the next slot with its port and the first of its payload types,
      each as far as it fits; behind the second slot the parser stops reading. */
  lemma AudioOpensASlot(port: nat, types: seq<nat>, p: Parser, env: Env)
    requires Reading(p) && |types| > 0 && port < 0x8000_0000 && types[0] < 0x8000_0000
    requires Tidy(Join(["audio", Dec(port), "RTP/AVP"] + Decs(types), ' '))
    ensures ParseLine(p, Field('m', Join(["audio", Dec(port), "RTP/AVP"] + Decs(types), ' ')), env) ==
            if p.mid == 1 then Some(p.(mid := 2))
            else
              var was := p.info.streams[p.mid + 1];
              Some(Parser(p.info.(streams := p.info.streams[p.mid + 1 :=
                     was.(destPort := port % 0x1_0000, payloadType := types[0] % 0x100)]), p.mid + 1, InMedia, p.dup))
  {
    hide Split, Join, Trim, StoI, Dec, ParseMedia;
    var f := ["audio", Dec(port), "RTP/AVP"] + Decs(types);
    ReadField('m', Join(f, ' '), p, env);
    TidyDec(port);
    forall k | 0 <= k < |f|
      ensures LacksAll(f[k], " ")
    {
      if k >= 3 {
        TidyDec(types[k - 3]);
      }
    }
    SplitJoin(f, ' ', " ");
    TakeAudio(Join(f, ' '), f, port, types[0], p);
  }

  lemma TakeAudio(val: string, f: seq<string>, port: nat, pt: nat, p: Parser)
    requires Reading(p) && port < 0x8000_0000 && pt < 0x8000_0000
    requires Split(val, " ") == f && |f| >= 4 && f[0] == "audio" && f[1] == Dec(port) && f[3] == Dec(pt)
    ensures ParseMedia(p, val) ==
            if p.mid == 1 then Some(p.(mid := 2))
            else
              var was := p.info.streams[p.mid + 1];
              Some(Parser(p.info.(streams := p.info.streams[p.mid + 1 :=
                     was.(destPort := port % 0x1_0000, payloadType := pt % 0x100)]), p.mid + 1, InMedia, p.dup))
  {
    hide Split, StoI, Dec;
    assert StoI(Dec(port)) == Some(port) by { ReadDec(port, ""); }
    assert StoI(Dec(pt)) == Some(pt) by { ReadDec(pt, ""); }
  }

  function Decs(ns: seq<nat>): (r: seq<string>)
    ensures |r| == |ns| && forall k :: 0 <= k < |ns| ==> r[k] == Dec(ns[k])
  {
    if ns == [] then [] else [Dec(ns[0])] + Decs(ns[1..])
  }

  /** Nothing behind a third audio section is read, well formed or not. */
  lemma NothingBehindTheThird(p: Parser, lines: seq<string>, env: Env)
    requires Legal(p) && p.mid == 2
    ensures ParseLines(p, lines, env) == Some(p)
  {
  }

  // ----- attributes -----

  /** Only the format of the payload type that the section announced is taken. */
  lemma OtherFormatsAreIgnored(pt: nat, codec: string, rate: nat, channels: nat, p: Parser, env: Env)
    requires Reading(p) && p.section.InMedia? && pt < 0x8000_0000 && pt != p.info.streams[p.mid].payloadType
    requires LacksAll(codec, " /\n")
    ensures ParseLine(p, Attribute("rtpmap", Dec(pt) + " " + Join([codec, Dec(rate), Dec(channels)], '/')), env) == Some(p)
  {
    hide Split, Join, Trim, StoI, StoU, Dec;
    var tail := Join([Dec(rate), Dec(channels)], '/');
    var rest := Join([codec, Dec(rate), Dec(channels)], '/');
    TidyDec(pt); TidyDec(rate); TidyDec(channels);
    TidyJoin([Dec(rate), Dec(channels)], '/');
    assert rest == (codec + "/") + tail by { JoinFirst(codec, Dec(rate), Dec(channels)); }
    TidyCat(codec + "/", tail);
    TidyCat(Dec(pt) + " ", rest);
    assert LacksAll(codec, " /");
    SplitJoin([codec, Dec(rate), Dec(channels)], '/', " /");
    assert Dec(pt) + " " + rest == Dec(pt) + [' '] + rest;
    SplitOff(Dec(pt), ' ', rest, " /");
    ReadAttribute("rtpmap", Dec(pt) + " " + rest, p, env);
    assert StoI(Dec(pt)) == Some(pt) by { ReadDec(pt, ""); }
  }

  lemma JoinFirst(a: string, b: string, c: string)
    ensures Join([a, b, c], '/') == (a + "/") + Join([b, c], '/')
  {
    assert [a, b, c][1..] == [b, c];
    assert a + ['/'] + Join([b, c], '/') == (a + "/") + Join([b, c], '/');
  }

  /** The two ways to give an RTP offset: the later one counts, modulo 2^32. */
  lemma OffsetsAreRead(n: nat, p: Parser, env: Env)
    requires Reading(p) && p.section.InMedia? && n < U64
    ensures var r := Some(p.(info := p.info.(streams :=
              p.info.streams[p.mid := p.info.streams[p.mid].(rtpOffset := n % 0x1_0000_0000)])));
            && ParseLine(p, Attribute("sync-time", Dec(n)), env) == r
            && ParseLine(p, Attribute("mediaclk", "direct=" + Dec(n)), env) == r
  {
    hide Split, Trim, StoU, Dec;
    TidyDec(n);
    ReadAttribute("sync-time", Dec(n), p, env);
    TidyCat("direct=", Dec(n));
    ReadAttribute("mediaclk", "direct=" + Dec(n), p, env);
    assert StoU(Dec(n)) == Some(n) by { ReadDec(n, ""); }
    assert "direct=" + Dec(n) == "direct" + ['='] + Dec(n);
    SplitOff("direct", '=', Dec(n), "=");
    assert Split(Dec(n), "=") == [Dec(n)] by {
      DigitsOnly(n);
      SplitLast(Dec(n), "=");
    }
  }

  lemma DigitsOnly(n: nat)
    ensures LacksAll(Dec(n), "=")
  {
  }

  /** Attributes that the parser does not know, in a section or in front of all, change nothing. */
  lemma UnknownAttributesAreIgnored(name: string, value: string, p: Parser, env: Env)
    requires Reading(p) && LacksAll(name, ":\n") && Tidy(value)
    requires if p.section.InMedia? then name !in {"rtpmap", "sync-time", "ptime", "mediaclk", "ts-refclk"}
             else name !in {"group", "clock-domain"}
    ensures ParseLine(p, Attribute(name, value), env) == Some(p)
  {
    hide Trim, Split;
    var val := name + ":" + value;
    assert val == name + [':'] + value;
    assert val[|val| - 1] == if value == "" then ':' else value[|value| - 1];
    ReadField('a', val, p, env);
    IndexAfter(name, ':', value);
  }

  lemma ReadSessionAttribute(name: string, value: string, p: Parser, env: Env)
    requires Reading(p) && !p.section.InMedia? && LacksAll(name, ":\n") && Tidy(value)
    ensures ParseLine(p, Attribute(name, value), env) == ParseSessionAttribute(p, name, value)
  {
    hide Trim;
    var val := name + ":" + value;
    assert val == name + [':'] + value;
    assert val[|val| - 1] == if value == "" then ':' else value[|value| - 1];
    ReadField('a', val, p, env);
    IndexAfter(name, ':', value);
  }

  /** In front of the sections, a group counts if it is a duplication, and a clock domain must be
      a PTP one. */
  lemma SessionAttributes(value: string, p: Parser, env: Env)
    requires Reading(p) && !p.section.InMedia? && Tidy(value)
    ensures ParseLine(p, Attribute("group", value), env) == Some(if "DUP" <= value then p.(dup := true) else p)
    ensures ParseLine(p, Attribute("clock-domain", value), env) == if "PTPv2" <= value then Some(p) else None
  {
    hide ParseLine;
    ReadSessionAttribute("group", value, p, env);
    ReadSessionAttribute("clock-domain", value, p, env);
  }

  // ----- malformed lines -----

  /** Lines with too few fields: a section, an address that counts and a format are refused, an
      origin is skipped. */
  lemma TooFewFields(val: string, p: Parser, env: Env)
    requires Reading(p) && Tidy(val)
    ensures |Split(val, " ")| < 4 ==> ParseLine(p, Field('m', val), env) == None
    ensures |Split(val, " ")| < 6 ==> ParseLine(p, Field('o', val), env) == Some(p)
    ensures !p.section.AfterTime? && |Split(val, " /")| < 3 ==> ParseLine(p, Field('c', val), env) == None
    ensures p.section.InMedia? && |Split(val, " /")| < 4 ==> ParseLine(p, Attribute("rtpmap", val), env) == None
  {
    hide Trim, Split;
    ReadField('m', val, p, env);
    ReadField('o', val, p, env);
    ReadField('c', val, p, env);
    if p.section.InMedia? {
      ReadAttribute("rtpmap", val, p, env);
    }
  }

  /** Another network or address type is refused where the address counts. */
  lemma OtherNetworksAreRefused(val: string, p: Parser, env: Env)
    requires Reading(p) && Tidy(val) && !p.section.AfterTime? && |Split(val, " /")| >= 3
    requires Split(val, " /")[0] != "IN" || Split(val, " /")[1] != "IP4"
    ensures ParseLine(p, Field('c', val), env) == None
  {
    hide Trim, Split;
    ReadField('c', val, p, env);
  }

  /** A line without a type and an equals sign stops the parser. */
  lemma NoFieldIsRefused(line: string, p: Parser, env: Env)
    requires Reading(p) && (|Trim(line)| < 2 || Trim(line)[1] != '=')
    ensures ParseLine(p, line, env) == None
  {
  }

  // ----- other lines -----

  /** Lines of a single lower-case letter are taken, all but a wrong version; others are refused. */
  lemma OtherLines(key: char, val: string, p: Parser, env: Env)
    requires Reading(p) && Tidy(val) && !IsSpace(key)
    ensures key == 'v' ==> ParseLine(p, Field(key, val), env) == if val == "0" then Some(p) else None
    ensures key == 't' ==> ParseLine(p, Field(key, val), env) == Some(p.(section := AfterTime))
    ensures key !in "votamc" ==> ParseLine(p, Field(key, val), env) == if 'a' <= key <= 'z' then Some(p) else None
  {
    hide Trim;
    ReadField(key, val, p, env);
  }

  /** Two legs need both a group and a second section. */
  lemma TwoLegsExactly(p: Parser)
    requires Legal(p)
    ensures Finish(p).dual <==> p.info.dual || (p.dup && p.mid >= 1)
    ensures Finish(p) == p.info.(dual := Finish(p).dual)
  {
  }

  /** With the address in front of all sections, a section without one has it: the parser state
      behind the head carries it into the first and the second slot. */
  lemma SessionAddressReaches(ip: uint32, ttl: Option<uint8>, s: Stream, p: Parser, env: Env)
    requires Reading(p) && p.section == InSession && p.mid == -1 && ip != 0xFFFF_FFFF
    ensures var line, p1 := Field('c', Address(ip, ttl)), ParseLine(p, Field('c', Address(ip, ttl)), env);
            && p1.Some?
            && var p2 := ParseLine(p1.value, MediaLine(s), env);
            && p2.Some? && p2.value.info.streams[0].destIp == ip && p2.value.info.streams[1].destIp == ip
            && p2.value.info.streams[0].ttl == (if ttl.Some? then ttl.value else 64)
            && p2.value.info.streams[0].destPort == s.destPort && p2.value.mid == 0
  {
    hide ParseLine, MediaLine;
    ReadAddress(ip, ttl, p, env);
    ReadMedia(s, ParseLine(p, Field('c', Address(ip, ttl)), env).value, env);
  }
}
