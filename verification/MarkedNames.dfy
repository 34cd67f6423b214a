// Session names that hold a marker.
module MarkedNames {
  // A session name that holds one of the registration side's markers: the parser reads the
  // description as before, the text searches stop at the name and read on from there.

  import opened Text
  import opened Sdp
  import opened SdpRoundTrip
  import opened NmosSdp
  import opened SdpAgreement

  function SessionName(src: Source, env: Env): (name: string) { env.nodeId + " " + src.name }

  /** All that a search which stops in the name can read: it ends at a line break, or at a space
      that the next line has. */
  function NameText(src: Source, env: Env): (text: string) { SessionName(src, env) + "\nt=0 0" }

  predicate Contains(s: string, pat: string) { !NoMatchFrom(s, pat, 0) }

  /** The same source without a name. */
  function Nameless(src: Source): (r: Source) { src.(name := "") }

  function NoNode(env: Env): (r: Env) { env.(nodeId := "") }

  lemma NamelessIsFree(src: Source, env: Env)
    requires PlainCodecs(src)
    ensures MarkerFree(Nameless(src), NoNode(env))
  {
    assert "" + " " + "" == " ";
  }

  lemma SameSection(s: Stream, ptime: string, from: uint32, traceable: bool, env: Env)
    ensures Media(s, ptime, from, traceable, env) == Media(s, ptime, from, traceable, NoNode(env))
  {
  }

  /** Only the session line differs. */
  lemma NameIsOneLine(src: Source, env: Env)
    requires GoodEnv(env) && Stored(src, env)
    ensures GoodEnv(NoNode(env)) && Stored(Nameless(src), NoNode(env))
    ensures Dup(src, env) == Dup(Nameless(src), NoNode(env))
    ensures |Head(Nameless(src), NoNode(env))| == if Dup(src, env) then 5 else 4
    ensures var a, b := Lines(src, env), Lines(Nameless(src), NoNode(env));
            |a| == |b| && a[2] == SessionLine(src, env) && forall k :: 0 <= k < |a| && k != 2 ==> a[k] == b[k]
  {
    hide Attribute, OriginLine, Media, PacketTime.Ptime, Dec;
    var ptime := PacketTime.Ptime(src.first.maxSamples, env.sampleRate);
    SameSection(src.first, ptime, env.ip, src.traceable, env);
    if Dup(src, env) {
      SameSection(src.second, ptime, env.secIp.value, src.traceable, env);
    }
    assert OriginLine(src) == OriginLine(Nameless(src)) by { SameOrigins(src, ""); }
  }

  /** Where the markers are, whatever the name, with `n` lines before the first section. */
  predicate MarkedElsewhere(lines: seq<string>, n: nat, dup: bool) {
    && |lines| == n + (if dup then 23 else 11) && n == (if dup then 5 else 4)
    && (forall i :: 0 <= i < |lines| && i != 2 && i != n && !(dup && i == n + 12) ==> NoMatchFrom(lines[i], AUDIO, 0))
    && (forall i :: 0 <= i < |lines| && i != 2 && i != n + 2 && !(dup && i == n + 14) ==> NoMatchFrom(lines[i], FILTER, 0))
    && (forall i :: 0 <= i < |lines| && i != 2 && !(dup && i == 4) ==> NoMatchFrom(lines[i], GROUP, 0))
    && NoMatchFrom(lines[n], AUDIO, 1) && NoMatchFrom(lines[n + 2], FILTER, 1)
    && Hit(lines, n, AUDIO) && Hit(lines, n + 1, CONNECTION) && Hit(lines, n + 2, FILTER)
    && (dup ==> Hit(lines, n + 12, AUDIO) && Hit(lines, n + 14, FILTER) && Hit(lines, 4, GROUP))
    && NoMatchFrom(lines[3], CONNECTION, 0) && (dup ==> NoMatchFrom(lines[4], CONNECTION, 0))
    && NoMatchFrom(lines[n], CONNECTION, 0)
  }

  lemma MarkOthers(src: Source, env: Env)
    requires GoodEnv(env) && Stored(src, env) && PlainCodecs(src)
    ensures var lines, dup := Lines(src, env), Dup(src, env);
            && MarkedElsewhere(lines, |Head(src, env)|, dup)
            && lines[2] == SessionLine(src, env) && lines[3] == "t=0 0"
  {
    hide NoMatchFrom, MarkerFree, Stored, PlainCodecs, SessionLine, MediaLine, ConnectionLine, FilterLine, Lines;
    var lines, dup, n := Lines(src, env), Dup(src, env), if Dup(src, env) then 5 else 4;
    NamelessIsFree(src, env);
    NameIsOneLine(src, env);
    MarkLines(Nameless(src), NoNode(env));
    HeadLines(src, env);
    FirstSection(src, env);
    MediaMarks(src.first);
    ConnectionMarks(src.first);
    PlainFieldMarks('t', "0 0");
    GroupMarks();
  }

  lemma HeadLines(src: Source, env: Env)
    requires GoodEnv(env)
    ensures |Head(src, env)| == (if Dup(src, env) then 5 else 4) < |Lines(src, env)|
    ensures Lines(src, env)[3] == Field('t', "0 0") == "t=0 0"
    ensures Dup(src, env) ==> Lines(src, env)[4] == Attribute("group", "DUP 1 2")
  {
    hide Media, OriginLine, SessionLine;
    assert Field('t', "0 0") == "t=0 0";
  }

  lemma FirstSection(src: Source, env: Env)
    requires GoodEnv(env)
    ensures var lines, n := Lines(src, env), |Head(src, env)|;
            && |lines| > n + 2 && lines[n] == MediaLine(src.first) && lines[n + 1] == ConnectionLine(src.first)
            && lines[n + 2] == FilterLine(src.first, env.ip)
  {
    hide Head, MediaLine, ConnectionLine, FilterLine, RtpmapLine, RefclkLine, Attribute;
  }

  lemma SecondSection(src: Source, env: Env)
    requires GoodEnv(env) && Dup(src, env)
    ensures var lines, n := Lines(src, env), |Head(src, env)|;
            && |lines| > n + 14 && lines[n + 12] == MediaLine(src.second) && lines[n + 13] == ConnectionLine(src.second)
            && lines[n + 14] == FilterLine(src.second, env.secIp.value)
  {
    hide Head, MediaLine, ConnectionLine, FilterLine, RtpmapLine, RefclkLine, Attribute;
  }

  // ----- searching -----

  lemma {:induction false} FindAtMost(s: string, pat: string, from: nat, p: nat)
    requires from <= p && Matches(s, pat, p)
    ensures var r := Find(s, pat, from); r.Some? && r.value <= p && Matches(s, pat, r.value)
    decreases p - from
  {
    if !Matches(s, pat, from) {
      FindAtMost(s, pat, from + 1, p);
    }
  }

  lemma {:induction false} FindNotBefore(s: string, pat: string, from: nat, p: nat)
    requires from <= p <= |s| && forall i :: from <= i < p ==> !Matches(s, pat, i)
    ensures Find(s, pat, from) == Find(s, pat, p)
    decreases p - from
  {
    if from < p {
      FindNotBefore(s, pat, from + 1, p);
    }
  }

  /** What is found in the front of a text is found in the text. */
  lemma {:induction false} FindInFront(a: string, b: string, pat: string, from: nat)
    requires Find(a, pat, from).Some?
    ensures Find(a + b, pat, from) == Find(a, pat, from)
    decreases |a| - from
  {
    assert (a + b)[from..from + |pat|] == a[from..from + |pat|];
    if !Matches(a, pat, from) {
      FindInFront(a, b, pat, from + 1);
    }
  }

  lemma {:induction false} FindIfThere(s: string, pat: string, from: nat)
    ensures Find(s, pat, from).None? ==> NoMatchFrom(s, pat, from)
    decreases |s| - from
  {
    if from + |pat| <= |s| && !Matches(s, pat, from) && from < |s| {
      FindIfThere(s, pat, from + 1);
    }
  }

  lemma FirstOfIs(s: string, chars: string, from: nat, i: nat)
    requires from <= i <= |s| && (i < |s| ==> s[i] in chars) && forall k :: from <= k < i ==> s[k] !in chars
    ensures FindFirstOf(s, chars, from) == i
  {
  }

  /** A stop character in the middle of a text, or right behind it. */
  lemma FirstOfInside(a: string, b: string, c: string, chars: string, k: nat)
    requires k <= |b| && (FindFirstOf(b, chars, k) < |b| || (c != "" && c[0] in chars))
    ensures FindFirstOf(a + (b + c), chars, |a| + k) == |a| + FindFirstOf(b, chars, k)
    ensures var i := FindFirstOf(b, chars, k);
            |a| + i <= |a + (b + c)| && (a + (b + c))[|a| + k..|a| + i] == b[k..i]
  {
    var s, i := a + (b + c), FindFirstOf(b, chars, k);
    assert forall j :: 0 <= j < |b| ==> s[|a| + j] == b[j];
    assert i == |b| ==> s[|a| + i] == c[0];
    FirstOfIs(s, chars, |a| + k, |a| + i);
  }

  /** A match in line `k` is a match in the text. */
  lemma MatchInLine(lines: seq<string>, k: nat, pat: string, i: nat)
    requires k < |lines| && Matches(lines[k], pat, i)
    ensures Matches(Unlines(lines), pat, Offset(lines, k) + i)
  {
    hide Unlines;
    TextAt(lines, k);
    var at := Offset(lines, k) + i;
    assert Unlines(lines)[at..at + |pat|] == lines[k][i..i + |pat|];
  }

  /** The key of a name that holds a marker is no part of it. */
  lemma SessionHolds(src: Source, env: Env, pat: string)
    requires |pat| >= 2 && pat[0] != 's' && pat[0] != '='
    ensures Contains(SessionName(src, env), pat) <==> Contains(SessionLine(src, env), pat)
  {
    var name, line := SessionName(src, env), SessionLine(src, env);
    if Contains(name, pat) {
      var i :| 0 <= i <= |name| && Matches(name, pat, i);
      assert line[i + 2..i + 2 + |pat|] == name[i..i + |pat|];
      assert Matches(line, pat, i + 2);
    } else {
      SessionMark(name, pat);
    }
  }

  // ----- the number of legs -----

  /** The registration side takes a stream for a two-leg one if it is, or if its name says so;
      the parser only if it is. */
  lemma DupSeenExactly(src: Source, env: Env)
    requires GoodEnv(env) && Stored(src, env) && PlainCodecs(src)
    ensures HasDup(Print(src, env)) <==> Dup(src, env) || Contains(SessionName(src, env), GROUP)
  {
    hide NoMatchFrom, Matches, Find, Unlines, Lines, PlainCodecs, Stored, SessionName, SessionLine;
    var lines := Lines(src, env);
    MarkOthers(src, env);
    SessionHolds(src, env, GROUP);
    if Dup(src, env) {
      StartMatches(lines[4], GROUP);
      FoundInLine(lines, 4, GROUP);
    } else if Contains(SessionName(src, env), GROUP) {
      FoundInLine(lines, 2, GROUP);
    } else {
      FindNowhere(lines, GROUP);
    }
  }

  lemma StartMatches(line: string, pat: string)
    requires pat <= line
    ensures Matches(line, pat, 0) && Contains(line, pat)
  {
    assert line[0..|pat|] == pat;
    assert Matches(line, pat, 0);
  }

  lemma FoundInLine(lines: seq<string>, k: nat, pat: string)
    requires k < |lines| && Contains(lines[k], pat)
    ensures var r := Find(Unlines(lines), pat, 0); r.Some? && r.value < Offset(lines, k) + |lines[k]| + 1
  {
    hide Unlines, Matches, Find;
    var i :| 0 <= i <= |lines[k]| && Matches(lines[k], pat, i);
    MatchInLine(lines, k, pat, i);
    FindAtMost(Unlines(lines), pat, 0, Offset(lines, k) + i);
  }

  // ----- the text around the name -----

  /** Lines before the first match can be left out. */
  lemma {:induction false} FindFromLine(lines: seq<string>, k: nat, pat: string)
    requires k <= |lines| && pat != "" && Lacks(pat, '\n') && AbsentBetween(lines, pat, 0, k)
    ensures Find(Unlines(lines), pat, 0) == Shift(Find(Unlines(lines[k..]), pat, 0), Offset(lines, k))
  {
    hide Find, NoMatchFrom, Unlines;
    if k == 0 {
      assert lines[0..] == lines && lines[..0] == [];
      NoLines();
    } else {
      assert NoMatchFrom(lines[0], pat, 0);
      var rest := lines[1..];
      FirstLine(lines);
      FindSkipsLine(lines[0], Unlines(rest), pat, 0);
      forall i | 0 <= i < k - 1
        ensures NoMatchFrom(rest[i], pat, 0)
      {
        assert rest[i] == lines[i + 1];
      }
      FindFromLine(rest, k - 1, pat);
      assert rest[k - 1..] == lines[k..];
      assert lines[..k][1..] == rest[..k - 1];
      FirstLine(lines[..k]);
    }
  }

  lemma FirstLine(lines: seq<string>)
    requires lines != []
    ensures Unlines(lines) == lines[0] + "\n" + Unlines(lines[1..])
    ensures |Unlines(lines)| == |lines[0]| + 1 + |Unlines(lines[1..])|
  {
  }

  lemma NoLines()
    ensures Unlines([]) == ""
  {
  }

  /** A description as the text before the name, the name with the next line, and the rest. */
  predicate Parts(sdp: string, a: string, text: string, c: string) {
    sdp == a + (text + c) && c != "" && c[0] == '\n'
  }

  lemma FirstOfParts(sdp: string, a: string, text: string, c: string, chars: string, k: nat, at: nat)
    requires Parts(sdp, a, text, c) && k <= |text| && at == |a| + k
    requires FindFirstOf(text, chars, k) < |text| || '\n' in chars
    ensures at <= |sdp| && |a| + |text| < |sdp|
    ensures var i, j := FindFirstOf(text, chars, k), FindFirstOf(sdp, chars, at); j == |a| + i && sdp[at..j] == text[k..i]
  {
    FirstOfInside(a, text, c, chars, k);
  }

  lemma NameInText(lines: seq<string>, name: string) returns (a: string, c: string)
    requires |lines| > 4 && lines[2] == Field('s', name) && lines[3] == "t=0 0"
    ensures Parts(Unlines(lines), a, name + "\nt=0 0", c)
    ensures |a| == Offset(lines, 2) + 2
  {
    hide Unlines;
    TextAt(lines, 2);
    var rest := lines[3..];
    FirstLine(rest);
    assert rest[0] == lines[3] && rest[1..] == lines[4..];
    a, c := Unlines(lines[..2]) + "s=", "\n" + Unlines(lines[4..]);
    assert Unlines(lines) == Unlines(lines[..2]) + (Field('s', name) + "\n" + Unlines(rest));
    assert Field('s', name) == "s=" + name;
    assert Unlines(rest) == "t=0 0" + c;
    assert Unlines(lines) == a + ((name + "\nt=0 0") + c);
  }

  /** Searching a text that has the name in it, from a place in the name on. */
  lemma FindInParts(sdp: string, a: string, text: string, c: string, pat: string, from: nat)
    requires Parts(sdp, a, text, c) && Find(text, pat, from).Some?
    ensures Find(sdp, pat, |a| + from) == Some(|a| + Find(text, pat, from).value)
  {
    hide Find;
    FindInFront(text, c, pat, from);
    FindDrop(a, text + c, pat, from);
  }

  /** Whatever search starts at the top gets to the name. */
  lemma {:induction false} FindFromTop(lines: seq<string>, name: string, a: string, c: string, pat: string)
    requires |lines| > 4 && lines[2] == Field('s', name) && |a| == Offset(lines, 2) + 2
    requires Parts(Unlines(lines), a, name + "\nt=0 0", c)
    requires |pat| >= 2 && pat[0] != 's' && pat[0] != '=' && Lacks(pat, '\n') && AbsentBetween(lines, pat, 0, 2)
    ensures Find(Unlines(lines), pat, 0) == Find(Unlines(lines), pat, |a|)
  {
    hide Unlines, Find, NoMatchFrom;
    var sdp, rest, k := Unlines(lines), Unlines(lines[2..]), Offset(lines, 2);
    FindFromLine(lines, 2, pat);
    OffsetSplit(lines, 2, 2);
    FindDrop(Unlines(lines[..2]), rest, pat, 0);
    FindDrop(Unlines(lines[..2]), rest, pat, 2);
    FirstLine(lines[2..]);
    assert rest[0] == 's' && rest[1] == '=';
    KeyIsNoMatch(rest, pat);
    FindNotBefore(rest, pat, 0, 2);
  }

  lemma KeyIsNoMatch(s: string, pat: string)
    requires |s| >= 2 && s[0] == 's' && s[1] == '=' && |pat| >= 2 && pat[0] != 's' && pat[0] != '='
    ensures !Matches(s, pat, 0) && !Matches(s, pat, 1)
  {
    assert |pat| <= |s| ==> s[0..|pat|][0] == 's';
    assert 1 + |pat| <= |s| ==> s[1..1 + |pat|][0] == '=';
  }

  // ----- what is read from a name -----

  lemma {:induction false} StartsInName(sdp: string, a: string, text: string, c: string, leg: nat, from: nat)
    requires Parts(sdp, a, text, c)
    ensures MediaStart(text, leg, from).Some? ==>
              MediaStart(sdp, leg, |a| + from) == Some(|a| + MediaStart(text, leg, from).value)
    ensures FilterStart(text, leg, from).Some? ==>
              FilterStart(sdp, leg, |a| + from) == Some(|a| + FilterStart(text, leg, from).value)
    decreases leg
  {
    hide Find;
    if Find(text, AUDIO, from).Some? {
      FindInParts(sdp, a, text, c, AUDIO, from);
      if leg > 0 {
        StartsInName(sdp, a, text, c, leg - 1, Find(text, AUDIO, from).value + 1);
      }
    }
    if Find(text, FILTER, from).Some? {
      FindInParts(sdp, a, text, c, FILTER, from);
      if leg > 0 {
        StartsInName(sdp, a, text, c, leg - 1, Find(text, FILTER, from).value + |FILTER|);
      }
    }
  }

  /** A marker found in the name and the line after it is in the name. */
  lemma MarkInName(name: string, pat: string, d: nat)
    requires Matches(name + "\nt=0 0", pat, d) && pat != "" && Lacks(pat, '\n') && pat[0] !in "t=0 "
    ensures d + |pat| <= |name| && Matches(name, pat, d)
  {
    var text := name + "\nt=0 0";
    var hit := text[d..d + |pat|];
    assert hit[0] == text[d];
    assert text[|name|] == '\n';
    assert forall i :: |name| < i < |text| ==> text[i] in "t=0 ";
    assert forall i :: d <= i < d + |pat| ==> text[i] == hit[i - d] && text[i] != '\n';
    if d + |pat| <= |name| {
      assert hit == name[d..d + |pat|];
    }
  }

  lemma PortFromName(sdp: string, a: string, name: string, c: string, leg: nat, d: nat)
    requires Parts(sdp, a, name + "\nt=0 0", c)
    requires MediaStart(name + "\nt=0 0", leg, 0) == Some(d) && MediaStart(sdp, leg, 0) == Some(|a| + d)
    ensures MediaPort(sdp, leg) == MediaPort(name + "\nt=0 0", leg)
  {
    hide MediaStart, Find, StoI, Parts;
    var text, k := name + "\nt=0 0", d + |AUDIO|;
    MediaStartIsThere(text, leg, 0);
    MarkInName(name, AUDIO, d);
    SpaceAfter(name, k);
    FirstOfParts(sdp, a, text, c, " ", k, |a| + k);
  }

  lemma SpaceAfter(name: string, k: nat)
    requires k <= |name|
    ensures FindFirstOf(name + "\nt=0 0", " ", k) < |name| + 6
  {
    var text := name + "\nt=0 0";
    assert text[|name| + 4] == ' ';
  }

  /** The text behind a space, up to the end of the line. */
  function Behind(s: string, sp: nat): (rest: string)
    requires sp < |s|
  {
    s[sp + 1..FindFirstOf(s, "\r\n", sp + 1)]
  }

  lemma FilterLength()
    ensures |FILTER| == 29
  {
  }

  lemma FilterIs(sdp: string, leg: nat, pos: nat)
    requires FilterStart(sdp, leg, 0) == Some(pos)
    ensures pos + 29 <= |sdp|
    ensures var sp := FindFirstOf(sdp, " ", pos + 29);
            sp < |sdp| ==> SourceFilterIp(sdp, leg) == Behind(sdp, sp)
  {
    FilterLength();
    hide FindFirstOf, FilterStart, Find;
  }

  lemma FilterInName(name: string, leg: nat, d: nat)
    requires FilterStart(name + "\nt=0 0", leg, 0) == Some(d)
    ensures d + 29 <= |name|
  {
    hide Find;
    MarkInName(name, FILTER, d);
  }

  lemma BehindSpace(sdp: string, a: string, text: string, c: string, sp: nat, at: nat)
    requires Parts(sdp, a, text, c) && sp < |text| && at == |a| + sp
    ensures at < |sdp| && Behind(sdp, at) == Behind(text, sp)
  {
    hide Parts, FindFirstOf;
    FirstOfParts(sdp, a, text, c, "\r\n", sp + 1, at + 1);
  }

  lemma FilterFromText(sdp: string, a: string, text: string, c: string, leg: nat, d: nat)
    requires Parts(sdp, a, text, c) && d + 29 <= |text| && FindFirstOf(text, " ", d + 29) < |text|
    requires FilterStart(text, leg, 0) == Some(d) && FilterStart(sdp, leg, 0) == Some(|a| + d)
    ensures SourceFilterIp(sdp, leg) == SourceFilterIp(text, leg)
  {
    hide FilterStart, Find, FindFirstOf, SourceFilterIp, Parts, Behind;
    FirstOfParts(sdp, a, text, c, " ", d + 29, |a| + d + 29);
    BehindSpace(sdp, a, text, c, FindFirstOf(text, " ", d + 29), FindFirstOf(sdp, " ", |a| + d + 29));
    FilterIs(sdp, leg, |a| + d);
    FilterIs(text, leg, d);
  }

  lemma FilterFromName(sdp: string, a: string, name: string, c: string, leg: nat, d: nat)
    requires Parts(sdp, a, name + "\nt=0 0", c)
    requires FilterStart(name + "\nt=0 0", leg, 0) == Some(d) && FilterStart(sdp, leg, 0) == Some(|a| + d)
    ensures SourceFilterIp(sdp, leg) == SourceFilterIp(name + "\nt=0 0", leg)
  {
    hide FilterStart, Find, FindFirstOf, SourceFilterIp, Parts;
    FilterInName(name, leg, d);
    SpaceAfter(name, d + 29);
    FilterFromText(sdp, a, name + "\nt=0 0", c, leg, d);
  }

  /** No section starts inside the name. */
  lemma BreakAfterName(sdp: string, a: string, name: string, c: string, from: nat)
    requires Parts(sdp, a, name + "\nt=0 0", c) && Lacks(name, '\n')
    ensures var next := Find(sdp, "\nm=", |a| + from); next.Some? ==> next.value >= |a| + |name|
    ensures var next := Find(name + "\nt=0 0", "\nm=", from); next.Some? ==> next.value >= |name|
  {
    var text := name + "\nt=0 0";
    var x, y := Find(sdp, "\nm=", |a| + from), Find(text, "\nm=", from);
    assert x.Some? ==> sdp[x.value..x.value + 3][0] == sdp[x.value] == '\n';
    assert y.Some? ==> text[y.value..y.value + 3][0] == text[y.value] == '\n';
    assert forall i :: 0 <= i < |name| ==> sdp[|a| + i] == name[i] && text[i] == name[i];
  }

  lemma AddressIs(sdp: string, leg: nat, pos: nat, at: nat)
    requires MediaStart(sdp, leg, 0) == Some(pos) && Find(sdp, CONNECTION, pos) == Some(at)
    ensures at + 9 <= |sdp|
    ensures var next := Find(sdp, "\nm=", pos + 1);
            next.None? || next.value >= at ==> ConnectionIp(sdp, leg) == sdp[at + 9..FindFirstOf(sdp, "/\r\n", at + 9)]
  {
    assert |CONNECTION| == 9;
    hide MediaStart, FindFirstOf;
  }

  lemma AddressInName(name: string, d: nat, at: nat)
    requires Find(name + "\nt=0 0", CONNECTION, d) == Some(at)
    ensures at + 9 <= |name|
  {
    MarkInName(name, CONNECTION, at);
  }

  /** An address marker behind the section marker. */
  lemma AddressFromName(sdp: string, a: string, name: string, c: string, leg: nat, d: nat)
    requires Parts(sdp, a, name + "\nt=0 0", c) && Lacks(name, '\n')
    requires MediaStart(name + "\nt=0 0", leg, 0) == Some(d) && MediaStart(sdp, leg, 0) == Some(|a| + d)
    requires Find(name + "\nt=0 0", CONNECTION, d).Some?
    ensures ConnectionIp(sdp, leg) == ConnectionIp(name + "\nt=0 0", leg)
  {
    hide MediaStart, Find, FindFirstOf, ConnectionIp, Parts;
    var text := name + "\nt=0 0";
    var at := Find(text, CONNECTION, d).value;
    AddressInName(name, d, at);
    FindInParts(sdp, a, text, c, CONNECTION, d);
    BreakAfterName(sdp, a, name, c, d + 1);
    AddressIs(sdp, leg, |a| + d, |a| + at);
    AddressIs(text, leg, d, at);
    FirstOfParts(sdp, a, text, c, "/\r\n", at + 9, |a| + at + 9);
  }

  lemma {:induction false} LineBreakBefore(lines: seq<string>, n: nat, rest: string)
    requires 0 < n < |lines| && rest <= lines[n]
    ensures Offset(lines, n) > 0 && Matches(Unlines(lines), "\n" + rest, Offset(lines, n) - 1)
  {
    hide Unlines;
    TextAt(lines, n);
    TextAt(lines, n - 1);
    NextOffset(lines, n - 1);
    var sdp, at := Unlines(lines), Offset(lines, n) - 1;
    assert sdp[at] == '\n';
    assert sdp[at + 1..at + 1 + |rest|] == rest;
    assert sdp[at..at + 1 + |rest|] == [sdp[at]] + sdp[at + 1..at + 1 + |rest|];
  }

  lemma {:induction false} OffsetGrows(lines: seq<string>, j: nat, k: nat)
    requires j <= k <= |lines|
    ensures Offset(lines, j) + (k - j) <= Offset(lines, k)
    decreases k - j
  {
    if j < k {
      NextOffset(lines, j);
      OffsetGrows(lines, j + 1, k);
    }
  }

  /** Without a marker in the rest of the name there is none in the rest of its line. */
  lemma NoneInLine(name: string, pat: string, d: nat)
    requires Find(name + "\nt=0 0", pat, d).None? && |pat| > 0
    ensures NoMatchFrom(Field('s', name), pat, d + 2)
  {
    var text, line := name + "\nt=0 0", Field('s', name);
    FindIfThere(text, pat, d);
    forall i | d + 2 <= i <= |line|
      ensures !Matches(line, pat, i)
    {
      assert !Matches(text, pat, i - 2);
      assert i + |pat| <= |line| ==> line[i..i + |pat|] == text[i - 2..i - 2 + |pat|];
    }
  }

  /** No address marker behind the section marker: the next one is behind the next section. */
  lemma NoAddressFromName(lines: seq<string>, n: nat, dup: bool, name: string, leg: nat, d: nat)
    requires MarkedElsewhere(lines, n, dup) && lines[2] == Field('s', name) && d <= |name|
    requires MediaStart(Unlines(lines), leg, 0) == Some(Offset(lines, 2) + 2 + d)
    requires Find(name + "\nt=0 0", CONNECTION, d).None?
    ensures ConnectionIp(Unlines(lines), leg) == ""
  {
    hide Matches, Find, Unlines, NoMatchFrom, MediaStart, FindFirstOf;
    var sdp, pos := Unlines(lines), Offset(lines, 2) + 2 + d;
    NoneInLine(name, CONNECTION, d);
    FindLineAfter(lines, 2, d + 2, n + 1, CONNECTION);
    assert lines[n][..2] == AUDIO[..2] == "m=";
    LineBreakBefore(lines, n, "m=");
    NextOffset(lines, 2);
    OffsetGrows(lines, 3, n);
    OffsetGrows(lines, n, n + 1);
    assert "\n" + "m=" == "\nm=";
    FindAtMost(sdp, "\nm=", pos + 1, Offset(lines, n) - 1);
  }

  /** A section that is found in the name is read from there. */
  lemma LegFromName(src: Source, env: Env, leg: nat)
    requires GoodEnv(env) && Stored(src, env) && PlainCodecs(src)
    ensures MediaStart(NameText(src, env), leg, 0).Some? ==>
              && ConnectionIp(Print(src, env), leg) == ConnectionIp(NameText(src, env), leg)
              && MediaPort(Print(src, env), leg) == MediaPort(NameText(src, env), leg)
    ensures FilterStart(NameText(src, env), leg, 0).Some? ==>
              SourceFilterIp(Print(src, env), leg) == SourceFilterIp(NameText(src, env), leg)
  {
    hide Unlines, Lines, Find, Matches, NoMatchFrom, ConnectionIp, MediaPort, SourceFilterIp, PlainCodecs;
    var lines, name, text := Lines(src, env), SessionName(src, env), NameText(src, env);
    var sdp, n := Unlines(lines), |Head(src, env)|;
    MarkOthers(src, env);
    var a, c := NameInText(lines, name);
    StartsInName(sdp, a, text, c, leg, 0);
    FindFromTop(lines, name, a, c, AUDIO);
    FindFromTop(lines, name, a, c, FILTER);
    StartFromTop(sdp, leg, |a|);
    if MediaStart(text, leg, 0).Some? {
      var d := MediaStart(text, leg, 0).value;
      MediaStartIsThere(text, leg, 0);
      MarkInName(name, AUDIO, d);
      PortFromName(sdp, a, name, c, leg, d);
      if Find(text, CONNECTION, d).Some? {
        AddressFromName(sdp, a, name, c, leg, d);
      } else {
        NoAddressFromName(lines, n, Dup(src, env), name, leg, d);
        assert ConnectionIp(text, leg) == "" by { NoAddress(text, leg, d); }
      }
    }
    if FilterStart(text, leg, 0).Some? {
      FilterFromName(sdp, a, name, c, leg, FilterStart(text, leg, 0).value);
    }
  }

  lemma NoAddress(text: string, leg: nat, d: nat)
    requires MediaStart(text, leg, 0) == Some(d) && Find(text, CONNECTION, d).None?
    ensures ConnectionIp(text, leg) == ""
  {
  }

  lemma StartFromTop(sdp: string, leg: nat, k: nat)
    requires Find(sdp, AUDIO, 0) == Find(sdp, AUDIO, k) && Find(sdp, FILTER, 0) == Find(sdp, FILTER, k)
    ensures MediaStart(sdp, leg, 0) == MediaStart(sdp, leg, k) && FilterStart(sdp, leg, 0) == FilterStart(sdp, leg, k)
  {
    hide Find;
  }

  // ----- what is read for every name -----

  lemma ContainsIsFound(name: string, pat: string)
    requires pat != "" && Lacks(pat, '\n') && pat[0] !in "t=0 "
    ensures Contains(name, pat) <==> Find(name + "\nt=0 0", pat, 0).Some?
  {
    var text := name + "\nt=0 0";
    if Contains(name, pat) {
      var i :| 0 <= i <= |name| && Matches(name, pat, i);
      assert text[i..i + |pat|] == name[i..i + |pat|];
      FindAtMost(text, pat, 0, i);
    } else if Find(text, pat, 0).Some? {
      MarkInName(name, pat, Find(text, pat, 0).value);
    }
  }

  lemma ReadFirst(src: Source, env: Env, leg: nat)
    requires GoodEnv(env)
    requires var lines, n := Lines(src, env), |Head(src, env)|;
             && n <= |lines|
             && MediaStart(Unlines(lines), leg, 0) == Some(Offset(lines, n))
    ensures ConnectionIp(Print(src, env), leg) == Dotted(src.first.destIp)
    ensures MediaPort(Print(src, env), leg) == src.first.destPort
  {
    hide Lines, Head, Unlines, MediaStart, ConnectionIp, MediaPort, MediaLine, ConnectionLine, FilterLine, Dotted;
    FirstSection(src, env);
    ReadLeg(Lines(src, env), |Head(src, env)|, leg, src.first);
  }

  lemma ReadSecond(src: Source, env: Env, leg: nat)
    requires GoodEnv(env) && Dup(src, env)
    requires var lines, n := Lines(src, env), |Head(src, env)|;
             && n + 12 <= |lines|
             && MediaStart(Unlines(lines), leg, 0) == Some(Offset(lines, n + 12))
    ensures ConnectionIp(Print(src, env), leg) == Dotted(src.second.destIp)
    ensures MediaPort(Print(src, env), leg) == src.second.destPort
  {
    hide Lines, Head, Unlines, MediaStart, ConnectionIp, MediaPort, MediaLine, ConnectionLine, FilterLine, Dotted;
    SecondSection(src, env);
    ReadLeg(Lines(src, env), |Head(src, env)| + 12, leg, src.second);
  }

  /** Destination and port of the first leg, for every name: right exactly as long as the name
      does not hold the section marker, and otherwise what the name has to offer. */
  lemma DestinationSeenExactly(src: Source, env: Env)
    requires GoodEnv(env) && Stored(src, env) && PlainCodecs(src)
    ensures var sdp, text := Print(src, env), NameText(src, env);
            if Contains(SessionName(src, env), AUDIO)
            then ConnectionIp(sdp, 0) == ConnectionIp(text, 0) && MediaPort(sdp, 0) == MediaPort(text, 0)
            else ConnectionIp(sdp, 0) == Dotted(src.first.destIp) && MediaPort(sdp, 0) == src.first.destPort
  {
    hide Lines, Head, Unlines, Find, NoMatchFrom, ConnectionIp, MediaPort, PlainCodecs, SourceFilterIp, FilterStart, SessionLine;
    var lines, n := Lines(src, env), |Head(src, env)|;
    ContainsIsFound(SessionName(src, env), AUDIO);
    if Contains(SessionName(src, env), AUDIO) {
      LegFromName(src, env, 0);
    } else {
      MarkOthers(src, env);
      SessionHolds(src, env, AUDIO);
      FindLine(lines, n, AUDIO);
      ReadFirst(src, env, 0);
    }
  }

  /** A name with the section marker and no address marker gives no destination at all. */
  lemma NoAddressInName(src: Source, env: Env)
    requires Contains(SessionName(src, env), AUDIO) && !Contains(SessionName(src, env), CONNECTION)
    ensures ConnectionIp(NameText(src, env), 0) == ""
  {
    hide Find, NoMatchFrom;
    var name, text := SessionName(src, env), NameText(src, env);
    ContainsIsFound(name, AUDIO);
    var d := Find(text, AUDIO, 0).value;
    if Find(text, CONNECTION, d).Some? {
      var at := Find(text, CONNECTION, d).value;
      MarkInName(name, CONNECTION, at);
      MatchContains(name, CONNECTION, at);
    } else {
      NoAddress(text, 0, d);
    }
  }

  lemma MatchContains(s: string, pat: string, i: nat)
    requires Matches(s, pat, i)
    ensures Contains(s, pat)
  {
  }

  /** The sender address of the first leg, for every name. */
  lemma SourceSeenExactly(src: Source, env: Env)
    requires GoodEnv(env) && Stored(src, env) && PlainCodecs(src)
    ensures SourceFilterIp(Print(src, env), 0) ==
            if Contains(SessionName(src, env), FILTER) then SourceFilterIp(NameText(src, env), 0) else Dotted(env.ip)
  {
    hide Lines, Head, Unlines, Find, NoMatchFrom, ConnectionIp, MediaPort, PlainCodecs, SourceFilterIp, MediaStart, SessionLine;
    hide MediaLine, ConnectionLine, FilterLine, Dotted;
    var lines, n := Lines(src, env), |Head(src, env)|;
    ContainsIsFound(SessionName(src, env), FILTER);
    if Contains(SessionName(src, env), FILTER) {
      LegFromName(src, env, 0);
    } else {
      MarkOthers(src, env);
      SessionHolds(src, env, FILTER);
      FindLine(lines, n + 2, FILTER);
      FirstSection(src, env);
      ReadFilterIp(lines, n + 2, 0, src.first, env.ip);
    }
  }

  /** The second leg of a two-leg stream: with one section marker in the name it is read from
      the first section, with more from the name. */
  lemma SecondDestinationSeenExactly(src: Source, env: Env)
    requires GoodEnv(env) && Stored(src, env) && PlainCodecs(src) && Dup(src, env)
    ensures var sdp, text := Print(src, env), NameText(src, env);
            if MediaStart(text, 1, 0).Some?
            then ConnectionIp(sdp, 1) == ConnectionIp(text, 1) && MediaPort(sdp, 1) == MediaPort(text, 1)
            else
              var s := if Contains(SessionName(src, env), AUDIO) then src.first else src.second;
              ConnectionIp(sdp, 1) == Dotted(s.destIp) && MediaPort(sdp, 1) == s.destPort
  {
    hide Lines, Head, Unlines, Find, NoMatchFrom, ConnectionIp, MediaPort, PlainCodecs, SourceFilterIp, FilterStart, SessionLine;
    var lines, n := Lines(src, env), |Head(src, env)|;
    var name, text := SessionName(src, env), NameText(src, env);
    ContainsIsFound(name, AUDIO);
    if MediaStart(text, 1, 0).Some? {
      LegFromName(src, env, 1);
    } else {
      MarkOthers(src, env);
      SessionHolds(src, env, AUDIO);
      SecondSearch(Unlines(lines));
      SessionIsField(src, env);
      if Contains(name, AUDIO) {
        SectionAfterName(lines, n, name);
        ReadFirst(src, env, 1);
      } else {
        FindLine(lines, n, AUDIO);
        FindLineAfter(lines, n, 1, n + 12, AUDIO);
        ReadSecond(src, env, 1);
      }
    }
  }

  lemma SessionIsField(src: Source, env: Env)
    ensures SessionLine(src, env) == Field('s', SessionName(src, env))
  {
  }

  /** What the search for the second section or filter is. */
  lemma SecondSearch(sdp: string)
    ensures MediaStart(sdp, 1, 0) ==
            match Find(sdp, AUDIO, 0)
            case None => None
            case Some(k) => Find(sdp, AUDIO, k + 1)
    ensures FilterStart(sdp, 1, 0) ==
            match Find(sdp, FILTER, 0)
            case None => None
            case Some(k) => Find(sdp, FILTER, k + |FILTER|)
  {
    hide Find;
  }

  lemma FoundInName(lines: seq<string>, name: string, pat: string) returns (d: nat)
    requires |lines| > 4 && lines[2] == Field('s', name) && lines[3] == "t=0 0"
    requires |pat| >= 2 && pat[0] !in "s=t0 " && Lacks(pat, '\n') && AbsentBetween(lines, pat, 0, 2)
    requires Contains(name, pat)
    ensures Find(name + "\nt=0 0", pat, 0) == Some(d) && d + |pat| <= |name|
    ensures Find(Unlines(lines), pat, 0) == Some(Offset(lines, 2) + 2 + d)
  {
    hide Find, Unlines, NoMatchFrom, Contains;
    var a, c := NameInText(lines, name);
    ContainsIsFound(name, pat);
    d := Find(name + "\nt=0 0", pat, 0).value;
    FindFromTop(lines, name, a, c, pat);
    FindInParts(Unlines(lines), a, name + "\nt=0 0", c, pat, 0);
    MarkInName(name, pat, d);
  }

  lemma SectionAfterName(lines: seq<string>, n: nat, name: string)
    requires MarkedElsewhere(lines, n, true) && lines[2] == Field('s', name) && lines[3] == "t=0 0"
    requires Contains(name, AUDIO) && MediaStart(name + "\nt=0 0", 1, 0).None?
    ensures MediaStart(Unlines(lines), 1, 0) == Some(Offset(lines, n))
  {
    hide Find, Unlines, NoMatchFrom;
    var d := FoundInName(lines, name, AUDIO);
    SecondSearch(name + "\nt=0 0");
    SecondSearch(Unlines(lines));
    NoneInLine(name, AUDIO, d + 1);
    FindLineAfter(lines, 2, d + 3, n, AUDIO);
  }

  lemma FilterAfterName(lines: seq<string>, n: nat, name: string)
    requires MarkedElsewhere(lines, n, true) && lines[2] == Field('s', name) && lines[3] == "t=0 0"
    requires Contains(name, FILTER) && FilterStart(name + "\nt=0 0", 1, 0).None?
    ensures FilterStart(Unlines(lines), 1, 0) == Some(Offset(lines, n + 2))
  {
    hide Find, Unlines, NoMatchFrom;
    var d := FoundInName(lines, name, FILTER);
    SecondSearch(name + "\nt=0 0");
    SecondSearch(Unlines(lines));
    NoneInLine(name, FILTER, d + |FILTER|);
    FindLineAfter(lines, 2, d + 2 + |FILTER|, n + 2, FILTER);
  }

  /** The sender address of the second leg, likewise. */
  lemma SecondSourceSeenExactly(src: Source, env: Env)
    requires GoodEnv(env) && Stored(src, env) && PlainCodecs(src) && Dup(src, env)
    ensures SourceFilterIp(Print(src, env), 1) ==
            if FilterStart(NameText(src, env), 1, 0).Some? then SourceFilterIp(NameText(src, env), 1)
            else if Contains(SessionName(src, env), FILTER) then Dotted(env.ip)
            else Dotted(env.secIp.value)
  {
    hide Lines, Head, Unlines, Find, NoMatchFrom, ConnectionIp, MediaPort, PlainCodecs, SourceFilterIp, MediaStart, SessionLine;
    hide MediaLine, ConnectionLine, FilterLine, Dotted;
    var lines, n := Lines(src, env), |Head(src, env)|;
    var name, text := SessionName(src, env), NameText(src, env);
    if FilterStart(text, 1, 0).Some? {
      LegFromName(src, env, 1);
    } else {
      MarkOthers(src, env);
      SessionHolds(src, env, FILTER);
      SessionIsField(src, env);
      FirstSection(src, env);
      SecondSection(src, env);
      if Contains(name, FILTER) {
        FilterAfterName(lines, n, name);
        ReadFilterIp(lines, n + 2, 1, src.first, env.ip);
      } else {
        SecondSearch(Unlines(lines));
        FindLine(lines, n + 2, FILTER);
        Later(lines[n + 2], FILTER, 1, |FILTER|);
        FindLineAfter(lines, n + 2, |FILTER|, n + 14, FILTER);
        ReadFilterIp(lines, n + 14, 1, src.second, env.secIp.value);
      }
    }
  }
}
