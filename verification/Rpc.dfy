// tm4c_uart_esp32_bridge/esp_at_rpc.c: compaction of a request's payload and the
// version in an update request.

module Rpc {
  import opened Bytes
  import opened Image
  import opened HttpStream

  const QUOTE: u8 := 0x22
  const BACKSLASH: u8 := 0x5C
  const DOT: u8 := 0x2E
  const COPY_SIZE: int := 128

  // ---- Compaction ----

  predicate IsSpace(b: u8) { b == 0x20 || b == 0x09 || b == 0x0D || b == 0x0A }

  /** What has been written, and where in the text the scanner is. */
  datatype Compaction = Compaction(output: seq<u8>, inString: bool, escaped: bool)

  function CompactByte(c: Compaction, b: u8): Compaction {
    if !c.inString && IsSpace(b) then c
    else
      Compaction(c.output + [b],
        if !c.inString then b == QUOTE else c.escaped || b != QUOTE,
        c.inString && !c.escaped && b == BACKSLASH)
  }

  function Compact(text: seq<u8>): (c: Compaction)
    ensures |c.output| <= |text| && (c.escaped ==> c.inString)
  {
    if text == [] then Compaction([], false, false)
    else CompactByte(Compact(text[..|text| - 1]), text[|text| - 1])
  }

  predicate Complete(c: Compaction) { !c.inString && !c.escaped }

  /** compact_json, writing a C string into a fixed buffer. */
  method CompactJson(payload: seq<u8>, output: array<u8>) returns (ok: bool, written: nat)
    modifies output
    ensures |payload| + 1 > output.Length ==> !ok && output[..] == old(output[..])
    ensures |payload| + 1 <= output.Length ==>
      && ok == Complete(Compact(payload))
      && written < output.Length && output[..written] == Compact(payload).output && output[written] == 0
  {
    written := 0;
    if |payload| + 1 > output.Length {
      return false, 0;
    }
    var inString, escaped, read := false, false, 0;
    assert payload[..0] == [];
    while read < |payload|
      invariant 0 <= written <= read <= |payload|
      invariant Compaction(output[..written], inString, escaped) == Compact(payload[..read])
    {
      var b := payload[read];
      ghost var before := output[..written];
      assert payload[..read + 1][..read] == payload[..read];
      read := read + 1;
      if inString || !IsSpace(b) {
        output[written] := b;
        written := written + 1;
        assert output[..written] == before + [b];
        if inString {
          if escaped {
            escaped := false;
          } else if b == BACKSLASH {
            escaped := true;
          } else if b == QUOTE {
            inString := false;
          }
        } else if b == QUOTE {
          inString := true;
        }
      }
    }
    assert payload[..read] == payload;
    ghost var all := output[..written];
    output[written] := 0;
    assert output[..written] == all;
    ok := !inString && !escaped;
  }

  /** Compacting a compact text changes nothing. */
  lemma {:induction false} CompactTwice(text: seq<u8>)
    ensures Compact(Compact(text).output) == Compact(text)
  {
    if text != [] {
      var n := |text| - 1;
      var c, c' := Compact(text[..n]), Compact(text);
      CompactTwice(text[..n]);
      if c' != c {
        assert c'.output[..|c'.output| - 1] == c.output;
      }
    }
  }

  /** Space outside strings does not matter, wherever it stands. */
  lemma {:induction false} SpaceIgnored(before: seq<u8>, space: u8, after: seq<u8>)
    requires IsSpace(space) && !Compact(before).inString
    ensures Compact(before + [space] + after) == Compact(before + after)
    decreases |after|
  {
    hide CompactByte;
    if after == [] {
      assert (before + [space])[..|before|] == before;
      assert before + [space] + [] == before + [space] && before + [] == before;
      assert CompactByte(Compact(before), space) == Compact(before) by { SkipSpace(Compact(before), space); }
    } else {
      var n := |after| - 1;
      SpaceIgnored(before, space, after[..n]);
      assert (before + [space] + after)[..|before| + 1 + n] == before + [space] + after[..n];
      assert (before + after)[..|before| + n] == before + after[..n];
    }
  }

  lemma SkipSpace(c: Compaction, space: u8)
    requires IsSpace(space) && !c.inString
    ensures CompactByte(c, space) == c
  {
  }

  // ---- The version of an update request ----

  datatype Component = Component(value: u16, next: nat)

  function Tail(text: seq<u8>, at: nat): seq<u8> { if at <= |text| then text[at..] else [] }

  /** A number of at most 65535 at a place in the text, and its terminator. */
  function ComponentAt(text: seq<u8>, at: nat, terminator: u8): Option<Component> {
    var rest := Tail(text, at);
    var n := LeadingDigits(rest);
    if n > 0 && Decimal(rest[..n]) <= 0xFFFF && CharAt(rest, n) == terminator
    then Some(Component(Decimal(rest[..n]), at + n + 1))
    else None
  }

  /** parse_version_component: the range is checked after every digit. */
  method ParseComponent(text: seq<u8>, at: nat, terminator: u8) returns (c: Option<Component>)
    ensures c == ComponentAt(text, at, terminator)
  {
    var rest := Tail(text, at);
    ghost var n := LeadingDigits(rest);
    if !IsDigit(CharAt(rest, 0)) {
      return None;
    }
    var value: nat := 0;
    var i := 0;
    while IsDigit(CharAt(rest, i))
      invariant 0 <= i <= n
      invariant value == Decimal(rest[..i]) <= 0xFFFF
      decreases n - i
    {
      assert rest[..i + 1][..i] == rest[..i];
      value := value * 10 + (rest[i] - ZERO);
      i := i + 1;
      if value > 0xFFFF {
        assert rest[..n][..i] == rest[..i];
        DecimalGrows(rest[..n], i);
        return None;
      }
    }
    if CharAt(rest, i) != terminator {
      return None;
    }
    c := Some(Component(value, at + i + 1));
  }

  function StartPrefix(): seq<u8> { Ascii("{\"method\":\"START_OTA\",\"params\":{\"version\":\"") }

  function Closing(): seq<u8> { Ascii("}}") }

  /** The version in a compact update request. */
  function VersionIn(text: seq<u8>): Option<Version> {
    var start := |StartPrefix()|;
    if start > |text| || text[..start] != StartPrefix() then None
    else
      var major := ComponentAt(text, start, DOT);
      if major.None? then None
      else
        var minor := ComponentAt(text, major.value.next, DOT);
        if minor.None? then None
        else
          var patch := ComponentAt(text, minor.value.next, QUOTE);
          if patch.None? || Tail(text, patch.value.next) != Closing() then None
          else Some(Version(major.value.value, minor.value.value, patch.value.value))
  }

  /** payload_parse_start_ota. */
  function StartOtaVersion(payload: seq<u8>): Option<Version> {
    if |payload| >= COPY_SIZE || !Complete(Compact(payload)) then None else VersionIn(Compact(payload).output)
  }

  /** A compact update request with given digits. */
  function StartText(major: seq<u8>, minor: seq<u8>, patch: seq<u8>): seq<u8> {
    StartPrefix() + (major + [DOT] + (minor + [DOT] + (patch + [QUOTE] + Closing())))
  }

  predicate Digits(d: seq<u8>) { d != [] && AllDigits(d) }

  lemma ComponentReads(before: seq<u8>, digits: seq<u8>, terminator: u8, after: seq<u8>, text: seq<u8>, next: nat)
    requires Digits(digits) && !IsDigit(terminator)
    requires text == before + (digits + [terminator] + after) && next == |before| + |digits| + 1
    ensures ComponentAt(text, |before|, terminator)
      == if Decimal(digits) <= 0xFFFF then Some(Component(Decimal(digits), next)) else None
    ensures Tail(text, next) == after
  {
    hide Decimal, LeadingDigits;
    var rest := [terminator] + after;
    assert Tail(text, |before|) == digits + rest;
    DigitsThen(digits, rest);
    assert (digits + rest)[..|digits|] == digits;
    assert CharAt(digits + rest, |digits|) == terminator;
  }

  lemma Regroup(a: seq<u8>, b: seq<u8>, c: seq<u8>, rest: seq<u8>)
    ensures a + (b + c + rest) == (a + b + c) + rest
  {
  }

  /** A compact request is read exactly if its three numbers are in range. */
  lemma VersionReads(major: seq<u8>, minor: seq<u8>, patch: seq<u8>)
    requires Digits(major) && Digits(minor) && Digits(patch)
    ensures VersionIn(StartText(major, minor, patch)) ==
      if Decimal(major) <= 0xFFFF && Decimal(minor) <= 0xFFFF && Decimal(patch) <= 0xFFFF
      then Some(Version(Decimal(major), Decimal(minor), Decimal(patch))) else None
  {
    hide ComponentAt, Decimal, Tail, LeadingDigits, StartPrefix, Closing;
    var p, text := StartPrefix(), StartText(major, minor, patch);
    var third := patch + [QUOTE] + Closing();
    var second := minor + [DOT] + third;
    var p2 := p + major + [DOT];
    var p3 := p2 + minor + [DOT];
    ComponentReads(p, major, DOT, second, text, |p2|);
    Regroup(p, major, [DOT], second);
    ComponentReads(p2, minor, DOT, third, text, |p3|);
    Regroup(p2, minor, [DOT], third);
    ComponentReads(p3, patch, QUOTE, Closing(), text, |p3| + |patch| + 1);
    assert text[..|p|] == p;
  }

  /** Every formatting of an update request for a version yields that version,
      as far as it fits the buffer. */
  lemma AnyFormatting(payload: seq<u8>, v: Version)
    requires Compact(payload) ==
      Compaction(StartText(Notation(v.major), Notation(v.minor), Notation(v.patch)), false, false)
    ensures StartOtaVersion(payload) == if |payload| < COPY_SIZE then Some(v) else None
  {
    hide StartText, VersionIn, Notation, Compact;
    NotationValue(v.major);
    NotationValue(v.minor);
    NotationValue(v.patch);
    VersionReads(Notation(v.major), Notation(v.minor), Notation(v.patch));
  }

  /** Conversely, nothing else is accepted. */
  lemma OnlyStartTexts(text: seq<u8>) returns (major: seq<u8>, minor: seq<u8>, patch: seq<u8>)
    requires VersionIn(text).Some?
    ensures Digits(major) && Digits(minor) && Digits(patch) && text == StartText(major, minor, patch)
    ensures var v := VersionIn(text).value;
      v.major == Decimal(major) && v.minor == Decimal(minor) && v.patch == Decimal(patch)
  {
    hide ComponentAt, Decimal, Tail, LeadingDigits, StartPrefix, Closing, AllDigits;
    var p := StartPrefix();
    var rest1, rest2, rest3;
    major, rest1 := ComponentText(text, |p|, DOT);
    var at2 := ComponentAt(text, |p|, DOT).value.next;
    minor, rest2 := ComponentText(text, at2, DOT);
    patch, rest3 := ComponentText(text, ComponentAt(text, at2, DOT).value.next, QUOTE);
    WholeText(text, p);
  }

  lemma WholeText(text: seq<u8>, p: seq<u8>)
    requires |p| <= |text| && text[..|p|] == p
    ensures text == p + Tail(text, |p|)
  {
  }

  lemma ComponentText(text: seq<u8>, at: nat, terminator: u8) returns (digits: seq<u8>, rest: seq<u8>)
    requires ComponentAt(text, at, terminator).Some? && terminator != 0
    ensures Digits(digits) && ComponentAt(text, at, terminator).value.value == Decimal(digits)
    ensures rest == Tail(text, ComponentAt(text, at, terminator).value.next)
    ensures Tail(text, at) == digits + [terminator] + rest
  {
    var tail := Tail(text, at);
    var n := LeadingDigits(tail);
    digits, rest := tail[..n], Tail(text, at + n + 1);
    assert tail == tail[..n] + [tail[n]] + tail[n + 1..];
  }

  // ---- The scanner and the request in numbers ----

  /** Outside a string blank, tab, CR and LF are dropped, and a quote begins one;
      inside nothing is dropped, and a quote ends it unless a backslash, itself
      not escaped, stands before. */
  lemma ScannerExact(c: Compaction, b: u8)
    ensures !c.inString && (b == 32 || b == 9 || b == 13 || b == 10) ==> CompactByte(c, b) == c
    ensures !c.inString && b != 32 && b != 9 && b != 13 && b != 10 ==>
      CompactByte(c, b) == Compaction(c.output + [b], b == 34, false)
    ensures c.inString && c.escaped ==> CompactByte(c, b) == Compaction(c.output + [b], true, false)
    ensures c.inString && !c.escaped ==> CompactByte(c, b) == Compaction(c.output + [b], b != 34, b == 92)
  {
  }

  /** The compact request, and the bytes it may take with its spaces. */
  lemma RequestTextExact(v: Version, payload: seq<u8>)
    ensures StartText(Notation(v.major), Notation(v.minor), Notation(v.patch))
         == Ascii("{\"method\":\"START_OTA\",\"params\":{\"version\":\"")
            + (Notation(v.major) + [46] + (Notation(v.minor) + [46] + (Notation(v.patch) + [34] + Ascii("}}"))))
    ensures StartOtaVersion(payload).Some? ==> |payload| <= 127 && !Compact(payload).inString
    ensures |payload| <= 127 && !Compact(payload).inString && !Compact(payload).escaped ==>
      StartOtaVersion(payload) == VersionIn(Compact(payload).output)
  {
    hide Notation, VersionIn, Compact, Ascii;
  }

  // ---- A compact request ----

  /** Bytes that mean nothing to the scanner, inside strings and outside. */
  predicate Ordinary(text: seq<u8>) {
    forall i :: 0 <= i < |text| ==> text[i] != QUOTE && text[i] != BACKSLASH && !IsSpace(text[i])
  }

  lemma {:induction false} OrdinaryKept(before: seq<u8>, text: seq<u8>)
    requires Ordinary(text) && !Compact(before).escaped
    ensures Compact(before + text) == Compact(before).(output := Compact(before).output + text)
    decreases |text|
  {
    hide Compact, IsSpace;
    if text == [] {
      assert before + text == before && Compact(before).output + text == Compact(before).output;
    } else {
      var n := |text| - 1;
      OrdinaryKept(before, text[..n]);
      OrdinaryAt(text, n);
      OrdinaryByte(before, text[..n], text[n]);
      assert text == text[..n] + [text[n]] && before + text == before + text[..n] + [text[n]];
      assert Compact(before).output + text == Compact(before).output + text[..n] + [text[n]];
    }
  }

  lemma OrdinaryByte(before: seq<u8>, text: seq<u8>, b: u8)
    requires b != QUOTE && b != BACKSLASH && !IsSpace(b) && !Compact(before).escaped
    requires Compact(before + text) == Compact(before).(output := Compact(before).output + text)
    ensures Compact(before + text + [b]) == Compact(before).(output := Compact(before).output + text + [b])
  {
    hide Compact, CompactByte;
    CompactLast(before + text, b);
    ByteKept(Compact(before + text), b);
  }

  lemma CompactLast(text: seq<u8>, b: u8)
    ensures Compact(text + [b]) == CompactByte(Compact(text), b)
  {
    hide CompactByte;
    assert (text + [b])[..|text|] == text;
  }

  lemma OrdinaryAt(text: seq<u8>, n: nat)
    requires Ordinary(text) && n < |text|
    ensures text[n] != QUOTE && text[n] != BACKSLASH && !IsSpace(text[n])
  {
  }

  lemma ByteKept(c: Compaction, b: u8)
    requires !c.escaped && b != QUOTE && b != BACKSLASH && !IsSpace(b)
    ensures CompactByte(c, b) == c.(output := c.output + [b])
  {
  }

  lemma QuoteKept(before: seq<u8>)
    requires !Compact(before).escaped
    ensures var c := Compact(before);
      Compact(before + [QUOTE]) == Compaction(c.output + [QUOTE], !c.inString, false)
  {
    assert (before + [QUOTE])[..|before|] == before;
  }

  /** The text so far has been kept as it is, and ends outside strings. */
  predicate Kept(text: seq<u8>) { Compact(text) == Compaction(text, false, false) }

  lemma StringKept(before: seq<u8>, word: seq<u8>)
    requires Kept(before) && Ordinary(word)
    ensures Kept(before + [QUOTE] + word + [QUOTE])
  {
    hide Compact, Ordinary;
    QuoteKept(before);
    OrdinaryKept(before + [QUOTE], word);
    QuoteKept(before + [QUOTE] + word);
  }

  lemma WordKept(before: seq<u8>, word: seq<u8>)
    requires Kept(before) && Ordinary(word)
    ensures Kept(before + word)
  {
    hide Compact, Ordinary;
    OrdinaryKept(before, word);
  }

  lemma NumberOrdinary(digits: seq<u8>)
    requires AllDigits(digits)
    ensures Ordinary(digits)
  {
  }

  /** The compact request for a version. */
  function Members(version: seq<u8>): seq<u8> { StartPrefix() + (version + [QUOTE] + Closing()) }

  lemma MemberKept(before: seq<u8>, name: seq<u8>, mark: seq<u8>, text: seq<u8>)
    requires Kept(before) && Ordinary(name) && Ordinary(mark) && text == [QUOTE] + name + [QUOTE] + mark
    ensures Kept(before + text)
  {
    hide Compact, Ordinary, Kept;
    StringKept(before, name);
    WordKept(before + [QUOTE] + name + [QUOTE], mark);
    assert before + text == before + [QUOTE] + name + [QUOTE] + mark;
  }

  lemma MembersKept(version: seq<u8>)
    requires Ordinary(version)
    ensures Kept(Members(version))
  {
    WordsOrdinary();
    PrefixParts();
    MethodPart();
    ParamsPart();
    hide Compact, Ordinary, Ascii, Kept, StartPrefix;
    EmptyKept();
    WordKept([], Ascii("{"));
    assert [] + Ascii("{") == Ascii("{");
    StringKept(Ascii("{"), Ascii("method"));
    var t := Ascii("{") + [QUOTE] + Ascii("method") + [QUOTE];
    WordKept(t, Ascii(":"));
    t := t + Ascii(":");
    MemberKept(t, Ascii("START_OTA"), Ascii(","), Ascii("\"START_OTA\","));
    t := t + Ascii("\"START_OTA\",");
    MemberKept(t, Ascii("params"), Ascii(":{"), Ascii("\"params\":{"));
    t := t + Ascii("\"params\":{");
    ValueKept(t, version);
  }

  lemma ValueKept(before: seq<u8>, version: seq<u8>)
    requires Kept(before) && Ordinary(version)
    requires StartPrefix() == before + Ascii("\"version\":\"")
    ensures Kept(Members(version))
  {
    WordsOrdinary();
    ParamsPart();
    hide Compact, Ordinary, Ascii, Kept, StartPrefix;
    var t := before + ([QUOTE] + Ascii("version") + [QUOTE] + Ascii(":"));
    MemberKept(before, Ascii("version"), Ascii(":"), [QUOTE] + Ascii("version") + [QUOTE] + Ascii(":"));
    StringKept(t, version);
    WordKept(t + [QUOTE] + version + [QUOTE], Ascii("}}"));
    assert StartPrefix() == t + [QUOTE];
    assert Members(version) == t + [QUOTE] + version + [QUOTE] + Ascii("}}");
  }

  lemma EmptyKept()
    ensures Kept([])
  {
  }

  lemma WordsOrdinary()
    ensures Ordinary(Ascii("{")) && Ordinary(Ascii(":")) && Ordinary(Ascii(",")) && Ordinary(Ascii(":{"))
    ensures Ordinary(Ascii("method")) && Ordinary(Ascii("START_OTA")) && Ordinary(Ascii("params"))
    ensures Ordinary(Ascii("version")) && Ordinary(Ascii("}}"))
  {
    hide Ordinary, Ascii;
    MarksOrdinary();
    MethodOrdinary();
    ParamsOrdinary();
  }

  lemma MarksOrdinary()
    ensures Ordinary(Ascii("{")) && Ordinary(Ascii(":")) && Ordinary(Ascii(",")) && Ordinary(Ascii(":{"))
    ensures Ordinary(Ascii("}}"))
  {
  }

  lemma MethodOrdinary()
    ensures Ordinary(Ascii("method")) && Ordinary(Ascii("START_OTA"))
  {
  }

  lemma ParamsOrdinary()
    ensures Ordinary(Ascii("params")) && Ordinary(Ascii("version"))
  {
  }

  /** The numbers of a version with dots in between. */
  function Dotted(v: Version): seq<u8> {
    Notation(v.major) + [DOT] + Notation(v.minor) + [DOT] + Notation(v.patch)
  }

  lemma DottedOrdinary(v: Version)
    ensures Ordinary(Dotted(v)) && |Dotted(v)| <= 17
  {
    hide Notation;
    NumberOrdinary(Notation(v.major));
    NumberOrdinary(Notation(v.minor));
    NumberOrdinary(Notation(v.patch));
    assert Power10(5) == 100 * Power10(3) == 10000 * Power10(1);
    NotationLength(v.major, 5);
    NotationLength(v.minor, 5);
    NotationLength(v.patch, 5);
  }

  lemma {:induction false} AsciiConcat(a: string, b: string)
    ensures Ascii(a + b) == Ascii(a) + Ascii(b)
  {
  }

  lemma PrefixParts()
    ensures StartPrefix()
         == Ascii("{\"method\":") + Ascii("\"START_OTA\",") + Ascii("\"params\":{") + Ascii("\"version\":\"")
  {
    AsciiConcat("{\"method\":", "\"START_OTA\",");
    AsciiConcat("{\"method\":" + "\"START_OTA\",", "\"params\":{");
    AsciiConcat("{\"method\":" + "\"START_OTA\"," + "\"params\":{", "\"version\":\"");
    hide Ascii;
  }

  lemma MethodPart()
    ensures Ascii("{\"method\":") == Ascii("{") + [QUOTE] + Ascii("method") + [QUOTE] + Ascii(":")
    ensures Ascii("\"START_OTA\",") == [QUOTE] + Ascii("START_OTA") + [QUOTE] + Ascii(",")
  {
  }

  lemma ParamsPart()
    ensures Ascii("\"params\":{") == [QUOTE] + Ascii("params") + [QUOTE] + Ascii(":{")
    ensures Ascii("\"version\":\"") == [QUOTE] + Ascii("version") + [QUOTE] + Ascii(":") + [QUOTE]
  {
  }

  lemma RequestIs(v: Version)
    ensures StartText(Notation(v.major), Notation(v.minor), Notation(v.patch)) == Members(Dotted(v))
    ensures |Members(Dotted(v))| <= 64
  {
    DottedOrdinary(v);
    assert |StartPrefix()| == 43 && |Closing()| == 2;
    hide Notation, StartPrefix, Closing, Ordinary;
    var x, y, z, end := Notation(v.major), Notation(v.minor), Notation(v.patch), [QUOTE] + Closing();
    assert x + [DOT] + (y + [DOT] + (z + [QUOTE] + Closing())) == Dotted(v) + [QUOTE] + Closing();
  }

  /** The compact request for a version is read as that version. */
  lemma CompactRequest(v: Version)
    ensures StartOtaVersion(Members(Dotted(v))) == Some(v)
  {
    hide Notation, StartText, Members, Dotted, Compact;
    DottedOrdinary(v);
    MembersKept(Dotted(v));
    RequestIs(v);
    AnyFormatting(Members(Dotted(v)), v);
  }
}
