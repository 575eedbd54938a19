/** What saving and loading the settings file keeps, for every settings value. */
module SettingsRoundTrip {
  import opened Basics
  import opened TextCodec
  import opened LineBuffers
  import opened Settings

  // ----- single values -----

  lemma IntRoundTrip(v: int, fallback: int, minimum: int, maximum: int)
    requires minimum <= fallback <= maximum
    ensures ParseLong(IntText(v), fallback, minimum, maximum) == Clamp(v, minimum, maximum)
  {
    hide Digits, ParseInteger, Clamp;
    if v >= 0 {
      ParseDigits(v);
    } else {
      ParseNegative(-v);
    }
  }

  lemma ParseNegative(n: nat)
    ensures ParseInteger("-" + Digits(n)) == Some(-(n as int))
  {
    hide Digits, Value;
    DigitsRoundTrip(n);
    var t := "-" + Digits(n);
    assert t[0] == '-' && t[1..] == Digits(n) && SkipBlanks(t) == t;
  }

  lemma IntPlain(v: int)
    ensures IsPlain(IntText(v))
  {
    var n: nat := if v < 0 then -v else v;
    DigitsHave(n, '\t');
    DigitsHave(n, '\n');
    DigitsHave(n, '\r');
    hide Digits;
  }

  lemma {:induction false} StripsToPrefix(s: string)
    ensures StripZeros(s) <= s && StripPoint(s) <= s
  {
    if |s| > 1 {
      StripsToPrefix(s[..|s| - 1]);
    }
  }

  lemma UnitsPlain(units: nat, precision: nat)
    ensures IsPlain(FormatUnits(units, precision))
  {
    hide Pow10, FormatScaled;
    ScaledPlain(units, Pow10(precision), precision);
  }

  lemma ScaledPlain(units: nat, scale: nat, precision: nat)
    requires scale > 0
    ensures IsPlain(FormatScaled(units, scale, precision))
  {
    hide Digits, Padded, StripZeros, StripPoint, IsDigit;
    var w, f := Digits(units / scale), Padded(units % scale, precision);
    DigitsPlain(units / scale);
    PaddedPlain(units % scale, precision);
    var s := w + "." + f;
    assert IsPlain(s);
    StripsToPrefix(s);
    StripsToPrefix(StripZeros(s));
  }

  lemma DigitsPlain(n: nat)
    ensures IsPlain(Digits(n))
  {
    DigitsRoundTrip(n);
  }

  lemma {:induction false} PaddedPlain(n: nat, precision: nat)
    ensures IsPlain(Padded(n, precision))
  {
    if precision > 0 {
      PaddedPlain(n / 10, precision - 1);
    }
  }

  lemma DoublePlain(value: real, precision: nat)
    ensures IsPlain(FormatDouble(value, precision))
  {
    hide FormatUnits, Units;
    var units := Units(value, precision);
    UnitsPlain(if units >= 0 then units else -units, precision);
  }

  // ----- keys and lines -----

  predicate NameChar(ch: char) {
    'a' <= ch <= 'z' || ch == '_'
  }

  lemma NamePlain(key: Key)
    requires key != OtherKey
    ensures '=' !in NameOf(key) && '\n' !in NameOf(key) && '\r' !in NameOf(key)
  {
    NameChars(key);
    hide NameOf;
    assert !NameChar('=') && !NameChar('\n') && !NameChar('\r');
  }

  lemma NameChars(key: Key)
    requires key != OtherKey
    ensures forall i :: 0 <= i < |NameOf(key)| ==> NameChar(NameOf(key)[i])
  {
  }

  lemma KeyKnown(key: Key)
    requires key != OtherKey
    ensures KeyOf(NameOf(key)) == key
  {
  }

  /** What the parser makes of a line `name=value` as the printer writes it. */
  lemma LineParses(s: AppSettings, name: string, raw: string)
    requires '=' !in name
    ensures ParseLine(s, name + "=" + raw) ==
      if KeyOf(name) == ContactKey then AddContact(s, raw) else SetField(s, KeyOf(name), Unescape(raw))
  {
    hide KeyOf, AddContact, SetField, Unescape, IndexOf;
    IndexOfFirst(name, '=', raw);
    var line := name + ['='] + raw;
    assert name + "=" + raw == line && line[..|name|] == name && line[|name| + 1..] == raw;
  }

  lemma KeyLine(s: AppSettings, key: Key, value: string)
    requires key != OtherKey && key != ContactKey
    ensures ParseLine(s, ValueLine(NameOf(key), value)) == SetField(s, key, value)
    ensures '\n' !in ValueLine(NameOf(key), value) && '\r' !in ValueLine(NameOf(key), value)
  {
    hide ParseLine, SetField, KeyOf, NameOf, Escape, Unescape;
    NamePlain(key);
    KeyKnown(key);
    EscapeRoundTrip(value);
    LineParses(s, NameOf(key), Escape(value));
  }

  // ----- the single-valued keys -----

  /** What a saved and loaded settings value is: numbers clamped, decimals rounded, hotkeys masked. */
  function Normal(s: AppSettings): AppSettings {
    AppSettings(
      Clamp(s.windowWidth, 1, 32767), Clamp(s.windowHeight, 1, 32767), s.language, NormalHotkey(s.pttAllHotkey),
      s.debugConsoleVisible, Clamp(s.localPort, 1, 65535), s.networkAdapterId, s.captureDeviceSelector,
      s.renderDeviceSelector, NormalContacts(s.contacts))
  }

  function NormalContacts(contacts: seq<Contact>): (normal: seq<Contact>)
    ensures |normal| == |contacts|
  {
    seq(|contacts|, i requires 0 <= i < |contacts| => NormalContact(contacts[i]))
  }

  function NormalContact(c: Contact): Contact {
    Contact(
      c.name, c.host, Clamp(c.port, 1, 65535), NormalReal(c.gain, 3, 0.0, 3.0), c.selfDuck,
      NormalReal(c.duckDb, 3, 0.0, 60.0), NormalReal(c.duckThreshold, 5, 0.0, 1.0), Clamp(c.duckAttackMs, 0, 1000),
      Clamp(c.duckHoldMs, 0, 1000), Clamp(c.duckReleaseMs, 0, 5000), c.muted, NormalHotkey(c.pttHotkey),
      c.globalPttEnabled, Clamp(c.receiveBufferMs, 5, 100))
  }

  /** `t` with one field taken from `n`. */
  function Copied(t: AppSettings, n: AppSettings, key: Key): AppSettings {
    match key
    case WindowWidth => t.(windowWidth := n.windowWidth)
    case WindowHeight => t.(windowHeight := n.windowHeight)
    case LanguageKey => t.(language := n.language)
    case HotkeyPttAll => t.(pttAllHotkey := n.pttAllHotkey)
    case DebugConsole => t.(debugConsoleVisible := n.debugConsoleVisible)
    case LocalPort => t.(localPort := n.localPort)
    case NetworkAdapter => t.(networkAdapterId := n.networkAdapterId)
    case CaptureDevice => t.(captureDeviceSelector := n.captureDeviceSelector)
    case RenderDevice => t.(renderDeviceSelector := n.renderDeviceSelector)
    case _ => t
  }

  lemma LanguageRoundTrip(language: Language)
    ensures ParseLanguage(LanguageText(language)) == language
  {
  }

  lemma FlagRoundTrip(flag: bool, fallback: bool)
    ensures ParseBool(FlagText(flag), fallback) == flag && IsPlain(FlagText(flag))
  {
  }

  lemma FieldSet(t: AppSettings, s: AppSettings, key: Key)
    requires key != OtherKey && key != ContactKey
    ensures SetField(t, key, FieldText(s, key)) == Copied(t, Normal(s), key)
  {
    hide IntText, ParseLong, Clamp, EncodeHotkey, DecodeHotkey, NormalHotkey, LanguageText, ParseLanguage, FlagText,
      ParseBool, NormalContacts;
    IntRoundTrip(s.windowWidth, 600, 1, 32767);
    IntRoundTrip(s.windowHeight, 650, 1, 32767);
    IntRoundTrip(s.localPort, 49740, 1, 65535);
    LanguageRoundTrip(s.language);
    FlagRoundTrip(s.debugConsoleVisible, false);
    HotkeyRoundTrip(s.pttAllHotkey);
  }

  lemma FieldLineParses(t: AppSettings, s: AppSettings, key: Key)
    requires key != OtherKey && key != ContactKey
    ensures ParseLine(t, FieldLine(s, key)) == Copied(t, Normal(s), key)
    ensures '\n' !in FieldLine(s, key) && '\r' !in FieldLine(s, key)
  {
    hide ParseLine, ValueLine, SetField, FieldText, Copied, Normal;
    KeyLine(t, key, FieldText(s, key));
    FieldSet(t, s, key);
  }

  lemma VersionKey()
    ensures KeyOf("version") == OtherKey && '=' !in "version"
  {
  }

  lemma VersionText()
    ensures VersionLine() == "version" + "=" + "1" && '\n' !in VersionLine() && '\r' !in VersionLine()
  {
  }

  lemma VersionIgnored(s: AppSettings)
    ensures ParseLine(s, VersionLine()) == s && '\n' !in VersionLine() && '\r' !in VersionLine()
  {
    hide ParseLine, Unescape, KeyOf, VersionLine;
    VersionKey();
    VersionText();
    LineParses(s, "version", "1");
  }

  lemma MicGainKey()
    ensures KeyOf("mic_gain") == OtherKey && '=' !in "mic_gain" && '\n' !in "mic_gain" && '\r' !in "mic_gain"
  {
  }

  lemma MicGainIgnored(s: AppSettings)
    ensures ParseLine(s, MicGainLine()) == s && '\n' !in MicGainLine() && '\r' !in MicGainLine()
  {
    hide ParseLine, Unescape, Escape, KeyOf;
    MicGainKey();
    EscapeRoundTrip("1.0");
    LineParses(s, "mic_gain", Escape("1.0"));
  }

  lemma {:induction false} ParseLinesConcat(s: AppSettings, a: seq<string>, b: seq<string>)
    ensures ParseLines(s, a + b) == ParseLines(ParseLines(s, a), b)
    decreases |a|
  {
    hide ParseLine;
    if a == [] {
      assert a + b == b;
    } else {
      assert (a + b)[1..] == a[1..] + b;
      ParseLinesConcat(ParseLine(s, a[0]), a[1..], b);
    }
  }

  lemma StepLine(t: AppSettings, lines: seq<string>, i: nat)
    requires i < |lines|
    ensures ParseLines(t, lines[i..]) == ParseLines(ParseLine(t, lines[i]), lines[i + 1..])
  {
    hide ParseLine;
    assert lines[i..][1..] == lines[i + 1..];
  }

  lemma HeaderParses(s: AppSettings)
    ensures ParseLines(DEFAULT_SETTINGS, HeaderLines(s)) == Normal(s).(contacts := [])
  {
    hide ParseLine, FieldLine, VersionLine, MicGainLine, Normal, HeaderLines;
    var h := HeaderLines(s);
    HeaderHas(s);
    var t0 := DEFAULT_SETTINGS;
    VersionIgnored(t0);
    StepLine(t0, h, 0);
    var t3 := ThreeFields(s, h, t0, 1, WindowWidth, WindowHeight, LanguageKey);
    var t6 := ThreeFields(s, h, t3, 4, HotkeyPttAll, DebugConsole, LocalPort);
    FieldLineParses(t6, s, NetworkAdapter);
    StepLine(t6, h, 7);
    var t7 := Copied(t6, Normal(s), NetworkAdapter);
    MicGainIgnored(t7);
    StepLine(t7, h, 8);
    FieldLineParses(t7, s, CaptureDevice);
    StepLine(t7, h, 9);
    var t8 := Copied(t7, Normal(s), CaptureDevice);
    FieldLineParses(t8, s, RenderDevice);
    StepLine(t8, h, 10);
    assert h[0..] == h && h[11..] == [];
  }

  lemma HeaderHas(s: AppSettings)
    ensures var h := HeaderLines(s);
      |h| == 11 && h[0] == VersionLine() && h[1] == FieldLine(s, WindowWidth) && h[2] == FieldLine(s, WindowHeight) &&
      h[3] == FieldLine(s, LanguageKey) && h[4] == FieldLine(s, HotkeyPttAll) && h[5] == FieldLine(s, DebugConsole) &&
      h[6] == FieldLine(s, LocalPort) && h[7] == FieldLine(s, NetworkAdapter) && h[8] == MicGainLine() &&
      h[9] == FieldLine(s, CaptureDevice) && h[10] == FieldLine(s, RenderDevice)
  {
    hide FieldLine, VersionLine, MicGainLine;
  }

  lemma ThreeFields(s: AppSettings, h: seq<string>, t: AppSettings, i: nat, a: Key, b: Key, c: Key)
    returns (u: AppSettings)
    requires {a, b, c} !! {OtherKey, ContactKey} && i + 3 <= |h|
    requires h[i] == FieldLine(s, a) && h[i + 1] == FieldLine(s, b) && h[i + 2] == FieldLine(s, c)
    ensures u == Copied(Copied(Copied(t, Normal(s), a), Normal(s), b), Normal(s), c)
    ensures ParseLines(t, h[i..]) == ParseLines(u, h[i + 3..])
  {
    hide ParseLine, FieldLine, Normal, Copied;
    var t1 := Copied(t, Normal(s), a);
    var t2 := Copied(t1, Normal(s), b);
    u := Copied(t2, Normal(s), c);
    FieldLineParses(t, s, a);
    FieldLineParses(t1, s, b);
    FieldLineParses(t2, s, c);
    StepLine(t, h, i);
    StepLine(t1, h, i + 1);
    StepLine(t2, h, i + 2);
  }

  // ----- contacts -----

  lemma FieldsPlain(c: Contact)
    ensures forall i :: 0 <= i < 14 ==> IsPlain(PrintedFields(c)[i])
  {
    hide Escape, IntText, FormatDouble, FlagText, EncodeHotkey, IsPlain;
    EscapeRoundTrip(c.name);
    EscapeRoundTrip(c.host);
    EscapeRoundTrip(EncodeHotkey(c.pttHotkey));
    IntPlain(c.port);
    IntPlain(c.duckAttackMs);
    IntPlain(c.duckHoldMs);
    IntPlain(c.duckReleaseMs);
    IntPlain(c.receiveBufferMs);
    DoublePlain(c.gain, 3);
    DoublePlain(c.duckDb, 3);
    DoublePlain(c.duckThreshold, 5);
    FlagRoundTrip(c.selfDuck, true);
    FlagRoundTrip(c.muted, false);
    FlagRoundTrip(c.globalPttEnabled, true);
  }

  /** What is left of a contact in a file whose lines have only the first `n` fields. */
  function Shortened(c: Contact, n: nat): Contact {
    c.(muted := n >= 11 && c.muted, pttHotkey := if n >= 12 then c.pttHotkey else NO_HOTKEY,
       globalPttEnabled := n < 13 || c.globalPttEnabled, receiveBufferMs := if n >= 14 then c.receiveBufferMs else 20)
  }

  /** The printed fields, read one by one. */
  lemma FieldsParse(c: Contact)
    ensures var f, n := PrintedFields(c), NormalContact(c);
      && Unescape(f[0]) == n.name && Unescape(f[1]) == n.host && ParseLong(f[2], 49740, 1, 65535) == n.port
      && ParseDouble(f[3], 1.0, 0.0, 3.0) == n.gain && ParseBool(f[4], true) == n.selfDuck
      && ParseDouble(f[5], 12.0, 0.0, 60.0) == n.duckDb && ParseDouble(f[6], 0.2, 0.0, 1.0) == n.duckThreshold
      && ParseLong(f[7], 8, 0, 1000) == n.duckAttackMs && ParseLong(f[8], 80, 0, 1000) == n.duckHoldMs
      && ParseLong(f[9], 120, 0, 5000) == n.duckReleaseMs && ParseBool(f[10], false) == n.muted
      && DecodeHotkey(Unescape(f[11])) == n.pttHotkey && ParseBool(f[12], true) == n.globalPttEnabled
      && ParseLong(f[13], 20, 5, 100) == n.receiveBufferMs
  {
    hide Escape, Unescape, IntText, ParseLong, Clamp, FormatDouble, ParseDouble, NormalReal, FlagText, ParseBool,
      EncodeHotkey, DecodeHotkey, NormalHotkey;
    EscapeRoundTrip(c.name);
    EscapeRoundTrip(c.host);
    EscapeRoundTrip(EncodeHotkey(c.pttHotkey));
    HotkeyRoundTrip(c.pttHotkey);
    IntRoundTrip(c.port, 49740, 1, 65535);
    IntRoundTrip(c.duckAttackMs, 8, 0, 1000);
    IntRoundTrip(c.duckHoldMs, 80, 0, 1000);
    IntRoundTrip(c.duckReleaseMs, 120, 0, 5000);
    IntRoundTrip(c.receiveBufferMs, 20, 5, 100);
    DoubleRoundTrip(c.gain, 3, 1.0, 0.0, 3.0);
    DoubleRoundTrip(c.duckDb, 3, 12.0, 0.0, 60.0);
    DoubleRoundTrip(c.duckThreshold, 5, 0.2, 0.0, 1.0);
    FlagRoundTrip(c.selfDuck, true);
    FlagRoundTrip(c.muted, false);
    FlagRoundTrip(c.globalPttEnabled, true);
  }

  /** A contact line with at least its first ten fields gives the contact, with defaults for what is missing. */
  lemma ContactAdded(t: AppSettings, c: Contact, n: nat)
    requires 10 <= n <= 14
    ensures AddContact(t, Join(PrintedFields(c)[..n], '\t')) ==
      t.(contacts := t.contacts + [Shortened(NormalContact(c), n)])
  {
    hide PrintedFields, NormalContact, Join, Split, Unescape, ParseLong, ParseDouble, ParseBool, DecodeHotkey;
    FieldsPlain(c);
    FieldCount(c);
    SplitJoin(PrintedFields(c)[..n], '\t');
    FieldsParse(c);
  }

  /** The oldest lines lack the name and what was added later: the host serves as the name. */
  lemma LegacyContactAdded(t: AppSettings, c: Contact)
    ensures AddContact(t, Join(PrintedFields(c)[1..10], '\t')) ==
      t.(contacts := t.contacts + [Shortened(NormalContact(c), 0).(name := c.host)])
  {
    hide PrintedFields, Join, Split, Unescape, ParseLong, ParseDouble, ParseBool, DecodeHotkey, Clamp, NormalReal,
      NormalHotkey;
    FieldsPlain(c);
    FieldCount(c);
    SplitJoin(PrintedFields(c)[1..10], '\t');
    FieldsParse(c);
  }

  lemma FieldCount(c: Contact)
    ensures |PrintedFields(c)| == 14
  {
    hide Escape, IntText, FormatDouble, FlagText, EncodeHotkey;
  }

  lemma ContactLineParses(t: AppSettings, c: Contact)
    ensures ParseLine(t, ContactLine(c)) == t.(contacts := t.contacts + [NormalContact(c)])
    ensures '\n' !in ContactLine(c) && '\r' !in ContactLine(c)
  {
    hide ParseLine, AddContact, PrintedFields, Join, NormalContact, NameOf, KeyOf, SetField, Unescape;
    NamePlain(ContactKey);
    KeyKnown(ContactKey);
    FieldsPlain(c);
    FieldCount(c);
    JoinPlain(PrintedFields(c));
    LineParses(t, NameOf(ContactKey), Join(PrintedFields(c), '\t'));
    assert PrintedFields(c)[..14] == PrintedFields(c);
    ContactAdded(t, c, 14);
  }

  lemma {:induction false} ContactsParse(t: AppSettings, contacts: seq<Contact>)
    ensures ParseLines(t, ContactLines(contacts)) == t.(contacts := t.contacts + NormalContacts(contacts))
    decreases |contacts|
  {
    hide ParseLine, ContactLine, NormalContact;
    if contacts != [] {
      var c := contacts[0];
      ContactLineParses(t, c);
      var u := t.(contacts := t.contacts + [NormalContact(c)]);
      ContactsParse(u, contacts[1..]);
      assert ContactLines(contacts)[1..] == ContactLines(contacts[1..]);
      assert t.contacts + NormalContacts(contacts) == u.contacts + NormalContacts(contacts[1..]);
    } else {
      assert t.contacts + NormalContacts(contacts) == t.contacts;
    }
  }

  // ----- other lines -----

  /** Other spellings that older files may hold. */
  lemma OlderSpellings(fallback: bool)
    ensures ParseBool("true", fallback) && ParseBool("yes", fallback)
    ensures !ParseBool("false", fallback) && !ParseBool("no", fallback)
    ensures ParseLanguage("russian") == Russian && ParseLanguage("english") == English
  {
  }

  /** A line without an equals sign, and one with a name that is none of the ten, change nothing. */
  lemma LineIgnored(s: AppSettings, line: string, name: string, raw: string)
    ensures '=' !in line ==> ParseLine(s, line) == s
    ensures '=' !in name && (forall key :: key != OtherKey ==> NameOf(key) != name) ==>
      ParseLine(s, name + "=" + raw) == s
  {
    if '=' !in line {
      FindsFirst(line, '=', |line|);
    }
    if '=' !in name && (forall key :: key != OtherKey ==> NameOf(key) != name) {
      UnknownKey(name);
      hide ParseLine, KeyOf, NameOf, AddContact, Unescape;
      LineParses(s, name, raw);
    }
  }

  lemma UnknownKey(name: string)
    requires forall key :: key != OtherKey ==> NameOf(key) != name
    ensures KeyOf(name) == OtherKey
  {
    var key := KeyOf(name);
    if key != OtherKey {
      KeyNamed(name);
    }
  }

  lemma KeyNamed(name: string)
    requires KeyOf(name) != OtherKey
    ensures NameOf(KeyOf(name)) == name
  {
  }

  /** A contact line with fewer than nine fields is ignored. */
  lemma ShortContactIgnored(s: AppSettings, fields: seq<string>)
    requires 0 < |fields| < 9 && forall i :: 0 <= i < |fields| ==> '\t' !in fields[i]
    ensures AddContact(s, Join(fields, '\t')) == s
  {
    hide Join, Split;
    SplitJoin(fields, '\t');
  }

  // ----- the whole file -----

  ghost predicate OneLine(line: string) {
    '\n' !in line && '\r' !in line
  }

  lemma {:induction false} TextLinesOf(lines: seq<string>)
    requires forall i :: 0 <= i < |lines| ==> OneLine(lines[i])
    ensures TextLines(Text(lines)) == lines
  {
    hide Lines, Rest;
    if lines == [] {
      FirstLine("", "");
    } else {
      TextLinesOf(lines[1..]);
      FirstLine(lines[0], Text(lines[1..]));
      assert WithoutReturn(lines[0]) == lines[0];
    }
  }

  lemma HeaderOneLine(s: AppSettings)
    ensures forall i :: 0 <= i < 11 ==> OneLine(HeaderLines(s)[i])
  {
    hide ParseLine, FieldLine, VersionLine, MicGainLine, Copied, Normal, HeaderLines;
    HeaderHas(s);
    VersionIgnored(s);
    MicGainIgnored(s);
    forall key | key != OtherKey && key != ContactKey ensures OneLine(FieldLine(s, key)) {
      FieldLineParses(s, s, key);
    }
  }

  /**
   Saving any settings and loading them gives them back with numbers clamped, decimals rounded
   to the printed grid and hotkeys masked; names, hosts and selectors come back character by
   character, contacts in order, none lost.
   */
  lemma SaveThenLoad(s: AppSettings)
    ensures ParseSettings(SerializeSettings(s)) == Normal(s)
  {
    hide ParseLines, HeaderLines, TextLines, Text, ContactLine, NormalContact, Clamp, NormalHotkey, ParseLine,
      FieldLine;
    var h, c := HeaderLines(s), ContactLines(s.contacts);
    HeaderHas(s);
    HeaderOneLine(s);
    forall i | 0 <= i < |c| ensures OneLine(c[i]) {
      ContactLineParses(s, s.contacts[i]);
    }
    TextLinesOf(h + c);
    ParseLinesConcat(DEFAULT_SETTINGS, h, c);
    HeaderParses(s);
    ContactsParse(Normal(s).(contacts := []), s.contacts);
    assert [] + NormalContacts(s.contacts) == NormalContacts(s.contacts);
  }

  predicate CanonicalContact(c: Contact) {
    && 1 <= c.port <= 65535
    && OnGrid(c.gain, 3) && 0.0 <= c.gain <= 3.0
    && OnGrid(c.duckDb, 3) && 0.0 <= c.duckDb <= 60.0
    && OnGrid(c.duckThreshold, 5) && 0.0 <= c.duckThreshold <= 1.0
    && 0 <= c.duckAttackMs <= 1000 && 0 <= c.duckHoldMs <= 1000 && 0 <= c.duckReleaseMs <= 5000
    && CanonicalHotkey(c.pttHotkey)
    && 5 <= c.receiveBufferMs <= 100
  }

  /** In range, on the printed grid, with canonical hotkeys. */
  predicate Canonical(s: AppSettings) {
    && 1 <= s.windowWidth <= 32767 && 1 <= s.windowHeight <= 32767
    && CanonicalHotkey(s.pttAllHotkey)
    && 1 <= s.localPort <= 65535
    && forall i :: 0 <= i < |s.contacts| ==> CanonicalContact(s.contacts[i])
  }

  lemma ContactSurvives(c: Contact)
    ensures NormalContact(c) == c <==> CanonicalContact(c)
  {
    hide NormalReal, OnGrid, NormalHotkey, CanonicalHotkey;
    RealSurvives(c.gain, 3, 0, 3);
    RealSurvives(c.duckDb, 3, 0, 60);
    RealSurvives(c.duckThreshold, 5, 0, 1);
    HotkeyRoundTrip(c.pttHotkey);
  }

  /** Settings survive saving and loading exactly when they are canonical. */
  lemma SettingsRoundTrip(s: AppSettings)
    ensures ParseSettings(SerializeSettings(s)) == s <==> Canonical(s)
  {
    hide ParseSettings, SerializeSettings, NormalContact, CanonicalContact, NormalHotkey, CanonicalHotkey;
    SaveThenLoad(s);
    HotkeyRoundTrip(s.pttAllHotkey);
    forall i | 0 <= i < |s.contacts|
      ensures NormalContact(s.contacts[i]) == s.contacts[i] <==> CanonicalContact(s.contacts[i])
    {
      ContactSurvives(s.contacts[i]);
    }
    var n := NormalContacts(s.contacts);
    assert forall i :: 0 <= i < |n| ==> n[i] == NormalContact(s.contacts[i]);
    if Canonical(s) {
      assert n == s.contacts;
    }
  }

  lemma ClampReaches(v: real, minimum: nat, maximum: nat, precision: nat)
    requires minimum <= maximum
    ensures var n := NormalReal(v, precision, minimum as real, maximum as real);
      OnGrid(n, precision) && minimum as real <= n <= maximum as real
  {
    RoundedOnGrid(v, precision);
    WholeOnGrid(minimum, precision);
    WholeOnGrid(maximum, precision);
    hide Rounded, OnGrid;
  }

  lemma RoundedOnGrid(v: real, precision: nat)
    ensures OnGrid(Rounded(v, precision), precision)
  {
    hide Units, Pow10;
    var units, p := Units(v, precision), Pow10(precision) as real;
    DividedBack(units as real, p);
    UnitsExact(Rounded(v, precision), precision, units);
  }

  lemma DividedBack(a: real, b: real)
    requires b > 0.0
    ensures a / b * b == a
  {
  }

  /** Whatever was saved, what is loaded is canonical, so saving and loading it again changes nothing. */
  lemma LoadedIsCanonical(s: AppSettings)
    ensures Canonical(Normal(s))
    ensures ParseSettings(SerializeSettings(Normal(s))) == Normal(s)
  {
    hide ParseSettings, SerializeSettings, NormalContact, CanonicalContact;
    forall i | 0 <= i < |s.contacts| ensures CanonicalContact(NormalContact(s.contacts[i])) {
      ContactIsCanonical(s.contacts[i]);
    }
    var n := NormalContacts(s.contacts);
    assert forall i :: 0 <= i < |n| ==> n[i] == NormalContact(s.contacts[i]);
    SettingsRoundTrip(Normal(s));
  }

  lemma ContactIsCanonical(c: Contact)
    ensures CanonicalContact(NormalContact(c))
  {
    hide NormalReal, OnGrid;
    ClampReaches(c.gain, 0, 3, 3);
    ClampReaches(c.duckDb, 0, 60, 3);
    ClampReaches(c.duckThreshold, 0, 1, 5);
  }

  // ----- the loops of the source -----

  /** `serialize_settings`: the header, then the contacts one by one. */
  method Serialize(s: AppSettings) returns (output: string)
    ensures output == SerializeSettings(s)
  {
    hide HeaderLines, ContactLine, Text;
    var header := HeaderLines(s);
    output := TextOf(header);
    var lines := ContactLines(s.contacts);
    var i := 0;
    assert lines[i..] == lines && Text(header + lines) == output + Text(lines[i..]) by {
      TextConcat(header, lines);
      assert lines[0..] == lines;
    }
    while i < |s.contacts|
      invariant i <= |s.contacts| && SerializeSettings(s) == output + Text(lines[i..])
    {
      TextNext(lines, i);
      output := output + ContactLine(s.contacts[i]) + "\n";
      i := i + 1;
    }
    TextEnd();
    assert lines[i..] == [];
  }

  lemma TextEnd()
    ensures Text([]) == ""
  {
  }

  lemma TextNext(lines: seq<string>, i: nat)
    requires i < |lines|
    ensures Text(lines[i..]) == lines[i] + "\n" + Text(lines[i + 1..])
  {
    assert lines[i..][1..] == lines[i + 1..];
  }

  lemma {:induction false} TextConcat(a: seq<string>, b: seq<string>)
    ensures Text(a + b) == Text(a) + Text(b)
  {
    if a == [] {
      assert a + b == b;
    } else {
      assert (a + b)[1..] == a[1..] + b;
      TextConcat(a[1..], b);
    }
  }

  method TextOf(lines: seq<string>) returns (text: string)
    ensures text == Text(lines)
  {
    hide Text;
    TextEnd();
    text := "";
    var i := 0;
    assert lines[0..] == lines;
    while i < |lines|
      invariant i <= |lines| && Text(lines) == text + Text(lines[i..])
    {
      TextNext(lines, i);
      text := text + lines[i] + "\n";
      i := i + 1;
    }
    assert lines[i..] == [];
  }

  /** The end of `format_double`: trailing zeros go, then a bare point. */
  method TrimDecimals(text: string) returns (result: string)
    ensures result == StripPoint(StripZeros(text))
  {
    result := text;
    while |result| > 1 && result[|result| - 1] == '0'
      invariant StripZeros(result) == StripZeros(text)
      decreases |result|
    {
      result := result[..|result| - 1];
    }
    if result != "" && result[|result| - 1] == '.' {
      result := result[..|result| - 1];
    }
  }

  /** `parse_settings`: one line at a time, as `getline` cuts them. */
  method Parse(text: string) returns (settings: AppSettings)
    ensures settings == ParseSettings(text)
  {
    hide ParseLine, ParseLines, TextLines;
    settings := DEFAULT_SETTINGS;
    var start := 0;
    assert text[0..] == text;
    while start < |text|
      invariant start <= |text|
      invariant ParseLines(settings, TextLines(text[start..])) == ParseSettings(text)
    {
      var end := Find(text, '\n', start);
      var line := WithoutReturn(text[start..end]);
      NextLine(settings, text, start, end);
      settings := ParseOne(settings, line);
      start := if end < |text| then end + 1 else end;
    }
    NoLine(settings);
    assert text[start..] == "";
  }

  lemma NoLine(s: AppSettings)
    ensures ParseLines(s, TextLines("")) == s
  {
    hide ParseLine;
  }

  lemma NextLine(s: AppSettings, text: string, start: nat, end: nat)
    requires start <= end <= |text| && start < |text| && '\n' !in text[start..end]
    requires end < |text| ==> text[end] == '\n'
    ensures ParseLines(s, TextLines(text[start..])) ==
      ParseLines(ParseLine(s, WithoutReturn(text[start..end])),
                 TextLines(text[if end < |text| then end + 1 else end..]))
  {
    hide ParseLine, Lines, Rest;
    var line := text[start..end];
    FirstLine("", "");
    if end < |text| {
      assert text[start..] == line + "\n" + text[end + 1..];
      FirstLine(line, text[end + 1..]);
      var more := TextLines(text[end + 1..]);
      assert TextLines(text[start..]) == [WithoutReturn(line)] + more;
      assert ([WithoutReturn(line)] + more)[1..] == more;
    } else {
      assert text[start..] == line && text[end..] == "";
      FirstLine(line, "");
      assert TextLines(line) == [WithoutReturn(line)];
    }
  }

  method ParseOne(s: AppSettings, line: string) returns (settings: AppSettings)
    ensures settings == ParseLine(s, line)
  {
    hide KeyOf, SetField, ParseContact, Split, Unescape, IndexOf;
    settings := s;
    var equals := Find(line, '=', 0);
    FindsFirst(line, '=', equals);
    if equals == |line| {
      return;
    }
    var key, raw := KeyOf(line[..equals]), line[equals + 1..];
    if key == ContactKey {
      var fields := SplitFields(raw, '\t');
      if |fields| >= 10 {
        settings := s.(contacts := s.contacts + [ParseContact(fields, false)]);
      } else if |fields| >= 9 {
        settings := s.(contacts := s.contacts + [ParseContact(fields, true)]);
      }
    } else {
      var value := UnescapeField(raw);
      settings := SetField(s, key, value);
    }
  }

  lemma FindsFirst(line: string, ch: char, i: nat)
    requires i <= |line| && ch !in line[0..i] && (i < |line| ==> line[i] == ch)
    ensures IndexOf(line, ch) == i
  {
    hide IndexOf;
    var j := IndexOf(line, ch);
    assert forall k :: 0 <= k < i ==> line[k] == line[0..i][k];
    assert forall k :: 0 <= k < j ==> line[k] == line[..j][k];
  }
}
