/** The settings file of the user interface (src/gui/settings_store.cpp), printer and parser. */
module Settings {
  import opened Basics
  import opened TextCodec
  import opened LineBuffers

  datatype Hotkey = Hotkey(modifiers: nat, vk: nat)

  const NO_HOTKEY := Hotkey(0, 0)

  datatype Language = Automatic | Russian | English

  datatype Contact = Contact(
    name: string, host: string, port: nat, gain: real, selfDuck: bool, duckDb: real, duckThreshold: real,
    duckAttackMs: int, duckHoldMs: int, duckReleaseMs: int, muted: bool, pttHotkey: Hotkey,
    globalPttEnabled: bool, receiveBufferMs: int)

  const DEFAULT_CONTACT := Contact("", "127.0.0.1", 49740, 1.0, true, 12.0, 0.2, 8, 80, 120, false, NO_HOTKEY, true, 20)

  datatype AppSettings = AppSettings(
    windowWidth: int, windowHeight: int, language: Language, pttAllHotkey: Hotkey, debugConsoleVisible: bool,
    localPort: nat, networkAdapterId: string, captureDeviceSelector: string, renderDeviceSelector: string,
    contacts: seq<Contact>)

  const DEFAULT_SETTINGS := AppSettings(600, 650, Automatic, NO_HOTKEY, false, 49740, "", "", "", [])

  // ----- values -----

  function LanguageText(language: Language): string {
    match language
    case Russian => "ru"
    case English => "en"
    case Automatic => "auto"
  }

  function ParseLanguage(value: string): Language {
    if value == "ru" || value == "russian" then Russian
    else if value == "en" || value == "english" then English
    else Automatic
  }

  function IntText(v: int): string {
    if v < 0 then "-" + Digits(-v) else Digits(v)
  }

  function ParseBool(value: string, fallback: bool): bool {
    if value == "1" || value == "true" || value == "yes" then true
    else if value == "0" || value == "false" || value == "no" then false
    else fallback
  }

  function Clamp(v: int, minimum: int, maximum: int): (clamped: int)
    requires minimum <= maximum
    ensures minimum <= clamped <= maximum && (minimum <= v <= maximum ==> clamped == v)
  {
    if v < minimum then minimum else if v > maximum then maximum else v
  }

  /** No value in the range is nearer. */
  lemma ClampNearest(v: int, minimum: int, maximum: int, other: int)
    requires minimum <= other <= maximum
    ensures var c := Clamp(v, minimum, maximum);
      (if c >= v then c - v else v - c) <= (if other >= v then other - v else v - other)
  {
  }

  function ParseLong(value: string, fallback: int, minimum: int, maximum: int): (v: int)
    requires minimum <= fallback <= maximum
    ensures minimum <= v <= maximum
  {
    match ParseInteger(value)
    case None => fallback
    case Some(v) => Clamp(v, minimum, maximum)
  }

  function Pow10(n: nat): (power: nat)
    ensures power > 0
  {
    if n == 0 then 1 else 10 * Pow10(n - 1)
  }

  /** The last `precision` decimals, with leading zeros. */
  function Padded(n: nat, precision: nat): string {
    if precision == 0 then "" else Padded(n / 10, precision - 1) + [DigitChar(n % 10)]
  }

  function StripZeros(s: string): string {
    if |s| > 1 && s[|s| - 1] == '0' then StripZeros(s[..|s| - 1]) else s
  }

  function StripPoint(s: string): string {
    if s != "" && s[|s| - 1] == '.' then s[..|s| - 1] else s
  }

  /** A value counted in units of ten to the minus `precision`, printed without trailing zeros. */
  function FormatUnits(units: nat, precision: nat): string {
    FormatScaled(units, Pow10(precision), precision)
  }

  function FormatScaled(units: nat, scale: nat, precision: nat): string
    requires scale > 0
  {
    StripPoint(StripZeros(Digits(units / scale) + "." + Padded(units % scale, precision)))
  }

  /** The nearest integer, the even one of two equally near. */
  function Nearest(x: real): int {
    var below := x.Floor;
    var part := x - below as real;
    if part < 0.5 || (part == 0.5 && below % 2 == 0) then below else below + 1
  }

  /** No integer is nearer, and of two equally near ones the even one is taken. */
  lemma NearestIsNearest(x: real)
    ensures var n := Nearest(x);
      && n as real - 0.5 <= x <= n as real + 0.5
      && (x == n as real - 0.5 || x == n as real + 0.5 ==> n % 2 == 0)
  {
  }

  function Units(value: real, precision: nat): int {
    Nearest(value * Pow10(precision) as real)
  }

  function FormatDouble(value: real, precision: nat): string {
    var units := Units(value, precision);
    if units >= 0 then FormatUnits(units, precision) else "-" + FormatUnits(-units, precision)
  }

  /** The first position of a character, or the length. */
  function IndexOf(s: string, ch: char): (i: nat)
    ensures i <= |s|
    ensures ch !in s[..i] && (i < |s| ==> s[i] == ch)
  {
    if s == "" || s[0] == ch then 0 else 1 + IndexOf(s[1..], ch)
  }

  /** Digits with an optional fraction, not both empty. */
  function ParseMagnitude(number: string): Option<real> {
    var point := IndexOf(number, '.');
    var whole := number[..point];
    var fraction := if point < |number| then number[point + 1..] else "";
    if (whole == "" && fraction == "") || !AllDigits(whole) || !AllDigits(fraction) then None
    else Some(Value(whole) as real + Fraction(fraction))
  }

  function Fraction(s: string): real
    requires AllDigits(s)
  {
    Value(s) as real / Pow10(|s|) as real
  }

  /** An optionally signed decimal number after blanks, with nothing behind it. */
  function ParseDecimal(s: string): Option<real> {
    var t := SkipBlanks(s);
    var signed := t != "" && (t[0] == '-' || t[0] == '+');
    match ParseMagnitude(if signed then t[1..] else t)
    case None => None
    case Some(v) => Some(if signed && t[0] == '-' then -v else v)
  }

  function ParseDouble(value: string, fallback: real, minimum: real, maximum: real): real {
    match ParseDecimal(value)
    case None => fallback
    case Some(v) => ClampReal(v, minimum, maximum)
  }

  function ClampReal(v: real, minimum: real, maximum: real): real {
    if v < minimum then minimum else if v > maximum then maximum else v
  }

  /** No value in the range is nearer. */
  lemma ClampRealNearest(v: real, minimum: real, maximum: real, other: real)
    requires minimum <= other <= maximum
    ensures var c := ClampReal(v, minimum, maximum);
      && minimum <= c <= maximum
      && (if c >= v then c - v else v - c) <= (if other >= v then other - v else v - other)
  {
  }

  // ----- hotkeys -----

  function EncodeHotkey(hotkey: Hotkey): string {
    if hotkey.vk == 0 then "" else Digits(hotkey.modifiers) + ":" + Digits(hotkey.vk)
  }

  const MAXIMUM_ULONG: nat := 0xffff_ffff

  /** Unsigned 32-bit parsing saturates, and negates modulo 2^32. */
  function ToUnsigned(v: int): nat {
    if v > MAXIMUM_ULONG || -v > MAXIMUM_ULONG then MAXIMUM_ULONG
    else if v < 0 then MAXIMUM_ULONG + 1 + v
    else v
  }

  function DecodeHotkey(value: string): Hotkey {
    var colon := IndexOf(value, ':');
    if colon == 0 || colon + 1 >= |value| then NO_HOTKEY
    else
      match (ParseInteger(value[..colon]), ParseInteger(value[colon + 1..]))
      case (Some(m), Some(k)) => MakeHotkey(ToUnsigned(m), ToUnsigned(k))
      case _ => NO_HOTKEY
  }

  function MakeHotkey(modifiers: nat, key: nat): Hotkey {
    if key == 0 || key > 0xff then NO_HOTKEY else Hotkey(modifiers % 16, key)
  }

  predicate CanonicalHotkey(hotkey: Hotkey) {
    hotkey == NO_HOTKEY || (hotkey.modifiers < 16 && 0 < hotkey.vk <= 0xff)
  }

  /** What saving and loading makes of a hotkey. */
  function NormalHotkey(hotkey: Hotkey): Hotkey {
    MakeHotkey(ToUnsigned(hotkey.modifiers), ToUnsigned(hotkey.vk))
  }

  /** What loading makes of any hotkey: none without a key code of one byte, otherwise the low four modifier bits. */
  lemma HotkeyMasked(hotkey: Hotkey)
    requires hotkey.modifiers <= 0xffff_ffff && hotkey.vk <= 0xffff_ffff
    ensures var h := NormalHotkey(hotkey);
      if 1 <= hotkey.vk <= 255 then
        h.vk == hotkey.vk && h.modifiers < 16 && exists k :: hotkey.modifiers == 16 * k + h.modifiers
      else h.modifiers == 0 && h.vk == 0
  {
    var m := hotkey.modifiers;
    assert m == 16 * (m / 16) + m % 16;
  }

  lemma {:induction false} IndexOfFirst(head: string, ch: char, tail: string)
    requires ch !in head
    ensures IndexOf(head + [ch] + tail, ch) == |head|
  {
    if head != "" {
      IndexOfFirst(head[1..], ch, tail);
      assert (head + [ch] + tail)[1..] == head[1..] + [ch] + tail;
    }
  }

  lemma DigitsHave(n: nat, ch: char)
    requires !IsDigit(ch)
    ensures Digits(n) != "" && ch !in Digits(n)
  {
    DigitsRoundTrip(n);
  }

  /** A hotkey survives being written and read exactly when it is canonical. */
  lemma HotkeyRoundTrip(hotkey: Hotkey)
    ensures DecodeHotkey(EncodeHotkey(hotkey)) == NormalHotkey(hotkey)
    ensures NormalHotkey(hotkey) == hotkey <==> CanonicalHotkey(hotkey)
  {
    HotkeyDecodes(hotkey);
    hide EncodeHotkey, DecodeHotkey;
  }

  lemma HotkeyDecodes(hotkey: Hotkey)
    ensures DecodeHotkey(EncodeHotkey(hotkey)) == NormalHotkey(hotkey)
  {
    hide Digits, ParseInteger;
    if hotkey.vk == 0 {
      assert IndexOf("", ':') == 0;
    } else {
      hide DecodeHotkey;
      DigitsHave(hotkey.modifiers, ':');
      DigitsHave(hotkey.vk, ':');
      ParseDigits(hotkey.modifiers);
      ParseDigits(hotkey.vk);
      DecodesPair(Digits(hotkey.modifiers), Digits(hotkey.vk));
    }
  }

  lemma DecodesPair(m: string, k: string)
    requires ':' !in m && m != "" && k != "" && ParseInteger(m).Some? && ParseInteger(k).Some?
    ensures DecodeHotkey(m + ":" + k) ==
      MakeHotkey(ToUnsigned(ParseInteger(m).value), ToUnsigned(ParseInteger(k).value))
  {
    hide IndexOf, ParseInteger, MakeHotkey, ToUnsigned;
    IndexOfFirst(m, ':', k);
    var s := m + [':'] + k;
    assert m + ":" + k == s && s[..|m|] == m && s[|m| + 1..] == k;
  }

  // ----- decimals -----

  lemma {:induction false} PaddedValue(n: nat, precision: nat)
    requires n < Pow10(precision)
    ensures |Padded(n, precision)| == precision && AllDigits(Padded(n, precision)) && Value(Padded(n, precision)) == n
  {
    if precision > 0 {
      PaddedValue(n / 10, precision - 1);
      var s := Padded(n, precision);
      assert s[..|s| - 1] == Padded(n / 10, precision - 1);
    }
  }

  lemma RatioScales(v: real, p: real)
    requires p > 0.0
    ensures (10.0 * v) / (10.0 * p) == v / p
  {
    var x := v / p;
    assert v == x * p;
    assert 10.0 * v == x * (10.0 * p);
  }

  /** Trailing zeros of a fraction do not matter, and stripping stops at the point. */
  lemma {:induction false} StripKeepsFraction(whole: string, fraction: string)
    requires AllDigits(fraction) && whole != ""
    ensures exists kept :: AllDigits(kept) && Fraction(kept) == Fraction(fraction) &&
                           StripZeros(whole + "." + fraction) == whole + "." + kept
  {
    var s := whole + "." + fraction;
    if fraction != "" && fraction[|fraction| - 1] == '0' {
      var shorter := fraction[..|fraction| - 1];
      assert s[..|s| - 1] == whole + "." + shorter;
      StripKeepsFraction(whole, shorter);
      RatioScales(Value(shorter) as real, Pow10(|shorter|) as real);
      assert Value(fraction) == 10 * Value(shorter) && Pow10(|fraction|) == 10 * Pow10(|shorter|);
    } else {
      assert s[|s| - 1] != '0';
      assert StripZeros(s) == s;
    }
  }

  lemma ParsesMagnitude(whole: string, fraction: string)
    requires whole != "" && AllDigits(whole) && AllDigits(fraction)
    ensures ParseMagnitude(whole + "." + fraction) == Some(Value(whole) as real + Fraction(fraction))
  {
    var s := whole + ['.'] + fraction;
    assert whole + "." + fraction == s;
    IndexOfFirst(whole, '.', fraction);
    hide IndexOf, Value, Fraction;
    assert s[..|whole|] == whole && s[|whole| + 1..] == fraction;
  }

  lemma ParsesWhole(whole: string)
    requires whole != "" && AllDigits(whole)
    ensures ParseMagnitude(whole) == Some(Value(whole) as real)
  {
    var point := IndexOf(whole, '.');
    assert point < |whole| ==> IsDigit(whole[point]);
    hide IndexOf;
    assert whole[..point] == whole;
    assert Value("") == 0;
  }

  /** A sign in front of a digit negates. */
  lemma Signed(s: string)
    requires s != "" && IsDigit(s[0])
    ensures ParseDecimal(s) == ParseMagnitude(s)
    ensures ParseDecimal("-" + s) == match ParseMagnitude(s) case None => None case Some(v) => Some(-v)
  {
    hide ParseMagnitude;
    var t := "-" + s;
    assert t[0] == '-' && t[1..] == s && SkipBlanks(t) == t && SkipBlanks(s) == s;
  }

  /** A number of units printed and parsed is that number of units. */
  lemma UnitsRoundTrip(units: nat, precision: nat)
    requires precision > 0
    ensures var printed := FormatUnits(units, precision);
      printed != "" && IsDigit(printed[0]) && ParseMagnitude(printed) == Some(units as real / Pow10(precision) as real)
  {
    hide Pow10, FormatScaled;
    ScaledRoundTrip(units, Pow10(precision), precision);
  }

  lemma ScaledRoundTrip(units: nat, scale: nat, precision: nat)
    requires precision > 0 && scale == Pow10(precision)
    ensures var printed := FormatScaled(units, scale, precision);
      printed != "" && IsDigit(printed[0]) && ParseMagnitude(printed) == Some(units as real / scale as real)
  {
    hide Digits, Padded, StripZeros, StripPoint, ParseMagnitude, Value, Pow10;
    var w, f := units / scale, units % scale;
    DigitsRoundTrip(w);
    PaddedValue(f, precision);
    PrintedDecimal(Digits(w), Padded(f, precision));
    WholeAndPart(units, scale, w, f);
  }

  lemma PrintedDecimal(whole: string, fraction: string)
    requires whole != "" && AllDigits(whole) && AllDigits(fraction)
    ensures var printed := StripPoint(StripZeros(whole + "." + fraction));
      printed != "" && IsDigit(printed[0]) && ParseMagnitude(printed) == Some(Value(whole) as real + Fraction(fraction))
  {
    hide StripZeros, StripPoint, ParseMagnitude, Value, Fraction;
    StripKeepsFraction(whole, fraction);
    var kept :| AllDigits(kept) && Fraction(kept) == Fraction(fraction) &&
      StripZeros(whole + "." + fraction) == whole + "." + kept;
    StripPointKeeps(whole, kept);
    ParsesMagnitude(whole, kept);
    ParsesWhole(whole);
    EmptyFraction();
  }

  lemma StripPointKeeps(whole: string, kept: string)
    requires whole != "" && AllDigits(whole) && AllDigits(kept)
    ensures StripPoint(whole + "." + kept) == if kept == "" then whole else whole + "." + kept
    ensures var printed := StripPoint(whole + "." + kept); printed != "" && IsDigit(printed[0])
  {
    var s := whole + "." + kept;
    assert s[|s| - 1] == if kept == "" then '.' else kept[|kept| - 1];
    assert kept == "" ==> s[..|s| - 1] == whole;
    assert s[0] == whole[0];
  }

  lemma EmptyFraction()
    ensures Fraction("") == 0.0
  {
    assert Value("") == 0;
  }

  lemma WholeAndPart(units: nat, scale: nat, whole: nat, part: nat)
    requires scale > 0 && whole == units / scale && part == units % scale
    ensures units as real / scale as real == whole as real + part as real / scale as real
  {
    assert units == scale * whole + part;
    assert units as real == scale as real * whole as real + part as real;
  }

  /** The value lies on the printed grid. */
  predicate OnGrid(value: real, precision: nat) {
    value == Rounded(value, precision)
  }

  function Rounded(value: real, precision: nat): real {
    Units(value, precision) as real / Pow10(precision) as real
  }

  /** What saving and loading makes of a real number. */
  function NormalReal(value: real, precision: nat, minimum: real, maximum: real): real {
    ClampReal(Rounded(value, precision), minimum, maximum)
  }

  lemma DoubleRoundTrip(value: real, precision: nat, fallback: real, minimum: real, maximum: real)
    requires precision > 0
    ensures ParseDouble(FormatDouble(value, precision), fallback, minimum, maximum) ==
      NormalReal(value, precision, minimum, maximum)
  {
    hide ParseDecimal, FormatUnits, ParseMagnitude, Units, Pow10;
    var units := Units(value, precision);
    var size: nat := if units >= 0 then units else -units;
    UnitsRoundTrip(size, precision);
    Signed(FormatUnits(size, precision));
    Negated(size as real, Pow10(precision) as real);
  }

  lemma Negated(a: real, b: real)
    requires b > 0.0
    ensures -(a / b) == (-a) / b
  {
  }

  lemma Quotient(n: nat, p: nat)
    requires p > 0
    ensures n as real * p as real == (n * p) as real && (n * p) as real / p as real == n as real
  {
  }

  lemma UnitsExact(value: real, precision: nat, units: int)
    requires value * Pow10(precision) as real == units as real
    ensures Units(value, precision) == units
  {
    hide Pow10, Nearest;
    NearestOf(value * Pow10(precision) as real, units);
  }

  lemma NearestOf(x: real, k: int)
    requires x == k as real
    ensures Nearest(x) == k
  {
  }

  lemma WholeOnGrid(n: nat, precision: nat)
    ensures OnGrid(n as real, precision)
  {
    hide Pow10, Units;
    var p := Pow10(precision);
    Quotient(n, p);
    UnitsExact(n as real, precision, n * p);
  }

  /** A real number survives exactly when it is in range and on the grid. */
  lemma RealSurvives(value: real, precision: nat, minimum: nat, maximum: nat)
    requires minimum <= maximum
    ensures NormalReal(value, precision, minimum as real, maximum as real) == value <==>
      OnGrid(value, precision) && minimum as real <= value <= maximum as real
  {
    WholeOnGrid(minimum, precision);
    WholeOnGrid(maximum, precision);
    hide Rounded;
  }

  // ----- one line: key and value -----

  datatype Key =
    | WindowWidth | WindowHeight | LanguageKey | HotkeyPttAll | DebugConsole | LocalPort
    | NetworkAdapter | CaptureDevice | RenderDevice | ContactKey | OtherKey

  function NameOf(key: Key): string
    requires key != OtherKey
  {
    match key
    case WindowWidth => "window_width"
    case WindowHeight => "window_height"
    case LanguageKey => "language"
    case HotkeyPttAll => "hotkey_ptt_all"
    case DebugConsole => "debug_console"
    case LocalPort => "local_port"
    case NetworkAdapter => "network_adapter"
    case CaptureDevice => "capture_device"
    case RenderDevice => "render_device"
    case ContactKey => "contact"
  }

  /** The parser's comparisons, in its order; any other key is ignored. */
  function KeyOf(name: string): Key {
    if name == "window_width" then WindowWidth
    else if name == "window_height" then WindowHeight
    else if name == "language" then LanguageKey
    else if name == "hotkey_ptt_all" then HotkeyPttAll
    else if name == "debug_console" then DebugConsole
    else if name == "local_port" then LocalPort
    else if name == "network_adapter" then NetworkAdapter
    else if name == "capture_device" then CaptureDevice
    else if name == "render_device" then RenderDevice
    else if name == "contact" then ContactKey
    else OtherKey
  }

  /** What a single-valued key does to the settings. */
  function SetField(s: AppSettings, key: Key, value: string): AppSettings {
    match key
    case WindowWidth => s.(windowWidth := ParseLong(value, 600, 1, 32767))
    case WindowHeight => s.(windowHeight := ParseLong(value, 650, 1, 32767))
    case LanguageKey => s.(language := ParseLanguage(value))
    case HotkeyPttAll => s.(pttAllHotkey := DecodeHotkey(value))
    case DebugConsole => s.(debugConsoleVisible := ParseBool(value, false))
    case LocalPort => s.(localPort := ParseLong(value, 49740, 1, 65535))
    case NetworkAdapter => s.(networkAdapterId := value)
    case CaptureDevice => s.(captureDeviceSelector := value)
    case RenderDevice => s.(renderDeviceSelector := value)
    case _ => s
  }

  /** The fields of a contact line; older files lack the name or the last fields. */
  function ParseContact(fields: seq<string>, legacy: bool): Contact
    requires |fields| >= (if legacy then 9 else 10)
  {
    var o := if legacy then 0 else 1;
    var n := |fields|;
    var d := DEFAULT_CONTACT;
    Contact(
      Unescape(fields[0]),
      Unescape(fields[o]),
      ParseLong(fields[o + 1], d.port, 1, 65535),
      ParseDouble(fields[o + 2], d.gain, 0.0, 3.0),
      ParseBool(fields[o + 3], d.selfDuck),
      ParseDouble(fields[o + 4], d.duckDb, 0.0, 60.0),
      ParseDouble(fields[o + 5], d.duckThreshold, 0.0, 1.0),
      ParseLong(fields[o + 6], d.duckAttackMs, 0, 1000),
      ParseLong(fields[o + 7], d.duckHoldMs, 0, 1000),
      ParseLong(fields[o + 8], d.duckReleaseMs, 0, 5000),
      if !legacy && n >= 11 then ParseBool(fields[10], d.muted) else d.muted,
      if !legacy && n >= 12 then DecodeHotkey(Unescape(fields[11])) else d.pttHotkey,
      if !legacy && n >= 13 then ParseBool(fields[12], d.globalPttEnabled) else d.globalPttEnabled,
      if !legacy && n >= 14 then ParseLong(fields[13], d.receiveBufferMs, 5, 100) else d.receiveBufferMs)
  }

  function AddContact(s: AppSettings, raw: string): AppSettings {
    var fields := Split(raw, '\t');
    if |fields| >= 10 then s.(contacts := s.contacts + [ParseContact(fields, false)])
    else if |fields| >= 9 then s.(contacts := s.contacts + [ParseContact(fields, true)])
    else s
  }

  function ParseLine(s: AppSettings, line: string): AppSettings {
    var equals := IndexOf(line, '=');
    if equals == |line| then s
    else
      var key, raw := KeyOf(line[..equals]), line[equals + 1..];
      if key == ContactKey then AddContact(s, raw) else SetField(s, key, Unescape(raw))
  }

  /** The lines `getline` yields, carriage returns removed: a last line may lack its newline. */
  function TextLines(text: string): seq<string> {
    Lines(text) + if Rest(text) == "" then [] else [WithoutReturn(Rest(text))]
  }

  function ParseLines(s: AppSettings, lines: seq<string>): AppSettings
    decreases |lines|
  {
    if lines == [] then s else ParseLines(ParseLine(s, lines[0]), lines[1..])
  }

  function ParseSettings(text: string): AppSettings {
    ParseLines(DEFAULT_SETTINGS, TextLines(text))
  }

  // ----- printing -----

  function ValueLine(name: string, value: string): string {
    name + "=" + Escape(value)
  }

  function ContactFields(c: Contact): seq<string> {
    [c.name, c.host, IntText(c.port), FormatDouble(c.gain, 3), FlagText(c.selfDuck), FormatDouble(c.duckDb, 3),
     FormatDouble(c.duckThreshold, 5), IntText(c.duckAttackMs), IntText(c.duckHoldMs), IntText(c.duckReleaseMs),
     FlagText(c.muted), EncodeHotkey(c.pttHotkey), FlagText(c.globalPttEnabled), IntText(c.receiveBufferMs)]
  }

  /** Only name, host and hotkey are escaped; the other fields are numbers. */
  function PrintedFields(c: Contact): seq<string> {
    var f := ContactFields(c);
    f[0 := Escape(f[0])][1 := Escape(f[1])][11 := Escape(f[11])]
  }

  function ContactLine(c: Contact): string {
    NameOf(ContactKey) + "=" + Join(PrintedFields(c), '\t')
  }

  function ContactLines(contacts: seq<Contact>): seq<string> {
    seq(|contacts|, i requires 0 <= i < |contacts| => ContactLine(contacts[i]))
  }

  function FieldText(s: AppSettings, key: Key): string
    requires key != OtherKey && key != ContactKey
  {
    match key
    case WindowWidth => IntText(s.windowWidth)
    case WindowHeight => IntText(s.windowHeight)
    case LanguageKey => LanguageText(s.language)
    case HotkeyPttAll => EncodeHotkey(s.pttAllHotkey)
    case DebugConsole => FlagText(s.debugConsoleVisible)
    case LocalPort => IntText(s.localPort)
    case NetworkAdapter => s.networkAdapterId
    case CaptureDevice => s.captureDeviceSelector
    case RenderDevice => s.renderDeviceSelector
  }

  function FieldLine(s: AppSettings, key: Key): string
    requires key != OtherKey && key != ContactKey
  {
    ValueLine(NameOf(key), FieldText(s, key))
  }

  function VersionLine(): string {
    "version=1"
  }

  function MicGainLine(): string {
    ValueLine("mic_gain", "1.0")
  }

  function HeaderLines(s: AppSettings): seq<string> {
    [VersionLine(), FieldLine(s, WindowWidth), FieldLine(s, WindowHeight), FieldLine(s, LanguageKey),
     FieldLine(s, HotkeyPttAll), FieldLine(s, DebugConsole), FieldLine(s, LocalPort), FieldLine(s, NetworkAdapter),
     MicGainLine(), FieldLine(s, CaptureDevice), FieldLine(s, RenderDevice)]
  }

  function Text(lines: seq<string>): string {
    if lines == [] then "" else lines[0] + "\n" + Text(lines[1..])
  }

  function SerializeSettings(s: AppSettings): string {
    Text(HeaderLines(s) + ContactLines(s.contacts))
  }
}
