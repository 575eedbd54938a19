/**
 Escaping, splitting and decimal numbers of the text formats (src/common/text_codec.cpp; the
 telemetry writer and parser carry the same escaping and splitting code for bytes). Text is a
 sequence of code points.
 */
module TextCodec {
  import opened Basics

  function EscapeChar(ch: char): string {
    match ch
    case '\\' => "\\\\"
    case '\t' => "\\t"
    case '\r' => "\\r"
    case '\n' => "\\n"
    case _ => [ch]
  }

  function Escape(value: string): string {
    if value == "" then "" else EscapeChar(value[0]) + Escape(value[1..])
  }

  function UnescapeChar(next: char): char {
    match next
    case 't' => '\t'
    case 'r' => '\r'
    case 'n' => '\n'
    case _ => next
  }

  /** A lone backslash at the end stands for itself. */
  function Unescape(value: string): string {
    if value == "" then ""
    else if value[0] != '\\' || |value| == 1 then [value[0]] + Unescape(value[1..])
    else [UnescapeChar(value[1])] + Unescape(value[2..])
  }

  predicate IsPlain(s: string) {
    '\t' !in s && '\r' !in s && '\n' !in s
  }

  lemma EscapedChar(ch: char, tail: string)
    ensures IsPlain(EscapeChar(ch)) && Unescape(EscapeChar(ch) + tail) == [ch] + Unescape(tail)
  {
    var head := EscapeChar(ch);
    assert (head + tail)[|head|..] == tail;
  }

  /** Escaped text has no tab, carriage return or newline, and unescaping gives the text back. */
  lemma {:induction false} EscapeRoundTrip(value: string)
    ensures IsPlain(Escape(value)) && Unescape(Escape(value)) == value
  {
    hide EscapeChar;
    if value != "" {
      EscapeRoundTrip(value[1..]);
      EscapedChar(value[0], Escape(value[1..]));
    }
  }

  /** The four codes of the file and pipe formats, and every other character as it is. */
  lemma EscapeCodes(ch: char)
    ensures Escape("\\") == "\\\\" && Escape("\t") == "\\t" && Escape("\r") == "\\r" && Escape("\n") == "\\n"
    ensures ch != '\\' && ch != '\t' && ch != '\r' && ch != '\n' ==> Escape([ch]) == [ch]
  {
    assert ""[0..] == "";
  }

  lemma EscapeFirst(value: string)
    requires value != ""
    ensures Escape(value) == EscapeChar(value[0]) + Escape(value[1..])
  {
    hide EscapeChar;
  }

  lemma EscapeNothing()
    ensures Escape("") == ""
  {
  }

  /** Each character is escaped on its own. */
  lemma {:induction false} EscapeConcat(a: string, b: string)
    ensures Escape(a + b) == Escape(a) + Escape(b)
  {
    hide Escape, EscapeChar;
    if a == "" {
      EscapeNothing();
      assert a + b == b;
    } else {
      EscapeFirst(a);
      EscapeFirst(a + b);
      EscapeConcat(a[1..], b);
      assert (a + b)[1..] == a[1..] + b && (a + b)[0] == a[0];
      assert EscapeChar(a[0]) + (Escape(a[1..]) + Escape(b)) == EscapeChar(a[0]) + Escape(a[1..]) + Escape(b);
    }
  }

  method EscapeField(value: string) returns (escaped: string)
    ensures escaped == Escape(value)
  {
    hide EscapeChar;
    escaped := "";
    var i := 0;
    while i < |value|
      invariant i <= |value| && escaped + Escape(value[i..]) == Escape(value)
    {
      assert value[i..][1..] == value[i + 1..];
      escaped := escaped + EscapeChar(value[i]);
      i := i + 1;
    }
  }

  /** What no writer produces: a lone backslash at the end stays, and one before any other character is dropped. */
  lemma UnescapeOdd(next: char)
    requires next != 't' && next != 'r' && next != 'n'
    ensures Unescape("\\") == "\\" && Unescape("\\" + [next]) == [next]
  {
    var one, two := "\\", "\\" + [next];
    assert one[1..] == "" && two[2..] == "";
  }

  method UnescapeField(value: string) returns (unescaped: string)
    ensures unescaped == Unescape(value)
  {
    unescaped := "";
    var index := 0;
    while index < |value|
      invariant index <= |value| && unescaped + Unescape(value[index..]) == Unescape(value)
    {
      var ch := value[index];
      var rest := value[index..];
      if ch != '\\' || index + 1 >= |value| {
        assert rest[1..] == value[index + 1..];
        unescaped := unescaped + [ch];
        index := index + 1;
      } else {
        assert rest[2..] == value[index + 2..];
        unescaped := unescaped + [UnescapeChar(value[index + 1])];
        index := index + 2;
      }
    }
  }

  // ----- fields -----

  function Split(line: string, separator: char): (fields: seq<string>)
    ensures |fields| >= 1
  {
    if line == "" then [""]
    else
      var rest := Split(line[1..], separator);
      if line[0] == separator then [""] + rest else [[line[0]] + rest[0]] + rest[1..]
  }

  function Join(fields: seq<string>, separator: char): string {
    if fields == [] then ""
    else if |fields| == 1 then fields[0]
    else fields[0] + [separator] + Join(fields[1..], separator)
  }

  lemma {:induction false} SplitAlone(field: string, separator: char)
    requires separator !in field
    ensures Split(field, separator) == [field]
  {
    if field != "" {
      SplitAlone(field[1..], separator);
      assert [field[0]] + field[1..] == field;
    }
  }

  lemma {:induction false} SplitFirst(field: string, rest: string, separator: char)
    requires separator !in field
    ensures Split(field + [separator] + rest, separator) == [field] + Split(rest, separator)
  {
    var line := field + [separator] + rest;
    if field == "" {
      assert line[1..] == rest;
    } else {
      SplitFirst(field[1..], rest, separator);
      assert line[1..] == field[1..] + [separator] + rest;
      assert line[0] == field[0] && [field[0]] + field[1..] == field;
    }
  }

  /** Splitting undoes joining, for fields without the separator, and joining undoes splitting. */
  lemma {:induction false} SplitJoin(fields: seq<string>, separator: char)
    requires fields != [] && forall i :: 0 <= i < |fields| ==> separator !in fields[i]
    ensures Split(Join(fields, separator), separator) == fields
  {
    if |fields| == 1 {
      SplitAlone(fields[0], separator);
    } else {
      SplitFirst(fields[0], Join(fields[1..], separator), separator);
      SplitJoin(fields[1..], separator);
    }
  }

  lemma {:induction false} JoinSplit(line: string, separator: char)
    ensures Join(Split(line, separator), separator) == line
    ensures forall i :: 0 <= i < |Split(line, separator)| ==> separator !in Split(line, separator)[i]
  {
    if line != "" {
      JoinSplit(line[1..], separator);
      var rest, all := Split(line[1..], separator), Split(line, separator);
      if line[0] == separator {
        assert all[1..] == rest;
      } else {
        assert all[1..] == rest[1..];
        if |rest| > 1 {
          assert Join(all, separator) == [line[0]] + (rest[0] + [separator] + Join(rest[1..], separator));
        }
      }
    }
  }

  /** A line starts with a field and the separator exactly when that field is the first of several. */
  lemma SplitStarts(field: string, line: string, separator: char)
    requires separator !in field
    ensures field + [separator] <= line <==> |Split(line, separator)| >= 2 && Split(line, separator)[0] == field
  {
    hide Split;
    var fields, head := Split(line, separator), field + [separator];
    JoinSplit(line, separator);
    if |fields| >= 2 && fields[0] == field {
      assert line == head + Join(fields[1..], separator);
    }
    if head <= line {
      assert line == head + line[|head|..];
      SplitFirst(field, line[|head|..], separator);
    }
  }

  /** The position of the separator at or after `start`, or the end of the line. */
  method Find(line: string, separator: char, start: nat) returns (position: nat)
    requires start <= |line|
    ensures start <= position <= |line| && separator !in line[start..position]
    ensures position < |line| ==> line[position] == separator
  {
    position := start;
    while position < |line| && line[position] != separator
      invariant start <= position <= |line| && separator !in line[start..position]
    {
      position := position + 1;
    }
  }

  method SplitFields(line: string, separator: char) returns (fields: seq<string>)
    ensures fields == Split(line, separator)
  {
    hide Split;
    fields := [];
    var start := 0;
    assert line[start..] == line;
    while true
      invariant start <= |line| && Split(line, separator) == fields + Split(line[start..], separator)
      decreases |line| - start
    {
      var position := Find(line, separator, start);
      var field := line[start..position];
      if position == |line| {
        assert line[start..] == field;
        SplitAlone(field, separator);
        fields := fields + [field];
        return;
      }
      assert line[start..] == field + [separator] + line[position + 1..];
      SplitFirst(field, line[position + 1..], separator);
      fields := fields + [field];
      start := position + 1;
    }
  }

  // ----- records -----

  function EscapeAll(fields: seq<string>): seq<string> {
    seq(|fields|, i requires 0 <= i < |fields| => Escape(fields[i]))
  }

  function UnescapeAll(fields: seq<string>): seq<string> {
    seq(|fields|, i requires 0 <= i < |fields| => Unescape(fields[i]))
  }

  /** One record as the writers print it, without the newline. */
  function Record(fields: seq<string>): string {
    Join(EscapeAll(fields), '\t')
  }

  function Fields(line: string): seq<string> {
    UnescapeAll(Split(line, '\t'))
  }

  lemma {:induction false} JoinPlain(fields: seq<string>)
    requires forall i :: 0 <= i < |fields| ==> IsPlain(fields[i])
    ensures '\r' !in Join(fields, '\t') && '\n' !in Join(fields, '\t')
  {
    if |fields| > 1 {
      JoinPlain(fields[1..]);
    }
  }

  /** A printed record fits on one line and reads back as the same fields, whatever characters they hold. */
  lemma RecordRoundTrip(fields: seq<string>)
    requires fields != []
    ensures Fields(Record(fields)) == fields && '\r' !in Record(fields) && '\n' !in Record(fields)
  {
    var escaped := EscapeAll(fields);
    forall i | 0 <= i < |fields| ensures IsPlain(escaped[i]) && Unescape(escaped[i]) == fields[i] {
      EscapeRoundTrip(fields[i]);
    }
    SplitJoin(escaped, '\t');
    JoinPlain(escaped);
  }

  // ----- flags and decimal numbers -----

  function FlagText(flag: bool): string {
    if flag then "1" else "0"
  }

  predicate IsDigit(ch: char) {
    '0' <= ch <= '9'
  }

  predicate AllDigits(s: string) {
    forall i :: 0 <= i < |s| ==> IsDigit(s[i])
  }

  function DigitChar(d: nat): (ch: char)
    requires d < 10
    ensures IsDigit(ch) && ch as int - '0' as int == d
  {
    ('0' as int + d) as char
  }

  function Digits(n: nat): string {
    if n < 10 then [DigitChar(n)] else Digits(n / 10) + [DigitChar(n % 10)]
  }

  function Value(s: string): nat
    requires AllDigits(s)
  {
    if s == "" then 0 else 10 * Value(s[..|s| - 1]) + (s[|s| - 1] as int - '0' as int)
  }

  lemma {:induction false} DigitsRoundTrip(n: nat)
    ensures Digits(n) != "" && AllDigits(Digits(n)) && Value(Digits(n)) == n
  {
    if n >= 10 {
      DigitsRoundTrip(n / 10);
      var s := Digits(n);
      assert s[..|s| - 1] == Digits(n / 10);
    } else {
      assert Digits(n)[..0] == "";
    }
  }

  predicate IsBlank(ch: char) {
    ch == ' ' || ch == '\t' || ch == '\n' || ch == '\U{0B}' || ch == '\U{0C}' || ch == '\r'
  }

  function SkipBlanks(s: string): string {
    if s != "" && IsBlank(s[0]) then SkipBlanks(s[1..]) else s
  }

  /** An optionally signed decimal number after blanks, with nothing behind it. */
  function ParseInteger(s: string): Option<int> {
    var t := SkipBlanks(s);
    var signed := t != "" && (t[0] == '-' || t[0] == '+');
    var digits := if signed then t[1..] else t;
    if digits == "" || !AllDigits(digits) then None
    else
      var magnitude: int := Value(digits);
      Some(if signed && t[0] == '-' then -magnitude else magnitude)
  }

  lemma ParseDigits(n: nat)
    ensures ParseInteger(Digits(n)) == Some(n)
  {
    DigitsRoundTrip(n);
    assert IsDigit(Digits(n)[0]);
  }
}
