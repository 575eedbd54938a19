/** The line buffer of both ends of the pipe (src/common/line_buffer.cpp). */
module LineBuffers {
  import opened Basics

  /** What is pending after appending under a limit: on overflow the old text is lost, then the oldest new text. */
  function Appended(pending: string, bytes: string, limit: nat): string {
    if |pending| + |bytes| <= limit then pending + bytes
    else if |bytes| <= limit then bytes
    else bytes[|bytes| - limit..]
  }

  /** Under the limit nothing is lost; over it, the old text goes, then all but the newest part of the new text. */
  lemma AppendedExactly(pending: string, bytes: string, limit: nat)
    ensures var text := Appended(pending, bytes, limit);
      if |pending| + |bytes| <= limit then text == pending + bytes
      else |text| == Min(|bytes|, limit) && exists lost :: bytes == lost + text
  {
    if |bytes| > limit {
      assert bytes == bytes[..|bytes| - limit] + bytes[|bytes| - limit..];
    } else {
      assert bytes == "" + bytes;
    }
  }

  function WithoutReturn(line: string): string {
    if line != "" && line[|line| - 1] == '\r' then line[..|line| - 1] else line
  }

  lemma AppendedCases(pending: string, bytes: string, limit: nat)
    ensures var text := Appended(pending, bytes, limit);
      && (|pending| + |bytes| <= limit ==> text == pending + bytes)
      && (|pending| + |bytes| > limit ==>
            text == if |bytes| <= limit then bytes else bytes[|bytes| - limit..])
      && |text| <= limit
    ensures bytes == "" && |pending| <= limit ==> Appended(pending, bytes, limit) == pending
  {
    assert pending + "" == pending;
  }

  lemma NothingBefore(text: string)
    ensures "" + text == text
  {
  }

  lemma WholeText(text: string)
    ensures text[0..] == text
  {
  }

  /** A line ends with its newline, or with a return and a newline. */
  lemma LineTaken(text: string, raw: string, rest: string)
    requires text == raw + "\n" + rest
    ensures var line := WithoutReturn(raw);
      || text == line + "\r\n" + rest
      || (text == line + "\n" + rest && (line == "" || line[|line| - 1] != '\r'))
  {
    if raw != "" && raw[|raw| - 1] == '\r' {
      assert text == WithoutReturn(raw) + "\r\n" + rest;
    }
  }

  /** The complete lines of a text, and what follows the last newline. */
  function Lines(text: string): seq<string> {
    LinesFrom("", text)
  }

  function LinesFrom(start: string, text: string): seq<string>
    decreases |text|
  {
    if text == "" then []
    else if text[0] == '\n' then [WithoutReturn(start)] + LinesFrom("", text[1..])
    else LinesFrom(start + [text[0]], text[1..])
  }

  function Rest(text: string): string {
    RestFrom("", text)
  }

  function RestFrom(start: string, text: string): string
    decreases |text|
  {
    if text == "" then start
    else if text[0] == '\n' then RestFrom("", text[1..])
    else RestFrom(start + [text[0]], text[1..])
  }

  lemma {:induction false} LinesOf(start: string, head: string, text: string)
    requires '\n' !in head
    ensures LinesFrom(start, head + text) == LinesFrom(start + head, text)
    ensures RestFrom(start, head + text) == RestFrom(start + head, text)
    decreases |head|
  {
    if head == "" {
      assert head + text == text && start + head == start;
    } else {
      LinesOf(start + [head[0]], head[1..], text);
      assert (head + text)[1..] == head[1..] + text;
      assert start + [head[0]] + head[1..] == start + head;
    }
  }

  lemma FirstLine(head: string, text: string)
    requires '\n' !in head
    ensures Lines(head + "\n" + text) == [WithoutReturn(head)] + Lines(text)
    ensures Rest(head + "\n" + text) == Rest(text)
    ensures Lines(head) == [] && Rest(head) == head
  {
    LinesOf("", head, "\n" + text);
    assert head + ("\n" + text) == head + "\n" + text;
    assert ("\n" + text)[1..] == text && "" + head == head;
    LinesOf("", head, "");
    assert head + "" == head;
  }

  /** Text may be cut anywhere: the lines before the cut come first, and the rest is carried over. */
  lemma {:induction false} LinesConcat(start: string, a: string, b: string)
    ensures LinesFrom(start, a + b) == LinesFrom(start, a) + LinesFrom(RestFrom(start, a), b)
    ensures RestFrom(start, a + b) == RestFrom(RestFrom(start, a), b)
    decreases |a|
  {
    if a == "" {
      assert a + b == b;
    } else {
      assert (a + b)[1..] == a[1..] + b;
      LinesConcat(if a[0] == '\n' then "" else start + [a[0]], a[1..], b);
    }
  }

  lemma {:induction false} RestHasNoNewline(start: string, text: string)
    requires '\n' !in start
    ensures '\n' !in RestFrom(start, text) && |RestFrom(start, text)| <= |start| + |text|
    decreases |text|
  {
    if text != "" {
      RestHasNoNewline(if text[0] == '\n' then "" else start + [text[0]], text[1..]);
    }
  }

  /** Draining after each chunk reads the same lines as the whole text at once. */
  lemma CarriedOver(pending: string, chunk: string)
    ensures Lines(pending + chunk) == Lines(pending) + Lines(Rest(pending) + chunk)
    ensures Rest(pending + chunk) == Rest(Rest(pending) + chunk)
  {
    LinesConcat("", pending, chunk);
    RestHasNoNewline("", pending);
    LinesOf("", Rest(pending), chunk);
    assert "" + Rest(pending) == Rest(pending);
  }

  /** A line cut open by an overflow is the only one that changes: the lines after it are those of the whole text. */
  lemma {:induction false} CutLosesOneLine(lost: string, start: string, kept: string)
    requires Lines(kept) != []
    ensures |LinesFrom(start, kept)| == |Lines(kept)|
    ensures LinesFrom(start, kept)[1..] == Lines(kept)[1..]
    ensures Lines(lost + kept) == Lines(lost) + LinesFrom(Rest(lost), kept)
  {
    LinesConcat("", lost, kept);
    SameTail(start, "", kept);
  }

  lemma {:induction false} SameTail(a: string, b: string, text: string)
    requires LinesFrom(b, text) != []
    ensures |LinesFrom(a, text)| == |LinesFrom(b, text)| && LinesFrom(a, text)[1..] == LinesFrom(b, text)[1..]
    decreases |text|
  {
    if text[0] != '\n' {
      SameTail(a + [text[0]], b + [text[0]], text[1..]);
    }
  }

  class LineBuffer {
    const maximumPendingBytes: nat
    var storage: string
    var consumed: nat

    /** The stored text never exceeds the limit. */
    ghost predicate Valid()
      reads this
    {
      consumed <= |storage| <= maximumPendingBytes && maximumPendingBytes >= 1
    }

    /** The unread text; how much read text is still stored in front of it is invisible. */
    ghost function Pending(): string
      requires Valid()
      reads this
    {
      storage[consumed..]
    }

    constructor (maximumPendingBytes: nat)
      ensures Valid() && Pending() == ""
      ensures this.maximumPendingBytes == (if maximumPendingBytes < 1 then 1 else maximumPendingBytes)
    {
      this.maximumPendingBytes := if maximumPendingBytes < 1 then 1 else maximumPendingBytes;
      storage, consumed := "", 0;
    }

    method Append(bytes: string)
      requires Valid()
      modifies this
      ensures Valid() && Pending() == Appended(old(Pending()), bytes, maximumPendingBytes)
    {
      hide Appended;
      AppendedCases(Pending(), bytes, maximumPendingBytes);
      if |bytes| == 0 {
        return;
      }
      Compact();
      WholeText(storage);
      var added := bytes;
      if |storage| + |bytes| > maximumPendingBytes {
        Clear();
        added := Newest(bytes);
        NothingBefore(added);
      }
      storage := storage + added;
      WholeText(storage);
    }

    /** As much of the newest text as fits on its own. */
    method Newest(bytes: string) returns (newest: string)
      ensures newest == if |bytes| <= maximumPendingBytes then bytes else bytes[|bytes| - maximumPendingBytes..]
    {
      newest := bytes;
      if |bytes| > maximumPendingBytes {
        newest := bytes[|bytes| - maximumPendingBytes..];
      }
    }

    /** Reads one line, if a complete one is pending. */
    method Next() returns (found: bool, line: string)
      requires Valid()
      modifies this
      ensures Valid()
      ensures found <==> '\n' in old(Pending())
      ensures found ==> Lines(old(Pending())) == [line] + Lines(Pending()) && Rest(old(Pending())) == Rest(Pending())
      ensures found ==> '\n' !in line
      ensures found ==>
        (|| old(Pending()) == line + "\r\n" + Pending()
         || (old(Pending()) == line + "\n" + Pending() && (line == "" || line[|line| - 1] != '\r')))
      ensures found ==> |Pending()| < |old(Pending())|
      ensures !found ==> Pending() == old(Pending())
    {
      hide Lines, Rest;
      line := "";
      var newline := FindNewline();
      if newline == |storage| {
        return false, "";
      }
      line := storage[consumed..newline];
      LineTaken(Pending(), line, storage[newline + 1..]);
      FirstLine(line, storage[newline + 1..]);
      assert storage[consumed..] == line + "\n" + storage[newline + 1..];
      ghost var raw := line;
      if line != "" && line[|line| - 1] == '\r' {
        line := line[..|line| - 1];
      }
      assert line == WithoutReturn(raw);
      consumed := newline + 1;
      if consumed >= |storage| {
        Clear();
      } else if consumed >= 4096 && consumed * 2 >= |storage| {
        Compact();
      }
      found := true;
    }

    method FindNewline() returns (position: nat)
      requires Valid()
      ensures consumed <= position <= |storage| && '\n' !in storage[consumed..position]
      ensures position < |storage| ==> storage[position] == '\n'
    {
      position := consumed;
      while position < |storage| && storage[position] != '\n'
        invariant consumed <= position <= |storage| && '\n' !in storage[consumed..position]
      {
        position := position + 1;
      }
    }

    method Clear()
      requires Valid()
      modifies this
      ensures Valid() && storage == "" && Pending() == ""
    {
      storage, consumed := "", 0;
    }

    method Compact()
      requires Valid()
      modifies this
      ensures Valid() && consumed == 0 && Pending() == old(Pending())
    {
      if consumed == 0 {
        return;
      }
      storage, consumed := storage[consumed..], 0;
    }

    method PendingBytes() returns (n: nat)
      requires Valid()
      ensures n == |Pending()|
    {
      n := |storage| - consumed;
    }
  }
}
