/** The message an agent is shown reads back as the events chosen for it. */
module AgentRendering {
  import opened Wrappers
  import opened AgentContext

  // `render_payload` in `select_context`, `src/tfr/agents.py`.

  // A reader of the JSON that `json.dumps` writes, made from the JSON grammar alone (RFC 8259,
  // sections 5 to 7), for lists of objects with these six members in this order.

  // ----------------------------------------------------------------------------- strings

  function HexValue(c: char): Option<nat> {
    if '0' <= c <= '9' then Some(c as int - '0' as int)
    else if 'a' <= c <= 'f' then Some(c as int - 'a' as int + 10)
    else if 'A' <= c <= 'F' then Some(c as int - 'A' as int + 10)
    else None
  }

  /** The character that four hexadecimal digits name; surrogates are not read. */
  function CodePoint(s: string): Option<char>
    requires |s| == 4
  {
    if exists i :: 0 <= i < 4 && HexValue(s[i]).None? then None
    else
      var n := ((HexValue(s[0]).value * 16 + HexValue(s[1]).value) * 16 + HexValue(s[2]).value) * 16 + HexValue(s[3]).value;
      if n < 0xD800 then Some(n as char) else None
  }

  /** One character of a string, and what follows it. */
  function ReadChar(s: string): (r: Option<(char, string)>)
    ensures r.Some? ==> |r.value.1| < |s|
  {
    if s == "" || s[0] == '"' || s[0] as int < 32 then None
    else if s[0] != '\\' then Some((s[0], s[1..]))
    else if |s| < 2 then None
    else if s[1] == '"' || s[1] == '\\' || s[1] == '/' then Some((s[1], s[2..]))
    else if s[1] == 'n' then Some(('\n', s[2..]))
    else if s[1] == 'r' then Some(('\r', s[2..]))
    else if s[1] == 't' then Some(('\t', s[2..]))
    else if s[1] == 'b' then Some(('\U{8}', s[2..]))
    else if s[1] == 'f' then Some(('\U{C}', s[2..]))
    else if s[1] == 'u' && |s| >= 6 && CodePoint(s[2..6]).Some? then Some((CodePoint(s[2..6]).value, s[6..]))
    else None
  }

  /** The characters up to the closing quote. */
  function ReadChars(s: string): Option<(string, string)>
    decreases |s|
  {
    if s != "" && s[0] == '"' then Some(("", s[1..]))
    else
      var c := ReadChar(s);
      if c.None? then None
      else
        var rest := ReadChars(c.value.1);
        if rest.None? then None else Some(([c.value.0] + rest.value.0, rest.value.1))
  }

  function ReadString(s: string): Option<(string, string)> {
    if s == "" || s[0] != '"' then None else ReadChars(s[1..])
  }

  lemma {:induction false} HexDigitReads(n: nat)
    requires n < 16
    ensures HexValue(HEX_DIGITS[n]) == Some(n)
  {
  }

  lemma {:induction false} EscapedCharReads(c: char, rest: string)
    ensures ReadChar(EscapedChar(c) + rest) == Some((c, rest))
    ensures EscapedChar(c)[0] != '"'
  {
    var s := EscapedChar(c) + rest;
    if c as int < 32 && c !in "\n\r\t" && c as int != 8 && c as int != 12 {
      HexDigitReads(c as int / 16);
      HexDigitReads(c as int % 16);
      assert s[2..6] == "00" + [HEX_DIGITS[c as int / 16], HEX_DIGITS[c as int % 16]];
      assert s[6..] == rest;
      hide HexValue, HEX_DIGITS;
      CodeReads(c, s[2..6]);
    } else {
      assert s[1..] == EscapedChar(c)[1..] + rest;
      assert |EscapedChar(c)| == 2 ==> s[2..] == rest;
    }
  }

  lemma {:induction false} CodeReads(c: char, s: string)
    requires |s| == 4 && c as int < 32 && HexValue(s[0]) == Some(0) && HexValue(s[1]) == Some(0)
    requires HexValue(s[2]) == Some(c as int / 16) && HexValue(s[3]) == Some(c as int % 16)
    ensures CodePoint(s) == Some(c)
  {
    hide HexValue;
  }

  lemma {:induction false} ReadCharsStep(s: string)
    requires ReadChar(s).Some?
    ensures ReadChars(s) ==
      var c := ReadChar(s).value; var rest := ReadChars(c.1);
      if rest.None? then None else Some(([c.0] + rest.value.0, rest.value.1))
  {
  }

  lemma {:induction false} ClosingQuote(rest: string)
    ensures ReadChars("\"" + rest) == Some(("", rest))
  {
    assert ("\"" + rest)[1..] == rest;
  }

  lemma {:induction false} EscapedReads(text: string, rest: string)
    ensures ReadChars(Escaped(text) + ("\"" + rest)) == Some((text, rest))
  {
    hide EscapedChar, ReadChar, ReadChars;
    var tail := "\"" + rest;
    if text == [] {
      assert Escaped(text) + tail == tail;
      ClosingQuote(rest);
    } else {
      var more := Escaped(text[1..]) + tail;
      EscapedReads(text[1..], rest);
      EscapedCharReads(text[0], more);
      assert Escaped(text) + tail == EscapedChar(text[0]) + more;
      hide Escaped;
      ReadCharsStep(EscapedChar(text[0]) + more);
      assert text == [text[0]] + text[1..];
    }
  }

  /** A quoted text reads back whatever it holds and whatever follows: it cannot end early. */
  lemma {:induction false} QuotedReads(text: string, rest: string)
    ensures ReadString(Quoted(text) + rest) == Some((text, rest))
  {
    EscapedReads(text, rest);
    hide Escaped, ReadChars;
    assert Quoted(text) + rest == "\"" + (Escaped(text) + ("\"" + rest));
    assert ("\"" + (Escaped(text) + ("\"" + rest)))[1..] == Escaped(text) + ("\"" + rest);
  }

  // ----------------------------------------------------------------------------- numbers

  predicate IsDigit(c: char) { '0' <= c <= '9' }

  /** Digits in the order written, after a value read so far. */
  function ReadDigits(s: string, value: nat): (nat, string) {
    if s != "" && IsDigit(s[0]) then ReadDigits(s[1..], value * 10 + (s[0] as int - '0' as int)) else (value, s)
  }

  /** An integer, or `null`. */
  function ReadNumber(s: string): Option<(Option<int>, string)> {
    if "null" <= s then Some((None, s[4..]))
    else if s != "" && IsDigit(s[0]) then Some((Some(ReadDigits(s, 0).0), ReadDigits(s, 0).1))
    else if |s| >= 2 && s[0] == '-' && IsDigit(s[1]) then
      var n: int := ReadDigits(s[1..], 0).0;
      Some((Some(-n), ReadDigits(s[1..], 0).1))
    else None
  }

  lemma {:induction false} DigitReads(d: nat, rest: string, value: nat)
    requires d < 10
    ensures IsDigit(DECIMAL_DIGITS[d])
    ensures ReadDigits([DECIMAL_DIGITS[d]] + rest, value) == ReadDigits(rest, value * 10 + d)
  {
    assert ([DECIMAL_DIGITS[d]] + rest)[1..] == rest;
    assert DECIMAL_DIGITS[d] as int == '0' as int + d;
  }

  lemma {:induction false} DigitsRead(n: nat, rest: string)
    ensures ReadDigits(Digits(n) + rest, 0) == ReadDigits(rest, n)
    ensures Digits(n) != "" && IsDigit(Digits(n)[0])
  {
    if n < 10 {
      DigitReads(n, rest, 0);
    } else {
      DigitsRead(n / 10, [DECIMAL_DIGITS[n % 10]] + rest);
      DigitReads(n % 10, rest, n / 10);
      hide ReadDigits;
      assert Digits(n) + rest == Digits(n / 10) + ([DECIMAL_DIGITS[n % 10]] + rest);
    }
  }

  lemma {:induction false} NumberReads(n: Option<int>, rest: string)
    requires rest == "" || !IsDigit(rest[0])
    ensures ReadNumber(NumberOrNull(n) + rest) == Some((n, rest))
  {
    hide Digits, ReadDigits;
    DigitsEnd(rest);
    if n.None? {
      assert ("null" + rest)[4..] == rest;
    } else if n.value < 0 {
      DigitsRead(-n.value, rest);
      var digits := Digits(-n.value);
      var s := "-" + (digits + rest);
      assert NumberOrNull(n) + rest == s;
      assert s[1..] == digits + rest;
      assert s[0] == '-' && s[1] == digits[0];
    } else {
      DigitsRead(n.value, rest);
      var digits := Digits(n.value);
      assert (digits + rest)[0] == digits[0];
    }
  }

  lemma {:induction false} DigitsEnd(rest: string)
    requires rest == "" || !IsDigit(rest[0])
    ensures forall n: nat :: ReadDigits(rest, n) == (n, rest)
  {
  }

  // ----------------------------------------------------------------------------- objects

  function Expect(s: string, word: string): Option<string> {
    if word <= s then Some(s[|word|..]) else None
  }

  lemma {:induction false} ExpectReads(word: string, rest: string)
    ensures Expect(word + rest, word) == Some(rest)
  {
  }

  lemma {:induction false} NotExpected(s: string, word: string)
    requires s != "" && word != "" && s[0] != word[0]
    ensures Expect(s, word).None?
  {
  }

  /** A word and the text behind it. */
  function Field(s: string, word: string): Option<(string, string)> {
    var rest := Expect(s, word);
    if rest.None? then None else ReadString(rest.value)
  }

  lemma {:induction false} FieldReads(word: string, text: string, rest: string)
    ensures Field(word + (Quoted(text) + rest), word) == Some((text, rest))
  {
    ExpectReads(word, Quoted(text) + rest);
    QuotedReads(text, rest);
  }

  function OptionalField(s: string, word: string): Option<(Option<string>, string)> {
    var rest := Expect(s, word);
    if rest.None? then None
    else if "null" <= rest.value then Some((None, rest.value[4..]))
    else
      var text := ReadString(rest.value);
      if text.None? then None else Some((Some(text.value.0), text.value.1))
  }

  lemma {:induction false} OptionalFieldReads(word: string, text: Option<string>, rest: string)
    ensures OptionalField(word + (QuotedOrNull(text) + rest), word) == Some((text, rest))
  {
    hide Escaped, ReadString;
    ExpectReads(word, QuotedOrNull(text) + rest);
    if text.None? {
      assert ("null" + rest)[4..] == rest;
    } else {
      QuotedReads(text.value, rest);
      assert (Quoted(text.value) + rest)[0] == '"';
    }
  }

  /** One event object. */
  function ReadItem(s: string): Option<(Shown, string)> {
    var eventId := Field(s, "{\"event_id\": ");
    if eventId.None? then None else
    var timestamp := Field(eventId.value.1, ", \"timestamp\": ");
    if timestamp.None? then None else
    var kind := Field(timestamp.value.1, ", \"kind\": ");
    if kind.None? then None else
    var text := Field(kind.value.1, ", \"text\": ");
    if text.None? then None else
    var name := OptionalField(text.value.1, ", \"sender_name\": ");
    if name.None? then None else
    var number := Expect(name.value.1, ", \"sender_dbref\": ");
    if number.None? then None else
    var dbref := ReadNumber(number.value);
    if dbref.None? then None else
    var rest := Expect(dbref.value.1, "}");
    if rest.None? then None
    else Some((Shown(eventId.value.0, timestamp.value.0, kind.value.0, text.value.0, name.value.0, dbref.value.0), rest.value))
  }

  lemma {:induction false} ItemReads(item: Shown, rest: string)
    ensures ReadItem(RenderedItem(item) + rest) == Some((item, rest))
  {
    var r7 := "}" + rest;
    var r6 := NumberOrNull(item.senderDbref) + r7;
    var r5 := ", \"sender_dbref\": " + r6;
    var r4 := ", \"sender_name\": " + (QuotedOrNull(item.senderName) + r5);
    var r3 := ", \"text\": " + (Quoted(item.text) + r4);
    var r2 := ", \"kind\": " + (Quoted(item.kind) + r3);
    var r1 := ", \"timestamp\": " + (Quoted(item.timestamp) + r2);
    var r0 := "{\"event_id\": " + (Quoted(item.eventId) + r1);
    ItemParts(item, rest);
    FieldReads("{\"event_id\": ", item.eventId, r1);
    FieldReads(", \"timestamp\": ", item.timestamp, r2);
    FieldReads(", \"kind\": ", item.kind, r3);
    FieldReads(", \"text\": ", item.text, r4);
    OptionalFieldReads(", \"sender_name\": ", item.senderName, r5);
    ExpectReads(", \"sender_dbref\": ", r6);
    NumberReads(item.senderDbref, r7);
    ExpectReads("}", rest);
    hide Field, OptionalField, Expect, ReadNumber, Quoted, QuotedOrNull, NumberOrNull, RenderedItem;
  }

  lemma {:induction false} ItemParts(item: Shown, rest: string)
    ensures RenderedItem(item) + rest ==
      "{\"event_id\": " + (Quoted(item.eventId) + (", \"timestamp\": " + (Quoted(item.timestamp) + (", \"kind\": " + (Quoted(item.kind)
      + (", \"text\": " + (Quoted(item.text) + (", \"sender_name\": " + (QuotedOrNull(item.senderName)
      + (", \"sender_dbref\": " + (NumberOrNull(item.senderDbref) + ("}" + rest))))))))))))
  {
    hide Quoted, QuotedOrNull, NumberOrNull;
  }

  /** Objects separated by commas, up to the closing bracket. */
  function ReadItems(s: string): Option<(seq<Shown>, string)>
    decreases |s|
  {
    var first := ReadItem(s);
    if first.None? || |first.value.1| >= |s| then None
    else if Expect(first.value.1, "]").Some? then Some(([first.value.0], Expect(first.value.1, "]").value))
    else if Expect(first.value.1, ", ").None? then None
    else
      var rest := ReadItems(Expect(first.value.1, ", ").value);
      if rest.None? then None else Some(([first.value.0] + rest.value.0, rest.value.1))
  }

  function ReadList(s: string): Option<(seq<Shown>, string)> {
    if Expect(s, "[]").Some? then Some(([], Expect(s, "[]").value))
    else if Expect(s, "[").Some? then ReadItems(Expect(s, "[").value)
    else None
  }

  lemma {:induction false} ReadItemsStep(s: string, item: Shown, rest: string)
    requires ReadItem(s) == Some((item, rest)) && |rest| < |s|
    ensures Expect(rest, "]").Some? ==> ReadItems(s) == Some(([item], Expect(rest, "]").value))
    ensures Expect(rest, "]").None? && Expect(rest, ", ").Some? && ReadItems(Expect(rest, ", ").value).Some? ==>
      var later := ReadItems(Expect(rest, ", ").value).value;
      ReadItems(s) == Some(([item] + later.0, later.1))
  {
    hide ReadItem;
  }

  lemma {:induction false} ItemsRead(payload: seq<Shown>, rest: string)
    requires payload != []
    ensures ReadItems(RenderedItems(payload) + ("]" + rest)) == Some((payload, rest))
    decreases |payload|
  {
    hide RenderedItem, ReadItem, ReadItems;
    var tail := "]" + rest;
    var item := payload[0];
    if |payload| == 1 {
      ItemReads(item, tail);
      ItemShorter(item, tail);
      ExpectReads("]", rest);
      ReadItemsStep(RenderedItem(item) + tail, item, tail);
      assert payload == [item];
    } else {
      var later := payload[1..];
      var more := RenderedItems(later) + tail;
      ItemsRead(later, rest);
      ItemReads(item, ", " + more);
      ItemShorter(item, ", " + more);
      assert RenderedItems(payload) + tail == RenderedItem(item) + (", " + more);
      hide RenderedItems;
      ExpectReads(", ", more);
      assert (", " + more)[0] == ',';
      NotExpected(", " + more, "]");
      hide Expect;
      ReadItemsStep(RenderedItem(item) + (", " + more), item, ", " + more);
      assert payload == [item] + later;
    }
  }

  lemma {:induction false} ItemShorter(item: Shown, rest: string)
    ensures |rest| < |RenderedItem(item) + rest| && RenderedItem(item)[0] == '{'
  {
    hide Quoted, QuotedOrNull, NumberOrNull;
  }

  /** The whole message: the notice, the list, and the closing line. */
  function ReadMessage(s: string): Option<seq<Shown>> {
    var list := Expect(s, OPENING);
    if list.None? then None
    else
      var read := ReadList(list.value);
      if read.None? || read.value.1 != "\n</world-events>" then None else Some(read.value.0)
  }

  /** What an agent is shown reads back as exactly the events chosen for it: no text of theirs,
      whatever it holds, can end its own string, change another member or add an event. */
  lemma {:induction false} MessageReads(payload: seq<Shown>)
    ensures ReadMessage(Rendered(payload)) == Some(payload)
  {
    hide RenderedItems, ReadItems, OPENING;
    var list := "[" + (RenderedItems(payload) + ("]" + CLOSING));
    assert Rendered(payload) == OPENING + list;
    hide Rendered;
    ExpectReads(OPENING, list);
    ListReads(payload, CLOSING);
    hide ReadList, Expect;
  }

  lemma {:induction false} ListReads(payload: seq<Shown>, rest: string)
    ensures ReadList("[" + (RenderedItems(payload) + ("]" + rest))) == Some((payload, rest))
  {
    hide ReadItems;
    var list := "[" + (RenderedItems(payload) + ("]" + rest));
    if payload == [] {
      assert list == "[]" + rest;
      ExpectReads("[]", rest);
    } else {
      ItemsRead(payload, rest);
      ExpectReads("[", RenderedItems(payload) + ("]" + rest));
      FirstIsObject(payload, "]" + rest);
      hide RenderedItems;
      assert list[1] == '{';
    }
  }

  lemma {:induction false} FirstIsObject(payload: seq<Shown>, rest: string)
    requires payload != []
    ensures (RenderedItems(payload) + rest) != "" && (RenderedItems(payload) + rest)[0] == '{'
  {
    ItemShorter(payload[0], rest);
    hide RenderedItem;
  }
}
