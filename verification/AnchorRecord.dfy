/** The owner record of `_anchor_claim.py`: a JSON document (section 4 of RFC 8259) padded with spaces to a fixed
    width, written over the old bytes of the anchor and only then cut to that width, while readers look on. */
module AnchorRecord {
  import opened Options
  import opened Text

  type Byte = b: int | 0 <= b < 256

  /** What an owner publishes; the start time is carried as the number text JSON writes for it. */
  datatype Record = Owner(pid: nat) | Loan(pid: nat, lentTo: nat, lentStart: string)

  predicate IsNumberChar(c: char) { IsDigit(c) || c in "+-.eE" }

  predicate Publishable(r: Record) {
    r.Loan? ==> r.lentStart != "" && forall c :: c in r.lentStart ==> IsNumberChar(c)
  }

  /** The number texts JSON writes for a start time can be published. */
  lemma StartTimesPublish()
    ensures Publishable(Loan(1, 2, "1752.25")) && Publishable(Loan(1, 2, "1e-05")) && Publishable(Loan(1, 2, "1E+16"))
  {}

  // ---------- encoding ----------

  function Digits(n: nat): (s: string)
    ensures s != "" && forall c :: c in s ==> IsDigit(c)
    ensures s[0] == '0' ==> s == "0"
  {
    if n < 10 then [('0' as int + n) as char] else Digits(n / 10) + [('0' as int + n % 10) as char]
  }

  // The fixed parts of the document. Each begins with a character no number contains.

  function PidKey(): (s: string)
    ensures |s| == 7 && s[0] == '{' && IsAscii(s)
  {
    "{\"pid\":"
  }

  function LentToKey(): (s: string)
    ensures |s| == 11 && s[0] == ',' && IsAscii(s)
  {
    ",\"lent_to\":"
  }

  function LentStartKey(): (s: string)
    ensures |s| == 14 && s[0] == ',' && IsAscii(s)
  {
    ",\"lent_start\":"
  }

  /** The compact document `json.dumps` writes for a record. */
  function Encode(r: Record): string {
    match r
    case Owner(pid) => PidKey() + Digits(pid) + "}"
    case Loan(pid, to, start) => PidKey() + Digits(pid) + LentToKey() + Digits(to) + LentStartKey() + start + "}"
  }

  predicate IsAscii(s: string) { forall c :: c in s ==> c as int < 128 }

  function Ascii(s: string): (b: seq<Byte>)
    requires IsAscii(s)
    ensures |b| == |s| && forall k :: 0 <= k < |b| ==> b[k] == s[k] as int
  {
    if s == "" then [] else
    assert s[0] in s && forall c :: c in s[1..] ==> c in s;
    var b: Byte := s[0] as int;
    [b] + Ascii(s[1..])
  }

  function Spaces(n: nat): (s: string)
    ensures |s| == n && forall c :: c in s ==> c == ' '
  {
    seq(n, _ => ' ')
  }

  predicate Fits(r: Record, width: nat) { Publishable(r) && |Encode(r)| <= width }

  lemma EncodeIsAscii(r: Record)
    requires Publishable(r)
    ensures IsAscii(Encode(r)) && Encode(r) != "" && Encode(r)[0] == '{'
  {
    hide PidKey, LentToKey, LentStartKey, Digits;
  }

  function Frame(r: Record, width: nat): (f: seq<Byte>)
    requires Fits(r, width)
    ensures |f| == width
  {
    EncodeIsAscii(r);
    Ascii(Encode(r) + Spaces(width - |Encode(r)|))
  }

  // ---------- UTF-8 ----------

  predicate Continues(b: Byte) { 0x80 <= b < 0xC0 }

  /** The first character of a UTF-8 text and how many bytes it takes; nothing when those bytes are not one. */
  function FirstChar(b: seq<Byte>): (r: Option<(char, nat)>)
    ensures r.Some? ==> 0 < r.value.1 <= |b|
  {
    if |b| == 0 then None else
    var b0: int := b[0];
    if b0 < 0x80 then Some((b0 as char, 1)) else
    if b0 < 0xC2 || |b| < 2 || !Continues(b[1]) then None else
    var b1: int := b[1];
    if b0 < 0xE0 then Some((((b0 - 0xC0) * 0x40 + (b1 - 0x80)) as char, 2)) else
    if |b| < 3 || !Continues(b[2]) then None else
    var b2: int := b[2];
    if b0 < 0xF0 then
      if (b0 == 0xE0 && b1 < 0xA0) || (b0 == 0xED && b1 >= 0xA0) then None
      else Some((((b0 - 0xE0) * 0x1000 + (b1 - 0x80) * 0x40 + (b2 - 0x80)) as char, 3)) else
    if b0 >= 0xF5 || |b| < 4 || !Continues(b[3]) then None else
    if (b0 == 0xF0 && b1 < 0x90) || (b0 == 0xF4 && b1 >= 0x90) then None else
    var b3: int := b[3];
    Some((((b0 - 0xF0) * 0x40000 + (b1 - 0x80) * 0x1000 + (b2 - 0x80) * 0x40 + (b3 - 0x80)) as char, 4))
  }

  function Utf8(b: seq<Byte>): Option<string> {
    if b == [] then Some("") else
    var first := FirstChar(b);
    if first.None? then None else
    var rest := Utf8(b[first.value.1..]);
    if rest.None? then None else Some([first.value.0] + rest.value)
  }

  /** A character's bytes (section 3 of RFC 3629). */
  function EncodedChar(c: char): (b: seq<Byte>)
    ensures b != []
  {
    var n := c as int;
    if n < 0x80 then [n]
    else if n < 0x800 then [0xC0 + n / 0x40, 0x80 + n % 0x40]
    else if n < 0x1_0000 then [0xE0 + n / 0x1000, 0x80 + n / 0x40 % 0x40, 0x80 + n % 0x40]
    else [0xF0 + n / 0x4_0000, 0x80 + n / 0x1000 % 0x40, 0x80 + n / 0x40 % 0x40, 0x80 + n % 0x40]
  }

  function Encoded(text: string): seq<Byte> {
    if text == "" then [] else EncodedChar(text[0]) + Encoded(text[1..])
  }

  lemma Sixes(n: nat)
    ensures n == n / 0x40 * 0x40 + n % 0x40
    ensures n / 0x40 == n / 0x1000 * 0x40 + n / 0x40 % 0x40
    ensures n / 0x1000 == n / 0x4_0000 * 0x40 + n / 0x1000 % 0x40
  {}

  lemma Joins(hi: nat, lo: nat)
    requires lo < 0x40
    ensures (hi * 0x40 + lo) / 0x40 == hi && (hi * 0x40 + lo) % 0x40 == lo
  {}

  lemma Thousands(n: nat)
    ensures n / 0x40 / 0x40 == n / 0x1000 && n / 0x1000 / 0x40 == n / 0x4_0000
  {}

  lemma EncodedCharIsFirst(c: char, rest: seq<Byte>)
    ensures FirstChar(EncodedChar(c) + rest) == Some((c, |EncodedChar(c)|))
  {
    var n := c as int;
    Sixes(n);
    var b := EncodedChar(c) + rest;
    if n < 0x80 {
      assert b[0] == n;
    } else if n < 0x800 {
      assert b[0] == 0xC0 + n / 0x40 && b[1] == 0x80 + n % 0x40;
    } else if n < 0x1_0000 {
      assert b[0] == 0xE0 + n / 0x1000 && b[1] == 0x80 + n / 0x40 % 0x40 && b[2] == 0x80 + n % 0x40;
    } else {
      assert b[0] == 0xF0 + n / 0x4_0000 && b[1] == 0x80 + n / 0x1000 % 0x40;
      assert b[2] == 0x80 + n / 0x40 % 0x40 && b[3] == 0x80 + n % 0x40;
    }
  }

  lemma FirstIsEncodedChar(b: seq<Byte>)
    requires FirstChar(b).Some?
    ensures var (c, n) := FirstChar(b).value; b[..n] == EncodedChar(c)
  {
    hide EncodedChar;
    match FirstChar(b).value.1
    case 2 => TwoBytes(b);
    case 3 => ThreeBytes(b);
    case 4 => FourBytes(b);
    case _ => OneByte(b);
  }

  lemma OneByte(b: seq<Byte>)
    requires FirstChar(b).Some? && b[0] < 0x80
    ensures b[..1] == EncodedChar(FirstChar(b).value.0)
  {}

  lemma TwoBytes(b: seq<Byte>)
    requires FirstChar(b).Some? && FirstChar(b).value.1 == 2
    ensures b[..2] == EncodedChar(FirstChar(b).value.0)
  {
    Joins(b[0] as int - 0xC0, b[1] as int - 0x80);
  }

  lemma ThreeBytes(b: seq<Byte>)
    requires FirstChar(b).Some? && FirstChar(b).value.1 == 3
    ensures b[..3] == EncodedChar(FirstChar(b).value.0)
  {
    Thousands(FirstChar(b).value.0 as int);
    var high := (b[0] as int - 0xE0) * 0x40 + (b[1] as int - 0x80);
    Joins(high, b[2] as int - 0x80);
    Joins(b[0] as int - 0xE0, b[1] as int - 0x80);
  }

  lemma FourBytes(b: seq<Byte>)
    requires FirstChar(b).Some? && FirstChar(b).value.1 == 4
    ensures b[..4] == EncodedChar(FirstChar(b).value.0)
  {
    Thousands(FirstChar(b).value.0 as int);
    var high := (b[0] as int - 0xF0) * 0x40 + (b[1] as int - 0x80);
    Joins(high * 0x40 + (b[2] as int - 0x80), b[3] as int - 0x80);
    Joins(high, b[2] as int - 0x80);
    Joins(b[0] as int - 0xF0, b[1] as int - 0x80);
  }

  /** Bytes read as a text exactly when they are its encoding: no other bytes do, and no text is lost. */
  lemma {:induction false} Utf8Iff(b: seq<Byte>, text: string)
    ensures Utf8(b) == Some(text) <==> b == Encoded(text)
  {
    hide FirstChar, EncodedChar;
    if b == [] {
    } else {
      if FirstChar(b).Some? {
        var (c, n) := FirstChar(b).value;
        FirstIsEncodedChar(b);
        assert b == b[..n] + b[n..];
        if text != "" { Utf8Iff(b[n..], text[1..]); }
      }
      if text != "" && b == Encoded(text) {
        EncodedCharIsFirst(text[0], Encoded(text[1..]));
        Utf8Iff(Encoded(text[1..]), text[1..]);
        assert b[|EncodedChar(text[0])|..] == Encoded(text[1..]);
        assert [text[0]] + text[1..] == text;
      }
    }
  }

  lemma FirstOfAscii(b: seq<Byte>)
    requires b != [] && b[0] < 0x80
    ensures FirstChar(b) == Some((b[0] as char, 1))
  {}

  lemma AsciiSteps(s: string)
    requires IsAscii(s) && s != ""
    ensures IsAscii(s[1..]) && Ascii(s) == [s[0] as int] + Ascii(s[1..])
  {
    assert s[0] in s && forall c :: c in s[1..] ==> c in s;
  }

  lemma AsciiStarts(s: string, tail: seq<Byte>)
    requires IsAscii(s) && s != ""
    ensures IsAscii(s[1..])
    ensures (Ascii(s) + tail)[1..] == Ascii(s[1..]) + tail && FirstChar(Ascii(s) + tail) == Some((s[0], 1))
  {
    hide FirstChar, Ascii;
    AsciiSteps(s);
    assert s[0] in s;
    var b: seq<Byte> := [s[0] as int];
    var rest := Ascii(s[1..]);
    assert (b + rest) + tail == b + (rest + tail);
    FirstOfAscii(b + (rest + tail));
  }

  lemma {:induction false} Utf8AfterAscii(s: string, tail: seq<Byte>)
    requires IsAscii(s)
    ensures Utf8(Ascii(s) + tail) == if Utf8(tail).None? then None else Some(s + Utf8(tail).value)
  {
    hide FirstChar, Ascii;
    if s == "" {
      assert Ascii(s) == [];
      assert Ascii(s) + tail == tail;
      assert Utf8(tail).Some? ==> s + Utf8(tail).value == Utf8(tail).value;
    } else {
      AsciiStarts(s, tail);
      Utf8AfterAscii(s[1..], tail);
      if Utf8(tail).Some? {
        assert [s[0]] + (s[1..] + Utf8(tail).value) == s + Utf8(tail).value;
      }
    }
  }

  // ---------- reading ----------

  function ValueOf(ds: string): nat
    requires forall c :: c in ds ==> IsDigit(c)
  {
    if ds == "" then 0 else
    assert IsDigit(ds[|ds| - 1]);
    ValueOf(ds[..|ds| - 1]) * 10 + (ds[|ds| - 1] as int - '0' as int)
  }

  /** A whole number after the literal, without a leading zero, and the text that follows it. */
  function Number(s: string, literal: string): Option<(nat, string)> {
    if !(literal <= s) then None else
    var t := s[|literal|..];
    var n := Span(t, IsDigit);
    if n == 0 || (n > 1 && t[0] == '0') then None else Some((ValueOf(t[..n]), t[n..]))
  }

  /** The leading JSON document, when it is an owner record; whatever follows it is ignored. */
  function RawDecode(s: string): Option<Record> {
    match Number(s, PidKey())
    case None => None
    case Some((pid, after)) =>
      if "}" <= after then Some(Owner(pid)) else
      match Number(after, LentToKey())
      case None => None
      case Some((to, rest)) =>
        if !(LentStartKey() <= rest) then None else
        var t := rest[|LentStartKey()|..];
        var n := Span(t, IsNumberChar);
        if n > 0 && "}" <= t[n..] then Some(Loan(pid, to, t[..n])) else None
  }

  function Read(b: seq<Byte>): Option<Record> {
    var text := Utf8(b);
    if text.None? then None else RawDecode(Lstrip(text.value))
  }

  lemma {:induction false} DigitsRoundTrip(n: nat)
    ensures ValueOf(Digits(n)) == n
  {
    if n >= 10 {
      DigitsRoundTrip(n / 10);
      assert Digits(n)[..|Digits(n)| - 1] == Digits(n / 10);
    }
  }

  lemma {:induction false} DigitsOfValue(ds: string)
    requires ds != "" && (forall c :: c in ds ==> IsDigit(c)) && (ds[0] == '0' ==> ds == "0")
    ensures Digits(ValueOf(ds)) == ds && (ds[0] != '0' ==> ValueOf(ds) > 0)
  {
    var n := |ds| - 1;
    assert ds == ds[..n] + [ds[n]] && IsDigit(ds[n]);
    if n > 0 {
      assert ds[..n][0] == ds[0];
      DigitsOfValue(ds[..n]);
    } else {
      assert ds[..n] == "";
    }
  }

  lemma NumberAfter(literal: string, n: nat, rest: string)
    requires rest != "" && !IsDigit(rest[0])
    ensures Number(literal + (Digits(n) + rest), literal) == Some((n, rest))
  {
    hide Digits;
    var s := literal + (Digits(n) + rest);
    assert s[|literal|..] == Digits(n) + rest;
    SpanOf(Digits(n), rest, IsDigit);
    assert (Digits(n) + rest)[..|Digits(n)|] == Digits(n) && (Digits(n) + rest)[|Digits(n)|..] == rest;
    DigitsRoundTrip(n);
  }

  lemma DecodeOwner(pid: nat, tail: string)
    ensures RawDecode(Encode(Owner(pid)) + tail) == Some(Owner(pid))
  {
    hide PidKey, Digits, Number;
    var rest := "}" + tail;
    assert Encode(Owner(pid)) + tail == PidKey() + (Digits(pid) + rest);
    NumberAfter(PidKey(), pid, rest);
  }

  lemma Regroup(a: string, b: string, c: string)
    ensures (a + b) + c == a + (b + c)
  {}

  /** A loan's document and what follows it, from the front. */
  lemma LoanText(pid: nat, to: nat, start: string, tail: string)
    ensures Encode(Loan(pid, to, start)) + tail
         == PidKey() + (Digits(pid) + (LentToKey() + (Digits(to) + (LentStartKey() + (start + ("}" + tail))))))
  {
    hide PidKey, LentToKey, LentStartKey, Digits;
    var k1, d1, k2, d2, k3 := PidKey(), Digits(pid), LentToKey(), Digits(to), LentStartKey();
    Regroup(k1 + d1 + k2 + d2 + k3 + start, "}", tail);
    Regroup(k1 + d1 + k2 + d2 + k3, start, "}" + tail);
    Regroup(k1 + d1 + k2 + d2, k3, start + ("}" + tail));
    Regroup(k1 + d1 + k2, d2, k3 + (start + ("}" + tail)));
    Regroup(k1 + d1, k2, d2 + (k3 + (start + ("}" + tail))));
    Regroup(k1, d1, k2 + (d2 + (k3 + (start + ("}" + tail)))));
  }

  lemma DecodeLoan(pid: nat, to: nat, start: string, tail: string)
    requires Publishable(Loan(pid, to, start))
    ensures RawDecode(Encode(Loan(pid, to, start)) + tail) == Some(Loan(pid, to, start))
  {
    hide PidKey, LentToKey, LentStartKey, Digits, Number, Encode;
    var end := "}" + tail;
    var rest2 := LentStartKey() + (start + end);
    var rest1 := LentToKey() + (Digits(to) + rest2);
    LoanText(pid, to, start, tail);
    NumberAfter(PidKey(), pid, rest1);
    NumberAfter(LentToKey(), to, rest2);
    assert rest1[0] == ',' && !("}" <= rest1);
    assert rest2[|LentStartKey()|..] == start + end;
    SpanOf(start, end, IsNumberChar);
    assert (start + end)[..|start|] == start && (start + end)[|start|..] == end;
  }

  /** A record delimits itself: nothing after it changes how it reads. */
  lemma DecodeEncode(r: Record, tail: string)
    requires Publishable(r)
    ensures RawDecode(Encode(r) + tail) == Some(r)
  {
    match r
    case Owner(pid) => DecodeOwner(pid, tail);
    case Loan(pid, to, start) => DecodeLoan(pid, to, start, tail);
  }

  lemma NumberIs(s: string, literal: string)
    requires Number(s, literal).Some?
    ensures var (n, rest) := Number(s, literal).value; s == literal + (Digits(n) + rest)
  {
    hide Digits, ValueOf;
    var t := s[|literal|..];
    var n := Span(t, IsDigit);
    assert s == literal + t && t == t[..n] + t[n..];
    assert t[..n][0] == t[0];
    DigitsOfValue(t[..n]);
  }

  /** Reading recognises what publishing writes and nothing else: a text reads as a record exactly when it begins with
      that record's document. */
  lemma RawDecodeIff(s: string, r: Record)
    ensures RawDecode(s) == Some(r) <==> Publishable(r) && Encode(r) <= s
  {
    hide Digits, ValueOf, PidKey, LentToKey, LentStartKey, Number;
    if Publishable(r) && Encode(r) <= s {
      DecodeEncode(r, s[|Encode(r)|..]);
      assert s == Encode(r) + s[|Encode(r)|..];
    }
    if RawDecode(s) == Some(r) { DecodedIsEncoded(s); }
  }

  lemma DecodedIsEncoded(s: string)
    requires RawDecode(s).Some?
    ensures var r := RawDecode(s).value; Publishable(r) && Encode(r) <= s
  {
    hide Digits, ValueOf, PidKey, LentToKey, LentStartKey, Number, IsNumberChar;
    var (pid, after) := Number(s, PidKey()).value;
    NumberIs(s, PidKey());
    if "}" <= after {
      assert after == "}" + after[1..];
      assert s == (PidKey() + Digits(pid) + "}") + after[1..];
    } else {
      var (to, rest) := Number(after, LentToKey()).value;
      NumberIs(after, LentToKey());
      var t := rest[|LentStartKey()|..];
      var n := Span(t, IsNumberChar);
      var tail := t[n..][1..];
      assert t == t[..n] + t[n..] && t[n..] == "}" + tail;
      assert rest == LentStartKey() + t;
      LoanText(pid, to, t[..n], tail);
      assert s == Encode(Loan(pid, to, t[..n])) + tail;
    }
  }

  /** Reading a frame with any bytes after it: the record, exactly when those bytes are UTF-8 text. */
  lemma ReadFrame(r: Record, width: nat, tail: seq<Byte>)
    requires Fits(r, width)
    ensures Read(Frame(r, width) + tail) == if Utf8(tail).Some? then Some(r) else None
  {
    hide Utf8, RawDecode, Encode, Ascii, Publishable;
    EncodeIsAscii(r);
    var pad := Spaces(width - |Encode(r)|);
    Utf8AfterAscii(Encode(r) + pad, tail);
    if Utf8(tail).Some? {
      var text := Encode(r) + pad + Utf8(tail).value;
      assert text == Encode(r) + (pad + Utf8(tail).value);
      assert text[0] == Encode(r)[0];
      assert Lstrip(text) == text;
      DecodeEncode(r, pad + Utf8(tail).value);
    }
  }

  // ---------- publishing in place ----------

  datatype Event = WriteFrame(record: Record) | Truncate

  function Tail(body: seq<Byte>, width: nat): seq<Byte> {
    if |body| > width then body[width..] else []
  }

  /** `write` at offset zero keeps whatever lay past the frame; `ftruncate` cuts, or extends with zero bytes. */
  function Apply(body: seq<Byte>, e: Event, width: nat): seq<Byte>
    requires e.WriteFrame? ==> Fits(e.record, width)
  {
    match e
    case WriteFrame(r) => Frame(r, width) + Tail(body, width)
    case Truncate => if |body| >= width then body[..width] else body + seq(width - |body|, _ => 0)
  }

  predicate AllFit(events: seq<Event>, width: nat) {
    forall k :: 0 <= k < |events| && events[k].WriteFrame? ==> Fits(events[k].record, width)
  }

  /** The anchor's bytes after the events so far of any number of publishers, some cut short between their two. */
  function Run(body: seq<Byte>, events: seq<Event>, width: nat): seq<Byte>
    requires AllFit(events, width)
  {
    if events == [] then body
    else Apply(Run(body, events[..|events| - 1], width), events[|events| - 1], width)
  }

  /** The record written most recently. */
  function Latest(events: seq<Event>): (r: Option<Record>)
    ensures r.Some? <==> exists k :: 0 <= k < |events| && events[k].WriteFrame?
  {
    if events == [] then None
    else if events[|events| - 1].WriteFrame? then Some(events[|events| - 1].record)
    else Latest(events[..|events| - 1])
  }

  lemma {:induction false} RunIsFrameAndTail(body: seq<Byte>, events: seq<Event>, width: nat)
    requires AllFit(events, width) && events != [] && events[0].WriteFrame?
    ensures Latest(events).Some? && Fits(Latest(events).value, width)
    ensures Run(body, events, width)
         == Frame(Latest(events).value, width) + (if Truncate in events then [] else Tail(body, width))
  {
    hide Frame, Fits;
    var n := |events| - 1;
    var before := events[..n];
    assert events == before + [events[n]];
    if n == 0 {
      assert before == [] && Latest(events) == Some(events[0].record);
      assert Truncate !in events;
    } else {
      RunIsFrameAndTail(body, before, width);
      var was := Run(body, before, width);
      var kept := if Truncate in before then [] else Tail(body, width);
      assert was[..width] == Frame(Latest(before).value, width);
      if events[n].WriteFrame? {
        assert Tail(was, width) == kept;
      } else {
        assert Truncate in events;
        assert was[..width] + [] == was[..width];
      }
    }
  }

  /** From the first frame on, a reader sees the latest record or nothing at all, never a mixture and never an older
      one; and it sees nothing exactly when a longer foreign body, not yet cut, goes on past the frame with bytes that
      are not UTF-8. */
  lemma ReadsLatest(body: seq<Byte>, events: seq<Event>, width: nat)
    requires AllFit(events, width) && events != [] && events[0].WriteFrame?
    ensures Latest(events).Some?
    ensures Read(Run(body, events, width))
         == if Truncate in events || Utf8(Tail(body, width)).Some? then Latest(events) else None
  {
    hide Read, Utf8, Frame, Fits, Run, Latest;
    RunIsFrameAndTail(body, events, width);
    assert Utf8([]) == Some("") by { EmptyIsText(); }
    ReadFrame(Latest(events).value, width, if Truncate in events then [] else Tail(body, width));
  }

  lemma EmptyIsText()
    ensures Utf8([]) == Some("")
  {}

  /** Well-formed UTF-8 does not suffice: the frame may end inside one of the old body's characters. */
  lemma ForeignTextCutInACharacter(width: nat, r: Record)
    requires width > 0 && Fits(r, width)
    ensures var body: seq<Byte> := Ascii(Spaces(width - 1)) + [0xC3, 0xA9];
      Utf8(body) == Some(Spaces(width - 1) + "\U{E9}") && Read(Run(body, [WriteFrame(r)], width)) == None
  {
    hide Encode;
    EncodeIsAscii(r);
    var two: seq<Byte> := [0xC3, 0xA9];
    var body := Ascii(Spaces(width - 1)) + two;
    assert two[2..] == [];
    assert Utf8(two) == Some("\U{E9}") by {
      EmptyIsText();
      assert FirstChar(two) == Some(('\U{E9}', 2));
      assert ['\U{E9}'] + "" == "\U{E9}";
    }
    Utf8AfterAscii(Spaces(width - 1), two);
    assert Tail(body, width) == [0xA9];
    assert FirstChar([0xA9]) == None;
    assert Utf8([0xA9]) == None;
    ReadsLatest(body, [WriteFrame(r)], width);
  }

  datatype PublishFault = TooWide | NotReadBack

  class AnchorFile {
    var bytes: seq<Byte>

    constructor (body: seq<Byte>)
      ensures bytes == body
    {
      bytes := body;
    }

    /** Two changes of the file, in this order; a record wider than the anchor's width touches nothing. */
    method Publish(record: Record, width: nat) returns (result: Result<(), PublishFault>)
      requires Publishable(record)
      modifies this
      ensures result == if |Encode(record)| <= width then Ok(()) else Err(TooWide)
      ensures bytes == if result.Ok? then Frame(record, width) else old(bytes)
      ensures result.Ok? ==> Read(bytes) == Some(record)
    {
      hide Frame, Read, Encode;
      if |Encode(record)| > width {
        return Err(TooWide);
      }
      var frame := Frame(record, width);
      bytes := frame + Tail(bytes, |frame|);
      bytes := bytes[..|frame|];
      EmptyIsText();
      ReadFrame(record, width, []);
      assert frame + [] == frame;
      var recorded := Read(bytes[..|frame|]);
      if recorded != Some(record) {
        return Err(NotReadBack);
      }
      return Ok(());
    }
  }

  // ---------- the reader's wait ----------

  /** What stands at the anchor at each instant of a reader's wait; nothing while there is no such file. */
  type Anchor = nat -> Option<seq<Byte>>

  /** A file that is empty when it is looked at is looked at again until the deadline; only then is it read, an instant
      after the look that settled it. */
  method ReadAnchorRecord(at: Anchor, deadline: nat) returns (recorded: Option<Record>, read: nat)
    ensures read <= deadline + 1
    ensures forall k :: 0 <= k < read - 1 ==> at(k) == Some([])
    ensures read == 0 ==>
              exists k: nat :: k <= deadline && at(k) == None && forall j :: 0 <= j < k ==> at(j) == Some([])
    ensures read > 0 ==> at(read - 1).Some? && (at(read - 1) == Some([]) ==> read - 1 == deadline)
    ensures recorded == if read == 0 || at(read).None? then None else Read(at(read).value)
  {
    hide Read;
    var now := 0;
    while true
      invariant now <= deadline
      invariant forall k :: 0 <= k < now ==> at(k) == Some([])
      decreases deadline - now
    {
      var look := at(now);
      if look.None? {
        return None, 0;
      }
      if look.value != [] || now >= deadline {
        break;
      }
      now := now + 1;
    }
    read := now + 1;
    if at(read).None? {
      return None, read;
    }
    recorded := Read(at(read).value);
  }

  /** The anchor of a fresh claim: created empty and locked, then published to, as far as `progress` says by each
      instant. */
  ghost predicate FollowsClaim(at: Anchor, events: seq<Event>, progress: nat -> nat, width: nat)
    requires AllFit(events, width)
  {
    && (forall i: nat, j: nat :: i <= j ==> progress(i) <= progress(j))
    && (forall i: nat :: progress(i) <= |events| && at(i) == Some(Run([], events[..progress(i)], width)))
  }

  /** A reader that starts on an anchor still in its claimant's hands sees the record in place when it reads, provided
      the first frame lands by the deadline: emptiness is never mistaken for the absence of an owner. */
  lemma WaitFindsTheOwner(at: Anchor, deadline: nat, read: nat, events: seq<Event>, progress: nat -> nat, width: nat)
    requires width > 0 && AllFit(events, width) && FollowsClaim(at, events, progress, width)
    requires events != [] && events[0].WriteFrame? && progress(deadline) > 0
    // what ReadAnchorRecord promises of the instant it reads at
    requires read <= deadline + 1
    requires read > 0 ==> at(read - 1).Some? && (at(read - 1) == Some([]) ==> read - 1 == deadline)
    requires read == 0 ==> exists k: nat :: at(k) == None
    ensures read > 0 && at(read).Some? && Latest(events[..progress(read)]).Some?
    ensures Read(at(read).value) == Latest(events[..progress(read)])
  {
    hide Read, Run, Latest, Utf8, Fits;
    assert read > 0;
    RunNothing(width);
    assert at(read - 1) == Some(Run([], events[..progress(read - 1)], width));
    assert progress(read) > 0;
    EmptyIsText();
    ReadsLatest([], events[..progress(read)], width);
  }

  lemma RunNothing(width: nat)
    ensures Run([], [], width) == []
  {}

  // ---------- the width in use ----------

  lemma {:induction false} DigitsBound(n: nat, places: nat, limit: nat)
    requires places > 0 && limit == Power10(places) && n < limit
    ensures |Digits(n)| <= places
  {
    if n >= 10 {
      DigitsBound(n / 10, places - 1, Power10(places - 1));
    }
  }

  function Power10(k: nat): (p: nat)
    ensures p > 0
  {
    if k == 0 then 1 else 10 * Power10(k - 1)
  }

  const OWNER_RECORD_WIDTH := 128

  /** A 32-bit pid always fits, and the pair of them with any start time a double prints as. */
  lemma OwnerRecordsFit(r: Record)
    requires Publishable(r) && r.pid < 0x1_0000_0000
    requires r.Loan? ==> r.lentTo < 0x1_0000_0000 && |r.lentStart| <= 24
    ensures Fits(r, OWNER_RECORD_WIDTH)
  {
    hide Digits, PidKey, LentToKey, LentStartKey;
    assert Power10(10) == 10_000_000_000;
    DigitsBound(r.pid, 10, Power10(10));
    if r.Loan? { DigitsBound(r.lentTo, 10, Power10(10)); }
  }
}
