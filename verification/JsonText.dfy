/** The JSON lines of the inference stream: what json.Marshal writes and what JSON.parse reads back.
    Strings follow section 7 of RFC 8259. */
module JsonText {
  import opened Types
  import opened Decimals
  import opened Text

  datatype Value =
    | Str(s: string)
    | Num(n: nat)
    | Bool(b: bool)
    | Obj(members: Members)

  datatype Members = End | Member(key: string, value: Value, rest: Members)

  // ---- writing ----

  function HexChar(d: nat): char
    requires d < 16
  {
    "0123456789abcdef"[d]
  }

  function Hex4(n: nat): string
    requires n < 0x10000
  {
    [HexChar(n / 4096), HexChar(n / 256 % 16), HexChar(n / 16 % 16), HexChar(n % 16)]
  }

  /** One character of a string literal. Besides the escapes JSON demands, the encoder escapes `<`, `>`,
      `&` and the two Unicode line separators. */
  function EscapeChar(c: char): string {
    if c == '"' then "\\\""
    else if c == '\\' then "\\\\"
    else if c == '\n' then "\\n"
    else if c == '\r' then "\\r"
    else if c == '\t' then "\\t"
    else if c == '\U{08}' then "\\b"
    else if c == '\U{0C}' then "\\f"
    else if c < ' ' || c == '<' || c == '>' || c == '&' || c == '\U{2028}' || c == '\U{2029}' then
      "\\u" + Hex4(c as int)
    else [c]
  }

  function Escape(s: string): string {
    if s == "" then "" else EscapeChar(s[0]) + Escape(s[1..])
  }

  function Quote(s: string): string { "\"" + Escape(s) + "\"" }

  function Print(v: Value): string {
    match v
    case Str(s) => Quote(s)
    case Num(n) => Render(n)
    case Bool(b) => if b then "true" else "false"
    case Obj(ms) => "{" + PrintMembers(ms)
  }

  /** Members after the opening brace or the first comma, with the closing brace. */
  function PrintMembers(ms: Members): string {
    match ms
    case End => "}"
    case Member(k, v, rest) =>
      Quote(k) + ":" + Print(v) + (if rest.End? then "}" else "," + PrintMembers(rest))
  }

  // ---- reading ----

  function HexValue(c: char): Option<nat> {
    if '0' <= c <= '9' then Some(c as int - '0' as int)
    else if 'a' <= c <= 'f' then Some(c as int - 'a' as int + 10)
    else if 'A' <= c <= 'F' then Some(c as int - 'A' as int + 10)
    else None
  }

  function ReadHex4(s: string): (r: Option<nat>)
    ensures r.Some? ==> r.value < 0x10000 && |s| >= 4
  {
    if |s| < 4 then None
    else
      var a, b, c, d := HexValue(s[0]), HexValue(s[1]), HexValue(s[2]), HexValue(s[3]);
      if a.None? || b.None? || c.None? || d.None? then None
      else if a.value >= 16 || b.value >= 16 || c.value >= 16 || d.value >= 16 then None
      else Some(a.value * 4096 + b.value * 256 + c.value * 16 + d.value)
  }

  datatype Read<T> = Fail | Ok(value: T, rest: string)

  /** One character of a string literal and what follows it. Surrogate halves are not characters here:
      a pair is one character, a half on its own is refused. */
  function ReadChar(s: string): (r: Read<char>)
    ensures r.Ok? ==> |r.rest| < |s|
  {
    if s == "" || s[0] == '"' || s[0] < ' ' then Fail
    else if s[0] != '\\' then Ok(s[0], s[1..])
    else if |s| < 2 then Fail
    else
      match s[1]
      case '"' => Ok('"', s[2..])
      case '\\' => Ok('\\', s[2..])
      case '/' => Ok('/', s[2..])
      case 'b' => Ok('\U{08}', s[2..])
      case 'f' => Ok('\U{0C}', s[2..])
      case 'n' => Ok('\n', s[2..])
      case 'r' => Ok('\r', s[2..])
      case 't' => Ok('\t', s[2..])
      case 'u' => ReadUnicode(s[2..])
      case _ => Fail
  }

  function ReadUnicode(s: string): (r: Read<char>)
    ensures r.Ok? ==> |r.rest| < |s|
  {
    var h := ReadHex4(s);
    if h.None? then Fail
    else if h.value < 0xD800 || 0xE000 <= h.value then Ok(h.value as char, s[4..])
    else if h.value >= 0xDC00 || |s| < 6 || s[4..6] != "\\u" then Fail
    else
      var l := ReadHex4(s[6..]);
      if l.None? || l.value < 0xDC00 || 0xE000 <= l.value then Fail
      else Ok((0x10000 + (h.value - 0xD800) * 0x400 + (l.value - 0xDC00)) as char, s[10..])
  }

  /** The rest of a string literal, after its opening quote. */
  function ReadString(s: string): (r: Read<string>)
    ensures r.Ok? ==> |r.rest| < |s|
    decreases |s|
  {
    if s != "" && s[0] == '"' then Ok("", s[1..])
    else
      var c := ReadChar(s);
      if c.Fail? then Fail
      else
        var t := ReadString(c.rest);
        if t.Fail? then Fail else Ok([c.value] + t.value, t.rest)
  }

  /** How many digits a text starts with. */
  function DigitRun(s: string): (n: nat)
    ensures n <= |s| && AllDigits(s[..n])
    ensures n < |s| ==> !IsDigit(s[n])
  {
    if s != "" && IsDigit(s[0]) then 1 + DigitRun(s[1..]) else 0
  }

  function ReadNumber(s: string): (r: Read<nat>)
    ensures r.Ok? ==> |r.rest| < |s|
  {
    var n := DigitRun(s);
    if n == 0 || (n > 1 && s[0] == '0') then Fail else Ok(Denoted(s[..n]), s[n..])
  }

  function ReadValue(s: string): (r: Read<Value>)
    ensures r.Ok? ==> |r.rest| < |s|
    decreases |s|, 1
  {
    if s == "" then Fail
    else if s[0] == '"' then
      var t := ReadString(s[1..]);
      if t.Fail? then Fail else Ok(Str(t.value), t.rest)
    else if s[0] == '{' then
      if |s| >= 2 && s[1] == '}' then Ok(Obj(End), s[2..])
      else
        var ms := ReadMembers(s[1..]);
        if ms.Fail? then Fail else Ok(Obj(ms.value), ms.rest)
    else if |s| >= 4 && s[..4] == "true" then Ok(Bool(true), s[4..])
    else if |s| >= 5 && s[..5] == "false" then Ok(Bool(false), s[5..])
    else
      var n := ReadNumber(s);
      if n.Fail? then Fail else Ok(Num(n.value), n.rest)
  }

  /** One or more members, up to and including the closing brace. */
  function ReadMembers(s: string): (r: Read<Members>)
    ensures r.Ok? ==> |r.rest| < |s|
    decreases |s|, 0
  {
    if s == "" || s[0] != '"' then Fail
    else
      var k := ReadString(s[1..]);
      if k.Fail? || k.rest == "" || k.rest[0] != ':' then Fail
      else
        var v := ReadValue(k.rest[1..]);
        if v.Fail? || v.rest == "" then Fail
        else if v.rest[0] == '}' then Ok(Member(k.value, v.value, End), v.rest[1..])
        else if v.rest[0] != ',' then Fail
        else
          var more := ReadMembers(v.rest[1..]);
          if more.Fail? then Fail else Ok(Member(k.value, v.value, more.value), more.rest)
  }

  /** A whole text as one value. */
  function Parse(s: string): Option<Value> {
    var r := ReadValue(s);
    if r.Ok? && r.rest == "" then Some(r.value) else None
  }

  // ---- round trip ----

  lemma NibbleSum(n: nat)
    requires n < 0x10000
    ensures n / 4096 < 16
    ensures n / 4096 * 4096 + n / 256 % 16 * 256 + n / 16 % 16 * 16 + n % 16 == n
  {
    assert n / 256 == n / 16 / 16 && n / 4096 == n / 256 / 16;
  }

  lemma HexRead(a: nat, b: nat, c: nat, d: nat, s: string)
    requires a < 16 && b < 16 && c < 16 && d < 16 && |s| >= 4
    requires s[0] == HexChar(a) && s[1] == HexChar(b) && s[2] == HexChar(c) && s[3] == HexChar(d)
    ensures ReadHex4(s) == Some(a * 4096 + b * 256 + c * 16 + d)
  {
    HexDigit(a);
    HexDigit(b);
    HexDigit(c);
    HexDigit(d);
  }

  lemma HexRoundTrip(n: nat, rest: string)
    requires n < 0x10000
    ensures ReadHex4(Hex4(n) + rest) == Some(n) && |Hex4(n)| == 4
  {
    hide ReadHex4, HexChar;
    NibbleSum(n);
    HexRead(n / 4096, n / 256 % 16, n / 16 % 16, n % 16, Hex4(n) + rest);
  }

  lemma HexDigit(d: nat)
    requires d < 16
    ensures HexValue(HexChar(d)) == Some(d)
  {
  }

  lemma UnicodeRoundTrip(c: char, rest: string)
    requires c as int < 0xD800
    ensures ReadChar("\\u" + Hex4(c as int) + rest) == Ok(c, rest)
  {
    hide ReadHex4, Hex4;
    HexRoundTrip(c as int, rest);
    var s := "\\u" + Hex4(c as int) + rest;
    assert s[0] == '\\' && s[1] == 'u';
    assert s[2..] == Hex4(c as int) + rest;
    assert s[2..][4..] == rest;
  }

  lemma CharRoundTrip(c: char, rest: string)
    ensures ReadChar(EscapeChar(c) + rest) == Ok(c, rest)
    ensures EscapeChar(c)[0] != '"'
  {
    hide ReadHex4, Hex4;
    var e := EscapeChar(c);
    var s := e + rest;
    if e == [c] {
      assert s[1..] == rest;
    } else if (c < ' ' && c !in "\n\r\t\U{08}\U{0C}") || c in "<>&\U{2028}\U{2029}" {
      UnicodeRoundTrip(c, rest);
    } else {
      assert |e| == 2;
      assert s[2..] == rest;
    }
  }

  lemma {:induction false} StringRoundTrip(t: string, rest: string)
    ensures ReadString(Escape(t) + "\"" + rest) == Ok(t, rest)
    decreases |t|
  {
    var s := Escape(t) + "\"" + rest;
    if t == "" {
      assert s == "\"" + rest;
    } else {
      var after := Escape(t[1..]) + "\"" + rest;
      assert s == EscapeChar(t[0]) + after;
      CharRoundTrip(t[0], after);
      assert s[0] == EscapeChar(t[0])[0];
      StringRoundTrip(t[1..], rest);
      assert [t[0]] + t[1..] == t;
    }
  }

  /** The short escapes of RFC 8259, section 7: letter and code point. */
  const SHORT_ESCAPES: map<char, int> := map['"' := 0x22, '\\' := 0x5C, '/' := 0x2F, 'b' := 8, 'f' := 12, 'n' := 10, 'r' := 13, 't' := 9]

  /** A backslash and a letter read as the code point the standard gives them, and as nothing if it gives none;
      `u` takes four hexadecimal digits in either case. */
  lemma EscapesRead(letter: char, rest: string)
    requires letter != 'u'
    ensures ReadChar(['\\', letter] + rest)
         == if letter in SHORT_ESCAPES then Ok(SHORT_ESCAPES[letter] as char, rest) else Fail
  {
    var s := ['\\', letter] + rest;
    assert s[0] == '\\' && s[1] == letter && s[2..] == rest;
  }

  /** Escaping is injective. */
  lemma EscapeInjective(a: string, b: string)
    ensures Escape(a) == Escape(b) <==> a == b
  {
    StringRoundTrip(a, "");
    StringRoundTrip(b, "");
  }

  lemma {:induction false} DigitRunOf(d: string, rest: string)
    requires AllDigits(d) && (rest == "" || !IsDigit(rest[0]))
    ensures DigitRun(d + rest) == |d|
  {
    if d != "" {
      DigitRunOf(d[1..], rest);
      assert (d + rest)[1..] == d[1..] + rest;
    } else {
      assert d + rest == rest;
    }
  }

  lemma NumberRoundTrip(n: nat, rest: string)
    requires rest == "" || !IsDigit(rest[0])
    ensures ReadNumber(Render(n) + rest) == Ok(n, rest)
  {
    var d := Render(n);
    DecimalDenotes(n);
    DigitRunOf(d, rest);
    var s := d + rest;
    assert s[..|d|] == d && s[|d|..] == rest && s[0] == d[0];
    if n == 0 {
      assert |d| == 1;
    }
  }

  lemma QuotedRoundTrip(t: string, rest: string)
    ensures var s := Quote(t) + rest; s[0] == '"' && ReadString(s[1..]) == Ok(t, rest)
  {
    hide Escape, ReadString;
    StringRoundTrip(t, rest);
    assert (Quote(t) + rest)[1..] == Escape(t) + "\"" + rest;
  }

  lemma NumRoundTrip(n: nat, rest: string)
    requires rest == "" || !IsDigit(rest[0])
    ensures ReadValue(Print(Num(n)) + rest) == Ok(Num(n), rest)
  {
    NumberRoundTrip(n, rest);
    DecimalDenotes(n);
    var s := Render(n) + rest;
    assert s[0] == Render(n)[0] && IsDigit(s[0]);
    assert |s| >= 4 ==> s[..4][0] == s[0];
    assert |s| >= 5 ==> s[..5][0] == s[0];
  }

  lemma BoolRoundTrip(b: bool, rest: string)
    ensures ReadValue(Print(Bool(b)) + rest) == Ok(Bool(b), rest)
  {
    var p := Print(Bool(b));
    var s := p + rest;
    assert s[..|p|] == p && s[|p|..] == rest;
    assert s[0] == p[0];
    assert |s| >= 4 ==> s[..4][0] == s[0];
  }

  lemma {:induction false} ValueRoundTrip(v: Value, rest: string)
    requires v.Num? ==> rest == "" || !IsDigit(rest[0])
    ensures ReadValue(Print(v) + rest) == Ok(v, rest)
    decreases v
  {
    hide Escape, ReadString, ReadMembers, ReadNumber, Render;
    match v
    case Str(t) => QuotedRoundTrip(t, rest);
    case Num(n) => NumRoundTrip(n, rest);
    case Bool(b) => BoolRoundTrip(b, rest);
    case Obj(ms) =>
      if ms.Member? {
        MembersRoundTrip(ms, rest);
      }
      ObjectRoundTrip(ms, rest);
  }

  lemma ObjectRoundTrip(ms: Members, rest: string)
    requires ms.Member? ==> ReadMembers(PrintMembers(ms) + rest) == Ok(ms, rest)
    ensures ReadValue(Print(Obj(ms)) + rest) == Ok(Obj(ms), rest)
  {
    hide Escape, ReadString, ReadMembers, ReadNumber;
    var s := Print(Obj(ms)) + rest;
    assert s[0] == '{' && s[1..] == PrintMembers(ms) + rest;
    assert s[1] == s[1..][0];
    if ms.End? {
      assert s[2..] == rest;
    } else {
      FirstIsQuote(ms);
    }
  }

  lemma FirstIsQuote(ms: Members)
    requires ms.Member?
    ensures PrintMembers(ms)[0] == '"'
  {
  }

  /** What follows a member's value. */
  function After(ms: Members): string
    requires ms.Member?
  {
    if ms.rest.End? then "}" else "," + PrintMembers(ms.rest)
  }

  lemma MembersShape(ms: Members, rest: string)
    requires ms.Member?
    ensures PrintMembers(ms) + rest == Quote(ms.key) + (":" + (Print(ms.value) + (After(ms) + rest)))
  {
    hide Quote, Print, After;
    MemberPrints(ms);
    Regroup(Quote(ms.key), Print(ms.value), After(ms), rest);
  }

  lemma MemberPrints(ms: Members)
    requires ms.Member?
    ensures PrintMembers(ms) == Quote(ms.key) + ":" + Print(ms.value) + After(ms)
  {
  }

  lemma Regroup(k: string, v: string, after: string, rest: string)
    ensures (k + ":" + v + after) + rest == k + (":" + (v + (after + rest)))
  {
  }

  /** Reading a member whose key and value read as given. */
  function ReadOn(k: string, v: Value, follow: string): Read<Members> {
    if follow == "" then Fail
    else if follow[0] == '}' then Ok(Member(k, v, End), follow[1..])
    else if follow[0] != ',' then Fail
    else
      var more := ReadMembers(follow[1..]);
      if more.Fail? then Fail else Ok(Member(k, v, more.value), more.rest)
  }

  lemma MemberReads(s: string, k: string, tail: string, v: Value, follow: string)
    requires s != "" && s[0] == '"' && ReadString(s[1..]) == Ok(k, ":" + tail)
    requires ReadValue(tail) == Ok(v, follow)
    ensures ReadMembers(s) == ReadOn(k, v, follow)
  {
    assert (":" + tail)[1..] == tail;
  }

  lemma AfterStarts(ms: Members, rest: string)
    requires ms.Member?
    ensures var follow := After(ms) + rest;
            && follow != "" && !IsDigit(follow[0])
            && if ms.rest.End? then follow[0] == '}' && follow[1..] == rest
               else follow[0] == ',' && follow[1..] == PrintMembers(ms.rest) + rest
  {
    hide PrintMembers;
    var follow := After(ms) + rest;
    if ms.rest.End? {
      assert follow[1..] == rest;
    } else {
      assert follow[1..] == PrintMembers(ms.rest) + rest;
    }
  }

  /** The first member reads back, given that its value does. */
  lemma HeadRoundTrip(ms: Members, rest: string)
    requires ms.Member?
    requires ReadValue(Print(ms.value) + (After(ms) + rest)) == Ok(ms.value, After(ms) + rest)
    ensures ReadMembers(PrintMembers(ms) + rest) == ReadOn(ms.key, ms.value, After(ms) + rest)
  {
    hide PrintMembers, ReadMembers, ReadValue, Print;
    var follow := After(ms) + rest;
    var tail := Print(ms.value) + follow;
    MembersShape(ms, rest);
    QuotedRoundTrip(ms.key, ":" + tail);
    MemberReads(PrintMembers(ms) + rest, ms.key, tail, ms.value, follow);
  }

  lemma {:induction false} MembersRoundTrip(ms: Members, rest: string)
    requires ms.Member?
    ensures ReadMembers(PrintMembers(ms) + rest) == Ok(ms, rest)
    decreases ms
  {
    hide PrintMembers, ReadMembers, ReadValue, Print;
    AfterStarts(ms, rest);
    ValueRoundTrip(ms.value, After(ms) + rest);
    HeadRoundTrip(ms, rest);
    if ms.rest.Member? {
      MembersRoundTrip(ms.rest, rest);
    }
  }

  /** Reading inverts writing. */
  lemma RoundTrip(v: Value)
    ensures Parse(Print(v)) == Some(v)
  {
    ValueRoundTrip(v, "");
    assert Print(v) + "" == Print(v);
  }

  // ---- one value, one line ----

  lemma CharStaysOnLine(c: char)
    ensures NoNewline(EscapeChar(c))
  {
    if |EscapeChar(c)| > 2 {
      var n := c as int;
      HexPrintable(n / 4096);
      HexPrintable(n / 256 % 16);
      HexPrintable(n / 16 % 16);
      HexPrintable(n % 16);
    }
  }

  lemma HexPrintable(d: nat)
    requires d < 16
    ensures HexChar(d) != '\n'
  {
  }

  lemma {:induction false} EscapeStaysOnLine(s: string)
    ensures NoNewline(Escape(s))
  {
    if s != "" {
      CharStaysOnLine(s[0]);
      EscapeStaysOnLine(s[1..]);
    }
  }

  /** The characters a string literal must not hold as they are: the quote, the backslash and the control
      characters of RFC 8259, and those the encoder escapes besides, for HTML and for JavaScript. */
  predicate Special(c: char) {
    c == '"' || c == '\\' || c as int < 0x20 || c in "<>&" || c as int == 0x2028 || c as int == 0x2029
  }

  lemma EscapedChar(c: char)
    ensures EscapeChar(c) == [c] <==> !Special(c)
    ensures Special(c) ==> |EscapeChar(c)| >= 2 && EscapeChar(c)[0] == '\\'
    ensures forall i :: 1 <= i < |EscapeChar(c)| ==> !Special(EscapeChar(c)[i]) || EscapeChar(c)[i] in "\"\\"
  {
    if |EscapeChar(c)| > 2 {
      var n := c as int;
      HexIsPlain(n / 4096);
      HexIsPlain(n / 256 % 16);
      HexIsPlain(n / 16 % 16);
      HexIsPlain(n % 16);
    }
  }

  lemma HexIsPlain(d: nat)
    requires d < 16
    ensures !Special(HexChar(d))
  {
  }

  /** Escaping touches a text if and only if it holds a special character, and leaves none in the clear but
      quotes and backslashes that follow a backslash. */
  lemma {:induction false} EscapeTouches(s: string)
    ensures Escape(s) == s <==> forall i :: 0 <= i < |s| ==> !Special(s[i])
    ensures |Escape(s)| >= |s|
    ensures forall i :: 0 <= i < |Escape(s)| ==> !Special(Escape(s)[i]) || Escape(s)[i] in "\"\\"
  {
    hide EscapeChar, Special;
    if s != "" {
      EscapedChar(s[0]);
      EscapeTouches(s[1..]);
      var e, rest := EscapeChar(s[0]), Escape(s[1..]);
      assert Escape(s) == e + rest;
      OneCharEscapes(s[0]);
      if Escape(s) == s {
        assert |e| == 1;
        assert e == [s[0]] && rest == s[1..];
        forall i | 0 <= i < |s|
          ensures !Special(s[i])
        {
          assert i > 0 ==> s[i] == s[1..][i - 1];
        }
      }
    }
  }

  lemma OneCharEscapes(c: char)
    ensures |EscapeChar(c)| >= 1 && (|EscapeChar(c)| == 1 ==> EscapeChar(c) == [c])
    ensures Special(c) ==> |EscapeChar(c)| >= 2
    ensures !Special(c) ==> EscapeChar(c) == [c]
    ensures forall i :: 0 <= i < |EscapeChar(c)| ==> !Special(EscapeChar(c)[i]) || EscapeChar(c)[i] in "\"\\"
  {
    EscapedChar(c);
  }

  lemma {:induction false} PrintStaysOnLine(v: Value)
    ensures NoNewline(Print(v))
    decreases v
  {
    match v
    case Str(s) => EscapeStaysOnLine(s);
    case Num(n) => DecimalDenotes(n);
    case Bool(b) =>
    case Obj(ms) => MembersStayOnLine(ms);
  }

  lemma EndPrints()
    ensures PrintMembers(End) == "}"
  {
  }

  lemma {:induction false} MembersStayOnLine(ms: Members)
    ensures NoNewline(PrintMembers(ms)) && PrintMembers(ms) != "" && PrintMembers(ms)[|PrintMembers(ms)| - 1] == '}'
    decreases ms
  {
    hide Escape, Print, PrintMembers;
    if ms.Member? {
      EscapeStaysOnLine(ms.key);
      PrintStaysOnLine(ms.value);
      MembersStayOnLine(ms.rest);
      MembersShape(ms, "");
      var head := Quote(ms.key) + (":" + Print(ms.value));
      assert NoNewline(head);
      var p := PrintMembers(ms.rest);
      assert After(ms) == if ms.rest.End? then "}" else "," + p;
      var q := After(ms);
      assert q[|q| - 1] == if ms.rest.End? then '}' else p[|p| - 1];
      assert NoNewline(q) && q[|q| - 1] == '}';
      assert PrintMembers(ms) + "" == PrintMembers(ms);
      assert PrintMembers(ms) == head + After(ms);
    } else {
      EndPrints();
    }
  }

  /** A printed object survives trimming and stays on one line. */
  lemma ObjectLine(ms: Members)
    ensures NoNewline(Print(Obj(ms))) && Print(Obj(ms)) != ""
    ensures Trim(JsSpace, Print(Obj(ms))) == Print(Obj(ms))
  {
    PrintStaysOnLine(Obj(ms));
    MembersStayOnLine(ms);
    var s := Print(Obj(ms));
    assert s[0] == '{' && s[|s| - 1] == '}';
    TrimIdentity(JsSpace, s);
  }

  // ---- access ----

  /** Property lookup; a repeated key keeps its last value. */
  function Get(ms: Members, key: string): Option<Value> {
    match ms
    case End => None
    case Member(k, v, rest) =>
      var later := Get(rest, key);
      if later.Some? then later else if k == key then Some(v) else None
  }

  function Field(v: Value, key: string): Option<Value> {
    if v.Obj? then Get(v.members, key) else None
  }
}
