/** What an upstream body says, event by event, and that both adapters hear exactly that. */
module Upstream {
  import opened Types
  import opened Text
  import opened Adapters

  /** What a payload decodes to. */
  datatype Meaning =
    | Chunk(content: string, finish: string, more: seq<Delta>)   // at least one choice
    | Plain(content: string)                                     // no choice, but a content string
    | Unknown

  /** One line of the body: a data line, with any white space around its parts, or another line. */
  datatype Event =
    | Data(before: string, field: string, between: string, text: string, after: string, meaning: Meaning)
    | Noise(before: string, rest: string)

  /** The field name, in any letter case, with its colon. */
  predicate NamesData(s: string) {
    && |s| == 5
    && forall i :: 0 <= i < 5 ==> s[i] == "data:"[i] || s[i] == "DATA:"[i]
  }

  predicate Blank(s: string) { AllSpace(GoSpace, s) && NoNewline(s) }

  predicate WellFormed(e: Event) {
    match e
    case Data(before, field, between, text, after, _) =>
      && Blank(before) && Blank(between) && Blank(after) && NamesData(field)
      && NoNewline(text) && Trimmed(GoSpace, text) && text != "[DONE]"
    case Noise(before, rest) =>
      && Blank(before) && NoNewline(rest) && (rest != "" ==> !GoSpace(rest[0]))
      && !(|rest| >= 5 && NamesData(rest[..5]))
  }

  predicate Decodes(decode: string -> Decoded, e: Event) {
    e.Data? ==>
      var d := decode(e.text);
      match e.meaning
      case Chunk(content, finish, more) => d.choices == Some([Delta(content, finish)] + more)
      case Plain(content) => (d.choices == None || d.choices == Some([])) && d.content == Some(content)
      case Unknown => (d.choices == None || d.choices == Some([])) && d.content == None
  }

  ghost predicate Faithful(decode: string -> Decoded, es: seq<Event>) {
    forall i :: 0 <= i < |es| ==> WellFormed(es[i]) && Decodes(decode, es[i])
  }

  function LineOf(e: Event): string {
    match e
    case Data(before, field, between, text, after, _) => before + field + between + text + after
    case Noise(before, rest) => before + rest
  }

  function Body(es: seq<Event>): string {
    if es == [] then "" else LineOf(es[0]) + "\n" + Body(es[1..])
  }

  /** The tokens of an event: the content of its first choice; for the server adapter also plain content. */
  function TokenOf(e: Event, server: bool): string {
    if e.Noise? then ""
    else
      match e.meaning
      case Chunk(content, _, _) => content
      case Plain(content) => if server then content else ""
      case Unknown => ""
  }

  function Deltas(es: seq<Event>, server: bool): seq<string> {
    if es == [] then []
    else (if TokenOf(es[0], server) == "" then [] else [TokenOf(es[0], server)]) + Deltas(es[1..], server)
  }

  function FinishOf(e: Event): string {
    if e.Data? && e.meaning.Chunk? then e.meaning.finish else ""
  }

  /** The last finish reason given, if any. */
  function FinalFinish(es: seq<Event>): string {
    if es == [] then ""
    else
      var later := FinalFinish(es[1..]);
      if later != "" then later else FinishOf(es[0])
  }

  function Texts(es: seq<Event>): seq<string> {
    if es == [] then [] else (if es[0].Data? then [es[0].text] else []) + Texts(es[1..])
  }

  // ---- lines ----

  function Optional(p: Option<string>): seq<string> { if p.Some? then [p.value] else [] }

  lemma NewlineTrims(line: string)
    ensures Payload(line + "\n") == Payload(line)
  {
    hide TrimLeft, TrimRight, HasDataPrefix;
    var a, b := TrimSplits(GoSpace, line);
    var t := Trim(GoSpace, line);
    assert line + "\n" == a + t + (b + "\n");
    TrimPadded(GoSpace, a, t, b + "\n");
  }

  /** A terminated line contributes its payload, whatever follows. */
  lemma PayloadsLine(line: string, rest: string)
    requires NoNewline(line)
    ensures Payloads(line + "\n" + rest) == Optional(Payload(line)) + Payloads(rest)
  {
    hide Payload;
    var body := line + "\n" + rest;
    assert body == line + ("\n" + rest);
    NewlineAfter(line, "\n" + rest);
    assert NextLine(body) == line + "\n";
    assert body[|line + "\n"|..] == rest;
    NewlineTrims(line);
  }

  /** So does an unterminated last line. */
  lemma PayloadsLast(line: string)
    requires NoNewline(line)
    ensures Payloads(line) == if line == "" then [] else Optional(Payload(line))
  {
    hide Payload;
    NewlineAfter(line, "");
    assert line + "" == line;
    if line != "" {
      assert NextLine(line) == line && line[|line|..] == "";
      assert Payloads("") == [];
      assert Optional(Payload(line)) + [] == Optional(Payload(line));
    }
  }

  lemma PrefixNamesData(l: string)
    ensures HasDataPrefix(l) <==> |l| >= 5 && NamesData(l[..5])
  {
    if |l| >= 5 {
      var s := l[..5];
      assert s[0] == l[0] && s[1] == l[1] && s[2] == l[2] && s[3] == l[3] && s[4] == l[4];
      FieldLetters(s);
    }
  }

  lemma FieldLetters(s: string)
    requires |s| == 5
    ensures NamesData(s)
            <==> s[0] in "dD" && s[1] in "aA" && s[2] in "tT" && s[3] in "aA" && s[4] == ':'
  {
    var low, up := "data:", "DATA:";
    assert low[0] == 'd' && low[1] == 'a' && low[2] == 't' && low[3] == 'a' && low[4] == ':';
    assert up[0] == 'D' && up[1] == 'A' && up[2] == 'T' && up[3] == 'A' && up[4] == ':';
    if s[0] in "dD" && s[1] in "aA" && s[2] in "tT" && s[3] in "aA" && s[4] == ':' {
      forall i | 0 <= i < 5
        ensures s[i] == low[i] || s[i] == up[i]
      {
      }
    }
  }

  lemma FieldIsTrimmed(field: string)
    requires NamesData(field)
    ensures !GoSpace(field[0]) && !GoSpace(field[4])
  {
    FieldLetters(field);
  }

  /** A data line's payload is its text, in any case and with any padding. */
  lemma DataPayload(e: Event)
    requires e.Data? && WellFormed(e)
    ensures Payload(LineOf(e)) == Some(e.text)
  {
    hide TrimLeft, TrimRight, Trim, HasDataPrefix;
    var value := if e.text == "" then "" else e.between + e.text;
    var core := e.field + value;
    FieldIsTrimmed(e.field);
    assert |e.field| == 5;
    if e.text == "" {
      assert LineOf(e) == e.before + core + (e.between + e.after);
      assert core == e.field;
      TrimPadded(GoSpace, e.before, core, e.between + e.after);
      TrimPadded(GoSpace, "", "", "");
      assert "" + "" + "" == "" == value;
    } else {
      assert LineOf(e) == e.before + core + e.after;
      assert core[|core| - 1] == e.text[|e.text| - 1] && core[0] == e.field[0];
      TrimPadded(GoSpace, e.before, core, e.after);
      TrimPadded(GoSpace, e.between, e.text, "");
      assert e.between + e.text + "" == value;
    }
    assert Trim(GoSpace, LineOf(e)) == core;
    assert Trim(GoSpace, value) == e.text;
    assert core[..5] == e.field && core[5..] == value;
    PrefixNamesData(core);
    assert HasDataPrefix(core) && core != "";
  }

  /** A line that does not name the data field contributes nothing. */
  lemma NoisePayload(e: Event)
    requires e.Noise? && WellFormed(e)
    ensures Payload(LineOf(e)) == None
  {
    hide HasDataPrefix, TrimRight;
    TrimLeftPadded(GoSpace, e.before, e.rest);
    var b := TrimRightSplits(GoSpace, e.rest);
    var l := TrimRight(GoSpace, e.rest);
    assert Trim(GoSpace, LineOf(e)) == l;
    PrefixNamesData(l);
    assert |l| >= 5 ==> l[..5] == e.rest[..5];
  }

  lemma LineIsPlain(e: Event)
    requires WellFormed(e)
    ensures NoNewline(LineOf(e))
    ensures Payload(LineOf(e)) == if e.Data? then Some(e.text) else None
  {
    hide Payload;
    if e.Data? {
      DataPayload(e);
    } else {
      NoisePayload(e);
    }
  }

  lemma {:induction false} BodyPayloads(es: seq<Event>, rest: string)
    requires forall i :: 0 <= i < |es| ==> WellFormed(es[i])
    ensures Payloads(Body(es) + rest) == Texts(es) + Payloads(rest)
  {
    hide Payload, Payloads, LineOf, WellFormed;
    if es == [] {
      assert Body(es) + rest == rest;
    } else {
      BodyPayloads(es[1..], rest);
      LineIsPlain(es[0]);
      PayloadsLine(LineOf(es[0]), Body(es[1..]) + rest);
      assert Body(es) + rest == LineOf(es[0]) + "\n" + (Body(es[1..]) + rest);
    }
  }

  /** The line that ends a stream. */
  lemma DonePayloads(rest: string)
    ensures Payloads("data: [DONE]" + "\n" + rest) == ["[DONE]"] + Payloads(rest)
  {
    hide Payload;
    PayloadsLine("data: [DONE]", rest);
    DoneLine();
  }

  lemma DoneLine()
    ensures Payload("data: [DONE]") == Some("[DONE]")
  {
    hide TrimLeft, TrimRight;
    var l := "data: [DONE]";
    TrimPadded(GoSpace, "", l, "");
    assert "" + l + "" == l;
    assert l[5..] == " [DONE]" == " " + "[DONE]" + "";
    TrimPadded(GoSpace, " ", "[DONE]", "");
  }

  // ---- what the adapters hear ----

  lemma {:induction false} TextsBeforeDone(es: seq<Event>, more: seq<string>)
    requires forall i :: 0 <= i < |es| ==> WellFormed(es[i])
    requires more == [] || more[0] == "[DONE]"
    ensures UntilDone(Texts(es) + more) == Texts(es)
  {
    hide LineOf;
    if es == [] {
      assert Texts(es) + more == more;
    } else {
      TextsBeforeDone(es[1..], more);
      assert WellFormed(es[0]);
      if es[0].Data? {
        assert Texts(es) + more == [es[0].text] + (Texts(es[1..]) + more);
        assert (Texts(es) + more)[1..] == Texts(es[1..]) + more;
      } else {
        assert Texts(es) + more == Texts(es[1..]) + more;
      }
    }
  }

  lemma {:induction false} TextsMean(decode: string -> Decoded, es: seq<Event>, finish: string)
    requires Faithful(decode, es)
    ensures Tokens(ServerPick, decode, Texts(es)) == Deltas(es, true)
    ensures Tokens(SubprocessPick, decode, Texts(es)) == Deltas(es, false)
    ensures var f := if FinalFinish(es) == "" then finish else FinalFinish(es);
            LastFinish(ServerPick, decode, Texts(es), finish) == f && LastFinish(SubprocessPick, decode, Texts(es), finish) == f
  {
    if es != [] {
      var e, rest := es[0], es[1..];
      assert WellFormed(e) && Decodes(decode, e);
      TextsMean(decode, rest, if FinishOf(e) == "" then finish else FinishOf(e));
      if e.Data? {
        assert Texts(es)[0] == e.text && Texts(es)[1..] == Texts(rest);
      } else {
        assert Texts(es) == Texts(rest);
      }
    }
  }

  /** The ends of a body: a literal end mark, with anything on the lines after it, or a clean close. */
  predicate Ends(tail: string, end: BodyEnd) {
    (tail == "" && end.Eof?) || tail == "data: [DONE]" || (|tail| >= 13 && tail[..13] == "data: [DONE]\n")
  }

  /** Both adapters hear a body as its events: the tokens, the finish reason, and that it ended. */
  lemma BodyHeard(decode: string -> Decoded, es: seq<Event>, tail: string, end: BodyEnd)
    requires Faithful(decode, es) && Ends(tail, end)
    ensures var us := UntilDone(Payloads(Body(es) + tail));
            && Tokens(ServerPick, decode, us) == Deltas(es, true)
            && Tokens(SubprocessPick, decode, us) == Deltas(es, false)
            && LastFinish(ServerPick, decode, us, "") == LastFinish(SubprocessPick, decode, us, "") == FinalFinish(es)
            && (end.Eof? || DONE in Payloads(Body(es) + tail))
  {
    hide Payload, Payloads, WellFormed, Decodes, Tokens, LastFinish, UntilDone;
    assert forall i :: 0 <= i < |es| ==> WellFormed(es[i]);
    BodyPayloads(es, tail);
    TextsMean(decode, es, "");
    if tail == "" {
      NoPayloads();
      TextsBeforeDone(es, []);
    } else if tail == "data: [DONE]" {
      PayloadsLast(tail);
      DoneLine();
      TextsBeforeDone(es, ["[DONE]"]);
      assert ["[DONE]"][0] == DONE;
    } else {
      var rest := tail[13..];
      assert tail == "data: [DONE]" + "\n" + rest;
      DonePayloads(rest);
      TextsBeforeDone(es, ["[DONE]"] + Payloads(rest));
      assert (["[DONE]"] + Payloads(rest))[0] == DONE;
    }
  }

  lemma NoPayloads()
    ensures Payloads("") == []
  {
  }
}
