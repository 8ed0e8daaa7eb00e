/** The consumers of the NDJSON stream: the two web pages and the line logger. Each gets the text in
    arbitrary chunks and cuts it at newlines as it goes. */
module Readers {
  import opened Types
  import opened Text
  import opened JsonText

  /** Trimmed lines, blank ones dropped. */
  function Keep(ls: seq<string>): seq<string> {
    if ls == [] then []
    else
      var l := Trim(JsSpace, ls[0]);
      (if l == "" then [] else [l]) + Keep(ls[1..])
  }

  /** Every non-blank line of a text, the unterminated last one included. */
  function Collected(s: string): seq<string> {
    var t := Trim(JsSpace, Tail(s));
    Keep(Lines(s)) + (if t == "" then [] else [t])
  }

  lemma KeepCons(l: string, ls: seq<string>)
    ensures Keep([l] + ls) == (if Trim(JsSpace, l) == "" then [] else [Trim(JsSpace, l)]) + Keep(ls)
  {
    hide TrimLeft, TrimRight;
    assert ([l] + ls)[1..] == ls;
  }

  lemma {:induction false} KeepSplit(a: seq<string>, b: seq<string>)
    ensures Keep(a + b) == Keep(a) + Keep(b)
  {
    hide Keep, TrimLeft, TrimRight;
    if a == [] {
      KeepNone();
      assert a + b == b && [] + Keep(b) == Keep(b);
    } else {
      KeepSplit(a[1..], b);
      KeepCons(a[0], a[1..] + b);
      KeepCons(a[0], a[1..]);
      assert a + b == [a[0]] + (a[1..] + b) && a == [a[0]] + a[1..];
    }
  }

  /** What is kept of some lines: exactly their trimmed forms that are not blank. With KeepSplit, in order. */
  lemma {:induction false} KeepElements(ls: seq<string>, x: string)
    ensures x in Keep(ls) <==> x != "" && exists i :: 0 <= i < |ls| && Trim(JsSpace, ls[i]) == x
  {
    hide TrimLeft, TrimRight;
    if ls != [] {
      var l := Trim(JsSpace, ls[0]);
      KeepElements(ls[1..], x);
      assert Keep(ls) == (if l == "" then [] else [l]) + Keep(ls[1..]);
      if x in Keep(ls[1..]) {
        var i :| 0 <= i < |ls[1..]| && Trim(JsSpace, ls[1..][i]) == x;
        assert Trim(JsSpace, ls[i + 1]) == x;
      }
      if x != "" && x != l && exists i :: 0 <= i < |ls| && Trim(JsSpace, ls[i]) == x {
        var i :| 0 <= i < |ls| && Trim(JsSpace, ls[i]) == x;
        assert ls[1..][i - 1] == ls[i];
      }
    }
  }

  lemma KeepFirst(s: string)
    requires Newline(s) < |s|
    ensures var i := Newline(s);
            var l := Trim(JsSpace, s[..i]);
            && Keep(Lines(s)) == (if l == "" then [] else [l]) + Keep(Lines(s[i + 1..]))
            && Tail(s) == Tail(s[i + 1..])
  {
    hide TrimLeft, TrimRight, Keep, Lines, Tail, Newline;
    var line, rest := s[..Newline(s)], s[Newline(s) + 1..];
    assert Lines(s) == [line] + Lines(rest) && Tail(s) == Tail(rest) by {
      Cut(s);
    }
    KeepCons(line, Lines(rest));
  }

  lemma KeepContinues(a: string, b: string)
    ensures Keep(Lines(a + b)) == Keep(Lines(a)) + Keep(Lines(Tail(a) + b))
    ensures Tail(a + b) == Tail(Tail(a) + b)
  {
    LinesContinue(a, b);
    KeepSplit(Lines(a), Lines(Tail(a) + b));
  }

  lemma ConcatNext(chunks: seq<string>, n: nat)
    requires n < |chunks|
    ensures Concat(chunks[..n + 1]) == Concat(chunks[..n]) + chunks[n]
  {
    assert chunks[..n + 1][..n] == chunks[..n];
  }

  // ---- InferPage ----

  /** runLive's reader: collects the lines, whatever the chunking. */
  method InferPageLines(chunks: seq<string>) returns (lines: seq<string>)
    ensures lines == Collected(Concat(chunks))
  {
    hide Keep, Lines, Tail, Newline, TrimLeft, TrimRight, Concat;
    var buffered := "";
    lines := [];
    Empty();
    assert chunks[..0] == [];
    for n := 0 to |chunks|
      invariant lines == Keep(Lines(Concat(chunks[..n]))) && buffered == Tail(Concat(chunks[..n]))
    {
      ghost var before := Concat(chunks[..n]);
      ConcatNext(chunks, n);
      KeepContinues(before, chunks[n]);
      buffered := buffered + chunks[n];
      ghost var all, tail := lines + Keep(Lines(buffered)), Tail(buffered);
      while Newline(buffered) < |buffered|
        invariant lines + Keep(Lines(buffered)) == all && Tail(buffered) == tail
        decreases |buffered|
      {
        KeepFirst(buffered);
        var idx := Newline(buffered);
        var line := Trim(JsSpace, buffered[..idx]);
        buffered := buffered[idx + 1..];
        if line != "" {
          lines := lines + [line];
        }
      }
      Cut(buffered);
      KeepNone();
    }
    assert chunks[..|chunks|] == chunks;
    var last := Trim(JsSpace, buffered);
    if last != "" {
      lines := lines + [last];
    }
  }

  lemma Empty()
    ensures Keep(Lines(Concat([]))) == [] && Tail(Concat([])) == ""
  {
  }

  lemma KeepNone()
    ensures Keep([]) == []
  {
  }

  // ---- HaikuPage ----

  function AsString(v: Option<Value>): Option<string> {
    if v.Some? && v.value.Str? then Some(v.value.s) else None
  }

  predicate IsDone(v: Value) { Field(v, "done") == Some(Bool(true)) }

  /** What a parsed line does to the content: a token appends, a closing line replaces. */
  function Absorb(v: Option<Value>, content: string): string {
    if v.None? then content
    else
      var t := AsString(Field(v.value, "token"));
      var c := if t.Some? then content + t.value else content;
      var whole := AsString(Field(v.value, "content"));
      if IsDone(v.value) && whole.Some? then whole.value else c
  }

  /** A line that is not a closing one only ever adds to the content. */
  lemma NotDoneOnlyAppends(v: Value, content: string)
    requires Field(v, "done") != Some(Bool(true))
    ensures Absorb(Some(v), content)
         == content + (if Field(v, "token").Some? && Field(v, "token").value.Str? then Field(v, "token").value.s else "")
    ensures Close(Some(v), content) == content
  {
    assert content + "" == content;
  }

  function AbsorbAll(parse: string -> Option<Value>, lines: seq<string>): string {
    if lines == [] then ""
    else Absorb(parse(lines[|lines| - 1]), AbsorbAll(parse, lines[..|lines| - 1]))
  }

  /** What an unterminated last line does: only a closing line counts. */
  function Close(v: Option<Value>, content: string): string {
    if v.None? then content
    else
      var whole := AsString(Field(v.value, "content"));
      if IsDone(v.value) && whole.Some? then whole.value else content
  }

  function NonBlank(v: Option<Value>): Option<string> {
    var t := AsString(v);
    if t.Some? && Trim(JsSpace, t.value) != "" then t else None
  }

  /** With nothing collected, the last line is asked for any text it has. */
  function Fallback(v: Option<Value>): string {
    if v.None? then ""
    else if NonBlank(Field(v.value, "content")).Some? then NonBlank(Field(v.value, "content")).value
    else if NonBlank(Field(v.value, "completion")).Some? then NonBlank(Field(v.value, "completion")).value
    else if NonBlank(Field(v.value, "token")).Some? then NonBlank(Field(v.value, "token")).value
    else ""
  }

  function HaikuContent(parse: string -> Option<Value>, text: string): string {
    var last := Trim(JsSpace, Tail(text));
    var lines := Collected(text);
    var c := AbsorbAll(parse, Keep(Lines(text)));
    var d := if last == "" then c else Close(parse(last), c);
    if d != "" then d else if lines == [] then "" else Fallback(parse(lines[|lines| - 1]))
  }

  /** generate's reader: rebuilds the content, whatever the chunking. */
  method HaikuRead(chunks: seq<string>, parse: string -> Option<Value>) returns (lines: seq<string>, content: string)
    ensures lines == Collected(Concat(chunks))
    ensures content == HaikuContent(parse, Concat(chunks))
  {
    hide Keep, Lines, Tail, Newline, TrimLeft, TrimRight, Concat, Absorb, Close, Fallback;
    var buffered := "";
    content := "";
    lines := [];
    Empty();
    assert chunks[..0] == [];
    for n := 0 to |chunks|
      invariant lines == Keep(Lines(Concat(chunks[..n]))) && buffered == Tail(Concat(chunks[..n]))
      invariant content == AbsorbAll(parse, lines)
    {
      ghost var before := Concat(chunks[..n]);
      ConcatNext(chunks, n);
      KeepContinues(before, chunks[n]);
      buffered := buffered + chunks[n];
      ghost var all, tail := lines + Keep(Lines(buffered)), Tail(buffered);
      while Newline(buffered) < |buffered|
        invariant lines + Keep(Lines(buffered)) == all && Tail(buffered) == tail
        invariant content == AbsorbAll(parse, lines)
        decreases |buffered|
      {
        KeepFirst(buffered);
        var idx := Newline(buffered);
        var line := Trim(JsSpace, buffered[..idx]);
        buffered := buffered[idx + 1..];
        if line == "" {
          continue;
        }
        assert (lines + [line])[..|lines|] == lines;
        lines := lines + [line];
        content := Absorb(parse(line), content);
      }
      Cut(buffered);
      KeepNone();
    }
    assert chunks[..|chunks|] == chunks;
    var last := Trim(JsSpace, buffered);
    if last != "" {
      lines := lines + [last];
      content := Close(parse(last), content);
    }
    if content == "" && lines != [] {
      content := Fallback(parse(lines[|lines| - 1]));
    }
  }

  // ---- HaikuPage without a stream reader ----

  /** What a parsed line does to the content there: a completion fills in while there is none. */
  function AbsorbWhole(v: Option<Value>, content: string): string {
    if v.None? then content
    else
      var c := Absorb(v, content);
      var completion := AsString(Field(v.value, "completion"));
      if c == "" && completion.Some? then completion.value else c
  }

  function AbsorbAllWhole(parse: string -> Option<Value>, lines: seq<string>): string {
    if lines == [] then ""
    else AbsorbWhole(parse(lines[|lines| - 1]), AbsorbAllWhole(parse, lines[..|lines| - 1]))
  }

  function WholeContent(parse: string -> Option<Value>, text: string): string {
    var lines := Collected(text);
    var c := AbsorbAllWhole(parse, lines);
    if c != "" || lines == [] then c
    else
      var v := parse(lines[|lines| - 1]);
      var whole := if v.Some? then AsString(Field(v.value, "content")) else None;
      if whole.Some? then whole.value else c
  }

  /** text.split('\n') */
  function Split(text: string): seq<string> { Lines(text) + [Tail(text)] }

  lemma KeepOne(l: string)
    ensures Keep([l]) == if Trim(JsSpace, l) == "" then [] else [Trim(JsSpace, l)]
  {
    hide TrimLeft, TrimRight;
    assert [l] == [l] + [];
    KeepCons(l, []);
    KeepNone();
  }

  lemma KeepNext(ls: seq<string>, n: nat)
    requires n < |ls|
    ensures Keep(ls[..n + 1]) == Keep(ls[..n]) + if Trim(JsSpace, ls[n]) == "" then [] else [Trim(JsSpace, ls[n])]
  {
    hide Keep, TrimLeft, TrimRight;
    KeepSplit(ls[..n], [ls[n]]);
    KeepOne(ls[n]);
    assert ls[..n + 1] == ls[..n] + [ls[n]];
  }

  lemma KeepAll(text: string)
    ensures Keep(Split(text)) == Collected(text)
  {
    hide Keep, Lines, Tail, TrimLeft, TrimRight;
    KeepSplit(Lines(text), [Tail(text)]);
    KeepOne(Tail(text));
  }

  /** generate's path for browsers without a stream reader: the lines are those of the streaming path. */
  method HaikuReadWhole(text: string, parse: string -> Option<Value>) returns (lines: seq<string>, content: string)
    ensures lines == Collected(text)
    ensures content == WholeContent(parse, text)
  {
    hide Keep, Split, TrimLeft, TrimRight, AbsorbWhole, Get;
    var raws := Split(text);
    content := "";
    lines := [];
    KeepNone();
    assert raws[..0] == [];
    for n := 0 to |raws|
      invariant lines == Keep(raws[..n]) && content == AbsorbAllWhole(parse, lines)
    {
      KeepNext(raws, n);
      var line := Trim(JsSpace, raws[n]);
      if line == "" {
        continue;
      }
      assert (lines + [line])[..|lines|] == lines;
      lines := lines + [line];
      content := AbsorbWhole(parse(line), content);
    }
    assert raws[..|raws|] == raws;
    KeepAll(text);
    if content == "" && |lines| > 0 {
      var obj := parse(lines[|lines| - 1]);
      if obj.Some? {
        var whole := AsString(Field(obj.value, "content"));
        if whole.Some? {
          content := whole.value;
        }
      }
    }
  }

  // ---- the line logger ----

  function NonEmpty(ls: seq<string>): seq<string> {
    if ls == [] then [] else (if ls[0] == "" then [] else [ls[0]]) + NonEmpty(ls[1..])
  }

  lemma NonEmptyCons(l: string, ls: seq<string>)
    ensures NonEmpty([l] + ls) == (if l == "" then [] else [l]) + NonEmpty(ls)
  {
    assert ([l] + ls)[1..] == ls;
  }

  lemma {:induction false} NonEmptySplit(a: seq<string>, b: seq<string>)
    ensures NonEmpty(a + b) == NonEmpty(a) + NonEmpty(b)
  {
    hide NonEmpty;
    if a == [] {
      NonEmptyNone();
      assert a + b == b && [] + NonEmpty(b) == NonEmpty(b);
    } else {
      NonEmptySplit(a[1..], b);
      NonEmptyCons(a[0], a[1..] + b);
      NonEmptyCons(a[0], a[1..]);
      assert a + b == [a[0]] + (a[1..] + b) && a == [a[0]] + a[1..];
    }
  }

  /** What is logged of some lines: exactly those that are not empty. With NonEmptySplit, in order. */
  lemma {:induction false} NonEmptyElements(ls: seq<string>, x: string)
    ensures x in NonEmpty(ls) <==> x != "" && x in ls
  {
    if ls != [] {
      NonEmptyElements(ls[1..], x);
    }
  }

  lemma NonEmptyNone()
    ensures NonEmpty([]) == []
  {
  }

  class LoggingLineWriter {
    var buf: string
    var logged: seq<string>
    ghost var fed: string   // everything written so far

    /** The log holds the non-empty complete lines of everything written, the buffer what follows. */
    ghost predicate Valid()
      reads this
    {
      logged == NonEmpty(Lines(fed)) && buf == Tail(fed)
    }

    constructor ()
      ensures Valid() && fed == ""
    {
      buf := "";
      logged := [];
      fed := "";
    }

    /** Incremental line splitting is chunk-independent: Valid ties the state to the concatenation of
        all writes, however it was cut up. */
    method Write(p: string) returns (n: nat)
      requires Valid()
      modifies this
      ensures Valid() && fed == old(fed) + p && n == |p|
      ensures old(logged) <= logged && NoNewline(buf)
    {
      hide NonEmpty, Lines, Tail, Newline;
      LinesContinue(fed, p);
      NonEmptySplit(Lines(fed), Lines(Tail(fed) + p));
      fed := fed + p;
      buf := buf + p;
      ghost var all, tail := NonEmpty(Lines(fed)), Tail(fed);
      ghost var start := logged;
      while Newline(buf) < |buf|
        invariant logged + NonEmpty(Lines(buf)) == all && Tail(buf) == tail && start <= logged
        invariant fed == old(fed) + p
        decreases |buf|
      {
        FirstLine(buf);
        var idx := Newline(buf);
        var line := buf[..idx];
        if |line| > 0 {
          logged := logged + [line];
        }
        buf := buf[idx + 1..];
      }
      LastLine(buf);
      SplitIsPlain(fed);
      n := |p|;
    }
  }

  lemma FirstLine(s: string)
    requires Newline(s) < |s|
    ensures var i := Newline(s);
            && NonEmpty(Lines(s)) == (if s[..i] == "" then [] else [s[..i]]) + NonEmpty(Lines(s[i + 1..]))
            && Tail(s) == Tail(s[i + 1..])
  {
    hide NonEmpty, Lines, Tail, Newline;
    var line, rest := s[..Newline(s)], s[Newline(s) + 1..];
    assert Lines(s) == [line] + Lines(rest) && Tail(s) == Tail(rest) by {
      Cut(s);
    }
    NonEmptyCons(line, Lines(rest));
  }

  lemma LastLine(s: string)
    requires Newline(s) == |s|
    ensures NonEmpty(Lines(s)) == [] && Tail(s) == s
  {
    hide Newline;
    Cut(s);
  }
}
