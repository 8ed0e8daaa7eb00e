/** From the upstream event stream to what the web pages show. */
module Streaming {
  import opened Types
  import opened Text
  import opened JsonText
  import opened Output
  import opened Adapters
  import opened Sessions
  import opened Upstream
  import opened Inference
  import opened Readers

  /** The token lines, without their newlines. */
  function TokenTexts(toks: seq<string>): seq<string> {
    if toks == [] then [] else TokenTexts(toks[..|toks| - 1]) + [TokenText(toks[|toks| - 1])]
  }

  function WholeLines(toks: seq<string>, content: string, finish: string, usage: Usage): seq<string> {
    TokenTexts(toks) + [FinalText(content, finish, usage)]
  }

  predicate PlainLine(l: string) { NoNewline(l) && l != "" && Trim(JsSpace, l) == l }

  lemma {:induction false} TokenTextsPlain(toks: seq<string>)
    ensures |TokenTexts(toks)| == |toks|
    ensures forall i :: 0 <= i < |toks| ==> TokenTexts(toks)[i] == TokenText(toks[i]) && PlainLine(TokenTexts(toks)[i])
    ensures TokenLines(toks) == Joined(TokenTexts(toks))
  {
    hide TokenText, TrimLeft, TrimRight;
    if toks != [] {
      var n := |toks| - 1;
      TokenTextsPlain(toks[..n]);
      TokenTextPlain(toks[n]);
      JoinedSplit(TokenTexts(toks[..n]), [TokenText(toks[n])]);
      JoinedOne(TokenText(toks[n]));
    }
  }

  lemma TokenTextPlain(tok: string)
    ensures PlainLine(TokenText(tok)) && Parse(TokenText(tok)) == Some(Obj(Member("token", Str(tok), End)))
  {
    hide Print, TrimLeft, TrimRight, ReadValue;
    ObjectLine(Member("token", Str(tok), End));
    RoundTrip(Obj(Member("token", Str(tok), End)));
  }

  lemma FinalTextPlain(content: string, finish: string, usage: Usage)
    ensures PlainLine(FinalText(content, finish, usage))
    ensures Parse(FinalText(content, finish, usage)) == Some(Obj(FinalMembers(content, finish, usage)))
  {
    hide Print, TrimLeft, TrimRight, ReadValue;
    ObjectLine(FinalMembers(content, finish, usage));
    RoundTrip(Obj(FinalMembers(content, finish, usage)));
  }

  lemma JoinedOne(l: string)
    ensures Joined([l]) == l + "\n"
  {
    assert [l][1..] == [] && Joined([]) == "";
  }

  lemma {:induction false} KeepPlain(ls: seq<string>)
    requires forall i :: 0 <= i < |ls| ==> PlainLine(ls[i])
    ensures Keep(ls) == ls
  {
    hide TrimLeft, TrimRight;
    if ls != [] {
      assert PlainLine(ls[0]);
      KeepPlain(ls[1..]);
    }
  }

  /** Split then decode inverts encode then concatenate: a complete reply, cut at its newlines, is
      exactly the lines that were sent. */
  lemma ReplySplits(toks: seq<string>, content: string, finish: string, usage: Usage)
    ensures var s := Whole(toks, content, finish, usage);
            && Lines(s) == WholeLines(toks, content, finish, usage) && Tail(s) == ""
            && Keep(Lines(s)) == Lines(s) && Collected(s) == WholeLines(toks, content, finish, usage)
  {
    hide TokenText, FinalText, TrimLeft, TrimRight, Lines, Tail, TokenLines, TokenTexts;
    var ls := WholeLines(toks, content, finish, usage);
    TokenTextsPlain(toks);
    FinalTextPlain(content, finish, usage);
    JoinedSplit(TokenTexts(toks), [FinalText(content, finish, usage)]);
    JoinedOne(FinalText(content, finish, usage));
    forall i | 0 <= i < |ls|
      ensures PlainLine(ls[i])
    {
      if i < |toks| {
        assert ls[i] == TokenTexts(toks)[i];
      }
    }
    assert forall i :: 0 <= i < |ls| ==> NoNewline(ls[i]) by {
      assert forall i :: 0 <= i < |ls| ==> PlainLine(ls[i]);
    }
    SplitUnique(ls, "");
    assert Joined(ls) + "" == Joined(ls);
    assert Whole(toks, content, finish, usage) == Joined(ls);
    KeepPlain(ls);
    TrimIdentity(JsSpace, "");
  }

  /** A JSON parser that reads everything this model's parser reads the same way. */
  ghost predicate ParsesJson(parse: string -> Option<Value>) {
    forall s :: Parse(s).Some? ==> parse(s) == Parse(s)
  }

  /** The closing line as a client reads it. */
  predicate Closes(v: Value, content: string, finish: string, usage: Usage) {
    && Field(v, "done") == Some(Bool(true))
    && Field(v, "content") == Some(Str(content))
    && Field(v, "finish_reason") == Some(Str(finish))
    && Field(v, "usage").Some?
    && var u := Field(v, "usage").value;
       && Field(u, "PromptTokens") == Some(Num(usage.prompt))
       && Field(u, "CompletionTokens") == Some(Num(usage.completion))
       && Field(u, "TotalTokens") == Some(Num(usage.total))
  }

  lemma Lookup(ms: Members, key: string)
    requires ms.Member?
    ensures ms.key != key ==> Get(ms, key) == Get(ms.rest, key)
    ensures ms.key == key && Get(ms.rest, key) == None ==> Get(ms, key) == Some(ms.value)
  {
  }

  lemma GetEnd(key: string)
    ensures Get(End, key) == None
  {
  }

  lemma UsageFields(m1: Members, usage: Usage)
    requires m1 == Member("PromptTokens", Num(usage.prompt),
                     Member("CompletionTokens", Num(usage.completion), Member("TotalTokens", Num(usage.total), End)))
    ensures Get(m1, "PromptTokens") == Some(Num(usage.prompt))
    ensures Get(m1, "CompletionTokens") == Some(Num(usage.completion))
    ensures Get(m1, "TotalTokens") == Some(Num(usage.total))
  {
    hide Get;
    forall key | key in {"PromptTokens", "CompletionTokens", "TotalTokens"}
      ensures Get(m1, key) == if key == "PromptTokens" then Some(m1.value)
                              else if key == "CompletionTokens" then Some(m1.rest.value) else Some(m1.rest.rest.value)
    {
      GetEnd(key);
      Lookup(m1.rest.rest, key);
      Lookup(m1.rest, key);
      Lookup(m1, key);
    }
  }

  lemma FinalFields(content: string, finish: string, usage: Usage)
    ensures var v := Obj(FinalMembers(content, finish, usage));
            && Closes(v, content, finish, usage)
            && Field(v, "token") == None && Field(v, "completion") == None
  {
    hide Get;
    var m1 := FinalMembers(content, finish, usage);
    forall key | key in {"content", "done", "finish_reason", "usage", "token", "completion"}
      ensures Get(m1, key) == if key == "content" then Some(m1.value) else if key == "done" then Some(m1.rest.value)
                              else if key == "finish_reason" then Some(m1.rest.rest.value)
                              else if key == "usage" then Some(m1.rest.rest.rest.value) else None
    {
      GetEnd(key);
      Lookup(m1.rest.rest.rest, key);
      Lookup(m1.rest.rest, key);
      Lookup(m1.rest, key);
      Lookup(m1, key);
    }
    UsageFields(m1.rest.rest.rest.value.members, usage);
  }

  lemma {:induction false} TokensAbsorb(parse: string -> Option<Value>, toks: seq<string>)
    requires ParsesJson(parse)
    ensures AbsorbAll(parse, TokenTexts(toks)) == Concat(toks)
  {
    if toks != [] {
      var n := |toks| - 1;
      TokensAbsorb(parse, toks[..n]);
      TokenTextPlain(toks[n]);
      var ls := TokenTexts(toks);
      assert ls[..|ls| - 1] == TokenTexts(toks[..n]) && ls[|ls| - 1] == TokenText(toks[n]);
      TokenAbsorbs(toks[n], Concat(toks[..n]));
    }
  }

  lemma TokenAbsorbs(tok: string, content: string)
    ensures Absorb(Some(Obj(Member("token", Str(tok), End))), content) == content + tok
  {
    var ms := Member("token", Str(tok), End);
    assert Get(End, "token") == None && Get(End, "done") == None;
    assert Get(ms, "token") == Some(Str(tok)) && Get(ms, "done") == None;
  }

  /** The haiku page's content of a complete reply is the content of its closing line. */
  lemma HaikuReadsContent(
    parse: string -> Option<Value>, toks: seq<string>, content: string, finish: string, usage: Usage)
    requires ParsesJson(parse)
    ensures HaikuContent(parse, Whole(toks, content, finish, usage)) == content
  {
    hide TokenTexts, FinalText, Lines, Tail, TrimLeft, TrimRight, Parse, Get, Whole, FinalMembers, Keep;
    var s := Whole(toks, content, finish, usage);
    ReplySplits(toks, content, finish, usage);
    FinalTextPlain(content, finish, usage);
    FinalFields(content, finish, usage);
    TrimIdentity(JsSpace, "");
    var ls := WholeLines(toks, content, finish, usage);
    assert ls[|ls| - 1] == FinalText(content, finish, usage);
    assert AbsorbAll(parse, ls) == content;
  }

  lemma {:induction false} TokensAbsorbWhole(parse: string -> Option<Value>, toks: seq<string>)
    requires ParsesJson(parse)
    ensures AbsorbAllWhole(parse, TokenTexts(toks)) == Concat(toks)
  {
    if toks != [] {
      var n := |toks| - 1;
      TokensAbsorbWhole(parse, toks[..n]);
      TokenTextPlain(toks[n]);
      var ls := TokenTexts(toks);
      assert ls[..|ls| - 1] == TokenTexts(toks[..n]) && ls[|ls| - 1] == TokenText(toks[n]);
      TokenAbsorbs(toks[n], Concat(toks[..n]));
      assert Get(Member("token", Str(toks[n]), End), "completion") == None;
    }
  }

  /** So is its content without a stream reader: both paths of the page show the same. */
  lemma HaikuReadsWhole(
    parse: string -> Option<Value>, toks: seq<string>, content: string, finish: string, usage: Usage)
    requires ParsesJson(parse)
    ensures WholeContent(parse, Whole(toks, content, finish, usage)) == content
  {
    hide TokenTexts, FinalText, Lines, Tail, TrimLeft, TrimRight, Parse, Get, Whole, FinalMembers, Keep;
    ReplySplits(toks, content, finish, usage);
    FinalTextPlain(content, finish, usage);
    FinalFields(content, finish, usage);
    TokensAbsorbWhole(parse, toks);
    var ls := WholeLines(toks, content, finish, usage);
    assert ls[|ls| - 1] == FinalText(content, finish, usage) && ls[..|ls| - 1] == TokenTexts(toks);
    assert AbsorbAllWhole(parse, ls) == content;
  }

  // ---- replies that were cut short ----

  /** Plain lines, and a plain or empty tail, are found again by both readers. */
  lemma PlainSplits(ls: seq<string>, tail: string)
    requires (forall i :: 0 <= i < |ls| ==> PlainLine(ls[i])) && (tail == "" || PlainLine(tail))
    ensures var s := Joined(ls) + tail;
            && Lines(s) == ls && Tail(s) == tail && Keep(ls) == ls && Trim(JsSpace, tail) == tail
            && Collected(s) == if tail == "" then ls else ls + [tail]
  {
    hide Lines, Tail, TrimLeft, TrimRight, Joined;
    assert NoNewline(tail) && forall i :: 0 <= i < |ls| ==> NoNewline(ls[i]) by {
      assert forall i :: 0 <= i < |ls| ==> PlainLine(ls[i]);
    }
    SplitUnique(ls, tail);
    KeepPlain(ls);
    TrimIdentity(JsSpace, "");
  }

  lemma TokenLinesSplit(toks: seq<string>, tail: string)
    requires tail == "" || PlainLine(tail)
    ensures var s, ls := TokenLines(toks) + tail, TokenTexts(toks);
            && Lines(s) == ls && Tail(s) == tail && Keep(ls) == ls && Trim(JsSpace, tail) == tail
            && Collected(s) == (if tail == "" then ls else ls + [tail]) && |ls| == |toks|
  {
    hide Lines, Tail, TokenText, TrimLeft, TrimRight, Keep, Joined, PlainLine, TokenTexts, TokenLines;
    TokenTextsPlain(toks);
    PlainSplits(TokenTexts(toks), tail);
  }

  /** A reply cut after some whole token lines shows the tokens it brought, on either path of the page. */
  lemma CutReply(parse: string -> Option<Value>, toks: seq<string>)
    requires ParsesJson(parse)
    ensures HaikuContent(parse, TokenLines(toks)) == WholeContent(parse, TokenLines(toks)) == Concat(toks)
  {
    hide Lines, Tail, TrimLeft, TrimRight, Keep, TokenLines, Parse, TokenText, Collected;
    TokenLinesSplit(toks, "");
    assert TokenLines(toks) + "" == TokenLines(toks);
    TokensAbsorb(parse, toks);
    TokensAbsorbWhole(parse, toks);
    if toks != [] {
      var n := |toks| - 1;
      assert TokenTexts(toks)[n] == TokenText(toks[n]);
      TokenTextPlain(toks[n]);
      TokenFields(toks[n]);
      if Concat(toks) == "" {
        assert toks[n] == "";
        TrimNothing(JsSpace);
      }
    }
  }

  lemma TokenFields(tok: string)
    ensures var v := Obj(Member("token", Str(tok), End));
            && Field(v, "token") == Some(Str(tok)) && Field(v, "done") == None
            && Field(v, "content") == None && Field(v, "completion") == None
  {
    forall key | key in {"token", "done", "content", "completion"}
      ensures Get(Member("token", Str(tok), End), key) == if key == "token" then Some(Str(tok)) else None
    {
      GetEnd(key);
      Lookup(Member("token", Str(tok), End), key);
    }
  }

  /** A reply that lacks only its last newline shows the content of its closing line. */
  lemma UnterminatedReply(parse: string -> Option<Value>, toks: seq<string>, content: string, finish: string, usage: Usage)
    requires ParsesJson(parse)
    ensures var s := TokenLines(toks) + FinalText(content, finish, usage);
            HaikuContent(parse, s) == content && WholeContent(parse, s) == content
  {
    hide Lines, Tail, TrimLeft, TrimRight, Keep, TokenLines, Parse, TokenText, Collected, FinalText, FinalMembers, Get,
      TokenTexts;
    var final := FinalText(content, finish, usage);
    FinalTextPlain(content, finish, usage);
    FinalFields(content, finish, usage);
    TokenLinesSplit(toks, final);
    TokensAbsorbWhole(parse, toks);
    var ls := TokenTexts(toks) + [final];
    assert ls[|ls| - 1] == final && ls[..|ls| - 1] == TokenTexts(toks);
    assert AbsorbAllWhole(parse, ls) == content;
    TrimNothing(JsSpace);
  }

  /** A reply cut in the middle of a token's newline. With a stream reader the last token counts only if
      nothing else did and it is not blank; without one it always counts. The two paths of the page agree if
      and only if that token is empty, or is all there is and not blank. */
  lemma UnterminatedToken(parse: string -> Option<Value>, toks: seq<string>, tok: string)
    requires ParsesJson(parse)
    ensures var s, c := TokenLines(toks) + TokenText(tok), Concat(toks);
            && HaikuContent(parse, s) == (if c != "" then c else if Trim(JsSpace, tok) != "" then tok else "")
            && WholeContent(parse, s) == c + tok
            && (HaikuContent(parse, s) == WholeContent(parse, s)
                <==> tok == "" || (c == "" && Trim(JsSpace, tok) != ""))
  {
    hide Lines, Tail, TrimLeft, TrimRight, Keep, TokenLines, Parse, TokenText, Collected, TokenTexts, Get, Concat;
    TokenTextPlain(tok);
    TokenFields(tok);
    TokenLinesSplit(toks, TokenText(tok));
    TokensAbsorb(parse, toks);
    TokensAbsorbWhole(parse, toks);
    var ls := TokenTexts(toks) + [TokenText(tok)];
    assert ls[|ls| - 1] == TokenText(tok) && ls[..|ls| - 1] == TokenTexts(toks);
    var c := Concat(toks);
    assert AbsorbAllWhole(parse, ls) == c + tok;
    TrimNothing(JsSpace);
    assert tok == "" ==> c + tok == c;
    assert c == "" ==> c + tok == tok;
    assert tok != "" ==> |c + tok| > |c|;
  }

  /** One object without a newline is the unterminated tail, and the one line collected. */
  lemma OneObject(parse: string -> Option<Value>, ms: Members)
    requires ParsesJson(parse)
    ensures var l := Print(Obj(ms));
            && Lines(l) == [] && Trim(JsSpace, Tail(l)) == l != "" && Keep([]) == [] && Collected(l) == [l]
            && parse(l) == Some(Obj(ms))
  {
    hide Lines, Tail, TrimLeft, TrimRight, Parse, Print, Joined, Collected;
    var l := Print(Obj(ms));
    ObjectLine(ms);
    RoundTrip(Obj(ms));
    PlainSplits([], l);
    JoinedNone();
    assert "" + l == l && [] + [l] == [l];
  }

  lemma OtherField(key: string, text: string)
    requires key == "content" || key == "completion"
    ensures var v := Obj(Member(key, Str(text), End));
            && Field(v, "token") == None && Field(v, "done") == None && Field(v, key) == Some(Str(text))
            && Field(v, if key == "content" then "completion" else "content") == None
  {
    hide Get;
    forall k | k in {"token", "done", "content", "completion"}
      ensures Get(Member(key, Str(text), End), k) == if k == key then Some(Str(text)) else None
    {
      GetEnd(k);
      Lookup(Member(key, Str(text), End), k);
    }
  }

  /** A body of one object with its text under another name, from a server that does not stream. */
  lemma OtherTexts(parse: string -> Option<Value>, key: string, text: string)
    requires ParsesJson(parse) && (key == "content" || key == "completion")
    ensures var s := Print(Obj(Member(key, Str(text), End)));
            HaikuContent(parse, s) == (if Trim(JsSpace, text) != "" then text else "") && WholeContent(parse, s) == text
  {
    hide Lines, Tail, TrimLeft, TrimRight, Trim, Keep, Print, Collected, Field, ParsesJson;
    OneObject(parse, Member(key, Str(text), End));
    OtherField(key, text);
    var l := Print(Obj(Member(key, Str(text), End)));
    assert AbsorbAll(parse, []) == "" && AbsorbAllWhole(parse, []) == "" && [l][..0] == [];
    assert AbsorbAllWhole(parse, [l]) == AbsorbWhole(parse(l), "");
    assert Trim(JsSpace, "") == "" by {
      TrimIdentity(JsSpace, "");
    }
  }

  /** Nothing on the way to the client fails. */
  predicate Smooth(r: Request, w: Wire) {
    Started(r) && Patient(w) && w.out == "" && r.liveTokens >= |Spine(ScriptOf(r.session))|
  }

  /** What a client that receives `chunks` makes of a complete reply: one line for each token, a closing line,
      and on the haiku page, with or without a stream reader, the content. */
  ghost predicate Received(
    parse: string -> Option<Value>, chunks: seq<string>, toks: seq<string>, content: string, finish: string, usage: Usage)
  {
    var lines := Collected(Concat(chunks));
    && |lines| == |toks| + 1
    && (forall i :: 0 <= i < |toks| ==> parse(lines[i]) == Some(Obj(Member("token", Str(toks[i]), End))))
    && parse(lines[|toks|]).Some? && Closes(parse(lines[|toks|]).value, content, finish, usage)
    && HaikuContent(parse, Concat(chunks)) == content
    && WholeContent(parse, Concat(chunks)) == content
  }

  lemma SmoothStream(r: Request, w: Wire)
    requires Smooth(r, w) && LastEnding(ScriptOf(r.session)).Returns?
    ensures var x := Stream(r, Tube(w, "", r.liveTokens));
            x.reply == Fine && x.tube.wire.out == Promised(ScriptOf(r.session))
  {
    hide RunScript, ScriptOf, WriteWhole, TokenLines, FinalText, Concat;
    var t, s := Tube(w, "", r.liveTokens), ScriptOf(r.session);
    SmoothRun(s, t);
    var g, toks, res := RunScript(s, t), Spine(s), LastEnding(s).result;
    assert "" + TokenLines(toks) == TokenLines(toks) && "" + Concat(toks) == Concat(toks);
    PatientWriter(g.tube.wire, ClosingLine(res, g.tube.built));
    WriteIsPrefix(g.tube.wire, ClosingLine(res, g.tube.built));
    Associative(TokenLines(toks), FinalText(Content(res, toks), res.finish, res.usage), "\n");
  }

  /** End to end, for every adapter: if nothing fails and the session returns, every chunking of the response
      lets the pages recover exactly the tokens offered, in order, and both paths of the haiku page show the
      session's content or, failing that, the concatenation; the closing line carries its finish reason and
      usage. */
  lemma EndToEnd(r: Request, w: Wire, chunks: seq<string>, parse: string -> Option<Value>)
    requires Smooth(r, w) && ParsesJson(parse) && LastEnding(ScriptOf(r.session)).Returns?
    requires Concat(chunks) == Stream(r, Tube(w, "", r.liveTokens)).tube.wire.out
    ensures Stream(r, Tube(w, "", r.liveTokens)).reply == Fine
    ensures var s := ScriptOf(r.session);
            var res := LastEnding(s).result;
            Received(parse, chunks, Spine(s), if res.content != "" then res.content else Concat(Spine(s)), res.finish, res.usage)
  {
    hide Stream, ScriptOf, TokenLines, FinalText, Whole, Collected, HaikuContent, WholeContent, Parse, Concat;
    SmoothStream(r, w);
    var s := ScriptOf(r.session);
    var toks, res := Spine(s), LastEnding(s).result;
    var content := Content(res, toks);
    ReplySplits(toks, content, res.finish, res.usage);
    HaikuReadsContent(parse, toks, content, res.finish, res.usage);
    HaikuReadsWhole(parse, toks, content, res.finish, res.usage);
    TokenLinesParse(parse, toks, content, res.finish, res.usage);
    FinalTextPlain(content, res.finish, res.usage);
    FinalFields(content, res.finish, res.usage);
  }

  /** The two llama adapters: every upstream body, made of any events in any layout and ending with a literal
      end mark or a clean close, reaches the pages as its non-empty deltas, in order, and the haiku page shows
      their concatenation; the closing line has the last finish reason given. */
  lemma LlamaEndToEnd(
    r: Request, w: Wire, chunks: seq<string>, parse: string -> Option<Value>, es: seq<Event>, tail: string)
    requires !r.session.Other? && r.session.body == Body(es) + tail
    requires Faithful(r.session.decode, es) && Ends(tail, r.session.end)
    requires Smooth(r, w) && ParsesJson(parse)
    requires Concat(chunks) == Stream(r, Tube(w, "", r.liveTokens)).tube.wire.out
    ensures Stream(r, Tube(w, "", r.liveTokens)).reply == Fine
    ensures var toks := Deltas(es, r.session.Server?);
            Received(parse, chunks, toks, Concat(toks), FinalFinish(es), Usage(0, 0, 0))
  {
    hide Stream, ScriptOf, Received, Payloads, Tokens, UntilDone, LastFinish, Concat, Spine, LastEnding, Faithful, Ends,
      Body, Deltas, FinalFinish;
    LlamaIsPrompt(r.session);
    BodyHeard(r.session.decode, es, tail, r.session.end);
    EndToEnd(r, w, chunks, parse);
  }

  lemma TokenLinesParse(
    parse: string -> Option<Value>, toks: seq<string>, content: string, finish: string, usage: Usage)
    requires ParsesJson(parse)
    ensures var ls := WholeLines(toks, content, finish, usage);
            && |ls| == |toks| + 1
            && forall i :: 0 <= i < |toks| ==> parse(ls[i]) == Some(Obj(Member("token", Str(toks[i]), End)))
  {
    hide TokenText, FinalText, Parse, TokenTexts;
    TokenTextsPlain(toks);
    var ls := WholeLines(toks, content, finish, usage);
    forall i | 0 <= i < |toks|
      ensures parse(ls[i]) == Some(Obj(Member("token", Str(toks[i]), End)))
    {
      assert ls[i] == TokenTexts(toks)[i];
      TokenTextPlain(toks[i]);
    }
  }
}
