/** Sessions, seen from the token callback: what they offer, how they take a refusal, how they end. */
module Sessions {
  import opened Text
  import opened JsonText
  import opened Output
  import opened Adapters

  /** What Generate comes back with. */
  datatype Result = Result(content: string, finish: string, usage: Usage)

  datatype Ending = Returns(result: Result) | Fails | Panics

  /** Everything an adapter can do with its callback before Generate ends: offer a token and go on one
      way if it is taken and another if it is refused, or end. */
  datatype Script =
    | Finish(ending: Ending)
    | Offer(tok: string, taken: Script, refused: Script)

  datatype Generated = Generated(tube: Tube, ending: Ending)

  function RunScript(s: Script, t: Tube): Generated {
    match s
    case Finish(ending) => Generated(t, ending)
    case Offer(tok, taken, refused) =>
      var r := OnTok(t, tok);
      RunScript(if r.ok then taken else refused, r.state)
  }

  /** What the session offers, and how it ends, if nothing is ever refused. */
  function Spine(s: Script): seq<string> {
    if s.Finish? then [] else [s.tok] + Spine(s.taken)
  }

  function LastEnding(s: Script): Ending {
    if s.Finish? then s.ending else LastEnding(s.taken)
  }

  /** Whenever a token is refused for the first time, the session is over and does not return normally. */
  predicate Prompt(s: Script) {
    s.Offer? ==> s.refused.Finish? && !s.refused.ending.Returns? && Prompt(s.taken)
  }

  // ---- the llama adapters as scripts ----

  function PayloadScript(
    pick: Decoded -> Pick, decode: string -> Decoded, ps: seq<string>, end: BodyEnd, finish: string): Script
  {
    if ps == [] then Finish(if end.Eof? then Returns(Result("", finish, NO_USAGE)) else Fails)
    else if ps[0] == DONE then Finish(Returns(Result("", finish, NO_USAGE)))
    else
      var x := pick(decode(ps[0]));
      var rest := PayloadScript(pick, decode, ps[1..], end, if x.finish == "" then finish else x.finish);
      if x.tok == "" then rest else Offer(x.tok, rest, Finish(Fails))
  }

  function Ended(g: Gen<Tube>): Generated {
    Generated(g.sink, if g.stop == AtEnd || g.stop == AtDone then Returns(Result("", g.finish, NO_USAGE)) else Fails)
  }

  lemma {:induction false} FoldIsScript(
    pick: Decoded -> Pick, decode: string -> Decoded, ps: seq<string>, end: BodyEnd, t: Tube, finish: string)
    ensures RunScript(PayloadScript(pick, decode, ps, end, finish), t) == Ended(Fold(pick, decode, OnTok, ps, end, t, finish))
  {
    hide OnTok;
    if ps != [] && ps[0] != DONE {
      var x := pick(decode(ps[0]));
      var r := if x.tok == "" then Step(t, true) else OnTok(t, x.tok);
      if r.ok {
        FoldIsScript(pick, decode, ps[1..], end, r.state, if x.finish == "" then finish else x.finish);
      }
    }
  }

  /** Either adapter stops with an error at the first refusal, offers exactly the non-empty tokens before
      `[DONE]`, and returns the last finish reason if the stream has an ordinary end. */
  lemma {:induction false} PayloadScriptShape(
    pick: Decoded -> Pick, decode: string -> Decoded, ps: seq<string>, end: BodyEnd, finish: string)
    ensures var s := PayloadScript(pick, decode, ps, end, finish);
            && Prompt(s)
            && Spine(s) == Tokens(pick, decode, UntilDone(ps))
            && LastEnding(s) == if end.Eof? || DONE in ps
                                then Returns(Result("", LastFinish(pick, decode, UntilDone(ps), finish), NO_USAGE))
                                else Fails
  {
    if ps != [] && ps[0] != DONE {
      var x := pick(decode(ps[0]));
      var us := UntilDone(ps);
      assert us[0] == ps[0] && us[1..] == UntilDone(ps[1..]);
      TokensFirst(pick, decode, us);
      PayloadScriptShape(pick, decode, ps[1..], end, if x.finish == "" then finish else x.finish);
    }
  }

  // ---- what goes out ----

  /** The text a complete reply consists of. */
  function Whole(toks: seq<string>, content: string, finish: string, usage: Usage): string {
    TokenLines(toks) + FinalText(content, finish, usage) + "\n"
  }

  /** The content of the closing line: the session's own, or the tokens put together. */
  function Content(res: Result, toks: seq<string>): string {
    if res.content == "" then Concat(toks) else res.content
  }

  /** What a session is meant to send: its token lines, and a closing line if it returns. */
  function Promised(s: Script): string {
    var toks, ending := Spine(s), LastEnding(s);
    if ending.Returns? then Whole(toks, Content(ending.result, toks), ending.result.finish, ending.result.usage)
    else TokenLines(toks)
  }

  datatype Sent = Sent(tube: Tube, ending: Ending, complete: bool)

  function ClosingLine(res: Result, built: string): string {
    FinalText(if res.content == "" then built else res.content, res.finish, res.usage) + "\n"
  }

  /** Generate, and the closing line if it returns. */
  function Send(s: Script, t: Tube): Sent {
    var g := RunScript(s, t);
    if !g.ending.Returns? then Sent(g.tube, g.ending, false)
    else
      var w := WriteWhole(g.tube.wire, ClosingLine(g.ending.result, g.tube.built));
      Sent(g.tube.(wire := w.state), g.ending, w.ok)
  }

  /** `Promised` from here on, with `built` collected so far. */
  function Remaining(s: Script, built: string): string {
    match s
    case Finish(ending) => if ending.Returns? then ClosingLine(ending.result, built) else ""
    case Offer(tok, taken, _) => TokenLine(tok) + Remaining(taken, built + tok)
  }

  lemma ConcatCons(tok: string, toks: seq<string>)
    ensures Concat([tok] + toks) == tok + Concat(toks)
  {
    ConcatSplit([tok], toks);
    ConcatOne(tok);
  }

  lemma {:induction false} TokenLinesCons(tok: string, toks: seq<string>)
    ensures TokenLines([tok] + toks) == TokenLine(tok) + TokenLines(toks)
  {
    hide TokenLine;
    if toks == [] {
      assert [tok][..0] == [];
      assert [tok] + toks == [tok];
      assert "" + TokenLine(tok) == TokenLine(tok) == TokenLine(tok) + "";
    } else {
      var n := |toks| - 1;
      TokenLinesCons(tok, toks[..n]);
      assert ([tok] + toks)[..n + 1] == [tok] + toks[..n];
      Associative(TokenLine(tok), TokenLines(toks[..n]), TokenLine(toks[n]));
    }
  }

  lemma Associative(a: string, b: string, c: string)
    ensures (a + b) + c == a + (b + c)
  {
  }

  lemma {:induction false} RemainingIsPromised(s: Script, built: string)
    ensures var toks, ending := Spine(s), LastEnding(s);
            Remaining(s, built)
            == TokenLines(toks) + if ending.Returns? then ClosingLine(ending.result, built + Concat(toks)) else ""
  {
    hide ClosingLine, TokenLine, TokenLines, Concat;
    match s
    case Finish(ending) =>
      NoTokenLines();
      assert built + "" == built;
      assert forall x: string :: "" + x == x;
    case Offer(tok, taken, _) =>
      var toks, ending := Spine(taken), LastEnding(taken);
      RemainingIsPromised(taken, built + tok);
      TokenLinesCons(tok, toks);
      ConcatCons(tok, toks);
      Associative(built, tok, Concat(toks));
      Associative(TokenLine(tok), TokenLines(toks), if ending.Returns? then ClosingLine(ending.result, built + Concat(Spine(s))) else "");
  }

  lemma NoTokenLines()
    ensures TokenLines([]) == "" && Concat([]) == ""
  {
  }

  lemma PromisedIsRemaining(s: Script)
    ensures Remaining(s, "") == Promised(s)
  {
    hide FinalText, TokenLines, Concat;
    RemainingIsPromised(s, "");
    var toks, ending := Spine(s), LastEnding(s);
    assert "" + Concat(toks) == Concat(toks);
    if ending.Returns? {
      Associative(TokenLines(toks), FinalText(Content(ending.result, toks), ending.result.finish, ending.result.usage), "\n");
    } else {
      assert TokenLines(toks) + "" == TokenLines(toks);
    }
  }

  /** Nothing goes out but what was promised; a complete reply is all of it; and a Generate that does not
      return leaves token lines only. */
  predicate Clean(s: Script, t: Tube) {
    var x := Send(s, t);
    && t.wire.out <= x.tube.wire.out <= t.wire.out + Promised(s)
    && (x.complete ==> x.tube.wire.out == t.wire.out + Promised(s))
    && (!x.ending.Returns? ==> x.tube.wire.out <= t.wire.out + TokenLines(Spine(s)))
  }

  lemma LongerPrefix(a: string, b: string, c: string)
    requires a <= b
    ensures a <= b + c
  {
  }

  /** Generate on a prompt session puts out a prefix of the token lines; if it returns, all of them, with
      the tokens put together. */
  lemma {:induction false} TokensArePrefix(s: Script, t: Tube)
    requires Prompt(s)
    ensures var g, toks := RunScript(s, t), Spine(s);
            && t.wire.out <= g.tube.wire.out <= t.wire.out + TokenLines(toks)
            && (g.ending.Returns? ==> g.ending == LastEnding(s) && g.tube.wire.out == t.wire.out + TokenLines(toks)
                                      && g.tube.built == t.built + Concat(toks))
  {
    hide OnTok, TokenLine, TokenLines, Concat;
    match s
    case Finish(_) =>
      NoTokenLines();
      assert t.wire.out + "" == t.wire.out && t.built + "" == t.built;
    case Offer(tok, taken, refused) =>
      var r := OnTok(t, tok);
      OnTokIsPrefix(t, tok);
      TokenLinesCons(tok, Spine(taken));
      Associative(t.wire.out, TokenLine(tok), TokenLines(Spine(taken)));
      if r.ok {
        TokensArePrefix(taken, r.state);
        ConcatCons(tok, Spine(taken));
        Associative(t.built, tok, Concat(Spine(taken)));
      } else {
        LongerPrefix(r.state.wire.out, t.wire.out + TokenLine(tok), TokenLines(Spine(taken)));
      }
  }

  lemma PromptIsClean(s: Script, t: Tube)
    requires Prompt(s) && t.built == ""
    ensures Clean(s, t)
    ensures Send(s, t).complete ==> LastEnding(s).Returns?
  {
    hide RunScript, Prompt, WriteWhole, TokenLines, Concat, FinalText;
    TokensArePrefix(s, t);
    var g, toks, ending := RunScript(s, t), Spine(s), LastEnding(s);
    var out, lines := t.wire.out, TokenLines(toks);
    assert "" + Concat(toks) == Concat(toks);
    if g.ending.Returns? {
      WriteIsPrefix(g.tube.wire, ClosingLine(ending.result, g.tube.built));
      Associative(lines, FinalText(Content(ending.result, toks), ending.result.finish, ending.result.usage), "\n");
      Associative(out, lines, ClosingLine(ending.result, g.tube.built));
    } else if ending.Returns? {
      var rest := FinalText(Content(ending.result, toks), ending.result.finish, ending.result.usage);
      Associative(lines, rest, "\n");
      Associative(out, lines, rest + "\n");
      LongerPrefix(g.tube.wire.out, out + lines, rest + "\n");
    }
  }

  // ---- sessions that are not prompt ----

  lemma {:induction false} SendExtends(s: Script, t: Tube)
    ensures t.wire.out <= Send(s, t).tube.wire.out
  {
    hide OnTok, WriteWhole, ClosingLine;
    match s
    case Finish(ending) =>
      if ending.Returns? {
        WriteIsPrefix(t.wire, ClosingLine(ending.result, t.built));
      }
    case Offer(tok, taken, refused) =>
      var r := OnTok(t, tok);
      OnTokIsPrefix(t, tok);
      SendExtends(if r.ok then taken else refused, r.state);
  }

  lemma PatientLine(w: Wire, line: string)
    requires w.plan == []
    ensures WriteWhole(w, line) == Step(Wire(w.out + line, []), true)
  {
    if line != "" {
      assert line[|line|..] == "";
      assert WriteWhole(w.(out := w.out + line), "") == Step(Wire(w.out + line, []), true);
    } else {
      assert w.out + line == w.out;
    }
  }

  lemma TokenLineStarts(tok: string)
    ensures |TokenLine(tok)| >= 2 && TokenLine(tok)[0] == '{' && TokenLine(tok)[1] == '"'
  {
    var ms := Member("token", Str(tok), End);
    FirstIsQuote(ms);
    assert TokenText(tok) == "{" + PrintMembers(ms);
  }

  lemma ClosingLineStarts(res: Result, built: string)
    ensures ClosingLine(res, built) != "" && ClosingLine(res, built)[0] == '{'
  {
  }

  /** A token that goes through in one write. */
  lemma Through(out: string, built: string, plan: seq<WriteStep>, live: nat, tok: string)
    ensures OnTok(Tube(Wire(out, [WriteStep(|TokenLine(tok)|, false)] + plan), built, live + 1), tok)
            == Step(Tube(Wire(out + TokenLine(tok), plan), built + tok, live), true)
  {
    hide TokenLine;
    var line := TokenLine(tok);
    var w := Wire(out, [WriteStep(|line|, false)] + plan);
    TokenLineStarts(tok);
    assert w.plan[1..] == plan && line[..|line|] == line && line[|line|..] == "";
    assert WriteWhole(Wire(out + line, plan), "") == Step(Wire(out + line, plan), true);
  }

  /** A token of which one character goes through before an error. */
  lemma Hiccup(out: string, built: string, live: nat, tok: string)
    ensures OnTok(Tube(Wire(out, [WriteStep(1, true)]), built, live + 1), tok)
            == Step(Tube(Wire(out + "{", []), built, live), false)
  {
    hide TokenLine;
    var line := TokenLine(tok);
    TokenLineStarts(tok);
    assert [WriteStep(1, true)][1..] == [] && line[..1] == "{";
  }

  /** Whatever such a session does next that shows, it shows after half a line. */
  lemma SecondBrace(s: Script, t: Tube)
    requires t.wire.plan == [] && t.live >= 1 && (s.Finish? ==> s.ending.Returns?)
    ensures t.wire.out + "{" <= Send(s, t).tube.wire.out
  {
    hide TokenLine, ClosingLine, WriteWhole;
    match s
    case Finish(ending) =>
      PatientLine(t.wire, ClosingLine(ending.result, t.built));
      ClosingLineStarts(ending.result, t.built);
    case Offer(tok, taken, refused) =>
      PatientLine(t.wire, TokenLine(tok));
      TokenLineStarts(tok);
      SendExtends(taken, OnTok(t, tok).state);
  }

  /** A writer on which a session that is not prompt sends what it never promised: it lets everything
      through up to the first token whose refusal shows, and fails in the middle of that one. */
  lemma {:induction false} UnpromptWitness(s: Script, out: string, built: string) returns (plan: seq<WriteStep>, live: nat)
    requires !Prompt(s)
    ensures !(Send(s, Tube(Wire(out, plan), built, live)).tube.wire.out <= out + Remaining(s, built))
  {
    hide OnTok, TokenLine, ClosingLine, WriteWhole;
    var line, rest := TokenLine(s.tok), Remaining(s.taken, built + s.tok);
    if s.refused.Finish? && !s.refused.ending.Returns? {
      plan, live := UnpromptWitness(s.taken, out + line, built + s.tok);
      Through(out, built, plan, live, s.tok);
      Associative(out, line, rest);
      plan, live := [WriteStep(|line|, false)] + plan, live + 1;
    } else {
      plan, live := [WriteStep(1, true)], 2;
      Hiccup(out, built, 1, s.tok);
      SecondBrace(s.refused, Tube(Wire(out + "{", []), built, 1));
      TokenLineStarts(s.tok);
      var sent := Send(s, Tube(Wire(out, plan), built, live)).tube.wire.out;
      assert sent[|out| + 1] == (out + "{" + "{")[|out| + 1] == '{';
      assert (out + (line + rest))[|out| + 1] == line[1] == '"';
    }
  }

  /** Exactly the prompt sessions keep the stream clean on every writer and every context. */
  lemma CleanIffPrompt(s: Script)
    ensures (forall t: Tube :: t.built == "" ==> Clean(s, t)) <==> Prompt(s)
  {
    hide Send, Promised, Remaining, Prompt;
    PromisedIsRemaining(s);
    if Prompt(s) {
      forall t: Tube | t.built == ""
        ensures Clean(s, t)
      {
        PromptIsClean(s, t);
      }
    } else {
      var plan, live := UnpromptWitness(s, "", "");
      assert !Clean(s, Tube(Wire("", plan), "", live));
    }
  }

  // ---- every session, prompt or not ----

  /** The tokens offered in one run, refused ones included. */
  function Tried(s: Script, t: Tube): seq<string> {
    match s
    case Finish(_) => []
    case Offer(tok, taken, refused) =>
      var r := OnTok(t, tok);
      [tok] + Tried(if r.ok then taken else refused, r.state)
  }

  /** Whatever a session does, Generate puts out one prefix of a token line for each token offered. */
  lemma {:induction false} PiecesOfLines(s: Script, t: Tube) returns (pieces: seq<string>)
    ensures |pieces| == |Tried(s, t)|
    ensures RunScript(s, t).tube.wire.out == t.wire.out + Concat(pieces)
    ensures forall i :: 0 <= i < |pieces| ==> pieces[i] <= TokenLine(Tried(s, t)[i])
  {
    hide OnTok, TokenLine, Concat;
    if s.Finish? {
      NoTokenLines();
      return [];
    }
    var r := OnTok(t, s.tok);
    OnTokIsPrefix(t, s.tok);
    var first := r.state.wire.out[|t.wire.out|..];
    assert r.state.wire.out == t.wire.out + first;
    var more := PiecesOfLines(if r.ok then s.taken else s.refused, r.state);
    ConcatCons(first, more);
    Associative(t.wire.out, first, Concat(more));
    pieces := [first] + more;
  }

  /** If nothing on the way out fails, every session follows its spine. */
  lemma {:induction false} SmoothRun(s: Script, t: Tube)
    requires Patient(t.wire) && t.live >= |Spine(s)|
    ensures var g := RunScript(s, t);
            && g.ending == LastEnding(s) && Patient(g.tube.wire)
            && g.tube.wire.out == t.wire.out + TokenLines(Spine(s)) && g.tube.built == t.built + Concat(Spine(s))
  {
    hide TokenLine, TokenLines, Concat, WriteWhole;
    match s
    case Finish(_) =>
      NoTokenLines();
      assert t.wire.out + "" == t.wire.out && t.built + "" == t.built;
    case Offer(tok, taken, _) =>
      var r := OnTok(t, tok);
      PatientWriter(t.wire, TokenLine(tok));
      OnTokIsPrefix(t, tok);
      SmoothRun(taken, r.state);
      TokenLinesCons(tok, Spine(taken));
      ConcatCons(tok, Spine(taken));
      Associative(t.wire.out, TokenLine(tok), TokenLines(Spine(taken)));
      Associative(t.built, tok, Concat(Spine(taken)));
  }
}
