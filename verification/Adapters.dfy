/** The stream loops of the two llama adapters. Upstream lines are a reduced form of section 9.2.6 of
    the WHATWG HTML Living Standard: only `data` fields count. How a payload decodes is a parameter. */
module Adapters {
  import opened Types
  import opened Text
  import opened Output

  datatype Delta = Delta(content: string, finish: string)

  /** The two readings of a payload: as a chunk with choices, and as an object with a string `content`. */
  datatype Decoded = Decoded(choices: Option<seq<Delta>>, content: Option<string>)

  /** How the response body ends: cleanly, or with a read error that repeats. */
  datatype BodyEnd = Eof | ReadError

  datatype Stop = AtEnd | AtDone | CallbackFailed | ReadFailed

  datatype Gen<S> = Gen(sink: S, finish: string, stop: Stop)

  function Lower(c: char): char {
    if 'A' <= c <= 'Z' then (c as int + 32) as char else c
  }

  predicate HasDataPrefix(l: string) {
    |l| >= 5 && Lower(l[0]) == 'd' && Lower(l[1]) == 'a' && Lower(l[2]) == 't' && Lower(l[3]) == 'a' && l[4] == ':'
  }

  /** The payload of a line, if it is a data line. */
  function Payload(line: string): Option<string> {
    var l := Trim(GoSpace, line);
    if l != "" && HasDataPrefix(l) then Some(Trim(GoSpace, l[5..])) else None
  }

  /** bufio.Reader.ReadString('\n'): up to and including the newline, or all there is. */
  function NextLine(body: string): (line: string)
    ensures line <= body && (body != "" ==> line != "")
  {
    var i := Newline(body);
    if i < |body| then body[..i + 1] else body
  }

  function Payloads(body: string): seq<string>
    decreases |body|
  {
    if body == "" then []
    else
      var line := NextLine(body);
      var p := Payload(line);
      (if p.Some? then [p.value] else []) + Payloads(body[|line|..])
  }

  const DONE := "[DONE]"

  /** What a payload contributes: a token (empty for none) and a finish reason (empty for none). */
  datatype Pick = Pick(tok: string, finish: string)

  function ServerPick(d: Decoded): Pick {
    if d.choices.Some? && |d.choices.value| > 0 then Pick(d.choices.value[0].content, d.choices.value[0].finish)
    else if d.content.Some? then Pick(d.content.value, "")
    else Pick("", "")
  }

  function SubprocessPick(d: Decoded): Pick {
    if d.choices.Some? && |d.choices.value| > 0 then Pick(d.choices.value[0].content, d.choices.value[0].finish)
    else Pick("", "")
  }

  /** The stream loop over payloads, for either reading of them. */
  function Fold<S>(
    pick: Decoded -> Pick, decode: string -> Decoded, cb: (S, string) -> Step<S>,
    ps: seq<string>, end: BodyEnd, s: S, finish: string): Gen<S>
  {
    if ps == [] then Gen(s, finish, if end.Eof? then AtEnd else ReadFailed)
    else if ps[0] == DONE then Gen(s, finish, AtDone)
    else
      var x := pick(decode(ps[0]));
      var r := if x.tok == "" then Step(s, true) else cb(s, x.tok);
      if !r.ok then Gen(r.state, finish, CallbackFailed)
      else Fold(pick, decode, cb, ps[1..], end, r.state, if x.finish == "" then finish else x.finish)
  }

  /** One turn of the loop: what the payload of a line, if any, leads to. */
  function Turn<S>(
    pick: Decoded -> Pick, decode: string -> Decoded, cb: (S, string) -> Step<S>,
    p: Option<string>, ps: seq<string>, end: BodyEnd, s: S, finish: string): Gen<S>
  {
    if p.None? then Fold(pick, decode, cb, ps, end, s, finish)
    else if p.value == DONE then Gen(s, finish, AtDone)
    else
      var x := pick(decode(p.value));
      var r := if x.tok == "" then Step(s, true) else cb(s, x.tok);
      if !r.ok then Gen(r.state, finish, CallbackFailed)
      else Fold(pick, decode, cb, ps, end, r.state, if x.finish == "" then finish else x.finish)
  }

  lemma FoldEnds<S>(
    pick: Decoded -> Pick, decode: string -> Decoded, cb: (S, string) -> Step<S>, end: BodyEnd, s: S, finish: string)
    ensures Fold(pick, decode, cb, Payloads(""), end, s, finish) == Gen(s, finish, if end.Eof? then AtEnd else ReadFailed)
  {
  }

  lemma TurnUnfolds<S>(
    pick: Decoded -> Pick, decode: string -> Decoded, cb: (S, string) -> Step<S>,
    body: string, end: BodyEnd, s: S, finish: string)
    requires body != ""
    ensures Fold(pick, decode, cb, Payloads(body), end, s, finish)
         == Turn(pick, decode, cb, Payload(NextLine(body)), Payloads(body[|NextLine(body)|..]), end, s, finish)
  {
    var p, ps := Payload(NextLine(body)), Payloads(body[|NextLine(body)|..]);
    if p.Some? {
      assert ([p.value] + ps)[1..] == ps;
    } else {
      assert [] + ps == ps;
    }
  }

  /** generateOpenAI's loop. */
  method GenerateServer(body: string, end: BodyEnd, decode: string -> Decoded, sink: Sink)
    returns (finish: string, stop: Stop)
    modifies sink, sink.w
    ensures Fold(ServerPick, decode, OnTok, Payloads(body), end, old(sink.State()), "")
         == Gen(sink.State(), finish, stop)
  {
    hide Fold, Payloads, TrimLeft, TrimRight, OnTok, Newline;
    var rest := body;
    finish := "";
    while true
      invariant Fold(ServerPick, decode, OnTok, Payloads(rest), end, sink.State(), finish)
             == Fold(ServerPick, decode, OnTok, Payloads(body), end, old(sink.State()), "")
      decreases |rest|
    {
      if rest == "" {
        FoldEnds(ServerPick, decode, OnTok, end, sink.State(), finish);
        return finish, if end.Eof? then AtEnd else ReadFailed;
      }
      var raw := NextLine(rest);
      TurnUnfolds(ServerPick, decode, OnTok, rest, end, sink.State(), finish);
      rest := rest[|raw|..];
      var line := Trim(GoSpace, raw);
      if line == "" {
        continue;
      } else if HasDataPrefix(line) {
        var data := Trim(GoSpace, line[5..]);
        if data == DONE {
          return finish, AtDone;
        }
        var msg := decode(data);
        if msg.choices.Some? && |msg.choices.value| > 0 {
          var frag := msg.choices.value[0].content;
          if frag != "" {
            var ok := sink.OnToken(frag);
            if !ok {
              return finish, CallbackFailed;
            }
          }
          var fr := msg.choices.value[0].finish;
          if fr != "" {
            finish := fr;
          }
          continue;
        }
        if msg.content.Some? && msg.content.value != "" {
          var ok := sink.OnToken(msg.content.value);
          if !ok {
            return finish, CallbackFailed;
          }
          continue;
        }
      }
    }
  }

  /** The subprocess session's loop. */
  method GenerateSubprocess(body: string, end: BodyEnd, decode: string -> Decoded, sink: Sink)
    returns (finish: string, stop: Stop)
    modifies sink, sink.w
    ensures Fold(SubprocessPick, decode, OnTok, Payloads(body), end, old(sink.State()), "")
         == Gen(sink.State(), finish, stop)
  {
    hide Fold, Payloads, TrimLeft, TrimRight, OnTok, Newline;
    var rest := body;
    finish := "";
    while true
      invariant Fold(SubprocessPick, decode, OnTok, Payloads(rest), end, sink.State(), finish)
             == Fold(SubprocessPick, decode, OnTok, Payloads(body), end, old(sink.State()), "")
      decreases |rest|
    {
      if rest == "" {
        FoldEnds(SubprocessPick, decode, OnTok, end, sink.State(), finish);
        return finish, if end.Eof? then AtEnd else ReadFailed;
      }
      var raw := NextLine(rest);
      TurnUnfolds(SubprocessPick, decode, OnTok, rest, end, sink.State(), finish);
      rest := rest[|raw|..];
      var line := Trim(GoSpace, raw);
      if line != "" && HasDataPrefix(line) {
        var data := Trim(GoSpace, line[5..]);
        if data == DONE {
          return finish, AtDone;
        }
        var msg := decode(data);
        if msg.choices.Some? && |msg.choices.value| > 0 {
          var frag := msg.choices.value[0].content;
          if frag != "" {
            var ok := sink.OnToken(frag);
            if !ok {
              return finish, CallbackFailed;
            }
          }
          var fr := msg.choices.value[0].finish;
          if fr != "" {
            finish := fr;
          }
        }
      }
    }
  }

  // ---- what gets delivered ----

  /** The payloads before the first `[DONE]`. */
  function UntilDone(ps: seq<string>): seq<string> {
    if ps == [] || ps[0] == DONE then [] else [ps[0]] + UntilDone(ps[1..])
  }

  function Tokens(pick: Decoded -> Pick, decode: string -> Decoded, ps: seq<string>): seq<string> {
    if ps == [] then []
    else
      var t := pick(decode(ps[0])).tok;
      (if t == "" then [] else [t]) + Tokens(pick, decode, ps[1..])
  }

  /** The last non-empty finish reason, or the one already known. */
  function LastFinish(pick: Decoded -> Pick, decode: string -> Decoded, ps: seq<string>, finish: string): string {
    if ps == [] then finish
    else
      var f := pick(decode(ps[0])).finish;
      LastFinish(pick, decode, ps[1..], if f == "" then finish else f)
  }

  lemma {:induction false} FeedCons<S>(cb: (S, string) -> Step<S>, s: S, tok: string, toks: seq<string>)
    ensures Feed(cb, s, [tok] + toks) == if cb(s, tok).ok then Feed(cb, cb(s, tok).state, toks) else cb(s, tok)
  {
    if toks == [] {
      assert [tok] + toks == [tok] && [tok][..0] == [];
      assert Feed(cb, s, [tok][..0]) == Step(s, true);
    } else {
      var n := |toks| - 1;
      FeedCons(cb, s, tok, toks[..n]);
      assert ([tok] + toks)[..n + 1] == [tok] + toks[..n];
    }
  }

  /** The loop delivers exactly the non-empty tokens of the payloads before `[DONE]`, in order, until the
      callback fails; otherwise it reports the last finish reason and how the stream ended. */
  lemma {:induction false} FoldDelivers<S>(
    pick: Decoded -> Pick, decode: string -> Decoded, cb: (S, string) -> Step<S>,
    ps: seq<string>, end: BodyEnd, s: S, finish: string)
    ensures var g := Fold(pick, decode, cb, ps, end, s, finish);
            var r := Feed(cb, s, Tokens(pick, decode, UntilDone(ps)));
            && g.sink == r.state
            && (g.stop == CallbackFailed <==> !r.ok)
            && (r.ok ==> g.finish == LastFinish(pick, decode, UntilDone(ps), finish))
            && (r.ok ==> g.stop == if DONE in ps then AtDone else if end.Eof? then AtEnd else ReadFailed)
  {
    if ps != [] && ps[0] != DONE {
      var x := pick(decode(ps[0]));
      var us := UntilDone(ps);
      assert us[0] == ps[0] && us[1..] == UntilDone(ps[1..]);
      var more := Tokens(pick, decode, us[1..]);
      if x.tok != "" {
        FeedCons(cb, s, x.tok, more);
      } else {
        assert Tokens(pick, decode, us) == more;
      }
      var r := if x.tok == "" then Step(s, true) else cb(s, x.tok);
      if r.ok {
        FoldDelivers(pick, decode, cb, ps[1..], end, r.state, if x.finish == "" then finish else x.finish);
      }
    } else {
      assert Tokens(pick, decode, UntilDone(ps)) == [];
    }
  }

  // ---- the two adapters ----

  /** A payload the two adapters read alike. */
  predicate Alike(d: Decoded) {
    (d.choices.Some? && |d.choices.value| > 0) || d.content.None? || d.content.value == ""
  }

  predicate AllAlike(decode: string -> Decoded, us: seq<string>) {
    forall i :: 0 <= i < |us| ==> Alike(decode(us[i]))
  }

  lemma AllAlikeFirst(decode: string -> Decoded, us: seq<string>)
    requires us != []
    ensures AllAlike(decode, us) <==> Alike(decode(us[0])) && AllAlike(decode, us[1..])
  {
    assert forall i :: 0 < i < |us| ==> us[i] == us[1..][i - 1];
  }

  /** If every payload before `[DONE]` reads alike, both adapters behave identically with every callback:
      same tokens, same finish reason, same stopping point. */
  lemma {:induction false} AdaptersAgree<S>(
    decode: string -> Decoded, cb: (S, string) -> Step<S>, ps: seq<string>, end: BodyEnd, s: S, finish: string)
    requires AllAlike(decode, UntilDone(ps))
    ensures Fold(ServerPick, decode, cb, ps, end, s, finish) == Fold(SubprocessPick, decode, cb, ps, end, s, finish)
  {
    if ps != [] && ps[0] != DONE {
      var us := UntilDone(ps);
      assert us[0] == ps[0] && us[1..] == UntilDone(ps[1..]);
      AllAlikeFirst(decode, us);
      var x := ServerPick(decode(ps[0]));
      var r := if x.tok == "" then Step(s, true) else cb(s, x.tok);
      if r.ok {
        AdaptersAgree(decode, cb, ps[1..], end, r.state, if x.finish == "" then finish else x.finish);
      }
    }
  }

  predicate Subsequence(a: seq<string>, b: seq<string>) {
    if a == [] then true
    else if b == [] then false
    else if a[0] == b[0] && Subsequence(a[1..], b[1..]) then true
    else Subsequence(a, b[1..])
  }

  lemma SubsequencePrepend(x: string, a: seq<string>, b: seq<string>)
    requires Subsequence(a, b)
    ensures Subsequence(a, [x] + b) && Subsequence([x] + a, [x] + b)
  {
    assert ([x] + b)[1..] == b && ([x] + a)[1..] == a;
  }

  /** The tokens of one more payload in front. */
  lemma TokensFirst(pick: Decoded -> Pick, decode: string -> Decoded, us: seq<string>)
    requires us != []
    ensures var t, more := pick(decode(us[0])).tok, Tokens(pick, decode, us[1..]);
            Tokens(pick, decode, us) == if t == "" then more else [t] + more
  {
  }

  /** The subprocess tokens are always among the server tokens, in order. */
  lemma {:induction false} SubprocessTokensWithin(decode: string -> Decoded, us: seq<string>)
    ensures Subsequence(Tokens(SubprocessPick, decode, us), Tokens(ServerPick, decode, us))
    ensures |Tokens(SubprocessPick, decode, us)| <= |Tokens(ServerPick, decode, us)|
  {
    hide Tokens, Subsequence;
    if us != [] {
      SubprocessTokensWithin(decode, us[1..]);
      TokensFirst(SubprocessPick, decode, us);
      TokensFirst(ServerPick, decode, us);
      SubsequencePrepend(ServerPick(decode(us[0])).tok, Tokens(SubprocessPick, decode, us[1..]),
                         Tokens(ServerPick, decode, us[1..]));
    } else {
      NoTokens(SubprocessPick, decode);
      EmptySubsequence(Tokens(ServerPick, decode, us));
    }
  }

  lemma NoTokens(pick: Decoded -> Pick, decode: string -> Decoded)
    ensures Tokens(pick, decode, []) == []
  {
  }

  lemma EmptySubsequence(b: seq<string>)
    ensures Subsequence([], b)
  {
  }

  /** The two token sequences are equal if and only if every payload reads alike. */
  lemma {:induction false} SameTokensIff(decode: string -> Decoded, us: seq<string>)
    ensures Tokens(SubprocessPick, decode, us) == Tokens(ServerPick, decode, us) <==> AllAlike(decode, us)
  {
    hide Tokens, Subsequence, AllAlike;
    if us != [] {
      SameTokensIff(decode, us[1..]);
      SubprocessTokensWithin(decode, us[1..]);
      AllAlikeFirst(decode, us);
      TokensFirst(SubprocessPick, decode, us);
      TokensFirst(ServerPick, decode, us);
      var t := ServerPick(decode(us[0])).tok;
      var a, b := Tokens(SubprocessPick, decode, us[1..]), Tokens(ServerPick, decode, us[1..]);
      if !Alike(decode(us[0])) {
        assert |[t] + b| > |a|;
      } else if t != "" {
        assert ([t] + a)[1..] == a && ([t] + b)[1..] == b;
      }
    } else {
      NoTokens(SubprocessPick, decode);
      NoTokens(ServerPick, decode);
      NothingUnlike(decode);
    }
  }

  lemma NothingUnlike(decode: string -> Decoded)
    ensures AllAlike(decode, [])
  {
  }
}
