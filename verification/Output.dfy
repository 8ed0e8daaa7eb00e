/** Writing the NDJSON lines of one inference: `writeAll` over a writer that may write short or fail,
    and the token callback built on it. */
module Output {
  import opened Text
  import opened JsonText

  /** What one call of the underlying writer reports. */
  datatype WriteStep = WriteStep(n: int, err: bool)

  /** A writer: what it has taken so far, and how its next calls will go. A writer without further
      plans takes everything. */
  datatype Wire = Wire(out: string, plan: seq<WriteStep>)

  datatype Written = Written(wire: Wire, n: int, err: bool)

  function WriteOnce(w: Wire, p: string): Written {
    if w.plan == [] then Written(w.(out := w.out + p), |p|, false)
    else
      var step := w.plan[0];
      var n := if step.n > |p| then |p| else step.n;
      Written(Wire(w.out + p[..if n < 0 then 0 else n], w.plan[1..]), n, step.err)
  }

  /** A state and whether things are still going well. */
  datatype Step<S> = Step(state: S, ok: bool)

  function WriteWhole(w: Wire, p: string): Step<Wire>
    decreases |p|
  {
    if p == "" then Step(w, true)
    else
      var r := WriteOnce(w, p);
      if r.err || r.n <= 0 then Step(r.wire, false) else WriteWhole(r.wire, p[r.n..])
  }

  class Writer {
    var wire: Wire

    constructor (plan: seq<WriteStep>)
      ensures wire == Wire("", plan)
    {
      wire := Wire("", plan);
    }

    method Write(p: string) returns (n: int, err: bool)
      modifies this
      ensures WriteOnce(old(wire), p) == Written(wire, n, err)
    {
      var r := WriteOnce(wire, p);
      wire := r.wire;
      n, err := r.n, r.err;
    }
  }

  /** writeAll: retry until everything is written, or an error or an empty write. */
  method WriteAll(w: Writer, data: string) returns (ok: bool)
    modifies w
    ensures WriteWhole(old(w.wire), data) == Step(w.wire, ok)
  {
    var p := data;
    while |p| > 0
      invariant WriteWhole(w.wire, p) == WriteWhole(old(w.wire), data)
      decreases |p|
    {
      var n, err := w.Write(p);
      if err {
        return false;
      }
      if n <= 0 {
        return false;
      }
      p := p[n..];
    }
    return true;
  }

  /** Whatever the writer does, it has taken a prefix of the data, and all of it on success. */
  lemma {:induction false} WriteIsPrefix(w: Wire, p: string)
    ensures var r := WriteWhole(w, p);
            w.out <= r.state.out <= w.out + p && (r.ok ==> r.state.out == w.out + p)
    decreases |p|
  {
    if p != "" {
      var r := WriteOnce(w, p);
      if !r.err && r.n > 0 {
        WriteIsPrefix(r.wire, p[r.n..]);
        assert p == p[..r.n] + p[r.n..];
        assert r.wire.out + p[r.n..] == w.out + p;
      }
    }
  }

  /** A writer that may write short but neither fails nor stalls takes everything. */
  lemma {:induction false} PatientWriter(w: Wire, p: string)
    requires forall i :: 0 <= i < |w.plan| ==> !w.plan[i].err && w.plan[i].n > 0
    ensures var r := WriteWhole(w, p);
            r.ok && forall i :: 0 <= i < |r.state.plan| ==> !r.state.plan[i].err && r.state.plan[i].n > 0
    decreases |p|
  {
    if p != "" {
      var r := WriteOnce(w, p);
      PatientWriter(r.wire, p[r.n..]);
    }
  }

  // ---- the lines ----

  /** tokenLineJSON, without its newline. */
  function TokenText(tok: string): string { Print(Obj(Member("token", Str(tok), End))) }

  function TokenLine(tok: string): string { TokenText(tok) + "\n" }

  datatype Usage = Usage(prompt: nat, completion: nat, total: nat)

  const NO_USAGE := Usage(0, 0, 0)

  /** The closing line, keys in the encoder's sorted order, without its newline. */
  function FinalText(content: string, finish: string, usage: Usage): string {
    Print(Obj(FinalMembers(content, finish, usage)))
  }

  function FinalMembers(content: string, finish: string, usage: Usage): Members {
    Member("content", Str(content),
      Member("done", Bool(true),
        Member("finish_reason", Str(finish),
          Member("usage", Obj(Member("PromptTokens", Num(usage.prompt),
                                Member("CompletionTokens", Num(usage.completion),
                                  Member("TotalTokens", Num(usage.total), End)))), End))))
  }

  function TokenLines(toks: seq<string>): string {
    if toks == [] then "" else TokenLines(toks[..|toks| - 1]) + TokenLine(toks[|toks| - 1])
  }

  // ---- the callback ----

  /** The state the token callback works on: the writer, the accumulated content, and how many more
      calls will find the context alive. */
  datatype Tube = Tube(wire: Wire, built: string, live: nat)

  function OnTok(t: Tube, tok: string): Step<Tube> {
    if t.live == 0 then Step(t, false)
    else
      var r := WriteWhole(t.wire, TokenLine(tok));
      Step(Tube(r.state, if r.ok then t.built + tok else t.built, t.live - 1), r.ok)
  }

  /** `onTok` in Infer. */
  class Sink {
    const w: Writer
    var b: string
    var live: nat

    constructor (w: Writer, live: nat)
      ensures this.w == w && b == "" && this.live == live
    {
      this.w := w;
      this.b := "";
      this.live := live;
    }

    function State(): Tube
      reads this, w
    {
      Tube(w.wire, b, live)
    }

    method OnToken(tok: string) returns (ok: bool)
      modifies this, w
      ensures OnTok(old(State()), tok) == Step(State(), ok)
    {
      if live == 0 {
        return false;
      }
      live := live - 1;
      ok := WriteAll(w, TokenLine(tok));
      if !ok {
        return false;
      }
      b := b + tok;
    }
  }

  /** Tokens handed to a callback one after another until it fails. */
  function Feed<S>(cb: (S, string) -> Step<S>, s: S, toks: seq<string>): Step<S> {
    if toks == [] then Step(s, true)
    else
      var r := Feed(cb, s, toks[..|toks| - 1]);
      if r.ok then cb(r.state, toks[|toks| - 1]) else r
  }

  /** One call of the token callback. */
  lemma OnTokIsPrefix(t: Tube, tok: string)
    ensures var r := OnTok(t, tok);
            && t.wire.out <= r.state.wire.out <= t.wire.out + TokenLine(tok)
            && (r.ok ==> r.state.wire.out == t.wire.out + TokenLine(tok) && r.state.built == t.built + tok)
  {
    hide WriteWhole, TokenLine;
    WriteIsPrefix(t.wire, TokenLine(tok));
    assert t.wire.out <= t.wire.out + TokenLine(tok);
  }

  /** However the callback ends, the writer holds a prefix of the token lines; if it never failed, it
      holds all of them and the content is their concatenation. */
  lemma {:induction false} FeedIsPrefix(t: Tube, toks: seq<string>)
    ensures var r := Feed(OnTok, t, toks);
            && t.wire.out <= r.state.wire.out <= t.wire.out + TokenLines(toks)
            && (r.ok ==> r.state.wire.out == t.wire.out + TokenLines(toks) && r.state.built == t.built + Concat(toks))
  {
    hide OnTok, TokenLine;
    if toks == [] {
      assert t.wire.out + TokenLines(toks) == t.wire.out;
      assert t.built + Concat(toks) == t.built;
    } else {
      var n := |toks| - 1;
      FeedIsPrefix(t, toks[..n]);
      var r := Feed(OnTok, t, toks[..n]);
      var base, line := t.wire.out + TokenLines(toks[..n]), TokenLine(toks[n]);
      assert t.wire.out + TokenLines(toks) == base + line;
      if r.ok {
        OnTokIsPrefix(r.state, toks[n]);
        assert t.built + Concat(toks) == t.built + Concat(toks[..n]) + toks[n];
      } else {
        assert r.state.wire.out <= base <= base + line;
      }
    }
  }

  /** Nothing goes out once the context is over: of the tokens, at most as many get through as calls find it
      alive. */
  lemma {:induction false} DeadContextStops(t: Tube, toks: seq<string>)
    ensures var r, n := Feed(OnTok, t, toks), if t.live < |toks| then t.live else |toks|;
            && r.state.wire.out <= t.wire.out + TokenLines(toks[..n])
            && (r.ok ==> |toks| <= t.live && r.state.live == t.live - |toks|)
  {
    hide TokenLine, WriteWhole;
    if toks == [] {
      assert toks[..0] == [];
      assert t.wire.out + TokenLines([]) == t.wire.out;
    } else {
      var n := |toks| - 1;
      var before := toks[..n];
      DeadContextStops(t, before);
      var r := Feed(OnTok, t, before);
      if t.live >= |toks| {
        FeedIsPrefix(t, toks);
        assert toks[..|toks|] == toks;
      } else {
        var m := if t.live < n then t.live else n;
        assert before[..m] == toks[..t.live];
      }
    }
  }

  predicate Patient(w: Wire) { forall i :: 0 <= i < |w.plan| ==> !w.plan[i].err && w.plan[i].n > 0 }

  /** With a writer that never fails and a live context nothing stops the tokens. */
  lemma {:induction false} FeedSucceeds(t: Tube, toks: seq<string>)
    requires Patient(t.wire) && t.live >= |toks|
    ensures var r := Feed(OnTok, t, toks); r.ok && Patient(r.state.wire) && r.state.live == t.live - |toks|
  {
    if toks != [] {
      var n := |toks| - 1;
      FeedSucceeds(t, toks[..n]);
      PatientWriter(Feed(OnTok, t, toks[..n]).state.wire, TokenLine(toks[n]));
    }
  }
}
