/** Infer: ensure, admit, generate, close the stream, and give the slots back on every way out. */
module Inference {
  import opened Types
  import opened Text
  import opened JsonText
  import opened Output
  import opened Adapters
  import opened Sessions
  import opened Managing

  /** The sessions Infer may be running: the two llama adapters on a response body, or any other adapter. */
  datatype Session =
    | Server(body: string, end: BodyEnd, decode: string -> Decoded)
    | Subprocess(body: string, end: BodyEnd, decode: string -> Decoded)
    | Other(script: Script)

  function ScriptOf(s: Session): Script {
    match s
    case Server(body, end, decode) => PayloadScript(ServerPick, decode, Payloads(body), end, "")
    case Subprocess(body, end, decode) => PayloadScript(SubprocessPick, decode, Payloads(body), end, "")
    case Other(script) => script
  }

  /** Everything around one request that the manager does not decide. */
  datatype Request = Request(
    live: bool,              // the context is alive on entry
    model: ModelId, mb: nat, rounds: nat, fate: Lru.Fate, leaves: Lru.Leaves,
    adapter: bool, path: bool, alive: bool, started: bool,
    session: Session, liveTokens: nat)

  datatype Reply =
    | Fine
    | Refused(out: Outcome)    // before or at admission
    | NotStarted               // no adapter, no model path, context over, or no session
    | NotGenerated             // Generate failed or panicked
    | NotWritten               // the closing line was not written

  method Generate(s: Session, sink: Sink) returns (ending: Ending)
    modifies sink, sink.w
    ensures RunScript(ScriptOf(s), old(sink.State())) == Generated(sink.State(), ending)
  {
    hide Fold, OnTok, PayloadScript, RunScript, Payloads;
    ghost var t := sink.State();
    match s
    case Server(body, end, decode) =>
      FoldIsScript(ServerPick, decode, Payloads(body), end, t, "");
      var finish, stop := GenerateServer(body, end, decode, sink);
      ending := if stop == AtEnd || stop == AtDone then Returns(Result("", finish, NO_USAGE)) else Fails;
    case Subprocess(body, end, decode) =>
      FoldIsScript(SubprocessPick, decode, Payloads(body), end, t, "");
      var finish, stop := GenerateSubprocess(body, end, decode, sink);
      ending := if stop == AtEnd || stop == AtDone then Returns(Result("", finish, NO_USAGE)) else Fails;
    case Other(script) =>
      ending := PlayScript(script, sink);
  }

  /** Any adapter at all: what it does next depends on what became of its last token. */
  method PlayScript(script: Script, sink: Sink) returns (ending: Ending)
    modifies sink, sink.w
    ensures RunScript(script, old(sink.State())) == Generated(sink.State(), ending)
  {
    hide OnTok;
    var s := script;
    while s.Offer?
      invariant RunScript(s, sink.State()) == RunScript(script, old(sink.State()))
      decreases s
    {
      var ok := sink.OnToken(s.tok);
      s := if ok then s.taken else s.refused;
    }
    return s.ending;
  }

  datatype Streamed = Streamed(tube: Tube, reply: Reply)

  /** Nothing between admission and Generate fails. */
  predicate Started(r: Request) { r.adapter && r.path && r.alive && r.started }

  /** What an admitted request writes and replies. */
  function Stream(r: Request, t: Tube): Streamed {
    if !Started(r) then Streamed(t, NotStarted)
    else
      var x := Send(ScriptOf(r.session), t);
      Streamed(x.tube, if !x.ending.Returns? then NotGenerated else if x.complete then Fine else NotWritten)
  }

  /** What each reply means. */
  lemma ReplyTells(r: Request, t: Tube)
    ensures var x, s := Stream(r, t), ScriptOf(r.session);
            && (x.reply == NotStarted <==> !(r.adapter && r.path && r.alive && r.started))
            && (x.reply == NotStarted ==> x.tube == t)
            && (x.reply == NotGenerated <==> Started(r) && !RunScript(s, t).ending.Returns?)
            && (x.reply == NotGenerated ==> x.tube == RunScript(s, t).tube)
            && (x.reply == Fine <==> Started(r) && Send(s, t).complete)
            && !x.reply.Refused?
  {
    hide RunScript, WriteWhole, ClosingLine, ScriptOf;
  }

  method RunStream(r: Request, w: Writer) returns (reply: Reply)
    modifies w
    ensures var s := Stream(r, Tube(old(w.wire), "", r.liveTokens)); s.tube.wire == w.wire && s.reply == reply
  {
    hide RunScript, ScriptOf, WriteWhole, FinalText;
    if !r.adapter || !r.path || !r.alive || !r.started {
      return NotStarted;
    }
    var sink := new Sink(w, r.liveTokens);
    var ending := Generate(r.session, sink);
    if !ending.Returns? {
      return NotGenerated;
    }
    var content := ending.result.content;
    if content == "" {
      content := sink.b;
    }
    var ok := WriteAll(w, FinalText(content, ending.result.finish, ending.result.usage) + "\n");
    if !ok {
      return NotWritten;
    }
    return Fine;
  }

  /** Infer on an otherwise quiet manager. Whatever the adapter and the writer do, the manager ends up
      as ensure and admission left it, minus the two slots: the instance moves to the back of the
      recency list with its slots as they were. */
  method Infer(mgr: Manager, r: Request, w: Writer) returns (reply: Reply)
    requires mgr.Valid()
    modifies mgr, mgr.instances.Values, w
    ensures mgr.Valid()
    ensures InferEffect(mgr.cfg, r, if r.model != "" then r.model else mgr.cfg.fallback,
                        old(mgr.Abs()), old(w.wire), mgr.Abs(), w.wire, reply)
  {
    hide Manager.Valid, Lru.Ensure, ServeEffect;
    if !r.live {
      return Refused(Canceled);
    }
    var id := r.model;
    if id == "" {
      id := mgr.cfg.fallback;
      if id == "" {
        return Refused(NotFound);
      }
    }
    var out := mgr.EnsureInstance(id, r.mb, r.rounds, r.fate);
    if out != Succeeded {
      return Refused(out);
    }
    reply := Serve(mgr, r, id, w);
  }

  /** Infer from admission on. */
  method Serve(mgr: Manager, r: Request, id: ModelId, w: Writer) returns (reply: Reply)
    requires mgr.Valid()
    modifies mgr, mgr.instances.Values, w
    ensures mgr.Valid()
    ensures ServeEffect(mgr.cfg, r, id, old(mgr.Abs()), old(w.wire), mgr.Abs(), w.wire, reply)
  {
    hide Manager.Valid, Stream, Lru.Begin;
    ghost var s1 := mgr.Abs();
    var admitted, inst := mgr.BeginGeneration(id, r.leaves);
    if admitted != Succeeded {
      BeginRefusedKeeps(mgr.cfg, s1, id, r.leaves);
      return Refused(admitted);
    }
    BeginThenRelease(mgr.cfg, s1, id, r.leaves);
    mgr.Located(id);
    reply := RunStream(r, w);
    OwnedByKey(mgr, id);
    LastIsFound(mgr);
    mgr.Release(inst);
  }

  /** The effect of Infer, aimed at model `id`, on the manager, the writer and the caller. */
  ghost predicate InferEffect(
    cfg: Config, r: Request, id: ModelId, s: Lru.Cache, wire: Wire, s': Lru.Cache, wire': Wire, reply: Reply)
  {
    if !r.live then s' == s && wire' == wire && reply == Refused(Canceled)
    else if id == "" then s' == s && wire' == wire && reply == Refused(NotFound)
    else
      var (s1, out) := Lru.Ensure(cfg, s, id, r.mb, r.rounds, r.fate);
      if out != Succeeded then s' == s1 && wire' == wire && reply == Refused(out)
      else ServeEffect(cfg, r, id, s1, wire, s', wire', reply)
  }

  /** Refused without a trace, or served, with the instance moved to the back and its slots as they were. */
  ghost predicate ServeEffect(
    cfg: Config, r: Request, id: ModelId, s: Lru.Cache, wire: Wire, s': Lru.Cache, wire': Wire, reply: Reply)
  {
    var i := Lru.Find(s.list, id);
    var begun := Lru.Begin(cfg, s, id, r.leaves).1;
    if begun != Succeeded then s' == s && wire' == wire && reply == Refused(begun)
    else
      var x := Stream(r, Tube(wire, "", r.liveTokens));
      && i < |s.list|
      && s' == s.(list := s.list[..i] + s.list[i + 1..] + [s.list[i]])
      && wire' == x.tube.wire && reply == x.reply
  }

  lemma BeginRefusedKeeps(cfg: Config, s: Lru.Cache, id: ModelId, leaves: Lru.Leaves)
    requires Lru.Begin(cfg, s, id, leaves).1 != Succeeded
    ensures Lru.Begin(cfg, s, id, leaves).0 == s
  {
  }

  /** Releasing right after admission leaves only the move to the back. */
  lemma BeginThenRelease(cfg: Config, s: Lru.Cache, id: ModelId, leaves: Lru.Leaves)
    requires Lru.Begin(cfg, s, id, leaves).1 == Succeeded
    ensures var s2, i := Lru.Begin(cfg, s, id, leaves).0, Lru.Find(s.list, id);
            && i < |s.list| && |s2.list| > 0
            && s2.list[|s2.list| - 1].id == id
            && s2.list[|s2.list| - 1].q > 0 && s2.list[|s2.list| - 1].g > 0
            && Lru.Release(s2, |s2.list| - 1) == s.(list := s.list[..i] + s.list[i + 1..] + [s.list[i]])
  {
    var i := Lru.Find(s.list, id);
    var s2 := Lru.Begin(cfg, s, id, leaves).0;
    var e := s.list[i];
    var rest := Lru.Without(s.list, i);
    assert s2.list == rest + [e.(q := e.q + 1, g := e.g + 1)];
    assert s2.list[|rest| := e] == rest + [e];
  }

  lemma OwnedByKey(mgr: Manager, id: ModelId)
    requires mgr.Valid() && id in mgr.instances
    ensures mgr.instances[id] in mgr.instances.Values && mgr.instances[id].id == id
  {
    mgr.Located(id);
  }

  lemma LastIsFound(mgr: Manager)
    requires mgr.Valid() && |mgr.list| > 0
    ensures Lru.Find(mgr.list, mgr.list[|mgr.list| - 1].id) == |mgr.list| - 1
  {
    FindUnique(mgr.list, mgr.stamps, mgr.instances.Keys, mgr.now, |mgr.list| - 1);
  }

  // ---- what reaches the client ----

  /** Both llama adapters are prompt, and offer the non-empty tokens before `[DONE]`. */
  lemma LlamaIsPrompt(s: Session)
    requires !s.Other?
    ensures var pick := if s.Server? then ServerPick else SubprocessPick;
            && Prompt(ScriptOf(s))
            && Spine(ScriptOf(s)) == Tokens(pick, s.decode, UntilDone(Payloads(s.body)))
            && LastEnding(ScriptOf(s))
               == if s.end.Eof? || DONE in Payloads(s.body)
                  then Returns(Result("", LastFinish(pick, s.decode, UntilDone(Payloads(s.body)), ""), NO_USAGE))
                  else Fails
  {
    PayloadScriptShape(if s.Server? then ServerPick else SubprocessPick, s.decode, Payloads(s.body), s.end, "");
  }

  /** What a request of this kind may send: nothing if it never starts, else what its session promises. */
  function Expected(r: Request): string {
    if Started(r) then Promised(ScriptOf(r.session)) else ""
  }

  /** What goes out is a prefix of what is expected; a fine reply means all of it went out; and if Generate
      did not return, nothing of a closing line did. */
  predicate CleanStream(r: Request, t: Tube) {
    var x := Stream(r, t);
    && t.wire.out <= x.tube.wire.out <= t.wire.out + Expected(r)
    && (x.reply == Fine ==> x.tube.wire.out == t.wire.out + Expected(r) && LastEnding(ScriptOf(r.session)).Returns?)
    && (x.reply == NotGenerated ==> x.tube.wire.out <= t.wire.out + TokenLines(Spine(ScriptOf(r.session))))
    && (x.reply == NotStarted ==> x.tube.wire.out == t.wire.out)
  }

  /** For every prompt session, every writer and every context the stream is clean. */
  lemma StreamIsPrefix(r: Request, t: Tube)
    requires Prompt(ScriptOf(r.session)) && t.built == ""
    ensures CleanStream(r, t)
  {
    hide ScriptOf, Promised, Prompt, RunScript, WriteWhole, TokenLines, ClosingLine;
    PromptIsClean(ScriptOf(r.session), t);
    assert t.wire.out + "" == t.wire.out;
  }

  /** Exactly the adapters whose session, at its first refused token, ends without returning normally keep
      the stream clean on every writer and every context. */
  lemma CleanIff(r: Request)
    requires Started(r)
    ensures (forall t: Tube :: t.built == "" ==> CleanStream(r, t)) <==> Prompt(ScriptOf(r.session))
  {
    hide ScriptOf, Promised, Prompt, RunScript, WriteWhole, TokenLines, ClosingLine;
    var s := ScriptOf(r.session);
    CleanIffPrompt(s);
    if Prompt(s) {
      forall t: Tube | t.built == ""
        ensures CleanStream(r, t)
      {
        StreamIsPrefix(r, t);
      }
    } else {
      var t: Tube :| t.built == "" && !Clean(s, t);
      assert !CleanStream(r, t);
    }
  }

  /** For every session whatever: if Generate fails or panics, what went out is, for each token offered, a
      prefix of its line, and nothing of a closing line. */
  lemma FailureWritesTokensOnly(r: Request, t: Tube) returns (pieces: seq<string>)
    requires Started(r) && Stream(r, t).reply == NotGenerated
    ensures var tried := Tried(ScriptOf(r.session), t);
            && |pieces| == |tried| && (forall i :: 0 <= i < |pieces| ==> pieces[i] <= TokenLine(tried[i]))
            && Stream(r, t).tube.wire.out == t.wire.out + Concat(pieces)
  {
    hide ScriptOf, RunScript, Tried, WriteWhole, TokenLine, Concat;
    pieces := PiecesOfLines(ScriptOf(r.session), t);
  }

  /** Two concrete sessions that are not prompt. One ignores a refused token and goes on; the other takes
      it as the end of the stream. Either makes Infer report success on a garbled stream. */
  lemma CarelessSessionGarbles()
    ensures var r := Request(true, "m", 1, 0, Lru.Warmed, Lru.Stays, true, true, true, true, Other(Careless()), 9);
            var x := Stream(r, Tube(Wire("", [WriteStep(1, true)]), "", 9));
            x.reply == Fine && x.tube.wire.out == "{" + TokenLine("b") + ClosingLine(EMPTY_RESULT, "b")
    ensures var r := Request(true, "m", 1, 0, Lru.Warmed, Lru.Stays, true, true, true, true, Other(Silent()), 9);
            var x := Stream(r, Tube(Wire("", [WriteStep(1, true)]), "", 9));
            x.reply == Fine && x.tube.wire.out == "{" + ClosingLine(EMPTY_RESULT, "")
  {
    hide TokenLine, ClosingLine, WriteWhole, OnTok;
    var t := Tube(Wire("", [WriteStep(1, true)]), "", 9);
    Hiccup("", "", 8, "a");
    assert "" + "{" == "{";
    var t1 := Tube(Wire("{", []), "", 8);
    PatientLine(t1.wire, ClosingLine(EMPTY_RESULT, ""));
    CarelessGoesOn(t1);
  }

  const EMPTY_RESULT := Result("", "", NO_USAGE)

  function Careless(): Script { Offer("a", CarelessRest(), CarelessRest()) }

  function CarelessRest(): Script { Offer("b", Finish(Returns(EMPTY_RESULT)), Finish(Returns(EMPTY_RESULT))) }

  function Silent(): Script { Offer("a", Finish(Returns(EMPTY_RESULT)), Finish(Returns(EMPTY_RESULT))) }

  lemma CarelessGoesOn(t: Tube)
    requires t == Tube(Wire("{", []), "", 8)
    ensures var x := Send(CarelessRest(), t);
            x.ending.Returns? && x.complete && x.tube.wire.out == "{" + TokenLine("b") + ClosingLine(EMPTY_RESULT, "b")
  {
    hide TokenLine, ClosingLine;
    PatientLine(t.wire, TokenLine("b"));
    PatientLine(Wire("{" + TokenLine("b"), []), ClosingLine(EMPTY_RESULT, "b"));
    assert "" + "b" == "b";
  }
}
