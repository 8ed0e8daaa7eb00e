/** Trimming and newline splitting, as the stream readers and the log writer do them. */
module Text {

  /** strings.TrimSpace: unicode.IsSpace. */
  predicate GoSpace(c: char) {
    || c in "\t\n\r "
    || c == '\U{0B}' || c == '\U{0C}' || c == '\U{85}' || c == '\U{A0}' || c == '\U{1680}'
    || '\U{2000}' <= c <= '\U{200A}'
    || c == '\U{2028}' || c == '\U{2029}' || c == '\U{202F}' || c == '\U{205F}' || c == '\U{3000}'
  }

  /** String.prototype.trim: ECMAScript white space and line terminators. */
  predicate JsSpace(c: char) {
    || c in "\t\n\r "
    || c == '\U{0B}' || c == '\U{0C}' || c == '\U{A0}' || c == '\U{FEFF}' || c == '\U{1680}'
    || '\U{2000}' <= c <= '\U{200A}'
    || c == '\U{2028}' || c == '\U{2029}' || c == '\U{202F}' || c == '\U{205F}' || c == '\U{3000}'
  }

  function TrimLeft(space: char -> bool, s: string): string {
    if s != "" && space(s[0]) then TrimLeft(space, s[1..]) else s
  }

  function TrimRight(space: char -> bool, s: string): string {
    if s != "" && space(s[|s| - 1]) then TrimRight(space, s[..|s| - 1]) else s
  }

  function Trim(space: char -> bool, s: string): string { TrimRight(space, TrimLeft(space, s)) }

  predicate AllSpace(space: char -> bool, s: string) { forall i :: 0 <= i < |s| ==> space(s[i]) }

  /** No white space on either end. */
  predicate Trimmed(space: char -> bool, s: string) { s == "" || (!space(s[0]) && !space(s[|s| - 1])) }

  lemma {:induction false} TrimLeftPadded(space: char -> bool, a: string, s: string)
    requires AllSpace(space, a)
    ensures TrimLeft(space, a + s) == TrimLeft(space, s)
  {
    if a == "" {
      assert a + s == s;
    } else {
      TrimLeftPadded(space, a[1..], s);
      assert (a + s)[1..] == a[1..] + s;
    }
  }

  lemma {:induction false} TrimRightPadded(space: char -> bool, s: string, b: string)
    requires AllSpace(space, b)
    ensures TrimRight(space, s + b) == TrimRight(space, s)
  {
    if b == "" {
      assert s + b == s;
    } else {
      var n := |b| - 1;
      TrimRightPadded(space, s, b[..n]);
      assert (s + b)[..|s + b| - 1] == s + b[..n];
    }
  }

  /** Trimming takes off exactly the white space around a trimmed text. */
  lemma TrimPadded(space: char -> bool, a: string, s: string, b: string)
    requires AllSpace(space, a) && AllSpace(space, b) && Trimmed(space, s)
    ensures Trim(space, a + s + b) == s
  {
    hide TrimRight;
    if s == "" {
      assert a + s + b == (a + b) + "";
      TrimLeftPadded(space, a + b, "");
      TrimNothing(space);
    } else {
      assert a + s + b == a + (s + b);
      TrimLeftPadded(space, a, s + b);
      assert TrimLeft(space, s + b) == s + b;
      TrimRightPadded(space, s, b);
      TrimIdentity(space, s);
    }
  }

  lemma TrimNothing(space: char -> bool)
    ensures TrimLeft(space, "") == "" && TrimRight(space, "") == ""
  {
  }

  lemma {:induction false} TrimLeftSplits(space: char -> bool, s: string) returns (a: string)
    ensures s == a + TrimLeft(space, s) && AllSpace(space, a)
    ensures TrimLeft(space, s) == "" || !space(TrimLeft(space, s)[0])
  {
    a := "";
    if s != "" && space(s[0]) {
      var more := TrimLeftSplits(space, s[1..]);
      a := [s[0]] + more;
    }
  }

  lemma {:induction false} TrimRightSplits(space: char -> bool, s: string) returns (b: string)
    ensures s == TrimRight(space, s) + b && AllSpace(space, b)
    ensures var r := TrimRight(space, s); r == "" || !space(r[|r| - 1])
  {
    b := "";
    if s != "" && space(s[|s| - 1]) {
      var more := TrimRightSplits(space, s[..|s| - 1]);
      b := more + [s[|s| - 1]];
    }
  }

  /** Every text is its trimmed form with white space around it; with TrimPadded, only that form is. */
  lemma TrimSplits(space: char -> bool, s: string) returns (a: string, b: string)
    ensures s == a + Trim(space, s) + b && AllSpace(space, a) && AllSpace(space, b) && Trimmed(space, Trim(space, s))
  {
    hide TrimLeft, TrimRight;
    a := TrimLeftSplits(space, s);
    var l := TrimLeft(space, s);
    b := TrimRightSplits(space, l);
    assert Trim(space, s) != "" ==> Trim(space, s)[0] == l[0];
  }

  /** The two notions of white space differ in two characters only. */
  lemma SpacesDiffer(c: char)
    ensures GoSpace(c) != JsSpace(c) <==> c == '\U{85}' || c == '\U{FEFF}'
  {
  }

  lemma TrimIdentity(space: char -> bool, s: string)
    requires s == "" || (!space(s[0]) && !space(s[|s| - 1]))
    ensures Trim(space, s) == s
  {
  }

  /** Position of the first newline; the length when there is none. */
  function Newline(s: string): (i: nat)
    ensures i <= |s|
    ensures i < |s| ==> s[i] == '\n'
    ensures forall j :: 0 <= j < i ==> s[j] != '\n'
  {
    if s == "" then 0 else if s[0] == '\n' then 0 else 1 + Newline(s[1..])
  }

  /** The complete lines of a text, without their newlines. */
  function Lines(s: string): seq<string>
    decreases |s|
  {
    var i := Newline(s);
    if i == |s| then [] else [s[..i]] + Lines(s[i + 1..])
  }

  /** What follows the last newline. */
  function Tail(s: string): string
    decreases |s|
  {
    var i := Newline(s);
    if i == |s| then s else Tail(s[i + 1..])
  }

  function Concat(parts: seq<string>): string {
    if parts == [] then "" else Concat(parts[..|parts| - 1]) + parts[|parts| - 1]
  }

  lemma {:induction false} ConcatSplit(a: seq<string>, b: seq<string>)
    ensures Concat(a + b) == Concat(a) + Concat(b)
  {
    if b == [] {
      assert a + b == a;
    } else {
      var n := |b| - 1;
      ConcatSplit(a, b[..n]);
      assert (a + b)[..|a + b| - 1] == a + b[..n];
    }
  }

  lemma ConcatOne(p: string)
    ensures Concat([p]) == p
  {
    assert [p][..0] == [];
  }

  predicate NoNewline(s: string) { forall i :: 0 <= i < |s| ==> s[i] != '\n' }

  lemma NewlineAfter(a: string, b: string)
    requires NoNewline(a) && (b == "" || b[0] == '\n')
    ensures Newline(a + b) == |a|
  {
    assert forall j :: 0 <= j < |a| ==> (a + b)[j] == a[j];
    assert b != "" ==> (a + b)[|a|] == '\n';
  }

  /** One cut at the first newline, if there is one. */
  lemma Cut(s: string)
    ensures var i := Newline(s);
            if i < |s| then Lines(s) == [s[..i]] + Lines(s[i + 1..]) && Tail(s) == Tail(s[i + 1..])
            else Lines(s) == [] && Tail(s) == s
  {
    hide Newline;
  }

  /** Splitting is incremental: what arrives later only ever continues the tail. */
  lemma {:induction false} LinesContinue(a: string, b: string)
    ensures Lines(a + b) == Lines(a) + Lines(Tail(a) + b)
    ensures Tail(a + b) == Tail(Tail(a) + b)
    decreases |a|
  {
    hide Newline, Lines, Tail;
    var i := Newline(a);
    Cut(a);
    if i < |a| {
      var rest := a[i + 1..];
      LinesContinue(rest, b);
      assert a + b == a[..i] + (a[i..] + b) by {
        assert a == a[..i] + a[i..];
      }
      NewlineAfter(a[..i], a[i..] + b);
      Cut(a + b);
      assert (a + b)[..i] == a[..i] && (a + b)[i + 1..] == rest + b;
      assert [a[..i]] + (Lines(rest) + Lines(Tail(rest) + b)) == [a[..i]] + Lines(rest) + Lines(Tail(rest) + b);
    } else {
      assert [] + Lines(a + b) == Lines(a + b);
    }
  }

  lemma LinesOfOne(line: string, rest: string)
    requires NoNewline(line)
    ensures Lines(line + "\n" + rest) == [line] + Lines(rest)
    ensures Tail(line + "\n" + rest) == Tail(rest)
  {
    hide Newline, Lines, Tail;
    var s := line + "\n" + rest;
    assert s == line + ("\n" + rest);
    NewlineAfter(line, "\n" + rest);
    Cut(s);
    assert s[..|line|] == line && s[|line| + 1..] == rest;
  }

  /** Text made of newline-terminated lines. */
  function Joined(lines: seq<string>): string {
    if lines == [] then "" else lines[0] + "\n" + Joined(lines[1..])
  }

  /** Lines and tail are the only way to cut a text at its newlines. */
  lemma {:induction false} SplitUnique(lines: seq<string>, tail: string)
    requires NoNewline(tail) && forall i :: 0 <= i < |lines| ==> NoNewline(lines[i])
    ensures Lines(Joined(lines) + tail) == lines && Tail(Joined(lines) + tail) == tail
  {
    if lines == [] {
      assert Joined(lines) + tail == tail;
    } else {
      SplitUnique(lines[1..], tail);
      LinesOfOne(lines[0], Joined(lines[1..]) + tail);
      assert Joined(lines) + tail == lines[0] + "\n" + (Joined(lines[1..]) + tail);
    }
  }

  lemma JoinedCons(l: string, ls: seq<string>)
    ensures Joined([l] + ls) == l + "\n" + Joined(ls)
  {
    assert ([l] + ls)[1..] == ls;
  }

  lemma Regroup(l: string, joined: string, tail: string)
    ensures l + "\n" + joined + tail == l + "\n" + (joined + tail)
  {
    assert |l + "\n" + joined + tail| == |l + "\n" + (joined + tail)|;
  }

  lemma {:induction false} SplitRejoins(s: string)
    ensures Joined(Lines(s)) + Tail(s) == s
    decreases |s|
  {
    hide Newline, Lines, Tail, Joined;
    var i := Newline(s);
    Cut(s);
    if i < |s| {
      var rest := s[i + 1..];
      SplitRejoins(rest);
      JoinedCons(s[..i], Lines(rest));
      Regroup(s[..i], Joined(Lines(rest)), Tail(rest));
    } else {
      JoinedNone();
      assert "" + s == s;
    }
  }

  lemma {:induction false} SplitIsPlain(s: string)
    ensures NoNewline(Tail(s))
    ensures forall i :: 0 <= i < |Lines(s)| ==> NoNewline(Lines(s)[i])
    decreases |s|
  {
    hide Lines, Tail;
    Cut(s);
    if Newline(s) < |s| {
      SplitIsPlain(s[Newline(s) + 1..]);
    }
  }

  lemma JoinedNone()
    ensures Joined([]) == ""
  {
  }

  lemma {:induction false} JoinedSplit(a: seq<string>, b: seq<string>)
    ensures Joined(a + b) == Joined(a) + Joined(b)
  {
    hide Joined;
    if a == [] {
      JoinedNone();
      assert a + b == b && "" + Joined(b) == Joined(b);
    } else {
      JoinedSplit(a[1..], b);
      JoinedCons(a[0], a[1..] + b);
      JoinedCons(a[0], a[1..]);
      assert a + b == [a[0]] + (a[1..] + b) && a == [a[0]] + a[1..];
      assert a[0] + "\n" + (Joined(a[1..]) + Joined(b)) == a[0] + "\n" + Joined(a[1..]) + Joined(b);
    }
  }
}
