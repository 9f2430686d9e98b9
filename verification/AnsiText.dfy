/** `parseAnsi`: control sequences of section 5.4 of ECMA-48 are taken out of log text
    and the SGR codes of its section 8.3.117 style what is left. Where the code departs
    from those sections, the model follows the code. */
module AnsiText {
  import opened Text
  import opened Sgr

  const ESC := '\U{001B}'
  const BEL := '\U{0007}'
  const CSI := '\U{009B}'
  const LOST := '\U{FFFD}'

  predicate IsEscape(c: char) {
    c == ESC || c == LOST
  }

  predicate IsParameter(c: char) {
    '0' <= c <= '?'
  }

  predicate IsIntermediate(c: char) {
    ' ' <= c <= '/'
  }

  /** `[@-~]` under the flags `iu`: the long s and the Kelvin sign fold into the class. */
  predicate IsFinal(c: char) {
    '@' <= c <= '~' || c == '\U{017F}' || c == '\U{212A}'
  }

  predicate NotBel(c: char) {
    c != BEL
  }

  /** The character classes by code point: section 5.4 of ECMA-48 and the two letters that case
      folding adds. */
  lemma ClassesRead(c: char)
    ensures IsEscape(c) <==> c as int == 0x1B || c as int == 0xFFFD
    ensures IsParameter(c) <==> 0x30 <= c as int <= 0x3F
    ensures IsIntermediate(c) <==> 0x20 <= c as int <= 0x2F
    ensures IsFinal(c) <==> 0x40 <= c as int <= 0x7E || c as int == 0x17F || c as int == 0x212A
    ensures NotBel(c) <==> c as int != 7
    ensures IsPlain(c) <==> c as int !in {0x1B, 0x9B, 0xFFFD}
  {
  }

  // ---- The control-sequence grammar, read declaratively ----

  ghost predicate AllFrom(s: string, lo: nat, hi: nat, cls: char -> bool)
    requires lo <= hi <= |s|
  {
    forall k :: lo <= k < hi ==> cls(s[k])
  }

  predicate OscIntro(s: string, i: nat) {
    i + 2 <= |s| && IsEscape(s[i]) && s[i + 1] == ']'
  }

  predicate Terminator(s: string, k: nat) {
    k + 2 <= |s| && IsEscape(s[k]) && s[k + 1] == '\\'
  }

  /** Offset of the first parameter, if a control sequence introducer stands at `i`. */
  function CsiBody(s: string, i: nat): (r: Option<nat>)
    ensures r.Some? ==> i < r.value <= |s|
  {
    if i < |s| && s[i] == CSI then Some(i + 1)
    else if i + 2 <= |s| && IsEscape(s[i]) && s[i + 1] == '[' then Some(i + 2)
    else None
  }

  ghost predicate IsOsc(s: string, i: nat, j: nat, k: nat) {
    && OscIntro(s, i) && i + 2 <= k < j <= |s| && AllFrom(s, i + 2, k, NotBel)
    && ((s[k] == BEL && j == k + 1) || (Terminator(s, k) && j == k + 2))
  }

  ghost predicate IsCsi(s: string, i: nat, j: nat, a: nat, b: nat) {
    && CsiBody(s, i).Some? && CsiBody(s, i).value <= a <= b < j <= |s| && j == b + 1
    && AllFrom(s, CsiBody(s, i).value, a, IsParameter) && AllFrom(s, a, b, IsIntermediate) && IsFinal(s[b])
  }

  /** `s[i..j]` is a control sequence. */
  ghost predicate IsControl(s: string, i: nat, j: nat) {
    (exists k :: IsOsc(s, i, j, k)) || (exists a, b :: IsCsi(s, i, j, a, b))
  }

  // ---- The regular expression at one offset ----

  /** A matched sequence: where it ends, and its parameters if the command is `m`. */
  datatype Control = Control(end: nat, sgr: Option<string>)

  /** The last string terminator inside `s[lo..hi]`. */
  function LastTerminator(s: string, lo: nat, hi: nat): (r: Option<nat>)
    requires hi <= |s|
    ensures r.Some? ==> lo <= r.value < |s| && Terminator(s, r.value)
    ensures r.None? ==> forall k :: lo <= k < hi ==> !Terminator(s, k)
  {
    if hi <= lo then None
    else if Terminator(s, hi - 1) then Some(hi - 1)
    else LastTerminator(s, lo, hi - 1)
  }

  /** Greedy: the first BEL if there is one, else the last terminator of all. */
  function OscAt(s: string, i: nat): Option<Control>
    requires OscIntro(s, i)
  {
    var bel := RunEnd(s, i + 2, NotBel);
    if bel < |s| then Some(Control(bel + 1, None))
    else match LastTerminator(s, i + 2, |s|)
         case None => None
         case Some(k) => Some(Control(k + 2, None))
  }

  function CsiAt(s: string, body: nat): Option<Control>
    requires body <= |s|
  {
    var a := RunEnd(s, body, IsParameter);
    var b := RunEnd(s, a, IsIntermediate);
    if b < |s| && IsFinal(s[b])
    then Some(Control(b + 1, if s[b] == 'm' then Some(s[body..a]) else None))
    else None
  }

  function ControlAt(s: string, i: nat): (r: Option<Control>)
    ensures r.Some? ==> i < r.value.end <= |s|
  {
    if OscIntro(s, i) then OscAt(s, i)
    else match CsiBody(s, i)
         case None => None
         case Some(body) => CsiAt(s, body)
  }

  lemma GreedyRun(s: string, i: nat, cls: char -> bool)
    requires i <= |s|
    ensures AllFrom(s, i, RunEnd(s, i, cls), cls)
    ensures RunEnd(s, i, cls) < |s| ==> !cls(s[RunEnd(s, i, cls)])
  {
    RunIsGreedy(s, i, cls);
    var end := RunEnd(s, i, cls);
    forall k | i <= k < end
      ensures cls(s[k])
    {
      assert s[i..end][k - i] == s[k];
    }
  }

  lemma GreedyStops(s: string, i: nat, j: nat, cls: char -> bool)
    requires i <= j <= |s| && AllFrom(s, i, j, cls) && (j < |s| ==> !cls(s[j]))
    ensures RunEnd(s, i, cls) == j
  {
    GreedyRun(s, i, cls);
  }

  /** What is matched is a control sequence. */
  lemma MatchedIsControl(s: string, i: nat)
    requires ControlAt(s, i).Some?
    ensures IsControl(s, i, ControlAt(s, i).value.end)
  {
    hide RunEnd;
    var end := ControlAt(s, i).value.end;
    if OscIntro(s, i) {
      GreedyRun(s, i + 2, NotBel);
      var bel := RunEnd(s, i + 2, NotBel);
      assert IsOsc(s, i, end, if bel < |s| then bel else end - 2);
    } else {
      var body := CsiBody(s, i).value;
      GreedyRun(s, body, IsParameter);
      var a := RunEnd(s, body, IsParameter);
      GreedyRun(s, a, IsIntermediate);
      assert IsCsi(s, i, end, a, RunEnd(s, a, IsIntermediate));
    }
  }

  lemma {:induction false} LastIsLast(s: string, lo: nat, hi: nat, k: nat)
    requires hi <= |s| && lo <= k < hi && Terminator(s, k)
    ensures LastTerminator(s, lo, hi).Some? && k <= LastTerminator(s, lo, hi).value
  {
    if k < hi - 1 && !Terminator(s, hi - 1) { LastIsLast(s, lo, hi - 1, k); }
  }

  /** Of all control sequences that begin at an offset, the longest is matched. */
  lemma LongestIsMatched(s: string, i: nat, j: nat)
    requires IsControl(s, i, j)
    ensures ControlAt(s, i).Some? && j <= ControlAt(s, i).value.end
  {
    hide RunEnd, LastTerminator;
    if k :| IsOsc(s, i, j, k) {
      GreedyRun(s, i + 2, NotBel);
      var bel := RunEnd(s, i + 2, NotBel);
      assert k <= bel;
      if bel == |s| { LastIsLast(s, i + 2, |s|, k); }
    } else {
      var a, b :| IsCsi(s, i, j, a, b);
      GreedyStops(s, a, b, IsIntermediate);
      GreedyStops(s, CsiBody(s, i).value, a, IsParameter);
    }
  }

  /** A control sequence of a part is one of the whole. */
  lemma ControlInSlice(s: string, lo: nat, hi: nat, i: nat, j: nat)
    requires lo <= hi <= |s| && IsControl(s[lo..hi], i, j)
    ensures IsControl(s, lo + i, lo + j)
  {
    var t := s[lo..hi];
    assert forall k :: 0 <= k < |t| ==> t[k] == s[lo + k];
    if k :| IsOsc(t, i, j, k) {
      assert AllFrom(s, lo + i + 2, lo + k, NotBel) by {
        forall x | lo + i + 2 <= x < lo + k ensures NotBel(s[x]) { assert t[x - lo] == s[x]; }
      }
      assert IsOsc(s, lo + i, lo + j, lo + k);
    } else {
      var a, b :| IsCsi(t, i, j, a, b);
      var body := CsiBody(t, i).value;
      forall x | lo + body <= x < lo + a ensures IsParameter(s[x]) { assert t[x - lo] == s[x]; }
      forall x | lo + a <= x < lo + b ensures IsIntermediate(s[x]) { assert t[x - lo] == s[x]; }
      assert CsiBody(s, lo + i) == Some(lo + body);
      assert IsCsi(s, lo + i, lo + j, lo + a, lo + b);
    }
  }

  // ---- The terminal, one character at a time ----

  datatype Segment = Segment(style: Style, text: string)

  function Flush(pending: string, st: State): seq<Segment> {
    if pending == "" then [] else [Segment(CssStyle(st), pending)]
  }

  function After(st: State, sgr: Option<string>): State {
    if sgr.Some? then Apply(st, Codes(sgr.value)) else st
  }

  /** At each offset either a control sequence takes effect or one character is shown. */
  function Terminal(s: string, i: nat, pending: string, st: State): seq<Segment>
    decreases |s| - i
  {
    if i >= |s| then Flush(pending, st)
    else if ControlAt(s, i).Some? then
      var c := ControlAt(s, i).value;
      Flush(pending, st) + Terminal(s, c.end, "", After(st, c.sgr))
    else Terminal(s, i + 1, pending + [s[i]], st)
  }

  function Parse(s: string): seq<Segment> {
    Terminal(s, 0, "", INITIAL)
  }

  /** The leftmost control sequence at or after `from`. */
  function FindControl(s: string, from: nat): (r: nat)
    requires from <= |s|
    ensures from <= r <= |s|
    ensures r < |s| ==> ControlAt(s, r).Some?
    decreases |s| - from
  {
    if from == |s| || ControlAt(s, from).Some? then from else FindControl(s, from + 1)
  }

  lemma {:induction false} FindControlIsLeftmost(s: string, from: nat, k: nat)
    requires from <= |s| && from <= k < FindControl(s, from)
    ensures ControlAt(s, k).None?
    decreases |s| - from
  {
    hide ControlAt;
    if from < k { FindControlIsLeftmost(s, from + 1, k); }
  }

  /** Plain characters up to the next control sequence only lengthen the pending text. */
  lemma {:induction false} TerminalSkips(s: string, from: nat, pending: string, st: State)
    requires from <= |s|
    ensures var at := FindControl(s, from);
            Terminal(s, from, pending, st) == Terminal(s, at, pending + s[from..at], st)
    decreases |s| - from
  {
    hide ControlAt;
    var at := FindControl(s, from);
    if from == at {
      assert pending + s[from..at] == pending;
    } else {
      TerminalSkips(s, from + 1, pending + [s[from]], st);
      assert pending + s[from..at] == pending + [s[from]] + s[from + 1..at];
    }
  }

  lemma TerminalRound(s: string, offset: nat, st: State)
    requires offset <= |s|
    ensures var at := FindControl(s, offset);
            Terminal(s, offset, "", st) ==
            Flush(s[offset..at], st)
            + if at == |s| then [] else Terminal(s, ControlAt(s, at).value.end, "", After(st, ControlAt(s, at).value.sgr))
  {
    hide ControlAt, Apply, Codes;
    TerminalSkips(s, offset, "", st);
    var at := FindControl(s, offset);
    assert "" + s[offset..at] == s[offset..at];
  }

  /** `parseAnsi` refines the terminal. */
  method ParseAnsi(text: string) returns (segments: seq<Segment>)
    ensures segments == Parse(text)
  {
    hide ControlAt, Apply, Terminal, FindControl, Codes;
    var st := INITIAL;
    segments := [];
    var offset := 0;
    var index := FindControl(text, 0);
    while index < |text|
      invariant offset <= index <= |text| && index == FindControl(text, offset)
      invariant Parse(text) == segments + Terminal(text, offset, "", st)
      decreases |text| - offset
    {
      TerminalRound(text, offset, st);
      var c := ControlAt(text, index).value;
      if index > offset {
        segments := segments + [Segment(CssStyle(st), text[offset..index])];
      }
      if c.sgr.Some? {
        st := ApplySgr(st, c.sgr.value);
      }
      offset := c.end;
      index := FindControl(text, offset);
    }
    TerminalRound(text, offset, st);
    assert text[offset..index] == text[offset..];
    if offset < |text| {
      segments := segments + [Segment(CssStyle(st), text[offset..])];
    }
  }

  // ---- Nothing is lost and nothing hides ----

  /** The input cut into shown text and control sequences. */
  datatype Piece = Shown(text: string) | Hidden(text: string, sgr: Option<string>)

  function Pieces(s: string, offset: nat): seq<Piece>
    requires offset <= |s|
    decreases |s| - offset
  {
    var at := FindControl(s, offset);
    (if at == offset then [] else [Shown(s[offset..at])])
    + (if at == |s| then []
       else
         var c := ControlAt(s, at).value;
         [Hidden(s[at..c.end], c.sgr)] + Pieces(s, c.end))
  }

  function Rebuild(ps: seq<Piece>): string {
    if ps == [] then "" else ps[0].text + Rebuild(ps[1..])
  }

  /** The display state after all control sequences of `ps`. */
  function StateAfter(ps: seq<Piece>, st: State): State {
    if ps == [] then st
    else StateAfter(ps[1..], if ps[0].Hidden? then After(st, ps[0].sgr) else st)
  }

  /** Each shown piece in the style of all SGR codes before it. */
  function Styled(ps: seq<Piece>, st: State): seq<Segment> {
    if ps == [] then []
    else if ps[0].Shown? then [Segment(CssStyle(st), ps[0].text)] + Styled(ps[1..], st)
    else Styled(ps[1..], After(st, ps[0].sgr))
  }

  /** A segment's style is the fold of every SGR code of every piece before it. */
  lemma {:induction false} StyleIsFold(before: seq<Piece>, text: string, after: seq<Piece>, st: State)
    ensures Styled(before + [Shown(text)] + after, st)
         == Styled(before, st) + [Segment(CssStyle(StateAfter(before, st)), text)] + Styled(after, StateAfter(before, st))
    decreases |before|
  {
    hide Apply, Codes;
    var all := before + [Shown(text)] + after;
    if before == [] {
      assert all[1..] == after;
    } else {
      assert all[1..] == before[1..] + [Shown(text)] + after;
      StyleIsFold(before[1..], text, after, if before[0].Hidden? then After(st, before[0].sgr) else st);
    }
  }

  /** Shown and hidden pieces put back together are the input. */
  lemma {:induction false} PiecesRebuild(s: string, offset: nat)
    requires offset <= |s|
    ensures Rebuild(Pieces(s, offset)) == s[offset..]
    decreases |s| - offset
  {
    hide ControlAt, FindControl;
    var at := FindControl(s, offset);
    if at < |s| {
      var c := ControlAt(s, at).value;
      var rest := [Hidden(s[at..c.end], c.sgr)] + Pieces(s, c.end);
      PiecesRebuild(s, c.end);
      assert rest[1..] == Pieces(s, c.end);
      assert Rebuild(rest) == s[at..c.end] + s[c.end..] == s[at..];
      if at > offset {
        var all := [Shown(s[offset..at])] + rest;
        assert all[1..] == rest && all == Pieces(s, offset);
        assert s[offset..] == s[offset..at] + s[at..];
      } else {
        assert Pieces(s, offset) == [] + rest == rest;
      }
    } else if at > offset {
      assert s[offset..at] == s[offset..];
      assert Pieces(s, offset) == [Shown(s[offset..])];
      assert Rebuild(Pieces(s, offset)[1..]) == "";
    }
  }

  ghost predicate PieceOk(p: Piece) {
    && p.text != ""
    && (p.Shown? ==> forall i, j :: !IsControl(p.text, i, j))
    && (p.Hidden? ==> IsControl(p.text, 0, |p.text|))
  }

  /** No piece is empty, no shown piece contains a complete control sequence, and every
      hidden piece is one. */
  lemma {:induction false} PiecesOk(s: string, offset: nat)
    requires offset <= |s|
    ensures forall p :: p in Pieces(s, offset) ==> PieceOk(p)
    decreases |s| - offset
  {
    hide ControlAt, FindControl, IsControl;
    var at := FindControl(s, offset);
    forall i, j
      ensures !IsControl(s[offset..at], i, j)
    {
      if IsControl(s[offset..at], i, j) {
        ControlInSlice(s, offset, at, i, j);
        LongestIsMatched(s, offset + i, offset + j);
        ControlNotEmpty(s[offset..at], i, j);
        FindControlIsLeftmost(s, offset, offset + i);
      }
    }
    if at < |s| {
      var c := ControlAt(s, at).value;
      MatchedIsControl(s, at);
      ControlOfSlice(s, at, c.end);
      PiecesOk(s, c.end);
    }
  }

  lemma ControlNotEmpty(s: string, i: nat, j: nat)
    requires IsControl(s, i, j)
    ensures i < j <= |s|
  {
  }

  lemma ControlOfSlice(s: string, i: nat, j: nat)
    requires IsControl(s, i, j)
    ensures j <= |s| && IsControl(s[i..j], 0, j - i)
  {
    ControlNotEmpty(s, i, j);
    var t := s[i..j];
    assert forall k :: 0 <= k < |t| ==> t[k] == s[i + k];
    if k: nat :| IsOsc(s, i, j, k) {
      assert IsOsc(t, 0, j - i, k - i);
    } else {
      var a: nat, b: nat :| IsCsi(s, i, j, a, b);
      assert CsiBody(t, 0) == Some(CsiBody(s, i).value - i);
      assert IsCsi(t, 0, j - i, a - i, b - i);
    }
  }

  /** The terminal shows exactly the shown pieces, each in the style of the codes before it. */
  lemma {:induction false} TerminalIsStyled(s: string, offset: nat, st: State)
    requires offset <= |s|
    ensures Terminal(s, offset, "", st) == Styled(Pieces(s, offset), st)
    decreases |s| - offset
  {
    hide ControlAt, FindControl, Apply;
    var at := FindControl(s, offset);
    TerminalSkips(s, offset, "", st);
    assert "" + s[offset..at] == s[offset..at];
    var ps := Pieces(s, offset);
    if at < |s| {
      var c := ControlAt(s, at).value;
      TerminalIsStyled(s, c.end, After(st, c.sgr));
      var rest := [Hidden(s[at..c.end], c.sgr)] + Pieces(s, c.end);
      assert rest[1..] == Pieces(s, c.end);
      if at > offset {
        assert ps == [Shown(s[offset..at])] + rest && ps[1..] == rest;
      } else {
        assert ps == rest;
      }
    } else if at > offset {
      assert ps == [Shown(s[offset..at])] && ps[1..] == [];
    }
  }

  /** The parse, whole: shown text and hidden sequences rebuild the input, no shown text is
      empty or contains a sequence, and what is shown is styled by the sequences before it. */
  lemma ParseIsExact(s: string)
    ensures Parse(s) == Styled(Pieces(s, 0), INITIAL)
    ensures Rebuild(Pieces(s, 0)) == s
    ensures forall p :: p in Pieces(s, 0) ==> PieceOk(p)
  {
    TerminalIsStyled(s, 0, INITIAL);
    PiecesRebuild(s, 0);
    PiecesOk(s, 0);
  }

  // ---- What single sequences do ----

  predicate IsPlain(c: char) {
    c != ESC && c != LOST && c != CSI
  }

  /** Text no sequence can begin in. */
  predicate Plain(text: string) {
    forall k :: 0 <= k < |text| ==> IsPlain(text[k])
  }

  lemma {:induction false} PlainFrom(s: string, i: nat, pending: string, st: State)
    requires i <= |s| && forall k :: i <= k < |s| ==> IsPlain(s[k])
    ensures Terminal(s, i, pending, st) == Flush(pending + s[i..], st)
    decreases |s| - i
  {
    if i < |s| {
      assert IsPlain(s[i]);
      PlainFrom(s, i + 1, pending + [s[i]], st);
      assert pending + s[i..] == pending + [s[i]] + s[i + 1..];
    } else {
      assert pending + s[i..] == pending;
    }
  }

  /** The three ways a control sequence can be introduced. */
  predicate Introduces(intro: string) {
    intro == [ESC] + "[" || intro == [LOST] + "[" || intro == [CSI]
  }

  /** A control sequence is taken whole, and only the command `m` carries its parameters on. */
  lemma CsiIsTaken(intro: string, parameters: string, intermediates: string, command: char, rest: string)
    requires Introduces(intro) && (forall c <- parameters :: '0' <= c <= '?')
    requires (forall c <- intermediates :: ' ' <= c <= '/') && '@' <= command <= '~'
    ensures ControlAt(intro + parameters + intermediates + [command] + rest, 0) ==
            Some(Control(|intro| + |parameters| + |intermediates| + 1, if command == 'm' then Some(parameters) else None))
  {
    hide RunEnd;
    var s := intro + parameters + intermediates + [command] + rest;
    var a := |intro| + |parameters|;
    var b := a + |intermediates|;
    forall k | |intro| <= k < a
      ensures IsParameter(s[k])
    {
      assert s[k] == parameters[k - |intro|] && s[k] in parameters;
    }
    forall k | a <= k < b
      ensures IsIntermediate(s[k])
    {
      assert s[k] == intermediates[k - a] && s[k] in intermediates;
    }
    assert s[b] == command && s[..|intro|] == intro;
    assert CsiBody(s, 0) == Some(|intro|) && !OscIntro(s, 0) by {
      assert s[0] == intro[0] && (|intro| == 2 ==> s[1] == intro[1]);
    }
    GreedyStops(s, a, b, IsIntermediate);
    assert a < b ==> s[a] == intermediates[0] && s[a] in intermediates;
    GreedyStops(s, |intro|, a, IsParameter);
    assert s[|intro|..a] == parameters;
  }

  /** Behind a sequence the scan goes on afresh, in the state the sequence leaves. */
  lemma AfterControl(x: string, rest: string, st: State, sgr: Option<string>)
    requires x != "" && ControlAt(x + rest, 0) == Some(Control(|x|, sgr))
    ensures Terminal(x + rest, 0, "", st) == Terminal(rest, 0, "", After(st, sgr))
  {
    hide *;
    TerminalStep(x + rest, st);
    TerminalShifts(x, rest, 0, "", After(st, sgr));
    assert |x| + 0 == |x|;
  }

  lemma TerminalStep(s: string, st: State)
    requires s != "" && ControlAt(s, 0).Some?
    ensures var c := ControlAt(s, 0).value; Terminal(s, 0, "", st) == Terminal(s, c.end, "", After(st, c.sgr))
  {
    hide ControlAt, Apply, Codes;
    var c := ControlAt(s, 0).value;
    assert Terminal(s, 0, "", st) == [] + Terminal(s, c.end, "", After(st, c.sgr));
  }

  /** One code and text: one segment in the style of that code. */
  lemma SgrShows(intro: string, n: nat, text: string)
    requires Introduces(intro) && Plain(text) && text != ""
    ensures Parse(intro + Decimal(n) + "m" + text) == [Segment(CssStyle(Apply(INITIAL, [Some(n)])), text)]
  {
    hide ControlAt, Apply, Codes, Decimal, Terminal;
    var x := intro + Decimal(n) + "" + ['m'];
    assert forall c <- Decimal(n) :: '0' <= c <= '?';
    CsiIsTaken(intro, Decimal(n), "", 'm', text);
    assert x + text == intro + Decimal(n) + "m" + text;
    AfterControl(x, text, INITIAL, Some(Decimal(n)));
    CodesRead(n, ';', "");
    assert text[0..] == text && "" + text == text;
    PlainFrom(text, 0, "", Apply(INITIAL, [Some(n)]));
  }

  /** Red text is red text: the eight colours on their own, as they are seen. */
  lemma ColorShows(intro: string, k: nat, text: string)
    requires Introduces(intro) && Plain(text) && text != "" && k < 8
    ensures Parse(intro + Decimal(30 + k) + "m" + text)
            == [Segment(Style(None, Some(Palette(k)), false, false, false, false, false, false), text)]
    ensures Parse(intro + Decimal(40 + k) + "m" + text)
            == [Segment(Style(Some(Palette(k)), None, false, false, false, false, false, false), text)]
  {
    hide Parse, Apply;
    SgrShows(intro, 30 + k, text);
    SgrShows(intro, 40 + k, text);
    CodeSets(INITIAL, 30 + k);
    CodeSets(INITIAL, 40 + k);
  }

  /** Any other command vanishes without effect. */
  lemma OtherCommandIsHidden(intro: string, parameters: string, intermediates: string, command: char, rest: string)
    requires Introduces(intro) && (forall c <- parameters :: '0' <= c <= '?')
    requires (forall c <- intermediates :: ' ' <= c <= '/') && '@' <= command <= '~' && command != 'm'
    ensures Parse(intro + parameters + intermediates + [command] + rest) == Parse(rest)
  {
    hide ControlAt;
    CsiIsTaken(intro, parameters, intermediates, command, rest);
    AfterControl(intro + parameters + intermediates + [command], rest, INITIAL, None);
  }

  /** An OSC up to its BEL vanishes without effect. */
  lemma OscIsHidden(escape: char, c: string, rest: string)
    requires (escape == ESC || escape == LOST) && BEL !in c
    ensures Parse([escape, ']'] + c + [BEL] + rest) == Parse(rest)
  {
    hide RunEnd;
    var x := [escape, ']'] + c + [BEL];
    var s := x + rest;
    assert forall k :: 2 <= k < |c| + 2 ==> s[k] == c[k - 2];
    assert s[|c| + 2] == BEL;
    GreedyStops(s, 2, |c| + 2, NotBel);
    assert ControlAt(s, 0) == Some(Control(|x|, None));
    hide ControlAt;
    AfterControl(x, rest, INITIAL, None);
  }

  /** Without a BEL, an OSC ends with its last string terminator. */
  lemma TerminatedOscIsHidden(escape: char, c: string, second: char, text: string)
    requires (escape == ESC || escape == LOST) && (second == ESC || second == LOST)
    requires BEL !in c && BEL !in text && Plain(text)
    ensures Parse([escape, ']'] + c + [second, '\\'] + text) == Parse(text)
  {
    hide RunEnd, LastTerminator;
    var x := [escape, ']'] + c + [second, '\\'];
    var s := x + text;
    var k := |c| + 2;
    assert s[0] == escape && s[1] == ']' && s[k] == second && s[k + 1] == '\\';
    forall j | 2 <= j < |s|
      ensures NotBel(s[j])
    {
      assert j < k ==> s[j] == c[j - 2] && c[j - 2] in c;
      assert j >= k + 2 ==> s[j] == text[j - k - 2] && text[j - k - 2] in text;
    }
    GreedyStops(s, 2, |s|, NotBel);
    LastIsLast(s, 2, |s|, k);
    forall j | k < j < |s|
      ensures !Terminator(s, j)
    {
      assert j >= k + 2 ==> s[j] == text[j - k - 2] && IsPlain(text[j - k - 2]);
    }
    assert ControlAt(s, 0) == Some(Control(|x|, None));
    hide ControlAt;
    AfterControl(x, text, INITIAL, None);
  }

  /** An introducer that nothing ends is shown like text. */
  lemma UnendedOscIsShown(escape: char, c: string)
    requires (escape == ESC || escape == LOST) && BEL !in c && Plain(c)
    ensures Parse([escape, ']'] + c) == [Segment(CssStyle(INITIAL), [escape, ']'] + c)]
  {
    hide RunEnd, LastTerminator, Terminal;
    var s := [escape, ']'] + c;
    forall j | 2 <= j < |s|
      ensures NotBel(s[j]) && !Terminator(s, j)
    {
      assert s[j] == c[j - 2] && c[j - 2] in c && IsPlain(c[j - 2]);
    }
    GreedyStops(s, 2, |s|, NotBel);
    assert ControlAt(s, 0).None?;
    PlainTail(s);
  }

  lemma PlainTail(s: string)
    requires s != "" && ControlAt(s, 0).None? && forall k :: 1 <= k < |s| ==> IsPlain(s[k])
    ensures Parse(s) == [Segment(CssStyle(INITIAL), s)]
  {
    hide ControlAt;
    assert Terminal(s, 0, "", INITIAL) == Terminal(s, 1, "" + [s[0]], INITIAL);
    PlainFrom(s, 1, "" + [s[0]], INITIAL);
    assert "" + [s[0]] + s[1..] == s;
  }

  // ---- A reset splits parsing ----

  const RESET: string := [ESC] + "[0m"

  /** Where the scan goes on after `i`. */
  function Next(s: string, i: nat): (n: nat)
    ensures i < n
  {
    if ControlAt(s, i).Some? then ControlAt(s, i).value.end else i + 1
  }

  /** An OSC introducer with no BEL behind it. */
  predicate OpensAt(a: string, i: nat) {
    OscIntro(a, i) && RunEnd(a, i + 2, NotBel) == |a|
  }

  /** The first open OSC that the scan of `a` from `i` meets. */
  function FirstOpen(a: string, i: nat): Option<nat>
    decreases |a| - i
  {
    if i >= |a| then None
    else if OpensAt(a, i) then Some(i)
    else FirstOpen(a, Next(a, i))
  }

  predicate OscClosed(a: string, i: nat) {
    FirstOpen(a, i).None?
  }

  /** The display state after the scan of `s` from `i`. */
  function StateFrom(s: string, i: nat, st: State): State
    decreases |s| - i
  {
    if i >= |s| then st
    else StateFrom(s, Next(s, i), if ControlAt(s, i).Some? then After(st, ControlAt(s, i).value.sgr) else st)
  }

  lemma RunEndExtends(a: string, t: string, i: nat, cls: char -> bool)
    requires i <= |a| && t != "" && (RunEnd(a, i, cls) < |a| || !cls(t[0]))
    ensures RunEnd(a + t, i, cls) == RunEnd(a, i, cls)
  {
    hide RunEnd;
    GreedyRun(a, i, cls);
    GreedyStops(a + t, i, RunEnd(a, i, cls), cls);
  }

  lemma {:induction false} RunEndShifts(x: string, b: string, i: nat, cls: char -> bool)
    requires i <= |b|
    ensures RunEnd(x + b, |x| + i, cls) == |x| + RunEnd(b, i, cls)
    decreases |b| - i
  {
    if i < |b| {
      assert (x + b)[|x| + i] == b[i];
      RunEndShifts(x, b, i + 1, cls);
    }
  }

  lemma {:induction false} LastTerminatorShifts(x: string, b: string, lo: nat, hi: nat)
    requires hi <= |b|
    ensures LastTerminator(x + b, |x| + lo, |x| + hi) ==
            if LastTerminator(b, lo, hi).None? then None else Some(|x| + LastTerminator(b, lo, hi).value)
    decreases hi
  {
    if lo < hi {
      assert (x + b)[|x| + hi - 1] == b[hi - 1];
      assert hi < |b| ==> (x + b)[|x| + hi] == b[hi];
      LastTerminatorShifts(x, b, lo, hi - 1);
    }
  }

  /** What follows a text does not change the sequences inside it, unless an OSC is open. */
  lemma ControlExtends(a: string, t: string, i: nat)
    requires i < |a| && t != "" && IsEscape(t[0])
    requires OscIntro(a, i) ==> RunEnd(a, i + 2, NotBel) < |a|
    ensures ControlAt(a + t, i) == ControlAt(a, i)
  {
    hide RunEnd;
    var s := a + t;
    assert s[i] == a[i] && (i + 1 < |a| ==> s[i + 1] == a[i + 1]) && (i + 1 == |a| ==> s[i + 1] == t[0]);
    if OscIntro(a, i) {
      RunEndExtends(a, t, i + 2, NotBel);
    } else if CsiBody(a, i).Some? {
      var body := CsiBody(a, i).value;
      RunEndExtends(a, t, body, IsParameter);
      var x := RunEnd(a, body, IsParameter);
      RunEndExtends(a, t, x, IsIntermediate);
      assert s[body..x] == a[body..x];
    }
  }

  function Moved(r: Option<Control>, distance: nat): Option<Control> {
    if r.None? then None else Some(Control(distance + r.value.end, r.value.sgr))
  }

  /** Recognition does not look back. */
  lemma ControlShifts(x: string, b: string, i: nat)
    requires i < |b|
    ensures ControlAt(x + b, |x| + i) == Moved(ControlAt(b, i), |x|)
  {
    hide RunEnd, LastTerminator, OscAt, CsiAt;
    var s := x + b;
    assert s[|x| + i] == b[i] && (i + 1 < |b| ==> s[|x| + i + 1] == b[i + 1]);
    if OscIntro(b, i) {
      OscShifts(x, b, i);
    } else if CsiBody(b, i).Some? {
      CsiShifts(x, b, CsiBody(b, i).value);
    }
  }

  lemma OscShifts(x: string, b: string, i: nat)
    requires OscIntro(b, i) && OscIntro(x + b, |x| + i)
    ensures OscAt(x + b, |x| + i) == Moved(OscAt(b, i), |x|)
  {
    hide RunEnd, LastTerminator;
    RunEndShifts(x, b, i + 2, NotBel);
    LastTerminatorShifts(x, b, i + 2, |b|);
    assert |x| + (i + 2) == |x| + i + 2;
  }

  lemma CsiShifts(x: string, b: string, body: nat)
    requires body <= |b|
    ensures CsiAt(x + b, |x| + body) == Moved(CsiAt(b, body), |x|)
  {
    hide RunEnd;
    var s := x + b;
    RunEndShifts(x, b, body, IsParameter);
    var a := RunEnd(b, body, IsParameter);
    RunEndShifts(x, b, a, IsIntermediate);
    assert s[|x| + body..|x| + a] == b[body..a];
    var e := RunEnd(b, a, IsIntermediate);
    assert e < |b| ==> s[|x| + e] == b[e];
  }

  lemma {:induction false} TerminalShifts(x: string, b: string, i: nat, pending: string, st: State)
    requires i <= |b|
    ensures Terminal(x + b, |x| + i, pending, st) == Terminal(b, i, pending, st)
    decreases |b| - i
  {
    hide ControlAt, Apply, Codes;
    if i < |b| {
      ControlShifts(x, b, i);
      if ControlAt(b, i).Some? {
        var c := ControlAt(b, i).value;
        TerminalShifts(x, b, c.end, "", After(st, c.sgr));
      } else {
        assert (x + b)[|x| + i] == b[i];
        TerminalShifts(x, b, i + 1, pending + [b[i]], st);
      }
    }
  }

  lemma ResetResets(st: State)
    ensures Apply(st, Codes("0")) == INITIAL
  {
    assert RunEnd("0", 0, InParameter) == 1;
    assert "0"[..1] == "0" && "0"[1..] == "" && "0"[..0] == "";
    assert Digits("0") == 0;
    assert Codes("0") == [Some(0)] + [];
    ResetForgets(st, []);
  }

  lemma ResetControl(a: string, b: string)
    ensures ControlAt(a + (RESET + b), |a|) == Some(Control(|a| + 4, Some("0")))
  {
    hide RunEnd;
    var s := RESET + b;
    assert s[0] == ESC && s[1] == '[' && s[2] == '0' && s[3] == 'm';
    GreedyStops(s, 2, 3, IsParameter);
    GreedyStops(s, 3, 3, IsIntermediate);
    assert s[2..3] == "0";
    ControlShifts(a, s, 0);
  }

  /** Text that leaves no OSC open is scanned the same whatever sequence stands behind it. */
  lemma {:induction false} LeadSplits(lead: string, t: string, i: nat, pending: string, st: State)
    requires i <= |lead| && OscClosed(lead, i) && t != "" && IsEscape(t[0]) && ControlAt(lead + t, |lead|).Some?
    ensures var c := ControlAt(lead + t, |lead|).value;
            Terminal(lead + t, i, pending, st) ==
            Terminal(lead, i, pending, st) + Terminal(lead + t, c.end, "", After(StateFrom(lead, i, st), c.sgr))
    decreases |lead| - i
  {
    hide ControlAt, Apply, Codes, RunEnd;
    if i < |lead| {
      ControlExtends(lead, t, i);
      if ControlAt(lead, i).Some? {
        var c := ControlAt(lead, i).value;
        LeadSplits(lead, t, c.end, "", After(st, c.sgr));
      } else {
        assert (lead + t)[i] == lead[i];
        LeadSplits(lead, t, i + 1, pending + [lead[i]], st);
      }
    }
  }

  lemma ResetSplits(a: string, b: string)
    requires OscClosed(a, 0)
    ensures Parse(a + (RESET + b)) == Parse(a) + Parse(b)
  {
    hide ControlAt, Apply, Codes, Terminal, FirstOpen;
    var t := RESET + b;
    assert t[0] == ESC;
    ResetControl(a, b);
    LeadSplits(a, t, 0, "", INITIAL);
    ResetResets(StateFrom(a, 0, INITIAL));
    assert a + t == (a + RESET) + b;
    TerminalShifts(a + RESET, b, 0, "", INITIAL);
  }

  // ---- An open OSC ----

  /** What precedes the first open OSC leaves none open. */
  lemma {:induction false} LeadIsClosed(a: string, i: nat, o: nat)
    requires FirstOpen(a, i) == Some(o)
    ensures i <= o < |a| && OpensAt(a, o) && OscClosed(a[..o], i)
    decreases |a| - i
  {
    hide RunEnd, ControlAt;
    if !OpensAt(a, i) {
      LeadIsClosed(a, Next(a, i), o);
      LeadControl(a, i, o);
    }
  }

  /** A sequence that ends before an escape is the same without what follows. */
  lemma LeadControl(a: string, i: nat, o: nat)
    requires i < o < |a| && IsEscape(a[o]) && !OpensAt(a, i) && Next(a, i) <= o
    ensures ControlAt(a[..o], i) == ControlAt(a, i) && !OpensAt(a[..o], i)
  {
    hide RunEnd;
    var lead, t := a[..o], a[o..];
    assert lead + t == a;
    if OscIntro(a, i) {
      GreedyRun(a, i + 2, NotBel);
      GreedyStops(lead, i + 2, RunEnd(a, i + 2, NotBel), NotBel);
    }
    ControlExtends(lead, t, i);
  }

  /** A reset behind an open OSC is swallowed with everything up to the next BEL: what shows
      is the text before the OSC, and then the rest in the state that text had reached. */
  lemma OpenOscSwallows(a: string, o: nat, c: string, d: string)
    requires FirstOpen(a, 0) == Some(o) && BEL !in c
    ensures o < |a|
    ensures Parse(a + (RESET + (c + ([BEL] + d)))) == Parse(a[..o]) + Terminal(d, 0, "", StateFrom(a[..o], 0, INITIAL))
  {
    hide ControlAt, Apply, Codes, Terminal, FirstOpen, RunEnd, OscClosed;
    LeadIsClosed(a, 0, o);
    var s := a + (RESET + (c + ([BEL] + d)));
    var lead := a[..o];
    Swallowed(a, o, c, d);
    assert s == lead + s[o..] && s[o..][0] == a[o];
    LeadSplits(lead, s[o..], 0, "", INITIAL);
    var x := a + RESET + c + [BEL];
    assert s == x + d && |x| == |a| + 5 + |c|;
    TerminalShifts(x, d, 0, "", StateFrom(lead, 0, INITIAL));
  }

  lemma Swallowed(a: string, o: nat, c: string, d: string)
    requires o < |a| && OpensAt(a, o) && BEL !in c
    ensures ControlAt(a + (RESET + (c + ([BEL] + d))), o) == Some(Control(|a| + 5 + |c|, None))
  {
    hide RunEnd;
    var t := RESET + (c + ([BEL] + d));
    var s := a + t;
    GreedyRun(a, o + 2, NotBel);
    assert RESET[0] == ESC && RESET[1] == '[' && RESET[2] == '0' && RESET[3] == 'm' && |RESET| == 4;
    var bel := |a| + 4 + |c|;
    assert t[4 + |c|] == BEL;
    forall k | o + 2 <= k < bel
      ensures NotBel(s[k])
    {
      assert s[k] == if k < |a| then a[k] else if k < |a| + 4 then RESET[k - |a|] else c[k - |a| - 4];
    }
    GreedyStops(s, o + 2, bel, NotBel);
    assert s[bel] == BEL;
  }

  /** Two characters are enough to make a reset disappear. */
  lemma OpenOscExists()
    ensures var a: string := [ESC, ']'];
            && !OscClosed(a, 0)
            && Parse(a + (RESET + [BEL])) == [] && Parse(a) + Parse([BEL]) != []
  {
    var a: string := [ESC, ']'];
    assert RunEnd(a, 2, NotBel) == 2;
    assert FirstOpen(a, 0) == Some(0);
    OpenOscSwallows(a, 0, "", "");
    BelIsShown();
    assert RESET + ("" + ([BEL] + "")) == RESET + [BEL];
    assert a[..0] == "";
  }

  function ShownLength(segments: seq<Segment>): nat {
    if segments == [] then 0 else |segments[0].text| + ShownLength(segments[1..])
  }

  lemma {:induction false} ShownLengthConcat(x: seq<Segment>, y: seq<Segment>)
    ensures ShownLength(x + y) == ShownLength(x) + ShownLength(y)
  {
    if x == [] {
      assert x + y == y;
    } else {
      assert (x + y)[1..] == x[1..] + y;
      ShownLengthConcat(x[1..], y);
    }
  }

  lemma {:induction false} PendingIsShown(s: string, i: nat, pending: string, st: State)
    ensures ShownLength(Terminal(s, i, pending, st)) >= |pending|
    decreases |s| - i
  {
    hide ControlAt, Apply, Codes;
    if i < |s| {
      if ControlAt(s, i).Some? {
        var c := ControlAt(s, i).value;
        ShownLengthConcat(Flush(pending, st), Terminal(s, c.end, "", After(st, c.sgr)));
      } else {
        PendingIsShown(s, i + 1, pending + [s[i]], st);
      }
    }
  }

  /** Cutting the input at an open OSC shows no more. */
  lemma {:induction false} LeadShowsNoMore(a: string, i: nat, o: nat, pending: string, st: State)
    requires FirstOpen(a, i) == Some(o)
    ensures o < |a| && ShownLength(Terminal(a[..o], i, pending, st)) <= ShownLength(Terminal(a, i, pending, st))
    decreases |a| - i
  {
    hide ControlAt, Apply, Codes, RunEnd;
    LeadIsClosed(a, i, o);
    var lead := a[..o];
    if OpensAt(a, i) {
      PendingIsShown(a, i, pending, st);
    } else {
      LeadIsClosed(a, Next(a, i), o);
      LeadControl(a, i, o);
      if ControlAt(a, i).Some? {
        var c := ControlAt(a, i).value;
        LeadShowsNoMore(a, c.end, o, "", After(st, c.sgr));
        ShownLengthConcat(Flush(pending, st), Terminal(a, c.end, "", After(st, c.sgr)));
        ShownLengthConcat(Flush(pending, st), Terminal(lead, c.end, "", After(st, c.sgr)));
      } else {
        assert lead[i] == a[i];
        LeadShowsNoMore(a, i + 1, o, pending + [a[i]], st);
      }
    }
  }

  lemma BelIsShown()
    ensures ShownLength(Parse([BEL])) == 1
  {
    var s: string := [BEL];
    assert ControlAt(s, 0).None?;
    assert Parse(s) == Terminal(s, 1, "" + [BEL], INITIAL) == [Segment(CssStyle(INITIAL), "" + [BEL])];
  }

  /** Parsing `a`, a reset and `b` is parsing `a` and then `b` afresh, for every `b`, exactly
      when the scan of `a` leaves no OSC introducer without a BEL. */
  lemma ResetSplitsExactly(a: string)
    ensures (forall b :: Parse(a + (RESET + b)) == Parse(a) + Parse(b)) <==> OscClosed(a, 0)
  {
    hide Terminal, FirstOpen, ShownLength;
    if OscClosed(a, 0) {
      forall b
        ensures Parse(a + (RESET + b)) == Parse(a) + Parse(b)
      {
        ResetSplits(a, b);
      }
    } else {
      var o := FirstOpen(a, 0).value;
      OpenOscSwallows(a, o, "", "");
      NothingToShow(StateFrom(a[..o], 0, INITIAL));
      LeadShowsNoMore(a, 0, o, "", INITIAL);
      BelIsShown();
      ShownLengthConcat(Parse(a), Parse([BEL]));
      assert RESET + ("" + ([BEL] + "")) == RESET + [BEL];
      assert Parse(a + (RESET + [BEL])) == Parse(a[..o]) + [] == Parse(a[..o]);
    }
  }

  lemma NothingToShow(st: State)
    ensures Terminal("", 0, "", st) == []
  {
  }

  /** In particular for every `a` without an OSC introducer. */
  lemma {:induction false} NoOscIsClosed(a: string, i: nat)
    requires forall k: nat :: k < |a| ==> !OscIntro(a, k)
    ensures OscClosed(a, i)
    decreases |a| - i
  {
    if i < |a| {
      NoOscIsClosed(a, Next(a, i));
    }
  }
}
