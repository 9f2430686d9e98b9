/** The SGR machine: colour and attribute codes applied to a display state. Colours 38
    and 48 take the forms of section 13.1.8 of ITU-T T.416. */
module Sgr {
  import opened Text

  /** A colour channel is absent when its parameter was not a number. */
  datatype Color = Palette(index: nat) | Rgb(red: Option<nat>, green: Option<nat>, blue: Option<nat>)

  datatype State = State(
    background: Option<Color>, foreground: Option<Color>,
    bold: bool, dim: bool, hidden: bool, inverse: bool, italic: bool, strike: bool, underline: bool)

  const INITIAL := State(None, None, false, false, false, false, false, false, false)

  /** The CSS a segment carries. */
  datatype Style = Style(
    backgroundColor: Option<Color>, color: Option<Color>, italic: bool, bold: bool, dim: bool,
    underline: bool, lineThrough: bool, hidden: bool)

  function CssStyle(st: State): Style {
    Style(if st.inverse then st.foreground else st.background,
          if st.inverse then st.background else st.foreground,
          st.italic, st.bold, st.dim, st.underline, st.strike, st.hidden)
  }

  /** A parameter is a number, or `None` where JavaScript's `Number` yields NaN. */
  type Code = Option<nat>

  predicate InParameter(c: char) {
    c != ';' && c != ':'
  }

  /** `split(/[;:]/u)` with empty parts dropped, each read by `Number`. */
  function SplitCodes(parameters: string): seq<Code> {
    if parameters == "" then []
    else
      var e := RunEnd(parameters, 0, InParameter);
      if e == 0 then SplitCodes(parameters[1..])
      else
        var part := parameters[..e];
        [if AllIn(part, IsDigit) then Some(Digits(part)) else None] + SplitCodes(parameters[e..])
  }

  function Codes(parameters: string): seq<Code> {
    if parameters == "" then [Some(0)] else SplitCodes(parameters)
  }

  function CubeLevel(part: nat): nat {
    if part == 0 then 0 else 55 + part * 40
  }

  function IndexedColor(code: Code): Option<Color> {
    if code.None? then None
    else
      var index := code.value;
      if index < 16 then Some(Palette(index))
      else if index <= 231 then
        var v := index - 16;
        Some(Rgb(Some(CubeLevel(v / 36)), Some(CubeLevel(v % 36 / 6)), Some(CubeLevel(v % 6))))
      else if index <= 255 then
        var v := 8 + (index - 232) * 10;
        Some(Rgb(Some(v), Some(v), Some(v)))
      else None
  }

  function Channel(code: Code): Option<nat> {
    if code.Some? && code.value > 255 then Some(255) else code
  }

  /** The palette: sixteen named colours, a cube of six levels a side, a ramp of greys, and
      nothing else. */
  lemma PaletteExactly(index: nat)
    ensures index < 16 ==> IndexedColor(Some(index)) == Some(Palette(index))
    ensures forall r, g, b :: 0 <= r < 6 && 0 <= g < 6 && 0 <= b < 6 && index == 16 + 36 * r + 6 * g + b ==>
              IndexedColor(Some(index)) == Some(Rgb(Some(CubeLevel(r)), Some(CubeLevel(g)), Some(CubeLevel(b))))
    ensures forall k :: 0 <= k < 24 && index == 232 + k ==>
              IndexedColor(Some(index)) == Some(Rgb(Some(8 + 10 * k), Some(8 + 10 * k), Some(8 + 10 * k)))
    ensures IndexedColor(Some(index)).None? <==> index > 255
    ensures CubeLevel(0) == 0 && CubeLevel(1) == 95 && CubeLevel(2) == 135 && CubeLevel(3) == 175
            && CubeLevel(4) == 215 && CubeLevel(5) == 255
  {
    CubeLevels();
    hide CubeLevel;
    forall r, g, b | 0 <= r < 6 && 0 <= g < 6 && 0 <= b < 6 && index == 16 + 36 * r + 6 * g + b
      ensures IndexedColor(Some(index)) == Some(Rgb(Some(CubeLevel(r)), Some(CubeLevel(g)), Some(CubeLevel(b))))
    {
      Cube(index - 16, r, g, b);
    }
  }

  lemma CubeLevels()
    ensures CubeLevel(0) == 0 && CubeLevel(1) == 95 && CubeLevel(2) == 135 && CubeLevel(3) == 175
            && CubeLevel(4) == 215 && CubeLevel(5) == 255
  {
  }

  lemma Cube(v: nat, r: nat, g: nat, b: nat)
    requires r < 6 && g < 6 && b < 6 && v == 36 * r + 6 * g + b
    ensures v / 36 == r && v % 36 / 6 == g && v % 6 == b
  {
    assert v % 36 == 6 * g + b;
  }

  /** The colour after a 38 or 48 at `index`, and how many codes it takes with it. */
  function ExtendedColor(codes: seq<Code>, index: nat): (r: (Option<Color>, nat))
    requires index < |codes|
    ensures index + r.1 < |codes|
  {
    if index + 2 < |codes| && codes[index + 1] == Some(5) then (IndexedColor(codes[index + 2]), 2)
    else if index + 4 < |codes| && codes[index + 1] == Some(2) then
      (Some(Rgb(Channel(codes[index + 2]), Channel(codes[index + 3]), Channel(codes[index + 4]))), 4)
    else (None, 0)
  }

  /** The attribute codes; `None` for a code with no action. */
  function Attribute(st: State, n: nat): Option<State> {
    match n
    case 0 => Some(INITIAL)
    case 1 => Some(st.(bold := true))
    case 2 => Some(st.(dim := true))
    case 3 => Some(st.(italic := true))
    case 4 => Some(st.(underline := true))
    case 7 => Some(st.(inverse := true))
    case 8 => Some(st.(hidden := true))
    case 9 => Some(st.(strike := true))
    case 22 => Some(st.(bold := false, dim := false))
    case 23 => Some(st.(italic := false))
    case 24 => Some(st.(underline := false))
    case 27 => Some(st.(inverse := false))
    case 28 => Some(st.(hidden := false))
    case 29 => Some(st.(strike := false))
    case 39 => Some(st.(foreground := None))
    case 49 => Some(st.(background := None))
    case _ => None
  }

  /** One round of the code loop: the new state and the index of the next code. */
  function Step(st: State, codes: seq<Code>, index: nat): (r: (State, nat))
    requires index < |codes|
    ensures index < r.1 <= |codes|
  {
    if codes[index].None? then (st, index + 1)
    else
      var n := codes[index].value;
      if Attribute(st, n).Some? then (Attribute(st, n).value, index + 1)
      else if 30 <= n <= 37 then (st.(foreground := IndexedColor(Some(n - 30))), index + 1)
      else if 90 <= n <= 97 then (st.(foreground := IndexedColor(Some(n - 82))), index + 1)
      else if 40 <= n <= 47 then (st.(background := IndexedColor(Some(n - 40))), index + 1)
      else if 100 <= n <= 107 then (st.(background := IndexedColor(Some(n - 92))), index + 1)
      else if n == 38 then
        var (color, consumed) := ExtendedColor(codes, index);
        (st.(foreground := color), index + 1 + consumed)
      else if n == 48 then
        var (color, consumed) := ExtendedColor(codes, index);
        (st.(background := color), index + 1 + consumed)
      else (st, index + 1)
  }

  /** The effect of the codes from `index` on. */
  function Apply(st: State, codes: seq<Code>, index: nat := 0): State
    requires index <= |codes|
    decreases |codes| - index
  {
    if index == |codes| then st
    else
      var (next, at) := Step(st, codes, index);
      Apply(next, codes, at)
  }

  method ApplySgr(st: State, parameters: string) returns (result: State)
    ensures result == Apply(st, Codes(parameters))
  {
    var codes := Codes(parameters);
    result := st;
    var index := 0;
    while index < |codes|
      invariant index <= |codes|
      invariant Apply(st, codes) == Apply(result, codes, index)
    {
      var (next, at) := Step(result, codes, index);
      result, index := next, at;
    }
  }

  // ---- What each code does ----

  /** One code on its own: the one field it sets or clears, everything else unchanged. */
  lemma CodeSets(st: State, n: nat)
    ensures Apply(st, [Some(n)]) ==
            if n == 0 then State(None, None, false, false, false, false, false, false, false)
            else if n == 1 then st.(bold := true)
            else if n == 2 then st.(dim := true)
            else if n == 3 then st.(italic := true)
            else if n == 4 then st.(underline := true)
            else if n == 7 then st.(inverse := true)
            else if n == 8 then st.(hidden := true)
            else if n == 9 then st.(strike := true)
            else if n == 22 then st.(bold := false, dim := false)
            else if n == 23 then st.(italic := false)
            else if n == 24 then st.(underline := false)
            else if n == 27 then st.(inverse := false)
            else if n == 28 then st.(hidden := false)
            else if n == 29 then st.(strike := false)
            else if 30 <= n <= 37 then st.(foreground := Some(Palette(n - 30)))
            else if 90 <= n <= 97 then st.(foreground := Some(Palette(n - 90 + 8)))
            else if 40 <= n <= 47 then st.(background := Some(Palette(n - 40)))
            else if 100 <= n <= 107 then st.(background := Some(Palette(n - 100 + 8)))
            else if n == 38 || n == 39 then st.(foreground := None)
            else if n == 48 || n == 49 then st.(background := None)
            else st
  {
    hide Attribute, IndexedColor, Apply;
    AttributeSets(st, n);
    ColorSets(st, n);
    LastStep(st, [Some(n)], 0);
  }

  /** Which codes are attributes, and which field each is about. */
  lemma AttributeSets(st: State, n: nat)
    ensures Attribute(st, n) ==
            if n == 0 then Some(INITIAL)
            else if n == 1 then Some(st.(bold := true))
            else if n == 2 then Some(st.(dim := true))
            else if n == 3 then Some(st.(italic := true))
            else if n == 4 then Some(st.(underline := true))
            else if n == 7 then Some(st.(inverse := true))
            else if n == 8 then Some(st.(hidden := true))
            else if n == 9 then Some(st.(strike := true))
            else if n == 22 then Some(st.(bold := false, dim := false))
            else if n == 23 then Some(st.(italic := false))
            else if n == 24 then Some(st.(underline := false))
            else if n == 27 then Some(st.(inverse := false))
            else if n == 28 then Some(st.(hidden := false))
            else if n == 29 then Some(st.(strike := false))
            else if n == 39 then Some(st.(foreground := None))
            else if n == 49 then Some(st.(background := None))
            else None
  {
  }

  lemma ColorSets(st: State, n: nat)
    ensures Attribute(st, n).None? ==>
              Step(st, [Some(n)], 0) ==
              (if 30 <= n <= 37 then st.(foreground := Some(Palette(n - 30)))
               else if 90 <= n <= 97 then st.(foreground := Some(Palette(n - 90 + 8)))
               else if 40 <= n <= 47 then st.(background := Some(Palette(n - 40)))
               else if 100 <= n <= 107 then st.(background := Some(Palette(n - 100 + 8)))
               else if n == 38 then st.(foreground := None)
               else if n == 48 then st.(background := None)
               else st, 1)
  {
    hide Attribute;
  }

  /** A parameter that is no number does nothing. */
  lemma NoNumberSetsNothing(st: State)
    ensures Apply(st, [None]) == st
  {
    LastStep(st, [None], 0);
  }

  /** The indexed and the direct form of section 13.1.8 of ITU-T T.416, for text and background. */
  lemma ExtendedSets(st: State, n: Code, red: nat, green: nat, blue: nat)
    ensures Apply(st, [Some(38), Some(5), n]) == st.(foreground := IndexedColor(n))
    ensures Apply(st, [Some(48), Some(5), n]) == st.(background := IndexedColor(n))
    ensures red <= 255 && green <= 255 && blue <= 255 ==>
              && Apply(st, [Some(38), Some(2), Some(red), Some(green), Some(blue)])
                 == st.(foreground := Some(Rgb(Some(red), Some(green), Some(blue))))
              && Apply(st, [Some(48), Some(2), Some(red), Some(green), Some(blue)])
                 == st.(background := Some(Rgb(Some(red), Some(green), Some(blue))))
    ensures red > 255 ==> Apply(st, [Some(38), Some(2), Some(red), Some(red), Some(red)])
                          == st.(foreground := Some(Rgb(Some(255), Some(255), Some(255))))
  {
    hide Attribute, IndexedColor;
    NoAttribute(st);
    LastStep(st, [Some(38), Some(5), n], 0);
    LastStep(st, [Some(48), Some(5), n], 0);
    LastStep(st, [Some(38), Some(2), Some(red), Some(green), Some(blue)], 0);
    LastStep(st, [Some(48), Some(2), Some(red), Some(green), Some(blue)], 0);
    LastStep(st, [Some(38), Some(2), Some(red), Some(red), Some(red)], 0);
  }

  lemma LastStep(st: State, codes: seq<Code>, index: nat)
    requires index < |codes|
    ensures Step(st, codes, index).1 == |codes| ==> Apply(st, codes, index) == Step(st, codes, index).0
  {
    hide Step;
  }

  /** The style of a segment, field by field; reverse video swaps the two colours. */
  lemma StyleShows(st: State)
    ensures var style := CssStyle(st);
            && style.bold == st.bold && style.dim == st.dim && style.italic == st.italic && style.hidden == st.hidden
            && style.underline == st.underline && style.lineThrough == st.strike
            && (!st.inverse ==> style.color == st.foreground && style.backgroundColor == st.background)
            && (st.inverse ==> style.color == st.background && style.backgroundColor == st.foreground)
  {
  }

  /** Parameters are numerals in base ten, separated by semicolons or colons; empty ones are
      dropped. */
  lemma CodesRead(n: nat, separator: char, rest: string)
    requires separator == ';' || separator == ':'
    ensures Codes("") == [Some(0)]
    ensures Codes(Decimal(n)) == [Some(n)]
    ensures SplitCodes(Decimal(n) + [separator] + rest) == [Some(n)] + SplitCodes(rest)
    ensures SplitCodes([separator] + rest) == SplitCodes(rest)
  {
    hide Decimal, Digits, RunEnd;
    DigitsOfDecimal(n);
    NumeralSplits(n, "");
    NumeralSplits(n, [separator] + rest);
    var sep := [separator] + rest;
    SeparatorSplits(separator, rest);
    assert Decimal(n) + "" == Decimal(n);
    assert Decimal(n) + sep == Decimal(n) + [separator] + rest;
    assert SplitCodes("") == [];
  }

  lemma SeparatorSplits(separator: char, rest: string)
    requires separator == ';' || separator == ':'
    ensures SplitCodes([separator] + rest) == SplitCodes(rest)
  {
    var s := [separator] + rest;
    assert s[1..] == rest && RunEnd(s, 0, InParameter) == 0;
  }

  lemma NumeralSplits(n: nat, tail: string)
    requires tail == "" || !InParameter(tail[0])
    ensures SplitCodes(Decimal(n) + tail) == [Some(n)] + SplitCodes(tail)
  {
    hide Decimal, Digits;
    var t := Decimal(n);
    var s := t + tail;
    assert AllIn(t, InParameter);
    RunEndIs(s, 0, t, InParameter);
    DigitsOfDecimal(n);
    assert s[..|t|] == t && s[|t|..] == tail;
  }

  /** A colour introducer at `index` whose arguments run past the end: more codes would
      change what it means. */
  predicate Short(codes: seq<Code>, index: nat)
    requires index < |codes|
  {
    && (codes[index] == Some(38) || codes[index] == Some(48))
    && (|| index + 1 == |codes|
        || (codes[index + 1] == Some(5) && index + 2 == |codes|)
        || (codes[index + 1] == Some(2) && index + 4 >= |codes|))
  }

  /** No introducer that is reached from `index` on is short of arguments. */
  predicate Complete(codes: seq<Code>, index: nat)
    requires index <= |codes|
    decreases |codes| - index
  {
    index == |codes| || (!Short(codes, index) && Complete(codes, Step(INITIAL, codes, index).1))
  }

  lemma StepAdvance(st: State, other: State, codes: seq<Code>, index: nat)
    requires index < |codes|
    ensures Step(st, codes, index).1 == Step(other, codes, index).1
  {
  }

  /** More codes behind do not change a step that is not short. */
  lemma StepExtends(st: State, a: seq<Code>, b: seq<Code>, index: nat)
    requires index < |a| && !Short(a, index)
    ensures Step(st, a + b, index) == Step(st, a, index)
  {
    hide Attribute, IndexedColor, Channel;
    assert forall k :: 0 <= k < |a| ==> (a + b)[k] == a[k];
  }

  /** Codes in one sequence act as codes in two when the first part is complete. */
  lemma {:induction false} ApplyConcat(st: State, a: seq<Code>, b: seq<Code>, index: nat)
    requires index <= |a| && Complete(a, index)
    ensures Apply(st, a + b, index) == Apply(Apply(st, a, index), b)
    decreases |a| - index
  {
    hide Step, Short;
    if index == |a| {
      ApplyShift(st, a, b, 0);
    } else {
      StepAdvance(st, INITIAL, a, index);
      StepExtends(st, a, b, index);
      ApplyConcat(Step(st, a, index).0, a, b, Step(st, a, index).1);
    }
  }

  /** The arguments a short introducer asks for, ending in a code that would reset. */
  function Missing(codes: seq<Code>, index: nat): seq<Code>
    requires index < |codes| && Short(codes, index)
  {
    if index + 1 == |codes| then [Some(2), Some(0), Some(0), Some(0)]
    else if codes[index + 1] == Some(5) then [Some(0)]
    else seq(index + 5 - |codes|, _ => Some(0))
  }

  lemma MissingResets(st: State, codes: seq<Code>, index: nat)
    requires index < |codes| && Short(codes, index)
    ensures Apply(st, Missing(codes, index)) == INITIAL
  {
    var b := Missing(codes, index);
    hide Attribute, IndexedColor;
    if index + 1 == |codes| {
      TwoOnItsOwn(st, b);
      ZerosReset(Step(st, b, 0).0, b, 1);
    } else {
      ZerosReset(st, b, 0);
    }
  }

  lemma TwoOnItsOwn(st: State, b: seq<Code>)
    requires b != [] && b[0] == Some(2)
    ensures Step(st, b, 0).1 == 1
  {
  }

  lemma {:induction false} ZerosReset(st: State, b: seq<Code>, index: nat)
    requires index < |b| && forall k :: index <= k < |b| ==> b[k] == Some(0)
    ensures Apply(st, b, index) == INITIAL
    decreases |b| - index
  {
    assert Step(st, b, index) == (INITIAL, index + 1);
    if index + 1 < |b| { ZerosReset(INITIAL, b, index + 1); }
  }

  /** With its arguments, a short introducer sets a colour. */
  lemma MissingColors(st: State, codes: seq<Code>, index: nat)
    requires index < |codes| && Short(codes, index)
    ensures Apply(st, codes + Missing(codes, index), index) != INITIAL
  {
    hide Step, Apply;
    var all := codes + Missing(codes, index);
    assert all[index] == codes[index] && (index + 1 < |codes| ==> all[index + 1] == codes[index + 1]);
    FilledColors(st, all, index);
  }

  lemma FilledColors(st: State, codes: seq<Code>, index: nat)
    requires index + 2 < |codes| && (codes[index] == Some(38) || codes[index] == Some(48))
    requires || (codes[index + 1] == Some(5) && codes[index + 2] == Some(0) && |codes| == index + 3)
             || (codes[index + 1] == Some(2) && |codes| == index + 5)
    ensures Apply(st, codes, index) != INITIAL
  {
    hide Attribute;
    NoAttribute(st);
    var (next, at) := Step(st, codes, index);
    assert at == |codes| && (next.foreground.Some? || next.background.Some?);
  }

  lemma NoAttribute(st: State)
    ensures Attribute(st, 38).None? && Attribute(st, 48).None?
  {
  }

  lemma {:induction false} ShortDiffers(st: State, a: seq<Code>, index: nat) returns (b: seq<Code>)
    requires index <= |a| && !Complete(a, index)
    ensures Apply(st, a + b, index) != INITIAL
    ensures forall x :: Apply(x, b) == INITIAL
    decreases |a| - index
  {
    hide Step, Missing;
    if Short(a, index) {
      b := Missing(a, index);
      MissingColors(st, a, index);
      forall x ensures Apply(x, b) == INITIAL { MissingResets(x, a, index); }
    } else {
      StepAdvance(st, INITIAL, a, index);
      b := ShortDiffers(Step(st, a, index).0, a, Step(st, a, index).1);
      StepExtends(st, a, b, index);
    }
  }

  /** A sequence can be split after `a`, whatever follows, exactly when no colour introducer
      reached in `a` is short of its arguments. */
  lemma SplitsExactly(st: State, a: seq<Code>)
    ensures (forall b :: Apply(st, a + b) == Apply(Apply(st, a), b)) <==> Complete(a, 0)
  {
    hide Apply, Complete;
    if Complete(a, 0) {
      forall b
        ensures Apply(st, a + b) == Apply(Apply(st, a), b)
      {
        ApplyConcat(st, a, b, 0);
      }
    } else {
      var b := ShortDiffers(st, a, 0);
      assert Apply(Apply(st, a), b) == INITIAL;
    }
  }

  lemma {:induction false} ApplyShift(st: State, a: seq<Code>, b: seq<Code>, index: nat)
    requires index <= |b|
    ensures Apply(st, a + b, |a| + index) == Apply(st, b, index)
    decreases |b| - index
  {
    hide Attribute, IndexedColor, Channel;
    if index < |b| {
      assert forall k :: 0 <= k < |b| ==> (a + b)[|a| + k] == b[k];
      var (next, at) := Step(st, b, index);
      assert Step(st, a + b, |a| + index) == (next, |a| + at);
      ApplyShift(next, a, b, at);
    }
  }

  /** Whatever came before, a reset code starts over. */
  lemma ResetForgets(st: State, codes: seq<Code>)
    ensures Apply(st, [Some(0)] + codes) == Apply(INITIAL, codes)
  {
    assert Complete([Some(0)], 0);
    ApplyConcat(st, [Some(0)], codes, 0);
    assert Apply(st, [Some(0)]) == INITIAL;
  }
}
