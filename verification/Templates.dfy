/** The `${{resource.OUTPUT}}` template language: the regular expression that
    recognises a reference, the tokens a value splits into, and the printer. */
module Templates {
  import opened Text

  predicate IsSpace(c: char) {
    || '\t' <= c <= '\r' || c == ' ' || c == '\U{00A0}' || c == '\U{1680}'
    || '\U{2000}' <= c <= '\U{200A}' || c == '\U{2028}' || c == '\U{2029}'
    || c == '\U{202F}' || c == '\U{205F}' || c == '\U{3000}' || c == '\U{FEFF}'
  }

  /** What JavaScript's `\s` and `trim` take for a blank, by code point. */
  lemma SpaceIsListed(c: char)
    ensures IsSpace(c) <==>
            c as int in {9, 10, 11, 12, 13, 32, 160, 5760, 8192, 8193, 8194, 8195, 8196, 8197, 8198, 8199, 8200, 8201, 8202,
                         8232, 8233, 8239, 8287, 12288, 65279}
  {
  }

  predicate IsAlnum(c: char) {
    'a' <= c <= 'z' || '0' <= c <= '9'
  }

  predicate IsNameChar(c: char) {
    IsAlnum(c) || c == '-'
  }

  predicate IsOutputStart(c: char) {
    'A' <= c <= 'Z' || 'a' <= c <= 'z' || c == '_'
  }

  predicate IsOutputChar(c: char) {
    IsOutputStart(c) || '0' <= c <= '9'
  }

  /** `[a-z0-9](?:[a-z0-9-]{0,61}[a-z0-9])?` */
  predicate IsResourceName(r: string) {
    1 <= |r| <= 63 && AllIn(r, IsNameChar) && IsAlnum(r[0]) && IsAlnum(r[|r| - 1])
  }

  /** `[A-Za-z_][A-Za-z0-9_]*` */
  predicate IsOutputName(o: string) {
    1 <= |o| && IsOutputStart(o[0]) && AllIn(o, IsOutputChar)
  }

  predicate LowerOrDigit(c: char) {
    'a' <= c <= 'z' || '0' <= c <= '9'
  }

  /** The two name patterns, read as they are written: a resource begins and ends with a small
      letter or digit, with at most sixty-one of those or hyphens in between. */
  lemma ResourceNameIsPattern(r: string)
    ensures IsResourceName(r) <==>
            || (|r| == 1 && LowerOrDigit(r[0]))
            || (&& 2 <= |r| <= 2 + 61 && LowerOrDigit(r[0]) && LowerOrDigit(r[|r| - 1])
                && forall k :: 1 <= k < |r| - 1 ==> LowerOrDigit(r[k]) || r[k] == '-')
  {
    if 2 <= |r| {
      assert AllIn(r, IsNameChar) <==> forall k :: 0 <= k < |r| ==> IsNameChar(r[k]);
    }
  }

  lemma OutputNameIsPattern(o: string)
    ensures IsOutputName(o) <==>
            && |o| >= 1 && ('A' <= o[0] <= 'Z' || 'a' <= o[0] <= 'z' || o[0] == '_')
            && forall k :: 1 <= k < |o| ==>
                 'A' <= o[k] <= 'Z' || 'a' <= o[k] <= 'z' || '0' <= o[k] <= '9' || o[k] == '_'
  {
  }

  const OPENING := "${{"
  const CLOSING := "}}"

  datatype Match = Match(start: nat, end: nat, resource: string, output: string)

  function Spelling(resource: string, output: string, lead: string, trail: string): string {
    OPENING + (lead + (resource + ("." + (output + (trail + CLOSING)))))
  }

  /** The expression pattern read declaratively: some split of the text into
      opening, blanks, resource, dot, output, blanks and closing. */
  ghost predicate Spells(s: string, m: Match, lead: string, trail: string) {
    && IsResourceName(m.resource) && IsOutputName(m.output)
    && AllIn(lead, IsSpace) && AllIn(trail, IsSpace)
    && OccursAt(s, Spelling(m.resource, m.output, lead, trail), m.start)
    && m.end == m.start + |Spelling(m.resource, m.output, lead, trail)|
  }

  /** The pattern tried at one offset, by greedy runs. */
  function MatchAt(s: string, i: nat): (r: Option<Match>)
    ensures r.Some? ==> OccursAt(s, OPENING, i) && r.value.start == i && i + 8 <= r.value.end <= |s|
    ensures r.Some? ==> IsResourceName(r.value.resource) && IsOutputName(r.value.output)
  {
    if !OccursAt(s, OPENING, i) then None
    else
      var a := RunEnd(s, i + 3, IsSpace);
      var b := RunEnd(s, a, IsNameChar);
      if !(b < |s| && s[b] == '.' && IsResourceName(s[a..b])) then None
      else
        var c := RunEnd(s, b + 1, IsOutputChar);
        var d := RunEnd(s, c, IsSpace);
        if IsOutputName(s[b + 1..c]) && OccursAt(s, CLOSING, d)
        then Some(Match(i, d + 2, s[a..b], s[b + 1..c]))
        else None
  }

  /** A spelling occurs exactly when its six pieces occur one after the other. */
  lemma SpellingPieces(s: string, i: nat, resource: string, output: string, lead: string, trail: string)
    ensures OccursAt(s, Spelling(resource, output, lead, trail), i) <==>
            var a := i + 3 + |lead|;
            var b := a + |resource|;
            var c := b + 1 + |output|;
            && OccursAt(s, OPENING, i) && OccursAt(s, lead, i + 3) && OccursAt(s, resource, a)
            && OccursAt(s, ".", b) && OccursAt(s, output, b + 1)
            && OccursAt(s, trail, c) && OccursAt(s, CLOSING, c + |trail|)
  {
    var a := i + 3 + |lead|;
    var b := a + |resource|;
    var tail := trail + CLOSING;
    OccursConcat(s, OPENING, lead + (resource + ("." + (output + tail))), i);
    OccursConcat(s, lead, resource + ("." + (output + tail)), i + 3);
    OccursConcat(s, resource, "." + (output + tail), a);
    OccursConcat(s, ".", output + tail, b);
    OccursConcat(s, output, tail, b + 1);
    OccursConcat(s, trail, CLOSING, b + 1 + |output|);
  }

  /** Greedy matching finds a reference exactly where one can be spelled, and
      there is only one way to spell it. */
  lemma MatchAtExact(s: string, m: Match)
    ensures MatchAt(s, m.start) == Some(m) <==> exists lead, trail :: Spells(s, m, lead, trail)
  {
    if MatchAt(s, m.start) == Some(m) {
      var _, _ := MatchedIsSpelled(s, m);
    }
    forall lead, trail | Spells(s, m, lead, trail)
      ensures MatchAt(s, m.start) == Some(m)
    {
      SpelledIsMatched(s, m, lead, trail);
    }
  }

  lemma MatchedIsSpelled(s: string, m: Match) returns (lead: string, trail: string)
    requires MatchAt(s, m.start) == Some(m)
    ensures Spells(s, m, lead, trail)
  {
    hide OccursAt, AllIn, RunEnd, IsSpace, IsNameChar, IsOutputChar, IsResourceName, IsOutputName, Spelling;
    var i := m.start;
    var a := RunEnd(s, i + 3, IsSpace);
    var b := RunEnd(s, a, IsNameChar);
    var c := RunEnd(s, b + 1, IsOutputChar);
    var d := RunEnd(s, c, IsSpace);
    lead, trail := s[i + 3..a], s[c..d];
    RunIsGreedy(s, i + 3, IsSpace);
    RunIsGreedy(s, c, IsSpace);
    SliceOccurs(s, i + 3, a);
    SliceOccurs(s, a, b);
    SliceOccurs(s, b, b + 1);
    SliceOccurs(s, b + 1, c);
    SliceOccurs(s, c, d);
    assert s[b..b + 1] == ".";
    SpellingPieces(s, i, m.resource, m.output, lead, trail);
    SpellingLength(m.resource, m.output, lead, trail);
  }

  lemma SpellingLength(resource: string, output: string, lead: string, trail: string)
    ensures |Spelling(resource, output, lead, trail)| == |lead| + |resource| + |output| + |trail| + 6
  {
  }

  lemma SpelledIsMatched(s: string, m: Match, lead: string, trail: string)
    requires Spells(s, m, lead, trail)
    ensures MatchAt(s, m.start) == Some(m)
  {
    hide OccursAt, AllIn, RunEnd, IsSpace, IsNameChar, IsOutputChar, IsOutputName, IsResourceName, Spelling;
    SpellingPieces(s, m.start, m.resource, m.output, lead, trail);
    SpellingLength(m.resource, m.output, lead, trail);
    var a := m.start + 3 + |lead|;
    var b := a + |m.resource|;
    var c := b + 1 + |m.output|;
    Boundaries(s, a, m.resource, b + 1, m.output, trail);
    RunEndIs(s, m.start + 3, lead, IsSpace);
    RunEndIs(s, a, m.resource, IsNameChar);
    RunEndIs(s, b + 1, m.output, IsOutputChar);
    RunEndIs(s, c, trail, IsSpace);
    assert s[b] == '.';
  }

  /** The characters at which the greedy runs of a reference stop. */
  lemma Boundaries(s: string, a: nat, resource: string, o: nat, output: string, trail: string)
    requires IsResourceName(resource) && IsOutputName(output) && AllIn(trail, IsSpace)
    requires OccursAt(s, resource, a) && o == a + |resource| + 1 && OccursAt(s, ".", o - 1)
    requires OccursAt(s, output, o) && OccursAt(s, trail, o + |output|)
    requires OccursAt(s, CLOSING, o + |output| + |trail|)
    ensures AllIn(resource, IsNameChar) && AllIn(output, IsOutputChar)
    ensures s[a..o - 1] == resource && s[o..o + |output|] == output && s[o - 1] == '.'
    ensures !IsSpace(s[a]) && !IsNameChar(s[o - 1])
    ensures !IsOutputChar(s[o + |output|]) && !IsSpace(s[o + |output| + |trail|])
  {
    assert resource[0] == s[a + 0] && "."[0] == s[o - 1 + 0];
    assert CLOSING[0] == s[o + |output| + |trail| + 0];
    assert trail != "" ==> trail[0] == s[o + |output| + 0];
    OccursSlice(s, resource, a);
    OccursSlice(s, output, o);
  }

  /** A reference holds no second dollar sign, so no opening lies inside one. */
  lemma NoDollarInside(s: string, m: Match, k: nat)
    requires m.start < k < m.end <= |s| && MatchAt(s, m.start) == Some(m)
    ensures s[k] != '$'
  {
    var lead, trail := MatchedIsSpelled(s, m);
    assert Spelling(m.resource, m.output, lead, trail)[k - m.start] == s[k];
  }

  /** The leftmost match at or after `from`, as `matchAll` yields it. */
  function FindMatch(s: string, from: nat): (r: Option<Match>)
    ensures r.Some? ==> from <= r.value.start < r.value.end <= |s|
    ensures r.Some? ==> IsResourceName(r.value.resource) && IsOutputName(r.value.output)
    decreases |s| - from
  {
    if MatchAt(s, from).Some? then MatchAt(s, from)
    else if from >= |s| then None
    else FindMatch(s, from + 1)
  }

  lemma {:induction false} FindMatchIsLeftmost(s: string, from: nat)
    ensures var r := FindMatch(s, from);
            && (r.Some? ==> MatchAt(s, r.value.start) == r
                            && forall k: nat :: from <= k < r.value.start ==> MatchAt(s, k).None?)
            && (r.None? ==> forall k: nat :: from <= k <= |s| ==> MatchAt(s, k).None?)
    decreases |s| - from
  {
    hide MatchAt;
    if MatchAt(s, from).None? && from < |s| {
      FindMatchIsLeftmost(s, from + 1);
    }
  }

  /** A match with no earlier one is the leftmost. */
  lemma LeftmostIs(s: string, from: nat, m: Match)
    requires from <= m.start && MatchAt(s, m.start) == Some(m)
    requires forall k: nat :: from <= k < m.start ==> MatchAt(s, k).None?
    ensures FindMatch(s, from) == Some(m)
    decreases m.start - from
  {
    hide MatchAt;
    if from < m.start { LeftmostIs(s, from + 1, m); }
  }

  /** A value as the expander sees it. `Malformed` is literal text that holds an
      opening no reference accounts for. */
  datatype Token =
    | Literal(text: string)
    | Ref(resource: string, output: string)
    | Malformed

  function LiteralToken(text: string): Token {
    if Includes(text, OPENING) then Malformed else Literal(text)
  }

  function TokensFrom(s: string, cursor: nat): (ts: seq<Token>)
    requires cursor <= |s|
    ensures forall t <- ts :: t.Ref? ==> IsResourceName(t.resource) && IsOutputName(t.output)
    decreases |s| - cursor
  {
    match FindMatch(s, cursor)
    case None => [LiteralToken(s[cursor..])]
    case Some(m) =>
      [LiteralToken(s[cursor..m.start]), Ref(m.resource, m.output)] + TokensFrom(s, m.end)
  }

  function Tokens(s: string): (ts: seq<Token>)
    ensures forall t <- ts :: t.Ref? ==> IsResourceName(t.resource) && IsOutputName(t.output)
  {
    TokensFrom(s, 0)
  }

  /** `reference` of the mock state: the canonical spelling, without blanks. */
  function PrintRef(resource: string, output: string): string {
    OPENING + resource + "." + output + CLOSING
  }

  /** The printed reference is the spelling without blanks, which is the shortest. */
  lemma PrintedIsShortest(resource: string, output: string, lead: string, trail: string)
    ensures PrintRef(resource, output) == Spelling(resource, output, "", "")
    ensures |PrintRef(resource, output)| <= |Spelling(resource, output, lead, trail)|
    ensures PrintRef("db", "URL") == "${{db.URL}}"
  {
  }

  function Print(ts: seq<Token>): string {
    if ts == [] then ""
    else (match ts[0]
          case Literal(text) => text
          case Ref(resource, output) => PrintRef(resource, output)
          case Malformed => OPENING) + Print(ts[1..])
  }

  /** Literals and references alternate, beginning and ending with a literal;
      literals are free of openings and references are valid. */
  predicate IsTemplate(ts: seq<Token>) {
    && |ts| >= 1
    && ts[0].Literal? && !Includes(ts[0].text, OPENING)
    && (|ts| == 1
        || (&& |ts| >= 3 && ts[1].Ref?
            && IsResourceName(ts[1].resource) && IsOutputName(ts[1].output)
            && IsTemplate(ts[2..])))
  }

  /** Templates are all that can be built from literals by putting references between them. */
  lemma TemplatesGrow(text: string, resource: string, output: string, ts: seq<Token>)
    requires !Includes(text, OPENING)
    ensures IsTemplate([Literal(text)])
    ensures IsResourceName(resource) && IsOutputName(output) && IsTemplate(ts) ==>
              IsTemplate([Literal(text), Ref(resource, output)] + ts)
  {
    hide Includes, IsResourceName, IsOutputName;
    assert ([Literal(text), Ref(resource, output)] + ts)[2..] == ts;
  }

  /** Round trip: scanning a printed template gives the template back. */
  lemma RoundTrip(ts: seq<Token>)
    requires IsTemplate(ts)
    ensures Tokens(Print(ts)) == ts
  {
    assert Print(ts)[0..] == Print(ts);
    ScanPrinted(Print(ts), 0, ts);
  }

  lemma {:induction false} ScanPrinted(s: string, cursor: nat, ts: seq<Token>)
    requires cursor <= |s| && IsTemplate(ts) && s[cursor..] == Print(ts)
    ensures TokensFrom(s, cursor) == ts
    decreases |ts|
  {
    hide MatchAt, FindMatch, OccursAt, Includes, IsResourceName, IsOutputName, PrintRef;
    var text := ts[0].text;
    if |ts| == 1 {
      assert ts[1..] == [];
      assert s[cursor..|s|] == s[cursor..] == text;
      assert ts == [Literal(text)];
      NoMatchBefore(s, cursor, |s|);
      FindMatchIsLeftmost(s, cursor);
    } else {
      var m := PrintedMatch(s, cursor, ts);
      NoMatchBefore(s, cursor, m.start);
      LeftmostIs(s, cursor, m);
      ScanPrinted(s, m.end, ts[2..]);
      assert ts == [ts[0], ts[1]] + ts[2..];
    }
  }

  /** Where the first reference of a printed template is found again. */
  lemma PrintedMatch(s: string, cursor: nat, ts: seq<Token>) returns (m: Match)
    requires cursor <= |s| && IsTemplate(ts) && |ts| > 1 && s[cursor..] == Print(ts)
    ensures cursor <= m.start < m.end <= |s| && MatchAt(s, m.start) == Some(m) && s[m.start] == '$'
    ensures s[cursor..m.start] == ts[0].text
    ensures m.resource == ts[1].resource && m.output == ts[1].output && s[m.end..] == Print(ts[2..])
  {
    var text, mark, rest := ts[0].text, PrintRef(ts[1].resource, ts[1].output), Print(ts[2..]);
    assert ts[1..][1..] == ts[2..];
    assert s[cursor..] == text + (mark + rest);
    m := Match(cursor + |text|, cursor + |text| + |mark|, ts[1].resource, ts[1].output);
    assert s[cursor..m.start] == s[cursor..][..|text|] == text;
    var tail := s[m.start..];
    assert tail == s[cursor..][|text|..] == mark + rest;
    assert s[m.start..m.end] == tail[..|mark|] == mark;
    assert s[m.end..] == tail[|mark|..] == rest;
    assert mark == Spelling(m.resource, m.output, "", "");
    SpelledIsMatched(s, m, "", "");
    OccursSlice(s, mark, m.start);
    assert mark[0] == s[m.start];
  }

  /** No reference begins inside literal text that a reference or the end follows. */
  lemma NoMatchBefore(s: string, cursor: nat, stop: nat)
    requires cursor <= stop <= |s| && !Includes(s[cursor..stop], OPENING)
    requires stop < |s| ==> s[stop] == '$'
    ensures forall k :: cursor <= k < stop ==> MatchAt(s, k).None?
    ensures stop == |s| ==> MatchAt(s, stop).None?
  {
    OpeningInSlice(s, cursor, stop);
  }

  /** A value is accepted exactly when every opening begins a well-formed reference. */
  lemma MalformedExactly(s: string)
    ensures Malformed in Tokens(s) <==>
            exists k: nat :: k <= |s| && OccursAt(s, OPENING, k) && MatchAt(s, k).None?
  {
    MalformedFrom(s, 0);
  }

  ghost predicate StrayOpening(s: string, from: nat) {
    exists k: nat :: from <= k <= |s| && OccursAt(s, OPENING, k) && MatchAt(s, k).None?
  }

  lemma {:induction false} MalformedFrom(s: string, cursor: nat)
    requires cursor <= |s|
    ensures Malformed in TokensFrom(s, cursor) <==> StrayOpening(s, cursor)
    decreases |s| - cursor
  {
    hide MatchAt, FindMatch, OccursAt, Includes;
    FindMatchIsLeftmost(s, cursor);
    match FindMatch(s, cursor)
    case None =>
      assert s[cursor..|s|] == s[cursor..];
      OpeningInSlice(s, cursor, |s|);
      NoOpeningAtEnd(s);
    case Some(m) =>
      OpeningIsOutside(s, m, 0);
      forall k: nat | cursor <= k <= |s| && OccursAt(s, OPENING, k)
        ensures k <= m.start || m.end <= k
      {
        OpeningIsOutside(s, m, k);
      }
      OpeningInSlice(s, cursor, m.start);
      MalformedFrom(s, m.end);
      assert TokensFrom(s, cursor)
          == [LiteralToken(s[cursor..m.start]), Ref(m.resource, m.output)] + TokensFrom(s, m.end);
  }

  lemma NoOpeningAtEnd(s: string)
    ensures !OccursAt(s, OPENING, |s|)
  {
  }

  lemma OpeningIsOutside(s: string, m: Match, k: nat)
    requires MatchAt(s, m.start) == Some(m) && k <= |s|
    ensures s[m.start] == '$'
    ensures OccursAt(s, OPENING, k) ==> k <= m.start || m.end <= k
  {
    assert OPENING[0] == s[m.start + 0];
    if OccursAt(s, OPENING, k) && m.start < k < m.end {
      assert OPENING[0] == s[k + 0];
      NoDollarInside(s, m, k);
    }
  }

  /** Openings in the literal before a reference are openings of the whole value. */
  lemma OpeningInSlice(s: string, lo: nat, hi: nat)
    requires lo <= hi <= |s|
    requires hi < |s| ==> s[hi] == '$'
    ensures Includes(s[lo..hi], OPENING) <==> exists k: nat :: lo <= k < hi && OccursAt(s, OPENING, k)
  {
    forall i: nat | i <= hi - lo && OccursAt(s[lo..hi], OPENING, i)
      ensures OccursAt(s, OPENING, lo + i)
    {
      OccursInSlice(s, lo, hi, OPENING, i);
    }
    forall k: nat | lo <= k < hi && OccursAt(s, OPENING, k)
      ensures OccursAt(s[lo..hi], OPENING, k - lo)
    {
      assert OPENING[1] == s[k + 1];
      assert OPENING[2] == s[k + 2];
      OccursInSlice(s, lo, hi, OPENING, k - lo);
    }
  }

  /** `referencedResourceNames`: the resource of every match, malformed text or not. */
  function ReferencedResourceNames(s: string, from: nat := 0): seq<string>
    requires from <= |s|
    decreases |s| - from
  {
    match FindMatch(s, from)
    case None => []
    case Some(m) => [m.resource] + ReferencedResourceNames(s, m.end)
  }

  function RefResources(ts: seq<Token>): seq<string> {
    if ts == [] then []
    else (if ts[0].Ref? then [ts[0].resource] else []) + RefResources(ts[1..])
  }

  /** The canvas edges are drawn from exactly the resources the expander looks up, in order. */
  lemma {:induction false} NamesAreLookups(s: string, from: nat)
    requires from <= |s|
    ensures ReferencedResourceNames(s, from) == RefResources(TokensFrom(s, from))
    decreases |s| - from
  {
    match FindMatch(s, from)
    case None =>
    case Some(m) =>
      NamesAreLookups(s, m.end);
      var ts := TokensFrom(s, from);
      assert ts[1..][1..] == TokensFrom(s, m.end);
  }
}
