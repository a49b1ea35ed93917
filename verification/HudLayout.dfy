/**
 Layout of the HUD line in HudRenderer.cpp: splitting a run's value into metric cells, measuring,
 placing the line in the viewport, and the separate drawing loop that advances a pen. Text widths
 are whatever the text engine says: a parameter of every statement. Floats are reals.
 */
module HudLayout {
  import opened Options
  import opened HudUnits

  datatype Kind = Graphics | Cpu | Gpu | Tdp | Ram | Vram | Fan | Battery
  datatype TextRun = TextRun(kind: Kind, caption: string, value: string)

  datatype MetricKind =
    | FpsMetric | UsagePercent | Temperature | VramMetric | FanRpm
    | BatteryPercent | BatteryTime | TdpPower | GpuPower | FrequencyMHz

  datatype Cell = Cell(kind: MetricKind, text: string)

  /** How a piece of text is set: a label, a value with its units smaller, or a piece of a value. */
  datatype Style = LabelText | StyledValue | PlainPiece | UnitPiece

  datatype Alignment = Left | Center | Right

  datatype Setup = Setup(
    padding: real, segmentGap: real, metricGap: real, separatorGap: real, separatorWidth: real,
    unitGap: real, alignment: Alignment, contentBackground: bool, width: (string, Style) -> real)

  // ---------------------------------------------------------------- metric cells

  predicate IsSpace(c: char) {
    c == ' ' || c == '\t' || c == '\n' || c == '\r' || c == '\U{000B}' || c == '\U{000C}'
  }

  /** The words of a text, letter by letter: a letter after a space begins a word. */
  function Words(s: string): (ws: seq<string>)
    ensures s != [] && !IsSpace(s[|s| - 1]) ==> ws != []
  {
    if s == [] then [] else
      var n := |s| - 1;
      var ws := Words(s[..n]);
      if IsSpace(s[n]) then ws
      else if n == 0 || IsSpace(s[n - 1]) then ws + [[s[n]]]
      else ws[..|ws| - 1] + [ws[|ws| - 1] + [s[n]]]
  }

  function Flatten(ws: seq<string>): string {
    if ws == [] then [] else Flatten(ws[..|ws| - 1]) + ws[|ws| - 1]
  }

  function WithoutSpaces(s: string): string {
    if s == [] then [] else
      WithoutSpaces(s[..|s| - 1]) + if IsSpace(s[|s| - 1]) then [] else [s[|s| - 1]]
  }

  lemma FlattenAppend(ws: seq<string>, w: string)
    ensures Flatten(ws + [w]) == Flatten(ws) + w
  {
    assert (ws + [w])[..|ws|] == ws;
  }

  lemma FlattenExtend(init: seq<string>, w: string, c: char)
    ensures Flatten(init + [w + [c]]) == Flatten(init + [w]) + [c]
  {
    FlattenAppend(init, w + [c]);
    FlattenAppend(init, w);
  }

  ghost predicate IsToken(w: string) {
    w != [] && forall c :: c in w ==> !IsSpace(c)
  }

  /** No word is empty or contains a space. */
  lemma {:induction false} WordsAreTokens(s: string)
    ensures forall w :: w in Words(s) ==> IsToken(w)
  {
    if s == [] {
    } else {
      var n := |s| - 1;
      var ws := Words(s[..n]);
      WordsAreTokens(s[..n]);
      if !IsSpace(s[n]) {
        if n == 0 || IsSpace(s[n - 1]) {
          assert IsToken([s[n]]);
        } else {
          assert IsToken(ws[|ws| - 1]);
          TokenGrows(ws[|ws| - 1], s[n]);
        }
      }
    }
  }

  lemma TokenGrows(w: string, c: char)
    requires IsToken(w) && !IsSpace(c)
    ensures IsToken(w + [c])
  {
    assert forall x :: x in w + [c] <==> x in w || x == c;
  }

  lemma FlattenWordsNext(s: string, i: nat)
    requires i < |s|
    ensures Flatten(Words(s[..i + 1])) == Flatten(Words(s[..i])) + if IsSpace(s[i]) then [] else [s[i]]
  {
    WordsNext(s, i);
    var ws := Words(s[..i]);
    if !IsSpace(s[i]) {
      if i == 0 || IsSpace(s[i - 1]) {
        FlattenAppend(ws, [s[i]]);
      } else {
        var init, last := ws[..|ws| - 1], ws[|ws| - 1];
        assert ws == init + [last];
        FlattenExtend(init, last, s[i]);
      }
    }
  }

  /** The words together are the text without its spaces. */
  lemma {:induction false} WordsKeepText(s: string)
    ensures Flatten(Words(s)) == WithoutSpaces(s)
  {
    if s == [] {
    } else {
      WordsKeepText(s[..|s| - 1]);
      FlattenWordsNext(s, |s| - 1);
      assert s[..|s| - 1 + 1] == s;
    }
  }

  predicate EndsWith(text: string, suffix: string) {
    |suffix| <= |text| && text[|text| - |suffix|..] == suffix
  }

  function MetricKindForToken(kind: Kind, index: nat, text: string): MetricKind {
    if kind == Cpu && EndsWith(text, "MHz") then FrequencyMHz
    else if kind == Cpu && EndsWith(text, "%") then UsagePercent
    else if kind == Cpu && EndsWith(text, ['\U{00B0}', 'C']) then Temperature
    else match kind
      case Graphics => FpsMetric
      case Cpu => if index == 0 then UsagePercent else Temperature
      case Gpu => if EndsWith(text, "W") then GpuPower else if EndsWith(text, "MHz") then FrequencyMHz else UsagePercent
      case Ram => VramMetric
      case Vram => VramMetric
      case Tdp => TdpPower
      case Fan => FanRpm
      case Battery => if index == 0 then BatteryPercent else BatteryTime
  }

  function MetricExemplar(kind: MetricKind): string {
    match kind
    case FpsMetric => "999FPS"
    case UsagePercent => "100%"
    case BatteryPercent => "100%"
    case Temperature => "100" + ['\U{00B0}', 'C']
    case VramMetric => "99.9GB"
    case TdpPower => "35W"
    case GpuPower => "99W"
    case FanRpm => "9999RPM"
    case BatteryTime => "9.9h"
    case FrequencyMHz => "9999MHz"
  }

  /** A cell's exemplar would itself be given the cell's kind. */
  lemma ExemplarKeepsKind(kind: Kind, index: nat, text: string)
    ensures var metric := MetricKindForToken(kind, index, text);
      MetricKindForToken(kind, index, MetricExemplar(metric)) == metric
  {
    var metric := MetricKindForToken(kind, index, text);
    var exemplar := MetricExemplar(metric);
    if kind == Cpu || kind == Gpu {
      match metric {
        case FrequencyMHz => assert exemplar[4..] == "MHz" && exemplar[6..] == "z";
        case UsagePercent => assert exemplar[3..] == "%" && exemplar[1..] == "00%";
        case Temperature => assert exemplar[3..] == ['\U{00B0}', 'C'] && exemplar[4..] == "C" && exemplar[2..][0] == '0';
        case GpuPower => assert exemplar[2..] == "W";
      }
    }
  }

  /** A cell for each word, of the kind its run, position and suffix say. */
  ghost predicate AreCells(cells: seq<Cell>, kind: Kind, words: seq<string>) {
    && |cells| == |words|
    && forall i :: 0 <= i < |cells| ==> cells[i] == Cell(MetricKindForToken(kind, i, words[i]), words[i])
  }

  function CellsOf(run: TextRun): (cells: seq<Cell>)
    ensures AreCells(cells, run.kind, Words(run.value))
  {
    var words := Words(run.value);
    seq(|words|, i requires 0 <= i < |words| => Cell(MetricKindForToken(run.kind, i, words[i]), words[i]))
  }

  lemma WordsNext(s: string, i: nat)
    requires i < |s|
    ensures IsSpace(s[i]) ==> Words(s[..i + 1]) == Words(s[..i])
    ensures !IsSpace(s[i]) && (i == 0 || IsSpace(s[i - 1])) ==> Words(s[..i + 1]) == Words(s[..i]) + [[s[i]]]
    ensures !IsSpace(s[i]) && i > 0 && !IsSpace(s[i - 1]) ==>
      Words(s[..i]) != [] && var ws := Words(s[..i]);
      Words(s[..i + 1]) == ws[..|ws| - 1] + [ws[|ws| - 1] + [s[i]]]
  {
    assert s[..i + 1][..i] == s[..i];
  }

  /** A position where the reading of words can pause: not inside a word. */
  predicate Between(s: string, i: nat) {
    i <= |s| && (i == 0 || i == |s| || IsSpace(s[i]) || IsSpace(s[i - 1]))
  }

  method SkipSpaces(s: string, from: nat) returns (next: nat)
    requires Between(s, from)
    ensures from <= next && Between(s, next) && (next == |s| || !IsSpace(s[next]))
    ensures Words(s[..next]) == Words(s[..from])
  {
    next := from;
    while next < |s| && IsSpace(s[next])
      invariant from <= next && Between(s, next)
      invariant Words(s[..next]) == Words(s[..from])
    {
      WordsNext(s, next);
      next := next + 1;
    }
  }

  /** The letters from `from` to `next` are the word that is being read. */
  ghost predicate Taken(s: string, from: nat, next: nat, word: string) {
    && from <= next <= |s| && |word| == next - from
    && (next > from ==> !IsSpace(s[next - 1]) && Words(s[..next]) == Words(s[..from]) + [word])
  }

  lemma TakenNext(s: string, from: nat, next: nat, word: string)
    requires Between(s, from) && Taken(s, from, next, word) && next < |s| && !IsSpace(s[next])
    ensures Taken(s, from, next + 1, word + [s[next]])
  {
    WordsNext(s, next);
    if next == from {
      assert word + [s[next]] == [s[next]];
    } else {
      var before := Words(s[..from]);
      assert (before + [word])[..|before|] == before;
    }
  }

  method TakeWord(s: string, from: nat) returns (word: string, next: nat)
    requires Between(s, from) && (from == |s| || !IsSpace(s[from]))
    ensures from <= next && Between(s, next) && |word| == next - from && (next == |s| || IsSpace(s[next]))
    ensures word != [] ==> Words(s[..next]) == Words(s[..from]) + [word]
  {
    next, word := from, [];
    while next < |s| && !IsSpace(s[next])
      invariant Taken(s, from, next, word)
    {
      TakenNext(s, from, next, word);
      word := word + [s[next]];
      next := next + 1;
    }
  }

  /** Stream extraction: skips spaces, then takes letters up to the next space. */
  method NextWord(s: string, from: nat) returns (word: string, next: nat)
    requires Between(s, from)
    ensures from <= next && Between(s, next)
    ensures word == [] ==> Words(s) == Words(s[..from])
    ensures word != [] ==> Words(s[..next]) == Words(s[..from]) + [word] && next > from
  {
    var start := SkipSpaces(s, from);
    word, next := TakeWord(s, start);
    if word == [] { assert s[..start] == s; }
  }

  method BuildMetricCells(run: TextRun) returns (cells: seq<Cell>)
    ensures cells == CellsOf(run)
  {
    cells := [];
    var word, next := NextWord(run.value, 0);
    ghost var read: nat := 0;
    while word != []
      invariant read <= next && Between(run.value, next)
      invariant AreCells(cells, run.kind, Words(run.value[..read]))
      invariant word == [] ==> Words(run.value) == Words(run.value[..read])
      invariant word != [] ==> Words(run.value[..next]) == Words(run.value[..read]) + [word] && next > read
      decreases |run.value| - read
    {
      CellsNext(cells, run.kind, Words(run.value[..read]), word);
      cells := cells + [Cell(MetricKindForToken(run.kind, |cells|, word), word)];
      read := next;
      word, next := NextWord(run.value, next);
    }
    SameCells(cells, CellsOf(run), run.kind, Words(run.value));
  }

  lemma CellsNext(cells: seq<Cell>, kind: Kind, words: seq<string>, word: string)
    requires AreCells(cells, kind, words)
    ensures AreCells(cells + [Cell(MetricKindForToken(kind, |cells|, word), word)], kind, words + [word])
  {
  }

  lemma SameCells(a: seq<Cell>, b: seq<Cell>, kind: Kind, words: seq<string>)
    requires AreCells(a, kind, words) && AreCells(b, kind, words)
    ensures a == b
  {
  }

  // ---------------------------------------------------------------- pieces of a value

  datatype Piece = Piece(text: string, unit: bool, x: real)

  function StyleOf(p: Piece): Style {
    if p.unit then UnitPiece else PlainPiece
  }

  function Joined(ps: seq<Piece>): string {
    if ps == [] then [] else Joined(ps[..|ps| - 1]) + ps[|ps| - 1].text
  }

  /** Where the pen stands after the pieces: at the right edge of the last one. */
  function PenAfter(o: Setup, ps: seq<Piece>, x: real): real {
    if ps == [] then x else
      var last := ps[|ps| - 1];
      last.x + o.width(last.text, StyleOf(last))
  }

  /** Piece `k` starts where the one before it ends, a unit after the unit gap. */
  predicate PlacedAt(o: Setup, ps: seq<Piece>, x: real, k: nat)
    requires k < |ps|
  {
    ps[k].x == PenAfter(o, ps[..k], x) + if ps[k].unit then o.unitGap else 0.0
  }

  ghost predicate Placed(o: Setup, ps: seq<Piece>, x: real) {
    forall k :: 0 <= k < |ps| ==> PlacedAt(o, ps, x, k)
  }

  function UnitPieces(ps: seq<Piece>): nat {
    if ps == [] then 0 else UnitPieces(ps[..|ps| - 1]) + if ps[|ps| - 1].unit then 1 else 0
  }

  lemma Append(o: Setup, ps: seq<Piece>, p: Piece, x: real)
    requires Placed(o, ps, x) && p.x == PenAfter(o, ps, x) + if p.unit then o.unitGap else 0.0
    ensures Placed(o, ps + [p], x)
    ensures PenAfter(o, ps + [p], x) == p.x + o.width(p.text, StyleOf(p))
    ensures Joined(ps + [p]) == Joined(ps) + p.text
    ensures UnitPieces(ps + [p]) == UnitPieces(ps) + if p.unit then 1 else 0
  {
    var qs := ps + [p];
    assert qs[..|ps|] == ps;
    forall k | 0 <= k < |qs| ensures PlacedAt(o, qs, x, k) {
      assert k < |ps| ==> PlacedAt(o, ps, x, k);
      assert qs[..k] == ps[..k];
    }
  }

  /** The part of a value up to `cursor` has been drawn, with `units` of its units, and the pen is at its end. */
  ghost predicate Drawn(o: Setup, text: string, cursor: nat, ps: seq<Piece>, units: nat, x: real, pen: real) {
    && cursor <= |text| && Joined(ps) == text[..cursor]
    && Placed(o, ps, x) && pen == PenAfter(o, ps, x)
    && UnitPieces(ps) == units
    && forall k :: 0 <= k < |ps| ==> ps[k].text != []
  }

  method DrawPiece(o: Setup, text: string, cursor: nat, end: nat, unit: bool, pieces: seq<Piece>, pen: real,
      ghost units: nat, ghost x: real)
    returns (ps: seq<Piece>, next: real)
    requires Drawn(o, text, cursor, pieces, units, x, pen) && cursor < end <= |text|
    ensures Drawn(o, text, end, ps, units + if unit then 1 else 0, x, next)
  {
    var at := if unit then pen + o.unitGap else pen;
    var piece := Piece(text[cursor..end], unit, at);
    Append(o, pieces, piece, x);
    assert text[..end] == text[..cursor] + text[cursor..end];
    ps := pieces + [piece];
    next := at + o.width(piece.text, if unit then UnitPiece else PlainPiece);
  }

  /**
   Draws a value piece by piece. The pieces read, one after the other, as the value; there are as
   many unit pieces as units, and no piece is empty.
   */
  method DrawValue(o: Setup, text: string, x: real) returns (pieces: seq<Piece>)
    ensures Joined(pieces) == text
    ensures Placed(o, pieces, x)
    ensures UnitPieces(pieces) == |Units(text)|
    ensures forall k :: 0 <= k < |pieces| ==> pieces[k].text != []
  {
    var ranges := FindHudUnitRanges(text);
    UnitsSegment(text);
    pieces := [];
    var pen, cursor := x, 0;
    for i := 0 to |ranges|
      invariant 0 <= cursor <= |text| && Drawn(o, text, cursor, pieces, i, x, pen)
      invariant forall j :: i <= j < |ranges| ==> cursor <= ranges[j].start
    {
      if ranges[i].start > cursor {
        pieces, pen := DrawPiece(o, text, cursor, ranges[i].start, false, pieces, pen, i, x);
      }
      pieces, pen := DrawPiece(o, text, ranges[i].start, ranges[i].End(), true, pieces, pen, i, x);
      cursor := ranges[i].End();
    }
    if cursor < |text| {
      pieces, pen := DrawPiece(o, text, cursor, |text|, false, pieces, pen, |ranges|, x);
    }
    assert text[..|text|] == text;
  }

  function PieceWidths(o: Setup, ps: seq<Piece>): real {
    if ps == [] then 0.0 else
      PieceWidths(o, ps[..|ps| - 1]) + o.width(ps[|ps| - 1].text, StyleOf(ps[|ps| - 1]))
  }

  function PieceGaps(o: Setup, ps: seq<Piece>): real {
    if ps == [] then 0.0 else PieceGaps(o, ps[..|ps| - 1]) + if ps[|ps| - 1].unit then o.unitGap else 0.0
  }

  lemma OneMore(n: nat, gap: real)
    ensures (n + 1) as real * gap == n as real * gap + gap
  {
  }

  lemma {:induction false} GapPerUnit(o: Setup, ps: seq<Piece>)
    ensures PieceGaps(o, ps) == UnitGaps(o, UnitPieces(ps))
  {
    if ps == [] {
    } else {
      GapPerUnit(o, ps[..|ps| - 1]);
    }
  }

  /** The pen advances by the widths of the pieces and one gap for each unit. */
  lemma {:induction false} PenAdvance(o: Setup, ps: seq<Piece>, x: real)
    requires Placed(o, ps, x)
    ensures PenAfter(o, ps, x) == x + PieceWidths(o, ps) + PieceGaps(o, ps)
  {
    if ps == [] {
    } else {
      var n := |ps| - 1;
      assert PlacedAt(o, ps, x, n);
      forall k | 0 <= k < n ensures PlacedAt(o, ps[..n], x, k) {
        assert PlacedAt(o, ps, x, k) && ps[..n][..k] == ps[..k];
      }
      PenAdvance(o, ps[..n], x);
    }
  }

  /**
   If setting a value in one go takes the width of its pieces, the drawn value ends exactly where
   its measured width says: one unit gap is measured for each unit that is drawn.
   */
  lemma DrawnValueHasMeasuredWidth(o: Setup, text: string, pieces: seq<Piece>, x: real)
    requires Placed(o, pieces, x) && UnitPieces(pieces) == |Units(text)|
    requires o.width(text, StyledValue) == PieceWidths(o, pieces)
    ensures PenAfter(o, pieces, x) == x + MetricWidth(o, text)
  {
    DrawnWidth(o, pieces, x, |Units(text)|);
  }

  lemma DrawnWidth(o: Setup, pieces: seq<Piece>, x: real, units: nat)
    requires Placed(o, pieces, x) && UnitPieces(pieces) == units
    ensures PenAfter(o, pieces, x) == x + PieceWidths(o, pieces) + UnitGaps(o, units)
  {
    PenAdvance(o, pieces, x);
    GapPerUnit(o, pieces);
  }

  // ---------------------------------------------------------------- measuring

  function Larger(x: real, y: real): real {
    if x < y then y else x
  }

  function MetricWidth(o: Setup, text: string): real {
    o.width(text, StyledValue) + UnitGaps(o, |Units(text)|)
  }

  /** One gap for each of `n` units. */
  function UnitGaps(o: Setup, n: nat): real {
    if n == 0 then 0.0 else UnitGaps(o, n - 1) + o.unitGap
  }

  lemma {:induction false} GapsMultiply(o: Setup, n: nat)
    ensures n as real * o.unitGap == UnitGaps(o, n)
  {
    if n > 0 {
      GapsMultiply(o, n - 1);
      OneMore(n - 1, o.unitGap);
    }
  }

  lemma {:induction false} GapsSane(o: Setup, n: nat)
    requires o.unitGap >= 0.0
    ensures UnitGaps(o, n) >= 0.0
  {
    if n > 0 { GapsSane(o, n - 1); }
  }

  /** The least width that holds both the text and the exemplar of its kind. */
  function SlotWidth(o: Setup, c: Cell): real {
    Larger(MetricWidth(o, MetricExemplar(c.kind)), MetricWidth(o, c.text))
  }

  /** The first `n` of several widths, each but the last of all followed by a gap. */
  function Spaced(widths: seq<real>, gap: real, n: nat): real
    requires n <= |widths|
  {
    if n == 0 then 0.0 else Spaced(widths, gap, n - 1) + widths[n - 1] + if n < |widths| then gap else 0.0
  }

  lemma {:induction false} SpacedSane(widths: seq<real>, gap: real, n: nat)
    requires n <= |widths| && gap >= 0.0 && forall i :: 0 <= i < |widths| ==> widths[i] >= 0.0
    ensures Spaced(widths, gap, n) >= 0.0
  {
    if n > 0 { SpacedSane(widths, gap, n - 1); }
  }

  function SlotWidths(o: Setup, cells: seq<Cell>): seq<real> {
    seq(|cells|, i requires 0 <= i < |cells| => SlotWidth(o, cells[i]))
  }

  function CellsWidth(o: Setup, cells: seq<Cell>): real {
    Spaced(SlotWidths(o, cells), o.metricGap, |cells|)
  }

  /** Everything before the first cell. */
  function CaptionWidth(o: Setup, run: TextRun): real {
    o.width(run.caption, LabelText) + if run.caption != [] && CellsOf(run) != [] then o.segmentGap else 0.0
  }

  lemma {:induction false} WordsExist(s: string)
    ensures Words(s) != [] <==> exists c :: c in s && !IsSpace(c)
  {
    if s != [] {
      var n := |s| - 1;
      WordsExist(s[..n]);
      assert forall c :: c in s <==> c in s[..n] || c == s[n];
    }
  }

  /** The values start at a gap from the caption if and only if there is a caption and a letter to show. */
  lemma GapExactly(o: Setup, run: TextRun)
    ensures CaptionWidth(o, run) == o.width(run.caption, LabelText)
      + if |run.caption| > 0 && exists c :: c in run.value && !IsSpace(c) then o.segmentGap else 0.0
  {
    WordsExist(run.value);
    assert |CellsOf(run)| == |Words(run.value)|;
  }

  function GroupWidth(o: Setup, run: TextRun): real {
    CaptionWidth(o, run) + CellsWidth(o, CellsOf(run))
  }

  function SeparatorBlockWidth(o: Setup): real {
    o.separatorGap * 2.0 + o.separatorWidth
  }

  function GroupWidths(o: Setup, runs: seq<TextRun>): seq<real> {
    seq(|runs|, i requires 0 <= i < |runs| => GroupWidth(o, runs[i]))
  }

  function RunsWidth(o: Setup, runs: seq<TextRun>): real {
    Spaced(GroupWidths(o, runs), SeparatorBlockWidth(o), |runs|)
  }

  function ContentWidth(o: Setup, runs: seq<TextRun>): real {
    o.padding * 2.0 + RunsWidth(o, runs)
  }

  method MetricLayoutWidth(o: Setup, text: string) returns (w: real)
    ensures w == MetricWidth(o, text)
  {
    var ranges := FindHudUnitRanges(text);
    GapsMultiply(o, |ranges|);
    w := o.width(text, StyledValue) + |ranges| as real * o.unitGap;
  }

  method MeasureCell(o: Setup, c: Cell) returns (slot: real)
    ensures slot == SlotWidth(o, c)
  {
    slot := MetricLayoutWidth(o, MetricExemplar(c.kind));
    var own := MetricLayoutWidth(o, c.text);
    slot := Larger(slot, own);
  }

  method MeasureGroup(o: Setup, run: TextRun) returns (width: real)
    ensures width == GroupWidth(o, run)
  {
    width := o.width(run.caption, LabelText);
    var cells := BuildMetricCells(run);
    if run.caption != [] && cells != [] { width := width + o.segmentGap; }
    ghost var slots := SlotWidths(o, cells);
    for i := 0 to |cells|
      invariant width == CaptionWidth(o, run) + Spaced(slots, o.metricGap, i)
    {
      var slot := MeasureCell(o, cells[i]);
      width := width + slot;
      if i + 1 < |cells| { width := width + o.metricGap; }
    }
  }

  method Measure(o: Setup, runs: seq<TextRun>) returns (contentWidth: real)
    ensures contentWidth == ContentWidth(o, runs)
  {
    contentWidth := o.padding * 2.0;
    ghost var widths := GroupWidths(o, runs);
    for i := 0 to |runs|
      invariant contentWidth == o.padding * 2.0 + Spaced(widths, SeparatorBlockWidth(o), i)
    {
      var width := MeasureGroup(o, runs[i]);
      contentWidth := contentWidth + width;
      if i + 1 < |runs| { contentWidth := contentWidth + SeparatorBlockWidth(o); }
    }
  }

  // ---------------------------------------------------------------- drawing

  /** What is drawn: from `x` to `end`. */
  datatype Mark =
    | CaptionMark(text: string, x: real, end: real)
    | ValueMark(text: string, x: real, end: real, pieces: seq<Piece>)
    | SeparatorMark(x: real, end: real)

  /** The marks do not overlap, run from left to right, and lie between `left` and `right`. */
  ghost predicate InOrder(ms: seq<Mark>, left: real, right: real) {
    && (forall k :: 0 <= k < |ms| ==> left <= ms[k].x <= ms[k].end <= right)
    && (forall j, k :: 0 <= j < k < |ms| ==> ms[j].end <= ms[k].x)
  }

  /** The same, mark by mark. */
  predicate Chained(ms: seq<Mark>, left: real, right: real) {
    if ms == [] then left <= right else
      var last := ms[|ms| - 1];
      Chained(ms[..|ms| - 1], left, last.x) && last.x <= last.end <= right
  }

  lemma ChainedNext(ms: seq<Mark>, left: real, pen: real, m: Mark, right: real)
    requires Chained(ms, left, pen) && pen <= m.x <= m.end <= right
    ensures Chained(ms + [m], left, right)
  {
    ChainedWiden(ms, left, pen, m.x);
    assert (ms + [m])[..|ms|] == ms;
  }

  lemma ChainedWiden(ms: seq<Mark>, left: real, right: real, more: real)
    requires Chained(ms, left, right) && right <= more
    ensures Chained(ms, left, more)
  {
  }

  lemma {:induction false} ChainedJoin(a: seq<Mark>, b: seq<Mark>, left: real, middle: real, right: real)
    requires Chained(a, left, middle) && Chained(b, middle, right)
    ensures Chained(a + b, left, right)
    decreases |b|
  {
    if b == [] {
      ChainedWiden(a, left, middle, right);
      assert a + b == a;
    } else {
      var n := |b| - 1;
      ChainedJoin(a, b[..n], left, middle, b[n].x);
      assert a + b == a + b[..n] + [b[n]];
      ChainedNext(a + b[..n], left, b[n].x, b[n], right);
    }
  }

  lemma {:induction false} ChainedInOrder(ms: seq<Mark>, left: real, right: real)
    requires Chained(ms, left, right)
    ensures left <= right && InOrder(ms, left, right)
  {
    if ms != [] {
      ChainedInOrder(ms[..|ms| - 1], left, ms[|ms| - 1].x);
    }
  }

  /** No width, gap or padding is negative. */
  ghost predicate Sane(o: Setup) {
    && o.padding >= 0.0 && o.segmentGap >= 0.0 && o.metricGap >= 0.0 && o.separatorGap >= 0.0
    && o.separatorWidth >= 0.0 && o.unitGap >= 0.0
    && forall text: string, style: Style :: o.width(text, style) >= 0.0
  }

  /** Every value mark shows its text, piece by piece, right-aligned in the slot it was given. */
  ghost predicate ShowsValue(o: Setup, m: Mark) {
    m.ValueMark? ==>
      && m.end == m.x + MetricWidth(o, m.text)
      && Joined(m.pieces) == m.text && Placed(o, m.pieces, m.x) && UnitPieces(m.pieces) == |Units(m.text)|
  }

  method DrawCell(o: Setup, cell: Cell, pen: real) returns (mark: Mark, slot: real)
    ensures slot == SlotWidth(o, cell)
    ensures mark.ValueMark? && mark.text == cell.text && ShowsValue(o, mark) && mark.end == pen + slot
  {
    slot := MetricLayoutWidth(o, MetricExemplar(cell.kind));
    var own := MetricLayoutWidth(o, cell.text);
    slot := Larger(slot, own);
    var metricX := pen + slot - own;
    var pieces := DrawValue(o, cell.text, metricX);
    mark := ValueMark(cell.text, metricX, metricX + own, pieces);
  }

  /** One value mark for each cell, in their order. */
  ghost predicate ShowCells(o: Setup, marks: seq<Mark>, cells: seq<Cell>) {
    && |marks| == |cells|
    && forall i :: 0 <= i < |cells| ==> marks[i].ValueMark? && marks[i].text == cells[i].text && ShowsValue(o, marks[i])
  }

  lemma ShowCellsNext(o: Setup, marks: seq<Mark>, cells: seq<Cell>, i: nat, mark: Mark)
    requires i < |cells| && ShowCells(o, marks, cells[..i])
    requires mark.ValueMark? && mark.text == cells[i].text && ShowsValue(o, mark)
    ensures ShowCells(o, marks + [mark], cells[..i + 1])
  {
  }

  /** Each value ends where its slot does; slots follow one another with a gap between. */
  ghost predicate InSlots(marks: seq<Mark>, slots: seq<real>, gap: real, x: real) {
    && |marks| <= |slots|
    && forall k :: 0 <= k < |marks| ==> marks[k].end == x + Spaced(slots, gap, k) + slots[k]
  }

  lemma InSlotsNext(marks: seq<Mark>, slots: seq<real>, gap: real, x: real, mark: Mark)
    requires InSlots(marks, slots, gap, x) && |marks| < |slots|
    requires mark.end == x + Spaced(slots, gap, |marks|) + slots[|marks|]
    ensures InSlots(marks + [mark], slots, gap, x)
  {
  }

  method DrawCells(o: Setup, cells: seq<Cell>, x: real) returns (marks: seq<Mark>, pen: real)
    ensures pen == x + CellsWidth(o, cells)
    ensures ShowCells(o, marks, cells) && InSlots(marks, SlotWidths(o, cells), o.metricGap, x)
  {
    marks, pen := [], x;
    for i := 0 to |cells|
      invariant pen == x + Spaced(SlotWidths(o, cells), o.metricGap, i)
      invariant ShowCells(o, marks, cells[..i]) && InSlots(marks, SlotWidths(o, cells), o.metricGap, x)
    {
      var mark, slot := DrawCell(o, cells[i], pen);
      ShowCellsNext(o, marks, cells, i, mark);
      InSlotsNext(marks, SlotWidths(o, cells), o.metricGap, x, mark);
      marks, pen := marks + [mark], pen + slot;
      if i + 1 < |cells| { pen := pen + o.metricGap; }
    }
    assert cells[..|cells|] == cells;
  }

  datatype Group = Group(caption: Mark, values: seq<Mark>) {
    function Marks(): seq<Mark> {
      [caption] + values
    }
  }

  /** The caption at the group's start, and then its values in their slots. */
  ghost predicate ShowsGroup(o: Setup, g: Group, run: TextRun, x: real) {
    && g.caption == CaptionMark(run.caption, x, x + o.width(run.caption, LabelText))
    && ShowsValues(o, g.values, run, x + CaptionWidth(o, run))
  }

  ghost predicate ShowsValues(o: Setup, values: seq<Mark>, run: TextRun, x: real) {
    ShowCells(o, values, CellsOf(run)) && InSlots(values, SlotWidths(o, CellsOf(run)), o.metricGap, x)
  }

  /** The values of a group that starts at `x`, after its caption. */
  method DrawAfterCaption(o: Setup, run: TextRun, captionEnd: real, ghost x: real) returns (values: seq<Mark>, pen: real)
    requires captionEnd == x + o.width(run.caption, LabelText)
    ensures pen == x + GroupWidth(o, run)
    ensures ShowsValues(o, values, run, x + CaptionWidth(o, run))
  {
    pen := captionEnd;
    var cells := BuildMetricCells(run);
    if run.caption != [] && cells != [] { pen := pen + o.segmentGap; }
    values, pen := DrawCells(o, cells, pen);
  }

  /** One group: its caption, then its values. */
  method DrawGroup(o: Setup, run: TextRun, x: real) returns (marks: seq<Mark>, pen: real, ghost group: Group)
    ensures pen == x + GroupWidth(o, run)
    ensures marks == group.Marks() && ShowsGroup(o, group, run, x)
  {
    var caption := CaptionMark(run.caption, x, x + o.width(run.caption, LabelText));
    var values;
    values, pen := DrawAfterCaption(o, run, caption.end, x);
    marks := [caption] + values;
    group := Group(caption, values);
  }

  /** Where group `i` starts, in a line of groups with these widths. */
  function GroupStart(o: Setup, widths: seq<real>, origin: real, i: nat): real
    requires i <= |widths|
  {
    origin + Spaced(widths, SeparatorBlockWidth(o), i)
  }

  function GroupEnd(o: Setup, widths: seq<real>, origin: real, i: nat): real
    requires i < |widths|
  {
    GroupStart(o, widths, origin, i) + widths[i]
  }

  /** What follows a group that ends at `end`: a separator in the middle of its block if there is more to come. */
  function Tail(o: Setup, more: bool, end: real): seq<Mark> {
    if more then [SeparatorMark(end + o.separatorGap, end + o.separatorGap + o.separatorWidth)] else []
  }

  /** The first groups, with a separator after each but the last of all. */
  function Line(o: Setup, groups: seq<Group>, widths: seq<real>, origin: real): seq<Mark>
    requires |groups| <= |widths|
  {
    if groups == [] then [] else
      var n := |groups| - 1;
      Line(o, groups[..n], widths, origin) + groups[n].Marks() + Tail(o, n + 1 < |widths|, GroupEnd(o, widths, origin, n))
  }

  /** One group for each of the first runs, in order, each showing its run in its place. */
  ghost predicate ShowGroups(o: Setup, groups: seq<Group>, runs: seq<TextRun>, widths: seq<real>, origin: real) {
    && |groups| <= |runs| == |widths|
    && forall i :: 0 <= i < |groups| ==> ShowsGroup(o, groups[i], runs[i], GroupStart(o, widths, origin, i))
  }

  lemma ShowGroupsNext(o: Setup, groups: seq<Group>, group: Group, runs: seq<TextRun>, widths: seq<real>, origin: real)
    requires ShowGroups(o, groups, runs, widths, origin) && |groups| < |runs|
    requires ShowsGroup(o, group, runs[|groups|], GroupStart(o, widths, origin, |groups|))
    ensures ShowGroups(o, groups + [group], runs, widths, origin)
  {
  }

  /** The marks are a line of these groups, which show the first runs. */
  ghost predicate DrawnUpTo(o: Setup, marks: seq<Mark>, groups: seq<Group>, runs: seq<TextRun>, widths: seq<real>, origin: real) {
    ShowGroups(o, groups, runs, widths, origin) && marks == Line(o, groups, widths, origin)
  }

  /** One more group, with what follows it. */
  lemma DrawnNext(o: Setup, marks: seq<Mark>, groups: seq<Group>, group: Group, runs: seq<TextRun>, widths: seq<real>, origin: real)
    requires DrawnUpTo(o, marks, groups, runs, widths, origin) && |groups| < |runs|
    requires ShowsGroup(o, group, runs[|groups|], GroupStart(o, widths, origin, |groups|))
    ensures var tail := Tail(o, |groups| + 1 < |runs|, GroupEnd(o, widths, origin, |groups|));
      DrawnUpTo(o, marks + group.Marks() + tail, groups + [group], runs, widths, origin)
  {
    ShowGroupsNext(o, groups, group, runs, widths, origin);
    assert (groups + [group])[..|groups|] == groups;
  }

  lemma GroupStartNext(o: Setup, widths: seq<real>, origin: real, i: nat)
    requires i < |widths|
    ensures GroupStart(o, widths, origin, i + 1)
      == GroupEnd(o, widths, origin, i) + if i + 1 < |widths| then SeparatorBlockWidth(o) else 0.0
  {
  }

  /** Draws what follows a group. */
  method DrawTail(o: Setup, marks: seq<Mark>, more: bool, end: real) returns (all: seq<Mark>, pen: real)
    ensures all == marks + Tail(o, more, end)
    ensures pen == end + if more then SeparatorBlockWidth(o) else 0.0
  {
    all, pen := marks, end;
    if more {
      pen := pen + o.separatorGap;
      all := all + [SeparatorMark(pen, pen + o.separatorWidth)];
      pen := pen + (o.separatorWidth + o.separatorGap);
    }
  }

  /** One turn of the loop: the next group and what follows it. */
  method DrawRun(o: Setup, runs: seq<TextRun>, marks: seq<Mark>, pen: real,
      ghost groups: seq<Group>, ghost widths: seq<real>, ghost origin: real, i: nat)
    returns (all: seq<Mark>, end: real, ghost group: Group)
    requires i < |runs| && |groups| == i && DrawnUpTo(o, marks, groups, runs, widths, origin)
    requires pen == GroupStart(o, widths, origin, i) && widths[i] == GroupWidth(o, runs[i])
    ensures end == GroupStart(o, widths, origin, i + 1)
    ensures DrawnUpTo(o, all, groups + [group], runs, widths, origin)
  {
    var drawn;
    drawn, end, group := DrawGroup(o, runs[i], pen);
    assert end == GroupEnd(o, widths, origin, i);
    GroupStartNext(o, widths, origin, i);
    ghost var tail := Tail(o, i + 1 < |runs|, end);
    all, end := DrawTail(o, marks + drawn, i + 1 < |runs|, end);
    assert all == marks + group.Marks() + tail;
    DrawnNext(o, marks, groups, group, runs, widths, origin);
  }

  /**
   Draws the line from `origin`: run by run its caption and its values, each in its place, and one
   separator between two runs. The pen ends where the measured width says: the content without the
   padding on either side.
   */
  method DrawRuns(o: Setup, runs: seq<TextRun>, origin: real)
    returns (marks: seq<Mark>, pen: real, ghost groups: seq<Group>)
    ensures pen - origin == ContentWidth(o, runs) - o.padding * 2.0
    ensures DrawnUpTo(o, marks, groups, runs, GroupWidths(o, runs), origin) && |groups| == |runs|
  {
    ghost var widths := GroupWidths(o, runs);
    marks, pen, groups := [], origin, [];
    for i := 0 to |runs|
      invariant pen == GroupStart(o, widths, origin, i)
      invariant |groups| == i && DrawnUpTo(o, marks, groups, runs, widths, origin)
    {
      ghost var group;
      marks, pen, group := DrawRun(o, runs, marks, pen, groups, widths, origin, i);
      groups := groups + [group];
    }
  }

  // ---------------------------------------------------------------- from left to right

  lemma MetricWidthSane(o: Setup, text: string)
    requires Sane(o)
    ensures MetricWidth(o, text) >= 0.0
  {
    GapsSane(o, |Units(text)|);
    assert o.width(text, StyledValue) >= 0.0;
  }

  /** Mark `i` lies in its slot. */
  predicate Within(marks: seq<Mark>, slots: seq<real>, gap: real, x: real, i: nat)
    requires i < |marks| <= |slots|
  {
    x + Spaced(slots, gap, i) <= marks[i].x <= marks[i].end <= x + Spaced(slots, gap, i + 1)
  }

  /** Marks that lie in their slots are in order. */
  lemma {:induction false} SlotsInOrder(marks: seq<Mark>, slots: seq<real>, gap: real, x: real, n: nat)
    requires n <= |marks| <= |slots|
    requires forall i :: 0 <= i < |marks| ==> Within(marks, slots, gap, x, i)
    ensures Chained(marks[..n], x, x + Spaced(slots, gap, n))
  {
    if n > 0 {
      SlotsInOrder(marks, slots, gap, x, n - 1);
      assert Within(marks, slots, gap, x, n - 1);
      ChainedNext(marks[..n - 1], x, x + Spaced(slots, gap, n - 1), marks[n - 1], x + Spaced(slots, gap, n));
      assert marks[..n] == marks[..n - 1] + [marks[n - 1]];
    }
  }

  lemma ValueInSlot(o: Setup, values: seq<Mark>, slots: seq<real>, cell: Cell, x: real, i: nat)
    requires Sane(o) && i < |values| <= |slots| && slots[i] == SlotWidth(o, cell)
    requires values[i].ValueMark? && values[i].text == cell.text && ShowsValue(o, values[i])
    requires values[i].end == x + Spaced(slots, o.metricGap, i) + slots[i]
    ensures Within(values, slots, o.metricGap, x, i)
  {
    MetricWidthSane(o, cell.text);
  }

  lemma ValuesInOrder(o: Setup, values: seq<Mark>, cells: seq<Cell>, x: real)
    requires Sane(o) && ShowCells(o, values, cells) && InSlots(values, SlotWidths(o, cells), o.metricGap, x)
    ensures Chained(values, x, x + CellsWidth(o, cells))
  {
    var slots := SlotWidths(o, cells);
    forall i | 0 <= i < |values| ensures Within(values, slots, o.metricGap, x, i) {
      ValueInSlot(o, values, slots, cells[i], x, i);
    }
    SlotsInOrder(values, slots, o.metricGap, x, |values|);
    assert values[..|values|] == values;
  }

  lemma CaptionFirst(g: Group, x: real, pen: real, end: real)
    requires x <= g.caption.x <= g.caption.end <= pen && Chained(g.values, pen, end)
    ensures Chained(g.Marks(), x, end)
  {
    assert [] + [g.caption] == [g.caption];
    ChainedNext([], x, x, g.caption, pen);
    ChainedJoin([g.caption], g.values, x, pen, end);
  }

  lemma CaptionWidthSane(o: Setup, run: TextRun)
    requires Sane(o)
    ensures 0.0 <= o.width(run.caption, LabelText) <= CaptionWidth(o, run)
  {
  }

  lemma RestInOrder(o: Setup, values: seq<Mark>, run: TextRun, x: real, end: real)
    requires Sane(o) && ShowsValues(o, values, run, x) && end == x + CellsWidth(o, CellsOf(run))
    ensures Chained(values, x, end)
  {
    ValuesInOrder(o, values, CellsOf(run), x);
  }

  lemma GroupInOrder(o: Setup, g: Group, run: TextRun, x: real)
    requires Sane(o) && ShowsGroup(o, g, run, x)
    ensures Chained(g.Marks(), x, x + GroupWidth(o, run))
  {
    var pen, end := x + CaptionWidth(o, run), x + GroupWidth(o, run);
    CaptionWidthSane(o, run);
    RestInOrder(o, g.values, run, pen, end);
    CaptionFirst(g, x, pen, end);
  }

  lemma TailInOrder(o: Setup, marks: seq<Mark>, origin: real, more: bool, end: real)
    requires Sane(o) && Chained(marks, origin, end)
    ensures Chained(marks + Tail(o, more, end), origin, end + if more then SeparatorBlockWidth(o) else 0.0)
  {
    if more {
      ChainedNext(marks, origin, end, Tail(o, more, end)[0], end + SeparatorBlockWidth(o));
    } else {
      assert marks + [] == marks;
    }
  }

  /** Each group lies in its place. */
  predicate InPlace(o: Setup, groups: seq<Group>, widths: seq<real>, origin: real, i: nat)
    requires i < |groups| <= |widths|
  {
    Chained(groups[i].Marks(), GroupStart(o, widths, origin, i), GroupEnd(o, widths, origin, i))
  }

  lemma {:induction false} LineInOrder(o: Setup, groups: seq<Group>, widths: seq<real>, origin: real)
    requires Sane(o) && |groups| <= |widths| && forall i :: 0 <= i < |groups| ==> InPlace(o, groups, widths, origin, i)
    ensures Chained(Line(o, groups, widths, origin), origin, GroupStart(o, widths, origin, |groups|))
  {
    if groups != [] {
      var n := |groups| - 1;
      forall i | 0 <= i < n ensures InPlace(o, groups[..n], widths, origin, i) {
        assert InPlace(o, groups, widths, origin, i);
      }
      LineInOrder(o, groups[..n], widths, origin);
      assert InPlace(o, groups, widths, origin, n);
      var before, start, end := Line(o, groups[..n], widths, origin), GroupStart(o, widths, origin, n), GroupEnd(o, widths, origin, n);
      ChainedJoin(before, groups[n].Marks(), origin, start, end);
      TailInOrder(o, before + groups[n].Marks(), origin, n + 1 < |widths|, end);
      GroupStartNext(o, widths, origin, n);
    }
  }

  /** A drawn line runs from left to right without overlaps. */
  lemma LeftToRight(o: Setup, marks: seq<Mark>, groups: seq<Group>, runs: seq<TextRun>, origin: real, pen: real)
    requires Sane(o) && DrawnUpTo(o, marks, groups, runs, GroupWidths(o, runs), origin) && |groups| == |runs|
    requires pen - origin == ContentWidth(o, runs) - o.padding * 2.0
    ensures InOrder(marks, origin, pen)
  {
    var widths := GroupWidths(o, runs);
    forall i | 0 <= i < |groups| ensures InPlace(o, groups, widths, origin, i) {
      GroupInOrder(o, groups[i], runs[i], GroupStart(o, widths, origin, i));
    }
    LineInOrder(o, groups, widths, origin);
    ChainedInOrder(marks, origin, pen);
  }

  // ---------------------------------------------------------------- what a line reads

  /** What is drawn, from left to right: texts, and None for a separator. */
  function Shown(marks: seq<Mark>): seq<Option<string>> {
    if marks == [] then [] else
      var last := marks[|marks| - 1];
      Shown(marks[..|marks| - 1]) + [if last.SeparatorMark? then None else Some(last.text)]
  }

  function AsTexts(words: seq<string>): seq<Option<string>> {
    if words == [] then [] else AsTexts(words[..|words| - 1]) + [Some(words[|words| - 1])]
  }

  /** The caption and the words of the value. */
  function RunReading(run: TextRun): seq<Option<string>> {
    [Some(run.caption)] + AsTexts(Words(run.value))
  }

  /** Run by run its reading, and one separator between two runs. */
  function Reading(runs: seq<TextRun>): seq<Option<string>> {
    if runs == [] then [] else
      var last := runs[|runs| - 1];
      Reading(runs[..|runs| - 1]) + (if |runs| > 1 then [None] else []) + RunReading(last)
  }

  lemma {:induction false} ShownConcat(a: seq<Mark>, b: seq<Mark>)
    ensures Shown(a + b) == Shown(a) + Shown(b)
    decreases |b|
  {
    if b == [] {
      assert a + b == a;
    } else {
      ShownConcat(a, b[..|b| - 1]);
      assert (a + b)[..|a + b| - 1] == a + b[..|b| - 1];
    }
  }

  lemma ShownOne(m: Mark)
    ensures Shown([m]) == [if m.SeparatorMark? then None else Some(m.text)]
  {
    assert [m][..0] == [];
  }

  /** Value marks with these texts. */
  predicate HaveTexts(marks: seq<Mark>, words: seq<string>) {
    |marks| == |words| && forall i :: 0 <= i < |marks| ==> marks[i].ValueMark? && marks[i].text == words[i]
  }

  lemma {:induction false} ValuesRead(marks: seq<Mark>, words: seq<string>)
    requires HaveTexts(marks, words)
    ensures Shown(marks) == AsTexts(words)
  {
    if marks != [] {
      ValuesRead(marks[..|marks| - 1], words[..|marks| - 1]);
    }
  }

  lemma CellTexts(o: Setup, marks: seq<Mark>, run: TextRun)
    requires ShowCells(o, marks, CellsOf(run))
    ensures HaveTexts(marks, Words(run.value))
  {
  }

  predicate ReadsAs(marks: seq<Mark>, run: TextRun) {
    Shown(marks) == RunReading(run)
  }

  lemma GroupReads(o: Setup, g: Group, run: TextRun, x: real)
    requires ShowsGroup(o, g, run, x)
    ensures ReadsAs(g.Marks(), run)
  {
    CellTexts(o, g.values, run);
    ValuesRead(g.values, Words(run.value));
    ShownOne(g.caption);
    ShownConcat([g.caption], g.values);
  }

  predicate AllRead(groups: seq<Group>, runs: seq<TextRun>) {
    |groups| <= |runs| && forall i :: 0 <= i < |groups| ==> ReadsAs(groups[i].Marks(), runs[i])
  }

  /** The first runs, and the separator that follows them unless they are all. */
  function ReadingUpTo(runs: seq<TextRun>, n: nat): seq<Option<string>>
    requires n <= |runs|
  {
    Reading(runs[..n]) + if 0 < n < |runs| then [None] else []
  }

  lemma ReadingNext(runs: seq<TextRun>, n: nat)
    requires n < |runs|
    ensures Reading(runs[..n + 1]) == ReadingUpTo(runs, n) + RunReading(runs[n])
  {
    assert runs[..n + 1][..n] == runs[..n];
  }

  lemma TailShown(o: Setup, more: bool, end: real)
    ensures Shown(Tail(o, more, end)) == if more then [None] else []
  {
    if more { ShownOne(Tail(o, more, end)[0]); }
  }

  lemma {:induction false} LineReadsUpTo(o: Setup, groups: seq<Group>, runs: seq<TextRun>, widths: seq<real>, origin: real)
    requires AllRead(groups, runs) && |runs| == |widths|
    ensures Shown(Line(o, groups, widths, origin)) == ReadingUpTo(runs, |groups|)
  {
    if groups != [] {
      var n := |groups| - 1;
      LineReadsUpTo(o, groups[..n], runs, widths, origin);
      var before, end := Line(o, groups[..n], widths, origin), GroupEnd(o, widths, origin, n);
      ShownConcat(before, groups[n].Marks());
      ShownConcat(before + groups[n].Marks(), Tail(o, n + 1 < |runs|, end));
      TailShown(o, n + 1 < |runs|, end);
      ReadingNext(runs, n);
    }
  }

  /** A drawn line reads as its runs do, with one separator between two runs and none elsewhere. */
  lemma LineReads(o: Setup, marks: seq<Mark>, groups: seq<Group>, runs: seq<TextRun>, widths: seq<real>, origin: real)
    requires DrawnUpTo(o, marks, groups, runs, widths, origin) && |groups| == |runs|
    ensures Shown(marks) == Reading(runs)
  {
    forall i | 0 <= i < |groups| ensures ReadsAs(groups[i].Marks(), runs[i]) {
      GroupReads(o, groups[i], runs[i], GroupStart(o, widths, origin, i));
    }
    LineReadsUpTo(o, groups, runs, widths, origin);
    assert runs[..|runs|] == runs;
  }

  // ---------------------------------------------------------------- geometry

  function Clamp(x: real, low: real, high: real): real {
    if x < low then low else if high < x then high else x
  }

  /** The left edge of the content in the viewport. */
  function ContentX(o: Setup, left: real, right: real, contentWidth: real): real {
    var viewportWidth := Larger(0.0, right - left);
    var x := match o.alignment
      case Center => left + (viewportWidth - contentWidth) / 2.0
      case Right => right - contentWidth
      case Left => left;
    if contentWidth > viewportWidth then left else Clamp(x, left, right - contentWidth)
  }

  datatype Geometry = Geometry(contentX: real, backgroundLeft: real, backgroundRight: real, textX: real)

  function CalculateGeometry(o: Setup, left: real, right: real, measured: real): Geometry {
    var contentWidth := Larger(0.0, measured);
    var x := ContentX(o, left, right, contentWidth);
    var backgroundRight := x + contentWidth;
    Geometry(x,
      if o.contentBackground then x else left,
      if o.contentBackground then (if right < backgroundRight then right else backgroundRight) else right,
      x + o.padding)
  }

  /**
   Content that fits is placed inside the viewport with its background around it, on the side
   its alignment names; content that does not fit starts at the left edge.
   */
  lemma GeometryContains(o: Setup, left: real, right: real, measured: real)
    requires left <= right && measured >= 0.0
    ensures var g := CalculateGeometry(o, left, right, measured);
      && left <= g.contentX && left <= g.backgroundLeft <= g.backgroundRight <= right
      && (measured <= right - left ==>
        && g.contentX + measured <= right
        && g.backgroundLeft <= g.contentX && g.contentX + measured <= g.backgroundRight
        && (o.alignment == Right ==> g.contentX + measured == right)
        && (o.alignment == Left ==> g.contentX == left)
        && (o.alignment == Center ==> g.contentX - left == right - (g.contentX + measured)))
      && (measured > right - left ==> g.contentX == left)
      && g.textX == g.contentX + o.padding
      && (!o.contentBackground ==> g.backgroundLeft == left && g.backgroundRight == right)
      && (o.contentBackground && measured <= right - left ==>
            g.backgroundLeft == g.contentX && g.backgroundRight == g.contentX + measured)
  {
  }

  /** Measures, places and draws the line. */
  method Draw(o: Setup, runs: seq<TextRun>, left: real, right: real)
    returns (g: Geometry, marks: seq<Mark>, pen: real, ghost groups: seq<Group>)
    ensures g == CalculateGeometry(o, left, right, ContentWidth(o, runs))
    ensures pen - g.textX == ContentWidth(o, runs) - o.padding * 2.0
    ensures DrawnUpTo(o, marks, groups, runs, GroupWidths(o, runs), g.textX) && |groups| == |runs|
    ensures Shown(marks) == Reading(runs)
    ensures Sane(o) ==> InOrder(marks, g.textX, pen)
  {
    var measured := Measure(o, runs);
    g := CalculateGeometry(o, left, right, measured);
    marks, pen, groups := DrawRuns(o, runs, g.textX);
    LineReads(o, marks, groups, runs, GroupWidths(o, runs), g.textX);
    if Sane(o) { LeftToRight(o, marks, groups, runs, g.textX, pen); }
  }

  lemma GroupWidthSane(o: Setup, run: TextRun)
    requires Sane(o)
    ensures GroupWidth(o, run) >= 0.0
  {
    var cells := CellsOf(run);
    forall i | 0 <= i < |cells| ensures SlotWidths(o, cells)[i] >= 0.0 { MetricWidthSane(o, cells[i].text); }
    SpacedSane(SlotWidths(o, cells), o.metricGap, |cells|);
  }

  lemma RunsWidthSane(o: Setup, runs: seq<TextRun>)
    requires Sane(o)
    ensures RunsWidth(o, runs) >= 0.0
  {
    forall i | 0 <= i < |runs| ensures GroupWidths(o, runs)[i] >= 0.0 { GroupWidthSane(o, runs[i]); }
    SpacedSane(GroupWidths(o, runs), SeparatorBlockWidth(o), |runs|);
  }

  /** A line that fits is drawn, mark by mark, between the paddings of its background. */
  lemma DrawnInsideBackground(o: Setup, runs: seq<TextRun>, left: real, right: real, g: Geometry, marks: seq<Mark>, pen: real)
    requires Sane(o) && left <= right && ContentWidth(o, runs) <= right - left
    requires g == CalculateGeometry(o, left, right, ContentWidth(o, runs))
    requires pen - g.textX == ContentWidth(o, runs) - o.padding * 2.0 && InOrder(marks, g.textX, pen)
    ensures forall k :: 0 <= k < |marks| ==>
      && left <= g.backgroundLeft + o.padding <= marks[k].x
      && marks[k].end <= g.backgroundRight - o.padding <= right
  {
    RunsWidthSane(o, runs);
    GeometryContains(o, left, right, ContentWidth(o, runs));
  }
}
