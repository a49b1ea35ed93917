/**
 Unit suffixes in a HUD value ("120FPS", "45°C", "1.5h"): FindHudUnitRanges of HudRenderer.cpp and
 the splitting of a value into pieces that DrawValue draws. What counts as a unit is stated
 occurrence by occurrence; that occurrences never overlap is what makes the pieces reassemble.
 */
module HudUnits {
  import opened Options

  datatype Token = Fps | Rpm | Percent | Celsius | Watt | Gigabyte | Megahertz

  function TextOf(t: Token): (s: string)
    ensures |s| > 0
  {
    match t
    case Fps => "FPS"
    case Rpm => "RPM"
    case Percent => "%"
    case Celsius => ['\U{00B0}', 'C']
    case Watt => "W"
    case Gigabyte => "GB"
    case Megahertz => "MHz"
  }

  /** The tokens that are letters must not be part of a longer word. */
  predicate NeedsBoundary(t: Token) {
    t != Percent && t != Celsius
  }

  datatype Range = Range(start: nat, length: nat) {
    function End(): nat { start + length }
  }

  predicate IsDigit(c: char) {
    '0' <= c <= '9'
  }

  predicate IsLetter(c: char) {
    'A' <= c <= 'Z' || 'a' <= c <= 'z'
  }

  predicate IsWord(c: char) {
    IsLetter(c) || IsDigit(c) || c == '_'
  }

  predicate IsWordBoundary(text: string, start: nat, length: nat)
    requires start + length <= |text|
  {
    && (start == 0 || !IsWord(text[start - 1]))
    && (start + length >= |text| || !IsWord(text[start + length]))
  }

  predicate IsNumericAttachedUnit(text: string, start: nat, length: nat)
    requires start + length <= |text|
  {
    && start > 0
    && (IsDigit(text[start - 1]) || text[start - 1] == '.')
    && (start + length >= |text| || !IsWord(text[start + length]))
  }

  predicate Occurs(text: string, t: Token, start: nat) {
    start + |TextOf(t)| <= |text| && text[start..start + |TextOf(t)|] == TextOf(t)
  }

  /** An occurrence of a token that counts as a unit. */
  predicate IsTokenUnit(text: string, t: Token, start: nat) {
    && Occurs(text, t, start)
    && (NeedsBoundary(t) ==>
      IsWordBoundary(text, start, |TextOf(t)|) || IsNumericAttachedUnit(text, start, |TextOf(t)|))
  }

  /** A single `h` or `m` after a digit or a point and not before a letter. */
  predicate IsTimeUnit(text: string, i: nat) {
    && 0 < i < |text|
    && (text[i] == 'h' || text[i] == 'm')
    && (IsDigit(text[i - 1]) || text[i - 1] == '.')
    && (i + 1 == |text| || !IsLetter(text[i + 1]))
  }

  ghost predicate IsUnit(text: string, r: Range) {
    || (exists t: Token :: IsTokenUnit(text, t, r.start) && r.length == |TextOf(t)|)
    || (IsTimeUnit(text, r.start) && r.length == 1)
  }

  // ---------------------------------------------------------------- occurrences do not overlap

  lemma OccursAt(text: string, t: Token, start: nat, k: nat)
    requires Occurs(text, t, start) && k < |TextOf(t)|
    ensures text[start + k] == TextOf(t)[k]
  {
    assert text[start..start + |TextOf(t)|][k] == text[start + k];
  }

  /** No token contains the first letter of another after its own first letter, except RPM. */
  lemma TokenLetters(t: Token, u: Token, k: nat)
    requires k < |TextOf(t)| && TextOf(t)[k] == TextOf(u)[0]
    ensures (k == 0 && t == u) || (k == 2 && t == Rpm && u == Megahertz)
  {
  }

  lemma TokenBeforeToken(text: string, t: Token, u: Token, start: nat, next: nat)
    requires IsTokenUnit(text, t, start) && IsTokenUnit(text, u, next) && start <= next
    ensures (start == next && t == u) || start + |TextOf(t)| <= next
  {
    if next < start + |TextOf(t)| {
      OccursAt(text, t, start, next - start);
      OccursAt(text, u, next, 0);
      TokenLetters(t, u, next - start);
      if next != start {
        OccursAt(text, Rpm, start, 1);
      }
    }
  }

  lemma TokenAndTime(text: string, t: Token, start: nat, i: nat)
    requires IsTokenUnit(text, t, start) && IsTimeUnit(text, i)
    ensures i < start || start + |TextOf(t)| <= i
  {
    if start <= i < start + |TextOf(t)| {
      OccursAt(text, t, start, i - start);
      NoTimeLetter(t, i - start);
    }
  }

  lemma NoTimeLetter(t: Token, k: nat)
    requires k < |TextOf(t)|
    ensures TextOf(t)[k] != 'h' && TextOf(t)[k] != 'm'
  {
  }

  /** Two units of the same text are the same or do not overlap. */
  lemma UnitsDisjoint(text: string, a: Range, b: Range)
    requires IsUnit(text, a) && IsUnit(text, b) && a.start <= b.start
    ensures a == b || a.End() <= b.start
  {
    if t: Token :| IsTokenUnit(text, t, a.start) && a.length == |TextOf(t)| {
      if u: Token :| IsTokenUnit(text, u, b.start) && b.length == |TextOf(u)| {
        TokenBeforeToken(text, t, u, a.start, b.start);
      } else {
        TokenAndTime(text, t, a.start, b.start);
      }
    } else if u: Token :| IsTokenUnit(text, u, b.start) && b.length == |TextOf(u)| {
      TokenAndTime(text, u, b.start, a.start);
    }
  }

  lemma UnitInText(text: string, r: Range)
    requires IsUnit(text, r)
    ensures r.length > 0 && r.End() <= |text|
  {
  }

  // ---------------------------------------------------------------- finding them

  /** The first occurrence of a token at or after `from`. */
  method Find(text: string, t: Token, from: nat) returns (found: Option<nat>)
    ensures found == None ==> forall s: nat :: s >= from ==> !Occurs(text, t, s)
    ensures found.Some? ==> found.value >= from && Occurs(text, t, found.value)
    ensures found.Some? ==> forall s: nat :: from <= s < found.value ==> !Occurs(text, t, s)
  {
    var s := from;
    while s + |TextOf(t)| <= |text|
      invariant from <= s
      invariant forall r: nat :: from <= r < s ==> !Occurs(text, t, r)
      decreases |text| - s
    {
      if text[s..s + |TextOf(t)|] == TextOf(t) { return Some(s); }
      s := s + 1;
    }
    return None;
  }

  ghost predicate DistinctStarts(rs: seq<Range>) {
    forall i, j :: 0 <= i < j < |rs| ==> rs[i].start != rs[j].start
  }

  /** A token's occurrence excludes another one of the same token inside it. */
  lemma NoSelfOverlap(text: string, t: Token, start: nat, s: nat)
    requires Occurs(text, t, start) && start < s < start + |TextOf(t)|
    ensures !Occurs(text, t, s)
  {
    if Occurs(text, t, s) {
      OccursAt(text, t, start, s - start);
      OccursAt(text, t, s, 0);
      TokenLetters(t, t, s - start);
    }
  }

  /** The units of one token that start before a position. */
  ghost predicate HasToken(rs: seq<Range>, text: string, t: Token, before: nat) {
    forall r: Range :: r in rs <==> IsTokenUnit(text, t, r.start) && r.length == |TextOf(t)| && r.start < before
  }

  /** The units up to the end of the next occurrence: the occurrence itself, if it is one. */
  lemma TokenStep(rs: seq<Range>, text: string, t: Token, from: nat, at: nat)
    requires DistinctStarts(rs) && HasToken(rs, text, t, from)
    requires from <= at && Occurs(text, t, at) && forall s: nat :: from <= s < at ==> !Occurs(text, t, s)
    ensures var next := if IsTokenUnit(text, t, at) then rs + [Range(at, |TextOf(t)|)] else rs;
      DistinctStarts(next) && HasToken(next, text, t, at + |TextOf(t)|)
  {
    var next := if IsTokenUnit(text, t, at) then rs + [Range(at, |TextOf(t)|)] else rs;
    assert forall i :: 0 <= i < |rs| ==> rs[i] in rs;
    forall r: Range
      ensures r in next <==> IsTokenUnit(text, t, r.start) && r.length == |TextOf(t)| && r.start < at + |TextOf(t)|
    {
      if at < r.start < at + |TextOf(t)| { NoSelfOverlap(text, t, at, r.start); }
    }
  }

  /** Every unit of one token, though the search skips over each occurrence it finds. */
  method FindToken(text: string, t: Token) returns (rs: seq<Range>)
    ensures DistinctStarts(rs)
    ensures HasToken(rs, text, t, |text|)
  {
    rs := [];
    var length := |TextOf(t)|;
    var start := Find(text, t, 0);
    ghost var from: nat := 0;
    while start.Some?
      invariant DistinctStarts(rs) && HasToken(rs, text, t, from)
      invariant start == None ==> forall s: nat :: s >= from ==> !Occurs(text, t, s)
      invariant start.Some? ==> start.value >= from && Occurs(text, t, start.value)
      invariant start.Some? ==> forall s: nat :: from <= s < start.value ==> !Occurs(text, t, s)
      decreases if start.Some? then |text| + 1 - start.value else 0
    {
      var at := start.value;
      TokenStep(rs, text, t, from, at);
      if !NeedsBoundary(t) || IsWordBoundary(text, at, length) || IsNumericAttachedUnit(text, at, length) {
        rs := rs + [Range(at, length)];
      }
      from := at + length;
      start := Find(text, t, at + length);
    }
  }

  ghost predicate HasTimes(rs: seq<Range>, text: string, before: nat) {
    forall r: Range :: r in rs <==> IsTimeUnit(text, r.start) && r.length == 1 && r.start < before
  }

  method FindTimes(text: string) returns (rs: seq<Range>)
    ensures DistinctStarts(rs)
    ensures HasTimes(rs, text, |text|)
  {
    rs := [];
    var i := 1;
    while i < |text|
      invariant 1 <= i
      invariant DistinctStarts(rs) && HasTimes(rs, text, i)
    {
      if (text[i] == 'h' || text[i] == 'm') && (IsDigit(text[i - 1]) || text[i - 1] == '.')
        && (i + 1 == |text| || !IsLetter(text[i + 1]))
      {
        rs := rs + [Range(i, 1)];
      }
      i := i + 1;
    }
  }

  /** All ranges are units with distinct starts. */
  ghost predicate AreUnits(rs: seq<Range>, text: string) {
    DistinctStarts(rs) && forall r :: r in rs ==> IsUnit(text, r)
  }

  /** Units of different kinds start at different places, so lists of them can be joined. */
  lemma JoinUnits(text: string, a: seq<Range>, b: seq<Range>)
    requires AreUnits(a, text) && AreUnits(b, text) && forall r :: r in a ==> r !in b
    ensures AreUnits(a + b, text)
  {
    forall i, j | 0 <= i < j < |a + b| ensures (a + b)[i].start != (a + b)[j].start {
      if i < |a| <= j {
        var x, y := a[i], b[j - |a|];
        assert x in a && y in b;
        if x.start == y.start { UnitsDisjoint(text, x, y); }
      }
    }
  }

  /** The units of the tokens in `done`. */
  ghost predicate HasTokens(rs: seq<Range>, text: string, done: set<Token>) {
    forall r: Range :: r in rs <==> exists t: Token :: t in done && IsTokenUnit(text, t, r.start) && r.length == |TextOf(t)|
  }

  method AddToken(text: string, t: Token, ranges: seq<Range>, ghost done: set<Token>) returns (rs: seq<Range>)
    requires AreUnits(ranges, text) && HasTokens(ranges, text, done) && t !in done
    ensures AreUnits(rs, text) && HasTokens(rs, text, done + {t})
  {
    var found := FindToken(text, t);
    forall r | r in ranges ensures r !in found {
      if r in found {
        var u: Token :| u in done && IsTokenUnit(text, u, r.start) && r.length == |TextOf(u)|;
        TokenBeforeToken(text, t, u, r.start, r.start);
      }
    }
    assert AreUnits(found, text);
    JoinUnits(text, ranges, found);
    rs := ranges + found;
    TokensJoined(rs, ranges, found, text, t, done);
  }

  lemma TokensJoined(rs: seq<Range>, ranges: seq<Range>, found: seq<Range>, text: string, t: Token, done: set<Token>)
    requires rs == ranges + found && HasTokens(ranges, text, done) && HasToken(found, text, t, |text|)
    ensures HasTokens(rs, text, done + {t})
  {
    forall r: Range
      ensures r in rs <==> exists u: Token :: u in done + {t} && IsTokenUnit(text, u, r.start) && r.length == |TextOf(u)|
    {
      assert r in rs <==> r in ranges || r in found;
    }
  }

  // ---------------------------------------------------------------- in order of position

  ghost predicate Ordered(rs: seq<Range>) {
    forall i, j :: 0 <= i < j < |rs| ==> rs[i].start < rs[j].start
  }

  /** The ranges by start. */
  method SortByStart(ranges: seq<Range>) returns (rs: seq<Range>)
    requires DistinctStarts(ranges)
    ensures Ordered(rs) && |rs| == |ranges|
    ensures forall r :: r in rs <==> r in ranges
  {
    rs := [];
    for i := 0 to |ranges|
      invariant |rs| == i && Ordered(rs)
      invariant forall r :: r in rs <==> r in ranges[..i]
    {
      assert ranges[i] !in ranges[..i];
      rs := Place(rs, ranges[i], ranges[..i]);
      assert ranges[..i + 1] == ranges[..i] + [ranges[i]];
    }
    assert ranges[..|ranges|] == ranges;
  }

  method Place(rs: seq<Range>, r: Range, ghost earlier: seq<Range>) returns (placed: seq<Range>)
    requires Ordered(rs) && forall x :: x in rs ==> x.start != r.start
    ensures Ordered(placed) && |placed| == |rs| + 1
    ensures forall x :: x in placed <==> x in rs || x == r
  {
    var k := 0;
    while k < |rs| && rs[k].start < r.start
      invariant k <= |rs|
      invariant forall j :: 0 <= j < k ==> rs[j].start < r.start
    {
      k := k + 1;
    }
    assert k < |rs| ==> rs[k] in rs;
    placed := rs[..k] + [r] + rs[k..];
    assert rs == rs[..k] + rs[k..];
  }

  // ---------------------------------------------------------------- the units of a text

  /** The length of the unit that starts at a position. */
  function UnitAt(text: string, i: nat): Option<nat> {
    if IsTokenUnit(text, Fps, i) then Some(3)
    else if IsTokenUnit(text, Rpm, i) then Some(3)
    else if IsTokenUnit(text, Percent, i) then Some(1)
    else if IsTokenUnit(text, Celsius, i) then Some(2)
    else if IsTokenUnit(text, Watt, i) then Some(1)
    else if IsTokenUnit(text, Gigabyte, i) then Some(2)
    else if IsTokenUnit(text, Megahertz, i) then Some(3)
    else if IsTimeUnit(text, i) then Some(1)
    else None
  }

  lemma TokenFound(text: string, t: Token, i: nat)
    ensures IsTokenUnit(text, t, i) ==> UnitAt(text, i).Some?
  {
    if UnitAt(text, i) == None {
      match t {
        case Fps =>
        case Rpm =>
        case Percent =>
        case Celsius =>
        case Watt =>
        case Gigabyte =>
        case Megahertz =>
      }
    }
  }

  lemma UnitAtMeans(text: string, r: Range)
    ensures UnitAt(text, r.start) == Some(r.length) <==> IsUnit(text, r)
  {
    var i := r.start;
    if UnitAt(text, i).Some? {
      var found := Range(i, UnitAt(text, i).value);
      assert IsUnit(text, found);
      if IsUnit(text, r) { UnitsDisjoint(text, found, r); UnitInText(text, found); }
    } else if t: Token :| IsTokenUnit(text, t, i) && r.length == |TextOf(t)| {
      TokenFound(text, t, i);
    }
  }

  /** The units that start before position `n`, from left to right. */
  function UnitsBefore(text: string, n: nat): seq<Range> {
    if n == 0 then []
    else UnitsBefore(text, n - 1) + if UnitAt(text, n - 1).Some? then [Range(n - 1, UnitAt(text, n - 1).value)] else []
  }

  function Units(text: string): seq<Range> {
    UnitsBefore(text, |text|)
  }

  lemma {:induction false} UnitsBeforeOrdered(text: string, n: nat)
    ensures Ordered(UnitsBefore(text, n))
    ensures forall r :: r in UnitsBefore(text, n) ==> r.start < n
  {
    if n == 0 {
    } else {
      var before := UnitsBefore(text, n - 1);
      UnitsBeforeOrdered(text, n - 1);
      assert forall i :: 0 <= i < |before| ==> before[i] in before;
    }
  }

  lemma UnitsBeforeNext(text: string, n: nat, r: Range)
    ensures r in UnitsBefore(text, n + 1)
      <==> r in UnitsBefore(text, n) || (r.start == n && UnitAt(text, n) == Some(r.length))
  {
  }

  lemma {:induction false} UnitsBeforeMeans(text: string, n: nat, r: Range)
    ensures r in UnitsBefore(text, n) <==> IsUnit(text, r) && r.start < n
  {
    if n == 0 {
    } else {
      UnitsBeforeMeans(text, n - 1, r);
      UnitsBeforeNext(text, n - 1, r);
      UnitAtMeans(text, r);
    }
  }

  lemma OrderedDrop(s: seq<Range>)
    requires Ordered(s) && s != []
    ensures Ordered(s[1..])
    ensures forall r :: r in s[1..] <==> r in s && r != s[0]
  {
    assert s == [s[0]] + s[1..];
  }

  /** An ordered list is determined by its members. */
  lemma {:induction false} OrderedIsUnique(a: seq<Range>, b: seq<Range>)
    requires Ordered(a) && Ordered(b) && forall r :: r in a <==> r in b
    ensures a == b
    decreases |a|
  {
    if a == [] {
      assert forall i :: 0 <= i < |b| ==> b[i] in b;
    } else {
      assert a[0] in b;
      assert b != [] && b[0] in a;
      assert a[0] == b[0];
      OrderedDrop(a);
      OrderedDrop(b);
      assert a == [a[0]] + a[1..] && b == [b[0]] + b[1..];
      OrderedIsUnique(a[1..], b[1..]);
    }
  }

  /** Collects the units token by token, then orders them by position. */
  method FindHudUnitRanges(text: string) returns (ranges: seq<Range>)
    ensures ranges == Units(text)
  {
    ranges := [];
    ranges := AddToken(text, Fps, ranges, {});
    ranges := AddToken(text, Rpm, ranges, {Fps});
    ranges := AddToken(text, Percent, ranges, {Fps, Rpm});
    ranges := AddToken(text, Celsius, ranges, {Fps, Rpm, Percent});
    ranges := AddToken(text, Watt, ranges, {Fps, Rpm, Percent, Celsius});
    ranges := AddToken(text, Gigabyte, ranges, {Fps, Rpm, Percent, Celsius, Watt});
    ghost var six := {Fps, Rpm, Percent, Celsius, Watt, Gigabyte};
    ranges := AddToken(text, Megahertz, ranges, six);
    var times := FindTimes(text);
    AllTokens(six + {Megahertz});
    TimesJoin(text, ranges, six + {Megahertz}, times);
    ranges := SortByStart(ranges + times);
    UnitsBeforeOrdered(text, |text|);
    forall r { UnitsBeforeMeans(text, |text|, r); }
    OrderedIsUnique(ranges, Units(text));
  }

  lemma AllTokens(tokens: set<Token>)
    requires {Fps, Rpm, Percent, Celsius, Watt, Gigabyte, Megahertz} <= tokens
    ensures forall t: Token :: t in tokens
  {
    forall t: Token ensures t in tokens {
      match t {
        case Fps =>
        case Rpm =>
        case Percent =>
        case Celsius =>
        case Watt =>
        case Gigabyte =>
        case Megahertz =>
      }
    }
  }

  lemma TimesJoin(text: string, tokens: seq<Range>, done: set<Token>, times: seq<Range>)
    requires AreUnits(tokens, text) && HasTokens(tokens, text, done) && DistinctStarts(times) && HasTimes(times, text, |text|)
    requires forall t: Token :: t in done
    ensures DistinctStarts(tokens + times)
    ensures forall r :: r in tokens + times <==> IsUnit(text, r) && r.start < |text|
  {
    forall r | r in tokens ensures r !in times {
      var t: Token :| t in done && IsTokenUnit(text, t, r.start) && r.length == |TextOf(t)|;
      if r in times { TokenAndTime(text, t, r.start, r.start); }
    }
    JoinUnits(text, tokens, times);
    forall r: Range ensures r in tokens + times <==> IsUnit(text, r) && r.start < |text| {
      assert r in tokens + times <==> r in tokens || r in times;
    }
  }

  /** Every listed unit lies in the text and ends before the next one starts. */
  lemma UnitsSegment(text: string)
    ensures forall r :: r in Units(text) <==> IsUnit(text, r)
    ensures forall i :: 0 <= i < |Units(text)| ==> Units(text)[i].length > 0 && Units(text)[i].End() <= |text|
    ensures forall i, j :: 0 <= i < j < |Units(text)| ==> Units(text)[i].End() <= Units(text)[j].start
  {
    var rs := Units(text);
    UnitsBeforeOrdered(text, |text|);
    forall r: Range ensures r in rs <==> IsUnit(text, r) {
      UnitsBeforeMeans(text, |text|, r);
      if IsUnit(text, r) { UnitInText(text, r); }
    }
    forall r: Range | IsUnit(text, r) ensures r.length > 0 && r.End() <= |text| { UnitInText(text, r); }
    forall i, j | 0 <= i < j < |rs| ensures rs[i].End() <= rs[j].start {
      assert rs[i] in rs && rs[j] in rs;
      UnitsDisjoint(text, rs[i], rs[j]);
    }
  }
}
