/**
 The width of terminal rows and what cutting, padding and overlaying them does to it
 (internal/app/display.go, tui_render.go). Escape sequences follow section 5.4 of ECMA-48.
 */
module RowWidth {
  import opened Numbers

  /** A character by its code point; `mark` says whether it is a nonspacing mark. */
  datatype Rune = Rune(code: nat, mark: bool)

  type Row = seq<Rune>

  const ESC := Rune(0x1b, false)
  const SPACE := Rune(0x20, false)
  const ELLIPSIS := Rune(0x2026, false)

  predicate Within(r: Rune, low: nat, high: nat) { low <= r.code <= high }

  // ----- the grammar of escape sequences -----

  predicate Parameter(r: Rune) { Within(r, 0x30, 0x3f) }

  predicate Intermediate(r: Rune) { Within(r, 0x20, 0x2f) }

  predicate Final(r: Rune) { Within(r, 0x40, 0x7e) }

  /** ESC and one of the C1 bytes but '['. */
  ghost predicate TwoByte(e: Row) { |e| == 2 && e[0].code == 0x1b
      && (0x40 <= e[1].code <= 0x5a || 0x5c <= e[1].code <= 0x5f) }

  /** ESC '[', parameter bytes, intermediate bytes, and a final byte; m is where the intermediates start. */
  ghost predicate Control(e: Row, m: nat) {
    && 2 <= m < |e| && e[0].code == 0x1b && e[1].code == 0x5b
    && (forall i | 2 <= i < m :: 0x30 <= e[i].code <= 0x3f)
    && (forall i | m <= i < |e| - 1 :: 0x20 <= e[i].code <= 0x2f)
    && 0x40 <= e[|e| - 1].code <= 0x7e
  }

  ghost predicate IsEscape(e: Row) { TwoByte(e) || exists m: nat :: Control(e, m) }

  function SkipParameters(s: Row, i: nat): (r: nat)
    requires i <= |s|
    ensures i <= r <= |s|
    decreases |s| - i
  {
    if i < |s| && Parameter(s[i]) then SkipParameters(s, i + 1) else i
  }

  function SkipIntermediates(s: Row, i: nat): (r: nat)
    requires i <= |s|
    ensures i <= r <= |s|
    decreases |s| - i
  {
    if i < |s| && Intermediate(s[i]) then SkipIntermediates(s, i + 1) else i
  }

  lemma {:induction false} ParametersSkipped(s: Row, i: nat)
    requires i <= |s|
    ensures forall k | i <= k < SkipParameters(s, i) :: Parameter(s[k])
    decreases |s| - i
  {
    if i < |s| && Parameter(s[i]) {
      ParametersSkipped(s, i + 1);
    }
  }

  lemma {:induction false} IntermediatesSkipped(s: Row, i: nat)
    requires i <= |s|
    ensures forall k | i <= k < SkipIntermediates(s, i) :: Intermediate(s[k])
    decreases |s| - i
  {
    if i < |s| && Intermediate(s[i]) {
      IntermediatesSkipped(s, i + 1);
    }
  }

  /** The length of the escape sequence a row starts with, or 0. */
  function EscapeLen(s: Row): (n: nat)
    ensures n <= |s| && (n > 0 ==> s[0].code == 0x1b && n >= 2)
  {
    if |s| < 2 || s[0].code != 0x1b then 0
    else if Within(s[1], 0x40, 0x5a) || Within(s[1], 0x5c, 0x5f) then 2
    else if s[1].code != 0x5b then 0
    else
      var i := SkipIntermediates(s, SkipParameters(s, 2));
      if i < |s| && Final(s[i]) then i + 1 else 0
  }

  method AnsiPrefixLen(s: Row) returns (n: nat)
    ensures n == EscapeLen(s)
  {
    if |s| < 2 || s[0].code != 0x1b {
      return 0;
    }
    if Within(s[1], 0x40, 0x5a) || Within(s[1], 0x5c, 0x5f) {
      return 2;
    }
    if s[1].code != 0x5b {
      return 0;
    }
    var i := 2;
    while i < |s| && Parameter(s[i])
      invariant 2 <= i <= |s| && SkipParameters(s, i) == SkipParameters(s, 2)
    {
      i := i + 1;
    }
    ghost var m := i;
    while i < |s| && Intermediate(s[i])
      invariant m <= i <= |s| && SkipIntermediates(s, i) == SkipIntermediates(s, m)
    {
      i := i + 1;
    }
    return if i < |s| && Final(s[i]) then i + 1 else 0;
  }

  /** The scan finds exactly the prefix the grammar admits; there is at most one. */
  lemma EscapeLenIff(s: Row, n: nat)
    requires n <= |s|
    ensures IsEscape(s[..n]) <==> n > 0 && EscapeLen(s) == n
  {
    if n > 0 && EscapeLen(s) == n {
      ScanIsEscape(s);
    }
    if TwoByte(s[..n]) {
      assert s[..n][1] == s[1];
    } else if m: nat :| Control(s[..n], m) {
      ControlIsScanned(s, n, m);
    }
  }

  lemma ScanIsEscape(s: Row)
    requires EscapeLen(s) > 0
    ensures IsEscape(s[..EscapeLen(s)])
  {
    var n := EscapeLen(s);
    if s[1].code == 0x5b {
      var m := SkipParameters(s, 2);
      assert n == SkipIntermediates(s, m) + 1;
      ParametersSkipped(s, 2);
      IntermediatesSkipped(s, m);
      assert Control(s[..n], m);
    } else {
      assert TwoByte(s[..n]);
    }
  }

  lemma {:induction false} ParametersEnd(s: Row, i: nat, m: nat)
    requires i <= m < |s| && !Parameter(s[m]) && forall k | i <= k < m :: Parameter(s[k])
    ensures SkipParameters(s, i) == m
    decreases m - i
  {
    if i < m {
      ParametersEnd(s, i + 1, m);
    }
  }

  lemma {:induction false} IntermediatesEnd(s: Row, i: nat, m: nat)
    requires i <= m < |s| && !Intermediate(s[m]) && forall k | i <= k < m :: Intermediate(s[k])
    ensures SkipIntermediates(s, i) == m
    decreases m - i
  {
    if i < m {
      IntermediatesEnd(s, i + 1, m);
    }
  }

  lemma ControlIsScanned(s: Row, n: nat, m: nat)
    requires n <= |s| && Control(s[..n], m)
    ensures EscapeLen(s) == n
  {
    var e := s[..n];
    assert e[0] == s[0] && e[1] == s[1] && e[n - 1] == s[n - 1];
    assert forall i | 2 <= i < m :: Parameter(s[i]) by {
      forall i | 2 <= i < m ensures Parameter(s[i]) { assert e[i] == s[i]; }
    }
    assert forall i | m <= i < n - 1 :: Intermediate(s[i]) by {
      forall i | m <= i < n - 1 ensures Intermediate(s[i]) { assert e[i] == s[i]; }
    }
    assert !Parameter(s[m]) by {
      assert m == n - 1 || Intermediate(s[m]);
    }
    ParametersEnd(s, 2, m);
    assert !Intermediate(s[n - 1]);
    IntermediatesEnd(s, m, n - 1);
  }

  /** An escape sequence ends where it ends, whatever follows. */
  lemma EscapeIsSelfDelimiting(e: Row, rest: Row)
    requires IsEscape(e)
    ensures EscapeLen(e + rest) == |e| && |e| >= 2
  {
    assert (e + rest)[..|e|] == e;
    EscapeLenIff(e + rest, |e|);
  }

  /** Rows that share their first k places start with the same short enough escape sequence. */
  lemma EscapeInPrefix(s: Row, t: Row, k: nat)
    requires k <= |s| && k <= |t| && s[..k] == t[..k]
    ensures 0 < EscapeLen(s) <= k ==> EscapeLen(t) == EscapeLen(s)
  {
    var n := EscapeLen(s);
    if 0 < n <= k {
      EscapeLenIff(s, n);
      assert t[..n] == t[..k][..n] == s[..k][..n] == s[..n];
      EscapeLenIff(t, n);
    }
  }

  // ----- width -----

  predicate IsWide(code: nat) {
    code >= 0x1100 && (
      code <= 0x115f || code == 0x2329 || code == 0x232a || 0x2e80 <= code <= 0xa4cf || 0xac00 <= code <= 0xd7a3
      || 0xf900 <= code <= 0xfaff || 0xfe10 <= code <= 0xfe19 || 0xfe30 <= code <= 0xfe6f
      || 0xff00 <= code <= 0xff60 || 0xffe0 <= code <= 0xffe6 || code >= 0x1f300)
  }

  /** terminalRuneWidth. */
  function RuneWidth(r: Rune): (w: nat)
    ensures w <= 2
  {
    if r.code < 0x80 then 1 else if r.mark then 0 else if IsWide(r.code) then 2 else 1
  }

  /** The ranges below U+1F300 whose characters take two columns. */
  ghost const WIDE: seq<(nat, nat)> := [
    (0x1100, 0x115f), (0x2329, 0x2329), (0x232a, 0x232a), (0x2e80, 0xa4cf), (0xac00, 0xd7a3),
    (0xf900, 0xfaff), (0xfe10, 0xfe19), (0xfe30, 0xfe6f), (0xff00, 0xff60), (0xffe0, 0xffe6)]

  /** A nonspacing mark beyond ASCII takes no column, a character of the table two, any other one. */
  lemma RuneWidthIff(r: Rune)
    ensures RuneWidth(r) == 0 <==> r.code >= 0x80 && r.mark
    ensures RuneWidth(r) == 2 <==>
      !r.mark && (r.code >= 0x1f300 || exists k | 0 <= k < |WIDE| :: WIDE[k].0 <= r.code <= WIDE[k].1)
    ensures RuneWidth(r) <= 2
  {
    var c := r.code;
    var k := if c <= 0x115f then 0 else if c <= 0x2329 then 1 else if c == 0x232a then 2 else if c <= 0xa4cf then 3
      else if c <= 0xd7a3 then 4 else if c <= 0xfaff then 5 else if c <= 0xfe19 then 6 else if c <= 0xfe6f then 7
      else if c <= 0xff60 then 8 else 9;
    assert IsWide(c) && c < 0x1f300 ==> WIDE[k].0 <= c <= WIDE[k].1;
  }

  function Width(s: Row): nat
    decreases |s|
  {
    if s == [] then 0
    else if EscapeLen(s) > 0 then Width(s[EscapeLen(s)..])
    else RuneWidth(s[0]) + Width(s[1..])
  }

  method VisibleWidth(row: Row) returns (n: nat)
    ensures n == Width(row)
  {
    n := 0;
    var s := row;
    while |s| > 0
      invariant n + Width(s) == Width(row)
      decreases |s|
    {
      if s[0].code == 0x1b {
        var size := AnsiPrefixLen(s);
        if size > 0 {
          s := s[size..];
          continue;
        }
      }
      n := n + RuneWidth(s[0]);
      s := s[1..];
    }
  }

  /** The row's ESC characters all start an escape sequence. */
  predicate Clean(s: Row)
    decreases |s|
  {
    s == [] || (if EscapeLen(s) > 0 then Clean(s[EscapeLen(s)..]) else s[0].code != 0x1b && Clean(s[1..]))
  }

  lemma {:induction false} WidthOfJoined(a: Row, b: Row)
    requires Clean(a)
    ensures Width(a + b) == Width(a) + Width(b)
    ensures Clean(b) ==> Clean(a + b)
    decreases |a|
  {
    if a == [] {
      assert a + b == b;
    } else if EscapeLen(a) > 0 {
      var n := EscapeLen(a);
      assert (a + b)[..|a|] == a[..|a|];
      EscapeInPrefix(a, a + b, |a|);
      assert (a + b)[n..] == a[n..] + b;
      WidthOfJoined(a[n..], b);
    } else {
      assert (a + b)[1..] == a[1..] + b;
      WidthOfJoined(a[1..], b);
    }
  }

  function Spaces(n: nat): (r: Row) { seq(n, i => SPACE) }

  lemma {:induction false} SpacesAreClean(n: nat)
    ensures Clean(Spaces(n)) && Width(Spaces(n)) == n
  {
    if n > 0 {
      assert Spaces(n)[1..] == Spaces(n - 1);
      SpacesAreClean(n - 1);
    }
  }

  /** The style reset of a palette: an escape sequence, or nothing without colors. */
  ghost predicate IsReset(reset: Row) { reset == [] || IsEscape(reset) }

  lemma ResetIsClean(reset: Row)
    requires IsReset(reset)
    ensures Clean(reset) && Width(reset) == 0
  {
    if reset != [] {
      EscapeIsSelfDelimiting(reset, []);
      assert reset + [] == reset && reset[|reset|..] == [];
    }
  }

  // ----- truncating and padding -----

  /** What truncateVisible keeps of a row within `room` columns. */
  function Kept(s: Row, room: nat): (k: nat)
    ensures k <= |s|
    decreases |s|
  {
    if s == [] then 0
    else if EscapeLen(s) > 0 then EscapeLen(s) + Kept(s[EscapeLen(s)..], room)
    else if RuneWidth(s[0]) > room then 0
    else 1 + Kept(s[1..], room - RuneWidth(s[0]))
  }

  /** The columns of what is kept. */
  function Used(s: Row, room: nat): (u: nat)
    ensures u <= room
    decreases |s|
  {
    if s == [] then 0
    else if EscapeLen(s) > 0 then Used(s[EscapeLen(s)..], room)
    else if RuneWidth(s[0]) > room then 0
    else RuneWidth(s[0]) + Used(s[1..], room - RuneWidth(s[0]))
  }

  method TruncateVisible(row: Row, width: int, reset: Row) returns (r: Row)
    ensures r == Truncated(row, width, reset)
  {
    if width <= 0 {
      return [];
    }
    var w := VisibleWidth(row);
    if w <= width {
      return row;
    }
    var b := KeepWithin(row, width - 1);
    KeptTextIsPrefix(row, width - 1);
    return b + [ELLIPSIS] + reset;
  }

  /** The text of that part. */
  function KeptText(s: Row, room: nat): Row
    decreases |s|
  {
    if s == [] then []
    else if EscapeLen(s) > 0 then s[..EscapeLen(s)] + KeptText(s[EscapeLen(s)..], room)
    else if RuneWidth(s[0]) > room then []
    else [s[0]] + KeptText(s[1..], room - RuneWidth(s[0]))
  }

  lemma {:induction false} KeptTextIsPrefix(s: Row, room: nat)
    ensures KeptText(s, room) == s[..Kept(s, room)]
    decreases |s|
  {
    if s != [] && EscapeLen(s) > 0 {
      var n := EscapeLen(s);
      KeptTextIsPrefix(s[n..], room);
      assert s[..Kept(s, room)] == s[..n] + s[n..][..Kept(s[n..], room)];
    } else if s != [] && RuneWidth(s[0]) <= room {
      var left := room - RuneWidth(s[0]);
      KeptTextIsPrefix(s[1..], left);
      assert s[..Kept(s, room)] == [s[0]] + s[1..][..Kept(s[1..], left)];
    }
  }

  /** What was kept so far and what is still to be kept make the whole. */
  ghost predicate KeptSoFar(row: Row, limit: nat, b: Row, s: Row, room: nat) {
    b + KeptText(s, room) == KeptText(row, limit)
  }

  lemma KeepStep(row: Row, limit: nat, b: Row, s: Row, room: nat)
    requires KeptSoFar(row, limit, b, s, room) && s != []
    ensures EscapeLen(s) > 0 ==> KeptSoFar(row, limit, b + s[..EscapeLen(s)], s[EscapeLen(s)..], room)
    ensures EscapeLen(s) == 0 && RuneWidth(s[0]) <= room ==>
            KeptSoFar(row, limit, b + s[..1], s[1..], room - RuneWidth(s[0]))
    ensures EscapeLen(s) == 0 && RuneWidth(s[0]) > room ==> b == KeptText(row, limit)
  {
    if EscapeLen(s) > 0 {
      var rest := KeptText(s[EscapeLen(s)..], room);
      assert b + (s[..EscapeLen(s)] + rest) == (b + s[..EscapeLen(s)]) + rest;
    } else if RuneWidth(s[0]) <= room {
      var rest := KeptText(s[1..], room - RuneWidth(s[0]));
      assert s[..1] == [s[0]];
      assert b + ([s[0]] + rest) == (b + [s[0]]) + rest;
    } else {
      assert b + [] == b;
    }
  }

  /** The loop of truncateVisible. */
  method KeepWithin(row: Row, limit: nat) returns (b: Row)
    ensures b == KeptText(row, limit)
  {
    b := [];
    var used, s := 0, row;
    while |s| > 0
      invariant 0 <= used <= limit && KeptSoFar(row, limit, b, s, limit - used)
      decreases |s|
    {
      KeepStep(row, limit, b, s, limit - used);
      if s[0].code == 0x1b {
        var size := AnsiPrefixLen(s);
        if size > 0 {
          b, s := b + s[..size], s[size..];
          continue;
        }
      }
      var w := RuneWidth(s[0]);
      if used + w > limit {
        return;
      }
      b, used, s := b + s[..1], used + w, s[1..];
    }
  }

  function Truncated(s: Row, width: int, reset: Row): Row {
    if width <= 0 then []
    else if Width(s) <= width then s
    else s[..Kept(s, width - 1)] + [ELLIPSIS] + reset
  }

  /** An ESC that starts no escape sequence still starts none once the row is cut and goes on with an ellipsis. */
  lemma StillDangling(s: Row, k: nat, tail: Row)
    requires 1 <= k <= |s| && EscapeLen(s) == 0
    ensures EscapeLen(s[..k] + [ELLIPSIS] + tail) == 0
  {
    var t := s[..k] + [ELLIPSIS] + tail;
    var n := EscapeLen(t);
    if n > 0 {
      EscapeLenIff(t, n);
      var e := t[..n];
      if n <= k {
        assert t[..k] == s[..k];
        EscapeInPrefix(t, s, k);
      } else {
        assert e[k] == ELLIPSIS;
        NoEllipsis(e, k);
      }
    }
  }

  lemma NoEllipsis(e: Row, k: nat)
    requires IsEscape(e) && k < |e|
    ensures e[k].code < 0x7f
  {
    if !TwoByte(e) {
      var m: nat :| Control(e, m);
      assert k < 2 || k < m || k < |e| - 1 || k == |e| - 1;
    }
  }

  lemma {:induction false} KeptWidth(s: Row, room: nat, tail: Row)
    ensures Width(s[..Kept(s, room)] + [ELLIPSIS] + tail) == Used(s, room) + Width([ELLIPSIS] + tail)
    decreases |s|
  {
    var k := Kept(s, room);
    var t := s[..k] + [ELLIPSIS] + tail;
    if s != [] && EscapeLen(s) > 0 {
      var n := EscapeLen(s);
      assert t[..k] == s[..k];
      EscapeInPrefix(s, t, k);
      assert t[n..] == s[n..][..k - n] + [ELLIPSIS] + tail;
      KeptWidth(s[n..], room, tail);
    } else if s != [] && RuneWidth(s[0]) <= room {
      StillDangling(s, k, tail);
      assert t[1..] == s[1..][..k - 1] + [ELLIPSIS] + tail;
      KeptWidth(s[1..], room - RuneWidth(s[0]), tail);
    } else {
      assert t == [ELLIPSIS] + tail;
    }
  }

  /** The first character that is not kept is the one that does not fit. */
  lemma {:induction false} FirstCut(s: Row, room: nat)
    requires Width(s) > room
    ensures Kept(s, room) < |s|
    ensures Used(s, room) <= room < Used(s, room) + RuneWidth(s[Kept(s, room)])
    decreases |s|
  {
    if EscapeLen(s) > 0 {
      FirstCut(s[EscapeLen(s)..], room);
      CutsFurther(s, room, EscapeLen(s), room);
    } else if RuneWidth(s[0]) <= room {
      FirstCut(s[1..], room - RuneWidth(s[0]));
      CutsFurther(s, room, 1, room - RuneWidth(s[0]));
    }
  }

  /** Where a row is cut, from where the rest of it is cut. */
  lemma CutsFurther(s: Row, room: nat, n: nat, left: nat)
    requires s != [] && n == if EscapeLen(s) > 0 then EscapeLen(s) else 1
    requires left == room - if EscapeLen(s) > 0 then 0 else RuneWidth(s[0])
    requires Kept(s[n..], left) < |s[n..]|
    ensures Kept(s, room) == n + Kept(s[n..], left) < |s| && Used(s, room) == (room - left) + Used(s[n..], left)
    ensures s[Kept(s, room)] == s[n..][Kept(s[n..], left)]
  {
    var rest := s[n..];
    assert Kept(s, room) == n + Kept(rest, left);
    assert s[n + Kept(rest, left)] == rest[Kept(rest, left)];
  }

  lemma EllipsisWidth(tail: Row)
    ensures Width([ELLIPSIS] + tail) == 1 + Width(tail)
  {
    assert ([ELLIPSIS] + tail)[1..] == tail;
  }

  /** The row is cut just before a two-column character with one column left over. */
  ghost predicate CutsWide(s: Row, width: int) {
    && 0 < width < Width(s)
    && Kept(s, width - 1) < |s| && RuneWidth(s[Kept(s, width - 1)]) == 2
    && Used(s, width - 1) == width - 2
  }

  lemma ShortenedWidth(s: Row, room: nat, reset: Row)
    requires IsReset(reset) && room < Width(s)
    ensures var r := s[..Kept(s, room)] + [ELLIPSIS] + reset;
            Kept(s, room) < |s| && Width(r) == if RuneWidth(s[Kept(s, room)]) == 2
                && Used(s, room) == room - 1 then room else room + 1
  {
    KeptWidth(s, room, reset);
    EllipsisWidth(reset);
    ResetIsClean(reset);
    FirstCut(s, room);
  }

  /** A truncated row, dangling escapes or not, has exactly the width asked for, or one less at a wide character. */
  lemma TruncatedWidth(s: Row, width: int, reset: Row)
    requires IsReset(reset) && 0 < width < Width(s)
    ensures Width(Truncated(s, width, reset)) == if CutsWide(s, width) then width - 1 else width
  {
    ShortenedWidth(s, width - 1, reset);
    FirstCut(s, width - 1);
  }

  function FitVisible(value: Row, width: int, reset: Row): Row {
    if width <= 0 then []
    else if Width(value) > width then Truncated(value, width, reset)
    else value + Spaces(width - Width(value))
  }

  lemma {:induction false} PaddedWidth(s: Row, n: nat)
    ensures Width(s + Spaces(n)) == Width(s) + n
    decreases |s|
  {
    if s == [] {
      SpacesAreClean(n);
      assert s + Spaces(n) == Spaces(n);
    } else if EscapeLen(s) > 0 {
      var k := EscapeLen(s);
      assert (s + Spaces(n))[..|s|] == s[..|s|];
      EscapeInPrefix(s, s + Spaces(n), |s|);
      assert (s + Spaces(n))[k..] == s[k..] + Spaces(n);
      PaddedWidth(s[k..], n);
    } else {
      StillDanglingPadded(s, n);
      assert (s + Spaces(n))[1..] == s[1..] + Spaces(n);
      PaddedWidth(s[1..], n);
    }
  }

  lemma StillDanglingPadded(s: Row, n: nat)
    requires s != [] && EscapeLen(s) == 0
    ensures EscapeLen(s + Spaces(n)) == 0
  {
    var t := s + Spaces(n);
    var k := EscapeLen(t);
    if k > 0 {
      EscapeLenIff(t, k);
      assert t[..|s|] == s[..|s|];
      forall j: nat | |s| < j <= |s| + n ensures !IsEscape(t[..j]) {
        NoEscapeEndsInSpace(s, n, j);
      }
      EscapeInPrefix(t, s, |s|);
    }
  }

  lemma NoEscapeEndsInSpace(s: Row, n: nat, k: nat)
    requires |s| < k <= |s| + n
    ensures !IsEscape((s + Spaces(n))[..k])
  {
    var e := (s + Spaces(n))[..k];
    assert e[k - 1] == SPACE;
    if IsEscape(e) {
      LastIsNoSpace(e);
    }
  }

  lemma LastIsNoSpace(e: Row)
    requires IsEscape(e)
    ensures |e| >= 2 && e[|e| - 1].code >= 0x40
  {
  }

  /** fitVisible gives exactly `width` columns, or one less exactly when it cuts before a wide character. */
  lemma FitWidth(value: Row, width: int, reset: Row)
    requires IsReset(reset)
    ensures Width(FitVisible(value, width, reset)) == if CutsWide(value, width) then width - 1 else Max(0, width)
  {
    if 0 < width < Width(value) {
      TruncatedWidth(value, width, reset);
    } else if width > 0 {
      PaddedWidth(value, width - Width(value));
    }
  }

  // ----- cutting and overlaying -----

  /** How a character at column col shows in columns [from, to): whole, cut to spaces, or not at all. */
  function Piece(r: Rune, col: nat, from: int, to: int): Row {
    var w := RuneWidth(r);
    if col >= from && col + w <= to then [r]
    else if col < to && col + w > from && Min(col + w, to) > Max(col, from)
        then Spaces(Min(col + w, to) - Max(col, from))
    else []
  }

  /** Columns [from, to) of a row that starts at column col, with every escape sequence. */
  function Span(s: Row, col: nat, from: int, to: int): Row
    decreases |s|
  {
    if s == [] then []
    else if EscapeLen(s) > 0 then s[..EscapeLen(s)] + Span(s[EscapeLen(s)..], col, from, to)
    else Piece(s[0], col, from, to) + Span(s[1..], col + RuneWidth(s[0]), from, to)
  }

  /** The count of spaces is never negative: strings.Repeat does not panic. */
  lemma NeverNegative(w: nat, col: int, from: int, to: int)
    requires w <= 2 && col < to && col + w > from && !(col >= from && col + w <= to)
    ensures Min(col + w, to) - Max(col, from) >= 0
  {
  }

  /** What was cut so far and what is still to be cut make the whole span. */
  ghost predicate SpanSoFar(row: Row, from: int, to: int, b: Row, s: Row, col: nat) {
    b + Span(s, col, from, to) == Span(row, 0, from, to)
  }

  lemma SpanStep(row: Row, from: int, to: int, b: Row, s: Row, col: nat, size: nat)
    requires SpanSoFar(row, from, to, b, s, col) && s != []
    requires size == if s[0].code == 0x1b then EscapeLen(s) else 0
    ensures size > 0 ==> size <= |s| && SpanSoFar(row, from, to, b + s[..size], s[size..], col)
    ensures size == 0 ==> SpanSoFar(row, from, to, b + Piece(s[0], col, from, to), s[1..], col + RuneWidth(s[0]))
  {
    var piece := if size > 0 then s[..size] else Piece(s[0], col, from, to);
    var rest := if size > 0 then Span(s[size..], col, from, to)
        else Span(s[1..], col + RuneWidth(s[0]), from, to);
    assert b + (piece + rest) == (b + piece) + rest;
  }

  method VisibleSpan(row: Row, from: int, to: int) returns (b: Row)
    ensures b == Span(row, 0, from, to)
  {
    b := [];
    var col, s := 0, row;
    while |s| > 0
      invariant col >= 0 && SpanSoFar(row, from, to, b, s, col)
      decreases |s|
    {
      var size := 0;
      if s[0].code == 0x1b {
        size := AnsiPrefixLen(s);
      }
      SpanStep(row, from, to, b, s, col, size);
      if size > 0 {
        b, s := b + s[..size], s[size..];
      } else {
        var piece := DrawnPiece(s[0], col, from, to);
        b, col, s := b + piece, col + RuneWidth(s[0]), s[1..];
      }
    }
  }

  /** The branches on one character. */
  method DrawnPiece(r: Rune, col: nat, from: int, to: int) returns (piece: Row)
    ensures piece == Piece(r, col, from, to)
  {
    var w := RuneWidth(r);
    if col >= from && col + w <= to {
      return [r];
    }
    if col < to && col + w > from {
      NeverNegative(w, col, from, to);
      return Spaces(Min(col + w, to) - Max(col, from));
    }
    return [];
  }

  /** One column of a row as drawn: half `part` of a character. */
  datatype Cell = Cell(r: Rune, part: nat)

  const BLANK := Cell(SPACE, 0)

  /** The columns of a row. */
  function Cells(s: Row): (c: seq<Cell>)
    decreases |s|
  {
    if s == [] then []
    else if EscapeLen(s) > 0 then Cells(s[EscapeLen(s)..])
    else seq(RuneWidth(s[0]), i requires i >= 0 => Cell(s[0], i)) + Cells(s[1..])
  }

  lemma {:induction false} OneCellPerColumn(s: Row)
    ensures |Cells(s)| == Width(s)
    decreases |s|
  {
    if s != [] {
      OneCellPerColumn(if EscapeLen(s) > 0 then s[EscapeLen(s)..] else s[1..]);
    }
  }

  /** What the cell at column col shows in columns [from, to): itself, or a space if its character is cut. */
  function Shown(c: Cell, col: int, from: int, to: int): Cell {
    if col - c.part >= from && col - c.part + RuneWidth(c.r) <= to then c else BLANK
  }

  /** Columns [from, to) of cells that start at column col. */
  function Window(cells: seq<Cell>, col: nat, from: int, to: int): seq<Cell> {
    if cells == [] then []
    else (if from <= col < to then [Shown(cells[0], col, from, to)] else []) + Window(cells[1..], col + 1, from, to)
  }

  lemma {:induction false} CellsOfJoined(a: Row, b: Row)
    requires Clean(a)
    ensures Cells(a + b) == Cells(a) + Cells(b)
    decreases |a|
  {
    if a == [] {
      assert a + b == b;
    } else if EscapeLen(a) > 0 {
      var n := EscapeLen(a);
      assert (a + b)[..|a|] == a[..|a|];
      EscapeInPrefix(a, a + b, |a|);
      assert (a + b)[n..] == a[n..] + b;
      CellsOfJoined(a[n..], b);
    } else {
      assert (a + b)[1..] == a[1..] + b;
      CellsOfJoined(a[1..], b);
    }
  }

  lemma {:induction false} WindowOfJoined(a: seq<Cell>, b: seq<Cell>, col: nat, from: int, to: int)
    ensures Window(a + b, col, from, to) == Window(a, col, from, to) + Window(b, col + |a|, from, to)
  {
    if a == [] {
      assert a + b == b;
    } else {
      WindowOfJoined(a[1..], b, col + 1, from, to);
      WindowStep(a, b, col, from, to);
    }
  }

  lemma WindowStep(a: seq<Cell>, b: seq<Cell>, col: nat, from: int, to: int)
    requires a != []
    requires Window(a[1..] + b, col + 1, from, to) == Window(a[1..], col + 1, from, to) + Window(b, col + |a|, from, to)
    ensures Window(a + b, col, from, to) == Window(a, col, from, to) + Window(b, col + |a|, from, to)
  {
    assert (a + b)[1..] == a[1..] + b && (a + b)[0] == a[0];
    var head := if from <= col < to then [Shown(a[0], col, from, to)] else [];
    RegroupCells(head, Window(a[1..], col + 1, from, to), Window(b, col + |a|, from, to));
  }

  lemma RegroupCells(a: seq<Cell>, b: seq<Cell>, c: seq<Cell>)
    ensures (a + b) + c == a + (b + c)
  {
  }

  function Blanks(n: nat): seq<Cell> { seq(n, i => BLANK) }

  lemma {:induction false} SpacesAreBlank(n: nat)
    ensures Cells(Spaces(n)) == Blanks(n)
  {
    if n > 0 {
      assert Spaces(n)[1..] == Spaces(n - 1);
      SpacesAreBlank(n - 1);
    }
  }

  /** The cells of one character. */
  function Halves(r: Rune): seq<Cell> { seq(RuneWidth(r), i requires i >= 0 => Cell(r, i)) }

  lemma PieceIsWindow(r: Rune, col: nat, from: int, to: int)
    requires r.code != 0x1b
    ensures Clean(Piece(r, col, from, to))
    ensures Cells(Piece(r, col, from, to)) == Window(Halves(r), col, from, to)
  {
    var w := RuneWidth(r);
    HalvesWindow(r, col, from, to);
    if col >= from && col + w <= to {
      assert [r][1..] == [];
      assert Cells([r]) == Halves(r) + [];
    } else if col < to && col + w > from && Min(col + w, to) > Max(col, from) {
      SpacesAreClean(Min(col + w, to) - Max(col, from));
      SpacesAreBlank(Min(col + w, to) - Max(col, from));
    }
  }

  lemma HalvesWindow(r: Rune, col: nat, from: int, to: int)
    ensures var w := RuneWidth(r);
            Window(Halves(r), col, from, to) ==
            if col >= from && col + w <= to then Halves(r) else Blanks(Max(0, Min(col + w, to) - Max(col, from)))
  {
    var w := RuneWidth(r);
    var h := Halves(r);
    if w == 0 {
      assert h == [];
    } else if w == 1 {
      assert h == [Cell(r, 0)] && h[1..] == [];
    } else {
      assert h == [Cell(r, 0), Cell(r, 1)] && h[1..] == [Cell(r, 1)] && h[1..][1..] == [];
      assert Window(h[1..], col + 1, from, to) == if from <= col + 1 < to then [Shown(Cell(r, 1), col + 1, from, to)]
             else [];
    }
  }

  /** visibleSpan draws exactly the columns asked for; a wide character cut by an edge becomes a space. */
  lemma {:induction false} SpanIsWindow(s: Row, col: nat, from: int, to: int)
    requires Clean(s)
    ensures Clean(Span(s, col, from, to))
    ensures Cells(Span(s, col, from, to)) == Window(Cells(s), col, from, to)
    decreases |s|
  {
    if s == [] {
    } else if EscapeLen(s) > 0 {
      var n := EscapeLen(s);
      var rest := Span(s[n..], col, from, to);
      SpanIsWindow(s[n..], col, from, to);
      EscapeLenIff(s, n);
      EscapeIsSelfDelimiting(s[..n], rest);
      assert (s[..n] + rest)[n..] == rest;
    } else {
      var piece := Piece(s[0], col, from, to);
      var rest := Span(s[1..], col + RuneWidth(s[0]), from, to);
      SpanIsWindow(s[1..], col + RuneWidth(s[0]), from, to);
      PieceIsWindow(s[0], col, from, to);
      CellsOfJoined(piece, rest);
      WidthOfJoined(piece, rest);
      WindowOfJoined(Halves(s[0]), Cells(s[1..]), col, from, to);
    }
  }

  lemma {:induction false} WindowAt(cells: seq<Cell>, col: nat, from: int, to: int, k: nat)
    ensures |Window(cells, col, from, to)| == Max(0, Min(to, col + |cells|) - Max(from, col))
    ensures col <= k < col + |cells| && from <= k < to ==>
              && k - Max(from, col) < |Window(cells, col, from, to)|
              && Window(cells, col, from, to)[k - Max(from, col)] == Shown(cells[k - col], k, from, to)
  {
    if cells != [] {
      WindowAt(cells[1..], col + 1, from, to, k);
      var first := if from <= col < to then [Shown(cells[0], col, from, to)] else [];
      var rest := Window(cells[1..], col + 1, from, to);
      assert Window(cells, col, from, to) == first + rest;
      if col < k < col + |cells| && from <= k < to {
        assert cells[1..][k - (col + 1)] == cells[k - col];
        assert (first + rest)[k - Max(from, col)] == rest[k - Max(from, col + 1)];
      }
    }
  }

  /** The width of a span is the overlap of its columns with the row, for any bounds. */
  lemma SpanWidth(s: Row, from: int, to: int)
    requires Clean(s)
    ensures Width(Span(s, 0, from, to)) == Max(0, Min(to, Width(s)) - Max(from, 0))
    ensures 0 <= from <= to <= Width(s) ==> Width(Span(s, 0, from, to)) == to - from
  {
    SpanIsWindow(s, 0, from, to);
    WindowAt(Cells(s), 0, from, to, 0);
    OneCellPerColumn(s);
    OneCellPerColumn(Span(s, 0, from, to));
  }

  /** The escape sequences of a row, in order. */
  function Escapes(s: Row): seq<Row>
    decreases |s|
  {
    if s == [] then []
    else if EscapeLen(s) > 0 then [s[..EscapeLen(s)]] + Escapes(s[EscapeLen(s)..])
    else Escapes(s[1..])
  }

  lemma {:induction false} PlainStart(a: Row, b: Row)
    requires Clean(a) && Escapes(a) == []
    ensures Escapes(a + b) == Escapes(b)
  {
    if a == [] {
      assert a + b == b;
    } else {
      assert (a + b)[1..] == a[1..] + b;
      PlainStart(a[1..], b);
    }
  }

  lemma {:induction false} SpacesArePlain(n: nat)
    ensures Escapes(Spaces(n)) == []
  {
    if n > 0 {
      assert Spaces(n)[1..] == Spaces(n - 1);
      SpacesArePlain(n - 1);
    }
  }

  /** A span keeps every escape sequence, so it starts and ends in the colors of the row. */
  lemma {:induction false} SpanKeepsEscapes(s: Row, col: nat, from: int, to: int)
    requires Clean(s)
    ensures Escapes(Span(s, col, from, to)) == Escapes(s)
    decreases |s|
  {
    if s == [] {
    } else if EscapeLen(s) > 0 {
      var n := EscapeLen(s);
      var rest := Span(s[n..], col, from, to);
      SpanKeepsEscapes(s[n..], col, from, to);
      EscapeLenIff(s, n);
      EscapeIsSelfDelimiting(s[..n], rest);
      assert (s[..n] + rest)[n..] == rest && (s[..n] + rest)[..n] == s[..n];
    } else {
      var piece := Piece(s[0], col, from, to);
      SpanKeepsEscapes(s[1..], col + RuneWidth(s[0]), from, to);
      PieceIsWindow(s[0], col, from, to);
      SpacesArePlain(|piece|);
      assert piece == [s[0]] ==> piece[1..] == [];
      assert piece == [] || piece == [s[0]] || piece == Spaces(|piece|);
      PlainStart(piece, Span(s[1..], col + RuneWidth(s[0]), from, to));
    }
  }

  // ----- overlays -----

  function Fitted(base: Row, overlay: Row, left: int, reset: Row): Row {
    FitVisible(overlay, Min(Width(overlay), Width(base) - Max(0, left)), reset)
  }

  function OverlayVisible(base: Row, overlay: Row, left: int, reset: Row): Row {
    var width := Width(base);
    var at := Max(0, left);
    if at >= width then base
    else Layered(base, Fitted(base, overlay, left, reset), at, reset)
  }

  /** The base with the fitted overlay over it from column at. */
  function Layered(base: Row, top: Row, at: nat, reset: Row): Row {
    Span(base, 0, 0, at) + (reset + (top + (reset + Span(base, 0, at + Width(top), Width(base)))))
  }

  lemma EscapeThenClean(e: Row, rest: Row)
    requires IsEscape(e) && Clean(rest)
    ensures Clean(e + rest)
  {
    EscapeIsSelfDelimiting(e, rest);
    assert (e + rest)[|e|..] == rest;
  }

  lemma RuneThenClean(r: Rune, rest: Row)
    requires r.code != 0x1b && Clean(rest)
    ensures Clean([r] + rest)
  {
    assert ([r] + rest)[1..] == rest;
  }

  lemma CleanOnceMore(s: Row, rest: Row)
    requires EscapeLen(s) > 0 && Clean(rest)
    ensures Clean(s[..EscapeLen(s)] + rest)
  {
    EscapeLenIff(s, EscapeLen(s));
    EscapeThenClean(s[..EscapeLen(s)], rest);
  }

  lemma Regroup(a: Row, b: Row, c: Row)
    ensures (a + b) + c == a + (b + c)
  {
  }

  lemma {:induction false} KeptIsClean(s: Row, room: nat, tail: Row)
    requires Clean(s) && Clean(tail)
    ensures Clean(KeptText(s, room) + tail)
    decreases |s|
  {
    if s != [] && EscapeLen(s) > 0 {
      var n := EscapeLen(s);
      KeptIsClean(s[n..], room, tail);
      CleanOnceMore(s, KeptText(s[n..], room) + tail);
      Regroup(s[..n], KeptText(s[n..], room), tail);
    } else if s != [] && RuneWidth(s[0]) <= room {
      var left := room - RuneWidth(s[0]);
      KeptIsClean(s[1..], left, tail);
      RuneThenClean(s[0], KeptText(s[1..], left) + tail);
      Regroup([s[0]], KeptText(s[1..], left), tail);
    } else {
      assert [] + tail == tail;
    }
  }

  lemma TruncatedIsClean(s: Row, room: nat, reset: Row)
    requires Clean(s) && IsReset(reset)
    ensures Clean(s[..Kept(s, room)] + [ELLIPSIS] + reset)
  {
    ResetIsClean(reset);
    RuneThenClean(ELLIPSIS, reset);
    KeptIsClean(s, room, [ELLIPSIS] + reset);
    KeptTextIsPrefix(s, room);
    Regroup(s[..Kept(s, room)], [ELLIPSIS], reset);
  }

  lemma FittedIsClean(value: Row, width: nat, reset: Row, r: Row)
    requires Clean(value) && IsReset(reset) && r == FitVisible(value, width, reset)
    ensures Clean(r)
  {
    if 0 < width < Width(value) {
      TruncatedIsClean(value, width - 1, reset);
    } else if width > 0 {
      PaddedIsClean(value, width - Width(value));
    }
  }

  lemma PaddedIsClean(s: Row, n: nat)
    requires Clean(s)
    ensures Clean(s + Spaces(n))
  {
    SpacesAreClean(n);
    WidthOfJoined(s, Spaces(n));
  }

  lemma ResetDrawsNothing(reset: Row, s: Row)
    requires IsReset(reset)
    ensures Cells(reset + s) == Cells(s) && (Clean(s) ==> Clean(reset + s))
  {
    ResetIsClean(reset);
    CellsOfJoined(reset, s);
    WidthOfJoined(reset, s);
    OneCellPerColumn(reset);
    assert Cells(reset) == [];
  }

  lemma FitFits(value: Row, width: nat, reset: Row)
    requires Clean(value) && IsReset(reset)
    ensures Clean(FitVisible(value, width, reset)) && Width(FitVisible(value, width, reset)) <= width
  {
    FittedIsClean(value, width, reset, FitVisible(value, width, reset));
    FitWidth(value, width, reset);
  }

  lemma LayeredCells(before: Row, top: Row, after: Row, reset: Row, layered: Row)
    requires Clean(before) && Clean(top) && Clean(after) && IsReset(reset)
    requires layered == before + (reset + (top + (reset + after)))
    ensures Cells(layered) == Cells(before) + (Cells(top) + Cells(after)) && Clean(layered)
  {
    var one := reset + after;
    ResetDrawsNothing(reset, after);
    var two := top + one;
    CellsOfJoined(top, one);
    WidthOfJoined(top, one);
    var three := reset + two;
    ResetDrawsNothing(reset, two);
    CellsOfJoined(before, three);
    WidthOfJoined(before, three);
  }

  /** The cells of a row over which `top` was drawn from column at. */
  function DrawnOver(base: seq<Cell>, top: seq<Cell>, at: nat): seq<Cell> {
    Window(base, 0, 0, at) + (top + Window(base, 0, at + |top|, |base|))
  }

  /** What an overlaid row shows: the base left of the overlay, the overlay, and the base right of it. */
  lemma OverlayCells(base: Row, top: Row, at: nat, reset: Row)
    requires Clean(base) && Clean(top) && IsReset(reset)
    ensures Cells(Layered(base, top, at, reset))
            == Window(Cells(base), 0, 0, at) + (Cells(top) + Window(Cells(base), 0, at + Width(top), Width(base)))
    ensures Clean(Layered(base, top, at, reset))
  {
    var before, after := Span(base, 0, 0, at), Span(base, 0, at + Width(top), Width(base));
    SpanIsWindow(base, 0, 0, at);
    SpanIsWindow(base, 0, at + Width(top), Width(base));
    LayeredCells(before, top, after, reset, Layered(base, top, at, reset));
  }

  lemma AsDrawnOver(base: Row, top: Row, at: nat, cells: seq<Cell>)
    requires cells
             == Window(Cells(base), 0, 0, at) + (Cells(top) + Window(Cells(base), 0, at + Width(top), Width(base)))
    ensures cells == DrawnOver(Cells(base), Cells(top), at)
  {
    OneCellPerColumn(base);
    OneCellPerColumn(top);
  }

  lemma LayeredIsDrawnOver(base: Row, top: Row, at: nat, reset: Row)
    requires Clean(base) && Clean(top) && IsReset(reset)
    ensures Clean(Layered(base, top, at, reset))
    ensures Cells(Layered(base, top, at, reset)) == DrawnOver(Cells(base), Cells(top), at)
  {
    OverlayCells(base, top, at, reset);
    AsDrawnOver(base, top, at, Cells(Layered(base, top, at, reset)));
  }

  lemma LeftCell(base: seq<Cell>, at: nat, rest: seq<Cell>, k: nat)
    requires k < at <= |base|
    ensures |Window(base, 0, 0, at)| == at && (Window(base, 0, 0, at) + rest)[k] == Shown(base[k], k, 0, at)
  {
    WindowAt(base, 0, 0, at, k);
  }

  lemma RightCell(base: seq<Cell>, right: nat, before: seq<Cell>, k: nat)
    requires |before| == right <= k < |base|
    ensures |Window(base, 0, right, |base|)| == |base| - right
    ensures (before + Window(base, 0, right, |base|))[k] == Shown(base[k], k, right, |base|)
  {
    WindowAt(base, 0, right, |base|, k);
  }

  lemma DrawnOverLength(base: seq<Cell>, top: seq<Cell>, at: nat)
    requires at + |top| <= |base|
    ensures |DrawnOver(base, top, at)| == |base| && |Window(base, 0, 0, at)| == at
  {
    WindowAt(base, 0, 0, at, 0);
    WindowAt(base, 0, at + |top|, |base|, 0);
  }

  /** Cells under the top are the top's; the others show what they did, or a space if their character is cut in two. */
  lemma DrawnOverAt(base: seq<Cell>, top: seq<Cell>, at: nat, k: nat)
    requires at + |top| <= |base| && k < |base|
    ensures var r, right := DrawnOver(base, top, at), at + |top|;
            |r| == |base| && r[k] == if k < at then Shown(base[k], k, 0, at) else if k < right then top[k - at]
                else Shown(base[k], k, right, |base|)
  {
    var before, after := Window(base, 0, 0, at), Window(base, 0, at + |top|, |base|);
    DrawnOverLength(base, top, at);
    if k < at {
      LeftCell(base, at, top + after, k);
    } else if at + |top| <= k {
      assert before + (top + after) == (before + top) + after;
      RightCell(base, at + |top|, before + top, k);
    }
  }

  lemma LayeredWidth(base: Row, top: Row, at: nat, reset: Row)
    requires Clean(base) && Clean(top) && IsReset(reset) && at + Width(top) <= Width(base)
    ensures Width(Layered(base, top, at, reset)) == Width(base)
  {
    LayeredIsDrawnOver(base, top, at, reset);
    OneCellPerColumn(base);
    OneCellPerColumn(top);
    OneCellPerColumn(Layered(base, top, at, reset));
    DrawnOverLength(Cells(base), Cells(top), at);
  }

  lemma FittedFits(base: Row, overlay: Row, left: int, reset: Row, top: Row)
    requires Clean(overlay) && IsReset(reset) && Max(0, left) < Width(base) && top == Fitted(base, overlay, left, reset)
    ensures Clean(top) && Max(0, left) + Width(top) <= Width(base)
  {
    FitFits(overlay, Min(Width(overlay), Width(base) - Max(0, left)), reset);
  }

  /** An overlay changes neither the width of its row nor the columns beside it, and leaves no escape dangling. */
  lemma OverlayKeepsRow(base: Row, overlay: Row, left: int, reset: Row, r: Row, top: Row)
    requires Clean(base) && Clean(overlay) && IsReset(reset)
    requires r == OverlayVisible(base, overlay, left, reset) && top == Fitted(base, overlay, left, reset)
    ensures Width(r) == Width(base) && Clean(r)
    ensures if Max(0, left) < Width(base)
            then Max(0, left) + Width(top) <= Width(base)
                && Cells(r) == DrawnOver(Cells(base), Cells(top), Max(0, left))
            else r == base
  {
    if Max(0, left) < Width(base) {
      FittedFits(base, overlay, left, reset, top);
      LayeredIsDrawnOver(base, top, Max(0, left), reset);
      LayeredWidth(base, top, Max(0, left), reset);
    }
  }

  /** With a dangling escape in the base and no colors this fails: the overlay completes the sequence. */
  lemma DanglingEscapeBreaksOverlay()
    ensures var base, overlay := [ESC, Rune(0x5b, false), Rune(0x33, false)], [Rune(0x6d, false)];
            !Clean(base) && Width(base) == 3 && Clean(overlay) && Width(OverlayVisible(base, overlay, 2, [])) == 0
  {
    var c, d, m := Rune(0x5b, false), Rune(0x33, false), Rune(0x6d, false);
    var base, overlay := [ESC, c, d], [m];
    DanglingBase(c, d);
    assert overlay[1..] == [] && Width(overlay) == 1;
    OverlaidLastColumn(base, overlay, [ESC, c]);
    CompletedEscape([ESC, c] + overlay);
  }

  /** A one-column overlay over the last of three columns. */
  lemma OverlaidLastColumn(base: Row, overlay: Row, left: Row)
    requires Width(base) == 3 && Width(overlay) == 1 && Span(base, 0, 0, 2) == left && Span(base, 0, 3, 3) == []
    ensures OverlayVisible(base, overlay, 2, []) == left + overlay
  {
    assert Fitted(base, overlay, 2, []) == overlay + Spaces(0) == overlay;
    assert [] + (overlay + ([] + [])) == overlay;
  }

  lemma DanglingBase(c: Rune, d: Rune)
    requires c == Rune(0x5b, false) && d == Rune(0x33, false)
    ensures !Clean([ESC, c, d]) && Width([ESC, c, d]) == 3
    ensures Span([ESC, c, d], 0, 0, 2) == [ESC, c] && Span([ESC, c, d], 0, 3, 3) == []
  {
    var base := [ESC, c, d];
    assert base[1..] == [c, d] && base[1..][1..] == [d] && [d][1..] == [];
    assert SkipParameters(base, 2) == 3;
    assert EscapeLen(base) == 0;
    assert Width([d]) == 1 && Width([c, d]) == 2 && Width(base) == 3;
    assert Span([d], 2, 0, 2) == Piece(d, 2, 0, 2) + Span([], 3, 0, 2) == [];
    assert Span([c, d], 1, 0, 2) == [c] + Span([d], 2, 0, 2) == [c];
    assert Span(base, 0, 0, 2) == [ESC] + Span([c, d], 1, 0, 2) == [ESC, c];
    assert Span([d], 2, 3, 3) == Piece(d, 2, 3, 3) + Span([], 3, 3, 3) == [];
    assert Span([c, d], 1, 3, 3) == Piece(c, 1, 3, 3) + Span([d], 2, 3, 3) == [];
    assert Span(base, 0, 3, 3) == Piece(ESC, 0, 3, 3) + Span([c, d], 1, 3, 3) == [];
  }

  lemma CompletedEscape(r: Row)
    requires r == [ESC, Rune(0x5b, false), Rune(0x6d, false)]
    ensures Width(r) == 0
  {
    assert SkipParameters(r, 2) == 2 && SkipIntermediates(r, 2) == 2 && EscapeLen(r) == 3;
    assert r[3..] == [];
  }
}
