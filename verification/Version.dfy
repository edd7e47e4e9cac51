/** Comparing versions as section 11 of Semantic Versioning 2.0.0 orders them (internal/config/version.go). */
module Version {
  import opened Model

  /** The groups the pattern captures; "" for an optional one that is missing. */
  datatype Match = Match(major: string, minor: string, patch: string, pre: string, build: string)

  predicate Digit(c: char) { '0' <= c <= '9' }

  predicate IdChar(c: char) { Digit(c) || 'A' <= c <= 'Z' || 'a' <= c <= 'z' || c == '-' }

  predicate NumericIdentifier(part: string) {
    |part| > 0 && forall i | 0 <= i < |part| :: Digit(part[i])
  }

  predicate Unpadded(part: string) {
    NumericIdentifier(part) && (|part| > 1 ==> part[0] != '0')
  }

  function IndexOf(s: string, c: char): (i: nat)
    ensures i <= |s| && c !in s[..i] && (i < |s| ==> s[i] == c)
  {
    if s == "" || s[0] == c then 0
    else
      var i := IndexOf(s[1..], c);
      assert s[..i + 1] == [s[0]] + s[1..][..i];
      1 + i
  }

  /** strings.Split on one character. */
  function Split(s: string, c: char): (r: seq<string>)
    ensures |r| >= 1
    decreases |s|
  {
    var i := IndexOf(s, c);
    if i == |s| then [s] else [s[..i]] + Split(s[i + 1..], c)
  }

  /** Dot-separated identifiers, none of them empty. */
  predicate Identifiers(s: string) {
    && (forall i | 0 <= i < |s| :: IdChar(s[i]) || s[i] == '.')
    && (forall part | part in Split(s, '.') :: part != "")
  }

  predicate NoPaddedNumber(pre: string) {
    forall part | part in Split(pre, '.') :: NumericIdentifier(part) ==> Unpadded(part)
  }

  // ----- the grammar -----

  predicate Valid(m: Match) {
    && Unpadded(m.major) && Unpadded(m.minor) && Unpadded(m.patch)
    && (m.pre == "" || Identifiers(m.pre)) && NoPaddedNumber(m.pre)
    && (m.build == "" || Identifiers(m.build))
  }

  function Core(m: Match): string { m.major + ("." + (m.minor + ("." + m.patch))) }

  /** An optional part with the character that introduces it. */
  function Tail(c: char, part: string): string { if part == "" then "" else [c] + part }

  function Render(m: Match): string { (Core(m) + Tail('-', m.pre)) + Tail('+', m.build) }

  /** The pattern matched by cutting at the first '+', the first '-' before it, and the dots before that. */
  function MatchOf(s: string): Option<Match> { Assembled(Split(CoreOf(s), '.'), PreOf(s), BuildOf(s)) }

  function HeadOf(s: string): string { s[..IndexOf(s, '+')] }

  function CoreOf(s: string): string { HeadOf(s)[..IndexOf(HeadOf(s), '-')] }

  function After(s: string, c: char): Option<string> {
    if IndexOf(s, c) < |s| then Some(s[IndexOf(s, c) + 1..]) else None
  }

  function PreOf(s: string): Option<string> { After(HeadOf(s), '-') }

  function BuildOf(s: string): Option<string> { After(s, '+') }

  /** The parts, if each of them is well formed. */
  function Assembled(core: seq<string>, pre: Option<string>, build: Option<string>): Option<Match> {
    if |core| == 3 && Unpadded(core[0]) && Unpadded(core[1]) && Unpadded(core[2])
       && (pre.Some? ==> Identifiers(pre.value) && NoPaddedNumber(pre.value))
          && (build.Some? ==> Identifiers(build.value))
    then Some(Match(core[0], core[1], core[2], OrEmpty(pre), OrEmpty(build))) else None
  }

  function OrEmpty(part: Option<string>): string { if part.Some? then part.value else "" }

  lemma {:induction false} IndexAfter(x: string, c: char, y: string)
    requires c !in x
    ensures IndexOf(x + [c] + y, c) == |x| && IndexOf(x, c) == |x|
  {
    var s := x + [c] + y;
    if x != "" {
      assert s[1..] == x[1..] + [c] + y;
      IndexAfter(x[1..], c, y);
    } else {
      assert s[0] == c;
    }
  }

  lemma SplitFirst(x: string, c: char, y: string)
    requires c !in x
    ensures Split(x + ([c] + y), c) == [x] + Split(y, c) && Split(x, c) == [x]
  {
    IndexAfter(x, c, y);
    var s := x + ([c] + y);
    assert s == x + [c] + y;
    assert s[..|x|] == x && s[|x| + 1..] == y;
  }

  lemma Absent(x: string, c: char)
    requires NumericIdentifier(x) && !Digit(c)
    ensures c !in x
  {
  }

  lemma CoreSplits(m: Match)
    requires Valid(m)
    ensures Split(Core(m), '.') == [m.major, m.minor, m.patch]
  {
    Absent(m.major, '.');
    Absent(m.minor, '.');
    Absent(m.patch, '.');
    var last := m.minor + ("." + m.patch);
    SplitFirst(m.minor, '.', m.patch);
    SplitFirst(m.patch, '.', "");
    assert Split(last, '.') == [m.minor] + [m.patch];
    SplitFirst(m.major, '.', last);
  }

  lemma CoreLacks(m: Match, c: char)
    requires Valid(m) && !Digit(c) && c != '.'
    ensures c !in Core(m)
  {
    Absent(m.major, c);
    Absent(m.minor, c);
    Absent(m.patch, c);
    var last := m.minor + ("." + m.patch);
    assert c !in "." + m.patch;
    assert c !in last;
    assert c !in "." + last;
  }

  lemma CutText(s: string, c: char)
    requires IndexOf(s, c) < |s|
    ensures s == s[..IndexOf(s, c)] + ([c] + s[IndexOf(s, c) + 1..])
  {
  }

  lemma JoinedFromTwo(s: string)
    requires |Split(s, '.')| == 2
    ensures s == Split(s, '.')[0] + ("." + Split(s, '.')[1])
  {
    CutText(s, '.');
    var last := s[IndexOf(s, '.') + 1..];
    assert Split(last, '.') == Split(s, '.')[1..];
    assert Split(last, '.')[0] == last;
  }

  lemma JoinedFromThree(s: string)
    requires |Split(s, '.')| == 3
    ensures s == Split(s, '.')[0] + ("." + (Split(s, '.')[1] + ("." + Split(s, '.')[2])))
  {
    CutText(s, '.');
    var rest := s[IndexOf(s, '.') + 1..];
    assert Split(rest, '.') == Split(s, '.')[1..];
    JoinedFromTwo(rest);
  }

  lemma TailIsCut(x: string, c: char, part: string)
    requires c !in x
    ensures var s := x + Tail(c, part);
            && IndexOf(s, c) == |x| && s[..|x|] == x
            && (part == "" <==> |s| == |x|) && (part != "" ==> s[|x| + 1..] == part)
  {
    IndexAfter(x, c, part);
    if part == "" {
      assert x + Tail(c, part) == x;
    } else {
      assert x + Tail(c, part) == x + [c] + part;
    }
  }

  lemma CutIsTail(s: string, c: char)
    requires After(s, c) != Some("")
    ensures s == s[..IndexOf(s, c)] + Tail(c, OrEmpty(After(s, c)))
  {
    if IndexOf(s, c) < |s| {
      CutText(s, c);
    }
  }

  lemma IdentifiersLack(s: string, c: char)
    requires Identifiers(s) && !IdChar(c) && c != '.'
    ensures s != "" && c !in s
  {
    if s == "" {
      assert Split(s, '.')[0] in Split(s, '.');
    }
  }

  lemma TailIsAfter(x: string, c: char, part: string)
    requires c !in x
    ensures (x + Tail(c, part))[..IndexOf(x + Tail(c, part), c)] == x
    ensures After(x + Tail(c, part), c) == if part == "" then None else Some(part)
  {
    TailIsCut(x, c, part);
  }

  /** Where the rendered text of a version is cut. */
  lemma RenderedIsCut(m: Match)
    requires Valid(m)
    ensures CoreOf(Render(m)) == Core(m)
    ensures PreOf(Render(m)) == if m.pre == "" then None else Some(m.pre)
    ensures BuildOf(Render(m)) == if m.build == "" then None else Some(m.build)
  {
    CoreLacks(m, '-');
    CoreLacks(m, '+');
    if m.pre != "" {
      IdentifiersLack(m.pre, '+');
    }
    assert '+' !in Tail('-', m.pre);
    TailIsAfter(Core(m) + Tail('-', m.pre), '+', m.build);
    TailIsAfter(Core(m), '-', m.pre);
  }

  lemma RenderedMatches(m: Match)
    requires Valid(m)
    ensures MatchOf(Render(m)) == Some(m)
  {
    RenderedIsCut(m);
    CoreSplits(m);
  }

  lemma AssembledIsValid(core: seq<string>, pre: Option<string>, build: Option<string>)
    requires Assembled(core, pre, build).Some?
    ensures Valid(Assembled(core, pre, build).value)
    ensures pre.Some? ==> pre.value != ""
    ensures build.Some? ==> build.value != ""
  {
    assert Split("", '.') == [""];
    if pre.Some? {
      IdentifiersLack(pre.value, '+');
    }
    if build.Some? {
      IdentifiersLack(build.value, '+');
    }
  }

  lemma MatchedRenders(s: string)
    requires MatchOf(s).Some?
    ensures Valid(MatchOf(s).value) && s == Render(MatchOf(s).value)
  {
    AssembledIsValid(Split(CoreOf(s), '.'), PreOf(s), BuildOf(s));
    CutIsTail(s, '+');
    CutIsTail(HeadOf(s), '-');
    JoinedFromThree(CoreOf(s));
  }

  /** The pattern accepts exactly the texts of valid versions, and captures their parts. */
  lemma MatchIffRendered(s: string, m: Match)
    ensures MatchOf(s) == Some(m) <==> Valid(m) && s == Render(m)
  {
    if Valid(m) && s == Render(m) {
      RenderedMatches(m);
    }
    if MatchOf(s) == Some(m) {
      MatchedRenders(s);
    }
  }

  // ----- the grammar, character by character -----

  ghost predicate IsNumber(s: string) {
    s != "" && (forall i | 0 <= i < |s| :: '0' <= s[i] <= '9') && (s[0] == '0' ==> |s| == 1)
  }

  ghost predicate IsIdentifier(s: string) {
    && s != ""
    && forall i | 0 <= i < |s| ::
         '0' <= s[i] <= '9' || 'A' <= s[i] <= 'Z' || 'a' <= s[i] <= 'z' || s[i] == '-'
  }

  /** A pre-release identifier is not a number with a leading zero. */
  ghost predicate IsPreIdentifier(s: string) {
    IsIdentifier(s) && ((forall i | 0 <= i < |s| :: '0' <= s[i] <= '9') ==> IsNumber(s))
  }

  /**
   The valid versions: three numbers without leading zeros; pre-release and build metadata, if
   any, are identifiers with dots between them.
   */
  lemma ValidIff(m: Match)
    ensures Valid(m) <==>
              && IsNumber(m.major) && IsNumber(m.minor) && IsNumber(m.patch)
              && (m.pre == "" || forall part | part in Split(m.pre, '.') :: IsPreIdentifier(part))
              && (m.build == "" || forall part | part in Split(m.build, '.') :: IsIdentifier(part))
  {
    UnpaddedIff(m.major);
    UnpaddedIff(m.minor);
    UnpaddedIff(m.patch);
    IdentifiersIff(m.pre);
    IdentifiersIff(m.build);
    forall part | part in Split(m.pre, '.') && part != "" && IsIdentifier(part)
      ensures (NumericIdentifier(part) ==> Unpadded(part)) <==> IsPreIdentifier(part)
    {
      UnpaddedIff(part);
    }
    if m.pre == "" {
      assert Split("", '.') == [""];
    }
  }

  lemma UnpaddedIff(s: string)
    ensures Unpadded(s) <==> IsNumber(s)
    ensures NumericIdentifier(s) <==> s != "" && forall i | 0 <= i < |s| :: '0' <= s[i] <= '9'
  {
  }

  lemma IdentifiersIff(s: string)
    ensures Identifiers(s) <==> forall part | part in Split(s, '.') :: IsIdentifier(part)
  {
    SplitHas(s, '.');
    PartsOf(s, Split(s, '.'));
  }

  lemma PartsOf(s: string, parts: seq<string>)
    requires forall part, x | part in parts && x in part :: x in s && x != '.'
    requires forall x | x in s && x != '.' :: exists part :: part in parts && x in part
    ensures (forall part | part in parts :: IsIdentifier(part))
            <==> (forall i | 0 <= i < |s| :: IdChar(s[i]) || s[i] == '.') && forall part | part in parts :: part != ""
  {
    if forall part | part in parts :: IsIdentifier(part) {
      forall i | 0 <= i < |s| ensures IdChar(s[i]) || s[i] == '.' {
        var x := s[i];
        assert x in s;
        if x != '.' {
          var part :| part in parts && x in part;
          assert IsIdentifier(part);
        }
      }
    }
    if (forall i | 0 <= i < |s| :: IdChar(s[i]) || s[i] == '.') && forall part | part in parts :: part != "" {
      forall part | part in parts ensures IsIdentifier(part) {
        forall i | 0 <= i < |part| ensures IdChar(part[i]) {
          assert part[i] in part;
        }
      }
    }
  }

  /** The parts hold the characters of the text but the separator, and joined by it they are the text. */
  lemma {:induction false} SplitHas(s: string, c: char)
    ensures forall part, x | part in Split(s, c) && x in part :: x in s && x != c
    ensures forall x | x in s && x != c :: exists part :: part in Split(s, c) && x in part
    ensures Joined(Split(s, c), c) == s
    decreases |s|
  {
    var i := IndexOf(s, c);
    if i < |s| {
      var rest := Split(s[i + 1..], c);
      SplitHas(s[i + 1..], c);
      assert s == s[..i] + [c] + s[i + 1..];
      assert Split(s, c)[1..] == rest;
      forall x | x in s && x != c ensures exists part :: part in Split(s, c) && x in part {
        if x in s[..i] {
          assert s[..i] in Split(s, c);
        } else {
          var part :| part in rest && x in part;
          assert part in Split(s, c);
        }
      }
      forall part, x | part in Split(s, c) && x in part ensures x in s && x != c {
        assert part == s[..i] || part in rest;
      }
    } else {
      assert Split(s, c) == [s] && s in [s];
    }
  }

  function Joined(parts: seq<string>, c: char): string {
    if parts == [] then "" else if |parts| == 1 then parts[0] else parts[0] + [c] + Joined(parts[1..], c)
  }

  // ----- reading a version -----

  predicate Space(c: char) {
    var u := c as int;
    9 <= u <= 13 || 0x2000 <= u <= 0x200A || u in {0x20, 0x85, 0xA0, 0x1680, 0x2028, 0x2029, 0x202F, 0x205F, 0x3000}
  }

  function TrimLeft(s: string): string {
    if s != "" && Space(s[0]) then TrimLeft(s[1..]) else s
  }

  function TrimRight(s: string): string {
    if s != "" && Space(s[|s| - 1]) then TrimRight(s[..|s| - 1]) else s
  }

  function TrimPrefix(s: string): string {
    if s != "" && s[0] == 'v' then s[1..] else s
  }

  function Parse(value: string): Option<Match> { MatchOf(TrimPrefix(TrimRight(TrimLeft(value)))) }

  /** The code points Unicode calls white space. */
  const WHITE := {
    0x09, 0x0A, 0x0B, 0x0C, 0x0D, 0x20, 0x85, 0xA0, 0x1680, 0x2000, 0x2001, 0x2002, 0x2003, 0x2004, 0x2005, 0x2006,
    0x2007, 0x2008, 0x2009, 0x200A, 0x2028, 0x2029, 0x202F, 0x205F, 0x3000}

  lemma SpaceIff(c: char)
    ensures Space(c) <==> c as int in WHITE
  {
  }

  predicate AllSpace(s: string) { forall i | 0 <= i < |s| :: Space(s[i]) }

  /** White space around a version and one leading v are dropped, and nothing else is read as that version. */
  lemma ParseIff(value: string, m: Match)
    ensures Parse(value) == Some(m) <==> exists left, right, v :: Wrapped(value, left, v, m, right)
  {
    if Parse(value) == Some(m) {
      var half := TrimLeft(value);
      TrimmedLeft(value);
      TrimmedRight(half);
      MatchIffRendered(TrimPrefix(TrimRight(half)), m);
      ParsedIsWrapped(value, half, TrimRight(half), m);
    }
    if left, right, v :| Wrapped(value, left, v, m, right) {
      WrappedParses(value, left, v, m, right);
    }
  }

  lemma ParsedIsWrapped(value: string, half: string, text: string, m: Match)
    requires |half| <= |value| && value == value[..|value| - |half|] + half && AllSpace(value[..|value| - |half|])
    requires |text| <= |half| && half == text + half[|text|..] && AllSpace(half[|text|..])
    requires Valid(m) && TrimPrefix(text) == Render(m)
    ensures exists left, right, v :: Wrapped(value, left, v, m, right)
  {
    var v := if text != "" && text[0] == 'v' then "v" else "";
    assert text == v + Render(m);
    assert Wrapped(value, value[..|value| - |half|], v, m, half[|text|..]);
  }

  ghost predicate Wrapped(value: string, left: string, v: string, m: Match, right: string) {
    Valid(m) && AllSpace(left) && AllSpace(right) && v in {"", "v"} && value == left + ((v + Render(m)) + right)
  }

  lemma WrappedParses(value: string, left: string, v: string, m: Match, right: string)
    requires Wrapped(value, left, v, m, right)
    ensures Parse(value) == Some(m)
  {
    RenderIsPlain(m);
    var text := v + Render(m);
    assert text[0] == if v == "v" then 'v' else Render(m)[0];
    TrimsLeft(left, text + right);
    TrimsRight(text, right);
    assert TrimPrefix(text) == Render(m);
    MatchIffRendered(Render(m), m);
  }

  lemma {:induction false} TrimmedLeft(s: string)
    ensures var t := TrimLeft(s);
            |t| <= |s| && s == s[..|s| - |t|] + t && AllSpace(s[..|s| - |t|])
  {
    if s != "" && Space(s[0]) {
      TrimmedLeft(s[1..]);
      var n := |s| - |TrimLeft(s)|;
      assert s[..n] == [s[0]] + s[1..][..n - 1];
    }
  }

  lemma {:induction false} TrimmedRight(s: string)
    ensures var t := TrimRight(s);
            |t| <= |s| && s == t + s[|t|..] && AllSpace(s[|t|..])
  {
    if s != "" && Space(s[|s| - 1]) {
      var before := s[..|s| - 1];
      TrimmedRight(before);
      assert s[|TrimRight(s)|..] == before[|TrimRight(s)|..] + [s[|s| - 1]];
    }
  }

  lemma {:induction false} TrimsLeft(left: string, s: string)
    requires AllSpace(left) && s != "" && !Space(s[0])
    ensures TrimLeft(left + s) == s
  {
    if left == "" {
      assert left + s == s;
    } else {
      assert (left + s)[1..] == left[1..] + s;
      TrimsLeft(left[1..], s);
    }
  }

  lemma {:induction false} TrimsRight(s: string, right: string)
    requires AllSpace(right) && s != "" && !Space(s[|s| - 1])
    ensures TrimRight(s + right) == s
  {
    if right == "" {
      assert s + right == s;
    } else {
      var n := |right| - 1;
      assert (s + right)[..|s + right| - 1] == s + right[..n];
      TrimsRight(s, right[..n]);
    }
  }

  /** A version's text holds no white space, and starts with a digit. */
  lemma RenderIsPlain(m: Match)
    requires Valid(m)
    ensures Render(m) != "" && Digit(Render(m)[0]) && forall i | 0 <= i < |Render(m)| :: !Space(Render(m)[i])
  {
    PlainTail('-', m.pre);
    PlainTail('+', m.build);
    PlainJoin(Core(m), Tail('-', m.pre));
    PlainJoin(Core(m) + Tail('-', m.pre), Tail('+', m.build));
    assert Core(m)[0] == m.major[0];
    assert (Core(m) + Tail('-', m.pre))[0] == Core(m)[0];
  }

  predicate Plain(s: string) { forall i | 0 <= i < |s| :: !Space(s[i]) }

  lemma PlainJoin(a: string, b: string)
    requires Plain(a) && Plain(b)
    ensures Plain(a + b)
  {
  }

  lemma PlainTail(c: char, part: string)
    requires !Space(c) && (part == "" || Identifiers(part))
    ensures Plain(Tail(c, part))
  {
  }

  // ----- precedence -----

  /** An identifier as the standard reads it, and a version without its build metadata. */
  datatype Id = Number(value: nat) | Text(text: string)

  datatype Release = Release(major: nat, minor: nat, patch: nat, pre: seq<Id>)

  function Pow10(n: nat): (r: nat)
    ensures r >= 1
  {
    if n == 0 then 1 else 10 * Pow10(n - 1)
  }

  function DigitValue(c: char): nat
    requires Digit(c)
  {
    c as int - '0' as int
  }

  function ValueOf(digits: string): nat
    requires forall i | 0 <= i < |digits| :: Digit(digits[i])
  {
    if digits == "" then 0 else DigitValue(digits[0]) * Pow10(|digits| - 1) + ValueOf(digits[1..])
  }

  /** The digits are read in base ten. */
  lemma {:induction false} ValueIsDecimal(digits: string, last: char)
    requires (forall i | 0 <= i < |digits| :: Digit(digits[i])) && Digit(last)
    ensures ValueOf(digits + [last]) == 10 * ValueOf(digits) + (last as int - '0' as int)
  {
    if digits == "" {
      assert digits + [last] == [last] && [last][1..] == "";
      assert Pow10(0) == 1;
    } else {
      assert (digits + [last])[1..] == digits[1..] + [last] && (digits + [last])[0] == digits[0];
      ValueIsDecimal(digits[1..], last);
      TenTimes(DigitValue(digits[0]), Pow10(|digits| - 1), Pow10(|digits|));
    }
  }

  lemma TenTimes(d: nat, p: nat, q: nat)
    requires q == 10 * p
    ensures d * q == 10 * (d * p)
  {
  }

  function IdOf(part: string): Id {
    if NumericIdentifier(part) then Number(ValueOf(part)) else Text(part)
  }

  function IdsOf(parts: seq<string>): (r: seq<Id>)
  {
    seq(|parts|, i requires 0 <= i < |parts| => IdOf(parts[i]))
  }

  function Meaning(m: Match): Release
    requires Valid(m)
  {
    Release(ValueOf(m.major), ValueOf(m.minor), ValueOf(m.patch), if m.pre == "" then [] else IdsOf(Split(m.pre, '.')))
  }

  /** ASCII order: a difference at the first place, or a proper prefix. */
  ghost predicate TextDiffers(x: string, y: string, k: nat) {
    k <= |x| && k < |y| && x[..k] == y[..k] && (k == |x| || x[k] < y[k])
  }

  ghost predicate TextBefore(x: string, y: string) { exists k :: TextDiffers(x, y, k) }

  ghost predicate IdBefore(a: Id, b: Id) {
    match (a, b)
    case (Number(x), Number(y)) => x < y
    case (Number(_), Text(_)) => true
    case (Text(_), Number(_)) => false
    case (Text(x), Text(y)) => TextBefore(x, y)
  }

  /** The first identifier that differs decides; the shorter list comes first if there is none. */
  ghost predicate PreDiffers(p: seq<Id>, q: seq<Id>, k: nat) {
    k <= |p| && k < |q| && p[..k] == q[..k] && (k == |p| || IdBefore(p[k], q[k]))
  }

  /** A pre-release comes before its release. */
  ghost predicate PreBefore(p: seq<Id>, q: seq<Id>) {
    if q == [] then p != [] else p != [] && exists k :: PreDiffers(p, q, k)
  }

  ghost predicate Before(a: Release, b: Release) {
    CoreBefore(a, b) || (SameCore(a, b) && PreBefore(a.pre, b.pre))
  }

  predicate SameCore(a: Release, b: Release) { a.major == b.major && a.minor == b.minor && a.patch == b.patch }

  predicate CoreBefore(a: Release, b: Release) {
    if a.major != b.major then a.major < b.major
    else if a.minor != b.minor then a.minor < b.minor
    else a.patch < b.patch
  }

  ghost function Sign(a: Release, b: Release): int {
    if a == b then 0 else if Before(a, b) then -1 else 1
  }

  // ----- it is an order -----

  lemma {:induction false} TextOrder(x: string, y: string)
    ensures x != y ==> TextBefore(x, y) || TextBefore(y, x)
  {
    if x == "" && y != "" {
      assert TextDiffers(x, y, 0);
    } else if y == "" && x != "" {
      assert TextDiffers(y, x, 0);
    } else if x != y && x[0] != y[0] {
      assert TextDiffers(x, y, 0) || TextDiffers(y, x, 0);
    } else if x != y {
      assert x == [x[0]] + x[1..] && y == [y[0]] + y[1..];
      TextOrder(x[1..], y[1..]);
      if k :| TextDiffers(x[1..], y[1..], k) {
        TextDiffersLater(x, y, k);
      } else {
        var k :| TextDiffers(y[1..], x[1..], k);
        TextDiffersLater(y, x, k);
      }
    }
  }

  lemma TextDiffersLater(x: string, y: string, k: nat)
    requires x != "" && y != "" && x[0] == y[0] && TextDiffers(x[1..], y[1..], k)
    ensures TextDiffers(x, y, k + 1)
  {
    assert x[..k + 1] == [x[0]] + x[1..][..k] && y[..k + 1] == [y[0]] + y[1..][..k];
  }

  lemma TextChain(x: string, y: string, z: string)
    requires TextBefore(x, y)
    ensures !TextBefore(y, x) && x != y
    ensures TextBefore(y, z) ==> TextBefore(x, z)
  {
    var j: nat :| TextDiffers(x, y, j);
    if i: nat :| TextDiffers(y, x, i) {
      SamePrefix(x, y, j, i);
      SamePrefix(y, x, i, j);
    }
    if k: nat :| TextDiffers(y, z, k) {
      SamePrefix(x, y, j, k);
      SamePrefix(y, z, k, j);
      var n := if j < k then j else k;
      assert x[..n] == z[..n];
      assert TextDiffers(x, z, n);
    }
  }

  lemma SamePrefix(x: string, y: string, k: nat, n: nat)
    requires TextDiffers(x, y, k)
    ensures n <= k ==> n <= |x| && n <= |y| && x[..n] == y[..n]
    ensures n < k ==> x[n] == y[n]
  {
    if n <= k {
      assert x[..n] == x[..k][..n] && y[..n] == y[..k][..n];
    }
    if n < k {
      assert x[n] == x[..k][n] && y[n] == y[..k][n];
    }
  }

  lemma IdOrder(a: Id, b: Id)
    ensures a != b ==> IdBefore(a, b) || IdBefore(b, a)
  {
    if a.Text? && b.Text? {
      TextOrder(a.text, b.text);
    }
  }

  lemma IdChain(a: Id, b: Id, c: Id)
    requires IdBefore(a, b)
    ensures !IdBefore(b, a) && a != b
    ensures IdBefore(b, c) ==> IdBefore(a, c)
  {
    if a.Text? && b.Text? {
      TextChain(a.text, b.text, if c.Text? then c.text else "");
    }
  }

  lemma {:induction false} ListOrder(p: seq<Id>, q: seq<Id>) returns (k: nat)
    requires p != q
    ensures PreDiffers(p, q, k) || PreDiffers(q, p, k)
  {
    if p == [] || q == [] {
      k := 0;
    } else if p[0] != q[0] {
      IdOrder(p[0], q[0]);
      k := 0;
    } else {
      assert p == [p[0]] + p[1..] && q == [q[0]] + q[1..];
      var later := ListOrder(p[1..], q[1..]);
      k := later + 1;
      assert p[..k] == [p[0]] + p[1..][..later] && q[..k] == [q[0]] + q[1..][..later];
    }
  }

  lemma ListPrefix(p: seq<Id>, q: seq<Id>, k: nat, n: nat)
    requires PreDiffers(p, q, k)
    ensures n <= k ==> n <= |p| && n <= |q| && p[..n] == q[..n]
    ensures n < k ==> p[n] == q[n]
  {
    if n <= k {
      assert p[..n] == p[..k][..n] && q[..n] == q[..k][..n];
    }
    if n < k {
      assert p[n] == p[..k][n] && q[n] == q[..k][n];
    }
  }

  lemma ListAsymmetric(p: seq<Id>, q: seq<Id>, j: nat, i: nat)
    requires PreDiffers(p, q, j)
    ensures p != q && !PreDiffers(q, p, i)
  {
    if p == q && j < |p| {
      IdChain(p[j], q[j], q[j]);
    }
    if PreDiffers(q, p, i) {
      ListPrefix(p, q, j, i);
      ListPrefix(q, p, i, j);
      if i == j && j < |p| && i < |q| {
        IdChain(p[j], q[j], q[j]);
      }
    }
  }

  lemma ListChain(p: seq<Id>, q: seq<Id>, r: seq<Id>, j: nat, k: nat)
    requires PreDiffers(p, q, j) && PreDiffers(q, r, k)
    ensures PreDiffers(p, r, if j < k then j else k)
  {
    ListPrefix(p, q, j, k);
    ListPrefix(q, r, k, j);
    var n := if j < k then j else k;
    assert p[..n] == r[..n];
    if j == k && j < |p| {
      IdChain(p[j], q[j], r[j]);
    }
  }

  lemma PreOrder(p: seq<Id>, q: seq<Id>)
    ensures p != q ==> PreBefore(p, q) || PreBefore(q, p)
    ensures PreBefore(p, q) ==> p != q && !PreBefore(q, p)
  {
    if p != [] && q != [] {
      if p != q {
        var _ := ListOrder(p, q);
      }
      if PreBefore(p, q) {
        var j: nat :| PreDiffers(p, q, j);
        forall i: nat ensures !PreDiffers(q, p, i) {
          ListAsymmetric(p, q, j, i);
        }
        ListAsymmetric(p, q, j, 0);
      }
    }
  }

  lemma PreChain(p: seq<Id>, q: seq<Id>, r: seq<Id>)
    requires PreBefore(p, q) && PreBefore(q, r)
    ensures PreBefore(p, r)
  {
    if q != [] && r != [] {
      var j: nat :| PreDiffers(p, q, j);
      var k: nat :| PreDiffers(q, r, k);
      ListChain(p, q, r, j, k);
    }
  }

  /** Precedence is a total order on releases: antisymmetric in sign, and transitive. */
  lemma PrecedenceIsTotalOrder(a: Release, b: Release, c: Release)
    ensures Sign(a, b) == -Sign(b, a)
    ensures Sign(a, b) <= 0 && Sign(b, c) <= 0 ==> Sign(a, c) <= 0
    ensures Sign(a, b) == 0 <==> a == b
  {
    PreOrder(a.pre, b.pre);
    if Sign(a, b) <= 0 && Sign(b, c) <= 0 && a != b && b != c {
      BeforeChain(a, b, c);
      BeforeAsymmetric(a, c);
    }
  }

  lemma BeforeChain(a: Release, b: Release, c: Release)
    requires Before(a, b) && Before(b, c)
    ensures Before(a, c)
  {
    if a.major == b.major == c.major && a.minor == b.minor == c.minor && a.patch == b.patch == c.patch {
      PreChain(a.pre, b.pre, c.pre);
    }
  }

  lemma BeforeAsymmetric(a: Release, b: Release)
    requires Before(a, b)
    ensures a != b && !Before(b, a)
  {
    PreOrder(a.pre, b.pre);
  }

  // ----- comparing without arithmetic -----

  /** strings.Compare. */
  function Compare(x: string, y: string): int {
    if x == "" || y == "" then (if x == y then 0 else if x == "" then -1 else 1)
    else if x[0] != y[0] then (if x[0] < y[0] then -1 else 1)
    else Compare(x[1..], y[1..])
  }

  /** The comparison of two unpadded numbers: the longer is larger, else the first digit that differs decides. */
  function CompareNumbers(x: string, y: string): int {
    if |x| < |y| then -1 else if |x| > |y| then 1 else Compare(x, y)
  }

  lemma {:induction false} CompareIsTextOrder(x: string, y: string)
    ensures Compare(x, y) in {-1, 0, 1}
    ensures Compare(x, y) == 0 <==> x == y
    ensures Compare(x, y) < 0 ==> TextBefore(x, y)
    ensures Compare(x, y) > 0 ==> TextBefore(y, x)
  {
    if x == "" || y == "" || x[0] != y[0] {
      assert Compare(x, y) < 0 ==> TextDiffers(x, y, 0);
      assert Compare(x, y) > 0 ==> TextDiffers(y, x, 0);
    } else {
      assert x == [x[0]] + x[1..] && y == [y[0]] + y[1..];
      CompareIsTextOrder(x[1..], y[1..]);
      if Compare(x, y) < 0 {
        var k: nat :| TextDiffers(x[1..], y[1..], k);
        TextDiffersLater(x, y, k);
      } else if Compare(x, y) > 0 {
        var k: nat :| TextDiffers(y[1..], x[1..], k);
        TextDiffersLater(y, x, k);
      }
    }
  }

  lemma {:induction false} ValueBelow(x: string)
    requires forall i | 0 <= i < |x| :: Digit(x[i])
    ensures ValueOf(x) < Pow10(|x|)
  {
    if x != "" {
      ValueBelow(x[1..]);
      LeadingDigitDecides(DigitValue(x[0]), 10, Pow10(|x| - 1), ValueOf(x[1..]), 0);
    }
  }

  lemma {:induction false} Pow10Grows(m: nat, n: nat)
    requires m <= n
    ensures Pow10(m) <= Pow10(n)
  {
    if m < n {
      Pow10Grows(m, n - 1);
    }
  }

  lemma LeadingDigitDecides(d: nat, e: nat, p: nat, v: nat, w: nat)
    requires d < e && v < p
    ensures d * p + v < e * p + w
  {
    assert (d + 1) * p <= e * p;
  }

  lemma {:induction false} SameLengthOrder(x: string, y: string)
    requires |x| == |y| && (forall i | 0 <= i < |x| :: Digit(x[i])) && (forall i | 0 <= i < |y| :: Digit(y[i]))
    ensures Compare(x, y) < 0 <==> ValueOf(x) < ValueOf(y)
    ensures Compare(x, y) > 0 <==> ValueOf(x) > ValueOf(y)
  {
    if x != "" {
      var p := Pow10(|x| - 1);
      if x[0] == y[0] {
        SameLengthOrder(x[1..], y[1..]);
      } else if x[0] < y[0] {
        ValueBelow(x[1..]);
        LeadingDigitDecides(DigitValue(x[0]), DigitValue(y[0]), p, ValueOf(x[1..]), ValueOf(y[1..]));
      } else {
        ValueBelow(y[1..]);
        LeadingDigitDecides(DigitValue(y[0]), DigitValue(x[0]), p, ValueOf(y[1..]), ValueOf(x[1..]));
      }
    }
  }

  /** Length, then lexicographic order, is integer order on numbers without leading zeros. */
  lemma NumbersCompareAsIntegers(x: string, y: string)
    requires Unpadded(x) && Unpadded(y)
    ensures CompareNumbers(x, y) < 0 <==> ValueOf(x) < ValueOf(y)
    ensures CompareNumbers(x, y) > 0 <==> ValueOf(x) > ValueOf(y)
    ensures CompareNumbers(x, y) == 0 <==> x == y
    ensures CompareNumbers(x, y) in {-1, 0, 1}
  {
    CompareIsTextOrder(x, y);
    if |x| == |y| {
      SameLengthOrder(x, y);
    } else if |x| < |y| {
      LongerIsLarger(x, y);
    } else {
      LongerIsLarger(y, x);
    }
  }

  lemma LongerIsLarger(x: string, y: string)
    requires Unpadded(x) && Unpadded(y) && |x| < |y|
    ensures ValueOf(x) < ValueOf(y)
  {
    ValueBelow(x);
    Pow10Grows(|x|, |y| - 1);
    LeadingDigitDecides(0, DigitValue(y[0]), Pow10(|y| - 1), Pow10(|y| - 1) - 1, ValueOf(y[1..]));
  }

  /** One identifier against another, as the code compares them. */
  function CompareIds(x: string, y: string): int {
    if NumericIdentifier(x) && NumericIdentifier(y) then CompareNumbers(x, y)
    else if NumericIdentifier(x) then -1
    else if NumericIdentifier(y) then 1
    else Compare(x, y)
  }

  lemma IdsCompareAsMeant(x: string, y: string)
    requires NumericIdentifier(x) ==> Unpadded(x)
    requires NumericIdentifier(y) ==> Unpadded(y)
    ensures CompareIds(x, y) in {-1, 0, 1}
    ensures CompareIds(x, y) == 0 <==> x == y
    ensures IdOf(x) == IdOf(y) <==> x == y
    ensures CompareIds(x, y) < 0 ==> IdBefore(IdOf(x), IdOf(y))
    ensures CompareIds(x, y) > 0 ==> IdBefore(IdOf(y), IdOf(x))
  {
    if NumericIdentifier(x) && NumericIdentifier(y) {
      NumbersCompareAsIntegers(x, y);
    } else {
      CompareIsTextOrder(x, y);
    }
  }

  /** The pre-release part of CompareVersions. */
  method ComparePre(av: Match, bv: Match) returns (c: int)
    requires Valid(av) && Valid(bv)
    ensures c in {-1, 0, 1}
    ensures c == 0 <==> Meaning(av).pre == Meaning(bv).pre
    ensures c < 0 ==> PreBefore(Meaning(av).pre, Meaning(bv).pre)
    ensures c > 0 ==> PreBefore(Meaning(bv).pre, Meaning(av).pre)
  {
    if av.pre == bv.pre {
      return 0;
    }
    if av.pre == "" {
      return 1;
    }
    if bv.pre == "" {
      return -1;
    }
    var ap, bp := Split(av.pre, '.'), Split(bv.pre, '.');
    ghost var p, q := IdsOf(ap), IdsOf(bp);
    var i := 0;
    while i < |ap| && i < |bp|
      invariant 0 <= i <= |ap| && i <= |bp|
      invariant p[..i] == q[..i]
    {
      assert ap[i] in ap && bp[i] in bp;
      IdsCompareAsMeant(ap[i], bp[i]);
      c := CompareIds(ap[i], bp[i]);
      if c != 0 {
        assert if c < 0 then PreDiffers(p, q, i) else PreDiffers(q, p, i);
        PreOrder(p, q);
        return;
      }
      i := i + 1;
    }
    if |ap| < |bp| {
      assert PreDiffers(p, q, i);
      return -1;
    }
    if |ap| > |bp| {
      assert PreDiffers(q, p, i);
      return 1;
    }
    assert p == p[..i] && q == q[..i];
    return 0;
  }

  /** The loop over the three core numbers. */
  method CompareCore(av: Match, bv: Match) returns (c: int)
    requires Valid(av) && Valid(bv)
    ensures c in {-1, 0, 1}
    ensures c == 0 ==> SameCore(Meaning(av), Meaning(bv))
    ensures c < 0 ==> CoreBefore(Meaning(av), Meaning(bv))
    ensures c > 0 ==> CoreBefore(Meaning(bv), Meaning(av))
  {
    var x, y := [av.major, av.minor, av.patch], [bv.major, bv.minor, bv.patch];
    for i := 0 to 3
      invariant forall k | 0 <= k < i :: x[k] == y[k]
    {
      NumbersCompareAsIntegers(x[i], y[i]);
      c := CompareNumbers(x[i], y[i]);
      if c != 0 {
        assert i > 0 ==> x[0] == y[0];
        assert i > 1 ==> x[1] == y[1];
        return;
      }
    }
    assert x[0] == y[0] && x[1] == y[1] && x[2] == y[2];
    return 0;
  }

  lemma SignIs(a: Release, b: Release, core: int, pre: int)
    requires core == 0 ==> SameCore(a, b) && (pre == 0 <==> a.pre == b.pre)
    requires core == 0 ==> (pre < 0 ==> PreBefore(a.pre, b.pre)) && (pre > 0 ==> PreBefore(b.pre, a.pre))
    requires (core < 0 ==> CoreBefore(a, b)) && (core > 0 ==> CoreBefore(b, a))
    requires core in {-1, 0, 1} && pre in {-1, 0, 1}
    ensures Sign(a, b) == if core != 0 then core else pre
  {
    PreOrder(a.pre, b.pre);
    PreOrder(b.pre, a.pre);
  }

  /** CompareVersions; None is its error. */
  method CompareVersions(a: string, b: string) returns (r: Option<int>)
    ensures r.Some? <==> Parse(a).Some? && Parse(b).Some?
    ensures r.Some? ==> Valid(Parse(a).value) && Valid(Parse(b).value)
                        && r.value == Sign(Meaning(Parse(a).value), Meaning(Parse(b).value))
  {
    var av, bv := Parse(a), Parse(b);
    if av == None || bv == None {
      return None;
    }
    MatchedRenders(TrimPrefix(TrimRight(TrimLeft(a))));
    MatchedRenders(TrimPrefix(TrimRight(TrimLeft(b))));
    ghost var x, y := Meaning(av.value), Meaning(bv.value);
    var core := CompareCore(av.value, bv.value);
    if core != 0 {
      SignIs(x, y, core, 0);
      return Some(core);
    }
    var pre := ComparePre(av.value, bv.value);
    SignIs(x, y, 0, pre);
    return Some(pre);
  }

  /** Two versions mean the same release exactly when they agree apart from build metadata. */
  lemma SameReleaseIff(a: Match, b: Match)
    requires Valid(a) && Valid(b)
    ensures Meaning(a) == Meaning(b) <==> a.(build := "") == b.(build := "")
  {
    NumbersCompareAsIntegers(a.major, b.major);
    NumbersCompareAsIntegers(a.minor, b.minor);
    NumbersCompareAsIntegers(a.patch, b.patch);
    if Meaning(a) == Meaning(b) && a.pre != "" && b.pre != "" {
      var ap, bp := Split(a.pre, '.'), Split(b.pre, '.');
      assert |IdsOf(ap)| == |ap| && |IdsOf(bp)| == |bp|;
      forall i | 0 <= i < |ap| ensures ap[i] == bp[i] {
        assert ap[i] in ap && bp[i] in bp;
        assert IdsOf(ap)[i] == IdsOf(bp)[i];
        IdsCompareAsMeant(ap[i], bp[i]);
      }
      assert ap == bp;
      SplitIsInjective(a.pre, b.pre, '.');
    }
  }

  lemma SplitIsInjective(x: string, y: string, c: char)
    requires Split(x, c) == Split(y, c)
    ensures x == y
  {
    SplitHas(x, c);
    SplitHas(y, c);
  }
}
