/** Release versions: when may one replace another?

On versions that parse as up to three numbers `Newer` is the lexicographic
order of the triples (`NewerIsLexicographic`), so chains of updates only climb.
`CycleExactly` says which starting versions allow a chain to come back.
*/
module Version {
  import opened Basics

  type Triple = t: seq<nat> | |t| == 3 witness [0, 0, 0]

  const MAX_INT: nat := 0x7fff_ffff_ffff_ffff

  predicate IsSpace(c: char) {
    || '\U{0009}' <= c <= '\U{000D}' || c == ' ' || c == '\U{0085}' || c == '\U{00A0}' || c == '\U{1680}'
    || '\U{2000}' <= c <= '\U{200A}' || c == '\U{2028}' || c == '\U{2029}' || c == '\U{202F}'
    || c == '\U{205F}' || c == '\U{3000}'
  }

  function TrimSpace(s: string): string {
    if s == [] then s
    else if IsSpace(s[0]) then TrimSpace(s[1..])
    else if IsSpace(s[|s| - 1]) then TrimSpace(s[..|s| - 1])
    else s
  }

  function TrimPrefixV(s: string): string {
    if s != [] && s[0] == 'v' then s[1..] else s
  }

  /** What precedes the first '-' or '+'. */
  function Core(s: string): string {
    if s == [] || s[0] == '-' || s[0] == '+' then [] else [s[0]] + Core(s[1..])
  }

  function SplitDots(s: string): (parts: seq<string>)
    ensures |parts| > 0
  {
    if s == [] then [[]]
    else
      var rest := SplitDots(s[1..]);
      if s[0] == '.' then [[]] + rest else [[s[0]] + rest[0]] + rest[1..]
  }

  predicate AllDigits(s: string) {
    forall i :: 0 <= i < |s| ==> '0' <= s[i] <= '9'
  }

  function Value(s: string): nat
    requires AllDigits(s)
  {
    if s == [] then 0 else 10 * Value(s[..|s| - 1]) + (s[|s| - 1] as int - '0' as int)
  }

  /** A decimal integer of 64 bits; a sign cannot occur, since `Core` cuts there. */
  function Atoi(s: string): Option<nat> {
    if s != [] && AllDigits(s) && Value(s) <= MAX_INT then Some(Value(s)) else None
  }

  function Parts(v: string): seq<string> {
    SplitDots(Core(TrimPrefixV(TrimSpace(v))))
  }

  /** The numeric reading of a version, if it has one. */
  function Parsed(v: string): Option<Triple> {
    var parts := Parts(v);
    if |parts| > 3 then None
    else if exists i :: 0 <= i < |parts| && Atoi(parts[i]).None? then None
    else Some([Part(parts, 0), Part(parts, 1), Part(parts, 2)])
  }

  function Part(parts: seq<string>, i: nat): nat {
    if i < |parts| && Atoi(parts[i]).Some? then Atoi(parts[i]).value else 0
  }

  method ParseVer(v: string) returns (out: Triple, ok: bool)
    ensures ok <==> Parsed(v).Some?
    ensures ok ==> out == Parsed(v).value
  {
    out := [0, 0, 0];
    var parts := SplitDots(Core(TrimPrefixV(TrimSpace(v))));
    if |parts| == 0 || |parts| > 3 {
      return out, false;
    }
    for i := 0 to |parts|
      invariant forall j :: 0 <= j < i ==> Atoi(parts[j]).Some?
      invariant forall j :: 0 <= j < 3 ==> out[j] == if j < i then Part(parts, j) else 0
    {
      var n := Atoi(parts[i]);
      if n.None? {
        return out, false;
      }
      out := out[i := n.value];
    }
    assert out == [Part(parts, 0), Part(parts, 1), Part(parts, 2)];
    ok := true;
  }

  predicate LexLess(a: Triple, b: Triple) {
    || a[0] < b[0]
    || (a[0] == b[0] && a[1] < b[1])
    || (a[0] == b[0] && a[1] == b[1] && a[2] < b[2])
  }

  method CompareVer(a: Triple, b: Triple) returns (r: int)
    ensures -1 <= r <= 1
    ensures r > 0 <==> LexLess(b, a)
    ensures r < 0 <==> LexLess(a, b)
    ensures r == 0 <==> a == b
  {
    for i := 0 to 3
      invariant forall j :: 0 <= j < i ==> a[j] == b[j]
    {
      if a[i] != b[i] {
        return if a[i] > b[i] then 1 else -1;
      }
    }
    assert a == b;
    return 0;
  }

  /** Should release `want` replace `have`? */
  predicate Newer(have: string, want: string) {
    if have == "" || have == want then have != want
    else
      match (Parsed(have), Parsed(want))
      case (Some(h), Some(w)) => LexLess(h, w)
      case (Some(_), None) => false
      case (None, _) => true
  }

  lemma EmptyNotNumeric()
    ensures Parsed("").None?
  {
    assert Parts("") == [""];
    assert Atoi(Parts("")[0]).None?;
  }

  lemma NewerIsLexicographic(have: string, want: string)
    requires Parsed(have).Some? && Parsed(want).Some?
    ensures Newer(have, want) <==> LexLess(Parsed(have).value, Parsed(want).value)
  {
    EmptyNotNumeric();
  }

  /** A strict partial order on numeric versions. */
  lemma NewerStrictOrder(a: string, b: string, c: string)
    requires Parsed(a).Some? && Parsed(b).Some? && Parsed(c).Some?
    ensures !Newer(a, a)
    ensures Newer(a, b) ==> !Newer(b, a)
    ensures Newer(a, b) && Newer(b, c) ==> Newer(a, c)
  {
    EmptyNotNumeric();
  }

  /** Versions that updates could take an agent through; a manifest never
      carries the empty version. */
  predicate Chain(from: string, steps: seq<string>)
    decreases |steps|
  {
    steps == [] || (steps[0] != "" && Newer(from, steps[0]) && Chain(steps[0], steps[1..]))
  }

  /** NO DOWNGRADE. From a numeric version every chain stays numeric and climbs. */
  lemma {:induction false} ChainClimbs(from: string, steps: seq<string>)
    requires Parsed(from).Some? && Chain(from, steps)
    ensures forall k :: 0 <= k < |steps| ==>
              Parsed(steps[k]).Some? && LexLess(Parsed(from).value, Parsed(steps[k]).value)
    ensures forall j, k :: 0 <= j < k < |steps| ==>
              && Parsed(steps[j]).Some? && Parsed(steps[k]).Some?
              && LexLess(Parsed(steps[j]).value, Parsed(steps[k]).value)
    decreases |steps|
  {
    hide Parsed;
    if steps != [] {
      EmptyNotNumeric();
      ChainClimbs(steps[0], steps[1..]);
      assert forall k :: 0 < k < |steps| ==> steps[k] == steps[1..][k - 1];
    }
  }

  ghost predicate ComesBack(from: string, steps: seq<string>) {
    steps != [] && Chain(from, steps) && steps[|steps| - 1] == from
  }

  lemma XAndYNotNumeric()
    ensures Parsed("x").None? && Parsed("y").None?
  {
    assert Parts("x") == ["x"] by { assert Core("x") == "x"; assert SplitDots("x") == ["x"]; }
    assert Parts("y") == ["y"] by { assert Core("y") == "y"; assert SplitDots("y") == ["y"]; }
    assert !('0' <= "x"[0] <= '9') && !('0' <= "y"[0] <= '9');
    assert Atoi(Parts("x")[0]).None? && Atoi(Parts("y")[0]).None?;
  }

  /** CYCLES, EXACTLY. Updates can bring an agent back to the version it started
      from if and only if that version is a non-empty, non-numeric one. */
  lemma CycleExactly(from: string)
    ensures (exists steps :: ComesBack(from, steps)) <==> (from != "" && Parsed(from).None?)
  {
    if from != "" && Parsed(from).None? {
      XAndYNotNumeric();
      var other := if from == "x" then "y" else "x";
      var steps := [other, from];
      assert steps[1..] == [from] && [from][1..] == [];
      assert Chain(from, []);
      assert Chain(other, [from]);
      assert ComesBack(from, steps);
    } else {
      forall steps | ComesBack(from, steps)
        ensures false
      {
        if from == "" {
          ChainNonEmpty(from, steps);
        } else {
          ChainClimbs(from, steps);
        }
      }
    }
  }

  lemma {:induction false} ChainNonEmpty(from: string, steps: seq<string>)
    requires Chain(from, steps)
    ensures forall k :: 0 <= k < |steps| ==> steps[k] != ""
    decreases |steps|
  {
    if steps != [] {
      ChainNonEmpty(steps[0], steps[1..]);
      assert forall k :: 0 < k < |steps| ==> steps[k] == steps[1..][k - 1];
    }
  }

  predicate IsMark(c: char) {
    c == '-' || c == '+'
  }

  /** A version without marks or spaces, such as "v0.5.0". */
  predicate PlainVersion(s: string) {
    forall i :: 0 <= i < |s| ==> !IsMark(s[i]) && !IsSpace(s[i])
  }

  lemma {:induction false} CoreOfSuffixed(core: string, mark: char, suffix: string)
    requires PlainVersion(core) && IsMark(mark)
    ensures Core(core + [mark] + suffix) == core == Core(core)
  {
    if core == [] {
      assert core + [mark] + suffix == [mark] + suffix;
    } else {
      CoreOfSuffixed(core[1..], mark, suffix);
      assert (core + [mark] + suffix)[1..] == core[1..] + [mark] + suffix;
    }
  }

  /** Trimming a string that begins with text can only shorten what follows. */
  lemma {:induction false} TrimKeepsText(a: string, b: string) returns (k: nat)
    requires a != [] && forall i :: 0 <= i < |a| ==> !IsSpace(a[i])
    ensures k <= |b| && TrimSpace(a + b) == a + b[..k]
    decreases |b|
  {
    var s := a + b;
    assert s[0] == a[0];
    if b == [] {
      assert s[|s| - 1] == a[|a| - 1];
      k := 0;
    } else if IsSpace(b[|b| - 1]) {
      assert s[|s| - 1] == b[|b| - 1] && s[..|s| - 1] == a + b[..|b| - 1];
      k := TrimKeepsText(a, b[..|b| - 1]);
      assert b[..|b| - 1][..k] == b[..k];
    } else {
      assert s[|s| - 1] == b[|b| - 1];
      k := |b|;
    }
  }

  lemma {:induction false} ValueOfDecimal(n: nat)
    ensures AllDigits(Decimal(n)) && Value(Decimal(n)) == n
  {
    DecimalDigits(n);
    if n < 10 {
      assert Decimal(n)[..0] == [];
    } else {
      ValueOfDecimal(n / 10);
      var s := Decimal(n);
      assert s[..|s| - 1] == Decimal(n / 10) && s[|s| - 1] == Digit(n % 10);
    }
  }

  /** Leading zeros do not count. */
  lemma {:induction false} ValueOfPadded(zeros: string, s: string)
    requires AllDigits(s) && forall i :: 0 <= i < |zeros| ==> zeros[i] == '0'
    ensures AllDigits(zeros + s) && Value(zeros + s) == Value(s)
    decreases |zeros| + |s|
  {
    if s != [] {
      ValueOfPadded(zeros, s[..|s| - 1]);
      assert (zeros + s)[..|zeros + s| - 1] == zeros + s[..|s| - 1];
    } else if zeros != [] {
      ValueOfPadded(zeros[..|zeros| - 1], []);
      assert zeros + s == zeros && zeros[..|zeros| - 1] + [] == zeros[..|zeros| - 1];
    }
  }

  /** One component: a decimal text of 64 bits is read as its number, with or without
      leading zeros; a larger one, and any text that has something else than digits
      in it, as nothing. */
  lemma AtoiExactly(zeros: string, n: nat, other: string)
    requires forall i :: 0 <= i < |zeros| ==> zeros[i] == '0'
    requires other == "" || exists i :: 0 <= i < |other| && !('0' <= other[i] <= '9')
    ensures Atoi(zeros + Decimal(n)) == if n <= 0x7fff_ffff_ffff_ffff then Some(n) else None
    ensures Atoi(other) == None
  {
    ValueOfDecimal(n);
    ValueOfPadded(zeros, Decimal(n));
  }

  // ---- texts of dotted numbers ----

  function Dotted(parts: seq<string>): string
    requires parts != []
  {
    if |parts| == 1 then parts[0] else parts[0] + "." + Dotted(parts[1..])
  }

  predicate DotFree(parts: seq<string>) {
    forall i :: 0 <= i < |parts| ==> '.' !in parts[i]
  }

  lemma {:induction false} SplitPart(s: string, rest: string)
    requires '.' !in s
    ensures SplitDots(s) == [s]
    ensures SplitDots(s + "." + rest) == [s] + SplitDots(rest)
    decreases |s|
  {
    var t := s + "." + rest;
    if s == [] {
      assert t[0] == '.' && t[1..] == rest;
    } else {
      SplitPart(s[1..], rest);
      assert t[1..] == s[1..] + "." + rest;
      assert [s[0]] + s[1..] == s;
      assert SplitDots(t)[0] == s && SplitDots(t)[1..] == SplitDots(t[1..])[1..] == SplitDots(rest);
      assert SplitDots(t) == [SplitDots(t)[0]] + SplitDots(t)[1..];
    }
  }

  /** Splitting undoes joining. */
  lemma {:induction false} SplitDotted(parts: seq<string>)
    requires parts != [] && DotFree(parts)
    ensures SplitDots(Dotted(parts)) == parts
    decreases |parts|
  {
    if |parts| == 1 {
      SplitPart(parts[0], []);
    } else {
      SplitDotted(parts[1..]);
      SplitPart(parts[0], Dotted(parts[1..]));
      assert [parts[0]] + parts[1..] == parts;
    }
  }

  predicate PlainParts(parts: seq<string>) {
    forall i :: 0 <= i < |parts| ==> PlainVersion(parts[i])
  }

  lemma {:induction false} DottedPlain(parts: seq<string>)
    requires parts != [] && PlainParts(parts)
    ensures PlainVersion(Dotted(parts))
    ensures parts[0] != "" ==> Dotted(parts) != "" && Dotted(parts)[0] == parts[0][0]
    decreases |parts|
  {
    if |parts| > 1 {
      DottedPlain(parts[1..]);
    }
  }

  /** White space around a version does not count, nor a "v" before it. */
  lemma PartsOfText(before: string, v: bool, parts: seq<string>, after: string)
    requires AllSpace(before) && AllSpace(after)
    requires parts != [] && DotFree(parts) && PlainParts(parts)
    requires parts[0] != "" && parts[0][0] != 'v'
    ensures Parts(before + (if v then "v" else "") + Dotted(parts) + after) == parts
  {
    hide SplitDots, TrimSpace, Core, Dotted;
    var body := Dotted(parts);
    var text := (if v then "v" else "") + body;
    DottedPlain(parts);
    assert before + (if v then "v" else "") + body + after == before + text + after;
    assert PlainVersion(text);
    TrimAround(before, text, after);
    assert TrimPrefixV(text) == body;
    CoreOfSuffixed(body, '-', "");
    SplitDotted(parts);
  }

  predicate AllSpace(s: string) {
    forall i :: 0 <= i < |s| ==> IsSpace(s[i])
  }

  lemma {:induction false} TrimAround(before: string, s: string, after: string)
    requires AllSpace(before) && AllSpace(after) && s != "" && PlainVersion(s)
    ensures TrimSpace(before + s + after) == s
    decreases |before| + |after|
  {
    hide IsSpace;
    var t := before + s + after;
    if before != [] {
      TrimAround(before[1..], s, after);
      assert t[0] == before[0] && t[1..] == before[1..] + s + after;
    } else if after != [] {
      TrimAround(before, s, after[..|after| - 1]);
      assert t[0] == s[0] && t[|t| - 1] == after[|after| - 1];
      assert t[..|t| - 1] == before + s + after[..|after| - 1];
    } else {
      assert t == s;
      TrimPlain(s);
    }
  }

  /** "a.b.c", "a.b" or "a": the missing ones are zero. */
  function Numbers(ns: seq<nat>): (parts: seq<string>)
    ensures |parts| == |ns| && forall i :: 0 <= i < |ns| ==> parts[i] == Decimal(ns[i])
  {
    seq(|ns|, i requires 0 <= i < |ns| => Decimal(ns[i]))
  }

  lemma NumbersPlain(ns: seq<nat>)
    ensures DotFree(Numbers(ns)) && PlainParts(Numbers(ns))
    ensures ns != [] ==> Numbers(ns)[0] != "" && Numbers(ns)[0][0] != 'v'
  {
    forall i | 0 <= i < |ns|
      ensures '.' !in Decimal(ns[i]) && PlainVersion(Decimal(ns[i])) && Decimal(ns[i])[0] != 'v'
    {
      DecimalDigits(ns[i]);
    }
  }

  function Nth(ns: seq<nat>, i: nat): nat {
    if i < |ns| then ns[i] else 0
  }

  /** READING A VERSION. Up to three decimal numbers of 64 bits, joined by dots, with white
      space around and a "v" in front or not, are read as major, minor and patch;
      more than three, or a larger one, make the version non-numeric. */
  lemma ReadsNumbers(before: string, v: bool, ns: seq<nat>, after: string)
    requires AllSpace(before) && AllSpace(after) && ns != []
    ensures Parsed(before + (if v then "v" else "") + Dotted(Numbers(ns)) + after)
         == if |ns| <= 3 && (forall i :: 0 <= i < |ns| ==> ns[i] <= 0x7fff_ffff_ffff_ffff)
            then Some([ns[0], Nth(ns, 1), Nth(ns, 2)]) else None
  {
    hide Parts, Atoi, Dotted;
    NumbersPlain(ns);
    PartsOfText(before, v, Numbers(ns), after);
    forall i | 0 <= i < |ns|
      ensures Atoi(Numbers(ns)[i]) == if ns[i] <= 0x7fff_ffff_ffff_ffff then Some(ns[i]) else None
    {
      AtoiExactly([], ns[i], "");
      assert [] + Decimal(ns[i]) == Decimal(ns[i]);
    }
  }

  /** A component that is empty or has something else than digits makes a version
      non-numeric. */
  lemma ReadsOther(before: string, v: bool, parts: seq<string>, after: string, i: nat)
    requires AllSpace(before) && AllSpace(after)
    requires parts != [] && DotFree(parts) && PlainParts(parts)
    requires parts[0] != "" && parts[0][0] != 'v'
    requires i < |parts| && (parts[i] == "" || exists k :: 0 <= k < |parts[i]| && !('0' <= parts[i][k] <= '9'))
    ensures Parsed(before + (if v then "v" else "") + Dotted(parts) + after).None?
  {
    hide Parts, Dotted;
    PartsOfText(before, v, parts, after);
    AtoiExactly([], 0, parts[i]);
  }

  function Release(v: bool, a: nat, b: nat, c: nat): string {
    (if v then "v" else "") + Dotted(Numbers([a, b, c]))
  }

  /** THE ORDER OF RELEASES. One "a.b.c" replaces another if and only if it is higher in the
      first of the three numbers in which they differ. */
  lemma ReleaseOrder(v: bool, a: nat, b: nat, c: nat, v': bool, a': nat, b': nat, c': nat)
    requires a <= MAX_INT && b <= MAX_INT && c <= MAX_INT && a' <= MAX_INT && b' <= MAX_INT && c' <= MAX_INT
    ensures Newer(Release(v, a, b, c), Release(v', a', b', c'))
            <==> a < a' || (a == a' && b < b') || (a == a' && b == b' && c < c')
  {
    hide Dotted, Parsed;
    ReadsNumbers([], v, [a, b, c], []);
    ReadsNumbers([], v', [a', b', c'], []);
    assert [] + (if v then "v" else "") + Dotted(Numbers([a, b, c])) + [] == Release(v, a, b, c);
    assert [] + (if v' then "v" else "") + Dotted(Numbers([a', b', c'])) + [] == Release(v', a', b', c');
    NewerIsLexicographic(Release(v, a, b, c), Release(v', a', b', c'));
  }

  lemma {:induction false} TrimPlain(s: string)
    requires PlainVersion(s)
    ensures TrimSpace(s) == s
  {
    if s != [] {
      var k := TrimKeepsText(s, []);
      assert s + [] == s && s + [][..k] == s;
    }
  }

  /** What follows the first mark has no say in how a version is read. */
  lemma SuffixNotRead(core: string, mark: char, suffix: string)
    requires PlainVersion(core) && IsMark(mark)
    ensures Parsed(core + [mark] + suffix) == Parsed(core)
  {
    hide SplitDots, TrimSpace, Core;
    var k := TrimKeepsText(core + [mark], suffix);
    TrimPlain(core);
    var bare := TrimPrefixV(core);
    assert TrimPrefixV(core + [mark] + suffix[..k]) == bare + [mark] + suffix[..k];
    CoreOfSuffixed(bare, mark, suffix[..k]);
    assert Parts(core + [mark] + suffix) == SplitDots(bare) == Parts(core);
  }

  /** WITHOUT NUMBERS. If one of two versions is not numeric, the second replaces the first if and
      only if it is another one and the first is not numeric. */
  lemma NewerElsewhere(have: string, want: string)
    requires Parsed(have).None? || Parsed(want).None?
    ensures Newer(have, want) <==> have != want && Parsed(have).None?
  {
    hide Parsed;
    EmptyNotNumeric();
  }

  /** SUFFIXES ARE NOT ORDERED BY. A dev build such as "0.0.0-dev" is read as the numbers it
      begins with. So of two distinct versions with a suffix the second replaces
      the first if and only if the first one's core is not numeric, or both
      cores are and the second is the higher. */
  lemma SuffixIgnored(core: string, mark: char, suffix: string, core': string, mark': char, suffix': string)
    requires PlainVersion(core) && IsMark(mark) && PlainVersion(core') && IsMark(mark')
    ensures var have, want := core + [mark] + suffix, core' + [mark'] + suffix';
            have != want ==>
              (Newer(have, want) <==>
                 Parsed(core).None? || (Parsed(core').Some? && LexLess(Parsed(core).value, Parsed(core').value)))
  {
    hide Parsed;
    SuffixNotRead(core, mark, suffix);
    SuffixNotRead(core', mark', suffix');
    assert |core + [mark] + suffix| > 0;
  }

  /** Two dev builds, of which neither replaces the other. */
  lemma DevBuildsStay()
    ensures !Newer("0.0.0-dev", "0.0.0-dirty") && !Newer("0.0.0-dirty", "0.0.0-dev")
  {
    hide Parsed, Newer;
    assert "0.0.0-dev" == "0.0.0" + ['-'] + "dev" && "0.0.0-dirty" == "0.0.0" + ['-'] + "dirty";
    ThreeZeros();
    SuffixIgnored("0.0.0", '-', "dev", "0.0.0", '-', "dirty");
    SuffixIgnored("0.0.0", '-', "dirty", "0.0.0", '-', "dev");
  }

  lemma ThreeZeros()
    ensures Parsed("0.0.0").Some?
  {
    var zeros := ["0", "0", "0"];
    assert Decimal(0) == "0" && Numbers([0, 0, 0]) == zeros;
    assert zeros[1..] == ["0", "0"] && zeros[1..][1..] == ["0"];
    assert Dotted(zeros[1..][1..]) == "0" && Dotted(zeros[1..]) == "0.0" && Dotted(zeros) == "0.0.0";
    hide Parsed, Dotted;
    ReadsNumbers([], false, [0, 0, 0], []);
    assert [] + "" + "0.0.0" + [] == "0.0.0";
  }

  /** A version of a single digit is numeric, and these are ordered as digits. */
  lemma OneDigit(d: char)
    requires '0' <= d <= '9'
    ensures Parsed([d]) == Some([d as int - '0' as int, 0, 0])
  {
    var n: nat := d as int - '0' as int;
    assert Decimal(n) == [d];
    assert Numbers([n]) == [[d]] && Dotted([[d]]) == [d];
    hide Parsed, Dotted;
    ReadsNumbers([], false, [n], []);
    assert [] + "" + [d] + [] == [d];
  }
}
