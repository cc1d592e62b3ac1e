/**
 * Scrubbing of captured log lines: every sensitive value, longest first, and then every gateway key
 * by its shape, is replaced by `***`.
 */
module SecretScrub {

  const MASK := "***"

  /** What one replacement pass looks for: a literal value, or `nk_` and 32 hexadecimal digits. */
  datatype Pattern = Value(text: string) | GatewayKey

  predicate IsHexDigit(c: char) {
    '0' <= c <= '9' || 'a' <= c <= 'f'
  }

  function Len(p: Pattern): nat {
    match p
    case Value(text) => |text|
    case GatewayKey => 35
  }

  predicate Hits(p: Pattern, w: string) {
    match p
    case Value(text) => w == text
    case GatewayKey => |w| == 35 && w[..3] == "nk_" && forall i :: 3 <= i < 35 ==> IsHexDigit(w[i])
  }

  /** `str.replace` and `re.sub`: leftmost first, never overlapping. */
  function Mask(s: string, p: Pattern): string
    requires Len(p) > 0
  {
    if |s| < Len(p) then s
    else if Hits(p, s[..Len(p)]) then MASK + Mask(s[Len(p)..], p)
    else [s[0]] + Mask(s[1..], p)
  }

  predicate Occurs(s: string, p: Pattern)
    requires Len(p) > 0
  {
    |s| >= Len(p) && (Hits(p, s[..Len(p)]) || Occurs(s[1..], p))
  }

  /** Three stars stand somewhere in `s`. */
  predicate HasMask(s: string) {
    exists i :: 0 <= i <= |s| - 3 && s[i] == '*' && s[i + 1] == '*' && s[i + 2] == '*'
  }

  /** No occurrence of the text can share a character with an inserted mask. */
  predicate MaskSafe(text: string) {
    text != "" && text[0] != '*' && text[|text| - 1] != '*' && !HasMask(text)
  }

  predicate Safe(p: Pattern) {
    p.Value? ==> MaskSafe(p.text)
  }

  /** A value without any star is safe. */
  lemma StarFreeIsSafe(text: string)
    requires text != "" && '*' !in text
    ensures MaskSafe(text)
  {
  }

  lemma HitsAreSafe(p: Pattern, w: string)
    requires Safe(p) && Hits(p, w)
    ensures |w| == Len(p) > 0 && MaskSafe(w)
  {
    if p.GatewayKey? {
      assert w[0] == w[..3][0] && w[1] == w[..3][1] && w[2] == w[..3][2];
    }
  }

  // --- one pass ----------------------------------------------------------------------------------

  lemma {:induction false} MaskShort(s: string, p: Pattern)
    requires Len(p) > 0 && !Occurs(s, p)
    ensures Mask(s, p) == s
    decreases |s|
  {
    if |s| >= Len(p) {
      MaskShort(s[1..], p);
    }
  }

  lemma PrefixCons(s: string, m: nat)
    requires 0 < m <= |s|
    ensures s[..m] == [s[0]] + s[1..][..m - 1] && s[..m][1..] == s[1..][..m - 1]
  {
  }

  /** A stretch of the result that shares nothing with a mask stands unchanged in the input. */
  lemma {:induction false} PrefixIsFaithful(s: string, p: Pattern, m: nat)
    requires Len(p) > 0 && m <= |Mask(s, p)|
    requires m > 0 ==> Mask(s, p)[m - 1] != '*' && !HasMask(Mask(s, p)[..m])
    ensures m <= |s| && s[..m] == Mask(s, p)[..m]
    decreases |s|
  {
    var out := Mask(s, p);
    if m == 0 || |s| < Len(p) {
    } else if Hits(p, s[..Len(p)]) {
      FrontMask(Mask(s[Len(p)..], p), m);
    } else {
      var rest := Mask(s[1..], p);
      assert out[1..] == rest;
      PrefixCons(out, m);
      if HasMask(out[..m][1..]) {
        MaskInTail(out[..m]);
      }
      PrefixIsFaithful(s[1..], p, m - 1);
      PrefixCons(s, m);
    }
  }

  lemma FrontMask(rest: string, m: nat)
    requires 0 < m <= |MASK + rest|
    ensures (MASK + rest)[m - 1] == '*' || HasMask((MASK + rest)[..m])
  {
    var w := (MASK + rest)[..m];
    assert m >= 3 ==> w[0] == '*' && w[1] == '*' && w[2] == '*';
  }

  lemma MaskInTail(s: string)
    requires s != "" && HasMask(s[1..])
    ensures HasMask(s)
  {
    var i :| 0 <= i <= |s[1..]| - 3 && s[1..][i] == '*' && s[1..][i + 1] == '*' && s[1..][i + 2] == '*';
    assert s[i + 1] == '*' && s[i + 2] == '*' && s[i + 3] == '*';
  }

  /** A safe pattern that hits at the front of the result hits at the front of the input. */
  lemma FrontHitIsOld(s: string, p: Pattern, q: Pattern)
    requires Len(p) > 0 && Safe(q) && Len(q) <= |Mask(s, p)| && Hits(q, Mask(s, p)[..Len(q)])
    ensures Len(q) <= |s| && s[..Len(q)] == Mask(s, p)[..Len(q)]
  {
    HitsAreSafe(q, Mask(s, p)[..Len(q)]);
    PrefixIsFaithful(s, p, Len(q));
  }

  lemma StarsHideNothing(rest: string, q: Pattern)
    requires Safe(q) && Len(q) > 0
    ensures Occurs(MASK + rest, q) <==> Occurs(rest, q)
    ensures Occurs("**" + rest, q) <==> Occurs(rest, q)
    ensures Occurs("*" + rest, q) <==> Occurs(rest, q)
  {
    StarHidesNothing(rest, q);
    StarHidesNothing("*" + rest, q);
    StarHidesNothing("**" + rest, q);
    assert "*" + ("*" + rest) == "**" + rest;
    assert "*" + ("**" + rest) == MASK + rest;
  }

  lemma StarHidesNothing(rest: string, q: Pattern)
    requires Safe(q) && Len(q) > 0
    ensures Occurs("*" + rest, q) <==> Occurs(rest, q)
  {
    var s := "*" + rest;
    assert s[1..] == rest;
    if |s| >= Len(q) && Hits(q, s[..Len(q)]) {
      HitsAreSafe(q, s[..Len(q)]);
    }
  }

  /** A pass for a safe value leaves no occurrence of it, and makes none of another safe value. */
  lemma {:induction false} MaskLeavesNone(s: string, p: Pattern)
    requires Safe(p) && Len(p) > 0
    ensures !Occurs(Mask(s, p), p)
    decreases |s|
  {
    if |s| >= Len(p) {
      if Hits(p, s[..Len(p)]) {
        MaskLeavesNone(s[Len(p)..], p);
        StarsHideNothing(Mask(s[Len(p)..], p), p);
      } else {
        MaskLeavesNone(s[1..], p);
        var out := Mask(s, p);
        assert out[1..] == Mask(s[1..], p);
        if |out| >= Len(p) && Hits(p, out[..Len(p)]) {
          FrontHitIsOld(s, p, p);
        }
      }
    }
  }

  lemma {:induction false} OccursInSuffix(s: string, n: nat, q: Pattern)
    requires Len(q) > 0 && n <= |s| && Occurs(s[n..], q)
    ensures Occurs(s, q)
    decreases n
  {
    if n > 0 {
      assert s[1..][n - 1..] == s[n..];
      OccursInSuffix(s[1..], n - 1, q);
    } else {
      assert s[0..] == s;
    }
  }

  lemma {:induction false} MaskAddsNone(s: string, p: Pattern, q: Pattern)
    requires Len(p) > 0 && Safe(q) && Len(q) > 0 && !Occurs(s, q)
    ensures !Occurs(Mask(s, p), q)
    decreases |s|
  {
    if |s| >= Len(p) {
      if Hits(p, s[..Len(p)]) {
        if Occurs(s[Len(p)..], q) {
          OccursInSuffix(s, Len(p), q);
        }
        MaskAddsNone(s[Len(p)..], p, q);
        StarsHideNothing(Mask(s[Len(p)..], p), q);
      } else {
        MaskAddsNone(s[1..], p, q);
        var out := Mask(s, p);
        assert out[1..] == Mask(s[1..], p);
        if |out| >= Len(q) && Hits(q, out[..Len(q)]) {
          FrontHitIsOld(s, p, q);
        }
      }
    }
  }

  // --- where the masks stand ---------------------------------------------------------------------

  /** A masked text: kept stretches, and between them the stretches of the input that masks stand for. */
  datatype Trail = End(kept: string) | Cut(kept: string, hidden: string, rest: Trail)

  function Original(t: Trail): string {
    match t
    case End(kept) => kept
    case Cut(kept, hidden, rest) => kept + (hidden + Original(rest))
  }

  function Shown(t: Trail): string {
    match t
    case End(kept) => kept
    case Cut(kept, hidden, rest) => kept + (MASK + Shown(rest))
  }

  /** Every hidden stretch is an occurrence of one of the patterns. */
  predicate HidesOnly(t: Trail, patterns: set<Pattern>) {
    t.Cut? ==> (exists p <- patterns :: Hits(p, t.hidden)) && HidesOnly(t.rest, patterns)
  }

  function AddFront(c: char, t: Trail): (r: Trail)
    ensures Original(r) == [c] + Original(t) && Shown(r) == [c] + Shown(t)
  {
    match t
    case End(kept) => End([c] + kept)
    case Cut(kept, hidden, rest) => Cut([c] + kept, hidden, rest)
  }

  function CutFront(hidden: string, t: Trail): (r: Trail)
    ensures Original(r) == hidden + Original(t) && Shown(r) == MASK + Shown(t)
  {
    Cut("", hidden, t)
  }

  /** What one pass keeps and hides. */
  function Trace(s: string, p: Pattern): (t: Trail)
    requires Len(p) > 0
    ensures Original(t) == s && Shown(t) == Mask(s, p)
    decreases |s|
  {
    if |s| < Len(p) then End(s)
    else if Hits(p, s[..Len(p)]) then
      assert s[..Len(p)] + s[Len(p)..] == s;
      CutFront(s[..Len(p)], Trace(s[Len(p)..], p))
    else
      assert [s[0]] + s[1..] == s;
      AddFront(s[0], Trace(s[1..], p))
  }

  lemma {:induction false} TraceHides(s: string, p: Pattern, patterns: set<Pattern>)
    requires Len(p) > 0 && p in patterns
    ensures HidesOnly(Trace(s, p), patterns)
    decreases |s|
  {
    if |s| >= Len(p) {
      if Hits(p, s[..Len(p)]) {
        TraceHides(s[Len(p)..], p, patterns);
      } else {
        TraceHides(s[1..], p, patterns);
      }
    }
  }

  function Glue(t: Trail, hidden: string, rest: Trail): Trail {
    match t
    case End(kept) => Cut(kept, hidden, rest)
    case Cut(kept, h, r) => Cut(kept, h, Glue(r, hidden, rest))
  }

  lemma {:induction false} GlueReads(t: Trail, hidden: string, rest: Trail)
    ensures Original(Glue(t, hidden, rest)) == Original(t) + (hidden + Original(rest))
    ensures Shown(Glue(t, hidden, rest)) == Shown(t) + (MASK + Shown(rest))
    decreases t
  {
    if t.Cut? {
      GlueReads(t.rest, hidden, rest);
      var o, w := Original(t.rest), Shown(t.rest);
      assert t.kept + (t.hidden + (o + (hidden + Original(rest)))) == t.kept + (t.hidden + o) + (hidden + Original(rest));
      assert t.kept + (MASK + (w + (MASK + Shown(rest)))) == t.kept + (MASK + w) + (MASK + Shown(rest));
    }
  }

  lemma {:induction false} GlueHides(t: Trail, hidden: string, rest: Trail, patterns: set<Pattern>)
    requires HidesOnly(t, patterns) && HidesOnly(rest, patterns) && exists p <- patterns :: Hits(p, hidden)
    ensures HidesOnly(Glue(t, hidden, rest), patterns)
    decreases t
  {
    if t.Cut? {
      GlueHides(t.rest, hidden, rest, patterns);
    }
  }

  lemma StarPasses(rest: string, p: Pattern)
    requires Safe(p) && Len(p) > 0
    ensures Mask("*" + rest, p) == "*" + Mask(rest, p)
  {
    var s := "*" + rest;
    assert s[1..] == rest;
    if |s| >= Len(p) && Hits(p, s[..Len(p)]) {
      HitsAreSafe(p, s[..Len(p)]);
    }
  }

  lemma MaskPasses(rest: string, p: Pattern)
    requires Safe(p) && Len(p) > 0
    ensures Mask(MASK + rest, p) == MASK + Mask(rest, p)
  {
    StarPasses(rest, p);
    StarPasses("*" + rest, p);
    StarPasses("*" + ("*" + rest), p);
    assert "*" + ("*" + ("*" + rest)) == MASK + rest;
    assert "*" + ("*" + ("*" + Mask(rest, p))) == MASK + Mask(rest, p);
  }

  /** A window that reaches from `a` into a mask behind it is no occurrence of a safe pattern. */
  lemma NoHitAcross(a: string, rest: string, p: Pattern)
    requires Safe(p) && |a| < Len(p) <= |a| + 3 + |rest|
    ensures !Hits(p, (a + (MASK + rest))[..Len(p)])
  {
    var s := a + (MASK + rest);
    var w := s[..Len(p)];
    var k := |a|;
    assert w[k] == '*';
    assert Len(p) >= k + 2 ==> w[k + 1] == '*';
    assert Len(p) >= k + 3 ==> w[k + 2] == '*';
    if Hits(p, w) {
      HitsAreSafe(p, w);
    }
  }

  lemma Regroup(c: char, a: string, x: string)
    ensures [c] + (a + x) == ([c] + a) + x
  {
  }

  lemma {:induction false} ShortDoesNotCross(a: string, b: string, p: Pattern)
    requires Safe(p) && |a| < Len(p)
    ensures Mask(a + (MASK + b), p) == a + (MASK + Mask(b, p))
    decreases |a|
  {
    var s := a + (MASK + b);
    if a == "" {
      assert s == MASK + b;
      MaskPasses(b, p);
      assert a + (MASK + Mask(b, p)) == MASK + Mask(b, p);
    } else if Len(p) <= |s| {
      NoHitAcross(a, b, p);
      assert s[1..] == a[1..] + (MASK + b);
      ShortDoesNotCross(a[1..], b, p);
      Regroup(s[0], a[1..], MASK + Mask(b, p));
      assert [s[0]] + a[1..] == a;
    } else {
      ShortIsKept(b, p);
      ShortIsKept(s, p);
    }
  }

  /** A pass never crosses a mask. */
  lemma {:induction false} PassesDoNotCross(a: string, b: string, p: Pattern)
    requires Safe(p) && Len(p) > 0
    ensures Mask(a + (MASK + b), p) == Mask(a, p) + (MASK + Mask(b, p))
    decreases |a|
  {
    var s := a + (MASK + b);
    if |a| < Len(p) {
      ShortDoesNotCross(a, b, p);
    } else {
      assert s[..Len(p)] == a[..Len(p)];
      if Hits(p, a[..Len(p)]) {
        assert s[Len(p)..] == a[Len(p)..] + (MASK + b);
        PassesDoNotCross(a[Len(p)..], b, p);
        assert MASK + (Mask(a[Len(p)..], p) + (MASK + Mask(b, p))) == MASK + Mask(a[Len(p)..], p) + (MASK + Mask(b, p));
      } else {
        assert s[1..] == a[1..] + (MASK + b);
        PassesDoNotCross(a[1..], b, p);
        Regroup(s[0], Mask(a[1..], p), MASK + Mask(b, p));
      }
    }
  }

  lemma ShortIsKept(b: string, p: Pattern)
    requires |b| < Len(p)
    ensures Mask(b, p) == b
  {
  }

  /** What the passes so far and one more keep and hide. */
  function Refine(t: Trail, p: Pattern): Trail
    requires Len(p) > 0
  {
    match t
    case End(kept) => Trace(kept, p)
    case Cut(kept, hidden, rest) => Glue(Trace(kept, p), hidden, Refine(rest, p))
  }

  lemma {:induction false} RefineReads(t: Trail, p: Pattern, patterns: set<Pattern>)
    requires Safe(p) && Len(p) > 0 && p in patterns && HidesOnly(t, patterns)
    ensures Original(Refine(t, p)) == Original(t) && Shown(Refine(t, p)) == Mask(Shown(t), p)
    ensures HidesOnly(Refine(t, p), patterns)
    decreases t
  {
    match t
    case End(kept) => TraceHides(kept, p, patterns);
    case Cut(kept, hidden, rest) =>
      RefineReads(rest, p, patterns);
      TraceHides(kept, p, patterns);
      GlueReads(Trace(kept, p), hidden, Refine(rest, p));
      GlueHides(Trace(kept, p), hidden, Refine(rest, p), patterns);
      PassesDoNotCross(kept, Shown(rest), p);
  }

  // --- the targets, longest first ----------------------------------------------------------------

  /** Lexical order of strings by character code. */
  predicate LexLess(a: string, b: string) {
    b != "" && (a == "" || a[0] < b[0] || (a[0] == b[0] && LexLess(a[1..], b[1..])))
  }

  /** The sort key `(-len(value), value)`. */
  predicate Precedes(a: string, b: string) {
    |a| > |b| || (|a| == |b| && LexLess(a, b))
  }

  lemma {:induction false} LexLessIsAnOrder(a: string, b: string)
    ensures !(LexLess(a, b) && LexLess(b, a))
    ensures LexLess(a, b) || LexLess(b, a) || a == b
    decreases |a|
  {
    if a != "" && b != "" {
      LexLessIsAnOrder(a[1..], b[1..]);
      assert a == [a[0]] + a[1..] && b == [b[0]] + b[1..];
    }
  }

  lemma {:induction false} LexLessIsTransitive(a: string, b: string, c: string)
    requires LexLess(a, b) && LexLess(b, c)
    ensures LexLess(a, c)
    decreases |a|
  {
    if a != "" && a[0] == b[0] && b[0] == c[0] {
      LexLessIsTransitive(a[1..], b[1..], c[1..]);
    }
  }

  predicate Sorted(targets: seq<string>) {
    forall i, j :: 0 <= i < j < |targets| ==> Precedes(targets[i], targets[j])
  }

  function Insert(value: string, targets: seq<string>): seq<string> {
    if targets == [] then [value]
    else if value == targets[0] then targets
    else if Precedes(value, targets[0]) then [value] + targets
    else [targets[0]] + Insert(value, targets[1..])
  }

  /** The nonempty values, each once, longest first, ties in lexical order. */
  function Targets(values: seq<string>): seq<string> {
    if values == [] then []
    else if values[0] == "" then Targets(values[1..])
    else Insert(values[0], Targets(values[1..]))
  }

  lemma {:induction false} InsertSorts(value: string, targets: seq<string>)
    requires Sorted(targets)
    ensures Sorted(Insert(value, targets))
    ensures forall t :: t in Insert(value, targets) <==> t == value || t in targets
    decreases |targets|
  {
    if targets != [] && value != targets[0] {
      var first, rest := targets[0], targets[1..];
      LexLessIsAnOrder(value, first);
      assert targets == [first] + rest;
      if Precedes(value, first) {
        forall i, j | 0 <= i < j < |targets| + 1
          ensures Precedes(([value] + targets)[i], ([value] + targets)[j])
        {
          if i == 0 && j > 1 && |value| == |targets[j - 1]| {
            LexLessIsTransitive(value, first, targets[j - 1]);
          }
        }
      } else {
        InsertSorts(value, rest);
        forall t | t in Insert(value, rest)
          ensures Precedes(first, t)
        {
          if t in rest {
            var j :| 0 <= j < |rest| && rest[j] == t;
            assert targets[j + 1] == t;
          }
        }
      }
    }
  }

  lemma {:induction false} TargetsAreTheValues(values: seq<string>)
    ensures Sorted(Targets(values))
    ensures forall t :: t in Targets(values) <==> t in values && t != ""
    decreases |values|
  {
    if values != [] {
      TargetsAreTheValues(values[1..]);
      assert values == [values[0]] + values[1..];
      if values[0] != "" {
        InsertSorts(values[0], Targets(values[1..]));
      }
    }
  }

  lemma FirstIsLeast(targets: seq<string>, t: string)
    requires Sorted(targets) && t in targets
    ensures t == targets[0] || Precedes(targets[0], t)
  {
  }

  lemma {:induction false} SortedIsUnique(a: seq<string>, b: seq<string>)
    requires Sorted(a) && Sorted(b) && forall t :: t in a <==> t in b
    ensures a == b
    decreases |a|
  {
    SameEmptiness(a, b);
    if a != [] {
      assert a[0] in a && a[0] in b && b[0] in b;
      FirstIsLeast(a, b[0]);
      FirstIsLeast(b, a[0]);
      LexLessIsAnOrder(a[0], b[0]);
      forall t
        ensures t in a[1..] <==> t in b[1..]
      {
        TailDropsFirst(a, t);
        TailDropsFirst(b, t);
      }
      SortedIsUnique(a[1..], b[1..]);
      assert a == [a[0]] + a[1..] && b == [b[0]] + b[1..];
    }
  }

  lemma SameEmptiness(a: seq<string>, b: seq<string>)
    requires forall t :: t in a <==> t in b
    ensures a == [] <==> b == []
  {
    assert a != [] ==> a[0] in a;
    assert b != [] ==> b[0] in b;
  }

  lemma TailDropsFirst(a: seq<string>, t: string)
    requires Sorted(a) && a != []
    ensures t in a[1..] <==> t in a && t != a[0]
  {
    assert a == [a[0]] + a[1..];
    LexLessIsAnOrder(a[0], a[0]);
    if t in a[1..] {
      var j :| 1 <= j < |a| && a[j] == t;
      assert Precedes(a[0], a[j]);
    }
  }

  /** The targets depend on which values there are, not on the order or number of times they came in. */
  lemma TargetsIgnoreOrder(a: seq<string>, b: seq<string>)
    requires forall t :: t in a <==> t in b
    ensures Targets(a) == Targets(b)
  {
    TargetsAreTheValues(a);
    TargetsAreTheValues(b);
    SortedIsUnique(Targets(a), Targets(b));
  }

  // --- a line ------------------------------------------------------------------------------------

  function MaskValues(line: string, targets: seq<string>): string
    decreases |targets|
  {
    if targets == [] then line
    else MaskValues(if targets[0] == "" then line else Mask(line, Value(targets[0])), targets[1..])
  }

  function ScrubLine(line: string, targets: seq<string>): string {
    Mask(MaskValues(line, targets), GatewayKey)
  }

  predicate StandsAt(s: string, text: string, i: int) {
    0 <= i <= |s| - |text| && s[i..i + |text|] == text
  }

  predicate Contains(s: string, text: string) {
    exists i :: 0 <= i <= |s| && StandsAt(s, text, i)
  }

  lemma {:induction false} OccursMeansContains(s: string, text: string)
    requires text != ""
    ensures Occurs(s, Value(text)) <==> Contains(s, text)
    decreases |s|
  {
    var n := |text|;
    if |s| >= n {
      OccursMeansContains(s[1..], text);
      assert s[0..n] == s[..n];
      forall i | 0 <= i <= |s[1..]|
        ensures StandsAt(s[1..], text, i) <==> StandsAt(s, text, i + 1)
      {
        if i + n <= |s[1..]| {
          assert s[i + 1..i + 1 + n] == s[1..][i..i + n];
        }
      }
      assert StandsAt(s, text, 0) <==> s[..n] == text;
      if Contains(s, text) && s[..n] != text {
        var i :| 0 <= i <= |s| && StandsAt(s, text, i);
        assert StandsAt(s[1..], text, i - 1);
      }
    }
  }

  lemma {:induction false} MaskValuesLeaveNone(line: string, targets: seq<string>, q: Pattern)
    requires Safe(q) && Len(q) > 0 && forall t <- targets :: t != ""
    requires !Occurs(line, q) || (q.Value? && q.text in targets)
    ensures !Occurs(MaskValues(line, targets), q)
    decreases |targets|
  {
    if targets != [] {
      var p := Value(targets[0]);
      assert targets[0] in targets && forall t <- targets[1..] :: t in targets;
      assert targets == [targets[0]] + targets[1..];
      if q == p {
        MaskLeavesNone(line, p);
      } else if !Occurs(line, q) {
        MaskAddsNone(line, p, q);
      }
      MaskValuesLeaveNone(Mask(line, p), targets[1..], q);
    }
  }

  /** No gateway key is left in a scrubbed line, and no mask-safe value, whatever the other values are. */
  lemma NothingSurvives(line: string, values: seq<string>)
    ensures forall v <- values :: v != "" && MaskSafe(v) ==> !Contains(ScrubLine(line, Targets(values)), v)
    ensures !Occurs(ScrubLine(line, Targets(values)), GatewayKey)
  {
    var targets := Targets(values);
    TargetsAreTheValues(values);
    MaskLeavesNone(MaskValues(line, targets), GatewayKey);
    forall v | v in values && v != "" && MaskSafe(v)
      ensures !Contains(ScrubLine(line, targets), v)
    {
      MaskValuesLeaveNone(line, targets, Value(v));
      MaskAddsNone(MaskValues(line, targets), GatewayKey, Value(v));
      OccursMeansContains(ScrubLine(line, targets), v);
    }
  }

  lemma {:induction false} MaskValuesTrail(t: Trail, targets: seq<string>, patterns: set<Pattern>) returns (r: Trail)
    requires forall v <- targets :: MaskSafe(v) && Value(v) in patterns
    requires HidesOnly(t, patterns)
    ensures Original(r) == Original(t) && Shown(r) == MaskValues(Shown(t), targets) && HidesOnly(r, patterns)
    decreases |targets|
  {
    r := t;
    if targets != [] {
      assert MaskSafe(targets[0]) && Value(targets[0]) in patterns;
      RefineReads(t, Value(targets[0]), patterns);
      r := MaskValuesTrail(Refine(t, Value(targets[0])), targets[1..], patterns);
    }
  }

  function Patterns(values: seq<string>): set<Pattern> {
    (set v <- values :: Value(v)) + {GatewayKey}
  }

  /**
   * A scrubbed line is the line with disjoint stretches replaced by masks, each of them exactly a
   * value or a gateway key.
   */
  lemma OnlySecretsAreMasked(line: string, values: seq<string>) returns (t: Trail)
    requires forall v <- values :: v != "" ==> MaskSafe(v)
    ensures Original(t) == line && Shown(t) == ScrubLine(line, Targets(values))
    ensures HidesOnly(t, Patterns(values))
  {
    TargetsAreTheValues(values);
    t := MaskValuesTrail(End(line), Targets(values), Patterns(values));
    RefineReads(t, GatewayKey, Patterns(values));
    t := Refine(t, GatewayKey);
  }

  method ScrubSecretValues(lines: seq<string>, values: seq<string>) returns (scrubbed: seq<string>)
    ensures |scrubbed| == |lines|
    ensures forall i :: 0 <= i < |lines| ==> scrubbed[i] == ScrubLine(lines[i], Targets(values))
  {
    var targets := Targets(values);
    TargetsAreTheValues(values);
    scrubbed := [];
    for i := 0 to |lines|
      invariant |scrubbed| == i
      invariant forall j :: 0 <= j < i ==> scrubbed[j] == ScrubLine(lines[j], targets)
    {
      var masked := lines[i];
      assert targets[0..] == targets;
      for k := 0 to |targets|
        invariant MaskValues(masked, targets[k..]) == MaskValues(lines[i], targets)
      {
        assert targets[k] in targets && targets[k..][1..] == targets[k + 1..];
        masked := Mask(masked, Value(targets[k]));
      }
      assert targets[|targets|..] == [];
      scrubbed := scrubbed + [Mask(masked, GatewayKey)];
    }
  }

  // --- exactly which values are always masked ------------------------------------------------------

  lemma StandsInTail(line: string, v: string, i: nat)
    requires line != ""
    ensures StandsAt(line[1..], v, i) <==> StandsAt(line, v, i + 1)
  {
    assert i + |v| <= |line[1..]| ==> line[1..][i..i + |v|] == line[i + 1..i + 1 + |v|];
  }

  lemma StandsFirst(line: string, v: string)
    ensures StandsAt(line, v, 0) <==> |v| <= |line| && line[..|v|] == v
  {
    assert |v| <= |line| ==> line[0..|v|] == line[..|v|];
  }

  /** One step of the pass, at an occurrence and elsewhere. */
  lemma MaskStep(line: string, v: string)
    requires 0 < |v| <= |line|
    ensures StandsAt(line, v, 0) ==> Mask(line, Value(v)) == MASK + Mask(line[|v|..], Value(v))
    ensures !StandsAt(line, v, 0) ==> Mask(line, Value(v)) == [line[0]] + Mask(line[1..], Value(v))
  {
    StandsFirst(line, v);
  }

  predicate StandsFirstAt(line: string, v: string, k: nat) {
    StandsAt(line, v, k) && forall i :: 0 <= i < k ==> !StandsAt(line, v, i)
  }

  lemma FirstInTail(line: string, v: string, k: nat)
    requires k > 0 && StandsFirstAt(line, v, k)
    ensures line != "" && !StandsAt(line, v, 0) && StandsFirstAt(line[1..], v, k - 1)
  {
    forall i | 0 <= i < k
      ensures StandsAt(line[1..], v, i) <==> StandsAt(line, v, i + 1)
    {
      StandsInTail(line, v, i);
    }
  }

  lemma OneMoreKept(line: string, out: string, kept: string, rest: string, k: nat)
    requires 0 < k <= |line| && out == [line[0]] + kept && kept == line[1..k] + rest
    ensures out == line[..k] + rest
  {
    assert [line[0]] + line[1..k] == line[..k];
  }

  /** Up to the first occurrence the pass keeps everything. */
  lemma {:induction false} KeepsUpTo(line: string, v: string, k: nat)
    requires v != "" && StandsFirstAt(line, v, k)
    ensures Mask(line, Value(v)) == line[..k] + Mask(line[k..], Value(v))
    decreases k
  {
    if k == 0 {
      NothingBefore(line, Mask(line, Value(v)));
      assert line[0..] == line;
    } else {
      var rest := line[1..];
      FirstInTail(line, v, k);
      KeepsUpTo(rest, v, k - 1);
      assert rest[..k - 1] == line[1..k] && rest[k - 1..] == line[k..];
      MaskStep(line, v);
      OneMoreKept(line, Mask(line, Value(v)), Mask(rest, Value(v)), Mask(line[k..], Value(v)), k);
    }
  }

  /** The pass replaces the first occurrence and goes on behind it. */
  lemma FirstOccurrence(line: string, v: string, k: nat)
    requires v != "" && StandsFirstAt(line, v, k)
    ensures Mask(line, Value(v)) == line[..k] + (MASK + Mask(line[k + |v|..], Value(v)))
  {
    KeepsUpTo(line, v, k);
    assert line[k..][0..|v|] == line[k..k + |v|] && line[k..][|v|..] == line[k + |v|..];
    MaskStep(line[k..], v);
  }

  lemma NothingBefore(line: string, x: string)
    ensures line[..0] + x == x
  {
  }

  lemma Inside(a: string, v: string, b: string, i: nat)
    requires i < |v|
    ensures (a + (v + b))[|a| + i] == v[i]
  {
  }

  lemma StandsInside(a: string, v: string, b: string)
    ensures StandsAt(a + (v + b), v, |a|) && (a + (v + b))[|a| + |v|..] == b && (a + (v + b))[..|a|] == a
  {
    assert (a + (v + b))[|a|..|a| + |v|] == v;
  }

  /** The line on which a value that is not safe comes back. */
  function Witness(v: string): string
    requires v != "" && !MaskSafe(v)
  {
    if v[0] == '*' then v + v[1..]
    else if v[|v| - 1] == '*' then v[..|v| - 1] + (v + "")
    else
      var k := FirstMask(v);
      v[..k] + (v + v[k + 3..])
  }

  function FirstMask(v: string): (k: nat)
    requires HasMask(v)
    ensures Stars(v, k) && forall i :: 0 <= i < k ==> !Stars(v, i)
  {
    if Stars(v, 0) then 0
    else
      assert HasMask(v[1..]) by {
        var i :| 0 <= i <= |v| - 3 && v[i] == '*' && v[i + 1] == '*' && v[i + 2] == '*';
        assert Stars(v, i) && v[1..][i - 1] == '*' && v[1..][i] == '*' && v[1..][i + 1] == '*';
      }
      assert forall i :: 1 <= i <= |v| ==> (Stars(v, i) <==> Stars(v[1..], i - 1));
      FirstMask(v[1..]) + 1
  }

  /** A value that starts with a star comes back out of the mask before the rest of it. */
  lemma LeadingStarReturns(v: string)
    requires v != "" && v[0] == '*'
    ensures Mask(v + v[1..], Value(v)) == MASK + v[1..]
    ensures Contains(MASK + v[1..], v)
  {
    var line := v + v[1..];
    assert line[..|v|] == v && line[|v|..] == v[1..];
    ShortIsKept(v[1..], Value(v));
    var out := MASK + v[1..];
    assert out[2..2 + |v|] == v;
    assert StandsAt(out, v, 2);
  }

  lemma StandsChar(line: string, v: string, i: nat, j: nat)
    requires StandsAt(line, v, i) && j < |v|
    ensures line[i + j] == v[j]
  {
    assert line[i..i + |v|][j] == line[i + j];
  }

  /** An occurrence before the last copy would make both ends of `v` the same character. */
  lemma NoneBeforeTheLast(v: string, i: nat)
    requires v != "" && v[0] != v[|v| - 1] && i < |v| - 1
    ensures !StandsAt(v[..|v| - 1] + (v + ""), v, i)
  {
    var k := |v| - 1;
    var line := v[..k] + (v + "");
    Inside(v[..k], v, "", i);
    assert line[i] == v[i] && line[i + k] == v[i];
    if StandsAt(line, v, i) {
      StandsChar(line, v, i, 0);
      StandsChar(line, v, i, k);
    }
  }

  lemma TrailingStarReturns(v: string)
    requires v != "" && v[0] != '*' && v[|v| - 1] == '*'
    ensures Mask(v[..|v| - 1] + (v + ""), Value(v)) == v[..|v| - 1] + MASK
    ensures Contains(v[..|v| - 1] + MASK, v)
  {
    var k := |v| - 1;
    StandsInside(v[..k], v, "");
    forall i | 0 <= i < k
      ensures !StandsAt(v[..k] + (v + ""), v, i)
    {
      NoneBeforeTheLast(v, i);
    }
    FirstOccurrence(v[..k] + (v + ""), v, k);
    NothingBehindMask(v[..k]);
    StartsMask(v);
  }

  lemma NothingBehindMask(a: string)
    ensures a + (MASK + "") == a + MASK
  {
  }

  lemma StartsMask(v: string)
    requires v != "" && v[|v| - 1] == '*'
    ensures Contains(v[..|v| - 1] + MASK, v)
  {
    var out := v[..|v| - 1] + MASK;
    assert out[0..0 + |v|] == v;
    assert StandsAt(out, v, 0);
  }

  predicate Stars(v: string, i: nat) {
    i + 3 <= |v| && v[i] == '*' && v[i + 1] == '*' && v[i + 2] == '*'
  }

  /** An occurrence before the middle copy would need three stars where that line has none. */
  lemma NoneBeforeTheMiddle(v: string, b: string, k: nat, i: nat)
    requires Stars(v, k) && !Stars(v, i) && i < k
    ensures !StandsAt(v[..k] + (v + b), v, i)
  {
    var line := v[..k] + (v + b);
    Inside(v[..k], v, b, i);
    Inside(v[..k], v, b, i + 1);
    Inside(v[..k], v, b, i + 2);
    assert !Stars(line, k + i);
    if StandsAt(line, v, i) {
      StandsStars(line, v, i, k);
    }
  }

  lemma StandsStars(line: string, v: string, i: nat, k: nat)
    requires StandsAt(line, v, i) && Stars(v, k)
    ensures Stars(line, k + i)
  {
    StandsChar(line, v, i, k);
    StandsChar(line, v, i, k + 1);
    StandsChar(line, v, i, k + 2);
  }

  lemma InnerMaskReturns(v: string, k: nat)
    requires Stars(v, k) && forall i :: 0 <= i < k ==> !Stars(v, i)
    ensures Mask(v[..k] + (v + v[k + 3..]), Value(v)) == v
  {
    var b := v[k + 3..];
    StandsInside(v[..k], v, b);
    forall i | 0 <= i < k
      ensures !StandsAt(v[..k] + (v + b), v, i)
    {
      NoneBeforeTheMiddle(v, b, k, i);
    }
    FirstOccurrence(v[..k] + (v + b), v, k);
    ShortIsKept(b, Value(v));
    MiddleStars(v, k);
  }

  lemma MiddleStars(v: string, k: nat)
    requires Stars(v, k)
    ensures v[..k] + (MASK + v[k + 3..]) == v
  {
  }

  lemma {:induction false} NoKeyIn(s: string, n: nat)
    requires n <= |s| && !Occurs(s, GatewayKey)
    ensures !Occurs(s[n..], GatewayKey)
  {
    if Occurs(s[n..], GatewayKey) {
      OccursInSuffix(s, n, GatewayKey);
    }
  }

  lemma {:induction false} NoKeyInPrefix(s: string, n: nat)
    requires n <= |s| && !Occurs(s, GatewayKey)
    ensures !Occurs(s[..n], GatewayKey)
    decreases |s|
  {
    if n >= 35 {
      assert s[..n][..35] == s[..35] && s[..n][1..] == s[1..][..n - 1];
      NoKeyInPrefix(s[1..], n - 1);
    }
  }

  lemma {:induction false} NoKeyBeforeMask(a: string)
    requires !Occurs(a, GatewayKey)
    ensures !Occurs(a + MASK, GatewayKey)
    decreases |a|
  {
    if a == "" {
      assert a + MASK == MASK;
    } else {
      var s := a + MASK;
      assert s[1..] == a[1..] + MASK;
      if |a| >= 35 {
        assert s[..35] == a[..35];
        NoKeyBeforeMask(a[1..]);
      } else {
        NoKeyIn(a, 1);
        NoKeyBeforeMask(a[1..]);
        if |s| >= 35 {
          assert MASK + "" == MASK;
          NoHitAcross(a, "", GatewayKey);
        }
      }
    }
  }

  /** On its witness line, a value that is not safe and holds no gateway key is still there after the scrub. */
  lemma UnsafeValueSurvives(v: string)
    requires v != "" && !MaskSafe(v) && !Occurs(v, GatewayKey)
    ensures Contains(ScrubLine(Witness(v), [v]), v)
  {
    var masked := Mask(Witness(v), Value(v));
    assert [v][1..] == [] && MaskValues(Witness(v), [v]) == masked;
    if v[0] == '*' {
      LeadingStarSurvives(v);
    } else if v[|v| - 1] == '*' {
      TrailingStarSurvives(v);
    } else {
      InnerMaskReturns(v, FirstMask(v));
      ContainsItself(v);
    }
    MaskShort(masked, GatewayKey);
  }

  lemma LeadingStarSurvives(v: string)
    requires v != "" && v[0] == '*' && !MaskSafe(v) && !Occurs(v, GatewayKey)
    ensures Contains(Mask(Witness(v), Value(v)), v) && !Occurs(Mask(Witness(v), Value(v)), GatewayKey)
  {
    LeadingStarReturns(v);
    NoKeyAfterMask(v);
  }

  lemma TrailingStarSurvives(v: string)
    requires v != "" && v[0] != '*' && v[|v| - 1] == '*' && !MaskSafe(v) && !Occurs(v, GatewayKey)
    ensures Contains(Mask(Witness(v), Value(v)), v) && !Occurs(Mask(Witness(v), Value(v)), GatewayKey)
  {
    TrailingStarReturns(v);
    NoKeyInPrefix(v, |v| - 1);
    NoKeyBeforeMask(v[..|v| - 1]);
  }

  lemma NoKeyAfterMask(v: string)
    requires v != "" && !Occurs(v, GatewayKey)
    ensures !Occurs(MASK + v[1..], GatewayKey)
  {
    NoKeyIn(v, 1);
    StarsHideNothing(v[1..], GatewayKey);
  }

  lemma ContainsItself(v: string)
    ensures Contains(v, v)
  {
    assert v[0..|v|] == v && StandsAt(v, v, 0);
  }

  /**
   * A single value is gone from every scrubbed line exactly when it neither starts nor ends with a
   * star nor has three in a row inside, or holds a gateway key, which never survives.
   */
  lemma ScrubIsReliableExactlyWhen(v: string)
    requires v != ""
    ensures (forall line :: !Contains(ScrubLine(line, [v]), v)) <==> MaskSafe(v) || Occurs(v, GatewayKey)
  {
    if MaskSafe(v) {
      forall line
        ensures !Contains(ScrubLine(line, [v]), v)
      {
        NothingSurvives(line, [v]);
        assert v in [v] && Targets([v]) == [v];
      }
    } else if Occurs(v, GatewayKey) {
      forall line
        ensures !Contains(ScrubLine(line, [v]), v)
      {
        MaskLeavesNone(MaskValues(line, [v]), GatewayKey);
        KeyInside(ScrubLine(line, [v]), v);
      }
    } else {
      UnsafeValueSurvives(v);
    }
  }

  lemma {:induction false} OccursInside(s: string, m: nat, p: Pattern)
    requires Len(p) > 0 && m <= |s| && Occurs(s[..m], p)
    ensures Occurs(s, p)
    decreases |s|
  {
    assert s[..m][..Len(p)] == s[..Len(p)];
    if !Hits(p, s[..Len(p)]) {
      assert s[..m][1..] == s[1..][..m - 1];
      OccursInside(s[1..], m - 1, p);
    }
  }

  /** A text without a gateway key contains no value that has one. */
  lemma KeyInside(s: string, v: string)
    requires !Occurs(s, GatewayKey) && Occurs(v, GatewayKey)
    ensures !Contains(s, v)
  {
    if Contains(s, v) {
      var i :| 0 <= i <= |s| && StandsAt(s, v, i);
      assert s[i..][..|v|] == v;
      OccursInside(s[i..], |v|, GatewayKey);
      OccursInSuffix(s, i, GatewayKey);
    }
  }
}
