/**
 * What a Node version range means: the comparators an operator and a partial version turn into,
 * against the set of versions they stand for. Versions are compared component by component, as
 * section 11 of Semantic Versioning 2.0.0 orders releases.
 */
module NodeRanges {
  import opened Common

  datatype Version = Version(major: nat, minor: nat, patch: nat)
  {
    function Part(i: nat): nat
      requires i < 3
    {
      if i == 0 then major else if i == 1 then minor else patch
    }
  }

  datatype Operator = Bare | Equal | AtLeast | AtMost | Above | Below | Caret | Tilde

  /** What a single test compares a version with. */
  datatype Test = Is | NotBelow | NotAbove | After | Before

  datatype Comparator = Comparator(test: Test, bound: Version)

  predicate LessEq(a: Version, b: Version) {
    a.major < b.major
    || (a.major == b.major && (a.minor < b.minor || (a.minor == b.minor && a.patch <= b.patch)))
  }

  predicate Less(a: Version, b: Version) {
    LessEq(a, b) && a != b
  }

  // --- the comparators ---------------------------------------------------------------------

  function Padded(given: seq<nat>): Version {
    Version(if |given| > 0 then given[0] else 0, if |given| > 1 then given[1] else 0, if |given| > 2 then given[2] else 0)
  }

  /** The first version past the block of versions that share the leading `precision` components. */
  function Upper(v: Version, precision: nat): Version
    requires 1 <= precision <= 3
  {
    if precision == 1 then Version(v.major + 1, 0, 0)
    else if precision == 2 then Version(v.major, v.minor + 1, 0)
    else Version(v.major, v.minor, v.patch + 1)
  }

  function FirstNonzero(v: Version, otherwise: nat): nat {
    if v.major != 0 then 1 else if v.minor != 0 then 2 else if v.patch != 0 then 3 else otherwise
  }

  function Comparators(op: Operator, given: seq<nat>): Option<seq<Comparator>>
    requires |given| <= 3
  {
    var v := Padded(given);
    var n := |given|;
    if n == 0 then
      if op.Bare? || op.Equal? || op.Tilde? || op.Caret? then Some([]) else None
    else match op
      case Bare => Some(if n == 3 then [Comparator(Is, v)] else [Comparator(NotBelow, v), Comparator(Before, Upper(v, n))])
      case Equal => Some(if n == 3 then [Comparator(Is, v)] else [Comparator(NotBelow, v), Comparator(Before, Upper(v, n))])
      case Tilde => Some([Comparator(NotBelow, v), Comparator(Before, Upper(v, if n < 2 then n else 2))])
      case Caret => Some([Comparator(NotBelow, v), Comparator(Before, Upper(v, FirstNonzero(v, n)))])
      case Above => Some([if n < 3 then Comparator(NotBelow, Upper(v, n)) else Comparator(After, v)])
      case AtMost => Some([if n < 3 then Comparator(Before, Upper(v, n)) else Comparator(NotAbove, v)])
      case AtLeast => Some([Comparator(NotBelow, v)])
      case Below => Some([Comparator(Before, v)])
  }

  predicate Passes(v: Version, c: Comparator) {
    match c.test
    case Is => v == c.bound
    case NotBelow => LessEq(c.bound, v)
    case NotAbove => LessEq(v, c.bound)
    case After => Less(c.bound, v)
    case Before => Less(v, c.bound)
  }

  predicate PassesAll(v: Version, branch: seq<Comparator>) {
    forall c <- branch :: Passes(v, c)
  }

  predicate PassesAny(v: Version, alternatives: seq<seq<Comparator>>) {
    exists branch <- alternatives :: PassesAll(v, branch)
  }

  // --- what they stand for -------------------------------------------------------------------

  /** `v` agrees with the components that were given, up to the first `k`. */
  predicate Agrees(v: Version, given: seq<nat>, k: nat) {
    forall i :: 0 <= i < k && i < |given| && i < 3 ==> v.Part(i) == given[i]
  }

  /** `v` belongs to the block of versions a partial version stands for. */
  predicate InBlock(v: Version, given: seq<nat>) {
    Agrees(v, given, 3)
  }

  /** How many leading components a caret holds fixed: up to the first nonzero one, else all given. */
  function CaretLength(given: seq<nat>): (k: nat)
    requires |given| <= 3
    ensures k <= |given|
    ensures forall i :: 0 <= i < k - 1 ==> given[i] == 0
    ensures k < |given| ==> k > 0 && given[k - 1] != 0
  {
    if given == [] then 0
    else if given[0] != 0 then 1
    else if |given| == 1 then 1
    else if given[1] != 0 then 2
    else |given|
  }

  /** The meaning of an operator applied to a partial version, in terms of its block. */
  ghost predicate Means(op: Operator, given: seq<nat>, v: Version)
    requires |given| <= 3
  {
    match op
    case Bare => InBlock(v, given)
    case Equal => InBlock(v, given)
    case Above => forall w :: InBlock(w, given) ==> Less(w, v)
    case AtMost => exists w :: InBlock(w, given) && LessEq(v, w)
    case AtLeast => exists w :: InBlock(w, given) && LessEq(w, v)
    case Below => forall w :: InBlock(w, given) ==> Less(v, w)
    case Tilde => (exists w :: InBlock(w, given) && LessEq(w, v)) && Agrees(v, given, 2)
    case Caret => (exists w :: InBlock(w, given) && LessEq(w, v)) && Agrees(v, given, CaretLength(given))
  }

  /** The padded version is the least of its block. */
  lemma PaddedIsLeast(given: seq<nat>, w: Version)
    requires |given| <= 3
    ensures InBlock(Padded(given), given)
    ensures InBlock(w, given) ==> LessEq(Padded(given), w)
  {
    if InBlock(w, given) {
      assert |given| > 0 ==> w.Part(0) == given[0];
      assert |given| > 1 ==> w.Part(1) == given[1];
      assert |given| > 2 ==> w.Part(2) == given[2];
    }
  }

  /** Below `Upper`, and not below the padded version, is agreement on the first `k` components. */
  lemma BelowUpperAgrees(given: seq<nat>, k: nat, v: Version)
    requires 1 <= k <= |given| <= 3 && LessEq(Padded(given), v)
    ensures Less(v, Upper(Padded(given), k)) <==> Agrees(v, given, k)
  {
    if Agrees(v, given, k) {
      assert v.Part(0) == given[0];
      assert k > 1 ==> v.Part(1) == given[1];
      assert k > 2 ==> v.Part(2) == given[2];
    }
  }

  /** Past the whole block of a partial version is not below its `Upper`. */
  lemma UpperIsPastTheBlock(given: seq<nat>, v: Version)
    requires 1 <= |given| <= 3
    ensures LessEq(Upper(Padded(given), |given|), v) <==> forall w :: InBlock(w, given) ==> Less(w, v)
  {
    var low, n := Padded(given), |given|;
    if LessEq(Upper(low, n), v) {
      forall w | InBlock(w, given)
        ensures Less(w, v)
      {
        PaddedIsLeast(given, w);
        BelowUpperAgrees(given, n, w);
      }
    } else if LessEq(low, v) {
      BelowUpperAgrees(given, n, v);
      assert InBlock(v, given) && !Less(v, v);
    } else {
      PaddedIsLeast(given, low);
      assert InBlock(low, given) && !Less(low, v);
    }
  }

  lemma SomeBelow(given: seq<nat>, v: Version)
    requires |given| <= 3
    ensures LessEq(Padded(given), v) <==> exists w :: InBlock(w, given) && LessEq(w, v)
  {
    PaddedIsLeast(given, Padded(given));
    if exists w :: InBlock(w, given) && LessEq(w, v) {
      var w :| InBlock(w, given) && LessEq(w, v);
      PaddedIsLeast(given, w);
    }
  }

  lemma AllAbove(given: seq<nat>, v: Version)
    requires |given| <= 3
    ensures Less(v, Padded(given)) <==> forall w :: InBlock(w, given) ==> Less(v, w)
  {
    PaddedIsLeast(given, Padded(given));
    if Less(v, Padded(given)) {
      forall w | InBlock(w, given)
        ensures Less(v, w)
      {
        PaddedIsLeast(given, w);
      }
    }
  }

  /** Being in the block is passing the two tests, or the one test of a full version. */
  lemma BlockIsAnInterval(given: seq<nat>, v: Version)
    requires 1 <= |given| <= 3
    ensures InBlock(v, given) <==> LessEq(Padded(given), v) && Less(v, Upper(Padded(given), |given|))
    ensures |given| == 3 ==> (InBlock(v, given) <==> v == Padded(given))
  {
    PaddedIsLeast(given, v);
    if LessEq(Padded(given), v) {
      BelowUpperAgrees(given, |given|, v);
    }
    if |given| == 3 && InBlock(v, given) {
      assert v.Part(0) == given[0] && v.Part(1) == given[1] && v.Part(2) == given[2];
    }
  }

  lemma CaretCode(given: seq<nat>)
    requires 1 <= |given| <= 3
    ensures 1 <= FirstNonzero(Padded(given), |given|) == CaretLength(given) <= |given|
  {
  }

  lemma AtMostMeans(given: seq<nat>, v: Version)
    requires 1 <= |given| <= 3
    ensures Less(v, Upper(Padded(given), |given|)) <==> exists w :: InBlock(w, given) && LessEq(v, w)
  {
    UpperIsPastTheBlock(given, v);
    if exists w :: InBlock(w, given) && LessEq(v, w) {
      var w :| InBlock(w, given) && LessEq(v, w);
      assert !Less(w, v);
    } else {
      forall w | InBlock(w, given)
        ensures Less(w, v)
      {
        assert !LessEq(v, w);
      }
    }
  }

  lemma TestsOfTwo(v: Version, a: Comparator, b: Comparator)
    ensures PassesAll(v, [a, b]) <==> Passes(v, a) && Passes(v, b)
    ensures PassesAll(v, [a]) <==> Passes(v, a)
    ensures PassesAll(v, [])
  {
    assert [a, b][0] == a && [a, b][1] == b && [a][0] == a;
  }

  /**
   * For every operator, every partial version of any naturals and every version: the comparators
   * the code builds are passed exactly by the versions the range stands for.
   */
  lemma ComparatorsMeanTheRange(op: Operator, given: seq<nat>, v: Version)
    requires |given| <= 3 && Comparators(op, given).Some?
    ensures PassesAll(v, Comparators(op, given).value) <==> Means(op, given, v)
  {
    var low, n := Padded(given), |given|;
    SomeBelow(given, v);
    if n == 0 {
      TestsOfTwo(v, Comparator(Is, v), Comparator(Is, v));
    } else {
      var comparators := Comparators(op, given).value;
      TestsOfTwo(v, comparators[0], comparators[|comparators| - 1]);
      if op.Tilde? || op.Caret? {
        CaretCode(given);
        var k := if op.Caret? then CaretLength(given) else if n < 2 then n else 2;
        if LessEq(low, v) {
          BelowUpperAgrees(given, k, v);
        }
      } else {
        RelationsMeanTheRange(op, given, v);
      }
    }
  }

  lemma RelationsMeanTheRange(op: Operator, given: seq<nat>, v: Version)
    requires 1 <= |given| <= 3 && !op.Tilde? && !op.Caret?
    ensures PassesAll(v, Comparators(op, given).value) <==> Means(op, given, v)
  {
    var comparators := Comparators(op, given).value;
    TestsOfTwo(v, comparators[0], comparators[|comparators| - 1]);
    SomeBelow(given, v);
    AllAbove(given, v);
    BlockIsAnInterval(given, v);
    UpperIsPastTheBlock(given, v);
    AtMostMeans(given, v);
    if |given| == 3 {
      FullVersionRelations(given, v);
    }
  }

  /** A full version is alone in its block. */
  lemma FullVersionRelations(given: seq<nat>, v: Version)
    requires |given| == 3
    ensures Less(Padded(given), v) <==> forall w :: InBlock(w, given) ==> Less(w, v)
    ensures LessEq(v, Padded(given)) <==> exists w :: InBlock(w, given) && LessEq(v, w)
  {
    PaddedIsLeast(given, Padded(given));
    forall w
      ensures InBlock(w, given) <==> w == Padded(given)
    {
      BlockIsAnInterval(given, w);
    }
  }

  /** An order comparison is refused exactly when the block it compares with is all versions. */
  lemma RefusedExactlyWhen(op: Operator, given: seq<nat>)
    requires |given| <= 3
    ensures Comparators(op, given).None? <==>
      op in {AtLeast, AtMost, Above, Below} && forall v :: InBlock(v, given)
  {
    if given != [] {
      var outside := Version(given[0] + 1, 0, 0);
      assert outside.Part(0) != given[0] && !InBlock(outside, given);
    }
  }

  lemma Between(a: Version, b: Version, c: Version)
    requires LessEq(a, b) && LessEq(b, c)
    ensures LessEq(a, c) && (a == c ==> b == a)
  {
  }

  /** Every branch, whatever its comparators, holds of everything between two versions it holds of. */
  lemma BranchIsConvex(branch: seq<Comparator>, low: Version, v: Version, high: Version)
    requires PassesAll(low, branch) && PassesAll(high, branch) && LessEq(low, v) && LessEq(v, high)
    ensures PassesAll(v, branch)
  {
    forall c | c in branch
      ensures Passes(v, c)
    {
      assert Passes(low, c) && Passes(high, c);
      Between(low, v, high);
    }
  }
}
