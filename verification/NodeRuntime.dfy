/** From the text of a repository's Node declarations to the pinned runtime that satisfies them all. */
module NodeRuntime {
  import opened Common
  import opened NodeRanges
  import opened NodeSyntax
  import opened Texts

  type Alternatives = seq<seq<Comparator>>

  // --- the numbers of a partial version --------------------------------------------------------

  function Digit(c: char): nat {
    if IsDigit(c) then c as nat - '0' as nat else 0
  }

  function Decimal(digits: string): nat {
    if digits == "" then 0 else 10 * Decimal(digits[..|digits| - 1]) + Digit(digits[|digits| - 1])
  }

  predicate AllWildcards(pieces: seq<string>) {
    forall p <- pieces :: IsWildcard(p)
  }

  /** Numbers first, wildcards after: a number behind a wildcard is refused. */
  function Numbers(pieces: seq<string>): (r: Option<seq<nat>>)
    ensures r.Some? ==>
      && |r.value| <= |pieces|
      && (forall i :: 0 <= i < |r.value| ==> !IsWildcard(pieces[i]) && r.value[i] == Decimal(pieces[i]))
      && AllWildcards(pieces[|r.value|..])
  {
    if pieces == [] then Some([])
    else if IsWildcard(pieces[0]) then
      if AllWildcards(pieces[1..]) then
        assert pieces == [pieces[0]] + pieces[1..];
        Some([])
      else None
    else
      var rest := Numbers(pieces[1..]);
      if rest.None? then None
      else
        assert forall i :: 1 <= i < |pieces| ==> pieces[i] == pieces[1..][i - 1];
        assert pieces[|rest.value| + 1..] == pieces[1..][|rest.value|..];
        Some([Decimal(pieces[0])] + rest.value)
  }

  /** Refused exactly when a number stands somewhere behind a wildcard. */
  lemma {:induction false} NumbersRefuse(pieces: seq<string>)
    ensures Numbers(pieces).None? <==>
      exists i, j :: 0 <= i < j < |pieces| && IsWildcard(pieces[i]) && !IsWildcard(pieces[j])
    decreases |pieces|
  {
    if pieces != [] {
      var rest := pieces[1..];
      NumbersRefuse(rest);
      assert forall i :: 0 <= i < |rest| ==> rest[i] == pieces[i + 1];
      if IsWildcard(pieces[0]) && !AllWildcards(rest) {
        var p :| p in rest && !IsWildcard(p);
        var j :| 0 <= j < |rest| && rest[j] == p;
        assert IsWildcard(pieces[0]) && !IsWildcard(pieces[j + 1]);
      }
      if !IsWildcard(pieces[0]) && Numbers(rest).None? {
        var i, j :| 0 <= i < j < |rest| && IsWildcard(rest[i]) && !IsWildcard(rest[j]);
        assert IsWildcard(pieces[i + 1]) && !IsWildcard(pieces[j + 1]);
      }
    }
  }

  function VersionComparators(op: Operator, v: Spelling): Option<seq<Comparator>> {
    var numbers := Numbers(v.pieces);
    if numbers.None? || |numbers.value| > 3 then None else Comparators(op, numbers.value)
  }

  function TokensComparators(tokens: seq<Token>): Option<seq<Comparator>>
  {
    if tokens == [] then Some([])
    else
      var first, rest := VersionComparators(tokens[0].op, tokens[0].version), TokensComparators(tokens[1..]);
      if first.Some? && rest.Some? then Some(first.value + rest.value) else None
  }

  function BodyComparators(b: Body): Option<seq<Comparator>>
  {
    match b
    case Ranges(tokens) => TokensComparators(tokens)
    case Hyphen(low, _, _, high) =>
      var first, last := VersionComparators(AtLeast, low), VersionComparators(AtMost, high);
      if first.Some? && last.Some? then Some(first.value + last.value) else None
  }

  function BranchesComparators(branches: seq<Branch>): Option<Alternatives>
  {
    if branches == [] then Some([])
    else
      var first, rest := BodyComparators(branches[0].body), BranchesComparators(branches[1..]);
      if first.Some? && rest.Some? then Some([first.value] + rest.value) else None
  }

  // --- what a requirement stands for -------------------------------------------------------------

  ghost predicate VersionMeans(op: Operator, version: Spelling, v: Version) {
    && Numbers(version.pieces).Some? && |Numbers(version.pieces).value| <= 3
    && Means(op, Numbers(version.pieces).value, v)
  }

  ghost predicate BodyMeans(b: Body, v: Version) {
    match b
    case Ranges(tokens) => forall t <- tokens :: VersionMeans(t.op, t.version, v)
    case Hyphen(low, _, _, high) => VersionMeans(AtLeast, low, v) && VersionMeans(AtMost, high, v)
  }

  lemma PassesBoth(v: Version, a: seq<Comparator>, b: seq<Comparator>)
    ensures PassesAll(v, a + b) <==> PassesAll(v, a) && PassesAll(v, b)
  {
    forall c
      ensures c in a + b <==> c in a || c in b
    {
    }
  }

  lemma {:induction false} TokensMean(tokens: seq<Token>, v: Version)
    requires TokensComparators(tokens).Some?
    ensures PassesAll(v, TokensComparators(tokens).value) <==> forall t <- tokens :: VersionMeans(t.op, t.version, v)
    decreases |tokens|
  {
    if tokens != [] {
      var t := tokens[0];
      var first := VersionComparators(t.op, t.version).value;
      TokensMean(tokens[1..], v);
      ComparatorsMeanTheRange(t.op, Numbers(t.version.pieces).value, v);
      PassesBoth(v, first, TokensComparators(tokens[1..]).value);
      assert tokens == [t] + tokens[1..];
    }
  }

  lemma BodyMeansIt(b: Body, v: Version)
    requires BodyComparators(b).Some?
    ensures PassesAll(v, BodyComparators(b).value) <==> BodyMeans(b, v)
  {
    match b
    case Ranges(tokens) => TokensMean(tokens, v);
    case Hyphen(low, _, _, high) =>
      ComparatorsMeanTheRange(AtLeast, Numbers(low.pieces).value, v);
      ComparatorsMeanTheRange(AtMost, Numbers(high.pieces).value, v);
      PassesBoth(v, VersionComparators(AtLeast, low).value, VersionComparators(AtMost, high).value);
  }

  ghost predicate AnyMeans(branches: seq<Branch>, v: Version) {
    exists b <- branches :: BodyMeans(b.body, v)
  }

  lemma AnyMeansOfMore(b: Branch, rest: seq<Branch>, v: Version)
    ensures AnyMeans([b] + rest, v) <==> BodyMeans(b.body, v) || AnyMeans(rest, v)
  {
    assert b in [b] + rest && forall c <- rest :: c in [b] + rest;
  }

  lemma PassesAnyOfMore(v: Version, first: seq<Comparator>, rest: Alternatives)
    ensures PassesAny(v, [first] + rest) <==> PassesAll(v, first) || PassesAny(v, rest)
  {
    assert first in [first] + rest && forall c <- rest :: c in [first] + rest;
  }

  /** A version satisfies a requirement exactly when it is in every range of one of its alternatives. */
  lemma {:induction false} RequirementMeansIt(branches: seq<Branch>, v: Version)
    requires BranchesComparators(branches).Some?
    ensures PassesAny(v, BranchesComparators(branches).value) <==> AnyMeans(branches, v)
    decreases |branches|
  {
    if branches != [] {
      var b, rest := branches[0], branches[1..];
      var first, others := BodyComparators(b.body).value, BranchesComparators(rest).value;
      assert branches == [b] + rest && BranchesComparators(branches).value == [first] + others;
      BodyMeansIt(b.body, v);
      RequirementMeansIt(rest, v);
      AnyMeansOfMore(b, rest, v);
      PassesAnyOfMore(v, first, others);
    }
  }

  /** The comparators of one alternative's text. */
  function TextComparators(text: string): Option<seq<Comparator>> {
    var branch := ReadBranch(text);
    if branch.None? then None else BodyComparators(branch.value.body)
  }

  function TextsComparators(texts: seq<string>): Option<Alternatives> {
    if texts == [] then Some([])
    else
      var first, rest := TextComparators(texts[0]), TextsComparators(texts[1..]);
      if first.Some? && rest.Some? then Some([first.value] + rest.value) else None
  }

  /** The meaning of a requirement text: the alternatives its spelling stands for. */
  function Meaning(s: string): Option<Alternatives> {
    var branches := ReadRequirement(s);
    if branches.None? then None else BranchesComparators(branches.value)
  }

  lemma {:induction false} TextsMean(texts: seq<string>)
    ensures ReadBranches(texts).None? ==> TextsComparators(texts).None?
    ensures ReadBranches(texts).Some? ==>
      TextsComparators(texts) == BranchesComparators(ReadBranches(texts).value)
    decreases |texts|
  {
    if texts != [] {
      TextsMean(texts[1..]);
      if ReadBranches(texts).Some? {
        assert ReadBranches(texts).value[1..] == ReadBranches(texts[1..]).value;
      }
    }
  }

  // --- the parser's loops ------------------------------------------------------------------------

  function Prepend<T>(first: seq<T>, rest: Option<seq<T>>): Option<seq<T>> {
    if rest.None? then None else Some(first + rest.value)
  }

  function TokenTextComparators(s: string): Option<seq<Comparator>> {
    var tokens := ReadTokens(s);
    if tokens.None? then None else TokensComparators(tokens.value)
  }

  lemma TokenTextStep(s: string)
    requires s != ""
    ensures TokenTextComparators(s) ==
      var token := ReadToken(s);
      if token.None? then None
      else
        var first := VersionComparators(token.value.0.op, token.value.0.version);
        if first.None? then None else Prepend(first.value, TokenTextComparators(token.value.1))
  {
    if ReadTokens(s).Some? {
      assert ReadTokens(s).value[1..] == ReadTokens(ReadToken(s).value.1).value;
    }
  }

  method SkipSpaces(text: string, start: nat) returns (offset: nat)
    requires start <= |text|
    ensures start <= offset <= |text| && text[offset..] == TakeSpaces(text[start..]).1
  {
    offset := start;
    while offset < |text| && IsSpace(text[offset])
      invariant start <= offset <= |text|
      invariant TakeSpaces(text[offset..]).1 == TakeSpaces(text[start..]).1
    {
      assert text[offset..][1..] == text[offset + 1..];
      offset := offset + 1;
    }
  }

  /** One match of the token pattern at `s`: the operator, the version, and where the match ends. */
  method MatchToken(s: string) returns (m: Option<(Operator, Spelling, nat)>)
    ensures m.None? <==> ReadToken(s).None?
    ensures m.Some? ==>
      var t := ReadToken(s).value;
      && m.value.0 == t.0.op && m.value.1 == t.0.version && m.value.2 <= |s|
      && TakeSpaces(s[m.value.2..]).1 == t.1
  {
    var (op, s1) := TakeOperator(s);
    var (gap, s2) := TakeSpaces(s1);
    var (word, s3) := TakeWord(s2);
    var version := ParseVersion(word);
    MatchEnds(s);
    m := if version.None? then None else Some((op, version.value, |s| - |s3|));
  }

  /** Reads one alternative's tokens from left to right, an offset moving over the text. */
  method ReadComparators(branch: string) returns (r: Option<seq<Comparator>>)
    ensures r == TokenTextComparators(branch)
  {
    var comparators: seq<Comparator> := [];
    var offset := 0;
    assert branch[0..] == branch;
    PrependNothing(TokenTextComparators(branch));
    while offset < |branch|
      invariant 0 <= offset <= |branch|
      invariant TokenTextComparators(branch) == Prepend(comparators, TokenTextComparators(branch[offset..]))
    {
      ghost var s := branch[offset..];
      TokenTextStep(s);
      var m := MatchToken(branch[offset..]);
      if m.None? {
        return None;
      }
      var more := VersionComparators(m.value.0, m.value.1);
      if more.None? {
        return None;
      }
      PrependTwice(comparators, more.value, TokenTextComparators(ReadToken(s).value.1));
      comparators := comparators + more.value;
      assert s[m.value.2..] == branch[offset + m.value.2..];
      offset := SkipSpaces(branch, offset + m.value.2);
    }
    assert branch[offset..] == "";
    assert TokenTextComparators("") == Some([]) && comparators + [] == comparators;
    return Some(comparators);
  }

  lemma PrependNothing<T>(rest: Option<seq<T>>)
    ensures Prepend([], rest) == rest
  {
    assert rest.Some? ==> [] + rest.value == rest.value;
  }

  lemma PrependTwice<T>(first: seq<T>, second: seq<T>, rest: Option<seq<T>>)
    ensures Prepend(first, Prepend(second, rest)) == Prepend(first + second, rest)
  {
    assert rest.Some? ==> first + (second + rest.value) == first + second + rest.value;
  }

  /** The rest after a match is a suffix of the text. */
  lemma MatchEnds(s: string)
    ensures var s3 := TakeWord(TakeSpaces(TakeOperator(s).1).1).1;
      && |s3| <= |s| && s[|s| - |s3|..] == s3
      && (ReadToken(s).Some? ==> TakeSpaces(s[|s| - |s3|..]).1 == ReadToken(s).value.1)
  {
    TakeOperatorSplits(s);
    TakeSpacesSplits(TakeOperator(s).1);
    TakeWordSplits(TakeSpaces(TakeOperator(s).1).1);
  }

  lemma BranchComparators(text: string)
    ensures TextComparators(text) ==
      var core := Strip(text);
      if core == "" then None
      else if ReadHyphen(core).Some? then BodyComparators(ReadHyphen(core).value)
      else TokenTextComparators(core)
  {
  }

  /** `_parse`: alternative by alternative, the first that fails ends it. */
  method ParseRequirement(requirement: string) returns (r: Option<Alternatives>)
    ensures r == Meaning(requirement)
  {
    if !(0 < |requirement| <= 512) {
      return None;
    }
    var texts := SplitBars(Strip(requirement));
    var alternatives: Alternatives := [];
    TextsMean(texts);
    PrependNothing(TextsComparators(texts));
    assert texts[0..] == texts;
    for i := 0 to |texts|
      invariant TextsComparators(texts) == Prepend(alternatives, TextsComparators(texts[i..]))
    {
      var branch := Strip(texts[i]);
      BranchComparators(texts[i]);
      assert texts[i..][1..] == texts[i + 1..];
      if branch == "" {
        return None;
      }
      var hyphen := ReadHyphen(branch);
      var comparators;
      if hyphen.Some? {
        comparators := BodyComparators(hyphen.value);
      } else {
        comparators := ReadComparators(branch);
      }
      if comparators.None? {
        return None;
      }
      PrependTwice(alternatives, [comparators.value], TextsComparators(texts[i + 1..]));
      alternatives := alternatives + [comparators.value];
    }
    assert texts[|texts|..] == [] && alternatives + [] == alternatives;
    return Some(alternatives);
  }

  // --- resolution --------------------------------------------------------------------------------

  /** The pinned runtimes, oldest first. */
  const SUPPORTED: seq<Version> := [Version(22, 23, 2), Version(24, 20, 0)]

  /** What `engines.node` or a version file holds. */
  datatype Declaration = Absent | Unusable | Text(text: string)

  /** A version file must hold one bare version; `engines.node` any requirement. */
  function DeclaredAlternatives(d: Declaration, file: bool): Option<Option<Alternatives>> {
    match d
    case Absent => Some(None)
    case Unusable => None
    case Text(text) =>
      if file && (|text| > 512 || ParseVersion(Strip(text)).None?) then None
      else
        var alternatives := Meaning(if file then Strip(text) else text);
        if alternatives.None? then None else Some(alternatives)
  }

  predicate IsUsable(d: Declaration, file: bool) {
    DeclaredAlternatives(d, file).Some?
  }

  /** `v` satisfies the declaration, or there is none to satisfy. */
  predicate Satisfies(v: Version, d: Declaration, file: bool) {
    var alternatives := DeclaredAlternatives(d, file);
    alternatives.Some? && (alternatives.value.Some? ==> PassesAny(v, alternatives.value.value))
  }

  predicate SatisfiesFiles(v: Version, files: seq<Declaration>) {
    forall d <- files :: Satisfies(v, d, true)
  }

  predicate SatisfiesBoth(v: Version, engines: Declaration, files: seq<Declaration>) {
    Satisfies(v, engines, false) && SatisfiesFiles(v, files)
  }

  predicate PassesEvery(v: Version, requirements: seq<Alternatives>) {
    forall r <- requirements :: PassesAny(v, r)
  }

  lemma OneMoreFile(v: Version, files: seq<Declaration>, d: Declaration)
    ensures SatisfiesFiles(v, files + [d]) <==> SatisfiesFiles(v, files) && Satisfies(v, d, true)
  {
    assert d in files + [d] && forall e <- files :: e in files + [d];
  }

  lemma OneMoreRequirement(v: Version, requirements: seq<Alternatives>, r: Alternatives)
    ensures PassesEvery(v, requirements + [r]) <==> PassesEvery(v, requirements) && PassesAny(v, r)
  {
    assert r in requirements + [r] && forall q <- requirements :: q in requirements + [r];
  }

  method AnyPasses(v: Version, alternatives: Alternatives) returns (any: bool)
    ensures any == PassesAny(v, alternatives)
  {
    for i := 0 to |alternatives|
      invariant forall branch <- alternatives[..i] :: !PassesAll(v, branch)
    {
      if PassesAll(v, alternatives[i]) {
        return true;
      }
      assert alternatives[..i + 1] == alternatives[..i] + [alternatives[i]];
    }
    assert alternatives[..|alternatives|] == alternatives;
    return false;
  }

  method AllPass(v: Version, requirements: seq<Alternatives>) returns (all: bool)
    ensures all <==> PassesEvery(v, requirements)
  {
    for i := 0 to |requirements|
      invariant PassesEvery(v, requirements[..i])
    {
      var any := AnyPasses(v, requirements[i]);
      if !any {
        assert requirements[i] in requirements;
        return false;
      }
      OneMoreRequirement(v, requirements[..i], requirements[i]);
      assert requirements[..i + 1] == requirements[..i] + [requirements[i]];
    }
    assert requirements[..|requirements|] == requirements;
    return true;
  }

  predicate AllUsable(files: seq<Declaration>) {
    forall d <- files :: IsUsable(d, true)
  }

  /** The parsed requirements hold of `v` exactly when it satisfies the declarations. */
  ghost predicate Collected(requirements: seq<Alternatives>, engines: Declaration, files: seq<Declaration>) {
    && IsUsable(engines, false) && AllUsable(files)
    && forall v :: PassesEvery(v, requirements) <==> SatisfiesBoth(v, engines, files)
  }

  method ReadDeclaration(d: Declaration, file: bool) returns (r: Option<Option<Alternatives>>)
    ensures r == DeclaredAlternatives(d, file)
  {
    match d {
      case Absent => return Some(None);
      case Unusable => return None;
      case Text(text) =>
        if file && (|text| > 512 || ParseVersion(Strip(text)).None?) {
          return None;
        }
        var parsed := ParseRequirement(if file then Strip(text) else text);
        return if parsed.None? then None else Some(parsed);
    }
  }

  /** One more declaration, which adds a requirement or none. */
  function WithParsed(requirements: seq<Alternatives>, parsed: Option<Alternatives>): seq<Alternatives> {
    if parsed.Some? then requirements + [parsed.value] else requirements
  }

  lemma CollectOneMore(
    requirements: seq<Alternatives>, parsed: Option<Alternatives>, engines: Declaration, files: seq<Declaration>,
    d: Declaration)
    requires Collected(requirements, engines, files) && DeclaredAlternatives(d, true) == Some(parsed)
    ensures Collected(WithParsed(requirements, parsed), engines, files + [d])
  {
    forall v
      ensures PassesEvery(v, WithParsed(requirements, parsed)) <==> SatisfiesBoth(v, engines, files + [d])
    {
      assert PassesEvery(v, requirements) <==> SatisfiesBoth(v, engines, files);
      OneMoreFile(v, files, d);
      if parsed.Some? {
        OneMoreRequirement(v, requirements, parsed.value);
      }
    }
  }

  lemma CollectFirst(engines: Declaration, parsed: Option<Alternatives>)
    requires DeclaredAlternatives(engines, false) == Some(parsed)
    ensures Collected(WithParsed([], parsed), engines, [])
  {
    forall v
      ensures PassesEvery(v, WithParsed([], parsed)) <==> SatisfiesBoth(v, engines, [])
    {
      if parsed.Some? {
        OneMoreRequirement(v, [], parsed.value);
      }
    }
  }

  /** One declaration file. */
  method CollectFile(requirements: seq<Alternatives>, d: Declaration, ghost engines: Declaration, ghost files: seq<Declaration>)
    returns (r: Option<seq<Alternatives>>)
    requires Collected(requirements, engines, files)
    ensures r.None? <==> !IsUsable(d, true)
    ensures r.Some? ==> Collected(r.value, engines, files + [d])
  {
    var parsed := ReadDeclaration(d, true);
    if parsed.None? {
      return None;
    }
    CollectOneMore(requirements, parsed.value, engines, files, d);
    return Some(WithParsed(requirements, parsed.value));
  }

  method CollectRequirements(engines: Declaration, files: seq<Declaration>) returns (r: Option<seq<Alternatives>>)
    ensures r.None? <==> !IsUsable(engines, false) || !AllUsable(files)
    ensures r.Some? ==> Collected(r.value, engines, files)
  {
    var first := ReadDeclaration(engines, false);
    if first.None? {
      return None;
    }
    CollectFirst(engines, first.value);
    r := CollectFiles(WithParsed([], first.value), engines, files);
  }

  lemma PrefixGrows(files: seq<Declaration>, i: nat)
    requires i < |files|
    ensures files[..i + 1] == files[..i] + [files[i]]
  {
  }

  method CollectFiles(first: seq<Alternatives>, ghost engines: Declaration, files: seq<Declaration>) returns (r: Option<seq<Alternatives>>)
    requires Collected(first, engines, [])
    ensures r.None? <==> !AllUsable(files)
    ensures r.Some? ==> Collected(r.value, engines, files)
  {
    var requirements := first;
    ghost var done: seq<Declaration> := [];
    for i := 0 to |files|
      invariant done == files[..i]
      invariant Collected(requirements, engines, done)
    {
      var more := CollectFile(requirements, files[i], engines, done);
      if more.None? {
        return None;
      }
      PrefixGrows(files, i);
      requirements, done := more.value, done + [files[i]];
    }
    assert done == files;
    return Some(requirements);
  }

  lemma UnusableSatisfiesNothing(v: Version, engines: Declaration, files: seq<Declaration>)
    requires !IsUsable(engines, false) || !AllUsable(files)
    ensures !SatisfiesBoth(v, engines, files)
  {
    if !AllUsable(files) {
      var d :| d in files && !IsUsable(d, true);
      assert !Satisfies(v, d, true);
    }
  }

  /**
   * The newest pinned runtime that satisfies every declaration; none only when a declaration is
   * unusable or no pinned runtime satisfies them all.
   */
  method Resolve(engines: Declaration, files: seq<Declaration>) returns (r: Option<Version>)
    ensures r.Some? ==>
      && r.value in SUPPORTED && SatisfiesBoth(r.value, engines, files)
      && forall v <- SUPPORTED :: SatisfiesBoth(v, engines, files) ==> LessEq(v, r.value)
    ensures r.None? ==> forall v <- SUPPORTED :: !SatisfiesBoth(v, engines, files)
  {
    var requirements := CollectRequirements(engines, files);
    if requirements.None? {
      UnusableSatisfiesNothing(SUPPORTED[0], engines, files);
      UnusableSatisfiesNothing(SUPPORTED[1], engines, files);
      return None;
    }
    var i := |SUPPORTED|;
    while i > 0
      invariant 0 <= i <= |SUPPORTED|
      invariant forall j :: i <= j < |SUPPORTED| ==> !SatisfiesBoth(SUPPORTED[j], engines, files)
    {
      i := i - 1;
      var all := AllPass(SUPPORTED[i], requirements.value);
      assert all <==> SatisfiesBoth(SUPPORTED[i], engines, files);
      if all {
        OldestFirst(i);
        return Some(SUPPORTED[i]);
      }
    }
    return None;
  }

  lemma OldestFirst(i: nat)
    requires i < |SUPPORTED|
    ensures forall j :: 0 <= j <= i ==> LessEq(SUPPORTED[j], SUPPORTED[i])
  {
  }

  // --- the two helpers that update a list --------------------------------------------------------

  /** `_partial` without its padding. */
  method PartialOf(pieces: seq<string>) returns (r: Option<seq<nat>>)
    ensures r == Numbers(pieces)
  {
    var numbers: seq<nat> := [];
    var wildcard := false;
    assert pieces[0..] == pieces;
    PrependNothing(Numbers(pieces));
    for i := 0 to |pieces|
      invariant !wildcard ==> Numbers(pieces) == Prepend(numbers, Numbers(pieces[i..]))
      invariant wildcard ==> Numbers(pieces) == if AllWildcards(pieces[i..]) then Some(numbers) else None
    {
      assert pieces[i..] == [pieces[i]] + pieces[i + 1..];
      if IsWildcard(pieces[i]) {
        assert numbers + [] == numbers;
        wildcard := true;
      } else if wildcard {
        return None;
      } else {
        PrependTwice(numbers, [Decimal(pieces[i])], Numbers(pieces[i + 1..]));
        numbers := numbers + [Decimal(pieces[i])];
      }
    }
    assert pieces[|pieces|..] == [] && numbers + [] == numbers;
    return Some(numbers);
  }

  /** `_upper` on its three-element list. */
  method UpperOf(v: Version, precision: nat) returns (r: Version)
    requires 1 <= precision <= 3
    ensures r == Upper(v, precision)
  {
    var result := new nat[3];
    result[0], result[1], result[2] := v.major, v.minor, v.patch;
    result[precision - 1] := result[precision - 1] + 1;
    for i := precision to 3
      invariant forall j :: precision <= j < i ==> result[j] == 0
      invariant forall j :: 0 <= j < precision ==> result[j] == v.Part(j) + (if j == precision - 1 then 1 else 0)
    {
      result[i] := 0;
    }
    return Version(result[0], result[1], result[2]);
  }
}
