/**
 * The text of a Node requirement: its concrete syntax, a parser for it, and that the two are each
 * other's inverse, so that a requirement is accepted exactly when the syntax can spell it.
 */
module NodeSyntax {
  import opened Common
  import opened NodeRanges
  import opened Texts

  // --- concrete syntax -----------------------------------------------------------------------

  /** A version as written: an optional `v` and one to three dotted pieces. */
  datatype Spelling = Spelling(vee: bool, pieces: seq<string>)

  /** An operator, the space before its version, the version, and the space after it. */
  datatype Token = Token(op: Operator, gap: string, version: Spelling, after: string)

  datatype Body =
    | Ranges(tokens: seq<Token>)
    | Hyphen(low: Spelling, before: string, behind: string, high: Spelling)

  /** One `||` alternative with the space around it. */
  datatype Branch = Branch(lead: string, body: Body, tail: string)

  predicate IsDigit(c: char) {
    '0' <= c <= '9'
  }

  predicate IsWildcard(piece: string) {
    piece == "x" || piece == "X" || piece == "*"
  }

  predicate IsNumber(piece: string) {
    && 1 <= |piece| <= 6
    && (forall c <- piece :: IsDigit(c))
    && (piece[0] == '0' ==> |piece| == 1)
  }

  predicate IsPiece(piece: string) {
    IsWildcard(piece) || IsNumber(piece)
  }

  predicate IsSpelling(v: Spelling) {
    1 <= |v.pieces| <= 3 && forall p <- v.pieces :: IsPiece(p)
  }

  function VersionText(v: Spelling): string {
    (if v.vee then "v" else "") + Join(v.pieces, '.')
  }

  function OperatorText(op: Operator): string {
    match op
    case Bare => ""
    case Equal => "="
    case AtLeast => ">="
    case AtMost => "<="
    case Above => ">"
    case Below => "<"
    case Caret => "^"
    case Tilde => "~"
  }

  function TokenText(t: Token): string {
    OperatorText(t.op) + (t.gap + (VersionText(t.version) + t.after))
  }

  function TokensText(tokens: seq<Token>): string {
    if tokens == [] then "" else TokenText(tokens[0]) + TokensText(tokens[1..])
  }

  predicate IsToken(t: Token) {
    IsSpelling(t.version) && Spaces(t.gap) && Spaces(t.after) && (t.op.Bare? ==> t.gap == "")
  }

  /** Space separates tokens; nothing follows the last. */
  predicate AreTokens(tokens: seq<Token>) {
    && (forall t <- tokens :: IsToken(t))
    && (forall i :: 0 <= i < |tokens| ==> (tokens[i].after == "" <==> i == |tokens| - 1))
  }

  function BodyText(b: Body): string {
    match b
    case Ranges(tokens) => TokensText(tokens)
    case Hyphen(low, before, behind, high) =>
      VersionText(low) + (before + ("-" + (behind + VersionText(high))))
  }

  predicate IsBody(b: Body) {
    match b
    case Ranges(tokens) => tokens != [] && AreTokens(tokens)
    case Hyphen(low, before, behind, high) =>
      IsSpelling(low) && IsSpelling(high) && before != "" && Spaces(before) && behind != "" && Spaces(behind)
  }

  function BranchText(b: Branch): string {
    b.lead + (BodyText(b.body) + b.tail)
  }

  predicate IsBranch(b: Branch) {
    Spaces(b.lead) && IsBody(b.body) && Spaces(b.tail)
  }

  function BranchTexts(branches: seq<Branch>): (texts: seq<string>)
    ensures |texts| == |branches|
  {
    if branches == [] then [] else [BranchText(branches[0])] + BranchTexts(branches[1..])
  }

  function RequirementText(branches: seq<Branch>): string {
    JoinBars(BranchTexts(branches))
  }

  /** The space around the whole requirement belongs to no alternative. */
  predicate IsRequirement(branches: seq<Branch>) {
    && branches != [] && (forall b <- branches :: IsBranch(b))
    && branches[0].lead == "" && branches[|branches| - 1].tail == ""
  }

  // --- the parser ------------------------------------------------------------------------------

  function ParseVersion(word: string): (v: Option<Spelling>)
    ensures v.Some? ==> IsSpelling(v.value) && VersionText(v.value) == word && word != ""
  {
    var vee := word != "" && word[0] == 'v';
    var pieces := Split(if vee then word[1..] else word, '.');
    if |pieces| <= 3 && forall p <- pieces :: IsPiece(p) then
      assert vee ==> word == "v" + word[1..];
      assert IsPiece(pieces[0]);
      Some(Spelling(vee, pieces))
    else None
  }

  /** The longest operator `s` starts with, and the rest. */
  function TakeOperator(s: string): (r: (Operator, string))
    ensures |OperatorText(r.0)| + |r.1| == |s|
  {
    if s == "" then (Bare, s)
    else if s[0] == '>' then (if |s| > 1 && s[1] == '=' then (AtLeast, s[2..]) else (Above, s[1..]))
    else if s[0] == '<' then (if |s| > 1 && s[1] == '=' then (AtMost, s[2..]) else (Below, s[1..]))
    else if s[0] == '=' then (Equal, s[1..])
    else if s[0] == '^' then (Caret, s[1..])
    else if s[0] == '~' then (Tilde, s[1..])
    else (Bare, s)
  }

  /** The token at the start of `s` with the space after it, and the rest. */
  function ReadToken(s: string): (r: Option<(Token, string)>)
    ensures r.Some? ==> |r.value.1| < |s|
    ensures r.Some? && r.value.1 != "" ==> !IsSpace(r.value.1[0])
  {
    var (op, s1) := TakeOperator(s);
    var (gap, s2) := TakeSpaces(s1);
    var (word, s3) := TakeWord(s2);
    var (after, s4) := TakeSpaces(s3);
    var version := ParseVersion(word);
    if version.Some? then Some((Token(op, gap, version.value, after), s4)) else None
  }

  function ReadTokens(s: string): (r: Option<seq<Token>>)
    decreases |s|
  {
    if s == "" then Some([])
    else
      var first := ReadToken(s);
      if first.None? then None
      else
        var rest := ReadTokens(first.value.1);
        if rest.None? then None else Some([first.value.0] + rest.value)
  }

  /** `A - B`, as one full match. */
  function ReadHyphen(s: string): (r: Option<Body>)
    ensures r.Some? ==> r.value.Hyphen?
  {
    var (first, s1) := TakeWord(s);
    var (before, s2) := TakeSpaces(s1);
    if before == "" || s2 == "" || s2[0] != '-' then None
    else
      var (behind, last) := TakeSpaces(s2[1..]);
      var low, high := ParseVersion(first), ParseVersion(last);
      if behind == "" || low.None? || high.None? then None
      else Some(Hyphen(low.value, before, behind, high.value))
  }

  function ReadBody(s: string): (r: Option<Body>) {
    var hyphen := ReadHyphen(s);
    if hyphen.Some? then hyphen
    else
      var tokens := ReadTokens(s);
      if tokens.Some? then Some(Ranges(tokens.value)) else None
  }

  /** A stripped alternative that is not empty, with the space stripped off it. */
  function ReadBranch(text: string): (r: Option<Branch>) {
    var (lead, s1) := TakeSpaces(text);
    var (core, tail) := TakeTail(s1);
    if core == "" then None
    else
      var body := ReadBody(core);
      if body.None? then None else Some(Branch(lead, body.value, tail))
  }

  function ReadBranches(texts: seq<string>): Option<seq<Branch>> {
    if texts == [] then Some([])
    else
      var first, rest := ReadBranch(texts[0]), ReadBranches(texts[1..]);
      if first.Some? && rest.Some? then Some([first.value] + rest.value) else None
  }

  function ReadRequirement(s: string): Option<seq<Branch>> {
    if 0 < |s| <= 512 then ReadBranches(SplitBars(Strip(s))) else None
  }

  // --- what is read is spelled -------------------------------------------------------------------

  lemma TakeOperatorSplits(s: string)
    ensures var r := TakeOperator(s); OperatorText(r.0) + r.1 == s
    ensures s != "" && !IsSpace(s[0]) && TakeOperator(s).0.Bare? ==> TakeOperator(s).1 == s
  {
  }

  lemma Regroup(a: string, b: string, c: string, d: string, e: string)
    ensures a + (b + (c + (d + e))) == (a + (b + (c + d))) + e
  {
  }

  lemma ReadTokenSpells(s: string)
    requires s != "" && !IsSpace(s[0]) && ReadToken(s).Some?
    ensures var (t, rest) := ReadToken(s).value;
      IsToken(t) && TokenText(t) + rest == s && (t.after == "" ==> rest == "")
  {
    var (op, s1) := TakeOperator(s);
    var (gap, s2) := TakeSpaces(s1);
    var (word, s3) := TakeWord(s2);
    var (after, s4) := TakeSpaces(s3);
    TakeOperatorSplits(s);
    TakeSpacesSplits(s1);
    TakeWordSplits(s2);
    TakeSpacesSplits(s3);
    Regroup(OperatorText(op), gap, word, after, s4);
  }

  lemma {:induction false} ReadTokensSpell(s: string)
    requires s != "" ==> !IsSpace(s[0]) && !IsSpace(s[|s| - 1])
    requires ReadTokens(s).Some?
    ensures var tokens := ReadTokens(s).value;
      TokensText(tokens) == s && AreTokens(tokens) && (tokens == [] <==> s == "")
    decreases |s|
  {
    if s != "" {
      ReadTokenSpells(s);
      var (first, rest) := ReadToken(s).value;
      LastOf(TokenText(first), rest);
      ReadTokensSpell(rest);
      var tail := ReadTokens(rest).value;
      assert ([first] + tail)[1..] == tail;
      if rest == "" {
        LastOfToken(first);
      }
    }
  }

  lemma LastOf(a: string, b: string)
    ensures b != "" ==> (a + b)[|a + b| - 1] == b[|b| - 1]
    ensures b == "" ==> a + b == a
  {
  }

  lemma LastOfToken(t: Token)
    requires IsToken(t) && TokenText(t) != "" && !IsSpace(TokenText(t)[|TokenText(t)| - 1])
    ensures t.after == ""
  {
    var text := VersionText(t.version) + t.after;
    LastOf(VersionText(t.version), t.after);
    LastOf(t.gap, text);
    LastOf(OperatorText(t.op), t.gap + text);
  }

  lemma ReadHyphenSpells(s: string)
    requires ReadHyphen(s).Some?
    ensures IsBody(ReadHyphen(s).value) && BodyText(ReadHyphen(s).value) == s
  {
    var (first, s1) := TakeWord(s);
    var (before, s2) := TakeSpaces(s1);
    var (behind, last) := TakeSpaces(s2[1..]);
    TakeWordSplits(s);
    TakeSpacesSplits(s1);
    TakeSpacesSplits(s2[1..]);
    FirstAndRest(s2);
  }

  lemma FirstAndRest(s: string)
    requires s != ""
    ensures [s[0]] + s[1..] == s
  {
  }

  lemma ReadBodySpells(core: string)
    requires core != "" && !IsSpace(core[0]) && !IsSpace(core[|core| - 1])
    requires ReadBody(core).Some?
    ensures IsBody(ReadBody(core).value) && BodyText(ReadBody(core).value) == core
  {
    if ReadHyphen(core).Some? {
      ReadHyphenSpells(core);
    } else {
      ReadTokensSpell(core);
    }
  }

  lemma ReadBranchSpells(text: string)
    requires ReadBranch(text).Some?
    ensures IsBranch(ReadBranch(text).value) && BranchText(ReadBranch(text).value) == text
  {
    var (lead, s1) := TakeSpaces(text);
    var (core, tail) := TakeTail(s1);
    TakeSpacesSplits(text);
    TakeTailSplits(s1);
    ReadBodySpells(core);
  }

  predicate AreBranches(branches: seq<Branch>) {
    forall b <- branches :: IsBranch(b)
  }

  lemma MoreBranches(b: Branch, rest: seq<Branch>)
    requires IsBranch(b) && AreBranches(rest)
    ensures AreBranches([b] + rest) && BranchTexts([b] + rest) == [BranchText(b)] + BranchTexts(rest)
  {
    assert ([b] + rest)[1..] == rest;
  }

  lemma {:induction false} ReadBranchesSpell(texts: seq<string>)
    requires ReadBranches(texts).Some?
    ensures var branches := ReadBranches(texts).value;
      BranchTexts(branches) == texts && AreBranches(branches)
    decreases |texts|
  {
    if texts != [] {
      ReadBranchSpells(texts[0]);
      ReadBranchesSpell(texts[1..]);
      MoreBranches(ReadBranch(texts[0]).value, ReadBranches(texts[1..]).value);
      assert texts == [texts[0]] + texts[1..];
    }
  }

  // --- what is spelled is read -------------------------------------------------------------------

  lemma PiecesAreSolid(piece: string)
    requires IsPiece(piece)
    ensures piece != "" && Solid(piece) && '.' !in piece && '|' !in piece && '-' !in piece
    ensures IsDigit(piece[0]) || piece[0] in "xX*"
  {
    if IsNumber(piece) {
      forall c | c in piece
        ensures !IsSpace(c) && c != '.' && c != '|' && c != '-'
      {
        assert IsDigit(c);
      }
    }
  }

  lemma {:induction false} JoinIsSolid(pieces: seq<string>)
    requires pieces != [] && forall p <- pieces :: IsPiece(p)
    ensures var s := Join(pieces, '.');
      s != "" && Solid(s) && '|' !in s && '-' !in s && (IsDigit(s[0]) || s[0] in "xX*")
    decreases |pieces|
  {
    PiecesAreSolid(pieces[0]);
    if |pieces| > 1 {
      JoinIsSolid(pieces[1..]);
    }
  }

  predicate StartsVersion(c: char) {
    IsDigit(c) || c in "vxX*"
  }

  lemma VersionIsSolid(v: Spelling)
    requires IsSpelling(v)
    ensures var s := VersionText(v);
      s != "" && Solid(s) && '|' !in s && '-' !in s && StartsVersion(s[0])
  {
    JoinIsSolid(v.pieces);
  }

  lemma ParseOfVersion(v: Spelling)
    requires IsSpelling(v)
    ensures ParseVersion(VersionText(v)) == Some(v)
  {
    JoinIsSolid(v.pieces);
    forall p | p in v.pieces
      ensures '.' !in p
    {
      PiecesAreSolid(p);
    }
    SplitOfJoin(v.pieces, '.');
    var word := VersionText(v);
    if v.vee {
      assert word[1..] == Join(v.pieces, '.');
    } else {
      assert word == Join(v.pieces, '.');
    }
  }

  lemma TakeOperatorOf(op: Operator, rest: string)
    requires rest != "" && (StartsVersion(rest[0]) || IsSpace(rest[0]))
    ensures TakeOperator(OperatorText(op) + rest) == (op, rest)
  {
    var s := OperatorText(op) + rest;
    assert s[|OperatorText(op)|..] == rest;
    assert s[|OperatorText(op)|] == rest[0];
    match op
    case Bare => assert s == rest;
    case AtLeast => assert s[0] == '>' && s[1] == '=';
    case AtMost => assert s[0] == '<' && s[1] == '=';
    case Above => assert s[0] == '>' && s[1] == rest[0];
    case Below => assert s[0] == '<' && s[1] == rest[0];
    case Equal => assert s[0] == '=';
    case Caret => assert s[0] == '^';
    case Tilde => assert s[0] == '~';
  }

  /** What a token's text starts with. */
  lemma TokenStarts(t: Token, rest: string)
    requires IsToken(t)
    ensures var s2 := VersionText(t.version) + (t.after + rest);
      && s2 != "" && StartsVersion(s2[0])
      && var s1 := t.gap + s2;
      && s1 != "" && (StartsVersion(s1[0]) || IsSpace(s1[0]))
      && (t.op.Bare? ==> StartsVersion(s1[0]))
  {
    VersionIsSolid(t.version);
    if t.gap != "" {
      assert t.gap[0] in t.gap;
    }
  }

  lemma ReadOfToken(t: Token, rest: string)
    requires IsToken(t) && (rest != "" ==> !IsSpace(rest[0])) && (t.after == "" ==> rest == "")
    ensures ReadToken(TokenText(t) + rest) == Some((t, rest))
  {
    var word := VersionText(t.version);
    var s3 := t.after + rest;
    var s2 := word + s3;
    var s1 := t.gap + s2;
    Regroup(OperatorText(t.op), t.gap, word, t.after, rest);
    VersionIsSolid(t.version);
    ParseOfVersion(t.version);
    TokenStarts(t, rest);
    TakeOperatorOf(t.op, s1);
    TakeSpacesOf(t.gap, s2);
    AfterStarts(t, rest);
    TakeWordOf(word, s3);
    TakeSpacesOf(t.after, rest);
  }

  lemma AfterStarts(t: Token, rest: string)
    requires IsToken(t) && (t.after == "" ==> rest == "")
    ensures t.after + rest != "" ==> IsSpace((t.after + rest)[0])
  {
    if t.after != "" {
      assert t.after[0] in t.after;
    }
  }

  lemma TokenTextStarts(t: Token)
    requires IsToken(t)
    ensures TokenText(t) != "" && !IsSpace(TokenText(t)[0])
  {
    TokenStarts(t, "");
    assert t.after + "" == t.after;
  }

  lemma ReadOfMoreTokens(t: Token, rest: string, tokens: seq<Token>)
    requires IsToken(t) && (rest != "" ==> !IsSpace(rest[0])) && (t.after == "" ==> rest == "")
    requires ReadTokens(rest) == Some(tokens)
    ensures var s := TokenText(t) + rest;
      s != "" && !IsSpace(s[0]) && ReadTokens(s) == Some([t] + tokens)
  {
    TokenTextStarts(t);
    ReadOfToken(t, rest);
  }

  lemma RestOfTokens(tokens: seq<Token>)
    requires tokens != [] && AreTokens(tokens)
    ensures IsToken(tokens[0]) && AreTokens(tokens[1..]) && (tokens[0].after == "" <==> |tokens| == 1)
    ensures tokens == [tokens[0]] + tokens[1..]
  {
  }

  lemma {:induction false} ReadOfTokens(tokens: seq<Token>)
    requires AreTokens(tokens)
    ensures var s := TokensText(tokens);
      && (s != "" ==> !IsSpace(s[0])) && (s == "" <==> tokens == [])
      && ReadTokens(s) == Some(tokens)
    decreases |tokens|
  {
    if tokens != [] {
      RestOfTokens(tokens);
      ReadOfTokens(tokens[1..]);
      ReadOfMoreTokens(tokens[0], TokensText(tokens[1..]), tokens[1..]);
    }
  }

  lemma ReadOfHyphen(b: Body)
    requires b.Hyphen? && IsBody(b)
    ensures ReadHyphen(BodyText(b)) == Some(b)
  {
    var first, last := VersionText(b.low), VersionText(b.high);
    var s2 := "-" + (b.behind + last);
    var s1 := b.before + s2;
    VersionIsSolid(b.low);
    VersionIsSolid(b.high);
    ParseOfVersion(b.low);
    ParseOfVersion(b.high);
    assert b.before[0] in b.before;
    TakeWordOf(first, s1);
    TakeSpacesOf(b.before, s2);
    assert s2[1..] == b.behind + last;
    TakeSpacesOf(b.behind, last);
  }

  lemma SpacesArePlain(gap: string)
    requires Spaces(gap)
    ensures '|' !in gap && '-' !in gap
  {
  }

  lemma {:induction false} TokensHaveNoDash(tokens: seq<Token>)
    requires forall t <- tokens :: IsToken(t)
    ensures '-' !in TokensText(tokens) && '|' !in TokensText(tokens)
    decreases |tokens|
  {
    if tokens != [] {
      var t := tokens[0];
      assert t in tokens;
      VersionIsSolid(t.version);
      SpacesArePlain(t.gap);
      SpacesArePlain(t.after);
      assert '-' !in OperatorText(t.op) && '|' !in OperatorText(t.op);
      TokensHaveNoDash(tokens[1..]);
    }
  }

  /** A list of tokens is never mistaken for a hyphen range: there is no `-` in it. */
  lemma TokensAreNoHyphen(tokens: seq<Token>)
    requires forall t <- tokens :: IsToken(t)
    ensures ReadHyphen(TokensText(tokens)).None?
  {
    var s := TokensText(tokens);
    TokensHaveNoDash(tokens);
    if ReadHyphen(s).Some? {
      ReadHyphenSpells(s);
      HyphenHasDash(ReadHyphen(s).value);
    }
  }

  lemma HyphenHasDash(b: Body)
    requires b.Hyphen?
    ensures '-' in BodyText(b)
  {
    assert '-' in "-" + (b.behind + VersionText(b.high));
  }

  lemma HyphenHasNoBars(b: Body)
    requires b.Hyphen? && IsBody(b)
    ensures '|' !in BodyText(b)
  {
    VersionIsSolid(b.low);
    VersionIsSolid(b.high);
    SpacesArePlain(b.before);
    SpacesArePlain(b.behind);
  }

  lemma ReadOfBody(b: Body)
    requires IsBody(b)
    ensures ReadBody(BodyText(b)) == Some(b) && '|' !in BodyText(b)
  {
    match b
    case Ranges(tokens) =>
      ReadOfTokens(tokens);
      TokensAreNoHyphen(tokens);
      TokensHaveNoDash(tokens);
    case Hyphen(_, _, _, _) =>
      ReadOfHyphen(b);
      HyphenHasNoBars(b);
  }

  lemma {:induction false} LastTokenEnds(tokens: seq<Token>)
    requires tokens != [] && AreTokens(tokens)
    ensures var s := TokensText(tokens); s != "" && !IsSpace(s[|s| - 1])
    decreases |tokens|
  {
    var t := tokens[0];
    TokenTextStarts(t);
    LastOf(TokenText(t), TokensText(tokens[1..]));
    if |tokens| > 1 {
      LastTokenEnds(tokens[1..]);
    } else {
      var word := VersionText(t.version);
      VersionIsSolid(t.version);
      assert word + t.after == word && word[|word| - 1] in word;
      LastOf(t.gap, word);
      LastOf(OperatorText(t.op), t.gap + word);
    }
  }

  /** A body's text is already stripped. */
  lemma BodyIsStripped(b: Body)
    requires IsBody(b)
    ensures var s := BodyText(b); s != "" && !IsSpace(s[0]) && !IsSpace(s[|s| - 1])
  {
    match b
    case Ranges(tokens) =>
      ReadOfTokens(tokens);
      LastTokenEnds(tokens);
    case Hyphen(low, before, behind, high) =>
      var first, last := VersionText(low), VersionText(high);
      VersionIsSolid(low);
      VersionIsSolid(high);
      assert first[0] in first && last[|last| - 1] in last;
      LastOf(behind, last);
      LastOf("-", behind + last);
      LastOf(before, "-" + (behind + last));
      LastOf(first, before + ("-" + (behind + last)));
  }

  lemma ReadOfBranch(b: Branch)
    requires IsBranch(b)
    ensures ReadBranch(BranchText(b)) == Some(b) && '|' !in BranchText(b)
  {
    var core := BodyText(b.body);
    BodyIsStripped(b.body);
    ReadOfBody(b.body);
    TakeSpacesOf(b.lead, core + b.tail);
    TakeTailOf(core, b.tail);
    SpacesArePlain(b.lead);
    SpacesArePlain(b.tail);
  }

  predicate NoBarsIn(texts: seq<string>) {
    forall t <- texts :: '|' !in t
  }

  lemma NoBarsInMore(text: string, texts: seq<string>)
    requires '|' !in text && NoBarsIn(texts)
    ensures NoBarsIn([text] + texts) && ([text] + texts)[1..] == texts
  {
  }

  lemma {:induction false} ReadOfBranches(branches: seq<Branch>)
    requires forall b <- branches :: IsBranch(b)
    ensures ReadBranches(BranchTexts(branches)) == Some(branches)
    ensures NoBarsIn(BranchTexts(branches))
    decreases |branches|
  {
    if branches != [] {
      var b, rest := branches[0], branches[1..];
      assert b in branches && forall c <- rest :: c in branches;
      ReadOfBranch(b);
      ReadOfBranches(rest);
      NoBarsInMore(BranchText(b), BranchTexts(rest));
      assert branches == [b] + rest;
    }
  }

  // --- the two directions together ---------------------------------------------------------------

  lemma BranchEnds(b: Branch)
    requires IsBranch(b)
    ensures var s := BranchText(b);
      && s != "" && (!IsSpace(s[0]) <==> b.lead == "") && (!IsSpace(s[|s| - 1]) <==> b.tail == "")
  {
    var core := BodyText(b.body);
    BodyIsStripped(b.body);
    if b.lead != "" {
      assert b.lead[0] in b.lead;
    }
    LastOf(b.lead, core + b.tail);
    LastOf(core, b.tail);
    if b.tail != "" {
      assert b.tail[|b.tail| - 1] in b.tail;
    }
  }

  lemma {:induction false} BranchTextsAt(branches: seq<Branch>)
    ensures |BranchTexts(branches)| == |branches|
    ensures forall i :: 0 <= i < |branches| ==> BranchTexts(branches)[i] == BranchText(branches[i])
    decreases |branches|
  {
    if branches != [] {
      BranchTextsAt(branches[1..]);
    }
  }

  predicate StartsSolid(s: string) {
    s != "" && !IsSpace(s[0])
  }

  predicate StopsSolid(s: string) {
    s != "" && !IsSpace(s[|s| - 1])
  }

  lemma BarsKeepEnds(texts: seq<string>)
    requires texts != [] && texts[0] != "" && texts[|texts| - 1] != ""
    ensures JoinBars(texts) != "" && StartsSolid(JoinBars(texts)) == StartsSolid(texts[0])
    ensures StopsSolid(JoinBars(texts)) == StopsSolid(texts[|texts| - 1])
  {
    JoinBarsEnds(texts);
  }

  lemma TextEnds(branches: seq<Branch>, i: nat)
    requires i < |branches| && AreBranches(branches)
    ensures var text := BranchTexts(branches)[i];
      text != "" && (StartsSolid(text) <==> branches[i].lead == "") && (StopsSolid(text) <==> branches[i].tail == "")
  {
    assert branches[i] in branches;
    BranchTextsAt(branches);
    BranchEnds(branches[i]);
  }

  /** What the first and the last alternative leave at the ends of the whole text. */
  lemma RequirementEnds(branches: seq<Branch>)
    requires branches != [] && AreBranches(branches)
    ensures RequirementText(branches) != ""
    ensures StartsSolid(RequirementText(branches)) <==> branches[0].lead == ""
    ensures StopsSolid(RequirementText(branches)) <==> branches[|branches| - 1].tail == ""
  {
    TextEnds(branches, 0);
    TextEnds(branches, |branches| - 1);
    BarsKeepEnds(BranchTexts(branches));
  }

  /** Reading what any requirement spells gives back that requirement, however it is spaced. */
  lemma ReadingUndoesSpelling(branches: seq<Branch>, lead: string, tail: string)
    requires IsRequirement(branches) && Spaces(lead) && Spaces(tail)
    requires |lead + (RequirementText(branches) + tail)| <= 512
    ensures ReadRequirement(lead + (RequirementText(branches) + tail)) == Some(branches)
  {
    RequirementEnds(branches);
    StripOf(lead, RequirementText(branches), tail);
    ReadOfBranches(branches);
    SplitBarsOfJoin(BranchTexts(branches));
  }

  /** A text is accepted exactly when, stripped, it spells some requirement, and has at most 512 characters. */
  lemma AcceptedExactlyWhenSpelled(s: string)
    ensures ReadRequirement(s).Some? <==>
      |s| <= 512 && exists branches :: IsRequirement(branches) && RequirementText(branches) == Strip(s)
  {
    StripSplits(s);
    if ReadRequirement(s).Some? {
      ReadIsSpelled(s);
    }
    if |s| <= 512 && exists branches :: IsRequirement(branches) && RequirementText(branches) == Strip(s) {
      var branches :| IsRequirement(branches) && RequirementText(branches) == Strip(s);
      ReadingUndoesSpelling(branches, TakeSpaces(s).0, TakeTail(TakeSpaces(s).1).1);
    }
  }

  lemma ReadIsSpelled(s: string)
    requires ReadRequirement(s).Some?
    ensures var branches := ReadRequirement(s).value;
      IsRequirement(branches) && RequirementText(branches) == Strip(s)
  {
    StripSplits(s);
    var texts := SplitBars(Strip(s));
    ReadBranchesSpell(texts);
    RequirementEnds(ReadRequirement(s).value);
  }
}
