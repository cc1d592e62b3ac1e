/** Service labels: how a project, an environment and a service name are keyed, and read back. */
module ProjectIdentity {
  import opened Common
  import opened Texts

  const PRODUCTION := "production"
  const DEFAULT_SERVICE := "web"

  // --- the grammars ------------------------------------------------------------------------------

  predicate IsAlnum(c: char) {
    'a' <= c <= 'z' || '0' <= c <= '9'
  }

  predicate LooksLikeLabel(s: string) {
    s != "" && IsAlnum(s[0]) && IsAlnum(s[|s| - 1]) && forall c <- s :: IsAlnum(c) || c == '-'
  }

  predicate IsDnsLabel(s: string) {
    LooksLikeLabel(s) && |s| <= 63
  }

  predicate NoDoubleDash(s: string) {
    forall i :: 0 <= i < |s| - 1 ==> !(s[i] == '-' && s[i + 1] == '-')
  }

  /** What a project, a service and an environment name have in common. */
  predicate IsName(s: string) {
    LooksLikeLabel(s) && NoDoubleDash(s)
  }

  predicate IsProjectName(s: string) {
    IsName(s) && |s| <= 40
  }

  predicate IsServiceName(s: string) {
    IsName(s) && |s| <= 20
  }

  /** One service of one environment of one project. */
  datatype Identity = Identity(project: string, environment: string, service: string)

  predicate IsIdentity(i: Identity) {
    IsName(i.project) && IsName(i.environment) && IsName(i.service)
  }

  // --- the label ---------------------------------------------------------------------------------

  function Compose(i: Identity): string {
    if i.environment == PRODUCTION then
      if i.service == DEFAULT_SERVICE then i.project else i.service + ("--" + i.project)
    else i.service + ("--" + (i.environment + ("--" + i.project)))
  }

  /** `service_label`: refused when it is no DNS label. */
  function ServiceLabel(i: Identity): Option<string> {
    if IsDnsLabel(Compose(i)) then Some(Compose(i)) else None
  }

  function SplitDashes(s: string): (parts: seq<string>)
    ensures parts != []
  {
    if s == "" then [""]
    else if "--" <= s then [""] + SplitDashes(s[2..])
    else
      var rest := SplitDashes(s[1..]);
      [[s[0]] + rest[0]] + rest[1..]
  }

  lemma {:induction false} SplitName(name: string)
    requires NoDoubleDash(name)
    ensures SplitDashes(name) == [name]
    decreases |name|
  {
    if name != "" {
      assert !("--" <= name) by {
        assert |name| > 1 ==> !(name[0] == '-' && name[1] == '-');
      }
      SplitName(name[1..]);
      assert name == [name[0]] + name[1..];
    }
  }

  lemma {:induction false} SplitAfterName(name: string, rest: string)
    requires name != "" && name[|name| - 1] != '-' && NoDoubleDash(name)
    ensures SplitDashes(name + ("--" + rest)) == [name] + SplitDashes(rest)
    decreases |name|
  {
    var s := name + ("--" + rest);
    assert s[0] == name[0] && (|name| > 1 ==> s[1] == name[1]);
    assert !("--" <= s) by {
      assert |name| > 1 ==> !(name[0] == '-' && name[1] == '-');
    }
    if |name| == 1 {
      assert s[1..] == "--" + rest && ("--" + rest)[2..] == rest;
      var parts := SplitDashes(s[1..]);
      assert parts == [""] + SplitDashes(rest) && parts[1..] == SplitDashes(rest);
      assert [s[0]] + parts[0] == name;
    } else {
      assert s[1..] == name[1..] + ("--" + rest);
      SplitAfterName(name[1..], rest);
      assert name == [name[0]] + name[1..];
    }
  }

  /** The parts of a composed label say which identity it came from. */
  function PartsOf(i: Identity): seq<string> {
    if i.environment == PRODUCTION then
      if i.service == DEFAULT_SERVICE then [i.project] else [i.service, i.project]
    else [i.service, i.environment, i.project]
  }

  lemma LabelSplits(i: Identity)
    requires IsIdentity(i)
    ensures SplitDashes(Compose(i)) == PartsOf(i)
  {
    SplitName(i.project);
    if i.environment == PRODUCTION {
      if i.service != DEFAULT_SERVICE {
        SplitAfterName(i.service, i.project);
      }
    } else {
      SplitAfterName(i.environment, i.project);
      SplitAfterName(i.service, i.environment + ("--" + i.project));
      assert [i.service] + ([i.environment] + [i.project]) == [i.service, i.environment, i.project];
    }
  }

  /** No two services share a label, whatever project and environment they are in. */
  lemma LabelsAreUnambiguous(a: Identity, b: Identity)
    requires IsIdentity(a) && IsIdentity(b) && Compose(a) == Compose(b)
    ensures a == b
  {
    LabelSplits(a);
    LabelSplits(b);
    assert |PartsOf(a)| == |PartsOf(b)|;
    assert forall k :: 0 <= k < |PartsOf(a)| ==> PartsOf(a)[k] == PartsOf(b)[k];
  }

  /** In production a name within its grammar is never refused for want of room. */
  lemma ProductionLabelsAlwaysFit(i: Identity)
    requires i.environment == PRODUCTION && IsProjectName(i.project) && IsServiceName(i.service)
    ensures ServiceLabel(i) == Some(Compose(i))
  {
    if i.service != DEFAULT_SERVICE {
      ComposedLooksLikeLabel(i.service, i.project);
    }
  }

  lemma ComposedLooksLikeLabel(a: string, b: string)
    requires LooksLikeLabel(a) && LooksLikeLabel(b)
    ensures LooksLikeLabel(a + ("--" + b)) && |a + ("--" + b)| == |a| + 2 + |b|
  {
    var s := a + ("--" + b);
    assert s[0] == a[0] && s[|s| - 1] == b[|b| - 1];
  }

  /** A label is refused exactly when it would be longer than 63 characters. */
  lemma RefusedExactlyWhenTooLong(i: Identity)
    requires IsIdentity(i)
    ensures ServiceLabel(i).None? <==> |Compose(i)| > 63
  {
    if i.environment != PRODUCTION {
      ComposedLooksLikeLabel(i.environment, i.project);
      ComposedLooksLikeLabel(i.service, i.environment + ("--" + i.project));
    } else if i.service != DEFAULT_SERVICE {
      ComposedLooksLikeLabel(i.service, i.project);
    }
  }

  // --- legacy names --------------------------------------------------------------------------------

  /** An identity that may be created today: the grammars with their lengths. */
  predicate IsNewIdentity(i: Identity) {
    IsProjectName(i.project) && IsName(i.environment) && IsServiceName(i.service)
  }

  /** The last part could name a project, the first of several a service, the middle one an environment. */
  predicate PartsAreAmbiguous(parts: seq<string>) {
    && 1 <= |parts| <= 3 && IsProjectName(parts[|parts| - 1])
    && (|parts| >= 2 ==> IsServiceName(parts[0]))
    && (|parts| == 2 ==> parts[0] != DEFAULT_SERVICE)
    && (|parts| == 3 ==> IsName(parts[1]) && parts[1] != PRODUCTION)
  }

  function JoinDashes(parts: seq<string>): string {
    if parts == [] then "" else if |parts| == 1 then parts[0] else parts[0] + ("--" + JoinDashes(parts[1..]))
  }

  /** Joining after a part, and after one more character in the first part. */
  lemma JoinAfter(first: string, rest: seq<string>)
    ensures JoinDashes([first] + rest) == if rest == [] then first else first + ("--" + JoinDashes(rest))
  {
    assert ([first] + rest)[1..] == rest;
  }

  lemma JoinFront(c: char, first: string, rest: seq<string>)
    ensures JoinDashes([[c] + first] + rest) == [c] + JoinDashes([first] + rest)
  {
    JoinAfter([c] + first, rest);
    JoinAfter(first, rest);
    if rest != [] {
      assert ([c] + first) + ("--" + JoinDashes(rest)) == [c] + (first + ("--" + JoinDashes(rest)));
    }
  }

  lemma {:induction false} JoinOfSplit(s: string)
    ensures JoinDashes(SplitDashes(s)) == s
    decreases |s|
  {
    if s == "" {
    } else if "--" <= s {
      JoinOfSplit(s[2..]);
      JoinAfter("", SplitDashes(s[2..]));
      assert s == "" + ("--" + s[2..]);
    } else {
      var rest := SplitDashes(s[1..]);
      JoinOfSplit(s[1..]);
      JoinFront(s[0], rest[0], rest[1..]);
      assert [rest[0]] + rest[1..] == rest && s == [s[0]] + s[1..];
    }
  }

  /**
   * A legacy project name may contain `--`. Its own label is then the label of a service that may be
   * created too exactly when its parts are names within their lengths that a project, a service and
   * an environment could have, and it fits a DNS label.
   */
  lemma LegacyNameCollidesExactlyWhen(legacy: string)
    ensures (exists i :: IsNewIdentity(i) && ServiceLabel(i) == Some(legacy)) <==>
      PartsAreAmbiguous(SplitDashes(legacy)) && |legacy| <= 63
  {
    if PartsAreAmbiguous(SplitDashes(legacy)) && |legacy| <= 63 {
      AmbiguousNameIsALabel(legacy);
    }
    forall i | IsNewIdentity(i) && ServiceLabel(i) == Some(legacy)
      ensures PartsAreAmbiguous(SplitDashes(legacy)) && |legacy| <= 63
    {
      LabelIsAmbiguous(i);
    }
  }

  lemma AmbiguousNameIsALabel(legacy: string)
    requires PartsAreAmbiguous(SplitDashes(legacy)) && |legacy| <= 63
    ensures var i := IdentityOf(SplitDashes(legacy)); IsNewIdentity(i) && ServiceLabel(i) == Some(legacy)
  {
    JoinOfSplit(legacy);
    PartsCompose(SplitDashes(legacy));
    RefusedExactlyWhenTooLong(IdentityOf(SplitDashes(legacy)));
  }

  lemma LabelIsAmbiguous(i: Identity)
    requires IsNewIdentity(i) && ServiceLabel(i).Some?
    ensures PartsAreAmbiguous(SplitDashes(ServiceLabel(i).value)) && |ServiceLabel(i).value| <= 63
  {
    LabelSplits(i);
    IdentityIsAmbiguous(i);
  }

  lemma IdentityIsAmbiguous(i: Identity)
    requires IsNewIdentity(i)
    ensures PartsAreAmbiguous(PartsOf(i))
  {
  }

  function IdentityOf(parts: seq<string>): Identity
    requires 1 <= |parts| <= 3
  {
    if |parts| == 1 then Identity(parts[0], PRODUCTION, DEFAULT_SERVICE)
    else if |parts| == 2 then Identity(parts[1], PRODUCTION, parts[0])
    else Identity(parts[2], parts[1], parts[0])
  }

  lemma PartsCompose(parts: seq<string>)
    requires PartsAreAmbiguous(parts)
    ensures IsNewIdentity(IdentityOf(parts)) && Compose(IdentityOf(parts)) == JoinDashes(parts)
  {
    ProductionIsAName();
    if |parts| == 2 {
      assert parts[1..] == [parts[1]];
    } else if |parts| == 3 {
      assert parts[1..] == [parts[1], parts[2]];
      JoinOfTwo(parts[1], parts[2]);
    }
  }

  lemma JoinOfTwo(a: string, b: string)
    ensures JoinDashes([a, b]) == a + ("--" + b)
  {
    assert [a, b][1..] == [b];
  }

  lemma ProductionIsAName()
    ensures IsName(PRODUCTION) && IsName(DEFAULT_SERVICE)
  {
  }

  // --- qualified names -----------------------------------------------------------------------------

  /** `parse_qualified`. */
  function ParseQualified(text: string): Option<Identity> {
    var parts := Split(text, '/');
    if |parts| > 3 || exists p <- parts :: p == "" then None
    else if |parts| == 1 then Some(Identity(parts[0], PRODUCTION, DEFAULT_SERVICE))
    else if |parts| == 2 then Some(Identity(parts[0], PRODUCTION, parts[1]))
    else Some(Identity(parts[0], parts[1], parts[2]))
  }

  /** The three ways of writing an identity, the short ones when the defaults apply. */
  function Qualified(i: Identity, segments: nat): string
    requires 1 <= segments <= 3
  {
    if segments == 1 then i.project
    else if segments == 2 then Join([i.project, i.service], '/')
    else Join([i.project, i.environment, i.service], '/')
  }

  predicate Writable(i: Identity, segments: nat) {
    && i.project != "" && i.environment != "" && i.service != ""
    && '/' !in i.project && '/' !in i.environment && '/' !in i.service
    && 1 <= segments <= 3
    && (segments <= 2 ==> i.environment == PRODUCTION) && (segments == 1 ==> i.service == DEFAULT_SERVICE)
  }

  lemma QualifiedNamesReadBack(i: Identity, segments: nat)
    requires Writable(i, segments)
    ensures ParseQualified(Qualified(i, segments)) == Some(i)
  {
    var parts :=
      if segments == 1 then [i.project]
      else if segments == 2 then [i.project, i.service]
      else [i.project, i.environment, i.service];
    SplitOfJoin(parts, '/');
    assert Join(parts, '/') == Qualified(i, segments);
  }

  /** And every text that parses is one of those writings of what it parses to. */
  lemma ParsedNamesAreQualified(text: string)
    requires ParseQualified(text).Some?
    ensures exists segments :: Writable(ParseQualified(text).value, segments)
                               && Qualified(ParseQualified(text).value, segments) == text
  {
    var parts := Split(text, '/');
    var i := ParseQualified(text).value;
    assert parts[0] in parts;
    if |parts| == 2 {
      assert parts[1] in parts && parts == [parts[0], parts[1]];
    } else if |parts| == 3 {
      assert parts[1] in parts && parts[2] in parts && parts == [parts[0], parts[1], parts[2]];
    } else {
      assert parts == [parts[0]];
    }
    assert Writable(i, |parts|) && Qualified(i, |parts|) == text;
  }
}
