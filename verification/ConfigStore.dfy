/**
 * Staging of configuration writes: a section is validated against what is stored, and only the
 * supplied keys are rewritten. Validation is any per-key coercion and any rule across keys.
 */
module ConfigStore {
  import opened Common

  type Key = string
  type Section = string

  datatype Value = Null | Scalar(text: string) | Table(entries: map<string, Value>)

  type Doc = map<Key, Value>

  /** One field of a section's model; `coerce` yields the validated value or refuses. */
  datatype Field = Field(coerce: Value -> Option<Value>, default: Value)

  datatype Schema = Schema(fields: map<Key, Field>, consistent: Doc -> bool)

  datatype StageError = UnknownSection | Forbidden | Invalid | StoredInvalid

  /** The section as it will be on disk, and the keys whose value changes. */
  datatype Staged = Staged(merged: Doc, diff: set<Key>)

  // --- validation --------------------------------------------------------------------------------

  /** A supplied table over a stored one merges one level deep; anything else replaces. */
  function Merge(stored: Value, supplied: Value): Value {
    if stored.Table? && supplied.Table? then Table(stored.entries + supplied.entries) else supplied
  }

  function Stored(stored: Doc, k: Key): Value {
    if k in stored then stored[k] else Null
  }

  function MergedBody(stored: Doc, body: Doc): Doc {
    map k | k in body :: Merge(Stored(stored, k), body[k])
  }

  function Coerced(f: Field, doc: Doc, k: Key): Option<Value> {
    if k in doc then f.coerce(doc[k]) else Some(f.default)
  }

  /** `model(**doc).model_dump()`; keys the model does not know are ignored. */
  function Validate(schema: Schema, doc: Doc): Option<Doc> {
    if forall k <- schema.fields :: Coerced(schema.fields[k], doc, k).Some? then
      var dumped := map k | k in schema.fields :: Coerced(schema.fields[k], doc, k).value;
      if schema.consistent(dumped) then Some(dumped) else None
    else None
  }

  // --- staging -----------------------------------------------------------------------------------

  function Persisted(dumped: Doc, body: Doc): Doc {
    map k | k in body && k in dumped && dumped[k] != Null :: dumped[k]
  }

  function Cleared(dumped: Doc, body: Doc): set<Key> {
    set k | k in body && k in dumped && dumped[k] == Null
  }

  function MergedSection(stored: Doc, dumped: Doc, body: Doc): Doc {
    (stored + Persisted(dumped, body)) - Cleared(dumped, body)
  }

  /** The value a supplied key has afterwards: its own, or the default once it is cleared. */
  function NewValue(schema: Schema, dumped: Doc, k: Key): Value
    requires k in dumped && k in schema.fields
  {
    if dumped[k] == Null then schema.fields[k].default else dumped[k]
  }

  function DiffKeys(schema: Schema, before: Doc, dumped: Doc, body: Doc): set<Key> {
    set k | k in body && k in schema.fields && k in dumped && k in before && before[k] != NewValue(schema, dumped, k)
  }

  function Lower(s: string): string {
    seq(|s|, i requires 0 <= i < |s| => if 'A' <= s[i] <= 'Z' then (s[i] as int + 32) as char else s[i])
  }

  /** Keys no request may write, in any spelling. */
  predicate IsForbidden(k: Key) {
    Lower(k) == "auth_token"
  }

  function Stage(schema: Schema, stored: Doc, body: Doc): Result<Staged, StageError> {
    if exists k <- body :: IsForbidden(k) then Err(Forbidden)
    else if !(body.Keys <= schema.fields.Keys) then Err(Invalid)
    else
      var validated := Validate(schema, stored + MergedBody(stored, body));
      if validated.None? then Err(Invalid)
      else
        var merged := MergedSection(stored, validated.value, body);
        if Validate(schema, merged).None? then Err(Invalid)
        else
          var before := Validate(schema, stored);
          if before.None? then Err(StoredInvalid)
          else Ok(Staged(merged, DiffKeys(schema, before.value, validated.value, body)))
  }

  // --- what a well-behaved schema promises ---------------------------------------------------------

  /** Coercing a coerced value changes nothing. */
  ghost predicate Idempotent(schema: Schema) {
    forall k <- schema.fields :: Settles(schema.fields[k])
  }

  ghost predicate Settles(f: Field) {
    forall v, w :: f.coerce(v) == Some(w) && w != Null ==> f.coerce(w) == Some(w)
  }

  /** Coercion of one entry of a table: a value to keep, `Some(None)` to drop the entry, or a refusal. */
  type EntryRule = (string, Value) -> Option<Option<Value>>

  function Kept(rule: EntryRule, entries: map<string, Value>): map<string, Value> {
    map k | k in entries && rule(k, entries[k]).Some? && rule(k, entries[k]).value.Some? :: rule(k, entries[k]).value.value
  }

  /** A nested model: every entry is coerced by itself, idempotently, and absent ones get their defaults. */
  ghost predicate CoercesEntrywise(f: Field, rule: EntryRule, defaults: map<string, Value>) {
    && (forall entries :: f.coerce(Table(entries)) ==
          if Accepted(rule, entries) then Some(Table(defaults + Kept(rule, entries))) else None)
    && RuleSettles(rule, defaults)
  }

  predicate Accepted(rule: EntryRule, entries: map<string, Value>) {
    forall k <- entries :: rule(k, entries[k]).Some?
  }

  ghost predicate RuleSettles(rule: EntryRule, defaults: map<string, Value>) {
    && (forall k, v, w :: rule(k, v) == Some(Some(w)) ==> rule(k, w) == Some(Some(w)))
    && (forall k <- defaults :: rule(k, defaults[k]) == Some(Some(defaults[k])))
  }

  /** The field takes no tables, or takes them entry by entry. */
  ghost predicate TablesAreEntrywise(f: Field) {
    || (forall entries :: f.coerce(Table(entries)).None?)
    || (exists rule: EntryRule, defaults: map<string, Value> :: CoercesEntrywise(f, rule, defaults))
  }

  // --- properties of one section -------------------------------------------------------------------

  /** Staging touches only the supplied keys. */
  lemma StageTouchesOnlySuppliedKeys(schema: Schema, stored: Doc, body: Doc)
    requires Stage(schema, stored, body).Ok?
    ensures var merged := Stage(schema, stored, body).value.merged;
      && (forall k <- stored :: k !in body ==> k in merged && merged[k] == stored[k])
      && (forall k <- merged :: k !in body ==> k in stored)
  {
  }

  /** Supplying the same value over its own result gives that result. */
  predicate MergesAgain(f: Field, stored: Value, supplied: Value) {
    var w := f.coerce(Merge(stored, supplied));
    w.Some? ==> f.coerce(Merge(w.value, supplied)) == w
  }

  lemma EntryAgain(rule: EntryRule, defaults: map<string, Value>, e: map<string, Value>, supplied: map<string, Value>, k: string)
    requires RuleSettles(rule, defaults) && Accepted(rule, e) && forall x <- supplied :: x in e && e[x] == supplied[x]
    requires k in defaults + Kept(rule, e) + supplied
    ensures var w := defaults + Kept(rule, e);
      var again := rule(k, (w + supplied)[k]);
      && again.Some?
      && (if k in supplied then again == rule(k, e[k]) else k in w && again == Some(Some(w[k])))
  {
    if k !in supplied && k in Kept(rule, e) {
      assert rule(k, e[k]) == Some(Some(Kept(rule, e)[k]));
    }
  }

  /** Whether and how one key of the second result is what it was in the first. */
  lemma KeyAgain(rule: EntryRule, defaults: map<string, Value>, e: map<string, Value>, supplied: map<string, Value>, k: string)
    requires RuleSettles(rule, defaults) && Accepted(rule, e) && forall x <- supplied :: x in e && e[x] == supplied[x]
    ensures var w := defaults + Kept(rule, e);
      var second := defaults + Kept(rule, w + supplied);
      && (k in second <==> k in w) && (k in w ==> second[k] == w[k])
  {
    var w := defaults + Kept(rule, e);
    if k in w + supplied {
      EntryAgain(rule, defaults, e, supplied, k);
    }
  }

  lemma EntriesAgain(rule: EntryRule, defaults: map<string, Value>, e: map<string, Value>, supplied: map<string, Value>)
    requires RuleSettles(rule, defaults) && Accepted(rule, e) && forall k <- supplied :: k in e && e[k] == supplied[k]
    ensures var w := defaults + Kept(rule, e);
      Accepted(rule, w + supplied) && defaults + Kept(rule, w + supplied) == w
  {
    var w := defaults + Kept(rule, e);
    forall k | k in w + supplied
      ensures rule(k, (w + supplied)[k]).Some?
    {
      EntryAgain(rule, defaults, e, supplied, k);
    }
    var second := defaults + Kept(rule, w + supplied);
    forall k
      ensures (k in second <==> k in w) && (k in w ==> second[k] == w[k])
    {
      KeyAgain(rule, defaults, e, supplied, k);
    }
    SameMap(second, w);
  }

  lemma SameMap(a: map<string, Value>, b: map<string, Value>)
    requires a.Keys == b.Keys && forall k <- a :: a[k] == b[k]
    ensures a == b
  {
  }

  lemma EntriesMergeAgain(f: Field, rule: EntryRule, defaults: map<string, Value>, e: map<string, Value>, supplied: map<string, Value>)
    requires CoercesEntrywise(f, rule, defaults) && f.coerce(Table(e)).Some?
    requires forall k <- supplied :: k in e && e[k] == supplied[k]
    ensures var w := f.coerce(Table(e)).value;
      w.Table? && f.coerce(Table(w.entries + supplied)) == Some(w)
  {
    assert Accepted(rule, e);
    EntriesAgain(rule, defaults, e, supplied);
  }

  /** Anything but a table over a table is supplied as it is; a table over a table goes entry by entry. */
  lemma SuppliedMergesAgain(f: Field, stored: Value, supplied: Value)
    requires TablesAreEntrywise(f)
    ensures MergesAgain(f, stored, supplied)
  {
    var merged := Merge(stored, supplied);
    if supplied.Table? && f.coerce(merged).Some? {
      var rule: EntryRule, defaults: map<string, Value> :| CoercesEntrywise(f, rule, defaults);
      EntriesMergeAgain(f, rule, defaults, merged.entries, supplied.entries);
    }
  }

  function Dumped(schema: Schema, stored: Doc, body: Doc): Option<Doc> {
    Validate(schema, stored + MergedBody(stored, body))
  }

  /** A key of a validated document. */
  lemma ValidatedKey(schema: Schema, doc: Doc, k: Key)
    requires Validate(schema, doc).Some? && k in schema.fields
    ensures k in Validate(schema, doc).value && Coerced(schema.fields[k], doc, k) == Some(Validate(schema, doc).value[k])
  {
  }

  lemma KeyAfter(f: Field, stored: Doc, body: Doc, dumped: Doc, k: Key)
    requires k in dumped && Coerced(f, stored + MergedBody(stored, body), k) == Some(dumped[k])
    requires dumped[k] != Null && k in body ==> f.coerce(dumped[k]) == Some(dumped[k])
    ensures Coerced(f, MergedSection(stored, dumped, body), k) ==
      if k !in body then Coerced(f, stored, k)
      else if dumped[k] == Null then Some(f.default) else Some(dumped[k])
  {
    var doc, merged := stored + MergedBody(stored, body), MergedSection(stored, dumped, body);
    if k in body {
      assert doc[k] == Merge(Stored(stored, k), body[k]);
      if dumped[k] == Null {
        assert k in Cleared(dumped, body) && k !in merged;
      } else {
        assert merged[k] == dumped[k];
      }
    } else {
      assert k in merged <==> k in stored;
    }
  }

  lemma RestagedKey(f: Field, stored: Doc, body: Doc, dumped: Doc, k: Key)
    requires k in dumped && Coerced(f, stored + MergedBody(stored, body), k) == Some(dumped[k])
    requires k in body ==> MergesAgain(f, Stored(stored, k), body[k])
    ensures var merged := MergedSection(stored, dumped, body);
      Coerced(f, merged + MergedBody(merged, body), k) == Some(dumped[k])
  {
    var doc, merged := stored + MergedBody(stored, body), MergedSection(stored, dumped, body);
    var again := merged + MergedBody(merged, body);
    if k in body {
      assert doc[k] == Merge(Stored(stored, k), body[k]);
      assert again[k] == Merge(Stored(merged, k), body[k]);
      if dumped[k] == Null {
        assert k in Cleared(dumped, body) && k !in merged;
      } else {
        assert merged[k] == dumped[k];
      }
    } else {
      assert k in merged <==> k in stored;
      assert k in again <==> k in merged;
    }
  }

  /** Two documents that coerce alike validate alike. */
  lemma ValidateAlike(schema: Schema, doc: Doc, dumped: Doc)
    requires dumped.Keys == schema.fields.Keys && schema.consistent(dumped)
    requires forall k <- schema.fields :: Coerced(schema.fields[k], doc, k) == Some(dumped[k])
    ensures Validate(schema, doc) == Some(dumped)
  {
    var all := map k | k in schema.fields :: Coerced(schema.fields[k], doc, k).value;
    assert all == dumped;
  }

  /** The diff is exactly the set of keys whose effective value changes, supplied or not. */
  lemma DiffIsExact(schema: Schema, stored: Doc, body: Doc)
    requires Idempotent(schema) && Stage(schema, stored, body).Ok?
    ensures var staged := Stage(schema, stored, body).value;
      var before, now := Validate(schema, stored).value, Validate(schema, staged.merged).value;
      staged.diff == set k | k in schema.fields && before[k] != now[k]
  {
    var staged := Stage(schema, stored, body).value;
    var before, now := Validate(schema, stored).value, Validate(schema, staged.merged).value;
    forall k | k in schema.fields
      ensures k in staged.diff <==> before[k] != now[k]
    {
      DiffKeyIsExact(schema, stored, body, k);
    }
    assert staged.diff <= schema.fields.Keys;
  }

  /** A supplied key reads back as the value the diff compares with. */
  lemma SuppliedKeyAfter(schema: Schema, stored: Doc, body: Doc, k: Key)
    requires Idempotent(schema) && Stage(schema, stored, body).Ok? && k in schema.fields
    ensures var merged, dumped := Stage(schema, stored, body).value.merged, Dumped(schema, stored, body).value;
      Validate(schema, merged).value[k] == if k in body then NewValue(schema, dumped, k) else Validate(schema, stored).value[k]
  {
    var merged, dumped := Stage(schema, stored, body).value.merged, Dumped(schema, stored, body).value;
    ValidatedKey(schema, stored, k);
    ValidatedKey(schema, merged, k);
    ValidatedKey(schema, stored + MergedBody(stored, body), k);
    assert Settles(schema.fields[k]);
    KeyAfter(schema.fields[k], stored, body, dumped, k);
  }

  lemma DiffKeyIsExact(schema: Schema, stored: Doc, body: Doc, k: Key)
    requires Idempotent(schema) && Stage(schema, stored, body).Ok? && k in schema.fields
    ensures var staged := Stage(schema, stored, body).value;
      k in staged.diff <==> Validate(schema, stored).value[k] != Validate(schema, staged.merged).value[k]
  {
    SuppliedKeyAfter(schema, stored, body, k);
  }

  /** Staging the same body on the result succeeds, changes nothing and reports nothing. */
  lemma RestagingIsANoOp(schema: Schema, stored: Doc, body: Doc)
    requires Idempotent(schema) && Stage(schema, stored, body).Ok?
    requires forall k <- schema.fields :: TablesAreEntrywise(schema.fields[k])
    ensures var merged := Stage(schema, stored, body).value.merged;
      Stage(schema, merged, body) == Ok(Staged(merged, {}))
  {
    RestagedDump(schema, stored, body);
    MergedAgain(stored, Dumped(schema, stored, body).value, body);
    NothingDiffers(schema, stored, body);
  }

  lemma RestagedDump(schema: Schema, stored: Doc, body: Doc)
    requires Stage(schema, stored, body).Ok?
    requires forall k <- schema.fields :: TablesAreEntrywise(schema.fields[k])
    ensures var merged := Stage(schema, stored, body).value.merged;
      Dumped(schema, merged, body) == Dumped(schema, stored, body)
  {
    var merged := Stage(schema, stored, body).value.merged;
    var dumped := Dumped(schema, stored, body).value;
    forall k | k in schema.fields
      ensures Coerced(schema.fields[k], merged + MergedBody(merged, body), k) == Some(dumped[k])
    {
      ValidatedKey(schema, stored + MergedBody(stored, body), k);
      if k in body {
        SuppliedMergesAgain(schema.fields[k], Stored(stored, k), body[k]);
      }
      RestagedKey(schema.fields[k], stored, body, dumped, k);
    }
    ValidateAlike(schema, merged + MergedBody(merged, body), dumped);
  }

  lemma MergedAgain(stored: Doc, dumped: Doc, body: Doc)
    ensures var merged := MergedSection(stored, dumped, body);
      MergedSection(merged, dumped, body) == merged
  {
  }

  lemma NothingDiffers(schema: Schema, stored: Doc, body: Doc)
    requires Idempotent(schema) && Stage(schema, stored, body).Ok?
    ensures var merged := Stage(schema, stored, body).value.merged;
      DiffKeys(schema, Validate(schema, merged).value, Dumped(schema, stored, body).value, body) == {}
  {
    var merged := Stage(schema, stored, body).value.merged;
    var dumped := Dumped(schema, stored, body).value;
    forall k | k in body && k in schema.fields
      ensures Validate(schema, merged).value[k] == NewValue(schema, dumped, k)
    {
      SuppliedKeyAfter(schema, stored, body, k);
    }
  }

  lemma OneKeyValidates(k: Key, f: Field, v: Value, w: Value)
    requires f.coerce(v) == Some(w)
    ensures Validate(Schema(map[k := f], _ => true), map[k := v]) == Some(map[k := w])
  {
    ValidateAlike(Schema(map[k := f], _ => true), map[k := v], map[k := w]);
  }

  lemma OneKeyMerges(k: Key, f: Field, stored: Value, supplied: Value, w: Value)
    requires w != Null
    ensures var was: Doc, body: Doc, dumped: Doc := map[k := stored], map[k := supplied], map[k := w];
      && was + MergedBody(was, body) == map[k := Merge(stored, supplied)]
      && MergedSection(was, dumped, body) == dumped
      && DiffKeys(Schema(map[k := f], _ => true), was, dumped, body) == if stored == w then {} else {k}
  {
    var was: Doc, body: Doc, dumped: Doc := map[k := stored], map[k := supplied], map[k := w];
    assert Persisted(dumped, body) == dumped && Cleared(dumped, body) == {};
    assert was + dumped == dumped;
  }

  /** Staging one key of a one-field section. */
  lemma OneKeyStages(k: Key, f: Field, stored: Value, supplied: Value, w: Value)
    requires !IsForbidden(k) && w != Null && f.coerce(w) == Some(w) && f.coerce(stored) == Some(stored)
    requires f.coerce(Merge(stored, supplied)) == Some(w)
    ensures Stage(Schema(map[k := f], _ => true), map[k := stored], map[k := supplied]) ==
      Ok(Staged(map[k := w], if stored == w then {} else {k}))
  {
    OneKeyMerges(k, f, stored, supplied, w);
    OneKeyValidates(k, f, Merge(stored, supplied), w);
    OneKeyValidates(k, f, w, w);
    OneKeyValidates(k, f, stored, stored);
  }

  /** A field that takes tables of one entry as they are and turns larger ones into a scalar. */
  const CROWDED: Field := Field((v: Value) => if v.Table? && |v.entries| >= 2 then Some(Scalar("crowd")) else Some(v), Null)

  /**
   * Idempotence alone is not enough for tables: a coercion that looks at several entries at once sees
   * the stored one beside the supplied one the first time, and the supplied one alone the second.
   */
  lemma RestagingNeedsEntrywise(k: Key)
    requires !IsForbidden(k)
    ensures var schema := Schema(map[k := CROWDED], _ => true);
      var stored, supplied, crowd := Table(map["a" := Null]), Table(map["b" := Null]), Scalar("crowd");
      && Settles(CROWDED)
      && Stage(schema, map[k := stored], map[k := supplied]) == Ok(Staged(map[k := crowd], {k}))
      && Stage(schema, map[k := crowd], map[k := supplied]) == Ok(Staged(map[k := supplied], {k}))
  {
    var stored, supplied, crowd := Table(map["a" := Null]), Table(map["b" := Null]), Scalar("crowd");
    assert stored.entries + supplied.entries == map["a" := Null, "b" := Null];
    assert |map["a" := Null, "b" := Null]| == 2;
    OneKeyStages(k, CROWDED, stored, supplied, crowd);
    OneKeyStages(k, CROWDED, crowd, supplied, supplied);
  }

  // --- several sections ----------------------------------------------------------------------------

  type Raw = map<Section, Doc>

  /** How one section would be staged on what is stored for it, if at all. */
  type Stager = (Section, Doc) -> Option<Staged>

  function StoredSection(raw: Raw, s: Section): Doc {
    if s in raw then raw[s] else map[]
  }

  /** The stager of a document: the body of each of its sections under that section's schema. */
  function StagerOf(schemas: map<Section, Schema>, sections: map<Section, Doc>): Stager {
    (s, stored) =>
      if s !in schemas || s !in sections then None
      else
        var r := Stage(schemas[s], stored, sections[s]);
        if r.Ok? then Some(r.value) else None
  }

  /** Every section stages on what is stored for it. */
  predicate AllStage(f: Stager, raw: Raw, names: set<Section>) {
    forall s <- names :: f(s, StoredSection(raw, s)).Some?
  }

  /** The file with every section replaced by its own staging. */
  function Applied(f: Stager, raw: Raw, names: set<Section>): Raw
    requires AllStage(f, raw, names)
  {
    raw + map s | s in names :: f(s, StoredSection(raw, s)).value.merged
  }

  /** The keys that change, by section. */
  function Changes(f: Stager, raw: Raw, names: set<Section>): map<Section, set<Key>>
    requires AllStage(f, raw, names)
  {
    map s | s in names :: f(s, StoredSection(raw, s)).value.diff
  }

  /** Staging one section after the other, each on the outcome of the last. */
  function StageInOrder(f: Stager, raw: Raw, order: seq<Section>): Option<Raw>
    decreases |order|
  {
    if order == [] then Some(raw)
    else
      var staged := f(order[0], StoredSection(raw, order[0]));
      if staged.None? then None else StageInOrder(f, raw[order[0] := staged.value.merged], order[1..])
  }

  predicate Distinct(order: seq<Section>) {
    forall i, j :: 0 <= i < j < |order| ==> order[i] != order[j]
  }

  function Names(order: seq<Section>): set<Section> {
    set s <- order
  }

  /** Staging one section leaves what the others are staged on alone. */
  lemma OneSectionFirst(f: Stager, raw: Raw, s: Section, others: set<Section>)
    requires s !in others && f(s, StoredSection(raw, s)).Some?
    ensures var next := raw[s := f(s, StoredSection(raw, s)).value.merged];
      && (AllStage(f, next, others) <==> AllStage(f, raw, {s} + others))
      && (AllStage(f, raw, {s} + others) ==> Applied(f, next, others) == Applied(f, raw, {s} + others))
  {
    var next := raw[s := f(s, StoredSection(raw, s)).value.merged];
    forall t | t in others
      ensures f(t, StoredSection(next, t)) == f(t, StoredSection(raw, t))
    {
      assert StoredSection(next, t) == StoredSection(raw, t);
    }
    if AllStage(f, raw, {s} + others) {
      SameApplication(f, raw, next, s, others);
    }
  }

  lemma SameApplication(f: Stager, raw: Raw, next: Raw, s: Section, others: set<Section>)
    requires s !in others && AllStage(f, raw, {s} + others) && AllStage(f, next, others)
    requires next == raw[s := f(s, StoredSection(raw, s)).value.merged]
    ensures Applied(f, next, others) == Applied(f, raw, {s} + others)
  {
    forall t | t in others
      ensures StoredSection(next, t) == StoredSection(raw, t)
    {
    }
  }

  lemma NamesSplit(order: seq<Section>)
    requires order != [] && Distinct(order)
    ensures Names(order) == {order[0]} + Names(order[1..]) && order[0] !in Names(order[1..]) && Distinct(order[1..])
  {
    assert order == [order[0]] + order[1..];
  }

  lemma {:induction false} OrderedStagingApplies(f: Stager, raw: Raw, order: seq<Section>)
    requires Distinct(order)
    ensures StageInOrder(f, raw, order) ==
      if AllStage(f, raw, Names(order)) then Some(Applied(f, raw, Names(order))) else None
    decreases |order|
  {
    if order == [] {
      assert Names(order) == {};
      assert raw + map[] == raw;
    } else {
      var s := order[0];
      NamesSplit(order);
      var staged := f(s, StoredSection(raw, s));
      if staged.Some? {
        OrderedStagingApplies(f, raw[s := staged.value.merged], order[1..]);
        OneSectionFirst(f, raw, s, Names(order[1..]));
      } else {
        assert s in Names(order);
      }
    }
  }

  /** In whatever order the sections are staged, all of them are applied, to one result, or none is. */
  lemma StagingOrderDoesNotMatter(
    schemas: map<Section, Schema>, raw: Raw, sections: map<Section, Doc>, a: seq<Section>, b: seq<Section>)
    requires Names(a) == sections.Keys && Distinct(a) && Names(b) == sections.Keys && Distinct(b)
    ensures var f := StagerOf(schemas, sections);
      && StageInOrder(f, raw, a) == StageInOrder(f, raw, b)
      && (StageInOrder(f, raw, a).Some? <==> AllStage(f, raw, sections.Keys))
      && (AllStage(f, raw, sections.Keys) ==> StageInOrder(f, raw, a) == Some(Applied(f, raw, sections.Keys)))
  {
    var f := StagerOf(schemas, sections);
    OrderedStagingApplies(f, raw, a);
    OrderedStagingApplies(f, raw, b);
  }

  class Store {
    const schemas: map<Section, Schema>
    var file: Raw

    constructor (schemas: map<Section, Schema>, file: Raw)
      ensures this.schemas == schemas && this.file == file
    {
      this.schemas, this.file := schemas, file;
    }

    /**
     * `stage_many`: nothing is written; the result is every section's own staging, or a refusal when
     * any section has none, and the changes are the sections' own.
     */
    method StageMany(sections: map<Section, Doc>, order: seq<Section>)
      returns (staged: Option<Raw>, changes: map<Section, set<Key>>)
      requires Names(order) == sections.Keys && Distinct(order)
      ensures var f := StagerOf(schemas, sections);
        && (staged.Some? <==> AllStage(f, file, sections.Keys))
        && (staged.Some? ==> staged.value == Applied(f, file, sections.Keys) && changes == Changes(f, file, sections.Keys))
    {
      staged, changes := StageAll(StagerOf(schemas, sections), file, order);
    }

    /** `commit`: a document identical to the file is not written. */
    method Commit(staged: Raw) returns (written: bool)
      modifies this`file
      ensures file == staged && (written <==> old(file) != staged)
    {
      written := staged != file;
      if written {
        file := staged;
      }
    }
  }

  /** The accumulating loop; a section that fails is passed over, so that all failures are reported. */
  method StageAll(f: Stager, raw: Raw, order: seq<Section>)
    returns (staged: Option<Raw>, changes: map<Section, set<Key>>)
    requires Distinct(order)
    ensures staged.Some? <==> AllStage(f, raw, Names(order))
    ensures staged.Some? ==> staged.value == Applied(f, raw, Names(order)) && changes == Changes(f, raw, Names(order))
  {
    var current, failed := raw, false;
    changes := map[];
    assert Names(order[..0]) == {} && raw + map[] == raw;
    for i := 0 to |order|
      invariant failed <==> !AllStage(f, raw, Names(order[..i]))
      invariant !failed ==> current == Applied(f, raw, Names(order[..i])) && changes == Changes(f, raw, Names(order[..i]))
      invariant forall j :: i <= j < |order| ==> StoredSection(current, order[j]) == StoredSection(raw, order[j])
    {
      var s := order[i];
      NamesGrow(order, i);
      var one := f(s, StoredSection(current, s));
      if one.None? {
        failed := true;
      } else {
        LastStages(f, raw, Names(order[..i]), s);
        if !failed {
          LastApplied(f, raw, Names(order[..i]), s);
          LastChange(f, raw, Names(order[..i]), s);
        }
        changes := changes[s := one.value.diff];
        current := current[s := one.value.merged];
      }
    }
    assert order[..|order|] == order;
    staged := if failed then None else Some(current);
  }

  lemma NamesGrow(order: seq<Section>, i: nat)
    requires i < |order| && Distinct(order)
    ensures Names(order[..i + 1]) == Names(order[..i]) + {order[i]} && order[i] !in Names(order[..i])
  {
    assert order[..i + 1] == order[..i] + [order[i]];
  }

  lemma LastStages(f: Stager, raw: Raw, done: set<Section>, s: Section)
    requires f(s, StoredSection(raw, s)).Some?
    ensures AllStage(f, raw, done + {s}) <==> AllStage(f, raw, done)
  {
  }

  lemma LastApplied(f: Stager, raw: Raw, done: set<Section>, s: Section)
    requires s !in done && f(s, StoredSection(raw, s)).Some? && AllStage(f, raw, done)
    ensures Applied(f, raw, done + {s}) == Applied(f, raw, done)[s := f(s, StoredSection(raw, s)).value.merged]
  {
  }

  lemma LastChange(f: Stager, raw: Raw, done: set<Section>, s: Section)
    requires s !in done && f(s, StoredSection(raw, s)).Some? && AllStage(f, raw, done)
    ensures Changes(f, raw, done + {s}) == Changes(f, raw, done)[s := f(s, StoredSection(raw, s)).value.diff]
  {
  }
}
