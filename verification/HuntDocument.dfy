/** Which documents are a saved hunt: field by field, in the names and forms they are
    stored under. */
module HuntDocument {
  import opened Wrappers
  import opened CoreSets
  import opened Decimals
  import opened Json
  import opened HuntModel
  import opened HuntValidate
  import opened HuntJson

  // ----- how each kind of field is spelled -----

  ghost predicate SpellsCores(j: Json, cores: seq<int>) {
    && j.List? && |j.items| == |cores|
    && forall i :: 0 <= i < |cores| ==> j.items[i] == Int(cores[i])
  }

  ghost predicate SpellsGroups(j: Json, groups: seq<seq<int>>) {
    && j.List? && |j.items| == |groups|
    && forall i :: 0 <= i < |groups| ==> SpellsCores(j.items[i], groups[i])
  }

  /** One entry for each core, under its id in decimal, and no other. */
  ghost predicate SpellsVector(j: Json, v: map<int, int>) {
    && j.Object?
    && (forall c :: c in v ==> Text(Decimal(c)) in j.fields && j.fields[Text(Decimal(c))] == Int(v[c]))
    && (forall k :: k in j.fields ==> exists c :: c in v && k == Text(Decimal(c)))
  }

  /** A time may be stored as a whole number. */
  ghost predicate SpellsTime(j: Json, x: real) {
    j == Real(x) || (j.Int? && j.n as real == x)
  }

  ghost predicate SpellsStage(j: Json, stage: Stage) {
    match stage
    case Lead => j == Str("lead")
    case Probe => j == Str("probe")
    case Culprit => j == Str("culprit")
    case Exhausted => j == Str("exhausted")
  }

  ghost predicate SpellsSets(f: map<Key, Json>, s: Hunt)
    requires f.Keys == FIELDS
  {
    && SpellsCores(f[Candidates], s.candidates)
    && SpellsGroups(f[Key.Pending], s.pending)
    && SpellsGroups(f[Queue], s.queue)
    && SpellsCores(f[InFlight], s.inFlight)
    && SpellsCores(f[Parent], s.parent)
    && SpellsGroups(f[GuiltyHalves], s.guilty)
    && SpellsCores(f[Found], s.found)
    && SpellsCores(f[Loaded], s.loaded)
  }

  ghost predicate SpellsRest(f: map<Key, Json>, s: Hunt)
    requires f.Keys == FIELDS
  {
    && SpellsStage(f[StageKey], s.stage)
    && f[Level] == Int(s.level)
    && f[NoReproduce] == Int(s.noReproduce)
    && f[LaunchesDone] == Int(s.launchesDone)
    && SpellsTime(f[ObservedFailureTime], s.observed)
    && f[Armed] == Bool(s.armed)
    && SpellsVector(f[Vector], s.vector)
    && f[Workload] == s.workload
  }

  /** The document is the hunt, stored by version 5 of the program. */
  ghost predicate Spells(doc: Json, s: Hunt) {
    && doc.Object? && doc.fields.Keys == FIELDS
    && doc.fields[Version] == Int(5)
    && SpellsSets(doc.fields, s) && SpellsRest(doc.fields, s)
  }

  // ----- decoding is spelling -----

  lemma {:induction false} IntsIff(items: seq<Json>, s: seq<int>)
    ensures DecodeInts(items) == Some(s) <==>
            SpellsCores(List(items), s) && forall c :: c in s ==> Counter(c)
  {
    if items != [] && s != [] {
      IntsIff(items[1..], s[1..]);
      assert s == [s[0]] + s[1..];
      assert forall i :: 1 <= i < |s| ==> s[i] == s[1..][i - 1];
      assert forall i :: 1 <= i < |items| ==> items[i] == items[1..][i - 1];
      assert forall i :: 0 <= i < |items[1..]| ==> items[1..][i] == items[i + 1];
      assert forall c :: c in s <==> c == s[0] || c in s[1..];
      if DecodeInts(items) == Some(s) {
        assert [s[0]] + DecodeInts(items[1..]).value == s;
        assert DecodeInts(items[1..]).value == s[1..];
      }
    }
  }

  lemma CoresIff(j: Json, s: seq<int>, mayBeEmpty: bool)
    ensures DecodeCoreSet(j, mayBeEmpty) == Some(s) <==> SpellsCores(j, s) && CoreSet(s, mayBeEmpty)
  {
    if j.List? {
      IntsIff(j.items, s);
    }
  }

  lemma {:induction false} GroupListIff(items: seq<Json>, gs: seq<seq<int>>)
    ensures DecodeGroups(items) == Some(gs) <==> SpellsGroups(List(items), gs) && CoreGroups(gs)
  {
    if items != [] && gs != [] {
      CoresIff(items[0], gs[0], false);
      GroupListIff(items[1..], gs[1..]);
      assert gs == [gs[0]] + gs[1..];
      assert forall i :: 1 <= i < |gs| ==> gs[i] == gs[1..][i - 1];
      assert forall i :: 1 <= i < |items| ==> items[i] == items[1..][i - 1];
      assert forall i :: 0 <= i < |items[1..]| ==> items[1..][i] == items[i + 1];
      assert forall g :: g in gs <==> g == gs[0] || g in gs[1..];
      if DecodeGroups(items) == Some(gs) {
        assert [DecodeCoreSet(items[0], false).value] + DecodeGroups(items[1..]).value == gs;
        assert DecodeGroups(items[1..]).value == gs[1..];
      }
    }
  }

  lemma GroupsIff(j: Json, gs: seq<seq<int>>)
    requires Disjoint(gs)
    ensures DecodeCoreSets(j) == Some(gs) <==> SpellsGroups(j, gs) && CoreGroups(gs)
  {
    if j.List? {
      GroupListIff(j.items, gs);
      if CoreGroups(gs) {
        DisjointGroupsDiffer(gs);
      }
    }
  }

  lemma VectorIff(j: Json, v: map<int, int>)
    ensures DecodeVector(j) == Some(v) <==> SpellsVector(j, v) && BoundedVector(v)
  {
    if DecodeVector(j) == Some(v) {
      DecodedIsSpelled(j, v);
    }
    if SpellsVector(j, v) && BoundedVector(v) {
      SpelledIsDecoded(j, v);
    }
  }

  lemma DecodedIsSpelled(j: Json, v: map<int, int>)
    requires DecodeVector(j) == Some(v)
    ensures SpellsVector(j, v) && BoundedVector(v)
  {
    forall c | c in v
      ensures Text(Decimal(c)) in j.fields && j.fields[Text(Decimal(c))] == Int(v[c]) && Counter(c) && Offset(v[c])
    {
      var k :| k in j.fields && VectorEntry(k, j.fields[k]) && KeyCore(k) == c && v[c] == j.fields[k].n;
    }
    forall k | k in j.fields
      ensures exists c :: c in v && k == Text(Decimal(c))
    {
      assert VectorEntry(k, j.fields[k]);
      assert KeyCore(k) in v;
    }
  }

  lemma SpelledIsDecoded(j: Json, v: map<int, int>)
    requires SpellsVector(j, v) && BoundedVector(v)
    ensures DecodeVector(j) == Some(v)
  {
    VectorKeysInjective();
    forall k | k in j.fields
      ensures VectorEntry(k, j.fields[k])
    {
      var c :| c in v && k == Text(Decimal(c));
      DecimalIsKey(c);
    }
    forall c | Counter(c) && Text(Decimal(c)) in j.fields
      ensures c in v
    {
      var d :| d in v && Text(Decimal(c)) == Text(Decimal(d));
      DecimalIsInjective(c, d);
    }
    DecodedEntries(j.fields, v);
  }

  lemma StageIff(j: Json, stage: Stage)
    ensures DecodeStage(j) == Some(stage) <==> SpellsStage(j, stage)
  {
    assert "lead"[0] == 'l' && "probe"[0] == 'p' && "culprit"[0] == 'c' && "exhausted"[0] == 'e';
  }

  lemma SetFieldsIff(f: map<Key, Json>, s: Hunt)
    requires f.Keys == FIELDS && Persistable(s)
    ensures SetFieldsDecode(f, s) <==> SpellsSets(f, s)
  {
    CoresIff(f[Candidates], s.candidates, false);
    CoresIff(f[InFlight], s.inFlight, true);
    CoresIff(f[Parent], s.parent, true);
    CoresIff(f[Found], s.found, true);
    CoresIff(f[Loaded], s.loaded, false);
    GroupsIff(f[Key.Pending], s.pending);
    GroupsIff(f[Queue], s.queue);
    GroupsIff(f[GuiltyHalves], s.guilty);
  }

  lemma RestFieldsIff(f: map<Key, Json>, s: Hunt)
    requires f.Keys == FIELDS && Persistable(s)
    ensures PlainFieldsDecode(f, s) <==> f[Version] == Int(5) && SpellsRest(f, s)
  {
    StageIff(f[StageKey], s.stage);
    VectorIff(f[Vector], s.vector);
  }

  lemma DecodedFields(f: map<Key, Json>, s: Hunt, check: Json -> bool)
    requires f.Keys == FIELDS && f[Version] == Int(STATE_VERSION) && DecodeHunt(f, check) == Some(s)
    ensures FieldsDecode(f, s)
  {
  }

  /** What loads as a hunt is exactly a valid one, spelled out in the stored form: any
      other name, version, kind of value, order of ids or key is rejected, and nothing
      stored is lost or changed. */
  lemma AcceptedIff(doc: Json, s: Hunt, check: Json -> bool)
    ensures FromJson(Document(doc), check) == State(s) <==> Valid(s, check) && Spells(doc, s)
  {
    if Valid(s, check) && doc.Object? && doc.fields.Keys == FIELDS && doc.fields[Version] == Int(5) {
      assert Persistable(s);
      SetFieldsIff(doc.fields, s);
      RestFieldsIff(doc.fields, s);
      if Spells(doc, s) {
        DecodeFields(doc.fields, s, check);
        DecodedDocument(doc.fields, s, check);
      }
      if FromJson(Document(doc), check) == State(s) {
        DecodedFields(doc.fields, s, check);
      }
    }
  }

  /** What is saved is spelled so. */
  lemma SavedIsSpelled(s: Hunt, check: Json -> bool)
    requires Valid(s, check)
    ensures ToJson(s, check).Some? && Spells(ToJson(s, check).value, s)
  {
    RoundTrip(s, check);
    AcceptedIff(ToJson(s, check).value, s, check);
  }
}
