/** The persisted form of a hunt: a JSON document that is validated on the way out
    and decoded field by field on the way in. */
module HuntJson {
  import opened Wrappers
  import opened CoreSets
  import opened Decimals
  import opened Json
  import opened HuntModel
  import opened HuntValidate

  const STATE_VERSION := 5

  const FIELDS: set<Key> := {
    Version, StageKey, Candidates, Pending, Queue, InFlight, Parent, GuiltyHalves, Level, Found,
    NoReproduce, LaunchesDone, ObservedFailureTime, Loaded, Armed, Vector, Workload }

  /** The stored text: nothing at all, or a document. */
  datatype Blob = Blank | Document(doc: Json)

  datatype Outcome = Absent | Rejected | State(hunt: Hunt)

  // ----- encoding -----

  function StageName(stage: Stage): string {
    match stage
    case Lead => "lead"
    case Probe => "probe"
    case Culprit => "culprit"
    case Exhausted => "exhausted"
  }

  function EncodeInts(s: seq<int>): seq<Json> {
    if s == [] then [] else [Int(s[0])] + EncodeInts(s[1..])
  }

  function EncodeGroups(gs: seq<seq<int>>): seq<Json> {
    if gs == [] then [] else [List(EncodeInts(gs[0]))] + EncodeGroups(gs[1..])
  }

  /** Object keys are strings, so core ids are stored in decimal. */
  function EncodeVector(v: map<int, int>): map<Key, Json> {
    VectorKeysInjective();
    map c | c in v :: Text(Decimal(c)) := Int(v[c])
  }

  lemma VectorKeysInjective()
    ensures forall a, b :: Decimal(a) == Decimal(b) ==> a == b
  {
    forall a, b | Decimal(a) == Decimal(b)
      ensures a == b
    {
      DecimalIsInjective(a, b);
    }
  }

  function FieldValue(key: Key, s: Hunt): Json
    requires key in FIELDS
  {
    match key
    case Version => Int(STATE_VERSION)
    case StageKey => Str(StageName(s.stage))
    case Candidates => List(EncodeInts(s.candidates))
    case Pending => List(EncodeGroups(s.pending))
    case Queue => List(EncodeGroups(s.queue))
    case InFlight => List(EncodeInts(s.inFlight))
    case Parent => List(EncodeInts(s.parent))
    case GuiltyHalves => List(EncodeGroups(s.guilty))
    case Level => Int(s.level)
    case Found => List(EncodeInts(s.found))
    case NoReproduce => Int(s.noReproduce)
    case LaunchesDone => Int(s.launchesDone)
    case ObservedFailureTime => Real(s.observed)
    case Loaded => List(EncodeInts(s.loaded))
    case Armed => Bool(s.armed)
    case Vector => Object(EncodeVector(s.vector))
    case Workload => s.workload
  }

  function Encode(s: Hunt): map<Key, Json> {
    map key | key in FIELDS :: FieldValue(key, s)
  }

  /** None is the refusal to persist a state that fails the check. */
  function ToJson(s: Hunt, check: Json -> bool): Option<Json> {
    if Valid(s, check) then Some(Object(Encode(s))) else None
  }

  // ----- decoding -----

  function DecodeStage(j: Json): Option<Stage> {
    if j == Str("lead") then Some(Lead)
    else if j == Str("probe") then Some(Probe)
    else if j == Str("culprit") then Some(Culprit)
    else if j == Str("exhausted") then Some(Exhausted)
    else None
  }

  function DecodeCounter(j: Json): Option<int> {
    if j.Int? && Counter(j.n) then Some(j.n) else None
  }

  function DecodeDuration(j: Json): Option<real> {
    if j.Int? && j.n >= 0 then Some(j.n as real)
    else if j.Real? && j.x >= 0.0 then Some(j.x)
    else None
  }

  function DecodeBool(j: Json): Option<bool> {
    if j.Bool? then Some(j.b) else None
  }

  function DecodeInts(items: seq<Json>): Option<seq<int>> {
    if items == [] then Some([])
    else
      var first :- DecodeCounter(items[0]);
      var rest :- DecodeInts(items[1..]);
      Some([first] + rest)
  }

  function DecodeCoreSet(j: Json, mayBeEmpty: bool): Option<seq<int>> {
    if !j.List? then None
    else
      var cores :- DecodeInts(j.items);
      if (mayBeEmpty || cores != []) && cores == SortedDistinct(cores) then Some(cores) else None
  }

  function DecodeGroups(items: seq<Json>): Option<seq<seq<int>>> {
    if items == [] then Some([])
    else
      var first :- DecodeCoreSet(items[0], false);
      var rest :- DecodeGroups(items[1..]);
      Some([first] + rest)
  }

  predicate AllDifferent(gs: seq<seq<int>>) {
    forall i, j :: 0 <= i < j < |gs| ==> gs[i] != gs[j]
  }

  function DecodeCoreSets(j: Json): Option<seq<seq<int>>> {
    if !j.List? then None
    else
      var groups :- DecodeGroups(j.items);
      if AllDifferent(groups) then Some(groups) else None
  }

  /** A core id is accepted only in the exact form `Decimal` prints. */
  predicate CoreKey(key: Key) {
    && key.Text?
    && var core := ParseInt(key.text);
       core.Some? && key.text == Decimal(core.value) && Counter(core.value)
  }

  function KeyCore(key: Key): (c: int)
    requires CoreKey(key)
    ensures key == Text(Decimal(c)) && Counter(c)
  {
    ParseInt(key.text).value
  }

  predicate VectorEntry(key: Key, value: Json) {
    CoreKey(key) && value.Int? && Offset(value.n)
  }

  predicate VectorFields(fields: map<Key, Json>) {
    forall k :: k in fields ==> VectorEntry(k, fields[k])
  }

  function DecodeVectorFields(fields: map<Key, Json>): (v: map<int, int>)
    requires VectorFields(fields)
  {
    map k | k in fields && VectorEntry(k, fields[k]) :: KeyCore(k) := fields[k].n
  }

  function DecodeVector(j: Json): Option<map<int, int>> {
    if j.Object? && VectorFields(j.fields) then Some(DecodeVectorFields(j.fields)) else None
  }

  function DecodeWorkload(j: Json, check: Json -> bool): Option<Json> {
    if j == Null || check(j) then Some(j) else None
  }

  function DecodeHunt(f: map<Key, Json>, check: Json -> bool): Option<Hunt>
    requires f.Keys == FIELDS
  {
    var workload :- DecodeWorkload(f[Workload], check);
    var stage :- DecodeStage(f[StageKey]);
    var candidates :- DecodeCoreSet(f[Candidates], false);
    var pending :- DecodeCoreSets(f[Pending]);
    var queue :- DecodeCoreSets(f[Queue]);
    var inFlight :- DecodeCoreSet(f[InFlight], true);
    var parent :- DecodeCoreSet(f[Parent], true);
    var guilty :- DecodeCoreSets(f[GuiltyHalves]);
    var level :- DecodeCounter(f[Level]);
    var found :- DecodeCoreSet(f[Found], true);
    var noReproduce :- DecodeCounter(f[NoReproduce]);
    var launchesDone :- DecodeCounter(f[LaunchesDone]);
    var observed :- DecodeDuration(f[ObservedFailureTime]);
    var loaded :- DecodeCoreSet(f[Loaded], false);
    var armed :- DecodeBool(f[Armed]);
    var vector :- DecodeVector(f[Vector]);
    Some(Hunt(stage, candidates, pending, queue, inFlight, parent, guilty, level, found, noReproduce,
              launchesDone, loaded, observed, armed, vector, workload))
  }

  function FromJson(blob: Blob, check: Json -> bool): Outcome {
    if blob.Blank? then Absent
    else if !blob.doc.Object? || blob.doc.fields.Keys != FIELDS then Rejected
    else if blob.doc.fields[Version] != Int(STATE_VERSION) then Rejected
    else
      match DecodeHunt(blob.doc.fields, check)
      case None => Rejected
      case Some(s) => if Valid(s, check) then State(s) else Rejected
  }

  // ----- round trip -----

  lemma {:induction false} IntsRoundTrip(s: seq<int>)
    requires forall c :: c in s ==> Counter(c)
    ensures DecodeInts(EncodeInts(s)) == Some(s)
  {
    if s != [] {
      assert s == [s[0]] + s[1..];
      IntsRoundTrip(s[1..]);
      assert EncodeInts(s)[1..] == EncodeInts(s[1..]);
    }
  }

  lemma CoreSetRoundTrip(s: seq<int>, mayBeEmpty: bool)
    requires CoreSet(s, mayBeEmpty)
    ensures DecodeCoreSet(List(EncodeInts(s)), mayBeEmpty) == Some(s)
  {
    IntsRoundTrip(s);
  }

  lemma {:induction false} GroupsRoundTrip(gs: seq<seq<int>>)
    requires CoreGroups(gs)
    ensures DecodeGroups(EncodeGroups(gs)) == Some(gs)
  {
    if gs != [] {
      assert gs == [gs[0]] + gs[1..];
      CoreSetRoundTrip(gs[0], false);
      GroupsRoundTrip(gs[1..]);
      assert EncodeGroups(gs)[1..] == EncodeGroups(gs[1..]);
    }
  }

  lemma {:induction false} DisjointGroupsDiffer(gs: seq<seq<int>>)
    requires Disjoint(gs) && forall g :: g in gs ==> g != []
    ensures AllDifferent(gs)
  {
    if gs != [] {
      assert forall g :: g in gs[1..] ==> g in gs;
      DisjointGroupsDiffer(gs[1..]);
      forall j | 1 <= j < |gs|
        ensures gs[0] != gs[j]
      {
        MemberWithin(gs[1..], gs[1..][j - 1]);
        assert gs[0] in gs && gs[0][0] in ToSet(gs[0]);
      }
    }
  }

  lemma CoreSetsRoundTrip(gs: seq<seq<int>>)
    requires CoreGroups(gs) && Disjoint(gs)
    ensures DecodeCoreSets(List(EncodeGroups(gs))) == Some(gs)
  {
    GroupsRoundTrip(gs);
    DisjointGroupsDiffer(gs);
  }

  lemma DecimalIsKey(c: int)
    requires Counter(c)
    ensures CoreKey(Text(Decimal(c))) && KeyCore(Text(Decimal(c))) == c
  {
    ParseIntOfDecimal(c);
  }

  /** What decoding a vector means, key by key. */
  lemma DecodedEntries(fields: map<Key, Json>, v: map<int, int>)
    requires VectorFields(fields)
    requires forall c :: c in v ==> Counter(c)
    requires forall c :: Counter(c) ==> (c in v <==> Text(Decimal(c)) in fields)
    requires forall c :: c in v ==> fields[Text(Decimal(c))] == Int(v[c])
    ensures DecodeVectorFields(fields) == v
  {
    var decoded := DecodeVectorFields(fields);
    forall c | c in v
      ensures c in decoded && decoded[c] == v[c]
    {
      DecimalIsKey(c);
      assert VectorEntry(Text(Decimal(c)), fields[Text(Decimal(c))]);
    }
    forall c | c in decoded
      ensures c in v
    {
      var k :| k in fields && VectorEntry(k, fields[k]) && KeyCore(k) == c;
    }
  }

  /** Decimal keys decode to exactly the cores they were made from. */
  lemma VectorRoundTrip(v: map<int, int>)
    requires BoundedVector(v)
    ensures DecodeVector(Object(EncodeVector(v))) == Some(v)
  {
    var fields := EncodeVector(v);
    VectorKeysInjective();
    forall k | k in fields
      ensures VectorEntry(k, fields[k])
    {
      var c :| c in v && k == Text(Decimal(c));
      DecimalIsKey(c);
    }
    DecodedEntries(fields, v);
  }

  /** Every field decodes back to its value. */
  ghost predicate FieldsDecode(f: map<Key, Json>, s: Hunt) {
    f.Keys == FIELDS && PlainFieldsDecode(f, s) && SetFieldsDecode(f, s)
  }

  ghost predicate PlainFieldsDecode(f: map<Key, Json>, s: Hunt)
    requires f.Keys == FIELDS
  {
    && f[Version] == Int(STATE_VERSION) && f[Workload] == s.workload
    && DecodeStage(f[StageKey]) == Some(s.stage)
    && DecodeCounter(f[Level]) == Some(s.level)
    && DecodeCounter(f[NoReproduce]) == Some(s.noReproduce)
    && DecodeCounter(f[LaunchesDone]) == Some(s.launchesDone)
    && DecodeDuration(f[ObservedFailureTime]) == Some(s.observed)
    && DecodeBool(f[Armed]) == Some(s.armed)
    && DecodeVector(f[Vector]) == Some(s.vector)
  }

  ghost predicate SetFieldsDecode(f: map<Key, Json>, s: Hunt)
    requires f.Keys == FIELDS
  {
    && DecodeCoreSet(f[Candidates], false) == Some(s.candidates)
    && DecodeCoreSets(f[Key.Pending]) == Some(s.pending)
    && DecodeCoreSets(f[Queue]) == Some(s.queue)
    && DecodeCoreSet(f[InFlight], true) == Some(s.inFlight)
    && DecodeCoreSet(f[Parent], true) == Some(s.parent)
    && DecodeCoreSets(f[GuiltyHalves]) == Some(s.guilty)
    && DecodeCoreSet(f[Found], true) == Some(s.found)
    && DecodeCoreSet(f[Loaded], false) == Some(s.loaded)
  }

  lemma DecodeFields(f: map<Key, Json>, s: Hunt, check: Json -> bool)
    requires FieldsDecode(f, s) && (s.workload != Null ==> check(s.workload))
    ensures DecodeHunt(f, check) == Some(s)
  {
  }

  lemma GroupFieldsDecode(s: Hunt)
    requires CoreGroups(s.pending) && CoreGroups(s.queue) && CoreGroups(s.guilty)
    requires Disjoint(s.pending) && Disjoint(s.queue) && Disjoint(s.guilty)
    ensures DecodeCoreSets(FieldValue(Pending, s)) == Some(s.pending)
    ensures DecodeCoreSets(FieldValue(Queue, s)) == Some(s.queue)
    ensures DecodeCoreSets(FieldValue(GuiltyHalves, s)) == Some(s.guilty)
  {
    CoreSetsRoundTrip(s.pending);
    CoreSetsRoundTrip(s.queue);
    CoreSetsRoundTrip(s.guilty);
  }

  lemma CoreFieldsDecode(s: Hunt)
    requires CoreSet(s.inFlight, true) && CoreSet(s.parent, true) && CoreSet(s.found, true)
    ensures DecodeCoreSet(FieldValue(InFlight, s), true) == Some(s.inFlight)
    ensures DecodeCoreSet(FieldValue(Parent, s), true) == Some(s.parent)
    ensures DecodeCoreSet(FieldValue(Found, s), true) == Some(s.found)
  {
    CoreSetRoundTrip(s.inFlight, true);
    CoreSetRoundTrip(s.parent, true);
    CoreSetRoundTrip(s.found, true);
  }

  lemma FixedFieldsDecode(s: Hunt)
    requires CoreSet(s.candidates, false) && CoreSet(s.loaded, false)
    ensures DecodeCoreSet(FieldValue(Candidates, s), false) == Some(s.candidates)
    ensures DecodeCoreSet(FieldValue(Loaded, s), false) == Some(s.loaded)
  {
    CoreSetRoundTrip(s.candidates, false);
    CoreSetRoundTrip(s.loaded, false);
  }

  lemma EncodedSetsDecode(s: Hunt)
    requires Persistable(s)
    ensures Encode(s).Keys == FIELDS && SetFieldsDecode(Encode(s), s)
  {
    CoreFieldsDecode(s);
    FixedFieldsDecode(s);
    GroupFieldsDecode(s);
  }

  lemma StageRoundTrip(stage: Stage)
    ensures DecodeStage(Str(StageName(stage))) == Some(stage)
  {
    assert StageName(Lead)[0] == 'l' && StageName(Probe)[0] == 'p';
    assert StageName(Culprit)[0] == 'c' && StageName(Exhausted)[0] == 'e';
  }

  lemma Encoded(s: Hunt, key: Key)
    requires key in FIELDS
    ensures Encode(s).Keys == FIELDS && Encode(s)[key] == FieldValue(key, s)
  {
  }

  lemma CountersDecode(s: Hunt)
    requires Counter(s.level) && Counter(s.noReproduce) && Counter(s.launchesDone)
    ensures Encode(s).Keys == FIELDS
    ensures DecodeCounter(Encode(s)[Level]) == Some(s.level)
    ensures DecodeCounter(Encode(s)[NoReproduce]) == Some(s.noReproduce)
    ensures DecodeCounter(Encode(s)[LaunchesDone]) == Some(s.launchesDone)
  {
    Encoded(s, Level);
    Encoded(s, NoReproduce);
    Encoded(s, LaunchesDone);
  }

  lemma OthersDecode(s: Hunt)
    requires s.observed >= 0.0
    ensures Encode(s).Keys == FIELDS
    ensures Encode(s)[Version] == Int(STATE_VERSION) && Encode(s)[Workload] == s.workload
    ensures DecodeDuration(Encode(s)[ObservedFailureTime]) == Some(s.observed)
    ensures DecodeBool(Encode(s)[Armed]) == Some(s.armed)
  {
    Encoded(s, Version);
    Encoded(s, Workload);
    Encoded(s, ObservedFailureTime);
    Encoded(s, Armed);
  }

  lemma StageDecodes(s: Hunt)
    ensures Encode(s).Keys == FIELDS && DecodeStage(Encode(s)[StageKey]) == Some(s.stage)
  {
    Encoded(s, StageKey);
    StageRoundTrip(s.stage);
  }

  lemma VectorDecodes(s: Hunt)
    requires BoundedVector(s.vector)
    ensures Encode(s).Keys == FIELDS && DecodeVector(Encode(s)[Vector]) == Some(s.vector)
  {
    Encoded(s, Vector);
    VectorRoundTrip(s.vector);
    VectorField(s);
  }

  lemma VectorField(s: Hunt)
    ensures FieldValue(Vector, s) == Object(EncodeVector(s.vector))
  {
  }

  lemma EncodedPlainFieldsDecode(s: Hunt)
    requires BoundedVector(s.vector) && s.observed >= 0.0
    requires Counter(s.level) && Counter(s.noReproduce) && Counter(s.launchesDone)
    ensures Encode(s).Keys == FIELDS && PlainFieldsDecode(Encode(s), s)
  {
    CountersDecode(s);
    OthersDecode(s);
    StageDecodes(s);
    VectorDecodes(s);
  }

  ghost predicate Persistable(s: Hunt) {
    && CoreSet(s.candidates, false) && CoreSet(s.loaded, false)
    && CoreSet(s.inFlight, true) && CoreSet(s.parent, true) && CoreSet(s.found, true)
    && CoreGroups(s.pending) && CoreGroups(s.queue) && CoreGroups(s.guilty)
    && Disjoint(s.pending) && Disjoint(s.queue) && Disjoint(s.guilty)
    && Counter(s.level) && Counter(s.noReproduce) && Counter(s.launchesDone) && s.observed >= 0.0
    && BoundedVector(s.vector)
  }

  /** A state is persisted exactly when it is valid, and loading it back gives the
      same state. */
  lemma RoundTrip(s: Hunt, check: Json -> bool)
    ensures ToJson(s, check).Some? <==> Valid(s, check)
    ensures Valid(s, check) ==> FromJson(Document(ToJson(s, check).value), check) == State(s)
  {
    if Valid(s, check) {
      EncodedSetsDecode(s);
      EncodedPlainFieldsDecode(s);
      DecodeFields(Encode(s), s, check);
      DecodedDocument(Encode(s), s, check);
    }
  }

  lemma DecodedDocument(f: map<Key, Json>, s: Hunt, check: Json -> bool)
    requires Valid(s, check) && f.Keys == FIELDS && f[Version] == Int(STATE_VERSION) && DecodeHunt(f, check) == Some(s)
    ensures FromJson(Document(Object(f)), check) == State(s)
  {
  }

  /** Nothing corrupt gets in: whatever loads is valid, and is what it would be
      saved as. */
  lemma LoadedIsValid(blob: Blob, check: Json -> bool)
    ensures FromJson(blob, check) == Absent <==> blob == Blank
    ensures FromJson(blob, check).State? ==>
      var s := FromJson(blob, check).hunt;
      Valid(s, check) && FromJson(Document(Object(Encode(s))), check) == State(s)
  {
    if FromJson(blob, check).State? {
      RoundTrip(FromJson(blob, check).hunt, check);
    }
  }

  /** The vector decoded entry by entry; any bad entry rejects the whole. */
  method ReadVector(fields: map<Key, Json>) returns (v: Option<map<int, int>>)
    ensures v == DecodeVector(Object(fields))
  {
    var result: map<int, int> := map[];
    var todo := fields.Keys;
    while todo != {}
      invariant todo <= fields.Keys
      invariant forall k :: k in fields && k !in todo ==> VectorEntry(k, fields[k])
      invariant forall c :: c in result ==> Counter(c)
      invariant forall c :: Counter(c) ==>
        (c in result <==> Text(Decimal(c)) in fields && Text(Decimal(c)) !in todo)
      invariant forall c :: c in result ==> fields[Text(Decimal(c))] == Int(result[c])
      decreases todo
    {
      var key :| key in todo;
      if !CoreKey(key) || !(fields[key].Int? && Offset(fields[key].n)) {
        assert !VectorEntry(key, fields[key]);
        return None;
      }
      VectorKeysInjective();
      result := result[KeyCore(key) := fields[key].n];
      todo := todo - {key};
    }
    DecodedEntries(fields, result);
    return Some(result);
  }
}
