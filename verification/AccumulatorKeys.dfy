/**
 * Saved accumulators (packages/core/src/production-system.ts:1021-1163, 1449-1527): the printed keys, the
 * parsers for both key formats, and what restoring a save rebuilds.
 */
module AccumulatorKeys {
  import opened Wrappers
  import opened Texts
  import opened UriComponents
  import opened Counting
  import P = Production

  const BAR: CodeUnit := 0x7C

  function OperationText(operation: P.Operation): Text {
    if operation == P.Producing then Ascii("produce") else Ascii("consume")
  }

  /** `v2|generator|operation|resource`, with both ids percent-encoded. */
  function Serialize(key: P.Key): Result<Text, UriError> {
    var generatorId, resourceId := Encode(key.generatorId), Encode(key.resourceId);
    if generatorId.Err? || resourceId.Err? then Err(Malformed)
    else Ok(Join([Ascii("v2"), generatorId.value, OperationText(key.operation), resourceId.value], BAR))
  }

  function ParseOperation(t: Text): Option<P.Operation> {
    if t == Ascii("produce") then Some(P.Producing) else if t == Ascii("consume") then Some(P.Consuming) else None
  }

  function Parse(t: Text): Option<P.Key> {
    var parts := Split(t, BAR);
    if !(Ascii("v2|") <= t) || |parts| != 4 || parts[0] != Ascii("v2") then None
    else
      var operation, generatorId, resourceId := ParseOperation(parts[2]), Decode(parts[1]), Decode(parts[3]);
      if operation.None? || generatorId.Err? || resourceId.Err? then None
      else Some(P.Key(generatorId.value, operation.value, resourceId.value))
  }

  lemma SafeHasNoBar(t: Text)
    requires Safe(t)
    ensures BAR !in t
  {
    forall i | 0 <= i < |t|
      ensures t[i] != BAR
    {
    }
  }

  lemma Letters()
    ensures Ascii("v2") == [0x76, 0x32] && Ascii("v2|") == [0x76, 0x32, BAR]
    ensures Ascii("produce") == [0x70, 0x72, 0x6F, 0x64, 0x75, 0x63, 0x65]
    ensures Ascii("consume") == [0x63, 0x6F, 0x6E, 0x73, 0x75, 0x6D, 0x65]
  {
  }

  /** A key can be printed exactly when its ids are well-formed text, and then parsing gives the key back. */
  lemma ParseUndoesSerialize(key: P.Key)
    ensures Serialize(key).Ok? <==> WellFormed(key.generatorId) && WellFormed(key.resourceId)
    ensures Serialize(key).Ok? ==> Parse(Serialize(key).value) == Some(key)
  {
    DecodeUndoesEncode(key.generatorId);
    DecodeUndoesEncode(key.resourceId);
    if Serialize(key).Ok? {
      EncodedIsSafe(key.generatorId);
      EncodedIsSafe(key.resourceId);
      PrintedParts(Encode(key.generatorId).value, key.operation, Encode(key.resourceId).value);
      OperationIsRead(key.operation);
    }
  }

  lemma OperationIsRead(operation: P.Operation)
    ensures ParseOperation(OperationText(operation)) == Some(operation)
  {
    Letters();
  }

  /** A printed key splits into what it was joined from. */
  lemma PrintedParts(a: Text, operation: P.Operation, b: Text)
    requires Safe(a) && Safe(b)
    ensures var parts := [Ascii("v2"), a, OperationText(operation), b];
            Split(Join(parts, BAR), BAR) == parts && Ascii("v2|") <= Join(parts, BAR)
  {
    var parts := [Ascii("v2"), a, OperationText(operation), b];
    Letters();
    SafeHasNoBar(a);
    SafeHasNoBar(b);
    SplitJoin(parts, BAR);
    var t := Join(parts, BAR);
    assert t == parts[0] + [BAR] + Join(parts[1..], BAR);
    assert t[..3] == Ascii("v2|");
  }

  /** Printed keys never collide. */
  lemma SerializeIsInjective(a: P.Key, b: P.Key)
    requires Serialize(a).Ok? && Serialize(a) == Serialize(b)
    ensures a == b
  {
    ParseUndoesSerialize(a);
    ParseUndoesSerialize(b);
  }

  lemma JoinFour(a: Text, b: Text, c: Text, d: Text)
    ensures Join([a, b, c, d], BAR) == (a + [BAR]) + b + ([BAR] + c + [BAR]) + d
  {
    assert [a, b, c, d][1..] == [b, c, d] && [b, c, d][1..] == [c, d] && [c, d][1..] == [d];
    assert Join([c, d], BAR) == c + [BAR] + d;
    assert Join([b, c, d], BAR) == b + [BAR] + Join([c, d], BAR);
    assert Join([a, b, c, d], BAR) == a + [BAR] + Join([b, c, d], BAR);
  }

  lemma Barred()
    ensures Ascii("v2|") == Ascii("v2") + [BAR]
    ensures Ascii("|produce|") == [BAR] + Ascii("produce") + [BAR]
    ensures Ascii("|consume|") == [BAR] + Ascii("consume") + [BAR]
  {
  }

  /** A printed key is `v2`, the generator, the operation and the resource, between bars. */
  lemma SerializedForm(key: P.Key)
    requires Serialize(key).Ok?
    ensures Encode(key.generatorId).Ok? && Encode(key.resourceId).Ok?
    ensures Serialize(key).value
         == Ascii("v2|") + Encode(key.generatorId).value
            + (if key.operation == P.Producing then Ascii("|produce|") else Ascii("|consume|"))
            + Encode(key.resourceId).value
  {
    Barred();
    var g, r := Encode(key.generatorId).value, Encode(key.resourceId).value;
    if key.operation == P.Producing {
      JoinFour(Ascii("v2"), g, Ascii("produce"), r);
    } else {
      JoinFour(Ascii("v2"), g, Ascii("consume"), r);
    }
  }

  // ----- keys of the older format

  predicate OccursAt(pattern: Text, t: Text, i: nat) {
    i + |pattern| <= |t| && t[i..i + |pattern|] == pattern
  }

  function Delimiter(operation: P.Operation): Text {
    if operation == P.Producing then Ascii(":produce:") else Ascii(":consume:")
  }

  /** Every way to read the text around a delimiter from position `i` on, with both ids present. */
  function Candidates(t: Text, operation: P.Operation, i: nat): seq<P.Key>
    decreases |t| - i
  {
    if i >= |t| then []
    else
      var end := i + |Delimiter(operation)|;
      var rest := Candidates(t, operation, i + 1);
      if OccursAt(Delimiter(operation), t, i) && 0 < i && end < |t| then [P.Key(t[..i], operation, t[end..])] + rest
      else rest
  }

  function WithKnownResource(cfg: P.Config, keys: seq<P.Key>): seq<P.Key> {
    if keys == [] then []
    else (if keys[0].resourceId in cfg.indices then [keys[0]] else []) + WithKnownResource(cfg, keys[1..])
  }

  function WithKnownGenerator(generatorIds: set<Text>, keys: seq<P.Key>): seq<P.Key> {
    if keys == [] then []
    else (if keys[0].generatorId in generatorIds then [keys[0]] else []) + WithKnownGenerator(generatorIds, keys[1..])
  }

  /** The one reading that known ids leave, preferring known generators. */
  function ParseLegacy(cfg: P.Config, generatorIds: set<Text>, t: Text): Option<P.Key> {
    var known := WithKnownResource(cfg, Candidates(t, P.Producing, 0) + Candidates(t, P.Consuming, 0));
    var owned := WithKnownGenerator(generatorIds, known);
    if |owned| == 1 then Some(owned[0]) else if |known| == 1 then Some(known[0]) else None
  }

  lemma {:induction false} CandidatesSpellTheText(t: Text, operation: P.Operation, i: nat)
    ensures forall k | 0 <= k < |Candidates(t, operation, i)| :: P.LegacyKey(Candidates(t, operation, i)[k]) == t
    decreases |t| - i
  {
    if i < |t| {
      CandidatesSpellTheText(t, operation, i + 1);
      var end := i + |Delimiter(operation)|;
      if OccursAt(Delimiter(operation), t, i) {
        assert t == t[..i] + t[i..end] + t[end..];
      }
    }
  }

  lemma {:induction false} KnownAreSome(cfg: P.Config, keys: seq<P.Key>)
    ensures forall k | 0 <= k < |WithKnownResource(cfg, keys)| ::
              WithKnownResource(cfg, keys)[k] in keys && WithKnownResource(cfg, keys)[k].resourceId in cfg.indices
  {
    if keys != [] {
      KnownAreSome(cfg, keys[1..]);
    }
  }

  lemma {:induction false} OwnedAreSome(generatorIds: set<Text>, keys: seq<P.Key>)
    ensures forall k | 0 <= k < |WithKnownGenerator(generatorIds, keys)| ::
            WithKnownGenerator(generatorIds, keys)[k] in keys
  {
    if keys != [] {
      OwnedAreSome(generatorIds, keys[1..]);
    }
  }

  /** A reading of an old key is a key that prints so in the old format, of a resource that exists. */
  lemma ParseLegacyIsSound(cfg: P.Config, generatorIds: set<Text>, t: Text)
    ensures var key := ParseLegacy(cfg, generatorIds, t);
            key.Some? ==> P.LegacyKey(key.value) == t && key.value.resourceId in cfg.indices
  {
    var all := Candidates(t, P.Producing, 0) + Candidates(t, P.Consuming, 0);
    CandidatesSpellTheText(t, P.Producing, 0);
    CandidatesSpellTheText(t, P.Consuming, 0);
    KnownAreSome(cfg, all);
    OwnedAreSome(generatorIds, WithKnownResource(cfg, all));
  }

  /** A way to read an old key: both ids are there, around the name of the operation, and the resource exists. */
  ghost predicate Reading(cfg: P.Config, t: Text, key: P.Key) {
    && key.generatorId != [] && key.resourceId != [] && key.resourceId in cfg.indices
    && t == key.generatorId + (if key.operation == P.Producing then Ascii(":produce:") else Ascii(":consume:"))
              + key.resourceId
  }

  /** The key that a reading around a delimiter at position `i` gives. */
  lemma CandidateAt(t: Text, operation: P.Operation, i: nat, key: P.Key)
    ensures key.operation == operation && P.LegacyKey(key) == t && key.generatorId != [] && key.resourceId != []
            && |key.generatorId| == i
       <==> && OccursAt(Delimiter(operation), t, i) && 0 < i && i + |Delimiter(operation)| < |t|
            && key == P.Key(t[..i], operation, t[i + |Delimiter(operation)|..])
  {
    var d := Delimiter(operation);
    if key.operation == operation && P.LegacyKey(key) == t && |key.generatorId| == i {
      assert t == key.generatorId + d + key.resourceId;
      assert t[..i] == key.generatorId && t[i..i + |d|] == d && t[i + |d|..] == key.resourceId;
    } else if OccursAt(d, t, i) {
      assert t == t[..i] + d + t[i + |d|..];
    }
  }

  /** A reading of the text, whatever resources there are, whose generator reaches at least to position `i`. */
  ghost predicate IsCandidate(t: Text, operation: P.Operation, i: nat, key: P.Key) {
    && key.operation == operation && P.LegacyKey(key) == t && key.generatorId != [] && key.resourceId != []
    && i <= |key.generatorId|
  }

  lemma {:induction false} CandidateIff(t: Text, operation: P.Operation, i: nat, key: P.Key)
    ensures key in Candidates(t, operation, i) <==> IsCandidate(t, operation, i, key)
    decreases |t| - i
  {
    CandidateAt(t, operation, i, key);
    if i < |t| {
      CandidateIff(t, operation, i + 1, key);
    }
  }

  lemma {:induction false} CandidatesDiffer(t: Text, operation: P.Operation, i: nat)
    ensures Distinct(Candidates(t, operation, i))
    decreases |t| - i
  {
    if i < |t| {
      CandidatesDiffer(t, operation, i + 1);
      var first := P.Key(t[..i], operation, if i + |Delimiter(operation)| <= |t| then t[i + |Delimiter(operation)|..]
                                            else []);
      CandidateIff(t, operation, i + 1, first);
      var rest := Candidates(t, operation, i + 1);
      assert first !in rest;
    }
  }

  /** The candidates from a position on are the readings whose generator reaches at least that far, each once. */
  lemma CandidatesIff(t: Text, operation: P.Operation, i: nat)
    ensures Distinct(Candidates(t, operation, i))
    ensures forall key :: key in Candidates(t, operation, i) <==> IsCandidate(t, operation, i, key)
  {
    CandidatesDiffer(t, operation, i);
    forall key
      ensures key in Candidates(t, operation, i) <==> IsCandidate(t, operation, i, key)
    {
      CandidateIff(t, operation, i, key);
    }
  }

  lemma {:induction false} KnownIff(cfg: P.Config, keys: seq<P.Key>)
    requires Distinct(keys)
    ensures Distinct(WithKnownResource(cfg, keys))
    ensures forall key :: key in WithKnownResource(cfg, keys) <==> key in keys && key.resourceId in cfg.indices
  {
    if keys != [] {
      KnownIff(cfg, keys[1..]);
      DistinctHead(keys);
    }
  }

  lemma {:induction false} OwnedIff(generatorIds: set<Text>, keys: seq<P.Key>)
    requires Distinct(keys)
    ensures Distinct(WithKnownGenerator(generatorIds, keys))
    ensures forall key :: key in WithKnownGenerator(generatorIds, keys) <==>
              key in keys && key.generatorId in generatorIds
  {
    if keys != [] {
      OwnedIff(generatorIds, keys[1..]);
      DistinctHead(keys);
    }
  }

  lemma DistinctHead(keys: seq<P.Key>)
    requires Distinct(keys) && keys != []
    ensures keys[0] !in keys[1..] && keys == [keys[0]] + keys[1..]
  {
  }

  lemma DistinctConcat(a: seq<P.Key>, b: seq<P.Key>)
    requires Distinct(a) && Distinct(b) && forall key | key in a :: key !in b
    ensures Distinct(a + b)
  {
    forall j, k | 0 <= j < k < |a + b|
      ensures (a + b)[j] != (a + b)[k]
    {
      if j < |a| <= k {
        assert a[j] in a && b[k - |a|] in b;
      }
    }
  }

  /** A list without repetitions is the one key exactly when that key is its only member. */
  lemma OnlyMember(keys: seq<P.Key>, key: P.Key)
    requires Distinct(keys)
    ensures |keys| == 1 && keys[0] == key <==> key in keys && forall other | other in keys :: other == key
  {
    if key in keys && forall other | other in keys :: other == key {
      if |keys| > 1 {
        assert keys[0] in keys && keys[1] in keys;
      }
    }
  }

  lemma ReadingsAre(cfg: P.Config, t: Text)
    ensures var known := WithKnownResource(cfg, Candidates(t, P.Producing, 0) + Candidates(t, P.Consuming, 0));
            Distinct(known) && forall key :: key in known <==> Reading(cfg, t, key)
  {
    var produced, consumed := Candidates(t, P.Producing, 0), Candidates(t, P.Consuming, 0);
    CandidatesIff(t, P.Producing, 0);
    CandidatesIff(t, P.Consuming, 0);
    DistinctConcat(produced, consumed);
    KnownIff(cfg, produced + consumed);
  }

  /**
   * An old key is read as the only reading there is, or else as the only one whose generator is known;
   * with none or several of both kinds it is not read.
   */
  lemma ParseLegacyIff(cfg: P.Config, generatorIds: set<Text>, t: Text, key: P.Key)
    ensures ParseLegacy(cfg, generatorIds, t) == Some(key) <==>
              && Reading(cfg, t, key)
              && ((forall other | Reading(cfg, t, other) :: other == key)
                  || (key.generatorId in generatorIds
                      && forall other | Reading(cfg, t, other) && other.generatorId in generatorIds :: other == key))
  {
    var known := WithKnownResource(cfg, Candidates(t, P.Producing, 0) + Candidates(t, P.Consuming, 0));
    ReadingsAre(cfg, t);
    OwnedIff(generatorIds, known);
    OnlyMember(known, key);
    OnlyMember(WithKnownGenerator(generatorIds, known), key);
    if |WithKnownGenerator(generatorIds, known)| == 1 {
      OnlyOwned(generatorIds, known);
    }
  }

  /** An owned key that is all there is of owned keys is a known one. */
  lemma OnlyOwned(generatorIds: set<Text>, known: seq<P.Key>)
    requires Distinct(known) && |WithKnownGenerator(generatorIds, known)| == 1
    ensures WithKnownGenerator(generatorIds, known)[0] in known
    ensures |known| == 1 ==> known[0] == WithKnownGenerator(generatorIds, known)[0]
  {
    OwnedIff(generatorIds, known);
    var owned := WithKnownGenerator(generatorIds, known);
    assert owned[0] in owned;
  }

  // ----- saving and restoring

  /** An entry of a save; `None` stands for a value that is not a finite number. */
  datatype Entry = Entry(key: Text, value: Option<real>)

  datatype Held = Held(values: map<P.Key, real>, legacy: map<Text, real>)

  function RestoreOne(cfg: P.Config, generatorIds: set<Text>, held: Held, e: Entry): Held {
    if e.value.None? then held
    else
      match Parse(e.key)
      case Some(key) => held.(values := held.values[key := e.value.value])
      case None =>
        match ParseLegacy(cfg, generatorIds, e.key)
        case None => held.(legacy := held.legacy[e.key := e.value.value])
        case Some(key) => if key in held.values then held else held.(values := held.values[key := e.value.value])
  }

  function Restorer(cfg: P.Config, generatorIds: set<Text>): (Held, Entry) -> Held {
    (held: Held, e: Entry) => RestoreOne(cfg, generatorIds, held, e)
  }

  /** The first `n` entries read in order. */
  function Restored(step: (Held, Entry) -> Held, entries: seq<Entry>, n: nat): Held
    requires n <= |entries|
  {
    if n == 0 then Held(map[], map[]) else step(Restored(step, entries, n - 1), entries[n - 1])
  }

  /** An entry that has a value and a key of the current format. */
  ghost predicate NewEntry(e: Entry, key: P.Key) {
    e.value.Some? && Parse(e.key) == Some(key)
  }

  /** An entry that has a value and is read as a key of the older format. */
  ghost predicate OldEntry(cfg: P.Config, generatorIds: set<Text>, e: Entry, key: P.Key) {
    e.value.Some? && Parse(e.key) == None && ParseLegacy(cfg, generatorIds, e.key) == Some(key)
  }

  /** Among the first `n` entries there is a new one for a key, and `x` is the value of the last. */
  ghost predicate LastNew(entries: seq<Entry>, n: nat, key: P.Key, x: real)
    requires n <= |entries|
  {
    exists k :: && 0 <= k < n && NewEntry(entries[k], key) && entries[k].value == Some(x)
                && forall j | k < j < n :: !NewEntry(entries[j], key)
  }

  ghost predicate NoneNew(entries: seq<Entry>, n: nat, key: P.Key)
    requires n <= |entries|
  {
    forall j | 0 <= j < n :: !NewEntry(entries[j], key)
  }

  /** Among the first `n` entries there is an old one for a key, and `x` is the value of the first. */
  ghost predicate FirstOld(old_: (Entry, P.Key) -> bool, entries: seq<Entry>, n: nat, key: P.Key, x: real)
    requires n <= |entries|
  {
    exists k :: && 0 <= k < n && old_(entries[k], key) && entries[k].value == Some(x)
                && forall j | 0 <= j < k :: !old_(entries[j], key)
  }

  ghost predicate NoneOld(old_: (Entry, P.Key) -> bool, entries: seq<Entry>, n: nat, key: P.Key)
    requires n <= |entries|
  {
    forall j | 0 <= j < n :: !old_(entries[j], key)
  }

  ghost function OldEntries(cfg: P.Config, generatorIds: set<Text>): (Entry, P.Key) -> bool {
    (e: Entry, key: P.Key) => OldEntry(cfg, generatorIds, e, key)
  }

  /** The value of a key after reading a save: of its last new entry, or else of its first old one. */
  ghost predicate ValueRead(cfg: P.Config, generatorIds: set<Text>, entries: seq<Entry>, n: nat, key: P.Key, x: real)
    requires n <= |entries|
  {
    || LastNew(entries, n, key, x)
    || (NoneNew(entries, n, key) && FirstOld(OldEntries(cfg, generatorIds), entries, n, key, x))
  }

  lemma LastNewOneMore(entries: seq<Entry>, m: nat, key: P.Key, x: real)
    requires m < |entries|
    ensures LastNew(entries, m + 1, key, x) <==>
              if NewEntry(entries[m], key) then entries[m].value == Some(x) else LastNew(entries, m, key, x)
  {
    if NewEntry(entries[m], key) {
      if LastNew(entries, m + 1, key, x) {
        var k :| && 0 <= k < m + 1 && NewEntry(entries[k], key) && entries[k].value == Some(x)
                 && forall j | k < j < m + 1 :: !NewEntry(entries[j], key);
        assert k == m;
      }
    }
  }

  lemma FirstOldOneMore(old_: (Entry, P.Key) -> bool, entries: seq<Entry>, m: nat, key: P.Key, x: real)
    requires m < |entries|
    ensures FirstOld(old_, entries, m + 1, key, x) <==>
              || FirstOld(old_, entries, m, key, x)
              || (NoneOld(old_, entries, m, key) && old_(entries[m], key) && entries[m].value == Some(x))
    ensures FirstOld(old_, entries, m, key, x) ==> !NoneOld(old_, entries, m, key)
  {
  }

  /** What reading one entry does to the value of a key. */
  lemma ReadEntry(cfg: P.Config, generatorIds: set<Text>, held: Held, e: Entry, key: P.Key)
    ensures var values := RestoreOne(cfg, generatorIds, held, e).values;
            if NewEntry(e, key) || (OldEntry(cfg, generatorIds, e, key) && key !in held.values)
            then key in values && Some(values[key]) == e.value
            else (key in values <==> key in held.values) && (key in values ==> values[key] == held.values[key])
  {
  }

  lemma NoneOneMore(old_: (Entry, P.Key) -> bool, entries: seq<Entry>, m: nat, key: P.Key)
    requires m < |entries|
    ensures NoneNew(entries, m + 1, key) <==> NoneNew(entries, m, key) && !NewEntry(entries[m], key)
    ensures NoneOld(old_, entries, m + 1, key) <==> NoneOld(old_, entries, m, key) && !old_(entries[m], key)
  {
  }

  /** A key has a value exactly when some entry is read as that key. */
  lemma {:induction false} KeyIsReadIff(cfg: P.Config, generatorIds: set<Text>, entries: seq<Entry>, n: nat, key: P.Key)
    requires n <= |entries|
    ensures key in Restored(Restorer(cfg, generatorIds), entries, n).values <==>
              !NoneNew(entries, n, key) || !NoneOld(OldEntries(cfg, generatorIds), entries, n, key)
  {
    if n > 0 {
      KeyIsReadIff(cfg, generatorIds, entries, n - 1, key);
      ReadEntry(cfg, generatorIds, Restored(Restorer(cfg, generatorIds), entries, n - 1), entries[n - 1], key);
      NoneOneMore(OldEntries(cfg, generatorIds), entries, n - 1, key);
    }
  }

  /** Entries of the current format count before older ones, the last of them; of older ones the first does. */
  lemma {:induction false} RestoredValueIff(cfg: P.Config, generatorIds: set<Text>, entries: seq<Entry>, n: nat,
                                            key: P.Key, x: real)
    requires n <= |entries|
    ensures var held := Restored(Restorer(cfg, generatorIds), entries, n).values;
            key in held && held[key] == x <==> ValueRead(cfg, generatorIds, entries, n, key, x)
  {
    if n > 0 {
      var m := n - 1;
      RestoredValueIff(cfg, generatorIds, entries, m, key, x);
      KeyIsReadIff(cfg, generatorIds, entries, m, key);
      ReadEntry(cfg, generatorIds, Restored(Restorer(cfg, generatorIds), entries, m), entries[m], key);
      LastNewOneMore(entries, m, key, x);
      NoneOneMore(OldEntries(cfg, generatorIds), entries, m, key);
      FirstOldOneMore(OldEntries(cfg, generatorIds), entries, m, key, x);
      LastNewIsNew(entries, m, key, x);
    }
  }

  lemma LastNewIsNew(entries: seq<Entry>, n: nat, key: P.Key, x: real)
    requires n <= |entries|
    ensures LastNew(entries, n, key, x) ==> !NoneNew(entries, n, key)
  {
  }

  /** An entry under some key, with a value. */
  predicate HasValue(e: Entry, t: Text) {
    e.key == t && e.value.Some?
  }

  ghost predicate SomeValue(entries: seq<Entry>, n: nat, t: Text)
    requires n <= |entries|
  {
    exists k :: 0 <= k < n && HasValue(entries[k], t)
  }

  lemma UnreadEntry(cfg: P.Config, generatorIds: set<Text>, held: Held, e: Entry, t: Text)
    ensures t in RestoreOne(cfg, generatorIds, held, e).legacy <==>
              || t in held.legacy
              || (HasValue(e, t) && Parse(t) == None && ParseLegacy(cfg, generatorIds, t) == None)
  {
  }

  /** What has no key of either format is kept as it is. */
  lemma {:induction false} UnreadEntriesAreKept(cfg: P.Config, generatorIds: set<Text>, entries: seq<Entry>, n: nat,
                                                t: Text)
    requires n <= |entries|
    ensures t in Restored(Restorer(cfg, generatorIds), entries, n).legacy <==>
              Parse(t) == None && ParseLegacy(cfg, generatorIds, t) == None && SomeValue(entries, n, t)
  {
    if n > 0 {
      UnreadEntriesAreKept(cfg, generatorIds, entries, n - 1, t);
      UnreadEntry(cfg, generatorIds, Restored(Restorer(cfg, generatorIds), entries, n - 1), entries[n - 1], t);
      assert SomeValue(entries, n, t) <==> SomeValue(entries, n - 1, t) || HasValue(entries[n - 1], t);
    }
  }

  /** Of several such entries under one key the last counts. */
  lemma {:induction false} LastUnreadEntryCounts(cfg: P.Config, generatorIds: set<Text>, entries: seq<Entry>, n: nat,
                                                 k: nat)
    requires k < n <= |entries| && HasValue(entries[k], entries[k].key)
    requires Parse(entries[k].key) == None && ParseLegacy(cfg, generatorIds, entries[k].key) == None
    requires forall j | k < j < n :: !HasValue(entries[j], entries[k].key)
    ensures var legacy := Restored(Restorer(cfg, generatorIds), entries, n).legacy;
            entries[k].key in legacy && legacy[entries[k].key] == entries[k].value.value
    decreases n
  {
    if k < n - 1 {
      LastUnreadEntryCounts(cfg, generatorIds, entries, n - 1, k);
    }
  }

  function NonZero<K>(values: map<K, real>): map<K, real> {
    map key | key in values && values[key] != 0.0 :: values[key]
  }

  type Printer = P.Key -> Result<Text, UriError>

  function Printing(): Printer {
    (key: P.Key) => Serialize(key)
  }

  /** The record that `exportAccumulators` builds when no legacy values are held. */
  ghost predicate Exports(printer: Printer, values: map<P.Key, real>, saved: map<Text, real>) {
    && (forall key | key in NonZero(values) ::
          printer(key).Ok? && printer(key).value in saved && saved[printer(key).value] == values[key])
    && forall t | t in saved :: exists key :: key in NonZero(values) && printer(key) == Ok(t)
  }

  /** The entries of a record, each once, in any order. */
  ghost predicate Lists(entries: seq<Entry>, saved: map<Text, real>) {
    && (forall k | 0 <= k < |entries| :: entries[k].key in saved && entries[k].value == Some(saved[entries[k].key]))
    && forall t | t in saved :: exists k :: 0 <= k < |entries| && entries[k].key == t
  }

  /** Whatever is held, this entry sets this key. */
  ghost predicate Sets(step: (Held, Entry) -> Held, e: Entry, key: P.Key) {
    e.value.Some? && forall held: Held {:trigger step(held, e)} ::
        step(held, e) == held.(values := held.values[key := e.value.value])
  }

  lemma {:induction false} RestoringSetsKeys(step: (Held, Entry) -> Held, entries: seq<Entry>, keys: seq<P.Key>,
                                             target: map<P.Key, real>, n: nat)
    requires n <= |entries| == |keys|
    requires forall k | 0 <= k < |entries| :: Sets(step, entries[k], keys[k])
    requires forall k | 0 <= k < |entries| :: keys[k] in target && entries[k].value == Some(target[keys[k]])
    ensures var r := Restored(step, entries, n);
            && r.legacy == map[]
            && (forall key | key in r.values :: key in target && r.values[key] == target[key])
            && forall k | 0 <= k < n :: keys[k] in r.values
  {
    if n > 0 {
      RestoringSetsKeys(step, entries, keys, target, n - 1);
      assert Sets(step, entries[n - 1], keys[n - 1]);
    }
  }

  lemma ExportedEntrySetsItsKey(cfg: P.Config, generatorIds: set<Text>, e: Entry, key: P.Key)
    requires e.value.Some? && Serialize(key) == Ok(e.key)
    ensures Sets(Restorer(cfg, generatorIds), e, key)
  {
    ParseUndoesSerialize(key);
  }

  lemma KeyOfEntry(printer: Printer, values: map<P.Key, real>, saved: map<Text, real>, e: Entry) returns (key: P.Key)
    requires Exports(printer, values, saved) && e.key in saved && e.value == Some(saved[e.key])
    ensures key in NonZero(values) && printer(key) == Ok(e.key) && e.value == Some(values[key])
  {
    key :| key in NonZero(values) && printer(key) == Ok(e.key);
  }

  lemma {:induction false} KeysOfEntries(printer: Printer, values: map<P.Key, real>, saved: map<Text, real>,
                                         entries: seq<Entry>, n: nat)
    returns (keys: seq<P.Key>)
    requires n <= |entries| && Exports(printer, values, saved) && Lists(entries, saved)
    ensures |keys| == n
    ensures forall k | 0 <= k < n ::
              keys[k] in NonZero(values) && printer(keys[k]) == Ok(entries[k].key)
                  && entries[k].value == Some(values[keys[k]])
  {
    if n == 0 {
      keys := [];
    } else {
      keys := KeysOfEntries(printer, values, saved, entries, n - 1);
      var key := KeyOfEntry(printer, values, saved, entries[n - 1]);
      keys := keys + [key];
    }
  }

  lemma EveryKeyIsListed(printer: Printer, values: map<P.Key, real>, saved: map<Text, real>, entries: seq<Entry>,
                         keys: seq<P.Key>)
    requires Exports(printer, values, saved) && Lists(entries, saved) && |keys| == |entries|
    requires forall k | 0 <= k < |entries| :: printer(keys[k]) == Ok(entries[k].key)
    requires forall a, b | printer(a).Ok? && printer(a) == printer(b) :: a == b
    ensures forall key | key in NonZero(values) :: key in keys
  {
    forall key | key in NonZero(values)
      ensures key in keys
    {
      var k :| 0 <= k < |entries| && entries[k].key == printer(key).value;
      assert printer(keys[k]) == printer(key);
    }
  }

  lemma PrintingIsInjective()
    ensures forall a, b | Printing()(a).Ok? && Printing()(a) == Printing()(b) :: a == b
  {
    forall a, b | Printing()(a).Ok? && Printing()(a) == Printing()(b)
      ensures a == b
    {
      SerializeIsInjective(a, b);
    }
  }

  /** Restoring what was exported, in any order, leaves exactly the accumulators that were not zero. */
  lemma RestoreUndoesExport(cfg: P.Config, generatorIds: set<Text>, values: map<P.Key, real>, saved: map<Text, real>,
                            entries: seq<Entry>)
    requires Exports(Printing(), values, saved) && Lists(entries, saved)
    ensures Restored(Restorer(cfg, generatorIds), entries, |entries|) == Held(NonZero(values), map[])
  {
    var step, printer := Restorer(cfg, generatorIds), Printing();
    var keys := KeysOfEntries(printer, values, saved, entries, |entries|);
    forall k | 0 <= k < |entries|
      ensures Sets(step, entries[k], keys[k])
    {
      assert printer(keys[k]) == Ok(entries[k].key);
      ExportedEntrySetsItsKey(cfg, generatorIds, entries[k], keys[k]);
    }
    PrintingIsInjective();
    EveryKeyIsListed(printer, values, saved, entries, keys);
    RestoringGivesTarget(step, entries, keys, NonZero(values));
  }

  lemma RestoringGivesTarget(step: (Held, Entry) -> Held, entries: seq<Entry>, keys: seq<P.Key>,
                             target: map<P.Key, real>)
    requires |entries| == |keys| && forall k | 0 <= k < |entries| :: Sets(step, entries[k], keys[k])
    requires forall k | 0 <= k < |entries| :: keys[k] in target && entries[k].value == Some(target[keys[k]])
    requires forall key | key in target :: key in keys
    ensures Restored(step, entries, |entries|) == Held(target, map[])
  {
    RestoringSetsKeys(step, entries, keys, target, |entries|);
    assert Restored(step, entries, |entries|).values == target;
  }
}
