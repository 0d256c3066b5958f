/**
 * What a canonical text looks like (packages/renderer-contract/src/hashing.ts:1-160), told from the text:
 * the grammar of RFC 8259 without white space, strings escaped as in section 3.2.2.2 of RFC 8785, and the
 * members of objects in the order of section 3.2.3.
 */
module CanonicalTexts {
  import opened Wrappers
  import opened Texts
  import opened CanonicalJson
  import opened CanonicalForm

  // ----- strings

  /** A lower-case hexadecimal digit. */
  predicate IsHexDigit(u: CodeUnit, n: nat) {
    n < 16 && u == (if n < 10 then 0x30 + n else 0x61 + (n - 10))
  }

  predicate IsHexQuad(t: Text, u: CodeUnit) {
    && |t| == 4 && IsHexDigit(t[0], u / 0x1000) && IsHexDigit(t[1], u / 0x100 % 16)
    && IsHexDigit(t[2], u / 16 % 16) && IsHexDigit(t[3], u % 16)
  }

  /** One code unit in a string: quotes, backslashes, controls and lone surrogates are escaped, nothing else is. */
  predicate SpellsUnit(t: Text, u: CodeUnit) {
    if u == 0x22 then t == [0x5C, 0x22]
    else if u == 0x5C then t == [0x5C, 0x5C]
    else if u == 0x08 then t == Ascii("\\b")
    else if u == 0x09 then t == Ascii("\\t")
    else if u == 0x0A then t == Ascii("\\n")
    else if u == 0x0C then t == Ascii("\\f")
    else if u == 0x0D then t == Ascii("\\r")
    else if u < 0x20 || 0xD800 <= u <= 0xDFFF then |t| == 6 && t[..2] == Ascii("\\u") && IsHexQuad(t[2..], u)
    else t == [u]
  }

  predicate IsPair(s: Text) {
    |s| > 1 && 0xD800 <= s[0] <= 0xDBFF && 0xDC00 <= s[1] <= 0xDFFF
  }

  /** The inside of a string: surrogate pairs stand for themselves. */
  ghost predicate SpellsChars(t: Text, s: Text)
    decreases |s|
  {
    if s == [] then t == []
    else if IsPair(s) then |t| > 1 && t[..2] == s[..2] && SpellsChars(t[2..], s[2..])
    else exists n: nat :: n <= |t| && SpellsUnit(t[..n], s[0]) && SpellsChars(t[n..], s[1..])
  }

  ghost predicate SpellsString(t: Text, s: Text) {
    |t| >= 2 && t[0] == 0x22 && t[|t| - 1] == 0x22 && SpellsChars(t[1..|t| - 1], s)
  }

  // ----- values

  /** Texts between commas. */
  function Separated(parts: seq<Text>): Text {
    if parts == [] then [] else if |parts| == 1 then parts[0] else parts[0] + Ascii(",") + Separated(parts[1..])
  }

  /** `a` comes before `b` by code units: it is a proper prefix, or smaller where they first differ. */
  ghost predicate Precedes(a: Text, b: Text) {
    exists k: nat ::
      && k <= |a| && k < |b| && a[..k] == b[..k]
      && (k == |a| || a[k] < b[k])
  }

  ghost predicate Ascending(keys: seq<Text>) {
    forall i, j | 0 <= i < j < |keys| :: Precedes(keys[i], keys[j])
  }

  /** The text of a value's data, for a printer of numbers; the hole of a sparse array is no text. */
  ghost predicate Spells(num: real -> Text, t: Text, d: Data)
    decreases d, 2
  {
    match d
    case NullData => t == Ascii("null")
    case BooleanData(b) => t == (if b then Ascii("true") else Ascii("false"))
    case NumberData(r) => t == num(r)
    case TextData(s) => SpellsString(t, s)
    case ListData(items) =>
      exists parts: seq<Text> ::
        && t == [0x5B] + Separated(parts) + [0x5D] && |parts| == |items|
        && forall i | 0 <= i < |items| :: Spells(num, parts[i], items[i])
    case RecordData(_) => exists keys: seq<Text>, members: seq<Text> :: SpellsRecord(num, t, keys, members, d)
    case Absent => t == []
  }

  /** An object: its keys in ascending order, all of them, each with its member. */
  ghost predicate SpellsRecord(num: real -> Text, t: Text, keys: seq<Text>, members: seq<Text>, d: Data)
    requires d.RecordData?
    decreases d, 1
  {
    && t == [0x7B] + Separated(members) + [0x7D] && |members| == |keys|
    && Ascending(keys) && (forall key :: key in keys <==> key in d.fields)
    && forall i | 0 <= i < |keys| ::
         keys[i] in d.fields && SpellsMember(num, members[i], keys[i], d.fields[keys[i]])
  }

  /** A member of an object: its name, a colon, its value. */
  ghost predicate SpellsMember(num: real -> Text, t: Text, key: Text, d: Data)
    decreases d, 3
  {
    exists name: Text, value: Text ::
      t == name + [0x3A] + value && SpellsString(name, key) && Spells(num, value, d)
  }

  // ----- canonical texts are such texts

  lemma Quads(u: CodeUnit)
    ensures u / 16 / 16 / 16 == u / 0x1000 < 16 && u / 16 / 16 == u / 0x100
  {
  }

  lemma UnitSpells(u: CodeUnit)
    ensures SpellsUnit(Unit(u), u)
  {
    Quads(u);
  }

  lemma {:induction false} EscapedSpells(s: Text)
    ensures SpellsChars(Escaped(s), s)
    decreases |s|
  {
    if s != [] {
      EscapedSpells(s[Width(s)..]);
      var t, n := Escaped(s), |Token(s)|;
      assert t[..n] == Token(s) && t[n..] == Escaped(s[Width(s)..]);
      if !IsPair(s) {
        UnitSpells(s[0]);
        assert SpellsUnit(t[..n], s[0]);
      }
    }
  }

  lemma QuotedSpells(s: Text)
    ensures SpellsString(Quoted(s), s)
  {
    EscapedSpells(s);
    var t := Quoted(s);
    assert t[1..|t| - 1] == Escaped(s);
  }

  lemma {:induction false} ItemsAreSeparated(num: real -> Text, items: seq<Tree>, parts: seq<Text>)
    requires |parts| == |items| && forall i | 0 <= i < |items| :: parts[i] == Print(num, items[i])
    ensures PrintItems(num, items) == Separated(parts)
  {
    if |items| > 1 {
      ItemsAreSeparated(num, items[1..], parts[1..]);
    }
  }

  lemma {:induction false} FieldsAreSeparated(num: real -> Text, fields: seq<Field>, members: seq<Text>)
    requires |members| == |fields| && forall i | 0 <= i < |fields| :: members[i] == PrintedField(num, fields[i])
    ensures PrintFields(num, fields) == Separated(members)
  {
    if |fields| > 1 {
      FieldsAreSeparated(num, fields[1..], members[1..]);
    }
  }

  /** Keys are sorted by code units. */
  lemma {:induction false} BeforePrecedes(a: Text, b: Text)
    ensures Before(a, b) <==> Precedes(a, b)
  {
    if b != [] {
      if a == [] {
        assert a[..0] == b[..0];
      } else if a[0] == b[0] {
        BeforePrecedes(a[1..], b[1..]);
        if Precedes(a[1..], b[1..]) {
          PrecedesLater(a, b);
        } else if Precedes(a, b) {
          PrecedesSooner(a, b);
        }
      } else {
        assert a[..0] == b[..0];
        assert forall k: nat | k <= |a| && k <= |b| && k > 0 :: a[..k][0] == a[0] && b[..k][0] == b[0];
      }
    }
  }

  lemma PrecedesLater(a: Text, b: Text)
    requires a != [] && b != [] && a[0] == b[0] && Precedes(a[1..], b[1..])
    ensures Precedes(a, b)
  {
    var k: nat :| && k <= |a[1..]| && k < |b[1..]| && a[1..][..k] == b[1..][..k]
                  && (k == |a[1..]| || a[1..][k] < b[1..][k]);
    assert a[..k + 1] == [a[0]] + a[1..][..k] && b[..k + 1] == [b[0]] + b[1..][..k];
  }

  lemma PrecedesSooner(a: Text, b: Text)
    requires a != [] && b != [] && a[0] == b[0] && Precedes(a, b)
    ensures Precedes(a[1..], b[1..])
  {
    var k: nat :| k <= |a| && k < |b| && a[..k] == b[..k] && (k == |a| || a[k] < b[k]);
    assert k > 0;
    assert a[1..][..k - 1] == a[..k][1..] && b[1..][..k - 1] == b[..k][1..];
  }

  /** A sorted tree prints as the text of its data. */
  lemma {:induction false} PrintSpells(num: real -> Text, t: Tree)
    requires Sorted(t)
    ensures Spells(num, Print(num, t), ToData(t))
  {
    match t
    case TextTree(s) => QuotedSpells(s);
    case ListTree(items) =>
      var parts := seq(|items|, i requires 0 <= i < |items| => Print(num, items[i]));
      ItemsAreSeparated(num, items, parts);
      forall i | 0 <= i < |items|
        ensures Spells(num, parts[i], ToData(items[i]))
      {
        PrintSpells(num, items[i]);
      }
      ListSpells(num, items, parts);
    case RecordTree(fields) =>
      forall i | 0 <= i < |fields|
        ensures Spells(num, Print(num, fields[i].value), ToData(fields[i].value))
      {
        PrintSpells(num, fields[i].value);
      }
      RecordSpells(num, fields);
    case _ =>
  }

  lemma ListSpells(num: real -> Text, items: seq<Tree>, parts: seq<Text>)
    requires |parts| == |items| && forall i | 0 <= i < |items| :: Spells(num, parts[i], ToData(items[i]))
    ensures Spells(num, [0x5B] + Separated(parts) + [0x5D], ToData(ListTree(items)))
  {
    var data := ToData(ListTree(items)).items;
    assert |parts| == |data| && forall i | 0 <= i < |data| :: Spells(num, parts[i], data[i]);
  }

  lemma MemberSpells(num: real -> Text, f: Field)
    requires Spells(num, Print(num, f.value), ToData(f.value))
    ensures SpellsMember(num, PrintedField(num, f), f.key, ToData(f.value))
  {
    QuotedSpells(f.key);
  }

  lemma RecordSpells(num: real -> Text, fields: seq<Field>)
    requires InOrder(fields)
    requires forall i | 0 <= i < |fields| :: Spells(num, Print(num, fields[i].value), ToData(fields[i].value))
    ensures Spells(num, Print(num, RecordTree(fields)), ToData(RecordTree(fields)))
  {
    var keys := seq(|fields|, i requires 0 <= i < |fields| => fields[i].key);
    var members := seq(|fields|, i requires 0 <= i < |fields| => PrintedField(num, fields[i]));
    RecordParts(num, fields, keys, members);
    PartsMakeRecord(num, Print(num, RecordTree(fields)), keys, members, ToData(RecordTree(fields)));
  }

  lemma PartsMakeRecord(num: real -> Text, t: Text, keys: seq<Text>, members: seq<Text>, d: Data)
    requires d.RecordData? && SpellsRecord(num, t, keys, members, d)
    ensures Spells(num, t, d)
  {
  }

  lemma RecordParts(num: real -> Text, fields: seq<Field>, keys: seq<Text>, members: seq<Text>)
    requires InOrder(fields) && |keys| == |members| == |fields|
    requires forall i | 0 <= i < |fields| :: Spells(num, Print(num, fields[i].value), ToData(fields[i].value))
    requires forall i | 0 <= i < |fields| :: keys[i] == fields[i].key && members[i] == PrintedField(num, fields[i])
    ensures SpellsRecord(num, Print(num, RecordTree(fields)), keys, members, ToData(RecordTree(fields)))
  {
    FieldsAreSeparated(num, fields, members);
    KeysAscend(fields, keys);
    MembersSpell(num, fields, keys, members);
  }

  lemma KeysAscend(fields: seq<Field>, keys: seq<Text>)
    requires InOrder(fields) && |keys| == |fields| && forall i | 0 <= i < |fields| :: keys[i] == fields[i].key
    ensures Ascending(keys)
  {
    forall i, j | 0 <= i < j < |keys|
      ensures Precedes(keys[i], keys[j])
    {
      BeforePrecedes(keys[i], keys[j]);
    }
  }

  lemma MembersSpell(num: real -> Text, fields: seq<Field>, keys: seq<Text>, members: seq<Text>)
    requires InOrder(fields) && |keys| == |members| == |fields|
    requires forall i | 0 <= i < |fields| :: Spells(num, Print(num, fields[i].value), ToData(fields[i].value))
    requires forall i | 0 <= i < |fields| :: keys[i] == fields[i].key && members[i] == PrintedField(num, fields[i])
    ensures var data := ToData(RecordTree(fields)).fields;
            && (forall key :: key in keys <==> key in data)
            && forall i | 0 <= i < |keys| :: keys[i] in data && SpellsMember(num, members[i], keys[i], data[keys[i]])
  {
    var data := ToData(RecordTree(fields)).fields;
    forall i | 0 <= i < |keys|
      ensures keys[i] in data && SpellsMember(num, members[i], keys[i], data[keys[i]])
    {
      DataOfField(fields, i);
      MemberSpells(num, fields[i]);
    }
    forall key
      ensures key in keys <==> key in data
    {
      if key in data {
        var i :| 0 <= i < |fields| && fields[i].key == key;
        assert keys[i] == key;
      }
    }
  }

  /**
   * The canonical text of a value spells exactly the data of the value: members that say something, each
   * key once and in ascending order, and nothing between the tokens.
   */
  lemma CanonicalTextSpells(num: real -> Text, v: Js)
    requires Proper(v) && Canonicalize(num, v).Ok?
    ensures Spells(num, Canonicalize(num, v).value, DataOf(v))
  {
    var t := CanonicalTree(num, v);
    PrintSpells(num, t);
  }

  // ----- why a value is refused

  /** The first thing in a value, in reading order, that has no JSON form, and the error for it. */
  ghost predicate RefusedFor(v: Js, e: HashError)
    decreases v
  {
    match v
    case Numeric(n) => if n.NaN? then e == FoundNaN else n.Infinity? && e == FoundInfinity
    case BigInt => e == FoundBigInt
    case Symbol => e == FoundSymbol
    case Function => e == FoundFunction
    case MapObject => e == FoundMap
    case SetObject => e == FoundSet
    case OtherObject => e == FoundNonPlainObject
    case Array(items) =>
      exists i :: 0 <= i < |items| && RefusedFor(items[i], e) && forall j | 0 <= j < i :: Hashable(items[j])
    case Object(entries) =>
      exists i :: && 0 <= i < |entries| && RefusedFor(entries[i].value, e)
                  && forall j | 0 <= j < i :: Hashable(entries[j].value)
    case _ => false
  }

  lemma {:induction false} ItemsRefused(items: seq<Js>) returns (i: nat)
    requires NormalizeItems(items).Err?
    ensures i < |items| && Normalize(items[i]).Err? && Normalize(items[i]).error == NormalizeItems(items).error
    ensures forall j | 0 <= j < i :: Normalize(items[j]).Ok?
  {
    if Normalize(items[0]).Err? {
      i := 0;
    } else {
      i := ItemsRefused(items[1..]);
      assert forall j | 0 < j < i + 1 :: items[j] == items[1..][j - 1];
      i := i + 1;
    }
  }

  lemma {:induction false} EntriesRefused(entries: seq<Entry>) returns (i: nat)
    requires NormalizeEntries(entries).Err?
    ensures i < |entries| && Normalize(entries[i].value).Err?
            && Normalize(entries[i].value).error == NormalizeEntries(entries).error
    ensures forall j | 0 <= j < i :: Normalize(entries[j].value).Ok?
  {
    if Normalize(entries[0].value).Err? {
      i := 0;
    } else {
      i := EntriesRefused(entries[1..]);
      assert forall j | 0 < j < i + 1 :: entries[j] == entries[1..][j - 1];
      i := i + 1;
    }
  }

  /** A value is refused for the first thing in it that has no JSON form. */
  lemma {:induction false} RefusedForFirst(v: Js)
    requires Normalize(v).Err?
    ensures RefusedFor(v, Normalize(v).error)
  {
    match v
    case Array(items) =>
      var i := ItemsRefused(items);
      RefusedForFirst(items[i]);
      forall j | 0 <= j < i
        ensures Hashable(items[j])
      {
        NormalizeAccepts(items[j]);
      }
    case Object(entries) =>
      var i := EntriesRefused(entries);
      RefusedForFirst(entries[i].value);
      forall j | 0 <= j < i
        ensures Hashable(entries[j].value)
      {
        NormalizeAccepts(entries[j].value);
      }
    case _ =>
  }
}
