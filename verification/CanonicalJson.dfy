/**
 * Canonical JSON for hashing (packages/renderer-contract/src/hashing.ts, after RFC 8785, section 3.2):
 * what is refused, what is printed, and when two values print the same text.
 */
module CanonicalJson {
  import opened Wrappers
  import opened Texts

  /** A number as the program sees it; infinities and NaN have no JSON form, and zero has a negative one. */
  datatype Number = NaN | Infinity(negative: bool) | NegativeZero | Finite(value: real)

  datatype Entry = Entry(key: Text, value: Js)

  /** A value, as a tree; `Hole` only occurs as an element of a sparse array. */
  datatype Js =
    | Undefined
    | Null
    | Boolean(b: bool)
    | Numeric(n: Number)
    | Str(t: Text)
    | Array(items: seq<Js>)
    | Object(entries: seq<Entry>)
    | Hole
    | BigInt
    | Symbol
    | Function
    | MapObject
    | SetObject
    | OtherObject

  datatype HashError = FoundNaN | FoundInfinity | FoundBigInt | FoundSymbol | FoundFunction | FoundMap | FoundSet
    | FoundNonPlainObject | NothingToHash

  /** Objects have each key once, at every depth, and holes are elements of arrays only. */
  predicate Proper(v: Js) {
    match v
    case Array(items) => forall i | 0 <= i < |items| && items[i] != Hole :: Proper(items[i])
    case Object(entries) => DistinctKeys(entries) && forall i | 0 <= i < |entries| :: Proper(entries[i].value)
    case Hole => false
    case _ => true
  }

  predicate DistinctKeys(entries: seq<Entry>) {
    forall i, j | 0 <= i < j < |entries| :: entries[i].key != entries[j].key
  }

  // ----- normalizeNumbersForHash

  function NormalizeItems(items: seq<Js>): Result<seq<Js>, HashError> {
    if items == [] then Ok([])
    else
      match Normalize(items[0])
      case Err(e) => Err(e)
      case Ok(first) =>
        match NormalizeItems(items[1..])
        case Err(e) => Err(e)
        case Ok(rest) => Ok([first] + rest)
  }

  function NormalizeEntries(entries: seq<Entry>): Result<seq<Entry>, HashError> {
    if entries == [] then Ok([])
    else
      match Normalize(entries[0].value)
      case Err(e) => Err(e)
      case Ok(first) =>
        match NormalizeEntries(entries[1..])
        case Err(e) => Err(e)
        case Ok(rest) => Ok([Entry(entries[0].key, first)] + rest)
  }

  /** Refuses what has no JSON form, and turns negative zero into zero. */
  function Normalize(v: Js): Result<Js, HashError> {
    match v
    case Numeric(NaN) => Err(FoundNaN)
    case Numeric(Infinity(_)) => Err(FoundInfinity)
    case Numeric(NegativeZero) => Ok(Numeric(Finite(0.0)))
    case BigInt => Err(FoundBigInt)
    case Symbol => Err(FoundSymbol)
    case Function => Err(FoundFunction)
    case MapObject => Err(FoundMap)
    case SetObject => Err(FoundSet)
    case OtherObject => Err(FoundNonPlainObject)
    case Array(items) =>
      (match NormalizeItems(items)
       case Err(e) => Err(e)
       case Ok(normalized) => Ok(Array(normalized)))
    case Object(entries) =>
      (match NormalizeEntries(entries)
       case Err(e) => Err(e)
       case Ok(normalized) => Ok(Object(normalized)))
    case _ => Ok(v)
  }

  // ----- printing

  function Hex(n: nat): CodeUnit
    requires n < 16
  {
    if n < 10 then 0x30 + n else 0x57 + n
  }

  predicate IsSurrogate(u: CodeUnit) {
    0xD800 <= u < 0xE000
  }

  predicate StartsPair(t: Text) {
    |t| > 1 && 0xD800 <= t[0] < 0xDC00 && 0xDC00 <= t[1] < 0xE000
  }

  /** The letter of a two-unit escape, if the code unit has one. */
  function ShortEscape(u: CodeUnit): Option<CodeUnit> {
    if u == 0x22 || u == 0x5C then Some(u)
    else if u == 0x08 then Some(0x62)
    else if u == 0x0C then Some(0x66)
    else if u == 0x0A then Some(0x6E)
    else if u == 0x0D then Some(0x72)
    else if u == 0x09 then Some(0x74)
    else None
  }

  /** How many code units of the text are printed together. */
  function Width(t: Text): (n: nat)
    requires t != []
    ensures 1 <= n <= |t|
  {
    if StartsPair(t) then 2 else 1
  }

  /** One code unit as it is, or escaped: with a letter, or with four hexadecimal digits. */
  function Unit(u: CodeUnit): Text {
    if ShortEscape(u).Some? then [0x5C, ShortEscape(u).value]
    else if u < 0x20 || IsSurrogate(u) then
      [0x5C, 0x75, Hex(u / 16 / 16 / 16), Hex(u / 16 / 16 % 16), Hex(u / 16 % 16), Hex(u % 16)]
    else [u]
  }

  /** The print of the first `Width` code units. */
  function Token(t: Text): Text
    requires t != []
  {
    if StartsPair(t) then t[..2] else Unit(t[0])
  }

  function Escaped(t: Text): Text {
    if t == [] then [] else Token(t) + Escaped(t[Width(t)..])
  }

  /** `JSON.stringify` of a string. */
  function Quoted(t: Text): Text {
    [0x22] + Escaped(t) + [0x22]
  }

  const COMMA: CodeUnit := 0x2C

  /** `parts.join(',')`. */
  function Commas(parts: seq<Text>): Text {
    if parts == [] then [] else Join(parts, COMMA)
  }

  /** Locale-independent order of strings, by code units. */
  predicate Before(a: Text, b: Text) {
    if b == [] then false
    else if a == [] then true
    else a[0] < b[0] || (a[0] == b[0] && Before(a[1..], b[1..]))
  }

  function Insert(e: Entry, sorted: seq<Entry>): (r: seq<Entry>)
    ensures forall x :: x in r <==> x == e || x in sorted
  {
    if sorted == [] || !Before(sorted[0].key, e.key) then [e] + sorted else [sorted[0]] + Insert(e, sorted[1..])
  }

  /** The entries in the order of their sorted keys. */
  function SortByKey(entries: seq<Entry>): (r: seq<Entry>)
    ensures forall x :: x in r <==> x in entries
  {
    if entries == [] then [] else Insert(entries[0], SortByKey(entries[1..]))
  }

  /** The printed pairs of the entries that have a printed value. */
  function Pairs(entries: seq<Entry>, printed: seq<Option<Text>>): seq<Text>
    requires |printed| == |entries|
  {
    if entries == [] then []
    else
      var rest := Pairs(entries[1..], printed[1..]);
      if printed[0].None? then rest else [Quoted(entries[0].key) + [0x3A] + printed[0].value] + rest
  }

  function OrNull(t: Option<Text>): Text {
    if t.Some? then t.value else Ascii("null")
  }

  /** The canonical text of a value, for a given printer of finite numbers; `None` where nothing is printed. */
  function Serialize(num: real -> Text, v: Js): Option<Text> {
    match v
    case Null => Some(Ascii("null"))
    case Boolean(b) => Some(if b then Ascii("true") else Ascii("false"))
    case Numeric(Finite(r)) => Some(num(r))
    case Numeric(NegativeZero) => Some(num(0.0))
    case Numeric(_) => Some(Ascii("null"))
    case Str(t) => Some(Quoted(t))
    case Array(items) =>
      var elements := seq(|items|, i requires 0 <= i < |items| =>
        if items[i] == Hole then [] else OrNull(Serialize(num, items[i])));
      Some([0x5B] + Commas(elements) + [0x5D])
    case Object(entries) =>
      var sorted := SortByKey(entries);
      var printed := seq(|sorted|, i requires 0 <= i < |sorted| =>
        assert sorted[i] in entries; Serialize(num, sorted[i].value));
      Some([0x7B] + Commas(Pairs(sorted, printed)) + [0x7D])
    case _ => None
  }

  function Canonicalize(num: real -> Text, v: Js): Result<Text, HashError> {
    match Normalize(v)
    case Err(e) => Err(e)
    case Ok(normalized) =>
      match Serialize(num, normalized)
      case None => Err(NothingToHash)
      case Some(t) => Ok(t)
  }
}

/** What a canonical text says: the JSON data of the value, and nothing else. */
module CanonicalForm {
  import opened Wrappers
  import opened Texts
  import opened CanonicalJson

  // ----- the data of a value

  /** JSON data: objects are maps from keys to data. `Absent` stands for the hole of a sparse array. */
  datatype Data = NullData | BooleanData(b: bool) | NumberData(r: real) | TextData(t: Text)
    | ListData(items: seq<Data>) | RecordData(fields: map<Text, Data>) | Absent

  function Keys(entries: seq<Entry>): set<Text> {
    set i | 0 <= i < |entries| :: entries[i].key
  }

  /** The first entry of that key. */
  function Position(entries: seq<Entry>, key: Text): (i: nat)
    requires key in Keys(entries)
    ensures i < |entries| && entries[i].key == key
  {
    if entries[0].key == key then 0
    else
      assert exists j :: 0 <= j < |entries[1..]| && entries[1..][j].key == key by {
        var j :| 0 <= j < |entries| && entries[j].key == key;
        assert entries[1..][j - 1].key == key;
      }
      1 + Position(entries[1..], key)
  }

  /** Whether a value says anything: an undefined member of an object is left out. */
  predicate Says(v: Js) {
    match v
    case Null | Boolean(_) | Numeric(_) | Str(_) | Array(_) | Object(_) => true
    case _ => false
  }

  /** The data of a value: negative zero is zero, undefined elements are null, undefined members are left out. */
  ghost function DataOf(v: Js): Data {
    match v
    case Boolean(b) => BooleanData(b)
    case Numeric(Finite(r)) => NumberData(r)
    case Numeric(_) => NumberData(0.0)
    case Str(t) => TextData(t)
    case Array(items) => ListData(seq(|items|, i requires 0 <= i < |items| => DataOf(items[i])))
    case Object(entries) =>
      RecordData(map key | key in Keys(entries) && Says(entries[Position(entries, key)].value) ::
        DataOf(entries[Position(entries, key)].value))
    case Hole => Absent
    case _ => NullData
  }

  // ----- sorted trees

  datatype Field = Field(key: Text, value: Tree)

  /** Data with the fields of each record in a list. */
  datatype Tree = NullTree | BooleanTree(b: bool) | NumberTree(r: real) | TextTree(t: Text)
    | ListTree(items: seq<Tree>) | RecordTree(fields: seq<Field>) | AbsentTree

  predicate InOrder(fields: seq<Field>) {
    forall i, j | 0 <= i < j < |fields| :: Before(fields[i].key, fields[j].key)
  }

  /** Every record has its fields in strict key order. */
  predicate Sorted(t: Tree) {
    match t
    case ListTree(items) => forall i | 0 <= i < |items| :: Sorted(items[i])
    case RecordTree(fields) => InOrder(fields) && forall i | 0 <= i < |fields| :: Sorted(fields[i].value)
    case _ => true
  }

  // ----- printing trees is unambiguous

  /** The printer tells these numbers apart, and uses only digits, signs, points and exponents for them. */
  ghost predicate PrintsNumbers(num: real -> Text, numbers: set<real>) {
    && (forall r | r in numbers :: IsNumber(num(r)))
    && forall r, q | r in numbers && q in numbers && num(r) == num(q) :: r == q
  }

  predicate IsNumber(t: Text) {
    t != [] && forall i | 0 <= i < |t| :: IsNumeral(t[i])
  }

  predicate IsNumeral(u: CodeUnit) {
    0x30 <= u <= 0x39 || u == 0x2B || u == 0x2D || u == 0x2E || u == 0x65
  }

  /** Whatever the numbers, some printer does so: it can count them. */
  lemma {:induction false} SomePrinter(numbers: set<real>) returns (num: real -> Text)
    ensures PrintsNumbers(num, numbers) && forall r | r in numbers :: |num(r)| <= |numbers|
    decreases numbers
  {
    num := r => [];
    if exists r :: r in numbers {
      var last :| last in numbers;
      var rest := SomePrinter(numbers - {last});
      var ones: Text := seq(|numbers|, _ => 0x31);
      num := r => if r == last then ones else rest(r);
    }
  }

  function PrintItems(num: real -> Text, items: seq<Tree>): Text {
    if items == [] then []
    else if |items| == 1 then Print(num, items[0])
    else Print(num, items[0]) + [COMMA] + PrintItems(num, items[1..])
  }

  function PrintFields(num: real -> Text, fields: seq<Field>): Text {
    if fields == [] then []
    else
      var first := Quoted(fields[0].key) + [0x3A] + Print(num, fields[0].value);
      if |fields| == 1 then first else first + [COMMA] + PrintFields(num, fields[1..])
  }

  function Print(num: real -> Text, t: Tree): Text {
    match t
    case NullTree => Ascii("null")
    case BooleanTree(b) => if b then Ascii("true") else Ascii("false")
    case NumberTree(r) => num(r)
    case TextTree(s) => Quoted(s)
    case ListTree(items) => [0x5B] + PrintItems(num, items) + [0x5D]
    case RecordTree(fields) => [0x7B] + PrintFields(num, fields) + [0x7D]
    case AbsentTree => []
  }

  /** The end of a text, or a mark that no value starts with. */
  predicate Delimited(t: Text) {
    t == [] || t[0] == COMMA || t[0] == 0x5D || t[0] == 0x7D
  }

  // strings

  lemma SameByDigits(u: nat, w: nat)
    requires u % 16 == w % 16 && u / 16 == w / 16
    ensures u == w
  {
  }

  lemma QuadsDiffer(u: CodeUnit, w: CodeUnit)
    requires Hex(u / 16 / 16 / 16) == Hex(w / 16 / 16 / 16) && Hex(u / 16 / 16 % 16) == Hex(w / 16 / 16 % 16)
    requires Hex(u / 16 % 16) == Hex(w / 16 % 16) && Hex(u % 16) == Hex(w % 16)
    ensures u == w
  {
    SameByDigits(u / 16 / 16, w / 16 / 16);
    SameByDigits(u / 16, w / 16);
    SameByDigits(u, w);
  }

  /** Prints of single code units cannot be confused, whatever follows. */
  lemma UnitsDiffer(u: CodeUnit, w: CodeUnit, x: Text, y: Text)
    requires Unit(u) + x == Unit(w) + y
    ensures u == w
  {
    var all := Unit(u) + x;
    assert all[0] == Unit(u)[0] && all[0] == Unit(w)[0];
    if all[0] == 0x5C {
      assert all[1] == Unit(u)[1] && all[1] == Unit(w)[1];
      if all[1] == 0x75 {
        assert all[2] == Unit(u)[2] && all[2] == Unit(w)[2] && all[3] == Unit(u)[3] && all[3] == Unit(w)[3];
        assert all[4] == Unit(u)[4] && all[4] == Unit(w)[4] && all[5] == Unit(u)[5] && all[5] == Unit(w)[5];
        QuadsDiffer(u, w);
      }
    }
  }

  /** Nor can prints of pairs and single code units. */
  lemma TokensDiffer(s: Text, t: Text, x: Text, y: Text)
    requires s != [] && t != [] && Token(s) + x == Token(t) + y
    ensures Width(s) == Width(t) && s[..Width(s)] == t[..Width(t)] && x == y
  {
    var all := Token(s) + x;
    assert all[0] == Token(s)[0] && all[0] == Token(t)[0];
    if StartsPair(s) || StartsPair(t) {
      assert StartsPair(s) && StartsPair(t);
      assert all[1] == Token(s)[1] && all[1] == Token(t)[1];
    } else {
      UnitsDiffer(s[0], t[0], x, y);
    }
    assert all[|Token(s)|..] == x && all[|Token(t)|..] == y;
  }

  lemma QuoteEndsEmpty(s: Text, x: Text)
    ensures (Escaped(s) + [0x22] + x)[0] == 0x22 <==> s == []
  {
    if s != [] {
      assert (Escaped(s) + [0x22] + x)[0] == Token(s)[0];
    }
  }

  /** A quoted string ends where it ends: no string is confused with another, whatever follows. */
  lemma {:induction false} EscapedDiffers(s: Text, t: Text, x: Text, y: Text)
    requires Escaped(s) + [0x22] + x == Escaped(t) + [0x22] + y
    ensures s == t && x == y
    decreases |s|
  {
    if s == [] || t == [] {
      EmptyEscapedDiffers(s, t, x, y);
    } else {
      EscapedSplits(s, x);
      EscapedSplits(t, y);
      TokensDiffer(s, t, Escaped(s[Width(s)..]) + [0x22] + x, Escaped(t[Width(t)..]) + [0x22] + y);
      EscapedDiffers(s[Width(s)..], t[Width(t)..], x, y);
      assert s == s[..Width(s)] + s[Width(s)..] && t == t[..Width(t)] + t[Width(t)..];
    }
  }

  lemma EscapedSplits(s: Text, x: Text)
    requires s != []
    ensures Escaped(s) + [0x22] + x == Token(s) + (Escaped(s[Width(s)..]) + [0x22] + x)
  {
  }

  lemma EmptyEscapedDiffers(s: Text, t: Text, x: Text, y: Text)
    requires Escaped(s) + [0x22] + x == Escaped(t) + [0x22] + y && (s == [] || t == [])
    ensures s == t && x == y
  {
    QuoteEndsEmpty(s, x);
    QuoteEndsEmpty(t, y);
    assert s == t == [];
    assert (Escaped(s) + [0x22] + x)[1..] == x && (Escaped(t) + [0x22] + y)[1..] == y;
  }

  lemma TailsAgree(c: CodeUnit, a: Text, b: Text)
    requires [c] + a == [c] + b
    ensures a == b
  {
    assert ([c] + a)[1..] == a && ([c] + b)[1..] == b;
  }

  lemma QuotedDiffers(s: Text, t: Text, x: Text, y: Text)
    requires Quoted(s) + x == Quoted(t) + y
    ensures s == t && x == y
  {
    var a, b := Escaped(s) + [0x22] + x, Escaped(t) + [0x22] + y;
    assert Quoted(s) + x == [0x22] + a && Quoted(t) + y == [0x22] + b;
    TailsAgree(0x22, a, b);
    EscapedDiffers(s, t, x, y);
  }

  // numbers

  /** A number ends at the first code unit that no number uses. */
  lemma NumbersDiffer(num: real -> Text, numbers: set<real>, r: real, q: real, x: Text, y: Text)
    requires PrintsNumbers(num, numbers) && r in numbers && q in numbers
    requires Delimited(x) && Delimited(y) && num(r) + x == num(q) + y
    ensures r == q && x == y
  {
    NumeralsEnd(num(r), num(q), x, y);
    NumeralsEnd(num(q), num(r), y, x);
    var all := num(r) + x;
    assert all[..|num(r)|] == num(r) && all[..|num(q)|] == num(q);
    assert all[|num(r)|..] == x && all[|num(q)|..] == y;
  }

  lemma NumeralsEnd(a: Text, b: Text, x: Text, y: Text)
    requires Delimited(x) && a + x == b + y && forall i | 0 <= i < |b| :: IsNumeral(b[i])
    ensures |b| <= |a|
  {
    if |a| < |b| {
      NextUnit(a, b, x, y);
    }
  }

  lemma NextUnit(a: Text, b: Text, x: Text, y: Text)
    requires a + x == b + y && |a| < |b|
    ensures x != [] && x[0] == b[|a|]
  {
    assert (a + x)[|a|] == x[0];
    assert (b + y)[|a|] == b[|a|];
  }

  // trees

  /** A tree and its items or fields, printed in front of the rest of a text. */
  function Emit(num: real -> Text, t: Tree, rest: Text): Text
    decreases t, 0
  {
    match t
    case ListTree(items) => [0x5B] + (if items == [] then [0x5D] + rest else EmitItems(num, items, rest))
    case RecordTree(fields) => [0x7B] + (if fields == [] then [0x7D] + rest else EmitFields(num, fields, rest))
    case _ => Print(num, t) + rest
  }

  function EmitItems(num: real -> Text, items: seq<Tree>, rest: Text): Text
    requires items != []
    decreases items, 1
  {
    Emit(num, items[0], AfterItem(num, items, rest))
  }

  function AfterItem(num: real -> Text, items: seq<Tree>, rest: Text): (r: Text)
    requires items != []
    ensures Delimited(r)
    decreases items, 0
  {
    if |items| == 1 then [0x5D] + rest else [COMMA] + EmitItems(num, items[1..], rest)
  }

  function EmitFields(num: real -> Text, fields: seq<Field>, rest: Text): Text
    requires fields != []
    decreases fields, 1
  {
    Quoted(fields[0].key) + ([0x3A] + Emit(num, fields[0].value, AfterField(num, fields, rest)))
  }

  function AfterField(num: real -> Text, fields: seq<Field>, rest: Text): (r: Text)
    requires fields != []
    ensures Delimited(r)
    decreases fields, 0
  {
    if |fields| == 1 then [0x7D] + rest else [COMMA] + EmitFields(num, fields[1..], rest)
  }

  lemma Assoc(a: Text, b: Text, c: Text)
    ensures a + b + c == a + (b + c)
  {
  }

  lemma Behind(c: CodeUnit, s: Text, d: CodeUnit, t: Text)
    requires [c] + s == [d] + t
    ensures c == d && s == t
  {
    assert ([c] + s)[0] == c && ([d] + t)[0] == d;
    assert ([c] + s)[1..] == s && ([d] + t)[1..] == t;
  }

  /** Emitting is printing. */
  lemma {:induction false} EmitIsPrint(num: real -> Text, t: Tree, rest: Text)
    ensures Emit(num, t, rest) == Print(num, t) + rest
    decreases t, 0
  {
    match t
    case ListTree(items) =>
      if items == [] {
        assert [0x5B] + [] + [0x5D] + rest == [0x5B] + ([0x5D] + rest);
      } else {
        EmitItemsIsPrint(num, items, rest);
        Bracketed(0x5B, PrintItems(num, items), 0x5D, rest);
      }
    case RecordTree(fields) =>
      if fields == [] {
        assert [0x7B] + [] + [0x7D] + rest == [0x7B] + ([0x7D] + rest);
      } else {
        EmitFieldsIsPrint(num, fields, rest);
        Bracketed(0x7B, PrintFields(num, fields), 0x7D, rest);
      }
    case _ =>
  }

  lemma Bracketed(open: CodeUnit, t: Text, close: CodeUnit, rest: Text)
    ensures [open] + t + [close] + rest == [open] + (t + [close] + rest)
  {
  }

  lemma {:induction false} EmitItemsIsPrint(num: real -> Text, items: seq<Tree>, rest: Text)
    requires items != []
    ensures EmitItems(num, items, rest) == PrintItems(num, items) + [0x5D] + rest
    decreases items, 1
  {
    EmitIsPrint(num, items[0], AfterItem(num, items, rest));
    if |items| > 1 {
      EmitItemsIsPrint(num, items[1..], rest);
      Listed(Print(num, items[0]), PrintItems(num, items[1..]), 0x5D, rest);
    } else {
      Assoc(Print(num, items[0]), [0x5D], rest);
    }
  }

  lemma Listed(first: Text, others: Text, close: CodeUnit, rest: Text)
    ensures first + ([COMMA] + (others + [close] + rest)) == first + [COMMA] + others + [close] + rest
  {
  }

  lemma Keyed(key: Text, value: Text, rest: Text)
    ensures key + ([0x3A] + (value + rest)) == key + [0x3A] + value + rest
  {
  }

  lemma {:induction false} EmitFieldsIsPrint(num: real -> Text, fields: seq<Field>, rest: Text)
    requires fields != []
    ensures EmitFields(num, fields, rest) == PrintFields(num, fields) + [0x7D] + rest
    decreases fields, 1
  {
    var key, value := Quoted(fields[0].key), fields[0].value;
    var after := AfterField(num, fields, rest);
    var first := key + [0x3A] + Print(num, value);
    EmitIsPrint(num, value, after);
    Keyed(key, Print(num, value), after);
    if |fields| > 1 {
      EmitFieldsIsPrint(num, fields[1..], rest);
      Listed(first, PrintFields(num, fields[1..]), 0x7D, rest);
    } else {
      Assoc(first, [0x7D], rest);
    }
  }

  /** What kind of tree a text starts with. */
  function Kind(t: Tree): nat {
    match t
    case NullTree => 0
    case BooleanTree(b) => if b then 1 else 2
    case NumberTree(_) => 3
    case TextTree(_) => 4
    case ListTree(_) => 5
    case RecordTree(_) => 6
    case AbsentTree => 7
  }

  function KindOf(t: Text): nat {
    if Delimited(t) then 7
    else if t[0] == 0x6E then 0
    else if t[0] == 0x74 then 1
    else if t[0] == 0x66 then 2
    else if t[0] == 0x22 then 4
    else if t[0] == 0x5B then 5
    else if t[0] == 0x7B then 6
    else 3
  }

  /** The kind shows in the first code unit. */
  lemma KindShows(num: real -> Text, numbers: set<real>, t: Tree, x: Text)
    requires PrintsNumbers(num, numbers) && NumbersWithin(t, numbers) && Delimited(x)
    ensures KindOf(Emit(num, t, x)) == Kind(t)
  {
    match t
    case NumberTree(r) =>
      assert IsNumeral(num(r)[0]) && (num(r) + x)[0] == num(r)[0];
    case AbsentTree =>
      assert [] + x == x;
    case _ =>
  }

  predicate LoneHole(items: seq<Tree>) {
    items == [AbsentTree]
  }

  /** No array consists of a single hole. */
  predicate NoLoneHole(t: Tree) {
    match t
    case ListTree(items) => !LoneHole(items) && forall i | 0 <= i < |items| :: NoLoneHole(items[i])
    case RecordTree(fields) => forall i | 0 <= i < |fields| :: NoLoneHole(fields[i].value)
    case _ => true
  }

  /** All numbers of the tree are among these. */
  predicate NumbersWithin(t: Tree, numbers: set<real>) {
    match t
    case NumberTree(r) => r in numbers
    case ListTree(items) => forall i | 0 <= i < |items| :: NumbersWithin(items[i], numbers)
    case RecordTree(fields) => forall i | 0 <= i < |fields| :: NumbersWithin(fields[i].value, numbers)
    case _ => true
  }

  predicate Clear(t: Tree, numbers: set<real>) {
    NoLoneHole(t) && NumbersWithin(t, numbers)
  }

  lemma {:induction false} ItemsDiffer(num: real -> Text, numbers: set<real>, a: seq<Tree>, b: seq<Tree>, x: Text,
                                       y: Text)
    requires PrintsNumbers(num, numbers) && a != [] && b != [] && EmitItems(num, a, x) == EmitItems(num, b, y)
    requires forall i | 0 <= i < |a| :: Clear(a[i], numbers)
    requires forall i | 0 <= i < |b| :: Clear(b[i], numbers)
    ensures a == b && x == y
    decreases a, 1
  {
    TreesDiffer(num, numbers, a[0], b[0], AfterItem(num, a, x), AfterItem(num, b, y));
    AfterItemDiffers(num, numbers, a, b, x, y);
    assert a == [a[0]] + a[1..] && b == [b[0]] + b[1..];
  }

  lemma {:induction false} AfterItemDiffers(num: real -> Text, numbers: set<real>, a: seq<Tree>, b: seq<Tree>,
                                            x: Text, y: Text)
    requires PrintsNumbers(num, numbers) && a != [] && b != [] && AfterItem(num, a, x) == AfterItem(num, b, y)
    requires forall i | 0 <= i < |a| :: Clear(a[i], numbers)
    requires forall i | 0 <= i < |b| :: Clear(b[i], numbers)
    ensures a[1..] == b[1..] && x == y
    decreases a, 0
  {
    var tailA := if |a| == 1 then x else EmitItems(num, a[1..], x);
    var tailB := if |b| == 1 then y else EmitItems(num, b[1..], y);
    Behind(if |a| == 1 then 0x5D else COMMA, tailA, if |b| == 1 then 0x5D else COMMA, tailB);
    if |a| > 1 {
      ItemsDiffer(num, numbers, a[1..], b[1..], x, y);
    }
  }

  lemma {:induction false} FieldsDiffer(num: real -> Text, numbers: set<real>, a: seq<Field>, b: seq<Field>, x: Text,
                                        y: Text)
    requires PrintsNumbers(num, numbers) && a != [] && b != [] && EmitFields(num, a, x) == EmitFields(num, b, y)
    requires forall i | 0 <= i < |a| :: Clear(a[i].value, numbers)
    requires forall i | 0 <= i < |b| :: Clear(b[i].value, numbers)
    ensures a == b && x == y
    decreases a, 1
  {
    var valueA := Emit(num, a[0].value, AfterField(num, a, x));
    var valueB := Emit(num, b[0].value, AfterField(num, b, y));
    QuotedDiffers(a[0].key, b[0].key, [0x3A] + valueA, [0x3A] + valueB);
    Behind(0x3A, valueA, 0x3A, valueB);
    TreesDiffer(num, numbers, a[0].value, b[0].value, AfterField(num, a, x), AfterField(num, b, y));
    AfterFieldDiffers(num, numbers, a, b, x, y);
    assert a == [a[0]] + a[1..] && b == [b[0]] + b[1..];
  }

  lemma {:induction false} AfterFieldDiffers(num: real -> Text, numbers: set<real>, a: seq<Field>, b: seq<Field>,
                                             x: Text, y: Text)
    requires PrintsNumbers(num, numbers) && a != [] && b != [] && AfterField(num, a, x) == AfterField(num, b, y)
    requires forall i | 0 <= i < |a| :: Clear(a[i].value, numbers)
    requires forall i | 0 <= i < |b| :: Clear(b[i].value, numbers)
    ensures a[1..] == b[1..] && x == y
    decreases a, 0
  {
    var tailA := if |a| == 1 then x else EmitFields(num, a[1..], x);
    var tailB := if |b| == 1 then y else EmitFields(num, b[1..], y);
    Behind(if |a| == 1 then 0x7D else COMMA, tailA, if |b| == 1 then 0x7D else COMMA, tailB);
    if |a| > 1 {
      FieldsDiffer(num, numbers, a[1..], b[1..], x, y);
    }
  }

  /** An array starts like an empty one only if it is empty. */
  lemma FirstItemShows(num: real -> Text, numbers: set<real>, a: seq<Tree>, x: Text)
    requires PrintsNumbers(num, numbers) && a != [] && !LoneHole(a) && Clear(a[0], numbers)
    ensures EmitItems(num, a, x) != [] && EmitItems(num, a, x)[0] != 0x5D
  {
    KindShows(num, numbers, a[0], AfterItem(num, a, x));
    if a[0].AbsentTree? {
      assert [] + AfterItem(num, a, x) == AfterItem(num, a, x);
    }
  }

  lemma ListsDiffer(num: real -> Text, numbers: set<real>, a: seq<Tree>, b: seq<Tree>, x: Text, y: Text)
    requires PrintsNumbers(num, numbers) && Emit(num, ListTree(a), x) == Emit(num, ListTree(b), y)
    requires Clear(ListTree(a), numbers) && Clear(ListTree(b), numbers)
    ensures a == b && x == y
    decreases ListTree(a), 0
  {
    var insideA := if a == [] then [0x5D] + x else EmitItems(num, a, x);
    var insideB := if b == [] then [0x5D] + y else EmitItems(num, b, y);
    Behind(0x5B, insideA, 0x5B, insideB);
    if a != [] {
      FirstItemShows(num, numbers, a, x);
    }
    if b != [] {
      FirstItemShows(num, numbers, b, y);
    }
    if a == [] {
      Behind(0x5D, x, 0x5D, y);
    } else {
      ItemsDiffer(num, numbers, a, b, x, y);
    }
  }

  lemma RecordsDiffer(num: real -> Text, numbers: set<real>, a: seq<Field>, b: seq<Field>, x: Text, y: Text)
    requires PrintsNumbers(num, numbers) && Emit(num, RecordTree(a), x) == Emit(num, RecordTree(b), y)
    requires Clear(RecordTree(a), numbers) && Clear(RecordTree(b), numbers)
    ensures a == b && x == y
    decreases RecordTree(a), 0
  {
    var insideA := if a == [] then [0x7D] + x else EmitFields(num, a, x);
    var insideB := if b == [] then [0x7D] + y else EmitFields(num, b, y);
    Behind(0x7B, insideA, 0x7B, insideB);
    assert a != [] ==> insideA[0] == 0x22;
    assert b != [] ==> insideB[0] == 0x22;
    if a == [] {
      Behind(0x7D, x, 0x7D, y);
    } else {
      FieldsDiffer(num, numbers, a, b, x, y);
    }
  }

  /** Different trees print differently, and where a tree ends shows in the text. */
  lemma {:induction false} TreesDiffer(num: real -> Text, numbers: set<real>, a: Tree, b: Tree, x: Text, y: Text)
    requires PrintsNumbers(num, numbers) && Delimited(x) && Delimited(y) && Emit(num, a, x) == Emit(num, b, y)
    requires Clear(a, numbers) && Clear(b, numbers)
    ensures a == b && x == y
    decreases a, 1
  {
    KindShows(num, numbers, a, x);
    KindShows(num, numbers, b, y);
    match a
    case NumberTree(r) => NumbersDiffer(num, numbers, r, b.r, x, y);
    case TextTree(s) => QuotedDiffers(s, b.t, x, y);
    case ListTree(items) => ListsDiffer(num, numbers, items, b.items, x, y);
    case RecordTree(fields) => RecordsDiffer(num, numbers, fields, b.fields, x, y);
    case _ =>
      var all := Emit(num, a, x);
      assert all[|Print(num, a)|..] == x && all[|Print(num, b)|..] == y;
  }

  // ----- the tree of a value

  /** The fields of the entries that say something. */
  function Kept(entries: seq<Entry>, trees: seq<Tree>): seq<Field>
    requires |trees| == |entries|
  {
    if entries == [] then []
    else
      var rest := Kept(entries[1..], trees[1..]);
      if Says(entries[0].value) then [Field(entries[0].key, trees[0])] + rest else rest
  }

  function TreeOf(v: Js): Tree {
    match v
    case Boolean(b) => BooleanTree(b)
    case Numeric(Finite(r)) => NumberTree(r)
    case Numeric(_) => NumberTree(0.0)
    case Str(t) => TextTree(t)
    case Array(items) => ListTree(seq(|items|, i requires 0 <= i < |items| => TreeOf(items[i])))
    case Object(entries) =>
      var sorted := SortByKey(entries);
      RecordTree(Kept(sorted, seq(|sorted|, i requires 0 <= i < |sorted| =>
        assert sorted[i] in entries; TreeOf(sorted[i].value))))
    case Hole => AbsentTree
    case _ => NullTree
  }

  lemma {:induction false} NormalizeItemsIsNormalize(items: seq<Js>)
    ensures match NormalizeItems(items) {
              case Ok(r) => |r| == |items| && forall i | 0 <= i < |items| :: Normalize(items[i]) == Ok(r[i])
              case Err(_) => exists i :: 0 <= i < |items| && Normalize(items[i]).Err?
            }
  {
    if items != [] {
      NormalizeItemsIsNormalize(items[1..]);
      if Normalize(items[0]).Ok? && NormalizeItems(items[1..]).Err? {
        var i :| 0 <= i < |items[1..]| && Normalize(items[1..][i]).Err?;
        assert Normalize(items[i + 1]).Err?;
      }
    }
  }

  lemma {:induction false} NormalizeEntriesIsNormalize(entries: seq<Entry>)
    ensures match NormalizeEntries(entries) {
              case Ok(r) =>
                && |r| == |entries|
                && forall i | 0 <= i < |entries| ::
                     r[i].key == entries[i].key && Normalize(entries[i].value) == Ok(r[i].value)
              case Err(_) => exists i :: 0 <= i < |entries| && Normalize(entries[i].value).Err?
            }
  {
    if entries != [] {
      NormalizeEntriesIsNormalize(entries[1..]);
      if Normalize(entries[0].value).Ok? && NormalizeEntries(entries[1..]).Err? {
        var i :| 0 <= i < |entries[1..]| && Normalize(entries[1..][i].value).Err?;
        assert Normalize(entries[i + 1].value).Err?;
      }
    }
  }

  /** Normalized values: numbers are finite and not negative zero, and nothing in them is refused. */
  predicate Normal(v: Js) {
    match v
    case Numeric(n) => n.Finite?
    case Array(items) => forall i | 0 <= i < |items| :: Normal(items[i])
    case Object(entries) => forall i | 0 <= i < |entries| :: Normal(entries[i].value)
    case Undefined | Null | Boolean(_) | Str(_) | Hole => true
    case _ => false
  }

  /** Normalizing yields a normal value with the same data. */
  lemma {:induction false} NormalizeKeepsData(v: Js)
    requires Normalize(v).Ok?
    ensures var n := Normalize(v).value;
            Normal(n) && Says(n) == Says(v) && n.Hole? == v.Hole? && DataOf(n) == DataOf(v)
  {
    match v
    case Array(items) =>
      NormalizeItemsIsNormalize(items);
      var r := NormalizeItems(items).value;
      forall i | 0 <= i < |items|
        ensures Normal(r[i]) && DataOf(r[i]) == DataOf(items[i])
      {
        NormalizeKeepsData(items[i]);
      }
      assert DataOf(Array(r)).items == DataOf(v).items;
    case Object(entries) =>
      NormalizeEntriesIsNormalize(entries);
      var r := NormalizeEntries(entries).value;
      forall i | 0 <= i < |entries|
        ensures Normal(r[i].value) && Says(r[i].value) == Says(entries[i].value)
                && DataOf(r[i].value) == DataOf(entries[i].value)
      {
        NormalizeKeepsData(entries[i].value);
      }
      SameKeysSameData(r, entries);
    case _ =>
  }

  lemma SameKeysSamePositions(a: seq<Entry>, b: seq<Entry>, key: Text)
    requires |a| == |b| && (forall i | 0 <= i < |a| :: a[i].key == b[i].key) && key in Keys(a)
    ensures key in Keys(b) && Position(a, key) == Position(b, key)
    decreases |a|
  {
    var i :| 0 <= i < |a| && a[i].key == key;
    assert b[i].key == key;
    if a[0].key != key {
      assert a[1..][i - 1].key == key;
      SameKeysSamePositions(a[1..], b[1..], key);
    }
  }

  lemma SameKeysSameData(a: seq<Entry>, b: seq<Entry>)
    requires |a| == |b| && forall i | 0 <= i < |a| ::
               a[i].key == b[i].key && Says(a[i].value) == Says(b[i].value) && DataOf(a[i].value) == DataOf(b[i].value)
    ensures DataOf(Object(a)) == DataOf(Object(b))
  {
    forall key
      ensures key in Keys(a) <==> key in Keys(b)
      ensures key in Keys(a) ==> Position(a, key) == Position(b, key)
    {
      if key in Keys(a) {
        SameKeysSamePositions(a, b, key);
      } else if key in Keys(b) {
        SameKeysSamePositions(b, a, key);
      }
    }
    assert DataOf(Object(a)).fields == DataOf(Object(b)).fields;
  }

  /** Refused values are exactly those with something refused inside. */
  predicate Hashable(v: Js) {
    match v
    case Numeric(n) => n.Finite? || n.NegativeZero?
    case Array(items) => forall i | 0 <= i < |items| :: Hashable(items[i])
    case Object(entries) => forall i | 0 <= i < |entries| :: Hashable(entries[i].value)
    case Undefined | Null | Boolean(_) | Str(_) | Hole => true
    case _ => false
  }

  lemma {:induction false} NormalizeAccepts(v: Js)
    ensures Normalize(v).Ok? <==> Hashable(v)
  {
    match v
    case Array(items) =>
      NormalizeItemsIsNormalize(items);
      forall i | 0 <= i < |items|
        ensures Normalize(items[i]).Ok? <==> Hashable(items[i])
      {
        NormalizeAccepts(items[i]);
      }
    case Object(entries) =>
      NormalizeEntriesIsNormalize(entries);
      forall i | 0 <= i < |entries|
        ensures Normalize(entries[i].value).Ok? <==> Hashable(entries[i].value)
      {
        NormalizeAccepts(entries[i].value);
      }
    case _ =>
  }

  // ----- serializing is printing the tree

  lemma {:induction false} CommasIsItems(num: real -> Text, parts: seq<Text>, trees: seq<Tree>)
    requires |parts| == |trees| && forall i | 0 <= i < |parts| :: parts[i] == Print(num, trees[i])
    ensures Commas(parts) == PrintItems(num, trees)
  {
    if |parts| > 1 {
      CommasIsItems(num, parts[1..], trees[1..]);
    }
  }

  function PrintedField(num: real -> Text, f: Field): Text {
    Quoted(f.key) + [0x3A] + Print(num, f.value)
  }

  lemma {:induction false} CommasIsFields(num: real -> Text, parts: seq<Text>, fields: seq<Field>)
    requires |parts| == |fields| && forall i | 0 <= i < |parts| :: parts[i] == PrintedField(num, fields[i])
    ensures Commas(parts) == PrintFields(num, fields)
  {
    if |parts| > 1 {
      CommasIsFields(num, parts[1..], fields[1..]);
    }
  }

  lemma {:induction false} PairsAreFields(num: real -> Text, entries: seq<Entry>, printed: seq<Option<Text>>,
                                          trees: seq<Tree>)
    requires |printed| == |entries| == |trees|
    requires forall i | 0 <= i < |entries| ::
               printed[i] == if Says(entries[i].value) then Some(Print(num, trees[i])) else None
    ensures var parts, fields := Pairs(entries, printed), Kept(entries, trees);
            |parts| == |fields| && forall i | 0 <= i < |parts| :: parts[i] == PrintedField(num, fields[i])
  {
    if entries != [] {
      PairsAreFields(num, entries[1..], printed[1..], trees[1..]);
    }
  }

  /** A normal value that says something prints the tree of what it says. */
  lemma {:induction false} SerializeIsPrint(num: real -> Text, v: Js)
    requires Normal(v)
    ensures Serialize(num, v) == if Says(v) then Some(Print(num, TreeOf(v))) else None
    ensures v != Hole ==> OrNull(Serialize(num, v)) == Print(num, TreeOf(v))
  {
    match v
    case Array(items) =>
      forall i | 0 <= i < |items| && items[i] != Hole
        ensures OrNull(Serialize(num, items[i])) == Print(num, TreeOf(items[i]))
      {
        SerializeIsPrint(num, items[i]);
      }
      var elements := seq(|items|, i requires 0 <= i < |items| =>
        if items[i] == Hole then [] else OrNull(Serialize(num, items[i])));
      var trees := TreeOf(v).items;
      forall i | 0 <= i < |items|
        ensures elements[i] == Print(num, trees[i])
      {
        assert trees[i] == TreeOf(items[i]);
      }
      CommasIsItems(num, elements, trees);
    case Object(entries) => SerializeObjectIsPrint(num, entries);
    case _ =>
  }

  lemma SerializeObjectIsPrint(num: real -> Text, entries: seq<Entry>)
    requires Normal(Object(entries))
    ensures Serialize(num, Object(entries)) == Some(Print(num, TreeOf(Object(entries))))
    decreases Object(entries), 0
  {
    var sorted := SortByKey(entries);
    var printed := seq(|sorted|, i requires 0 <= i < |sorted| =>
      assert sorted[i] in entries; Serialize(num, sorted[i].value));
    var trees := seq(|sorted|, i requires 0 <= i < |sorted| =>
      assert sorted[i] in entries; TreeOf(sorted[i].value));
    forall i | 0 <= i < |sorted|
      ensures printed[i] == if Says(sorted[i].value) then Some(Print(num, trees[i])) else None
    {
      assert sorted[i] in entries;
      SerializeIsPrint(num, sorted[i].value);
    }
    PairsAreFields(num, sorted, printed, trees);
    CommasIsFields(num, Pairs(sorted, printed), Kept(sorted, trees));
  }

  // ----- trees and data

  ghost function FieldKeys(fields: seq<Field>): set<Text> {
    set i | 0 <= i < |fields| :: fields[i].key
  }

  ghost function FieldAt(fields: seq<Field>, key: Text): (i: nat)
    requires key in FieldKeys(fields)
    ensures i < |fields| && fields[i].key == key
  {
    var i :| 0 <= i < |fields| && fields[i].key == key; i
  }

  /** The data a tree lists. */
  ghost function ToData(t: Tree): Data {
    match t
    case NullTree => NullData
    case BooleanTree(b) => BooleanData(b)
    case NumberTree(r) => NumberData(r)
    case TextTree(s) => TextData(s)
    case ListTree(items) => ListData(seq(|items|, i requires 0 <= i < |items| => ToData(items[i])))
    case RecordTree(fields) =>
      RecordData(map key | key in FieldKeys(fields) :: ToData(fields[FieldAt(fields, key)].value))
    case AbsentTree => Absent
  }

  lemma {:induction false} BeforeIsStrict(a: Text, b: Text)
    ensures !(Before(a, b) && Before(b, a)) && !Before(a, a)
    ensures a == b || Before(a, b) || Before(b, a)
  {
    if a != [] && b != [] {
      BeforeIsStrict(a[1..], b[1..]);
      assert a == [a[0]] + a[1..] && b == [b[0]] + b[1..];
    }
    if a != [] {
      BeforeIsStrict(a[1..], a[1..]);
    }
  }

  lemma {:induction false} BeforeIsTransitive(a: Text, b: Text, c: Text)
    requires Before(a, b) && Before(b, c)
    ensures Before(a, c)
  {
    if a != [] && a[0] == b[0] && b[0] == c[0] {
      BeforeIsTransitive(a[1..], b[1..], c[1..]);
    }
  }

  lemma KeysDiffer(fields: seq<Field>, i: nat, j: nat)
    requires InOrder(fields) && i < |fields| && j < |fields| && fields[i].key == fields[j].key
    ensures i == j
  {
    BeforeIsStrict(fields[i].key, fields[j].key);
  }

  lemma FirstKeyIsFirst(a: seq<Field>, b: seq<Field>)
    requires InOrder(a) && InOrder(b) && FieldKeys(a) == FieldKeys(b) && a != []
    ensures b != [] && a[0].key == b[0].key
  {
    assert a[0].key in FieldKeys(b);
    var i :| 0 <= i < |b| && b[i].key == a[0].key;
    assert b[0].key in FieldKeys(a);
    var j :| 0 <= j < |a| && a[j].key == b[0].key;
    BeforeIsStrict(a[0].key, b[0].key);
  }

  lemma RestOfKeys(a: seq<Field>)
    requires InOrder(a) && a != []
    ensures InOrder(a[1..]) && FieldKeys(a[1..]) == FieldKeys(a) - {a[0].key}
  {
    forall key
      ensures key in FieldKeys(a[1..]) <==> key in FieldKeys(a) - {a[0].key}
    {
      if key in FieldKeys(a[1..]) {
        var i :| 0 <= i < |a[1..]| && a[1..][i].key == key;
        assert a[i + 1].key == key;
        BeforeIsStrict(a[0].key, key);
      }
      if key in FieldKeys(a) - {a[0].key} {
        var i :| 0 <= i < |a| && a[i].key == key;
        assert a[1..][i - 1].key == key;
      }
    }
  }

  lemma HasFirstKey(a: seq<Field>)
    ensures a != [] ==> a[0].key in FieldKeys(a)
  {
  }

  /** Sorted lists of the same keys are aligned. */
  lemma {:induction false} SameKeysAlign(a: seq<Field>, b: seq<Field>)
    requires InOrder(a) && InOrder(b) && FieldKeys(a) == FieldKeys(b)
    ensures |a| == |b| && forall i | 0 <= i < |a| :: a[i].key == b[i].key
  {
    HasFirstKey(b);
    if a != [] {
      FirstKeyIsFirst(a, b);
      RestOfKeys(a);
      RestOfKeys(b);
      SameKeysAlign(a[1..], b[1..]);
      assert forall i | 0 < i < |a| :: a[i] == a[1..][i - 1] && b[i] == b[1..][i - 1];
    }
  }

  lemma DataOfField(fields: seq<Field>, i: nat)
    requires InOrder(fields) && i < |fields|
    ensures var m := ToData(RecordTree(fields)).fields;
            m.Keys == FieldKeys(fields) && fields[i].key in m && m[fields[i].key] == ToData(fields[i].value)
  {
    assert fields[i].key in FieldKeys(fields);
    KeysDiffer(fields, FieldAt(fields, fields[i].key), i);
  }

  /** Sorted trees with the same data are the same. */
  lemma {:induction false} SortedTreesDiffer(a: Tree, b: Tree)
    requires Sorted(a) && Sorted(b) && ToData(a) == ToData(b)
    ensures a == b
  {
    match a
    case ListTree(items) =>
      assert |items| == |ToData(a).items| == |b.items|;
      forall i | 0 <= i < |items|
        ensures items[i] == b.items[i]
      {
        assert ToData(a).items[i] == ToData(items[i]) && ToData(b).items[i] == ToData(b.items[i]);
        SortedTreesDiffer(items[i], b.items[i]);
      }
    case RecordTree(fields) =>
      assert ToData(a).fields.Keys == FieldKeys(fields) && ToData(b).fields.Keys == FieldKeys(b.fields);
      SameKeysAlign(fields, b.fields);
      forall i | 0 <= i < |fields|
        ensures fields[i] == b.fields[i]
      {
        DataOfField(fields, i);
        DataOfField(b.fields, i);
        SortedTreesDiffer(fields[i].value, b.fields[i].value);
      }
    case _ =>
  }

  // ----- the tree of a value is sorted and lists its data

  ghost predicate EntriesInOrder(entries: seq<Entry>) {
    forall i, j | 0 <= i < j < |entries| :: Before(entries[i].key, entries[j].key)
  }

  lemma {:induction false} InsertKeepsOrder(e: Entry, sorted: seq<Entry>)
    requires EntriesInOrder(sorted) && forall i | 0 <= i < |sorted| :: sorted[i].key != e.key
    ensures EntriesInOrder(Insert(e, sorted))
  {
    var r := Insert(e, sorted);
    if sorted == [] || !Before(sorted[0].key, e.key) {
      forall i | 0 <= i < |sorted|
        ensures Before(e.key, sorted[i].key)
      {
        BeforeIsStrict(e.key, sorted[0].key);
        if i > 0 {
          BeforeIsTransitive(e.key, sorted[0].key, sorted[i].key);
        }
      }
    } else {
      InsertKeepsOrder(e, sorted[1..]);
      var rest := Insert(e, sorted[1..]);
      forall j | 0 <= j < |rest|
        ensures Before(sorted[0].key, rest[j].key)
      {
        assert rest[j] in rest;
        if rest[j] in sorted[1..] {
          var k :| 0 <= k < |sorted[1..]| && sorted[1..][k] == rest[j];
          assert sorted[k + 1] == rest[j];
        }
      }
    }
  }

  lemma {:induction false} SortByKeySorts(entries: seq<Entry>)
    requires DistinctKeys(entries)
    ensures EntriesInOrder(SortByKey(entries))
  {
    if entries != [] {
      SortByKeySorts(entries[1..]);
      var sorted := SortByKey(entries[1..]);
      forall i | 0 <= i < |sorted|
        ensures sorted[i].key != entries[0].key
      {
        assert sorted[i] in entries[1..];
      }
      InsertKeepsOrder(entries[0], sorted);
    }
  }

  ghost predicate ComesFrom(f: Field, entries: seq<Entry>, trees: seq<Tree>)
    requires |trees| == |entries|
  {
    exists i :: 0 <= i < |entries| && Says(entries[i].value) && f == Field(entries[i].key, trees[i])
  }

  /** Each kept field comes from an entry that says something, in the same order, and each such entry is kept. */
  lemma {:induction false} KeptFields(entries: seq<Entry>, trees: seq<Tree>)
    requires |trees| == |entries| && EntriesInOrder(entries)
    ensures InOrder(Kept(entries, trees))
    ensures forall k | 0 <= k < |Kept(entries, trees)| :: ComesFrom(Kept(entries, trees)[k], entries, trees)
    ensures forall i | 0 <= i < |entries| && Says(entries[i].value) ::
              Field(entries[i].key, trees[i]) in Kept(entries, trees)
  {
    if entries != [] {
      KeptFields(entries[1..], trees[1..]);
      var rest := Kept(entries[1..], trees[1..]);
      forall k | 0 <= k < |rest|
        ensures Before(entries[0].key, rest[k].key) && ComesFrom(rest[k], entries, trees)
      {
        assert ComesFrom(rest[k], entries[1..], trees[1..]);
        var i :| 0 <= i < |entries[1..]| && Says(entries[1..][i].value)
            && rest[k] == Field(entries[1..][i].key, trees[1..][i]);
        assert entries[i + 1] == entries[1..][i] && trees[i + 1] == trees[1..][i];
      }
      assert Says(entries[0].value) ==> ComesFrom(Field(entries[0].key, trees[0]), entries, trees);
    }
  }

  lemma PositionOf(entries: seq<Entry>, i: nat)
    requires DistinctKeys(entries) && i < |entries|
    ensures entries[i].key in Keys(entries) && Position(entries, entries[i].key) == i
  {
  }

  function EntryTrees(entries: seq<Entry>): seq<Tree> {
    seq(|entries|, i requires 0 <= i < |entries| => TreeOf(entries[i].value))
  }

  /** The tree of an object has a field for exactly the entries that say something. */
  lemma ObjectFields(entries: seq<Entry>)
    requires DistinctKeys(entries)
    ensures var fields := TreeOf(Object(entries)).fields;
            && InOrder(fields)
            && (forall k | 0 <= k < |fields| ::
                  && fields[k].key in Keys(entries)
                  && var e := entries[Position(entries, fields[k].key)];
                     Says(e.value) && fields[k].value == TreeOf(e.value))
            && forall i | 0 <= i < |entries| && Says(entries[i].value) :: entries[i].key in FieldKeys(fields)
  {
    var sorted := SortByKey(entries);
    var fields := Kept(sorted, EntryTrees(sorted));
    assert TreeOf(Object(entries)).fields == fields by {
      assert EntryTrees(sorted) == seq(|sorted|, i requires 0 <= i < |sorted| =>
        assert sorted[i] in entries; TreeOf(sorted[i].value));
    }
    SortByKeySorts(entries);
    KeptFields(sorted, EntryTrees(sorted));
    forall k | 0 <= k < |fields|
      ensures fields[k].key in Keys(entries)
      ensures var e := entries[Position(entries, fields[k].key)]; Says(e.value) && fields[k].value == TreeOf(e.value)
    {
      assert ComesFrom(fields[k], sorted, EntryTrees(sorted));
      var i :| 0 <= i < |sorted| && Says(sorted[i].value) && fields[k] == Field(sorted[i].key, EntryTrees(sorted)[i]);
      assert sorted[i] in entries;
      var j :| 0 <= j < |entries| && entries[j] == sorted[i];
      PositionOf(entries, j);
    }
    forall i | 0 <= i < |entries| && Says(entries[i].value)
      ensures entries[i].key in FieldKeys(fields)
    {
      assert entries[i] in sorted;
      var j :| 0 <= j < |sorted| && sorted[j] == entries[i];
      var f := Field(sorted[j].key, EntryTrees(sorted)[j]);
      assert f in fields;
      var k :| 0 <= k < |fields| && fields[k] == f;
    }
  }

  /** The tree of a value is sorted and lists the data of the value. */
  lemma {:induction false} TreeListsData(v: Js)
    requires Proper(v) || v == Hole
    ensures Sorted(TreeOf(v)) && ToData(TreeOf(v)) == DataOf(v)
  {
    match v
    case Array(items) =>
      var trees := TreeOf(v).items;
      forall i | 0 <= i < |items|
        ensures Sorted(trees[i]) && ToData(trees[i]) == DataOf(items[i])
      {
        TreeListsData(items[i]);
      }
      assert ToData(TreeOf(v)).items == DataOf(v).items;
    case Object(entries) =>
      forall i | 0 <= i < |entries|
        ensures Sorted(TreeOf(entries[i].value)) && ToData(TreeOf(entries[i].value)) == DataOf(entries[i].value)
      {
        TreeListsData(entries[i].value);
      }
      ObjectFields(entries);
      ObjectData(entries);
    case _ =>
  }

  lemma ObjectData(entries: seq<Entry>)
    requires DistinctKeys(entries)
    requires forall i | 0 <= i < |entries| :: ToData(TreeOf(entries[i].value)) == DataOf(entries[i].value)
    ensures ToData(TreeOf(Object(entries))) == DataOf(Object(entries))
  {
    var a, b := ToData(TreeOf(Object(entries))).fields, DataOf(Object(entries)).fields;
    forall key
      ensures key in a <==> key in b
      ensures key in a && key in b ==> a[key] == b[key]
    {
      ObjectDataAt(entries, key);
    }
    assert a == b;
  }

  lemma ObjectDataAt(entries: seq<Entry>, key: Text)
    requires DistinctKeys(entries)
    requires forall i | 0 <= i < |entries| :: ToData(TreeOf(entries[i].value)) == DataOf(entries[i].value)
    ensures var a, b := ToData(TreeOf(Object(entries))).fields, DataOf(Object(entries)).fields;
            (key in a <==> key in b) && (key in a ==> a[key] == b[key])
  {
    ObjectFields(entries);
    var fields := TreeOf(Object(entries)).fields;
    if key in FieldKeys(fields) {
      var e := entries[Position(entries, fields[FieldAt(fields, key)].key)];
      assert Says(e.value);
    } else if key in Keys(entries) {
      var e := entries[Position(entries, key)];
      assert Says(e.value) ==> e.key in FieldKeys(fields);
    }
  }

  // ----- the canonical form

  /** No array of the value consists of a single hole. */
  predicate WithoutLoneHoles(v: Js) {
    match v
    case Array(items) => items != [Hole] && forall i | 0 <= i < |items| :: WithoutLoneHoles(items[i])
    case Object(entries) => forall i | 0 <= i < |entries| :: WithoutLoneHoles(entries[i].value)
    case _ => true
  }

  lemma SingleHole(items: seq<Js>)
    ensures |items| == 1 && items[0] == Hole ==> items == [Hole]
  {
  }

  lemma {:induction false} TreeHasNoLoneHole(v: Js)
    requires Proper(v) || v == Hole
    requires WithoutLoneHoles(v)
    ensures NoLoneHole(TreeOf(v)) && (TreeOf(v) == AbsentTree <==> v == Hole)
  {
    match v
    case Array(items) =>
      forall i | 0 <= i < |items|
        ensures NoLoneHole(TreeOf(v).items[i]) && (TreeOf(v).items[i] == AbsentTree <==> items[i] == Hole)
      {
        TreeHasNoLoneHole(items[i]);
      }
      SingleHole(items);
    case Object(entries) =>
      ObjectFields(entries);
      forall k | 0 <= k < |TreeOf(v).fields|
        ensures NoLoneHole(TreeOf(v).fields[k].value)
      {
        TreeHasNoLoneHole(entries[Position(entries, TreeOf(v).fields[k].key)].value);
      }
    case _ =>
  }

  /** Normalizing keeps the shape of a value. */
  lemma {:induction false} NormalizeKeepsShape(v: Js)
    requires Normalize(v).Ok? && (Proper(v) || v == Hole)
    ensures var n := Normalize(v).value;
            && (if v == Hole then n == Hole else Proper(n) && n != Hole)
            && (WithoutLoneHoles(v) ==> WithoutLoneHoles(n))
  {
    match v
    case Array(items) =>
      NormalizeItemsIsNormalize(items);
      var r := NormalizeItems(items).value;
      forall i | 0 <= i < |items|
        ensures if items[i] == Hole then r[i] == Hole else Proper(r[i]) && r[i] != Hole
        ensures WithoutLoneHoles(items[i]) ==> WithoutLoneHoles(r[i])
      {
        NormalizeKeepsShape(items[i]);
      }
      SingleHole(items);
    case Object(entries) =>
      NormalizeEntriesIsNormalize(entries);
      forall i | 0 <= i < |entries|
        ensures var n := NormalizeEntries(entries).value[i].value;
                Proper(n) && (WithoutLoneHoles(entries[i].value) ==> WithoutLoneHoles(n))
      {
        NormalizeKeepsShape(entries[i].value);
      }
    case _ =>
  }

  /** A value is canonicalized exactly when it says something and nothing in it is refused. */
  lemma CanonicalizeAccepts(num: real -> Text, v: Js)
    ensures Canonicalize(num, v).Ok? <==> Hashable(v) && Says(v)
  {
    NormalizeAccepts(v);
    if Normalize(v).Ok? {
      NormalizeKeepsData(v);
      SerializeIsPrint(num, Normalize(v).value);
    }
  }

  /** The numbers a value holds, with negative zero as zero. */
  ghost function NumbersIn(v: Js): set<real> {
    match v
    case Numeric(Finite(r)) => {r}
    case Numeric(NegativeZero) => {0.0}
    case Array(items) => set i, r | 0 <= i < |items| && r in NumbersIn(items[i]) :: r
    case Object(entries) => set i, r | 0 <= i < |entries| && r in NumbersIn(entries[i].value) :: r
    case _ => {}
  }

  lemma {:induction false} NormalizeKeepsNumbers(v: Js)
    requires Normalize(v).Ok?
    ensures NumbersIn(Normalize(v).value) == NumbersIn(v)
  {
    match v
    case Array(items) =>
      NormalizeItemsIsNormalize(items);
      forall i | 0 <= i < |items|
        ensures NumbersIn(NormalizeItems(items).value[i]) == NumbersIn(items[i])
      {
        NormalizeKeepsNumbers(items[i]);
      }
    case Object(entries) =>
      NormalizeEntriesIsNormalize(entries);
      forall i | 0 <= i < |entries|
        ensures NumbersIn(NormalizeEntries(entries).value[i].value) == NumbersIn(entries[i].value)
      {
        NormalizeKeepsNumbers(entries[i].value);
      }
    case _ =>
  }

  /** The tree of a value holds no other numbers. */
  lemma {:induction false} TreeHoldsNumbers(v: Js, numbers: set<real>)
    requires (Proper(v) || v == Hole) && Normal(v) && NumbersIn(v) <= numbers
    ensures NumbersWithin(TreeOf(v), numbers)
  {
    match v
    case Array(items) =>
      forall i | 0 <= i < |items|
        ensures NumbersWithin(TreeOf(v).items[i], numbers)
      {
        TreeHoldsNumbers(items[i], numbers);
      }
    case Object(entries) =>
      ObjectFields(entries);
      forall k | 0 <= k < |TreeOf(v).fields|
        ensures NumbersWithin(TreeOf(v).fields[k].value, numbers)
      {
        TreeHoldsNumbers(entries[Position(entries, TreeOf(v).fields[k].key)].value, numbers);
      }
    case _ =>
  }

  lemma CanonicalTree(num: real -> Text, v: Js) returns (t: Tree)
    requires Proper(v) && Canonicalize(num, v).Ok?
    ensures Canonicalize(num, v).value == Print(num, t) && Sorted(t) && ToData(t) == DataOf(v)
    ensures NumbersWithin(t, NumbersIn(v))
    ensures WithoutLoneHoles(v) ==> NoLoneHole(t)
  {
    var n := Normalize(v).value;
    NormalizeKeepsData(v);
    NormalizeKeepsShape(v);
    SerializeIsPrint(num, n);
    TreeListsData(n);
    NormalizeKeepsNumbers(v);
    TreeHoldsNumbers(n, NumbersIn(v));
    t := TreeOf(n);
    if WithoutLoneHoles(v) {
      TreeHasNoLoneHole(n);
    }
  }

  // ----- with lone holes

  /** The data with every array of a single hole read as an empty one. */
  ghost function Collapsed(d: Data): Data {
    match d
    case ListData(items) =>
      if items == [Absent] then ListData([])
      else ListData(seq(|items|, i requires 0 <= i < |items| => Collapsed(items[i])))
    case RecordData(fields) => RecordData(map key | key in fields :: Collapsed(fields[key]))
    case _ => d
  }

  function CollapsedTree(t: Tree): Tree {
    match t
    case ListTree(items) =>
      if LoneHole(items) then ListTree([])
      else ListTree(seq(|items|, i requires 0 <= i < |items| => CollapsedTree(items[i])))
    case RecordTree(fields) =>
      RecordTree(seq(|fields|, i requires 0 <= i < |fields| => Field(fields[i].key, CollapsedTree(fields[i].value))))
    case _ => t
  }

  lemma {:induction false} SamePrintsSameItems(num: real -> Text, a: seq<Tree>, b: seq<Tree>)
    requires |a| == |b| && forall i | 0 <= i < |a| :: Print(num, a[i]) == Print(num, b[i])
    ensures PrintItems(num, a) == PrintItems(num, b)
  {
    if |a| > 1 {
      SamePrintsSameItems(num, a[1..], b[1..]);
    }
  }

  lemma {:induction false} SamePrintsSameFields(num: real -> Text, a: seq<Field>, b: seq<Field>)
    requires |a| == |b|
    requires forall i | 0 <= i < |a| :: a[i].key == b[i].key && Print(num, a[i].value) == Print(num, b[i].value)
    ensures PrintFields(num, a) == PrintFields(num, b)
  {
    if |a| > 1 {
      SamePrintsSameFields(num, a[1..], b[1..]);
    }
  }

  /** Collapsing does not show in the text, and leaves no array of a single hole. */
  lemma {:induction false} CollapsedPrintsTheSame(num: real -> Text, t: Tree)
    ensures var c := CollapsedTree(t);
            && Print(num, c) == Print(num, t) && NoLoneHole(c) && (Sorted(t) ==> Sorted(c))
            && (c == AbsentTree <==> t == AbsentTree)
    decreases t
  {
    match t
    case ListTree(items) =>
      if LoneHole(items) {
        assert PrintItems(num, items) == PrintItems(num, []);
      } else {
        var c := CollapsedTree(t).items;
        forall i | 0 <= i < |items|
          ensures Print(num, c[i]) == Print(num, items[i]) && NoLoneHole(c[i]) && (Sorted(items[i]) ==> Sorted(c[i]))
          ensures c[i] == AbsentTree <==> items[i] == AbsentTree
        {
          CollapsedPrintsTheSame(num, items[i]);
        }
        SingleAbsent(items);
        SamePrintsSameItems(num, c, items);
      }
    case RecordTree(fields) =>
      var c := CollapsedTree(t).fields;
      forall i | 0 <= i < |fields|
        ensures Print(num, c[i].value) == Print(num, fields[i].value) && NoLoneHole(c[i].value)
        ensures Sorted(fields[i].value) ==> Sorted(c[i].value)
      {
        CollapsedPrintsTheSame(num, fields[i].value);
      }
      SamePrintsSameFields(num, c, fields);
    case _ =>
  }

  lemma SingleAbsent(items: seq<Tree>)
    ensures |items| == 1 && items[0] == AbsentTree ==> LoneHole(items)
  {
  }

  lemma SingleAbsentData(items: seq<Data>)
    ensures |items| == 1 && items[0] == Absent ==> items == [Absent]
  {
  }

  lemma {:induction false} CollapsedListsCollapsed(t: Tree)
    requires Sorted(t)
    ensures ToData(CollapsedTree(t)) == Collapsed(ToData(t)) && (ToData(t) == Absent <==> t == AbsentTree)
  {
    match t
    case ListTree(items) =>
      var data := ToData(t).items;
      forall i | 0 <= i < |items|
        ensures ToData(CollapsedTree(items[i])) == Collapsed(data[i]) && (data[i] == Absent <==> items[i] == AbsentTree)
      {
        CollapsedListsCollapsed(items[i]);
      }
      SingleAbsent(items);
      if data == [Absent] {
        assert data[0] == Absent;
      } else {
        SingleAbsentData(data);
        assert ToData(CollapsedTree(t)).items == Collapsed(ToData(t)).items;
      }
    case RecordTree(fields) => CollapsedRecord(fields);
    case _ =>
  }

  lemma CollapsedRecord(fields: seq<Field>)
    requires Sorted(RecordTree(fields))
    ensures ToData(CollapsedTree(RecordTree(fields))) == Collapsed(ToData(RecordTree(fields)))
    decreases RecordTree(fields), 1
  {
    var c := CollapsedTree(RecordTree(fields)).fields;
    var a, b := ToData(RecordTree(c)).fields, Collapsed(ToData(RecordTree(fields))).fields;
    forall key
      ensures key in a <==> key in b
      ensures key in a && key in b ==> a[key] == b[key]
    {
      CollapsedRecordAt(fields, key);
    }
    assert a == b;
  }

  lemma CollapsedRecordAt(fields: seq<Field>, key: Text)
    requires Sorted(RecordTree(fields))
    ensures var c := CollapsedTree(RecordTree(fields)).fields;
            var a, b := ToData(RecordTree(c)).fields, Collapsed(ToData(RecordTree(fields))).fields;
            (key in a <==> key in b) && (key in a ==> a[key] == b[key])
    decreases RecordTree(fields), 0
  {
    var c := CollapsedTree(RecordTree(fields)).fields;
    assert InOrder(c);
    if key in FieldKeys(c) {
      var i := FieldAt(c, key);
      DataOfField(c, i);
      DataOfField(fields, i);
      CollapsedListsCollapsed(fields[i].value);
    } else if key in FieldKeys(fields) {
      DataOfField(c, FieldAt(fields, key));
    }
  }

  lemma {:induction false} MoreNumbers(t: Tree, numbers: set<real>, more: set<real>)
    requires NumbersWithin(t, numbers) && numbers <= more
    ensures NumbersWithin(t, more)
  {
    match t
    case ListTree(items) =>
      forall i | 0 <= i < |items|
        ensures NumbersWithin(items[i], more)
      {
        MoreNumbers(items[i], numbers, more);
      }
    case RecordTree(fields) =>
      forall i | 0 <= i < |fields|
        ensures NumbersWithin(fields[i].value, more)
      {
        MoreNumbers(fields[i].value, numbers, more);
      }
    case _ =>
  }

  lemma {:induction false} CollapsedKeepsNumbers(t: Tree, numbers: set<real>)
    requires NumbersWithin(t, numbers)
    ensures NumbersWithin(CollapsedTree(t), numbers)
  {
    match t
    case ListTree(items) =>
      if !LoneHole(items) {
        forall i | 0 <= i < |items|
          ensures NumbersWithin(CollapsedTree(items[i]), numbers)
        {
          CollapsedKeepsNumbers(items[i], numbers);
        }
      }
    case RecordTree(fields) =>
      forall i | 0 <= i < |fields|
        ensures NumbersWithin(CollapsedTree(fields[i].value), numbers)
      {
        CollapsedKeepsNumbers(fields[i].value, numbers);
      }
    case _ =>
  }

  /** A canonical text prints a sorted tree without lone holes, which lists the collapsed data. */
  lemma CollapsedCanonicalTree(num: real -> Text, v: Js, numbers: set<real>) returns (t: Tree)
    requires Proper(v) && Canonicalize(num, v).Ok? && NumbersIn(v) <= numbers
    ensures Canonicalize(num, v).value == Print(num, t) && Sorted(t) && Clear(t, numbers)
    ensures ToData(t) == Collapsed(DataOf(v))
  {
    var whole := CanonicalTree(num, v);
    CollapsedPrintsTheSame(num, whole);
    CollapsedListsCollapsed(whole);
    MoreNumbers(whole, NumbersIn(v), numbers);
    CollapsedKeepsNumbers(whole, numbers);
    t := CollapsedTree(whole);
  }

  /**
   * The same data gives the same text, whatever the order keys were inserted in and however numbers are
   * printed.
   */
  lemma SameDataSameText(num: real -> Text, v: Js, w: Js)
    requires Proper(v) && Proper(w) && Canonicalize(num, v).Ok? && Canonicalize(num, w).Ok?
    requires Collapsed(DataOf(v)) == Collapsed(DataOf(w))
    ensures Canonicalize(num, v) == Canonicalize(num, w)
  {
    var c := CollapsedCanonicalTree(num, v, NumbersIn(v));
    var d := CollapsedCanonicalTree(num, w, NumbersIn(w));
    SortedTreesDiffer(c, d);
  }

  /** If the printer tells the numbers of the two values apart, the same text means the same data. */
  lemma SameTextSameData(num: real -> Text, v: Js, w: Js)
    requires PrintsNumbers(num, NumbersIn(v) + NumbersIn(w)) && Proper(v) && Proper(w)
    requires Canonicalize(num, v).Ok? && Canonicalize(num, v) == Canonicalize(num, w)
    ensures Collapsed(DataOf(v)) == Collapsed(DataOf(w))
  {
    var numbers := NumbersIn(v) + NumbersIn(w);
    var c := CollapsedCanonicalTree(num, v, numbers);
    var d := CollapsedCanonicalTree(num, w, numbers);
    EmitIsPrint(num, c, []);
    EmitIsPrint(num, d, []);
    TreesDiffer(num, numbers, c, d, [], []);
  }

  /** For all values: the canonical text is the same exactly when the data is, apart from arrays of a single hole. */
  lemma CanonicalTextIsCollapsedData(num: real -> Text, v: Js, w: Js)
    requires PrintsNumbers(num, NumbersIn(v) + NumbersIn(w)) && Proper(v) && Proper(w)
    requires Canonicalize(num, v).Ok? && Canonicalize(num, w).Ok?
    ensures Canonicalize(num, v) == Canonicalize(num, w) <==> Collapsed(DataOf(v)) == Collapsed(DataOf(w))
  {
    if Collapsed(DataOf(v)) == Collapsed(DataOf(w)) {
      SameDataSameText(num, v, w);
    } else if Canonicalize(num, v) == Canonicalize(num, w) {
      SameTextSameData(num, v, w);
    }
  }

  lemma WholeDataIsCollapsed(num: real -> Text, v: Js)
    requires Proper(v) && WithoutLoneHoles(v) && Canonicalize(num, v).Ok?
    ensures Collapsed(DataOf(v)) == DataOf(v)
  {
    var t := CanonicalTree(num, v);
    CollapsedListsCollapsed(t);
    NothingToCollapse(t);
  }

  lemma {:induction false} NothingToCollapse(t: Tree)
    requires NoLoneHole(t)
    ensures CollapsedTree(t) == t
  {
    match t
    case ListTree(items) =>
      forall i | 0 <= i < |items|
        ensures CollapsedTree(items[i]) == items[i]
      {
        NothingToCollapse(items[i]);
      }
      assert CollapsedTree(t).items == items;
    case RecordTree(fields) =>
      forall i | 0 <= i < |fields|
        ensures CollapsedTree(fields[i].value) == fields[i].value
      {
        NothingToCollapse(fields[i].value);
      }
      assert CollapsedTree(t).fields == fields;
    case _ =>
  }

  /**
   * Two values without arrays of a single hole have the same canonical text exactly when they hold the same
   * JSON data, whatever the order their keys were inserted in.
   */
  lemma CanonicalTextIsData(num: real -> Text, v: Js, w: Js)
    requires PrintsNumbers(num, NumbersIn(v) + NumbersIn(w))
    requires Proper(v) && Proper(w) && WithoutLoneHoles(v) && WithoutLoneHoles(w)
    requires Canonicalize(num, v).Ok? && Canonicalize(num, w).Ok?
    ensures Canonicalize(num, v) == Canonicalize(num, w) <==> DataOf(v) == DataOf(w)
  {
    WholeDataIsCollapsed(num, v);
    WholeDataIsCollapsed(num, w);
    CanonicalTextIsCollapsedData(num, v, w);
  }

  /** An array of a single hole prints like an empty one, although it does not hold the same data. */
  lemma LoneHoleCollides(num: real -> Text)
    ensures var sparse, empty := Array([Hole]), Array([]);
            && Proper(sparse) && Proper(empty) && DataOf(sparse) != DataOf(empty)
            && Canonicalize(num, sparse).Ok? && Canonicalize(num, sparse) == Canonicalize(num, empty)
  {
    var sparse, empty := Array([Hole]), Array([]);
    var none: seq<Js> := [];
    assert [Hole][1..] == none && [Hole] + none == [Hole] && NormalizeItems(none) == Ok(none);
    assert NormalizeItems([Hole]) == Ok([Hole] + none);
    SerializeIsPrint(num, sparse);
    SerializeIsPrint(num, empty);
    assert TreeOf(sparse).items == [AbsentTree] && TreeOf(empty).items == [];
    assert |DataOf(sparse).items| == 1 && |DataOf(empty).items| == 0;
  }
}
