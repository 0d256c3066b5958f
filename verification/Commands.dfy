/** Small datatypes shared by every component model. */
module Wrappers {
  datatype Option<+T> = None | Some(value: T)

  datatype Result<+T, +E> = Ok(value: T) | Err(error: E)
}

/**
 * Commands, priorities and JSON payloads (packages/core/src/command.ts and the
 * `cloneJsonValue` walk of packages/core/src/command-queue.ts).
 */
module Commands {
  import opened Wrappers
  import Texts

  datatype Priority = System | Player | Automation {
    function Rank(): nat {
      match this
      case System => 0
      case Player => 1
      case Automation => 2
    }
  }

  const PRIORITY_ORDER: seq<Priority> := [System, Player, Automation]

  /** `CommandPriority` as it is stored in a save: only 0, 1 and 2 are members. */
  function PriorityOfCode(code: int): Option<Priority> {
    if 0 <= code < 3 then Some(PRIORITY_ORDER[code]) else None
  }

  /**
   * A payload, as the snapshot of an enqueue leaves it. `NonFinite` and `Unsupported` are what a JSON save
   * cannot hold. `Foreign` is an object whose prototype is another object: the copy below can make one.
   */
  datatype Payload =
    | Null
    | Boolean(b: bool)
    | Number(r: real)
    | NonFinite
    | Text(s: Texts.Text)
    | List(items: seq<Payload>)
    | Record(fields: seq<Field>)
    | Foreign(fields: seq<Field>)
    | Unsupported

  datatype Field = Field(name: Texts.Text, value: Payload)

  /** The member name that an assignment to an object takes for its prototype. */
  function Proto(): Texts.Text {
    Texts.Ascii("__proto__")
  }

  predicate IsObject(p: Payload) {
    p.List? || p.Record? || p.Foreign?
  }

  /** What the copy accepts. */
  predicate IsJson(p: Payload)
    decreases p, 0
  {
    match p
    case List(items) => forall i | 0 <= i < |items| :: IsJson(items[i])
    case Record(fields) => forall i | 0 <= i < |fields| :: IsJson(fields[i].value)
    case _ => !p.NonFinite? && !p.Unsupported? && !p.Foreign?
  }

  /** No record has a member of the prototype's name. */
  predicate WithoutProto(p: Payload)
    decreases p, 0
  {
    match p
    case List(items) => forall i | 0 <= i < |items| :: WithoutProto(items[i])
    case Record(fields) => forall i | 0 <= i < |fields| :: fields[i].name != Proto() && WithoutProto(fields[i].value)
    case _ => true
  }

  /** No record has an object as its member of the prototype's name. */
  predicate WithoutObjectProto(p: Payload)
    decreases p, 0
  {
    match p
    case List(items) => forall i | 0 <= i < |items| :: WithoutObjectProto(items[i])
    case Record(fields) =>
      forall i | 0 <= i < |fields| ::
        (fields[i].name == Proto() ==> !IsObject(fields[i].value)) && WithoutObjectProto(fields[i].value)
    case _ => true
  }

  lemma {:induction false} WithoutProtoIsWithoutObjectProto(p: Payload)
    requires WithoutProto(p)
    ensures WithoutObjectProto(p)
  {
    match p
    case List(items) =>
      forall i | 0 <= i < |items|
        ensures WithoutObjectProto(items[i])
      {
        WithoutProtoIsWithoutObjectProto(items[i]);
      }
    case Record(fields) =>
      forall i | 0 <= i < |fields|
        ensures WithoutObjectProto(fields[i].value)
      {
        WithoutProtoIsWithoutObjectProto(fields[i].value);
      }
    case _ =>
  }

  /** The members that are not named like the prototype. */
  function Own(fields: seq<Field>): seq<Field> {
    if fields == [] then []
    else (if fields[0].name == Proto() then [] else [fields[0]]) + Own(fields[1..])
  }

  /**
   * Members assigned one by one to a fresh object: the one named like the prototype is no member then; an
   * object becomes the prototype, null leaves the object without one, and anything else is ignored.
   */
  function Assigned(fields: seq<Field>): Payload {
    if exists i :: 0 <= i < |fields| && fields[i].name == Proto() && IsObject(fields[i].value) then Foreign(Own(fields))
    else Record(Own(fields))
  }

  /** The recursive copy; `None` stands for the exception on a non-JSON part. */
  function CloneJson(p: Payload): Option<Payload>
    decreases p, 0
  {
    match p
    case NonFinite => None
    case Unsupported => None
    case Foreign(_) => None
    case List(items) =>
      (match CloneItems(items)
       case None => None
       case Some(copy) => Some(List(copy)))
    case Record(fields) =>
      (match CloneFields(fields)
       case None => None
       case Some(copy) => Some(Assigned(copy)))
    case _ => Some(p)
  }

  function CloneItems(items: seq<Payload>): Option<seq<Payload>>
    decreases items, 1
  {
    if items == [] then Some([])
    else
      match CloneJson(items[0])
      case None => None
      case Some(head) =>
        match CloneItems(items[1..])
        case None => None
        case Some(rest) => Some([head] + rest)
  }

  function CloneFields(fields: seq<Field>): Option<seq<Field>>
    decreases fields, 1
  {
    if fields == [] then Some([])
    else
      match CloneJson(fields[0].value)
      case None => None
      case Some(head) =>
        match CloneFields(fields[1..])
        case None => None
        case Some(rest) => Some([Field(fields[0].name, head)] + rest)
  }

  lemma {:induction false} CloneItemsIsClone(items: seq<Payload>)
    ensures match CloneItems(items) {
              case Some(copy) => |copy| == |items|
                  && forall i | 0 <= i < |items| :: CloneJson(items[i]) == Some(copy[i])
              case None => exists i :: 0 <= i < |items| && CloneJson(items[i]).None?
            }
  {
    if items != [] {
      CloneItemsIsClone(items[1..]);
      if CloneJson(items[0]).Some? && CloneItems(items[1..]).None? {
        var i :| 0 <= i < |items[1..]| && CloneJson(items[1..][i]).None?;
        assert CloneJson(items[i + 1]).None?;
      }
    }
  }

  lemma {:induction false} CloneFieldsIsClone(fields: seq<Field>)
    ensures match CloneFields(fields) {
              case Some(copy) =>
                && |copy| == |fields|
                && forall i | 0 <= i < |fields| ::
                     copy[i].name == fields[i].name && CloneJson(fields[i].value) == Some(copy[i].value)
              case None => exists i :: 0 <= i < |fields| && CloneJson(fields[i].value).None?
            }
  {
    if fields != [] {
      CloneFieldsIsClone(fields[1..]);
      if CloneJson(fields[0].value).Some? && CloneFields(fields[1..]).None? {
        var i :| 0 <= i < |fields[1..]| && CloneJson(fields[1..][i].value).None?;
        assert CloneJson(fields[i + 1].value).None?;
      }
    }
  }

  lemma {:induction false} OwnIsLess(fields: seq<Field>)
    ensures |Own(fields)| <= |fields|
    ensures forall i | 0 <= i < |Own(fields)| :: Own(fields)[i].name != Proto() && Own(fields)[i] in fields
  {
    if fields != [] {
      OwnIsLess(fields[1..]);
    }
  }

  lemma {:induction false} OwnIsAll(fields: seq<Field>)
    requires forall i | 0 <= i < |fields| :: fields[i].name != Proto()
    ensures Own(fields) == fields
  {
    if fields != [] {
      OwnIsAll(fields[1..]);
      assert fields == [fields[0]] + fields[1..];
    }
  }

  /** The copy succeeds exactly on JSON payloads. */
  lemma {:induction false} CloneAcceptsJson(p: Payload)
    ensures CloneJson(p).Some? <==> IsJson(p)
    ensures CloneJson(p).Some? ==> IsObject(CloneJson(p).value) == IsObject(p)
  {
    match p
    case List(items) =>
      CloneItemsIsClone(items);
      forall i | 0 <= i < |items|
        ensures CloneJson(items[i]).Some? <==> IsJson(items[i])
      {
        CloneAcceptsJson(items[i]);
      }
    case Record(fields) =>
      CloneFieldsIsClone(fields);
      forall i | 0 <= i < |fields|
        ensures CloneJson(fields[i].value).Some? <==> IsJson(fields[i].value)
      {
        CloneAcceptsJson(fields[i].value);
      }
    case _ =>
  }

  /** It is the payload again exactly when no record has a member named like the prototype. */
  lemma {:induction false} CloneIsSameIff(p: Payload)
    requires CloneJson(p).Some?
    ensures CloneJson(p).value == p <==> WithoutProto(p)
  {
    match p
    case List(items) =>
      CloneItemsIsClone(items);
      var copy := CloneItems(items).value;
      forall i | 0 <= i < |items|
        ensures copy[i] == items[i] <==> WithoutProto(items[i])
      {
        CloneIsSameIff(items[i]);
      }
      assert copy == items <==> forall i | 0 <= i < |items| :: copy[i] == items[i];
    case Record(fields) =>
      CloneFieldsIsClone(fields);
      var copy := CloneFields(fields).value;
      forall i | 0 <= i < |fields|
        ensures copy[i].value == fields[i].value <==> WithoutProto(fields[i].value)
      {
        CloneIsSameIff(fields[i].value);
      }
      RecordIsSameIff(fields, copy);
    case _ =>
  }

  lemma RecordIsSameIff(fields: seq<Field>, copy: seq<Field>)
    requires |copy| == |fields| && forall i | 0 <= i < |fields| :: copy[i].name == fields[i].name
    ensures Assigned(copy) == Record(fields)
       <==> forall i | 0 <= i < |fields| :: fields[i].name != Proto() && copy[i].value == fields[i].value
  {
    OwnIsLess(copy);
    if forall i | 0 <= i < |fields| :: fields[i].name != Proto() {
      OwnIsAll(copy);
      assert copy == fields <==> forall i | 0 <= i < |fields| :: copy[i].value == fields[i].value;
    }
  }

  /** A copy can be copied again exactly when no record has an object for its prototype, and stays the same then. */
  lemma {:induction false} CloneTwiceIff(p: Payload)
    requires CloneJson(p).Some?
    ensures CloneJson(CloneJson(p).value).Some? <==> WithoutObjectProto(p)
    ensures WithoutObjectProto(p) ==> WithoutProto(CloneJson(p).value) && CloneJson(CloneJson(p).value) == CloneJson(p)
  {
    CloneOnceIff(p);
    var copy := CloneJson(p).value;
    CloneAcceptsJson(copy);
    if IsJson(copy) {
      CloneIsSameIff(copy);
    }
  }

  lemma {:induction false} CloneOnceIff(p: Payload)
    requires CloneJson(p).Some?
    ensures IsJson(CloneJson(p).value) <==> WithoutObjectProto(p)
    ensures WithoutObjectProto(p) ==> WithoutProto(CloneJson(p).value)
  {
    match p
    case List(items) =>
      CloneItemsIsClone(items);
      forall i | 0 <= i < |items|
        ensures IsJson(CloneItems(items).value[i]) <==> WithoutObjectProto(items[i])
        ensures WithoutObjectProto(items[i]) ==> WithoutProto(CloneItems(items).value[i])
      {
        CloneOnceIff(items[i]);
      }
    case Record(fields) =>
      CloneFieldsIsClone(fields);
      var copy := CloneFields(fields).value;
      forall i | 0 <= i < |fields|
        ensures IsJson(copy[i].value) <==> WithoutObjectProto(fields[i].value)
        ensures WithoutObjectProto(fields[i].value) ==> WithoutProto(copy[i].value)
        ensures IsObject(copy[i].value) == IsObject(fields[i].value)
      {
        CloneOnceIff(fields[i].value);
        CloneAcceptsJson(fields[i].value);
      }
      AssignedOnceIff(fields, copy);
    case _ =>
  }

  lemma AssignedOnceIff(fields: seq<Field>, copy: seq<Field>)
    requires |copy| == |fields|
    requires forall i | 0 <= i < |fields| ::
               && copy[i].name == fields[i].name && IsObject(copy[i].value) == IsObject(fields[i].value)
               && (IsJson(copy[i].value) <==> WithoutObjectProto(fields[i].value))
               && (WithoutObjectProto(fields[i].value) ==> WithoutProto(copy[i].value))
    requires forall i | 0 <= i < |copy| && !IsObject(copy[i].value) :: IsJson(copy[i].value)
    ensures IsJson(Assigned(copy)) <==> WithoutObjectProto(Record(fields))
    ensures WithoutObjectProto(Record(fields)) ==> WithoutProto(Assigned(copy))
  {
    OwnIsLess(copy);
    if forall i | 0 <= i < |fields| && fields[i].name == Proto() :: !IsObject(fields[i].value) {
      assert Assigned(copy) == Record(Own(copy));
      if WithoutObjectProto(Record(fields)) {
        OwnHoldAll(copy);
      } else {
        var i :| 0 <= i < |fields| && !WithoutObjectProto(fields[i].value);
        OwnHolds(copy, i);
      }
    }
  }

  lemma OwnHoldAll(fields: seq<Field>)
    requires forall i | 0 <= i < |fields| :: IsJson(fields[i].value) && WithoutProto(fields[i].value)
    ensures forall k | 0 <= k < |Own(fields)| :: IsJson(Own(fields)[k].value) && WithoutProto(Own(fields)[k].value)
  {
    OwnIsLess(fields);
    var own := Own(fields);
    forall k | 0 <= k < |own|
      ensures IsJson(own[k].value) && WithoutProto(own[k].value)
    {
      assert own[k] in fields;
    }
  }

  lemma {:induction false} OwnHolds(fields: seq<Field>, i: nat)
    requires i < |fields| && fields[i].name != Proto()
    ensures fields[i] in Own(fields)
  {
    if i > 0 {
      OwnHolds(fields[1..], i - 1);
    }
  }

  /** The smallest example: the copy of `{"__proto__": {}}` is an object that cannot be copied again. */
  lemma ProtoIsLost()
    ensures var p := Record([Field(Proto(), Record([]))]);
            IsJson(p) && CloneJson(p) == Some(Foreign([])) && CloneJson(Foreign([])).None?
  {
    var field, none: seq<Field> := Field(Proto(), Record([])), [];
    assert CloneFields(none) == Some(none) && Assigned(none) == Record(none);
    assert CloneJson(field.value) == Some(field.value);
    assert [field][1..] == none && [field][0] == field && [field] + none == [field];
    assert CloneFields([field]) == Some([field]) && Own([field]) == none;
  }

  /** A command; `timestamp` is exact and `step` may be any integer a caller supplies. */
  datatype Command = Command(
    ctype: Texts.Text,
    priority: Priority,
    timestamp: real,
    step: int,
    payload: Payload,
    requestId: Option<Texts.Text>)

  predicate IsWhitespace(u: Texts.CodeUnit) {
    || 0x09 <= u <= 0x0D
    || u in [0x20, 0xA0, 0x1680, 0x2028, 0x2029, 0x202F, 0x205F, 0x3000, 0xFEFF]
    || 0x2000 <= u <= 0x200A
  }

  /** `text.trim().length === 0` */
  predicate IsBlank(text: Texts.Text) {
    forall i | 0 <= i < |text| :: IsWhitespace(text[i])
  }
}
