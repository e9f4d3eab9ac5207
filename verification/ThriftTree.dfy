/** Thrift messages as trees, their encoding, and the recursive-descent parser that is the
    reference for the stack automaton of thrift_codec.cc. */
module ThriftTree {
  import opened Bytes
  import opened ThriftProtocol

  datatype Tree =
    | Leaf(scalar: Scalar)
    | StructNode(name: Octets, fields: Fields)
    | ListNode(elem: FieldType, items: Items)
    | SetNode(elem: FieldType, items: Items)
    | MapNode(key: FieldType, value: FieldType, entries: Entries)

  datatype Fields = NoFields | Field(name: Octets, id: int16, tree: Tree, rest: Fields)
  datatype Items = NoItems | Item(tree: Tree, rest: Items)
  datatype Entries = NoEntries | Entry(key: Tree, value: Tree, rest: Entries)

  datatype Message = Message(header: MessageHeader, body: Tree)

  function TypeOf(t: Tree): FieldType {
    match t
    case Leaf(v) => Basic(KindOf(v))
    case StructNode(_, _) => Struct
    case ListNode(_, _) => List
    case SetNode(_, _) => Set
    case MapNode(_, _, _) => Map
  }

  function ItemCount(items: Items): nat {
    match items
    case NoItems => 0
    case Item(_, rest) => 1 + ItemCount(rest)
  }

  function EntryCount(entries: Entries): nat {
    match entries
    case NoEntries => 0
    case Entry(_, _, rest) => 1 + EntryCount(rest)
  }

  // Encoding.

  function Encode(p: Protocol, t: Tree): Octets
  {
    match t
    case Leaf(v) => p.write(Atom(v))
    case StructNode(name, fields) =>
      p.write(OpenStruct(name)) + EncodeFields(p, fields) + p.write(STOP_FIELD) + p.write(CloseStruct)
    case ListNode(elem, items) =>
      p.write(OpenList(elem, ItemCount(items))) + EncodeItems(p, items) + p.write(CloseList)
    case SetNode(elem, items) =>
      p.write(OpenSet(elem, ItemCount(items))) + EncodeItems(p, items) + p.write(CloseSet)
    case MapNode(key, value, entries) =>
      p.write(OpenMap(key, value, EntryCount(entries))) + EncodeEntries(p, entries) + p.write(CloseMap)
  }

  function EncodeFields(p: Protocol, fields: Fields): Octets
  {
    match fields
    case NoFields => []
    case Field(name, id, t, rest) =>
      p.write(OpenField(name, TypeOf(t), id)) + Encode(p, t) + p.write(CloseField) + EncodeFields(p, rest)
  }

  function EncodeItems(p: Protocol, items: Items): Octets
  {
    match items
    case NoItems => []
    case Item(t, rest) => Encode(p, t) + EncodeItems(p, rest)
  }

  function EncodeEntries(p: Protocol, entries: Entries): Octets
  {
    match entries
    case NoEntries => []
    case Entry(k, v, rest) => Encode(p, k) + Encode(p, v) + EncodeEntries(p, rest)
  }

  function EncodeMessage(p: Protocol, m: Message): Octets
  {
    p.write(OpenMessage(m.header)) + Encode(p, m.body) + p.write(CloseMessage)
  }

  /** Trees a protocol can put on the wire: element types agree with the announced ones and
      every token is one the wire format carries. */
  predicate Sendable(p: Protocol, t: Tree)
    decreases t
  {
    match t
    case Leaf(v) => p.carries(Atom(v))
    case StructNode(name, fields) =>
      p.carries(OpenStruct(name)) && p.carries(CloseStruct) && SendableFields(p, fields)
    case ListNode(elem, items) =>
      p.carries(OpenList(elem, ItemCount(items))) && p.carries(CloseList) && SendableItems(p, elem, items)
    case SetNode(elem, items) =>
      p.carries(OpenSet(elem, ItemCount(items))) && p.carries(CloseSet) && SendableItems(p, elem, items)
    case MapNode(key, value, entries) =>
      && p.carries(OpenMap(key, value, EntryCount(entries))) && p.carries(CloseMap)
      && SendableEntries(p, key, value, entries)
  }

  predicate SendableFields(p: Protocol, fields: Fields)
    decreases fields, 0
  {
    fields.Field? ==>
      && p.carries(OpenField(fields.name, TypeOf(fields.tree), fields.id)) && p.carries(CloseField)
      && Sendable(p, fields.tree) && SendableFields(p, fields.rest)
  }

  predicate SendableItems(p: Protocol, elem: FieldType, items: Items)
    decreases items, 0
  {
    items.Item? ==> TypeOf(items.tree) == elem && Sendable(p, items.tree) && SendableItems(p, elem, items.rest)
  }

  predicate SendableEntries(p: Protocol, key: FieldType, value: FieldType, entries: Entries)
    decreases entries, 0
  {
    entries.Entry? ==>
      && TypeOf(entries.key) == key && Sendable(p, entries.key)
      && TypeOf(entries.value) == value && Sendable(p, entries.value)
      && SendableEntries(p, key, value, entries.rest)
  }

  predicate SendableMessage(p: Protocol, m: Message) {
    && p.carries(OpenMessage(m.header)) && p.carries(CloseMessage)
    && m.body.StructNode? && Sendable(p, m.body)
  }

  // Parsing.

  /** `Short`: the input ends too early. `Wrong`: the input cannot be completed to a message. */
  datatype Parsed<+T> = Ok(value: T, rest: Octets) | Short | Wrong {
    predicate IsFailure() {
      !Ok?
    }

    function PropagateFailure<U>(): Parsed<U>
      requires IsFailure()
    {
      if Short? then Parsed<U>.Short else Parsed<U>.Wrong
    }

    function Extract(): (T, Octets)
      requires !IsFailure()
    {
      (value, rest)
    }
  }

  function ReadToken(p: Protocol, slot: Slot, b: Octets): (r: Parsed<Token>)
    requires Lawful(p)
    ensures r.Ok? ==> SlotOf(r.value) == slot && p.carries(r.value) && |r.rest| <= |b|
    ensures r.Ok? && Solid(slot) ==> |r.rest| < |b|
  {
    match p.read(slot, b)
    case More => Short
    case Bad => Wrong
    case Got(tok, used) => Ok(tok, b[used..])
  }

  function ParseTree(p: Protocol, t: FieldType, b: Octets): (r: Parsed<Tree>)
    requires Lawful(p)
    ensures r.Ok? ==> |r.rest| < |b| && TypeOf(r.value) == t
    decreases |b|, 2, 0
  {
    if t == Struct then ParseStruct(p, b)
    else if t == List then ParseList(p, b)
    else if t == Set then ParseSet(p, b)
    else if t == Map then ParseMap(p, b)
    else if t.Basic? then ParseLeaf(p, t.kind, b)
    else Wrong
  }

  function ParseLeaf(p: Protocol, kind: BasicKind, b: Octets): (r: Parsed<Tree>)
    requires Lawful(p)
    ensures r.Ok? ==> |r.rest| < |b| && TypeOf(r.value) == Basic(kind)
  {
    var (atom, b0) :- ReadToken(p, ScalarSlot(kind), b);
    Ok(Leaf(atom.scalar), b0)
  }

  function ParseStruct(p: Protocol, b: Octets): (r: Parsed<Tree>)
    requires Lawful(p)
    ensures r.Ok? ==> |r.rest| < |b| && r.value.StructNode?
    decreases |b|, 1, 0
  {
    var (head, b0) :- ReadToken(p, StructHead, b);
    var (fields, b1) :- ParseFields(p, b0);
    var (tail, b2) :- ReadToken(p, StructTail, b1);
    Ok(StructNode(head.name, fields), b2)
  }

  function ParseList(p: Protocol, b: Octets): (r: Parsed<Tree>)
    requires Lawful(p)
    ensures r.Ok? ==> |r.rest| < |b| && r.value.ListNode?
    decreases |b|, 1, 0
  {
    var (head, b0) :- ReadToken(p, ListHead, b);
    var (items, b1) :- ParseItems(p, head.elem, head.size, b0);
    var (tail, b2) :- ReadToken(p, ListTail, b1);
    Ok(ListNode(head.elem, items), b2)
  }

  function ParseSet(p: Protocol, b: Octets): (r: Parsed<Tree>)
    requires Lawful(p)
    ensures r.Ok? ==> |r.rest| < |b| && r.value.SetNode?
    decreases |b|, 1, 0
  {
    var (head, b0) :- ReadToken(p, SetHead, b);
    var (items, b1) :- ParseItems(p, head.elem, head.size, b0);
    var (tail, b2) :- ReadToken(p, SetTail, b1);
    Ok(SetNode(head.elem, items), b2)
  }

  function ParseMap(p: Protocol, b: Octets): (r: Parsed<Tree>)
    requires Lawful(p)
    ensures r.Ok? ==> |r.rest| < |b| && r.value.MapNode?
    decreases |b|, 1, 0
  {
    var (head, b0) :- ReadToken(p, MapHead, b);
    var (entries, b1) :- ParseEntries(p, head.key, head.value, head.size, b0);
    var (tail, b2) :- ReadToken(p, MapTail, b1);
    Ok(MapNode(head.key, head.value, entries), b2)
  }

  function ParseFields(p: Protocol, b: Octets): (r: Parsed<Fields>)
    requires Lawful(p)
    ensures r.Ok? ==> |r.rest| < |b|
    decreases |b|, 0, 0
  {
    var (head, b0) :- ReadToken(p, FieldHead, b);
    if head.fieldType == Stop then Ok(NoFields, b0)
    else
      var (t, b1) :- ParseTree(p, head.fieldType, b0);
      var (tail, b2) :- ReadToken(p, FieldTail, b1);
      var (rest, b3) :- ParseFields(p, b2);
      Ok(Field(head.fieldName, head.id, t, rest), b3)
  }

  function ParseItems(p: Protocol, elem: FieldType, n: nat, b: Octets): (r: Parsed<Items>)
    requires Lawful(p)
    ensures r.Ok? ==> |r.rest| <= |b| && ItemCount(r.value) == n
    decreases |b|, 3, n
  {
    if n == 0 then Ok(NoItems, b)
    else
      var (t, b0) :- ParseTree(p, elem, b);
      var (rest, b1) :- ParseItems(p, elem, n - 1, b0);
      Ok(Item(t, rest), b1)
  }

  function ParseEntries(p: Protocol, key: FieldType, value: FieldType, n: nat, b: Octets): (r: Parsed<Entries>)
    requires Lawful(p)
    ensures r.Ok? ==> |r.rest| <= |b| && EntryCount(r.value) == n
    decreases |b|, 3, n
  {
    if n == 0 then Ok(NoEntries, b)
    else
      var (k, b0) :- ParseTree(p, key, b);
      var (v, b1) :- ParseTree(p, value, b0);
      var (rest, b2) :- ParseEntries(p, key, value, n - 1, b1);
      Ok(Entry(k, v, rest), b2)
  }

  function ParseMessage(p: Protocol, b: Octets): (r: Parsed<Message>)
    requires Lawful(p)
    ensures r.Ok? ==> |r.rest| < |b|
  {
    var (head, b0) :- ReadToken(p, MessageHead, b);
    var (body, b1) :- ParseTree(p, Struct, b0);
    var (tail, b2) :- ReadToken(p, MessageTail, b1);
    Ok(Message(head.header, body), b2)
  }

  // The parser undoes the encoder.

  lemma ReadWritten(p: Protocol, tok: Token, b: Octets, s: Octets)
    requires Lawful(p) && p.carries(tok) && b == p.write(tok) + s
    ensures ReadToken(p, SlotOf(tok), b) == Ok(tok, s)
  {
    assert p.read(SlotOf(tok), p.write(tok) + s) == Got(tok, |p.write(tok)|);
    assert b[|p.write(tok)|..] == s;
  }

  lemma {:induction false} ParseEncoded(p: Protocol, t: Tree, s: Octets)
    requires Lawful(p) && Sendable(p, t)
    ensures ParseTree(p, TypeOf(t), Encode(p, t) + s) == Ok(t, s)
    decreases t
  {
    match t
    case Leaf(v) => ReadWritten(p, Atom(v), Encode(p, t) + s, s);
    case StructNode(name, fields) => ParseEncodedStruct(p, name, fields, s);
    case ListNode(elem, items) => ParseEncodedList(p, elem, items, s);
    case SetNode(elem, items) => ParseEncodedSet(p, elem, items, s);
    case MapNode(key, value, entries) => ParseEncodedMap(p, key, value, entries, s);
  }

  lemma {:induction false} ParseEncodedStruct(p: Protocol, name: Octets, fields: Fields, s: Octets)
    requires Lawful(p) && Sendable(p, StructNode(name, fields))
    ensures ParseStruct(p, Encode(p, StructNode(name, fields)) + s) == Ok(StructNode(name, fields), s)
    decreases fields, 1
  {
    var b := Encode(p, StructNode(name, fields)) + s;
    var b1 := p.write(CloseStruct) + s;
    var b0 := EncodeFields(p, fields) + (p.write(STOP_FIELD) + b1);
    Regroup4(p.write(OpenStruct(name)), EncodeFields(p, fields), p.write(STOP_FIELD), p.write(CloseStruct), s);
    ReadWritten(p, OpenStruct(name), b, b0);
    ParseEncodedFields(p, fields, b1);
    ReadWritten(p, CloseStruct, b1, s);
  }

  lemma {:induction false} ParseEncodedList(p: Protocol, elem: FieldType, items: Items, s: Octets)
    requires Lawful(p) && Sendable(p, ListNode(elem, items))
    ensures ParseList(p, Encode(p, ListNode(elem, items)) + s) == Ok(ListNode(elem, items), s)
    decreases items, 1
  {
    var b1 := p.write(CloseList) + s;
    ParseEncodedItems(p, elem, items, b1);
    ListAround(p, elem, items, s);
    Regroup3(p.write(OpenList(elem, ItemCount(items))), EncodeItems(p, items), p.write(CloseList), s);
  }

  /** Head and tail around what parses in between. */
  lemma ListAround(p: Protocol, elem: FieldType, items: Items, s: Octets)
    requires Lawful(p) && p.carries(OpenList(elem, ItemCount(items))) && p.carries(CloseList)
    requires
      var b1 := p.write(CloseList) + s;
      ParseItems(p, elem, ItemCount(items), EncodeItems(p, items) + b1) == Ok(items, b1)
    ensures
      var b0 := EncodeItems(p, items) + (p.write(CloseList) + s);
      ParseList(p, p.write(OpenList(elem, ItemCount(items))) + b0) == Ok(ListNode(elem, items), s)
  {
    var b1 := p.write(CloseList) + s;
    var b0 := EncodeItems(p, items) + b1;
    ReadWritten(p, OpenList(elem, ItemCount(items)), p.write(OpenList(elem, ItemCount(items))) + b0, b0);
    ReadWritten(p, CloseList, b1, s);
  }

  lemma {:induction false} ParseEncodedSet(p: Protocol, elem: FieldType, items: Items, s: Octets)
    requires Lawful(p) && Sendable(p, SetNode(elem, items))
    ensures ParseSet(p, Encode(p, SetNode(elem, items)) + s) == Ok(SetNode(elem, items), s)
    decreases items, 1
  {
    var b1 := p.write(CloseSet) + s;
    ParseEncodedItems(p, elem, items, b1);
    SetAround(p, elem, items, s);
    Regroup3(p.write(OpenSet(elem, ItemCount(items))), EncodeItems(p, items), p.write(CloseSet), s);
  }

  /** Head and tail around what parses in between. */
  lemma SetAround(p: Protocol, elem: FieldType, items: Items, s: Octets)
    requires Lawful(p) && p.carries(OpenSet(elem, ItemCount(items))) && p.carries(CloseSet)
    requires
      var b1 := p.write(CloseSet) + s;
      ParseItems(p, elem, ItemCount(items), EncodeItems(p, items) + b1) == Ok(items, b1)
    ensures
      var b0 := EncodeItems(p, items) + (p.write(CloseSet) + s);
      ParseSet(p, p.write(OpenSet(elem, ItemCount(items))) + b0) == Ok(SetNode(elem, items), s)
  {
    var b1 := p.write(CloseSet) + s;
    var b0 := EncodeItems(p, items) + b1;
    ReadWritten(p, OpenSet(elem, ItemCount(items)), p.write(OpenSet(elem, ItemCount(items))) + b0, b0);
    ReadWritten(p, CloseSet, b1, s);
  }

  lemma {:induction false} ParseEncodedMap(
      p: Protocol, key: FieldType, value: FieldType, entries: Entries, s: Octets)
    requires Lawful(p) && Sendable(p, MapNode(key, value, entries))
    ensures ParseMap(p, Encode(p, MapNode(key, value, entries)) + s) == Ok(MapNode(key, value, entries), s)
    decreases entries, 1
  {
    var b1 := p.write(CloseMap) + s;
    ParseEncodedEntries(p, key, value, entries, b1);
    MapAround(p, key, value, entries, s);
    Regroup3(p.write(OpenMap(key, value, EntryCount(entries))), EncodeEntries(p, entries), p.write(CloseMap), s);
  }

  /** Head and tail around what parses in between. */
  lemma MapAround(p: Protocol, key: FieldType, value: FieldType, entries: Entries, s: Octets)
    requires Lawful(p) && p.carries(OpenMap(key, value, EntryCount(entries))) && p.carries(CloseMap)
    requires
      var b1 := p.write(CloseMap) + s;
      ParseEntries(p, key, value, EntryCount(entries), EncodeEntries(p, entries) + b1) == Ok(entries, b1)
    ensures
      var b0 := EncodeEntries(p, entries) + (p.write(CloseMap) + s);
      ParseMap(p, p.write(OpenMap(key, value, EntryCount(entries))) + b0) == Ok(MapNode(key, value, entries), s)
  {
    var b1 := p.write(CloseMap) + s;
    var b0 := EncodeEntries(p, entries) + b1;
    var open := OpenMap(key, value, EntryCount(entries));
    ReadWritten(p, open, p.write(open) + b0, b0);
    ReadWritten(p, CloseMap, b1, s);
  }

  lemma {:induction false} ParseEncodedFields(p: Protocol, fields: Fields, s: Octets)
    requires Lawful(p) && SendableFields(p, fields)
    ensures ParseFields(p, EncodeFields(p, fields) + (p.write(STOP_FIELD) + s)) == Ok(fields, s)
    decreases fields, 0
  {
    match fields
    case NoFields =>
      ReadWritten(p, STOP_FIELD, EncodeFields(p, fields) + (p.write(STOP_FIELD) + s), s);
    case Field(name, id, t, rest) =>
      var b2 := EncodeFields(p, rest) + (p.write(STOP_FIELD) + s);
      ParseEncoded(p, t, p.write(CloseField) + b2);
      ParseEncodedFields(p, rest, s);
      FieldAndRest(p, fields, b2, s);
      Regroup4(p.write(OpenField(name, TypeOf(t), id)), Encode(p, t), p.write(CloseField), EncodeFields(p, rest),
               p.write(STOP_FIELD) + s);
  }

  /** A field in front of fields that parse. */
  lemma FieldAndRest(p: Protocol, fields: Fields, b: Octets, s: Octets)
    requires Lawful(p) && SendableFields(p, fields) && fields.Field?
    requires
      var b1 := p.write(CloseField) + b;
      ParseTree(p, TypeOf(fields.tree), Encode(p, fields.tree) + b1) == Ok(fields.tree, b1)
    requires ParseFields(p, b) == Ok(fields.rest, s)
    ensures
      var head := p.write(OpenField(fields.name, TypeOf(fields.tree), fields.id));
      ParseFields(p, head + (Encode(p, fields.tree) + (p.write(CloseField) + b))) == Ok(fields, s)
  {
    var open := OpenField(fields.name, TypeOf(fields.tree), fields.id);
    var b1 := p.write(CloseField) + b;
    var b0 := Encode(p, fields.tree) + b1;
    ReadWritten(p, open, p.write(open) + b0, b0);
    ReadWritten(p, CloseField, b1, b);
  }

  lemma {:induction false} ParseEncodedItems(p: Protocol, elem: FieldType, items: Items, s: Octets)
    requires Lawful(p) && SendableItems(p, elem, items)
    ensures ParseItems(p, elem, ItemCount(items), EncodeItems(p, items) + s) == Ok(items, s)
    decreases items, 0
  {
    match items
    case NoItems =>
      assert EncodeItems(p, items) + s == s;
    case Item(t, rest) =>
      var b := EncodeItems(p, rest) + s;
      ParseEncoded(p, t, b);
      ParseEncodedItems(p, elem, rest, s);
      Regroup2(Encode(p, t), EncodeItems(p, rest), s);
      ItemAndRest(p, elem, t, rest, b, s);
  }

  /** An item in front of items that parse. */
  lemma ItemAndRest(p: Protocol, elem: FieldType, t: Tree, rest: Items, b: Octets, s: Octets)
    requires Lawful(p) && Sendable(p, t) && ParseTree(p, elem, Encode(p, t) + b) == Ok(t, b)
    requires ParseItems(p, elem, ItemCount(rest), b) == Ok(rest, s)
    ensures ParseItems(p, elem, ItemCount(Item(t, rest)), Encode(p, t) + b) == Ok(Item(t, rest), s)
  {
  }

  lemma {:induction false} ParseEncodedEntries(
      p: Protocol, key: FieldType, value: FieldType, entries: Entries, s: Octets)
    requires Lawful(p) && SendableEntries(p, key, value, entries)
    ensures ParseEntries(p, key, value, EntryCount(entries), EncodeEntries(p, entries) + s) == Ok(entries, s)
    decreases entries, 0
  {
    var b := EncodeEntries(p, entries) + s;
    match entries
    case NoEntries =>
      assert b == s;
    case Entry(k, v, rest) =>
      var b1 := EncodeEntries(p, rest) + s;
      var b0 := Encode(p, v) + b1;
      Regroup3(Encode(p, k), Encode(p, v), EncodeEntries(p, rest), s);
      ParseEncoded(p, k, b0);
      ParseEncoded(p, v, b1);
      ParseEncodedEntries(p, key, value, rest, s);
  }

  lemma ParseEncodedMessage(p: Protocol, m: Message, s: Octets)
    requires Lawful(p) && SendableMessage(p, m)
    ensures ParseMessage(p, EncodeMessage(p, m) + s) == Ok(m, s)
  {
    var b1 := p.write(CloseMessage) + s;
    var b0 := Encode(p, m.body) + b1;
    Regroup3(p.write(OpenMessage(m.header)), Encode(p, m.body), p.write(CloseMessage), s);
    ReadWritten(p, OpenMessage(m.header), EncodeMessage(p, m) + s, b0);
    ParseEncoded(p, m.body, b1);
    ReadWritten(p, CloseMessage, b1, s);
  }

  // Whatever the parser delivers can be sent again.

  lemma {:induction false} ParsedIsSendable(p: Protocol, t: FieldType, b: Octets)
    requires Lawful(p) && ParseTree(p, t, b).Ok?
    ensures Sendable(p, ParseTree(p, t, b).value)
    decreases |b|, 2, 0
  {
    match t
    case Struct => ParsedStructIsSendable(p, b);
    case List => ParsedListIsSendable(p, b);
    case Set => ParsedSetIsSendable(p, b);
    case Map => ParsedMapIsSendable(p, b);
    case _ =>
  }

  lemma {:induction false} ParsedListIsSendable(p: Protocol, b: Octets)
    requires Lawful(p) && ParseList(p, b).Ok?
    ensures Sendable(p, ParseList(p, b).value)
    decreases |b|, 1, 0
  {
    var head := ReadToken(p, ListHead, b);
    ParsedItemsAreSendable(p, head.value.elem, head.value.size, head.rest);
  }

  lemma {:induction false} ParsedSetIsSendable(p: Protocol, b: Octets)
    requires Lawful(p) && ParseSet(p, b).Ok?
    ensures Sendable(p, ParseSet(p, b).value)
    decreases |b|, 1, 0
  {
    var head := ReadToken(p, SetHead, b);
    ParsedItemsAreSendable(p, head.value.elem, head.value.size, head.rest);
  }

  lemma {:induction false} ParsedMapIsSendable(p: Protocol, b: Octets)
    requires Lawful(p) && ParseMap(p, b).Ok?
    ensures Sendable(p, ParseMap(p, b).value)
    decreases |b|, 1, 0
  {
    var head := ReadToken(p, MapHead, b);
    ParsedEntriesAreSendable(p, head.value.key, head.value.value, head.value.size, head.rest);
  }

  lemma {:induction false} ParsedStructIsSendable(p: Protocol, b: Octets)
    requires Lawful(p) && ParseStruct(p, b).Ok?
    ensures Sendable(p, ParseStruct(p, b).value)
    decreases |b|, 1, 0
  {
    ParsedFieldsAreSendable(p, ReadToken(p, StructHead, b).rest);
  }

  /** One field in front of what the rest of the fields parses to. */
  function Prepended(head: Token, tree: Tree, fields: Parsed<Fields>): Parsed<Fields>
    requires head.OpenField?
  {
    var (rest, b) :- fields;
    Ok(Field(head.fieldName, head.id, tree, rest), b)
  }

  lemma FieldsParse(p: Protocol, b: Octets)
    requires Lawful(p)
    requires ReadToken(p, FieldHead, b).Ok? && ReadToken(p, FieldHead, b).value.fieldType != Stop
    requires
      var head := ReadToken(p, FieldHead, b);
      var tree := ParseTree(p, head.value.fieldType, head.rest);
      tree.Ok? && ReadToken(p, FieldTail, tree.rest).Ok?
    ensures
      var head := ReadToken(p, FieldHead, b);
      var tree := ParseTree(p, head.value.fieldType, head.rest);
      var tail := ReadToken(p, FieldTail, tree.rest);
      && ParseFields(p, b) == Prepended(head.value, tree.value, ParseFields(p, tail.rest))
      && TypeOf(tree.value) == head.value.fieldType && tail.value == CloseField
      && head.value == OpenField(head.value.fieldName, TypeOf(tree.value), head.value.id)
  {
  }

  lemma {:induction false} ParsedFieldsAreSendable(p: Protocol, b: Octets)
    requires Lawful(p) && ParseFields(p, b).Ok?
    ensures SendableFields(p, ParseFields(p, b).value)
    decreases |b|, 0, 0
  {
    var head := ReadToken(p, FieldHead, b);
    if head.value.fieldType != Stop {
      var t := ParseTree(p, head.value.fieldType, head.rest);
      var tail := ReadToken(p, FieldTail, t.rest);
      FieldsParse(p, b);
      ParsedIsSendable(p, head.value.fieldType, head.rest);
      ParsedFieldsAreSendable(p, tail.rest);
      FieldIsSendable(p, head.value, t.value, ParseFields(p, tail.rest).value);
    }
  }

  lemma FieldIsSendable(p: Protocol, head: Token, tree: Tree, rest: Fields)
    requires Lawful(p) && head.OpenField? && p.carries(head) && p.carries(CloseField) && head.fieldType != Stop
    requires head == OpenField(head.fieldName, TypeOf(tree), head.id)
    requires Sendable(p, tree) && SendableFields(p, rest)
    ensures SendableFields(p, Field(head.fieldName, head.id, tree, rest))
  {
  }

  lemma {:induction false} ParsedItemsAreSendable(p: Protocol, elem: FieldType, n: nat, b: Octets)
    requires Lawful(p) && ParseItems(p, elem, n, b).Ok?
    ensures SendableItems(p, elem, ParseItems(p, elem, n, b).value)
    decreases |b|, 3, n
  {
    if n > 0 {
      ParsedIsSendable(p, elem, b);
      ParsedItemsAreSendable(p, elem, n - 1, ParseTree(p, elem, b).rest);
    }
  }

  /** One entry in front of what the rest of the entries parses to. */
  lemma EntriesParse(p: Protocol, key: FieldType, value: FieldType, n: nat, b: Octets)
    requires Lawful(p) && n > 0 && ParseEntries(p, key, value, n, b).Ok?
    ensures
      var k := ParseTree(p, key, b);
      && k.Ok?
      && var v := ParseTree(p, value, k.rest);
         && v.Ok?
         && var rest := ParseEntries(p, key, value, n - 1, v.rest);
            rest.Ok? && ParseEntries(p, key, value, n, b) == Ok(Entry(k.value, v.value, rest.value), rest.rest)
  {
  }

  lemma {:induction false} ParsedEntriesAreSendable(
      p: Protocol, key: FieldType, value: FieldType, n: nat, b: Octets)
    requires Lawful(p) && ParseEntries(p, key, value, n, b).Ok?
    ensures SendableEntries(p, key, value, ParseEntries(p, key, value, n, b).value)
    decreases |b|, 3, n
  {
    if n > 0 {
      var k, v, b1 := FirstEntryIsSendable(p, key, value, n, b);
      ParsedEntriesAreSendable(p, key, value, n - 1, b1);
      EntryIsSendable(p, k, v, ParseEntries(p, key, value, n - 1, b1).value);
    }
  }

  lemma {:induction false} FirstEntryIsSendable(
      p: Protocol, key: FieldType, value: FieldType, n: nat, b: Octets)
      returns (k: Tree, v: Tree, b1: Octets)
    requires Lawful(p) && n > 0 && ParseEntries(p, key, value, n, b).Ok?
    ensures Sendable(p, k) && TypeOf(k) == key && Sendable(p, v) && TypeOf(v) == value && |b1| < |b|
    ensures
      var rest := ParseEntries(p, key, value, n - 1, b1);
      rest.Ok? && ParseEntries(p, key, value, n, b) == Ok(Entry(k, v, rest.value), rest.rest)
    decreases |b|, 2, 1
  {
    EntriesParse(p, key, value, n, b);
    var first := ParseTree(p, key, b);
    var second := ParseTree(p, value, first.rest);
    ParsedIsSendable(p, key, b);
    ParsedIsSendable(p, value, first.rest);
    k, v, b1 := first.value, second.value, second.rest;
  }

  lemma EntryIsSendable(p: Protocol, k: Tree, v: Tree, rest: Entries)
    requires Sendable(p, k) && Sendable(p, v) && SendableEntries(p, TypeOf(k), TypeOf(v), rest)
    ensures SendableEntries(p, TypeOf(k), TypeOf(v), Entry(k, v, rest))
  {
  }

  lemma ParsedMessageIsSendable(p: Protocol, b: Octets)
    requires Lawful(p) && ParseMessage(p, b).Ok?
    ensures SendableMessage(p, ParseMessage(p, b).value)
  {
    ParsedIsSendable(p, Struct, ReadToken(p, MessageHead, b).rest);
  }
}
