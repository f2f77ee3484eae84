/** The settings trees of libobs/obs-data.c: loading them from a JSON tree, writing them back,
    and applying one to another. */
module JsonTree {
  import opened Basics
  import opened Seqs

  /** A JSON tree as the parser hands it over: an object's members in the order of the text. */
  datatype Json =
    | Object(members: seq<Member>)
    | Array(elements: seq<Json>)
    | String(text: string)
    | Integer(whole: int)
    | Real(number: real)
    | Bool(flag: bool)
    | Null
  datatype Member = Member(key: string, value: Json)

  /** A settings object: its items in the order in which they were added. */
  datatype Data = Data(items: seq<Entry>)
  datatype Entry = Entry(key: string, user: Option<Value>, fallback: Option<Value>)
  datatype Value =
    | Text(text: string)
    | Int(whole: int)
    | Double(number: real)
    | Flag(flag: bool)
    | Obj(data: Data)
    | Arr(objects: seq<Data>)

  // ---- The table of items ----

  ghost predicate HasKey(items: seq<Entry>, key: string) {
    exists i :: 0 <= i < |items| && items[i].key == key
  }

  ghost predicate DistinctKeys(items: seq<Entry>) {
    forall i, j :: 0 <= i < j < |items| ==> items[i].key != items[j].key
  }

  /** get_item and the user value of what it finds. */
  function User(items: seq<Entry>, key: string): Option<Value> {
    if items == [] then None else if items[0].key == key then items[0].user else User(items[1..], key)
  }

  function Default(items: seq<Entry>, key: string): Option<Value> {
    if items == [] then None else if items[0].key == key then items[0].fallback else Default(items[1..], key)
  }

  /** set_item: the item of this name gets a user value, or a new item goes to the end. */
  function Set(items: seq<Entry>, key: string, value: Value): seq<Entry> {
    if items == [] then [Entry(key, Some(value), None)]
    else if items[0].key == key then [items[0].(user := Some(value))] + items[1..]
    else [items[0]] + Set(items[1..], key, value)
  }

  lemma {:induction false} SetLookup(items: seq<Entry>, key: string, value: Value, other: string)
    ensures User(Set(items, key, value), other) == if other == key then Some(value) else User(items, other)
    ensures Default(Set(items, key, value), other) == Default(items, other)
  {
    if items != [] && items[0].key != key {
      SetLookup(items[1..], key, value, other);
      assert Set(items, key, value)[1..] == Set(items[1..], key, value);
    } else if items != [] {
      assert Set(items, key, value)[1..] == items[1..];
    }
  }

  lemma {:induction false} SetOfMissing(items: seq<Entry>, key: string, value: Value)
    requires !HasKey(items, key)
    ensures Set(items, key, value) == items + [Entry(key, Some(value), None)]
  {
    if items != [] {
      assert items[0].key != key;
      assert !HasKey(items[1..], key) by {
        assert forall i :: 0 <= i < |items[1..]| ==> items[1..][i] == items[i + 1];
      }
      SetOfMissing(items[1..], key, value);
    }
  }

  lemma {:induction false} SetOfSame(items: seq<Entry>, key: string, value: Value)
    requires User(items, key) == Some(value)
    ensures Set(items, key, value) == items
  {
    if items[0].key != key {
      SetOfSame(items[1..], key, value);
    }
  }

  // ---- From JSON ----

  /** obs_data_add_json_object_data */
  function AddMembers(items: seq<Entry>, members: seq<Member>): seq<Entry>
    decreases members
  {
    if members == [] then items else AddMembers(AddItem(items, members[0].key, members[0].value), members[1..])
  }

  /** obs_data_add_json_item: a null matches no branch. */
  function AddItem(items: seq<Entry>, key: string, json: Json): seq<Entry>
    decreases json, 1
  {
    if json.Null? then items else Set(items, key, Convert(json))
  }

  function Convert(json: Json): Value
    requires !json.Null?
    decreases json, 0
  {
    match json
    case Object(members) => Obj(Data(AddMembers([], members)))
    case Array(elements) => Arr(AddObjects(elements))
    case String(text) => Text(text)
    case Integer(i) => Int(i)
    case Real(r) => Double(r)
    case Bool(b) => Flag(b)
  }

  /** obs_data_add_json_array: elements that are not objects are passed over. */
  function AddObjects(elements: seq<Json>): seq<Data>
    decreases elements
  {
    if elements == [] then []
    else if elements[0].Object? then [Data(AddMembers([], elements[0].members))] + AddObjects(elements[1..])
    else AddObjects(elements[1..])
  }

  // ---- To JSON ----

  /** json_object_set_new: replaces in place, or adds at the end. */
  function Put(members: seq<Member>, key: string, value: Json): seq<Member> {
    if members == [] then [Member(key, value)]
    else if members[0].key == key then [Member(key, value)] + members[1..]
    else [members[0]] + Put(members[1..], key, value)
  }

  /** obs_data_to_json: items without a user value are passed over. */
  function PutItems(members: seq<Member>, items: seq<Entry>): seq<Member>
    decreases items
  {
    if items == [] then members
    else if items[0].user.None? then PutItems(members, items[1..])
    else PutItems(Put(members, items[0].key, Render(items[0].user.value)), items[1..])
  }

  function Render(value: Value): Json
    decreases value
  {
    match value
    case Text(text) => String(text)
    case Int(i) => Integer(i)
    case Double(r) => Real(r)
    case Flag(b) => Bool(b)
    case Obj(data) => Object(PutItems([], data.items))
    case Arr(objects) => Array(RenderAll(objects))
  }

  /** set_json_array */
  function RenderAll(objects: seq<Data>): seq<Json>
    decreases objects
  {
    if objects == [] then [] else [Object(PutItems([], objects[0].items))] + RenderAll(objects[1..])
  }

  ghost predicate HasMember(members: seq<Member>, key: string) {
    exists i :: 0 <= i < |members| && members[i].key == key
  }

  lemma {:induction false} PutOfMissing(members: seq<Member>, key: string, value: Json)
    requires !HasMember(members, key)
    ensures Put(members, key, value) == members + [Member(key, value)]
  {
    if members != [] {
      assert members[0].key != key;
      assert !HasMember(members[1..], key) by {
        assert forall i :: 0 <= i < |members[1..]| ==> members[1..][i] == members[i + 1];
      }
      PutOfMissing(members[1..], key, value);
    }
  }

  /** A name that is there already gets the new value in its place. */
  lemma {:induction false} PutOfPresent(members: seq<Member>, i: nat, value: Json)
    requires i < |members| && forall j :: 0 <= j < i ==> members[j].key != members[i].key
    ensures Put(members, members[i].key, value) == members[i := Member(members[i].key, value)]
  {
    if i > 0 {
      PutOfPresent(members[1..], i - 1, value);
    }
  }

  /** What is written for items of distinct names: one member each, in their order. */
  function Written(items: seq<Entry>): seq<Member>
    decreases items
  {
    if items == [] then []
    else if items[0].user.None? then Written(items[1..])
    else [Member(items[0].key, Render(items[0].user.value))] + Written(items[1..])
  }

  lemma {:induction false} PutItemsWrites(members: seq<Member>, items: seq<Entry>)
    requires DistinctKeys(items)
    requires forall m, e :: m in members && e in items ==> m.key != e.key
    ensures PutItems(members, items) == members + Written(items)
    decreases items
  {
    if items == [] {
    } else {
      var rest := items[1..];
      assert forall e :: e in rest ==> e in items && e.key != items[0].key;
      if items[0].user.None? {
        PutItemsWrites(members, rest);
      } else {
        var m := Member(items[0].key, Render(items[0].user.value));
        assert !HasMember(members, m.key);
        PutOfMissing(members, m.key, m.value);
        PutItemsWrites(members + [m], rest);
        Assoc(members, [m], Written(rest));
      }
    }
  }

  // ---- What a load keeps ----

  /** The tree without its nulls, and without the elements of arrays that are not objects. */
  function Clean(json: Json): Json
    decreases json
  {
    match json
    case Object(members) => Object(CleanMembers(members))
    case Array(elements) => Array(CleanElements(elements))
    case _ => json
  }

  function CleanMembers(members: seq<Member>): seq<Member>
    decreases members
  {
    if members == [] then []
    else if members[0].value.Null? then CleanMembers(members[1..])
    else [Member(members[0].key, Clean(members[0].value))] + CleanMembers(members[1..])
  }

  function CleanElements(elements: seq<Json>): seq<Json>
    decreases elements
  {
    if elements == [] then []
    else if elements[0].Object? then [Clean(elements[0])] + CleanElements(elements[1..])
    else CleanElements(elements[1..])
  }

  /** No object of the tree names a member twice: the parser is told to refuse those. */
  ghost predicate NoDuplicates(json: Json)
    decreases json
  {
    match json
    case Object(members) => DistinctMembers(members) && forall m :: m in members ==> NoDuplicates(m.value)
    case Array(elements) => forall e :: e in elements ==> NoDuplicates(e)
    case _ => true
  }

  ghost predicate DistinctMembers(members: seq<Member>) {
    forall i, j :: 0 <= i < j < |members| ==> members[i].key != members[j].key
  }

  /** A tree with no nulls in objects, and only objects in arrays. */
  ghost predicate IsClean(json: Json)
    decreases json
  {
    match json
    case Object(members) => forall m :: m in members ==> !m.value.Null? && IsClean(m.value)
    case Array(elements) => forall e :: e in elements ==> e.Object? && IsClean(e)
    case _ => true
  }

  /** The items that the members of an object turn into. */
  function Entries(members: seq<Member>): seq<Entry>
    decreases members
  {
    if members == [] then []
    else if members[0].value.Null? then Entries(members[1..])
    else [Entry(members[0].key, Some(Convert(members[0].value)), None)] + Entries(members[1..])
  }

  lemma {:induction false} EntriesKeys(members: seq<Member>)
    ensures forall e :: e in Entries(members) ==> HasMember(members, e.key)
    ensures DistinctMembers(members) ==> DistinctKeys(Entries(members))
  {
    if members == [] {
    } else {
      var rest := members[1..];
      EntriesKeys(rest);
      assert forall i :: 0 <= i < |rest| ==> rest[i] == members[i + 1];
      assert forall k: string :: HasMember(rest, k) ==> HasMember(members, k);
      assert DistinctMembers(members) ==> DistinctMembers(rest) && !HasMember(rest, members[0].key);
      assert HasMember(members, members[0].key);
    }
  }

  lemma {:induction false} AddMembersAppends(items: seq<Entry>, members: seq<Member>)
    requires DistinctMembers(members)
    requires forall e, m :: e in items && m in members ==> e.key != m.key
    ensures AddMembers(items, members) == items + Entries(members)
    decreases members
  {
    if members == [] {
    } else {
      var m, rest := members[0], members[1..];
      assert forall r :: r in rest ==> r in members && r.key != m.key;
      if m.value.Null? {
        AddMembersAppends(items, rest);
      } else {
        assert !HasKey(items, m.key);
        SetOfMissing(items, m.key, Convert(m.value));
        var e := Entry(m.key, Some(Convert(m.value)), None);
        AddMembersAppends(items + [e], rest);
        Assoc(items, [e], Entries(rest));
      }
    }
  }

  /** Loading a value and writing it back gives the value without what a load drops. */
  lemma {:induction false} ValueRoundTrip(json: Json)
    requires NoDuplicates(json) && !json.Null?
    ensures Render(Convert(json)) == Clean(json)
    decreases json, 1
  {
    match json
    case Object(members) => ObjectRoundTrip(members);
    case Array(elements) => ElementsRoundTrip(elements);
    case _ =>
  }

  lemma {:induction false} ObjectRoundTrip(members: seq<Member>)
    requires DistinctMembers(members) && forall m :: m in members ==> NoDuplicates(m.value)
    ensures PutItems([], AddMembers([], members)) == CleanMembers(members)
    decreases members, 1
  {
    AddMembersAppends([], members);
    EntriesKeys(members);
    assert [] + Entries(members) == Entries(members);
    PutItemsWrites([], Entries(members));
    MembersRoundTrip(members);
    assert [] + CleanMembers(members) == CleanMembers(members);
  }

  lemma {:induction false} MembersRoundTrip(members: seq<Member>)
    requires forall m :: m in members ==> NoDuplicates(m.value)
    ensures Written(Entries(members)) == CleanMembers(members)
    decreases members, 0
  {
    if members == [] {
    } else {
      MembersRoundTrip(members[1..]);
      if !members[0].value.Null? {
        ValueRoundTrip(members[0].value);
        var e := Entry(members[0].key, Some(Convert(members[0].value)), None);
        assert Entries(members)[0] == e && Entries(members)[1..] == Entries(members[1..]);
      }
    }
  }

  lemma {:induction false} ElementsRoundTrip(elements: seq<Json>)
    requires forall e :: e in elements ==> NoDuplicates(e)
    ensures RenderAll(AddObjects(elements)) == CleanElements(elements)
    decreases elements
  {
    if elements == [] {
    } else {
      ElementsRoundTrip(elements[1..]);
      if elements[0].Object? {
        assert NoDuplicates(Object(elements[0].members));
        ObjectRoundTrip(elements[0].members);
        var d := Data(AddMembers([], elements[0].members));
        assert AddObjects(elements)[0] == d && AddObjects(elements)[1..] == AddObjects(elements[1..]);
      }
    }
  }

  // ---- The round trip of a document ----

  /** obs_data_create_from_json and obs_data_to_json on the parsed tree: what is dropped is the
      nulls and the elements of arrays that are not objects. */
  lemma RoundTrip(members: seq<Member>)
    requires NoDuplicates(Object(members))
    ensures Object(PutItems([], AddMembers([], members))) == Clean(Object(members))
  {
    ObjectRoundTrip(members);
  }

  /** The same tree comes back exactly when it has nothing that a load drops. */
  lemma RoundTripIsExactIff(members: seq<Member>)
    requires NoDuplicates(Object(members))
    ensures Object(PutItems([], AddMembers([], members))) == Object(members) <==> IsClean(Object(members))
  {
    ObjectRoundTrip(members);
    CleanIsSameIff(Object(members));
  }

  lemma {:induction false} CleanIsSameIff(json: Json)
    ensures Clean(json) == json <==> IsClean(json)
    decreases json
  {
    match json
    case Object(members) => CleanMembersSameIff(members);
    case Array(elements) => CleanElementsSameIff(elements);
    case _ =>
  }

  lemma {:induction false} CleanMembersSameIff(members: seq<Member>)
    ensures |CleanMembers(members)| <= |members|
    ensures CleanMembers(members) == members <==> forall m :: m in members ==> !m.value.Null? && IsClean(m.value)
    decreases members
  {
    if members == [] {
    } else {
      CleanMembersSameIff(members[1..]);
      CleanIsSameIff(members[0].value);
      assert members == [members[0]] + members[1..];
    }
  }

  lemma {:induction false} CleanElementsSameIff(elements: seq<Json>)
    ensures |CleanElements(elements)| <= |elements|
    ensures CleanElements(elements) == elements <==> forall e :: e in elements ==> e.Object? && IsClean(e)
    decreases elements
  {
    if elements == [] {
    } else {
      CleanElementsSameIff(elements[1..]);
      CleanIsSameIff(elements[0]);
      assert elements == [elements[0]] + elements[1..];
    }
  }

  /** What comes back has nothing left to drop: a second round trip changes nothing. */
  lemma {:induction false} CleanedIsClean(json: Json)
    ensures IsClean(Clean(json)) && Clean(Clean(json)) == Clean(json)
    ensures json.Object? <==> Clean(json).Object?
    ensures json.Null? <==> Clean(json).Null?
    decreases json
  {
    match json {
      case Object(members) => CleanedMembers(members);
      case Array(elements) => CleanedElements(elements);
      case _ =>
    }
    CleanIsSameIff(Clean(json));
  }

  lemma {:induction false} CleanedMembers(members: seq<Member>)
    ensures forall m :: m in CleanMembers(members) ==> !m.value.Null? && IsClean(m.value)
    decreases members
  {
    if members != [] {
      CleanedMembers(members[1..]);
      CleanedIsClean(members[0].value);
    }
  }

  lemma {:induction false} CleanedElements(elements: seq<Json>)
    ensures forall e :: e in CleanElements(elements) ==> e.Object? && IsClean(e)
    decreases elements
  {
    if elements != [] {
      CleanedElements(elements[1..]);
      CleanedIsClean(elements[0]);
    }
  }

  // ---- Applying one tree to another ----

  /** obs_data_apply: every user value of the source is set, deeply copied, in the target. */
  function Apply(target: seq<Entry>, source: seq<Entry>): seq<Entry>
    decreases source
  {
    if source == [] then target
    else if source[0].user.None? then Apply(target, source[1..])
    else Apply(Set(target, source[0].key, Copy(source[0].user.value)), source[1..])
  }

  /** copy_item: objects and arrays are built anew, other values are copied. */
  function Copy(value: Value): Value
    decreases value
  {
    match value
    case Obj(data) => Obj(Data(Apply([], data.items)))
    case Arr(objects) => Arr(CopyAll(objects))
    case _ => value
  }

  /** copy_array */
  function CopyAll(objects: seq<Data>): seq<Data>
    decreases objects
  {
    if objects == [] then [] else [Data(Apply([], objects[0].items))] + CopyAll(objects[1..])
  }

  /** A name is left alone, unless the source has a user value for it: then it gets a copy of
      that value. Defaults are never touched. */
  lemma {:induction false} ApplyLookup(target: seq<Entry>, source: seq<Entry>, key: string)
    requires DistinctKeys(source)
    ensures User(Apply(target, source), key)
            == (if User(source, key).Some? then Some(Copy(User(source, key).value)) else User(target, key))
    ensures Default(Apply(target, source), key) == Default(target, key)
    decreases source
  {
    if source == [] {
    } else if source[0].user.None? {
      NoKeyNoUser(source);
      ApplyLookup(target, source[1..], key);
    } else {
      var e := source[0];
      NoKeyNoUser(source);
      SetLookup(target, e.key, Copy(e.user.value), key);
      ApplyLookup(Set(target, e.key, Copy(e.user.value)), source[1..], key);
    }
  }

  lemma NoKeyNoUser(items: seq<Entry>)
    requires items != [] && DistinctKeys(items)
    ensures User(items[1..], items[0].key).None? && DistinctKeys(items[1..])
  {
    MissingHasNoUser(items[1..], items[0].key);
  }

  lemma {:induction false} MissingHasNoUser(items: seq<Entry>, key: string)
    requires forall e :: e in items ==> e.key != key
    ensures User(items, key).None?
  {
    if items != [] {
      MissingHasNoUser(items[1..], key);
    }
  }

  /** Applying the same tree again changes nothing. */
  lemma ApplyTwice(target: seq<Entry>, source: seq<Entry>)
    requires DistinctKeys(source)
    ensures Apply(Apply(target, source), source) == Apply(target, source)
  {
    var once := Apply(target, source);
    forall i | 0 <= i < |source| && source[i].user.Some?
      ensures User(once, source[i].key) == Some(Copy(source[i].user.value))
    {
      ApplyLookup(target, source, source[i].key);
      UserAt(source, i);
    }
    ApplyOfPresent(once, source);
  }

  lemma {:induction false} UserAt(items: seq<Entry>, i: nat)
    requires DistinctKeys(items) && i < |items|
    ensures User(items, items[i].key) == items[i].user
  {
    if i > 0 {
      UserAt(items[1..], i - 1);
    }
  }

  /** A name's values are those of its item, or none. */
  lemma {:induction false} ValuesAt(items: seq<Entry>, key: string)
    requires DistinctKeys(items)
    ensures forall i :: 0 <= i < |items| && items[i].key == key ==>
              User(items, key) == items[i].user && Default(items, key) == items[i].fallback
    ensures !HasKey(items, key) ==> User(items, key) == None && Default(items, key) == None
  {
    if items != [] {
      ValuesAt(items[1..], key);
      assert forall i :: 0 < i < |items| ==> items[i] == items[1..][i - 1];
    }
  }

  lemma {:induction false} ApplyOfPresent(target: seq<Entry>, source: seq<Entry>)
    requires forall i :: 0 <= i < |source| && source[i].user.Some? ==>
                           User(target, source[i].key) == Some(Copy(source[i].user.value))
    ensures Apply(target, source) == target
    decreases source
  {
    if source == [] {
    } else {
      assert forall i :: 0 <= i < |source[1..]| ==> source[1..][i] == source[i + 1];
      if source[0].user.Some? {
        SetOfSame(target, source[0].key, Copy(source[0].user.value));
      }
      ApplyOfPresent(target, source[1..]);
    }
  }

  /** A tree in which no object holds two items of one name. */
  ghost predicate WellKeyed(value: Value)
    decreases value
  {
    match value
    case Obj(data) => AllWellKeyed(data)
    case Arr(objects) => forall d :: d in objects ==> AllWellKeyed(d)
    case _ => true
  }

  ghost predicate AllWellKeyed(data: Data)
    decreases data
  {
    DistinctKeys(data.items) && forall e :: e in data.items && e.user.Some? ==> WellKeyed(e.user.value)
  }

  /** The items that a copy holds: those with a user value, and without their defaults. */
  function Copied(items: seq<Entry>): seq<Entry>
    decreases items
  {
    if items == [] then []
    else if items[0].user.None? then Copied(items[1..])
    else [Entry(items[0].key, Some(Copy(items[0].user.value)), None)] + Copied(items[1..])
  }

  lemma {:induction false} ApplyAppends(target: seq<Entry>, source: seq<Entry>)
    requires DistinctKeys(source)
    requires forall t, e :: t in target && e in source ==> t.key != e.key
    ensures Apply(target, source) == target + Copied(source)
    decreases source
  {
    if source == [] {
    } else {
      var e, rest := source[0], source[1..];
      assert forall r :: r in rest ==> r in source && r.key != e.key;
      if e.user.None? {
        ApplyAppends(target, rest);
      } else {
        assert !HasKey(target, e.key);
        SetOfMissing(target, e.key, Copy(e.user.value));
        var c := Entry(e.key, Some(Copy(e.user.value)), None);
        ApplyAppends(target + [c], rest);
        Assoc(target, [c], Copied(rest));
      }
    }
  }

  /** A copy is written as the same JSON tree, members in the same order. */
  lemma {:induction false} CopyKeepsJson(value: Value)
    requires WellKeyed(value)
    ensures Render(Copy(value)) == Render(value)
    decreases value
  {
    match value
    case Obj(data) => ApplyKeepsJson(data);
    case Arr(objects) => CopyAllKeepsJson(objects);
    case _ =>
  }

  lemma {:induction false} ApplyKeepsJson(data: Data)
    requires AllWellKeyed(data)
    ensures PutItems([], Apply([], data.items)) == PutItems([], data.items)
    decreases data
  {
    ApplyAppends([], data.items);
    assert [] + Copied(data.items) == Copied(data.items);
    CopiedKeys(data.items);
    PutItemsWrites([], Copied(data.items));
    PutItemsWrites([], data.items);
    CopiedKeepsJson(data.items);
  }

  lemma {:induction false} CopiedKeys(items: seq<Entry>)
    requires DistinctKeys(items)
    ensures DistinctKeys(Copied(items))
    ensures forall e :: e in Copied(items) ==> HasKey(items, e.key)
    decreases items
  {
    if items == [] {
    } else {
      var rest := items[1..];
      CopiedKeys(rest);
      assert forall i :: 0 <= i < |rest| ==> rest[i] == items[i + 1];
      assert forall k: string :: HasKey(rest, k) ==> HasKey(items, k);
      assert !HasKey(rest, items[0].key);
      assert HasKey(items, items[0].key);
    }
  }

  lemma {:induction false} CopiedKeepsJson(items: seq<Entry>)
    requires forall e :: e in items && e.user.Some? ==> WellKeyed(e.user.value)
    ensures Written(Copied(items)) == Written(items)
    decreases items
  {
    if items == [] {
    } else {
      CopiedKeepsJson(items[1..]);
      if items[0].user.Some? {
        CopyKeepsJson(items[0].user.value);
        var c := Entry(items[0].key, Some(Copy(items[0].user.value)), None);
        assert Copied(items)[0] == c && Copied(items)[1..] == Copied(items[1..]);
      }
    }
  }

  lemma {:induction false} CopyAllKeepsJson(objects: seq<Data>)
    requires forall d :: d in objects ==> AllWellKeyed(d)
    ensures RenderAll(CopyAll(objects)) == RenderAll(objects)
    decreases objects
  {
    if objects == [] {
    } else {
      ApplyKeepsJson(objects[0]);
      CopyAllKeepsJson(objects[1..]);
      var c := Data(Apply([], objects[0].items));
      assert CopyAll(objects)[0] == c && CopyAll(objects)[1..] == CopyAll(objects[1..]);
    }
  }
}
