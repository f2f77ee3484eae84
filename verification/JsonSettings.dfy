/** The loops of libobs/obs-data.c over the items of a settings object, against JsonTree. */
module JsonSettings {
  import opened Basics
  import opened JsonTree

  lemma {:induction false} SetAt(items: seq<Entry>, i: nat, key: string, value: Value)
    requires i <= |items| && forall j :: 0 <= j < i ==> items[j].key != key
    requires i < |items| ==> items[i].key == key
    ensures Set(items, key, value)
            == (if i < |items| then items[i := items[i].(user := Some(value))]
                else items + [Entry(key, Some(value), None)])
  {
    if i > 0 {
      SetAt(items[1..], i - 1, key, value);
    }
  }

  /** obs_data: its items are added to and changed in place. */
  class Settings {
    var items: seq<Entry>

    /** obs_data_create */
    constructor ()
      ensures items == []
    {
      items := [];
    }

    /** set_item */
    method SetItem(key: string, value: Value)
      modifies this
      ensures items == Set(old(items), key, value)
    {
      var i := 0;
      while i < |items| && items[i].key != key
        invariant i <= |items| && items == old(items) && forall j :: 0 <= j < i ==> items[j].key != key
      {
        i := i + 1;
      }
      SetAt(items, i, key, value);
      if i < |items| {
        items := items[i := items[i].(user := Some(value))];
      } else {
        items := items + [Entry(key, Some(value), None)];
      }
    }

    /** obs_data_add_json_object_data */
    method AddJsonObjectData(members: seq<Member>)
      modifies this
      ensures items == AddMembers(old(items), members)
      decreases members
    {
      var k := 0;
      while k < |members|
        invariant k <= |members| && AddMembers(items, members[k..]) == AddMembers(old(items), members)
      {
        var rest := members[k..];
        AddJsonItem(rest[0].key, rest[0].value);
        assert rest[1..] == members[k + 1..];
        k := k + 1;
      }
    }

    /** obs_data_add_json_item */
    method AddJsonItem(key: string, json: Json)
      modifies this
      ensures items == AddItem(old(items), key, json)
      decreases json
    {
      match json {
        case Object(members) =>
          var sub := new Settings();
          sub.AddJsonObjectData(members);
          SetItem(key, Obj(Data(sub.items)));
        case Array(elements) =>
          var objects := JsonArrayObjects(elements);
          SetItem(key, Arr(objects));
        case String(text) => SetItem(key, Text(text));
        case Integer(i) => SetItem(key, Int(i));
        case Real(r) => SetItem(key, Double(r));
        case Bool(b) => SetItem(key, Flag(b));
        case Null =>
      }
    }

    /** The loop of obs_data_add_json_array */
    static method JsonArrayObjects(elements: seq<Json>) returns (objects: seq<Data>)
      ensures objects == AddObjects(elements)
      decreases elements
    {
      objects := [];
      var k := 0;
      while k < |elements|
        invariant k <= |elements| && objects + AddObjects(elements[k..]) == AddObjects(elements)
      {
        var rest := elements[k..];
        assert rest[1..] == elements[k + 1..];
        if rest[0].Object? {
          var item := new Settings();
          item.AddJsonObjectData(rest[0].members);
          Seqs.Assoc(objects, [Data(item.items)], AddObjects(rest[1..]));
          objects := objects + [Data(item.items)];
        }
        k := k + 1;
      }
    }

    /** obs_data_apply */
    method ApplyFrom(source: Settings)
      modifies this
      ensures items == if source == this then old(items) else Apply(old(items), old(source.items))
    {
      if source == this {
        return;
      }
      var k := 0;
      while k < |source.items|
        invariant k <= |source.items| && Apply(items, source.items[k..]) == Apply(old(items), source.items)
      {
        var rest := source.items[k..];
        assert rest[1..] == source.items[k + 1..];
        if rest[0].user.Some? {
          var copy := CopyValue(rest[0].user.value);
          SetItem(rest[0].key, copy);
        }
        k := k + 1;
      }
    }

    /** copy_obj and copy_array */
    static method CopyValue(value: Value) returns (copy: Value)
      ensures copy == Copy(value)
      decreases value
    {
      match value {
        case Obj(data) =>
          var c := CopyData(data);
          copy := Obj(c);
        case Arr(objects) =>
          var copies := [];
          var k := 0;
          while k < |objects|
            invariant k <= |objects| && copies + CopyAll(objects[k..]) == CopyAll(objects)
          {
            var rest := objects[k..];
            assert rest[1..] == objects[k + 1..];
            var c := CopyData(rest[0]);
            Seqs.Assoc(copies, [c], CopyAll(rest[1..]));
            copies := copies + [c];
            k := k + 1;
          }
          copy := Arr(copies);
        case _ => copy := value;
      }
    }

    /** obs_data_apply to a new object */
    static method CopyData(data: Data) returns (copy: Data)
      ensures copy == Data(Apply([], data.items))
      decreases data
    {
      var made := new Settings();
      var k := 0;
      while k < |data.items|
        invariant k <= |data.items| && Apply(made.items, data.items[k..]) == Apply([], data.items)
      {
        var rest := data.items[k..];
        assert rest[1..] == data.items[k + 1..];
        if rest[0].user.Some? {
          var c := CopyValue(rest[0].user.value);
          made.SetItem(rest[0].key, c);
        }
        k := k + 1;
      }
      copy := Data(made.items);
    }

    /** obs_data_to_json */
    static method ToJson(data: Data) returns (members: seq<Member>)
      ensures members == PutItems([], data.items)
      decreases data
    {
      members := [];
      var k := 0;
      while k < |data.items|
        invariant k <= |data.items| && PutItems(members, data.items[k..]) == PutItems([], data.items)
      {
        var rest := data.items[k..];
        assert rest[1..] == data.items[k + 1..];
        if rest[0].user.Some? {
          var json := ValueToJson(rest[0].user.value);
          members := Put(members, rest[0].key, json);
        }
        k := k + 1;
      }
    }

    /** set_json_string, set_json_number, set_json_bool, set_json_obj and set_json_array */
    static method ValueToJson(value: Value) returns (json: Json)
      ensures json == Render(value)
      decreases value
    {
      match value {
        case Text(text) => json := String(text);
        case Int(i) => json := Integer(i);
        case Double(r) => json := Real(r);
        case Flag(b) => json := Bool(b);
        case Obj(data) =>
          var members := ToJson(data);
          json := Object(members);
        case Arr(objects) =>
          var elements := [];
          var k := 0;
          while k < |objects|
            invariant k <= |objects| && elements + RenderAll(objects[k..]) == RenderAll(objects)
          {
            var rest := objects[k..];
            assert rest[1..] == objects[k + 1..];
            var members := ToJson(rest[0]);
            Seqs.Assoc(elements, [Object(members)], RenderAll(rest[1..]));
            elements := elements + [Object(members)];
            k := k + 1;
          }
          json := Array(elements);
      }
    }
  }
}
