/** A settings item of libobs/obs-data.c: one allocation that holds a header, the name, and
    up to three values laid end to end, moved when the ones in front of them grow or shrink. */
module DataItem {
  import opened Basics

  type byte = x: int | 0 <= x < 256

  /** base_get_alignment */
  const Alignment := 32

  /** get_align_size: rounding up by masking, for an alignment that is a power of two. */
  function AlignSize(size: nat): (r: nat)
    ensures size <= r < size + Alignment && r % Alignment == 0
    ensures size == 0 ==> r == 0
  {
    (size + Alignment - 1) / Alignment * Alignment
  }

  /** get_name_align_size: the values start on an aligned offset. */
  function NameAlignSize(header: nat, nameSize: nat): (r: nat)
    ensures nameSize <= r && (header + r) % Alignment == 0
  {
    AlignSize(header + nameSize) - header
  }

  /** The bytes of the allocation from pos on are these. */
  ghost predicate Holds(m: array<byte>, pos: nat, bytes: seq<byte>)
    reads m
  {
    pos + |bytes| <= m.Length && forall i :: 0 <= i < |bytes| ==> m[pos + i] == bytes[i]
  }

  /** An item. A value of no bytes is an absent one. */
  class Item {
    const header: nat
    const nameLen: nat
    const name: seq<byte>
    var mem: array<byte>
    var dataLen: nat
    var dataSize: nat
    var defaultLen: nat
    var defaultSize: nat
    var autoselectSize: nat
    var kind: int
    /** The three values the allocation stands for. */
    ghost var user: seq<byte>
    ghost var fallback: seq<byte>
    ghost var autoselect: seq<byte>

    function DataPos(): nat {
      header + nameLen
    }

    function DefaultPos(): nat
      reads this
    {
      DataPos() + dataLen
    }

    function AutoselectPos(): nat
      reads this
    {
      DefaultPos() + defaultLen
    }

    /** obs_data_item_total_size */
    function TotalSize(): nat
      reads this
    {
      AutoselectPos() + autoselectSize
    }

    /** A value that has others behind it takes up an aligned length, otherwise it may take
        up just its size. */
    ghost predicate Lengths()
      reads this
    {
      && |name| <= nameLen && DataPos() % Alignment == 0
      && dataSize == |user| && defaultSize == |fallback| && autoselectSize == |autoselect|
      && (dataLen == dataSize || dataLen == AlignSize(dataSize))
      && (defaultLen == defaultSize || defaultLen == AlignSize(defaultSize))
      && (defaultSize > 0 || autoselectSize > 0 ==> dataLen == AlignSize(dataSize))
      && (autoselectSize > 0 ==> defaultLen == AlignSize(defaultSize))
    }

    /** The allocation is large enough, and holds the name and each value at its place. */
    ghost predicate Valid()
      reads this, mem
    {
      && Lengths()
      && TotalSize() <= mem.Length
      && Holds(mem, header, name)
      && Holds(mem, DataPos(), user)
      && Holds(mem, DefaultPos(), fallback)
      && Holds(mem, AutoselectPos(), autoselect)
    }

    /** Values behind others start aligned. */
    lemma ValuesAligned()
      requires Valid()
      ensures defaultSize > 0 ==> DefaultPos() % Alignment == 0
      ensures autoselectSize > 0 ==> DefaultPos() % Alignment == 0 && AutoselectPos() % Alignment == 0
    {
    }

    /** obs_data_item_create */
    constructor Create(header: nat, name: seq<byte>, data: seq<byte>, kind: int, isDefault: bool, isAutoselect: bool)
      ensures Valid() && fresh(mem) && this.kind == kind && this.name == name + [0]
      ensures (user, fallback, autoselect) == if isDefault then ([], data, []) else if isAutoselect then ([], [], data)
                                              else (data, [], [])
    {
      this.header := header;
      this.name := name + [0];
      var nl := NameAlignSize(header, |name| + 1);
      nameLen := nl;
      var size := |data|;
      mem := new byte[header + nl + size](_ => 0);
      this.kind := kind;
      dataLen, dataSize, defaultLen, defaultSize, autoselectSize := 0, 0, 0, 0, 0;
      user, fallback, autoselect := [], [], [];
      if isDefault {
        defaultLen, defaultSize, fallback := size, size, data;
      } else if isAutoselect {
        autoselectSize, autoselect := size, data;
      } else {
        dataLen, dataSize, user := size, size, data;
      }
      new;
      StoreNew(data);
    }

    /** Writes the name and the only value of a new item. */
    method StoreNew(data: seq<byte>)
      requires Lengths() && TotalSize() <= mem.Length && DataPos() + |data| == TotalSize()
      requires (user, fallback, autoselect) == (data, [], []) || (user, fallback, autoselect) == ([], data, [])
               || (user, fallback, autoselect) == ([], [], data)
      requires dataLen == dataSize && defaultLen == defaultSize
      modifies mem
      ensures Valid()
    {
      Store(header, name);
      Store(DataPos(), data);
      assert Holds(mem, DataPos(), data) && Holds(mem, header, name);
    }

    /** memcpy into the allocation: what lies elsewhere stays. */
    method Store(pos: nat, data: seq<byte>)
      requires pos + |data| <= mem.Length
      modifies mem
      ensures Holds(mem, pos, data)
      ensures forall a: nat, bytes: seq<byte> :: old(Holds(mem, a, bytes)) && (a + |bytes| <= pos || pos + |data| <= a)
                                                 ==> Holds(mem, a, bytes)
    {
      forall i | 0 <= i < |data| {
        mem[pos + i] := data[i];
      }
    }

    /** memmove inside the allocation. */
    method MoveBytes(dst: nat, src: nat, len: nat)
      requires dst + len <= mem.Length && src + len <= mem.Length
      modifies mem
      ensures forall i :: 0 <= i < mem.Length ==>
              mem[i] == if dst <= i < dst + len then old(mem[src + i - dst]) else old(mem[i])
    {
      forall i | 0 <= i < len {
        mem[dst + i] := mem[src + i];
      }
    }

    /** obs_data_item_ensure_capacity: reallocation keeps the old bytes. */
    method EnsureCapacity()
      modifies this`mem
      ensures TotalSize() <= mem.Length && old(mem.Length) <= mem.Length
      ensures mem == old(mem) || fresh(mem)
      ensures forall i :: 0 <= i < old(mem.Length) ==> mem[i] == old(mem[i])
    {
      if mem.Length < TotalSize() {
        var bigger := new byte[TotalSize()];
        var smaller := mem;
        forall i | 0 <= i < smaller.Length {
          bigger[i] := smaller[i];
        }
        mem := bigger;
      }
    }

    /** The first half of obs_data_item_setdata: make room, and move what comes behind. */
    method MakeRoomForUser(data: seq<byte>)
      requires Valid()
      modifies this, mem
      ensures Lengths() && TotalSize() <= mem.Length && (mem == old(mem) || fresh(mem)) && kind == old(kind)
      ensures user == data && fallback == old(fallback) && autoselect == old(autoselect)
      ensures Holds(mem, header, name) && Holds(mem, DefaultPos(), fallback) && Holds(mem, AutoselectPos(), autoselect)
    {
      var oldDefaultPos := DefaultPos();
      dataSize, user := |data|, data;
      dataLen := if defaultSize > 0 || autoselectSize > 0 then AlignSize(|data|) else |data|;
      EnsureCapacity();
      if defaultSize > 0 || autoselectSize > 0 {
        MoveBehindUser(oldDefaultPos);
      }
    }

    /** Moves what lies behind the user value to where its length now puts it. */
    method MoveBehindUser(src: nat)
      requires Lengths() && TotalSize() <= mem.Length && DataPos() <= src
               && src + defaultLen + autoselectSize <= mem.Length
      requires Holds(mem, header, name) && Holds(mem, src, fallback) && Holds(mem, src + defaultLen, autoselect)
      modifies mem
      ensures Holds(mem, header, name) && Holds(mem, DefaultPos(), fallback) && Holds(mem, AutoselectPos(), autoselect)
    {
      MoveBytes(DefaultPos(), src, defaultLen + autoselectSize);
    }

    /** obs_data_item_setdata */
    method SetData(data: seq<byte>, kind: int)
      requires Valid()
      modifies this, mem
      ensures Valid() && (mem == old(mem) || fresh(mem)) && this.kind == kind
      ensures user == data && fallback == old(fallback) && autoselect == old(autoselect)
    {
      this.kind := kind;
      MakeRoomForUser(data);
      if |data| > 0 {
        Store(DataPos(), data);
      }
    }

    /** The first half of obs_data_item_set_default_data. */
    method MakeRoomForDefault(data: seq<byte>)
      requires Valid()
      modifies this, mem
      ensures Lengths() && TotalSize() <= mem.Length && (mem == old(mem) || fresh(mem)) && kind == old(kind)
      ensures user == old(user) && fallback == data && autoselect == old(autoselect)
      ensures Holds(mem, header, name) && Holds(mem, DataPos(), user) && Holds(mem, AutoselectPos(), autoselect)
    {
      var oldAutoselectPos := AutoselectPos();
      defaultSize, fallback := |data|, data;
      defaultLen := if autoselectSize > 0 then AlignSize(|data|) else |data|;
      dataLen := if dataSize > 0 then AlignSize(dataSize) else 0;
      EnsureCapacity();
      if autoselectSize > 0 {
        MoveBytes(AutoselectPos(), oldAutoselectPos, autoselectSize);
      }
    }

    /** obs_data_item_set_default_data */
    method SetDefaultData(data: seq<byte>, kind: int)
      requires Valid()
      modifies this, mem
      ensures Valid() && (mem == old(mem) || fresh(mem)) && this.kind == kind
      ensures user == old(user) && fallback == data && autoselect == old(autoselect)
    {
      this.kind := kind;
      MakeRoomForDefault(data);
      if |data| > 0 {
        Store(DefaultPos(), data);
      }
    }

    /** The first half of obs_data_item_set_autoselect_data. */
    method MakeRoomForAutoselect(data: seq<byte>)
      requires Valid()
      modifies this, mem
      ensures Lengths() && TotalSize() <= mem.Length && (mem == old(mem) || fresh(mem)) && kind == old(kind)
      ensures user == old(user) && fallback == old(fallback) && autoselect == data
      ensures Holds(mem, header, name) && Holds(mem, DataPos(), user) && Holds(mem, DefaultPos(), fallback)
    {
      autoselectSize, autoselect := |data|, data;
      dataLen := if dataSize > 0 then AlignSize(dataSize) else 0;
      defaultLen := if defaultSize > 0 then AlignSize(defaultSize) else 0;
      EnsureCapacity();
    }

    /** obs_data_item_set_autoselect_data */
    method SetAutoselectData(data: seq<byte>, kind: int)
      requires Valid()
      modifies this, mem
      ensures Valid() && (mem == old(mem) || fresh(mem)) && this.kind == kind
      ensures user == old(user) && fallback == old(fallback) && autoselect == data
    {
      this.kind := kind;
      MakeRoomForAutoselect(data);
      if |data| > 0 {
        Store(AutoselectPos(), data);
      }
    }

    /** obs_data_item_unset_user_value */
    method UnsetUserValue()
      requires Valid()
      modifies this, mem
      ensures Valid() && mem == old(mem) && kind == old(kind)
      ensures user == [] && fallback == old(fallback) && autoselect == old(autoselect)
    {
      if dataSize == 0 {
        return;
      }
      var oldPos := DefaultPos();
      dataSize, user := 0, [];
      dataLen := 0;
      if defaultSize > 0 || autoselectSize > 0 {
        MoveBytes(DefaultPos(), oldPos, defaultLen + autoselectSize);
      }
    }

    /** obs_data_item_unset_default_value */
    method UnsetDefaultValue()
      requires Valid()
      modifies this, mem
      ensures Valid() && mem == old(mem) && kind == old(kind)
      ensures user == old(user) && fallback == [] && autoselect == old(autoselect)
    {
      if defaultSize == 0 {
        return;
      }
      var oldPos := AutoselectPos();
      defaultSize, fallback := 0, [];
      defaultLen := 0;
      if autoselectSize > 0 {
        MoveBytes(AutoselectPos(), oldPos, autoselectSize);
      }
    }

    /** obs_data_item_unset_autoselect_value */
    method UnsetAutoselectValue()
      requires Valid()
      modifies this
      ensures Valid() && mem == old(mem) && kind == old(kind)
      ensures user == old(user) && fallback == old(fallback) && autoselect == []
    {
      if autoselectSize == 0 {
        return;
      }
      autoselectSize, autoselect := 0, [];
    }

    /** clear_item */
    method ClearItem()
      requires Valid()
      modifies this, mem
      ensures Valid() && mem == old(mem) && kind == old(kind)
      ensures user == [] && fallback == old(fallback) && autoselect == old(autoselect)
    {
      if dataLen > 0 {
        var size := defaultLen + autoselectSize;
        if size > 0 {
          MoveBytes(DataPos(), DataPos() + dataLen, size);
        }
        dataSize, user := 0, [];
        dataLen := 0;
      }
    }

    /** get_item_data: one pointer serves all three, and finds the user's value, else the
        default, else the automatic choice. */
    method GetItemData() returns (pos: Option<nat>)
      requires Valid()
      ensures pos.None? <==> user == [] && fallback == [] && autoselect == []
      ensures pos.Some? ==>
                Holds(mem, pos.value, if user != [] then user else if fallback != [] then fallback else autoselect)
    {
      if dataSize == 0 && defaultSize == 0 && autoselectSize == 0 {
        return None;
      }
      pos := Some(DataPos());
    }
  }
}
