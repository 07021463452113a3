/** The encoder that appends to a shared buffer and the decoder that moves a cursor
    (src/bencode.cpp), proved against the functions of module Bencode. */
module BencodeCodec {
  import opened Wrappers
  import opened Bencode

  // ----- encoding

  predicate Distinct(ks: seq<Bytes>) {
    forall i, j :: 0 <= i < j < |ks| ==> ks[i] != ks[j]
  }

  /** Iterating over the hash map: each key once, in no particular order. */
  method CollectKeys(m: map<Bytes, Value>) returns (keys: seq<Bytes>)
    ensures Distinct(keys) && SameKeys(keys, m.Keys)
  {
    var rest := m.Keys;
    keys := [];
    while rest != {}
      invariant rest <= m.Keys && Distinct(keys) && SameKeys(keys, m.Keys - rest)
      decreases rest
    {
      var k :| k in rest;
      assert forall o :: o in keys + [k] <==> o in keys || o == k;
      keys := keys + [k];
      rest := rest - {k};
    }
  }

  /** Inserting a new key into an ascending sequence. */
  method InsertKey(ks: seq<Bytes>, k: Bytes) returns (r: seq<Bytes>)
    requires Ascending(ks) && k !in ks
    ensures Ascending(r) && forall o :: o in r <==> o == k || o in ks
  {
    var p := 0;
    while p < |ks| && Less(ks[p], k)
      invariant 0 <= p <= |ks| && forall i :: 0 <= i < p ==> Less(ks[i], k)
    {
      p := p + 1;
    }
    r := ks[..p] + [k] + ks[p..];
    forall i | p <= i < |ks| ensures Less(k, ks[i]) {
      LessTotal(ks[p], k);
      assert ks[p] in ks;
      if p < i { LessTransitive(k, ks[p], ks[i]); }
    }
    forall i, j | 0 <= i < j < |r| ensures Less(r[i], r[j]) {
      assert r[i] == if i < p then ks[i] else if i == p then k else ks[i - 1];
      assert r[j] == if j < p then ks[j] else if j == p then k else ks[j - 1];
    }
    assert forall o :: o in ks <==> o in ks[..p] || o in ks[p..];
  }

  /** std::sort on distinct keys. */
  method SortKeys(keys: seq<Bytes>) returns (r: seq<Bytes>)
    requires Distinct(keys)
    ensures Ascending(r) && forall k :: k in r <==> k in keys
  {
    r := [];
    for i := 0 to |keys|
      invariant Ascending(r) && forall k :: k in r <==> k in keys[..i]
    {
      r := InsertKey(r, keys[i]);
      assert keys[..i + 1] == keys[..i] + [keys[i]];
    }
    assert keys[..|keys|] == keys;
  }

  /** The sorted keys are the one ascending sequence of them. */
  method SortDistinct(keys: seq<Bytes>, ghost s: set<Bytes>) returns (r: seq<Bytes>)
    requires Distinct(keys) && SameKeys(keys, s)
    ensures r == SortedKeys(s) && SameKeys(r, s)
  {
    r := SortKeys(keys);
    AscendingUnique(r, SortedKeys(s), s);
  }

  lemma EncodeCases(v: Value)
    ensures v.Integer? ==> Encode(v) == [I] + IntText(v.i) + [E]
    ensures v.Str? ==> Encode(v) == StrText(v.s)
    ensures v.List? ==> Encode(v) == [L] + EncodeItems(v.items) + [E]
    ensures v.Dict? ==> Encode(v) == [D] + EncodeEntries(v, SortedKeys(v.entries.Keys)) + [E]
  {
    hide IntText, StrText, EncodeItems, EncodeEntries, SortedKeys;
  }

  class Encoder {
    var buffer: Bytes

    constructor ()
      ensures buffer == []
    {
      buffer := [];
    }

    /** encode_to_buffer: appends exactly the encoding.  The keys of a dictionary come in
        whatever order the map yields them; the bytes do not depend on it. */
    method EncodeToBuffer(v: Value)
      modifies this
      ensures buffer == old(buffer) + Encode(v)
      decreases v, 2
    {
      hide Encode, EncodeItems, EncodeEntries, IntText, StrText;
      EncodeCases(v);
      match v
      case Integer(i) =>
        buffer := buffer + ([I] + IntText(i) + [E]);
      case Str(s) =>
        AppendString(s);
      case List(items) =>
        buffer := buffer + [L];
        EncodeAll(items);
        buffer := buffer + [E];
      case Dict(m) =>
        EncodeDict(v);
    }

    method AppendString(s: Bytes)
      modifies this
      ensures buffer == old(buffer) + StrText(s)
    {
      buffer := buffer + (NatText(|s|) + [COLON]);
      buffer := buffer + s;
    }

    method EncodeDict(v: Value)
      requires v.Dict?
      modifies this
      ensures buffer == old(buffer) + ([D] + EncodeEntries(v, SortedKeys(v.entries.Keys)) + [E])
      decreases v, 1
    {
      hide Encode, EncodeEntries, SortedKeys, SameKeys, Ascending;
      buffer := buffer + [D];
      var keys := CollectKeys(v.entries);
      keys := SortDistinct(keys, v.entries.Keys);
      AllKeys(v.entries, keys);
      EncodePairs(v, keys);
      buffer := buffer + [E];
    }

    /** The loop over the items of a list. */
    method EncodeAll(items: seq<Value>)
      modifies this
      ensures buffer == old(buffer) + EncodeItems(items)
      decreases items, 0
    {
      hide Encode, EncodeItems;
      NoItems();
      for i := 0 to |items|
        invariant buffer == old(buffer) + EncodeItems(items[..i])
      {
        EncodeToBuffer(items[i]);
        ItemAppended(items, i);
      }
      assert items[..|items|] == items;
    }

    /** The loop over the sorted keys of a dictionary. */
    method EncodePairs(v: Value, keys: seq<Bytes>)
      requires v.Dict? && forall k :: k in keys ==> k in v.entries
      modifies this
      ensures buffer == old(buffer) + EncodeEntries(v, keys)
      decreases v, 0
    {
      hide Encode, EncodeEntries, StrText;
      NoEntries(v);
      for i := 0 to |keys|
        invariant buffer == old(buffer) + EncodeEntries(v, keys[..i])
      {
        var key := keys[i];
        AppendString(key);
        EncodeToBuffer(v.entries[key]);
        EntryAppended(v, keys, i);
      }
      assert keys[..|keys|] == keys;
    }
  }

  lemma NoItems()
    ensures EncodeItems([]) == []
  {
  }

  lemma {:induction false} ItemAppended(items: seq<Value>, i: nat)
    requires i < |items|
    ensures EncodeItems(items[..i + 1]) == EncodeItems(items[..i]) + Encode(items[i])
  {
    hide Encode;
    if i == 0 {
      assert items[..1][1..] == [];
    } else {
      ItemAppended(items[1..], i - 1);
      assert items[..i + 1][1..] == items[1..][..i] && items[..i][1..] == items[1..][..i - 1];
    }
  }

  lemma NoEntries(v: Value)
    requires v.Dict?
    ensures EncodeEntries(v, []) == []
  {
  }

  lemma {:induction false} EntryAppended(v: Value, keys: seq<Bytes>, i: nat)
    requires v.Dict? && i < |keys| && forall k :: k in keys ==> k in v.entries
    ensures EncodeEntries(v, keys[..i + 1]) ==
              EncodeEntries(v, keys[..i]) + StrText(keys[i]) + Encode(v.entries[keys[i]])
    decreases i
  {
    hide Encode, StrText;
    if i == 0 {
      assert keys[..1][1..] == [];
    } else {
      EntryAppended(v, keys[1..], i - 1);
      assert keys[..i + 1][1..] == keys[1..][..i] && keys[..i][1..] == keys[1..][..i - 1];
    }
  }

  /** BencodeValue::encode. */
  method EncodeValue(v: Value) returns (bytes: Bytes)
    ensures bytes == Encode(v)
  {
    var e := new Encoder();
    e.EncodeToBuffer(v);
    bytes := e.buffer;
  }

  // ----- decoding

  function PrependItems(items: seq<Value>, n: nat, r: Result<seq<Value>>): Result<seq<Value>> {
    match r
    case Fail => Fail
    case Ok(vs, m) => Ok(items + vs, n + m)
  }

  function PrependEntries(entries: map<Bytes, Value>, n: nat, r: Result<map<Bytes, Value>>): Result<map<Bytes, Value>> {
    match r
    case Fail => Fail
    case Ok(rest, m) => Ok(entries + rest, n + m)
  }

  lemma PrependNothing(r: Result<seq<Value>>)
    ensures PrependItems([], 0, r) == r
  {
    if r.Ok? { assert [] + r.value == r.value; }
  }

  lemma SubSlice(d: Bytes, start: nat, from: nat, n: nat)
    requires start + from + n <= |d|
    ensures d[start..][from..from + n] == d[start + from..start + from + n]
  {
  }

  /** One turn of the loop in decode_list. */
  lemma {:induction false} ItemTurn(d: Bytes, items: seq<Value>, n: nat)
    requires d != [] && d[0] != E
    ensures ParseValue(d) == Fail ==> PrependItems(items, n, ParseItems(d)) == Fail
    ensures ParseValue(d).Ok? ==>
              var value := ParseValue(d);
              PrependItems(items, n, ParseItems(d))
              == PrependItems(items + [value.value], n + value.used, ParseItems(d[value.used..]))
  {
    hide ParseValue;
    var value := ParseValue(d);
    if value.Ok? && ParseItems(d[value.used..]).Ok? {
      var rest := ParseItems(d[value.used..]).value;
      assert items + ([value.value] + rest) == items + [value.value] + rest;
    }
  }

  /** An entry of n bytes in front of what the rest of a dictionary gives. */
  function OneMore(k: Bytes, v: Value, n: nat, rest: Result<map<Bytes, Value>>): Result<map<Bytes, Value>> {
    if rest.Fail? then Fail else Ok(map[k := v] + rest.value, n + rest.used)
  }

  /** ParseEntries at the start of an entry. */
  lemma {:induction false} EntriesUnfold(d: Bytes)
    requires d != [] && d[0] != E
    ensures ParseString(d) == Fail ==> ParseEntries(d) == Fail
    ensures ParseString(d).Ok? && ParseValue(d[ParseString(d).used..]) == Fail ==> ParseEntries(d) == Fail
    ensures ParseString(d).Ok? && ParseValue(d[ParseString(d).used..]).Ok? ==>
              var key := ParseString(d);
              var value := ParseValue(d[key.used..]);
              var rest := ParseEntries(d[key.used + value.used..]);
              ParseEntries(d) == OneMore(key.value, value.value, key.used + value.used, rest)
  {
    hide ParseValue, ParseString;
  }

  lemma PrependFail(entries: map<Bytes, Value>, n: nat)
    ensures PrependEntries(entries, n, Fail) == Fail
  {
  }

  lemma PrependNoEntries(r: Result<map<Bytes, Value>>)
    ensures PrependEntries(map[], 0, r) == r
  {
    if r.Ok? { assert map[] + r.value == r.value; }
  }

  lemma PrependLast(entries: map<Bytes, Value>, n: nat)
    ensures PrependEntries(entries, n, Ok(map[], 1)) == Ok(entries, n + 1)
  {
    assert entries + map[] == entries;
  }

  /** The dispatch of decode_value on a list. */
  lemma {:induction false} ListStarts(d: Bytes)
    requires d != [] && d[0] == L
    ensures ParseValue(d) == match ParseItems(d[1..]) { case Fail => Fail case Ok(vs, n) => Ok(List(vs), n + 1) }
  {
    hide ParseItems;
  }

  /** The dispatch of decode_value on a dictionary. */
  lemma {:induction false} DictStarts(d: Bytes)
    requires d != [] && d[0] == D
    ensures ParseValue(d) == match ParseEntries(d[1..]) { case Fail => Fail case Ok(m, n) => Ok(Dict(m), n + 1) }
  {
    hide ParseEntries;
  }

  lemma PrependOne(entries: map<Bytes, Value>, n: nat, k: Bytes, v: Value, m: nat, rest: Result<map<Bytes, Value>>)
    ensures PrependEntries(entries, n, OneMore(k, v, m, rest)) == PrependEntries(entries[k := v], n + m, rest)
  {
    if rest.Ok? {
      assert entries + (map[k := v] + rest.value) == entries[k := v] + rest.value;
    }
  }

  lemma IndexHere(d: Bytes, b: Byte)
    requires d == [] || d[0] == b
    ensures IndexOf(d, b) == 0
  {
  }

  lemma IndexStep(d: Bytes, b: Byte)
    requires d != [] && d[0] != b
    ensures IndexOf(d, b) == 1 + IndexOf(d[1..], b)
  {
  }

  class Decoder {
    const data: Bytes
    var pos: nat

    constructor (data: Bytes)
      ensures this.data == data && pos == 0
    {
      this.data := data;
      pos := 0;
    }

    /** What is left to read. */
    ghost function Rest(): Bytes
      reads this
      requires pos <= |data|
    {
      data[pos..]
    }

    /** The loop that collects the text in front of a delimiter. */
    method ReadUntil(stop: Byte) returns (text: Bytes)
      requires pos <= |data|
      modifies this`pos
      ensures old(pos) <= pos <= |data| && pos == old(pos) + IndexOf(data[old(pos)..], stop)
      ensures text == data[old(pos)..pos]
    {
      hide IndexOf;
      ghost var start := pos;
      text := [];
      while pos < |data| && data[pos] != stop
        invariant start <= pos <= |data| && text == data[start..pos]
        invariant IndexOf(data[start..], stop) == pos - start + IndexOf(data[pos..], stop)
      {
        IndexStep(data[pos..], stop);
        assert data[pos..][1..] == data[pos + 1..];
        text := text + [data[pos]];
        pos := pos + 1;
      }
      IndexHere(data[pos..], stop);
    }

    /** decode_integer; None stands for the exception. */
    method DecodeInteger() returns (r: Option<Value>)
      requires pos < |data|
      modifies this`pos
      ensures pos <= |data|
      ensures match ParseInteger(old(Rest()))
              case Fail => r == None
              case Ok(v, n) => r == Some(v) && pos == old(pos) + n
    {
      hide IndexOf, Stoll;
      ghost var d := Rest();
      pos := pos + 1;
      ghost var start := pos;
      assert d[1..] == data[start..];
      var text := ReadUntil(E);
      if pos == |data| || text == [] {
        return None;
      }
      SubSlice(data, start - 1, 1, pos - start);
      pos := pos + 1;
      var x := Stoll(text);
      r := match x case None => None case Some(i) => Some(Integer(i));
    }

    /** decode_string. */
    method DecodeString() returns (r: Option<Bytes>)
      requires pos <= |data|
      modifies this`pos
      ensures pos <= |data|
      ensures match ParseString(old(Rest()))
              case Fail => r == None
              case Ok(s, n) => r == Some(s) && pos == old(pos) + n
    {
      hide IndexOf, Stoull;
      ghost var start := pos;
      var text := ReadUntil(COLON);
      if pos == |data| || text == [] {
        return None;
      }
      SubSlice(data, start, 0, pos - start);
      pos := pos + 1;
      var length := Stoull(text);
      if length.None? || pos + length.value > |data| {
        return None;
      }
      SubSlice(data, start, pos - start, length.value);
      r := Some(data[pos..pos + length.value]);
      pos := pos + length.value;
    }

    /** decode_value. */
    method DecodeValue() returns (r: Option<Value>)
      requires pos <= |data|
      modifies this`pos
      ensures pos <= |data|
      ensures match ParseValue(old(Rest()))
              case Fail => r == None
              case Ok(v, n) => r == Some(v) && pos == old(pos) + n
      decreases |data| - pos, 1
    {
      if pos == |data| {
        return None;
      }
      var first := data[pos];
      if first == I {
        r := DecodeInteger();
      } else if first == L {
        r := DecodeList();
      } else if first == D {
        r := DecodeDict();
      } else if IsDigit(first) {
        var s := DecodeString();
        r := match s case None => None case Some(x) => Some(Str(x));
      } else {
        r := None;
      }
    }

    /** decode_list. */
    method DecodeList() returns (r: Option<Value>)
      requires pos < |data| && data[pos] == L
      modifies this`pos
      ensures pos <= |data|
      ensures match ParseValue(old(Rest()))
              case Fail => r == None
              case Ok(v, n) => r == Some(v) && pos == old(pos) + n
      decreases |data| - pos, 0
    {
      hide ParseValue, ParseItems, PrependItems;
      ListStarts(Rest());
      assert Rest()[1..] == data[pos + 1..];
      pos := pos + 1;
      ghost var start := pos;
      var items: seq<Value> := [];
      PrependNothing(ParseItems(data[start..]));
      while pos < |data| && data[pos] != E
        invariant start <= pos <= |data|
        invariant ParseItems(data[start..]) == PrependItems(items, pos - start, ParseItems(data[pos..]))
        decreases |data| - pos
      {
        ItemTurn(data[pos..], items, pos - start);
        ghost var before := pos;
        var v := DecodeValue();
        if v.None? {
          return None;
        }
        assert data[before..][pos - before..] == data[pos..];
        items := items + [v.value];
      }
      ItemsEnd(data[pos..], items, pos - start);
      if pos == |data| {
        return None;
      }
      pos := pos + 1;
      r := Some(List(items));
    }

    /** decode_dict. */
    method DecodeDict() returns (r: Option<Value>)
      requires pos < |data| && data[pos] == D
      modifies this`pos
      ensures pos <= |data|
      ensures match ParseValue(old(Rest()))
              case Fail => r == None
              case Ok(v, n) => r == Some(v) && pos == old(pos) + n
      decreases |data| - pos, 0
    {
      hide ParseValue, ParseEntries, PrependEntries, OneMore;
      DictStarts(Rest());
      assert Rest()[1..] == data[pos + 1..];
      pos := pos + 1;
      ghost var start := pos;
      var entries: map<Bytes, Value> := map[];
      PrependNoEntries(ParseEntries(data[start..]));
      while pos < |data| && data[pos] != E
        invariant start <= pos <= |data|
        invariant ParseEntries(data[start..]) == PrependEntries(entries, pos - start, ParseEntries(data[pos..]))
        decreases |data| - pos
      {
        PrependFail(entries, pos - start);
        ghost var before := pos;
        var e := DecodeEntry();
        if e.None? {
          return None;
        }
        PrependOne(entries, before - start, e.value.0, e.value.1, pos - before, ParseEntries(data[pos..]));
        entries := entries[e.value.0 := e.value.1];
      }
      EntriesEnd(data[pos..]);
      PrependFail(entries, pos - start);
      PrependLast(entries, pos - start);
      if pos == |data| {
        return None;
      }
      pos := pos + 1;
      r := Some(Dict(entries));
    }

    /** One turn of the loop in decode_dict: a key and its value. */
    method DecodeEntry() returns (e: Option<(Bytes, Value)>)
      requires pos < |data| && data[pos] != E
      modifies this`pos
      ensures pos <= |data|
      ensures e.None? ==> ParseEntries(old(Rest())) == Fail
      ensures e.Some? ==> old(pos) < pos
                          && ParseEntries(old(Rest())) ==
                               OneMore(e.value.0, e.value.1, pos - old(pos), ParseEntries(Rest()))
      decreases |data| - pos, 2
    {
      hide ParseValue, ParseEntries, ParseString, OneMore;
      EntriesUnfold(Rest());
      var k := DecodeString();
      if k.None? {
        return None;
      }
      assert data[old(pos)..][pos - old(pos)..] == data[pos..];
      var v := DecodeValue();
      if v.None? {
        return None;
      }
      assert data[old(pos)..][pos - old(pos)..] == data[pos..];
      e := Some((k.value, v.value));
    }
  }

  lemma ItemsEnd(d: Bytes, items: seq<Value>, n: nat)
    requires d == [] || d[0] == E
    ensures PrependItems(items, n, ParseItems(d)) == if d == [] then Fail else Ok(items, n + 1)
  {
    assert items + [] == items;
  }

  lemma EntriesEnd(d: Bytes)
    requires d == [] || d[0] == E
    ensures ParseEntries(d) == if d == [] then Fail else Ok(map[], 1)
  {
  }

  /** BencodeDecoder::decode. */
  method DecodeBytes(data: Bytes) returns (r: Option<Value>)
    ensures r == match ParseValue(data) { case Fail => None case Ok(v, _) => Some(v) }
  {
    var d := new Decoder(data);
    assert data[0..] == data;
    r := d.DecodeValue();
  }
}
