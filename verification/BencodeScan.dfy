/** The depth-counting scanner that finds where a bencoded dictionary ends
    (src/bt_torrent.cpp, copied in src/bt_extension.cpp), and its agreement with the
    recursive decoder on everything the encoder produces. */
module BencodeScan {
  import opened Wrappers
  import opened Casts
  import opened Bencode

  /** The position right after the byte that brings the depth back to zero, None when the
      bytes run out first.  Strings and integers are skipped as wholes. */
  function Scan(d: Bytes, depth: int): (r: Option<nat>)
    ensures r.Some? ==> 0 < r.value <= |d|
    decreases |d|
  {
    if d == [] then None
    else if d[0] == D || d[0] == L then Plus(1, Scan(d[1..], depth + 1))
    else if d[0] == E then if depth == 1 then Some(1) else Plus(1, Scan(d[1..], depth - 1))
    else
      var next := Skip(d);
      if next >= |d| then None else Plus(next, Scan(d[next..], depth))
  }

  function Plus(n: nat, r: Option<nat>): Option<nat> {
    match r
    case None => None
    case Some(m) => Some(n + m)
  }

  /** The bytes one turn of the loop passes over when it meets no bracket. */
  function Skip(d: Bytes): (n: nat)
    requires d != []
    ensures n > 0
  {
    if IsDigit(d[0]) then
      var n := LeadingDigits(d);
      if n < |d| && d[n] == COLON then n + DigitsValue(d[..n]) + 1 else n + 1
    else if d[0] == I then IndexOf(d, E) + 1
    else 1
  }

  // One turn of the loop, by the byte it meets.

  lemma ScanOpens(d: Bytes, depth: int)
    requires d != [] && (d[0] == D || d[0] == L)
    ensures Scan(d, depth) == Plus(1, Scan(d[1..], depth + 1))
  {
  }

  lemma ScanCloses(d: Bytes, depth: int)
    requires d != [] && d[0] == E
    ensures Scan(d, depth) == if depth == 1 then Some(1) else Plus(1, Scan(d[1..], depth - 1))
  {
  }

  lemma ScanSkips(d: Bytes, depth: int)
    requires d != [] && d[0] != D && d[0] != L && d[0] != E
    ensures Scan(d, depth) == if Skip(d) > |d| then None else Plus(Skip(d), Scan(d[Skip(d)..], depth))
  {
  }

  lemma ScanEmpty(depth: int)
    ensures Scan([], depth) == None
  {
  }

  // ----- the loops

  lemma DigitAppended(s: Bytes, b: Byte)
    requires AllDigits(s) && IsDigit(b)
    ensures AllDigits(s + [b]) && DigitsValue(s + [b]) == DigitsValue(s) * 10 + DigitValue(b)
  {
    hide IsDigit, DigitValue;
    assert (s + [b])[..|s|] == s;
  }

  /** The inner loop that reads a length prefix. */
  method ReadLength(data: Bytes, start: nat) returns (i: nat, len: nat)
    requires start < |data| && IsDigit(data[start])
    ensures start < i <= |data| && i == start + LeadingDigits(data[start..])
    ensures AllDigits(data[start..i]) && len == DigitsValue(data[start..i])
  {
    hide LeadingDigits, DigitsValue, DigitValue, IsDigit;
    i, len := start, 0;
    assert DigitsValue(data[start..i]) == 0 by { NoDigits(data[start..i]); }
    while i < |data| && IsDigit(data[i])
      invariant start <= i <= |data| && (i == start ==> IsDigit(data[start]))
      invariant AllDigits(data[start..i]) && len == DigitsValue(data[start..i])
    {
      DigitAppended(data[start..i], data[i]);
      assert data[start..i + 1] == data[start..i] + [data[i]];
      len := len * 10 + DigitValue(data[i]);
      i := i + 1;
    }
    LeadingDigitsStop(data[start..i], data[i..]);
    assert data[start..] == data[start..i] + data[i..];
  }

  lemma NoDigits(s: Bytes)
    requires s == []
    ensures AllDigits(s) && DigitsValue(s) == 0
  {
  }

  /** The inner loop that passes over an integer. */
  method SkipInteger(data: Bytes, start: nat) returns (i: nat)
    requires start < |data|
    ensures start <= i <= |data| && i == start + IndexOf(data[start..], E)
  {
    i := start;
    while i < |data| && data[i] != E
      invariant start <= i <= |data|
      invariant IndexOf(data[start..], E) == i - start + IndexOf(data[i..], E)
    {
      assert data[i..][1..] == data[i + 1..];
      i := i + 1;
    }
  }

  /** One turn of the scanning loop on anything but a bracket. */
  method SkipElement(data: Bytes, start: nat) returns (next: nat)
    requires start < |data| && data[start] != D && data[start] != L && data[start] != E
    ensures next == start + Skip(data[start..])
  {
    hide LeadingDigits, IndexOf, DigitsValue;
    ghost var d := data[start..];
    var i := start;
    if IsDigit(data[i]) {
      var len;
      i, len := ReadLength(data, i);
      assert d[..i - start] == data[start..i];
      if i < |data| && data[i] == COLON {
        i := i + len;
      }
    } else if data[i] == I {
      i := SkipInteger(data, i);
    }
    next := i + 1;
  }

  /** The scanning loop; `end` is None when the loop ran off the data. */
  method ScanLoop(data: Bytes) returns (end: Option<nat>)
    ensures end == Scan(data, 0)
  {
    hide Scan, Skip;
    var depth, i := 0, 0;
    assert data[0..] == data;
    while i < |data|
      invariant 0 <= i
      invariant i <= |data| ==> Scan(data, 0) == Plus(i, Scan(data[i..], depth))
      invariant i > |data| ==> Scan(data, 0) == None
      decreases |data| - i
    {
      ghost var d := data[i..];
      assert d[1..] == data[i + 1..];
      if data[i] == D || data[i] == L {
        ScanOpens(d, depth);
        depth := depth + 1;
        i := i + 1;
      } else if data[i] == E {
        ScanCloses(d, depth);
        depth := depth - 1;
        if depth == 0 {
          return Some(i + 1);
        }
        i := i + 1;
      } else {
        ScanSkips(d, depth);
        var next := SkipElement(data, i);
        Forward(d);
        assert next <= |data| ==> d[next - i..] == data[next..];
        i := next;
      }
    }
    ScanEmpty(depth);
    assert i == |data| ==> data[i..] == [];
    end := None;
  }

  lemma Forward(d: Bytes)
    requires d != []
    ensures Skip(d) > 0
  {
  }

  /** Torrent::find_bencode_end: the length of the data when there is no end. */
  method FindBencodeEnd(data: Bytes) returns (end: nat)
    ensures end == match Scan(data, 0) { case None => |data| case Some(n) => n }
  {
    var r := ScanLoop(data);
    end := match r case None => |data| case Some(n) => n;
  }

  // ----- agreement with the encoder and the decoder

  lemma {:induction false} LeadingDigitsStop(t: Bytes, s: Bytes)
    requires AllDigits(t) && (s == [] || !IsDigit(s[0]))
    ensures LeadingDigits(t + s) == |t|
    decreases |t|
  {
    hide IsDigit;
    if t == [] {
      assert t + s == s;
    } else {
      assert (t + s)[1..] == t[1..] + s;
      LeadingDigitsStop(t[1..], s);
    }
  }

  /** A string is passed over exactly. */
  lemma SkipString(x: Bytes, s: Bytes)
    ensures Skip(StrText(x) + s) == |StrText(x)|
    ensures IsDigit((StrText(x) + s)[0])
  {
    var t := NatText(|x|);
    var d := StrText(x) + s;
    assert d == t + [COLON] + (x + s);
    assert d == t + ([COLON] + (x + s));
    LeadingDigitsStop(t, [COLON] + (x + s));
    assert d[..|t|] == t;
    NatTextValue(|x|);
    assert d[0] == t[0] && IsDigit(t[0]);
  }

  lemma SkipIntegerText(i: Int64, s: Bytes)
    ensures Skip(Encode(Integer(i)) + s) == |Encode(Integer(i))|
    ensures (Encode(Integer(i)) + s)[0] == I
  {
    var e := Encode(Integer(i));
    NoLetters(0, i);
    assert e + s == ([I] + IntText(i)) + [E] + s;
    IndexOfAfter([I] + IntText(i), E, s);
  }

  /** Inside brackets the scanner passes over any encoded value. */
  lemma {:induction false} ScanPasses(v: Value, s: Bytes, depth: int)
    requires depth >= 1
    ensures Scan(Encode(v) + s, depth) == Plus(|Encode(v)|, Scan(s, depth))
    decreases v
  {
    hide Scan, EncodeItems, EncodeEntries, SortedKeys, Skip, StrText, IntText;
    var e := Encode(v);
    assert (e + s)[|e|..] == s;
    match v
    case Integer(i) =>
      SkipIntegerText(i, s);
      ScanSkips(e + s, depth);
    case Str(x) =>
      SkipString(x, s);
      ScanSkips(e + s, depth);
    case List(items) =>
      ScanPassesItems(items, [E] + s, depth + 1);
      ScanBracketed(L, EncodeItems(items), s, depth);
    case Dict(m) =>
      ScanPassesEntries(v, SortedKeys(m.Keys), [E] + s, depth + 1);
      ScanBracketed(D, EncodeEntries(v, SortedKeys(m.Keys)), s, depth);
  }

  /** Brackets around something the scanner passes over. */
  lemma ScanBracketed(open: Byte, inner: Bytes, s: Bytes, depth: int)
    requires open == L || open == D
    requires Scan(inner + ([E] + s), depth + 1) == Plus(|inner|, Scan([E] + s, depth + 1))
    ensures Scan([open] + inner + [E] + s, depth)
         == if depth == 0 then Some(|inner| + 2) else Plus(|inner| + 2, Scan(s, depth))
  {
    hide Scan;
    var d := [open] + inner + [E] + s;
    assert d[1..] == inner + ([E] + s);
    ScanOpens(d, depth);
    ScanCloses([E] + s, depth + 1);
    assert ([E] + s)[1..] == s;
  }

  lemma {:induction false} ScanPassesItems(items: seq<Value>, s: Bytes, depth: int)
    requires depth >= 1
    ensures Scan(EncodeItems(items) + s, depth) == Plus(|EncodeItems(items)|, Scan(s, depth))
    decreases items
  {
    hide Scan, Encode;
    if items == [] {
      assert EncodeItems(items) + s == s;
    } else {
      var tail := EncodeItems(items[1..]) + s;
      assert EncodeItems(items) + s == Encode(items[0]) + tail;
      ScanPasses(items[0], tail, depth);
      ScanPassesItems(items[1..], s, depth);
    }
  }

  lemma {:induction false} ScanPassesEntries(v: Value, keys: seq<Bytes>, s: Bytes, depth: int)
    requires depth >= 1 && v.Dict? && forall k :: k in keys ==> k in v.entries
    ensures Scan(EncodeEntries(v, keys) + s, depth) == Plus(|EncodeEntries(v, keys)|, Scan(s, depth))
    decreases v, |keys|
  {
    hide Scan, Encode, StrText, Skip;
    if keys == [] {
      assert EncodeEntries(v, keys) + s == s;
    } else {
      var key, value := StrText(keys[0]), Encode(v.entries[keys[0]]);
      var tail := EncodeEntries(v, keys[1..]) + s;
      var d := key + (value + tail);
      assert EncodeEntries(v, keys) + s == d;
      SkipString(keys[0], value + tail);
      assert d[|key|..] == value + tail;
      ScanSkips(d, depth);
      ScanPasses(v.entries[keys[0]], tail, depth);
      ScanPassesEntries(v, keys[1..], s, depth);
    }
  }

  /** On an encoded dictionary or list followed by anything, the scanner stops exactly at its
      end, which is where the decoder stops too. */
  lemma ScannerFindsEnd(v: Value, s: Bytes)
    requires v.Dict? || v.List?
    ensures Scan(Encode(v) + s, 0) == Some(|Encode(v)|)
    ensures Fits(v) ==> ParseValue(Encode(v) + s).Ok? && Scan(Encode(v) + s, 0) == Some(ParseValue(Encode(v) + s).used)
  {
    hide Scan, ParseValue, EncodeItems, EncodeEntries, SortedKeys, Fits;
    if v.List? {
      ScanPassesItems(v.items, [E] + s, 1);
      ScanBracketed(L, EncodeItems(v.items), s, 0);
    } else {
      ScanPassesEntries(v, SortedKeys(v.entries.Keys), [E] + s, 1);
      ScanBracketed(D, EncodeEntries(v, SortedKeys(v.entries.Keys)), s, 0);
    }
    if Fits(v) { RoundTrip(v, s); }
  }
}
