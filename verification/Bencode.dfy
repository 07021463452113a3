/** Bencoding (src/bencode.cpp): values, the encoder and the recursive decoder as functions,
    and the proof that decoding undoes encoding in front of any suffix. */
module Bencode {
  import opened Wrappers
  import opened Casts

  type Byte = bv8
  type Bytes = seq<Byte>

  const SIZE_LIMIT := 0x1_0000_0000_0000_0000

  datatype Value =
    | Integer(i: Int64)
    | Str(s: Bytes)
    | List(items: seq<Value>)
    | Dict(entries: map<Bytes, Value>)

  /** Every string is short enough for its length to be a size_t. */
  predicate Fits(v: Value) {
    match v
    case Integer(_) => true
    case Str(s) => |s| < SIZE_LIMIT
    case List(items) => forall i :: 0 <= i < |items| ==> Fits(items[i])
    case Dict(m) => forall k :: k in m ==> |k| < SIZE_LIMIT && Fits(m[k])
  }

  // ----- bytes

  const I: Byte := 0x69
  const L: Byte := 0x6C
  const D: Byte := 0x64
  const E: Byte := 0x65
  const COLON: Byte := 0x3A
  const MINUS: Byte := 0x2D
  const PLUS: Byte := 0x2B

  function DigitByte(d: nat): (b: Byte)
    requires d < 10
    ensures IsDigit(b) && DigitValue(b) == d
  {
    if d == 0 then 0x30 else if d == 1 then 0x31 else if d == 2 then 0x32 else if d == 3 then 0x33
    else if d == 4 then 0x34 else if d == 5 then 0x35 else if d == 6 then 0x36 else if d == 7 then 0x37
    else if d == 8 then 0x38 else 0x39
  }

  predicate IsDigit(b: Byte) { 0x30 <= b <= 0x39 }

  function DigitValue(b: Byte): (d: nat)
    requires IsDigit(b)
    ensures d < 10
  {
    if b == 0x30 then 0 else if b == 0x31 then 1 else if b == 0x32 then 2 else if b == 0x33 then 3
    else if b == 0x34 then 4 else if b == 0x35 then 5 else if b == 0x36 then 6 else if b == 0x37 then 7
    else if b == 0x38 then 8 else 9
  }

  predicate AllDigits(s: Bytes) { forall i :: 0 <= i < |s| ==> IsDigit(s[i]) }

  // ----- numbers as text

  /** std::to_string of an unsigned number. */
  function NatText(n: nat): (s: Bytes)
    ensures |s| > 0 && AllDigits(s)
  {
    if n < 10 then [DigitByte(n)] else NatText(n / 10) + [DigitByte(n % 10)]
  }

  function IntText(i: int): Bytes {
    if i < 0 then [MINUS] + NatText(-i) else NatText(i)
  }

  function DigitsValue(s: Bytes): nat
    requires AllDigits(s)
  {
    if s == [] then 0 else DigitsValue(s[..|s| - 1]) * 10 + DigitValue(s[|s| - 1])
  }

  lemma {:induction false} NatTextValue(n: nat)
    ensures DigitsValue(NatText(n)) == n
  {
    var s := NatText(n);
    if n < 10 {
      assert s[..|s| - 1] == [];
    } else {
      NatTextValue(n / 10);
      assert s[..|s| - 1] == NatText(n / 10);
    }
  }

  predicate IsSpace(b: Byte) { b == 0x20 || 0x09 <= b <= 0x0D }

  function SkipSpaces(s: Bytes): Bytes {
    if s != [] && IsSpace(s[0]) then SkipSpaces(s[1..]) else s
  }

  function LeadingDigits(s: Bytes): (n: nat)
    ensures n <= |s| && AllDigits(s[..n])
  {
    if s == [] || !IsDigit(s[0]) then 0
    else
      var n := 1 + LeadingDigits(s[1..]);
      assert s[..n] == [s[0]] + s[1..][..n - 1];
      n
  }

  /** The shared part of std::stoll and std::stoull: blanks, a sign, digits; what follows the
      digits is ignored. */
  function SignedPrefix(s: Bytes): Option<(bool, nat)> {
    var t := SkipSpaces(s);
    var neg := t != [] && t[0] == MINUS;
    var u := if t != [] && (t[0] == MINUS || t[0] == PLUS) then t[1..] else t;
    var n := LeadingDigits(u);
    if n == 0 then None else Some((neg, DigitsValue(u[..n])))
  }

  function Stoll(s: Bytes): Option<Int64> {
    match SignedPrefix(s)
    case None => None
    case Some((neg, m)) =>
      var x := if neg then 0 - m else m;
      if INT64_MIN <= x <= INT64_MAX then Some(x) else None
  }

  /** std::stoull negates modulo 2^64 after a minus sign. */
  function Stoull(s: Bytes): Option<nat> {
    match SignedPrefix(s)
    case None => None
    case Some((neg, m)) =>
      if m >= SIZE_LIMIT then None else Some(if neg then (SIZE_LIMIT - m) % SIZE_LIMIT else m)
  }

  lemma {:induction false} LeadingDigitsAll(s: Bytes)
    requires AllDigits(s)
    ensures LeadingDigits(s) == |s|
  {
    if s != [] {
      assert AllDigits(s[1..]);
      LeadingDigitsAll(s[1..]);
    }
  }

  lemma NatTextParses(n: nat)
    ensures SignedPrefix(NatText(n)) == Some((false, n))
  {
    var s := NatText(n);
    assert IsDigit(s[0]);
    LeadingDigitsAll(s);
    NatTextValue(n);
    assert s[..|s|] == s;
  }

  lemma IntTextParses(i: Int64)
    ensures Stoll(IntText(i)) == Some(i)
  {
    hide NatText, DigitsValue, LeadingDigits;
    var n: nat := if i >= 0 then i else 0 - i;
    var s := NatText(n);
    LeadingDigitsAll(s);
    NatTextValue(n);
    assert s[..|s|] == s;
    if i < 0 {
      assert IntText(i)[1..] == s;
    } else {
      assert IsDigit(s[0]);
    }
  }

  // ----- the order of keys

  /** std::string's operator<: lexicographic on unsigned bytes. */
  predicate Less(a: Bytes, b: Bytes) {
    b != [] && (a == [] || a[0] < b[0] || (a[0] == b[0] && Less(a[1..], b[1..])))
  }

  lemma {:induction false} LessIrreflexive(a: Bytes)
    ensures !Less(a, a)
  {
    if a != [] { LessIrreflexive(a[1..]); }
  }

  lemma {:induction false} LessTransitive(a: Bytes, b: Bytes, c: Bytes)
    requires Less(a, b) && Less(b, c)
    ensures Less(a, c)
  {
    if a != [] && a[0] == b[0] == c[0] { LessTransitive(a[1..], b[1..], c[1..]); }
  }

  lemma {:induction false} LessTotal(a: Bytes, b: Bytes)
    ensures a == b || Less(a, b) || Less(b, a)
  {
    if a != [] && b != [] && a[0] == b[0] {
      LessTotal(a[1..], b[1..]);
      assert a == [a[0]] + a[1..] && b == [b[0]] + b[1..];
    }
  }

  predicate Ascending(ks: seq<Bytes>) {
    forall i, j :: 0 <= i < j < |ks| ==> Less(ks[i], ks[j])
  }

  ghost predicate SameKeys(ks: seq<Bytes>, s: set<Bytes>) {
    forall k :: k in ks <==> k in s
  }

  /** There is only one ascending sequence of a given set of keys. */
  lemma {:induction false} AscendingUnique(a: seq<Bytes>, b: seq<Bytes>, s: set<Bytes>)
    requires Ascending(a) && Ascending(b) && SameKeys(a, s) && SameKeys(b, s)
    ensures a == b
    decreases |a|
  {
    FirstIsKey(a, s);
    FirstIsKey(b, s);
    if s != {} {
      var k :| k in s;
      assert k in a && k in b;
      assert b[0] in a && a[0] in b;
      var i :| 0 <= i < |a| && a[i] == b[0];
      var j :| 0 <= j < |b| && b[j] == a[0];
      LessIrreflexive(a[0]);
      if i > 0 && j > 0 { LessTransitive(a[0], b[0], a[0]); }
      assert a[0] == b[0];
      AscendingTail(a, s);
      AscendingTail(b, s);
      AscendingUnique(a[1..], b[1..], s - {a[0]});
    }
  }

  lemma FirstIsKey(a: seq<Bytes>, s: set<Bytes>)
    requires SameKeys(a, s)
    ensures a != [] ==> a[0] in s
  {
    if a != [] { assert a[0] in a; }
  }

  lemma AscendingTail(a: seq<Bytes>, s: set<Bytes>)
    requires a != [] && Ascending(a) && SameKeys(a, s)
    ensures Ascending(a[1..]) && SameKeys(a[1..], s - {a[0]})
  {
    LessIrreflexive(a[0]);
    assert forall k :: k in a <==> k == a[0] || k in a[1..];
    assert a[0] !in a[1..];
  }

  lemma {:induction false} LeastKey(s: set<Bytes>) returns (m: Bytes)
    requires s != {}
    ensures m in s && forall k :: k in s && k != m ==> Less(m, k)
  {
    var k :| k in s;
    if s == {k} {
      m := k;
    } else {
      var rest := s - {k};
      var m' := LeastKey(rest);
      LessTotal(k, m');
      if Less(k, m') {
        m := k;
        forall o | o in s && o != k ensures Less(k, o) {
          if o != m' { LessTransitive(k, m', o); }
        }
      } else {
        m := m';
      }
    }
  }

  lemma LeastKeyExists(s: set<Bytes>)
    requires s != {}
    ensures exists m :: m in s && forall k :: k in s && k != m ==> Less(m, k)
  {
    var m := LeastKey(s);
  }

  /** The keys of a dictionary in ascending order. */
  ghost function SortedKeys(s: set<Bytes>): (ks: seq<Bytes>)
    ensures SameKeys(ks, s) && Ascending(ks)
  {
    hide Less;
    if s == {} then []
    else
      LeastKeyExists(s);
      var m :| m in s && forall k :: k in s && k != m ==> Less(m, k);
      var rest := SortedKeys(s - {m});
      LeastInFront(s, m, rest);
      [m] + rest
  }

  lemma LeastInFront(s: set<Bytes>, m: Bytes, rest: seq<Bytes>)
    requires m in s && (forall k :: k in s && k != m ==> Less(m, k)) && SameKeys(rest, s - {m}) && Ascending(rest)
    ensures SameKeys([m] + rest, s) && Ascending([m] + rest)
  {
    hide Less;
    assert forall k :: k in [m] + rest <==> k == m || k in rest;
    assert forall i :: 0 < i < |[m] + rest| ==> ([m] + rest)[i] == rest[i - 1];
    assert forall i :: 0 <= i < |rest| ==> rest[i] in rest;
  }

  // ----- encoding

  function StrText(s: Bytes): Bytes {
    NatText(|s|) + [COLON] + s
  }

  ghost function Encode(v: Value): Bytes
    decreases v
  {
    match v
    case Integer(i) => [I] + IntText(i) + [E]
    case Str(s) => StrText(s)
    case List(items) => [L] + EncodeItems(items) + [E]
    case Dict(m) => [D] + EncodeEntries(v, SortedKeys(m.Keys)) + [E]
  }

  ghost function EncodeItems(items: seq<Value>): Bytes
    decreases items
  {
    if items == [] then [] else Encode(items[0]) + EncodeItems(items[1..])
  }

  ghost function EncodeEntries(v: Value, keys: seq<Bytes>): Bytes
    requires v.Dict? && forall k :: k in keys ==> k in v.entries
    decreases v, |keys|
  {
    if keys == [] then []
    else StrText(keys[0]) + Encode(v.entries[keys[0]]) + EncodeEntries(v, keys[1..])
  }

  // ----- decoding

  /** A decoding result: the value and the number of bytes it took, or the exception. */
  datatype Result<+T> = Fail | Ok(value: T, used: nat)

  /** The first position of b in s, |s| when there is none. */
  function IndexOf(s: Bytes, b: Byte): (n: nat)
    ensures n <= |s| && (n < |s| ==> s[n] == b) && forall i :: 0 <= i < n ==> s[i] != b
  {
    if s == [] || s[0] == b then 0 else 1 + IndexOf(s[1..], b)
  }

  /** decode_integer, called on an 'i'. */
  function ParseInteger(d: Bytes): (r: Result<Value>)
    requires d != []
    ensures r.Ok? ==> 0 < r.used <= |d|
  {
    var n := IndexOf(d[1..], E);
    if n == |d| - 1 || n == 0 then Fail
    else match Stoll(d[1..n + 1])
      case None => Fail
      case Some(x) => Ok(Integer(x), n + 2)
  }

  /** decode_string. */
  function ParseString(d: Bytes): (r: Result<Bytes>)
    ensures r.Ok? ==> 0 < r.used <= |d|
  {
    var n := IndexOf(d, COLON);
    if n == |d| || n == 0 then Fail
    else match Stoull(d[..n])
      case None => Fail
      case Some(len) => if n + 1 + len > |d| then Fail else Ok(d[n + 1..n + 1 + len], n + 1 + len)
  }

  /** decode_value. */
  function ParseValue(d: Bytes): (r: Result<Value>)
    ensures r.Ok? ==> 0 < r.used <= |d|
    decreases |d|, 1
  {
    if d == [] then Fail
    else if d[0] == I then ParseInteger(d)
    else if d[0] == L then
      match ParseItems(d[1..])
      case Fail => Fail
      case Ok(vs, n) => Ok(List(vs), n + 1)
    else if d[0] == D then
      match ParseEntries(d[1..])
      case Fail => Fail
      case Ok(m, n) => Ok(Dict(m), n + 1)
    else if IsDigit(d[0]) then
      match ParseString(d)
      case Fail => Fail
      case Ok(s, n) => Ok(Str(s), n)
    else Fail
  }

  /** The loop of decode_list and the closing 'e'. */
  function ParseItems(d: Bytes): (r: Result<seq<Value>>)
    ensures r.Ok? ==> 0 < r.used <= |d|
    decreases |d|, 2
  {
    if d == [] then Fail
    else if d[0] == E then Ok([], 1)
    else match ParseValue(d)
      case Fail => Fail
      case Ok(v, n) =>
        match ParseItems(d[n..])
        case Fail => Fail
        case Ok(vs, m) => Ok([v] + vs, n + m)
  }

  /** The loop of decode_dict and the closing 'e'; a repeated key keeps its last value. */
  function ParseEntries(d: Bytes): (r: Result<map<Bytes, Value>>)
    ensures r.Ok? ==> 0 < r.used <= |d|
    decreases |d|, 2
  {
    if d == [] then Fail
    else if d[0] == E then Ok(map[], 1)
    else match ParseString(d)
      case Fail => Fail
      case Ok(k, n) =>
        match ParseValue(d[n..])
        case Fail => Fail
        case Ok(v, m) =>
          match ParseEntries(d[n + m..])
          case Fail => Fail
          case Ok(rest, l) => Ok(map[k := v] + rest, n + m + l)
  }

  // ----- decoding undoes encoding

  lemma {:induction false} IndexOfAfter(a: Bytes, b: Byte, rest: Bytes)
    requires b !in a
    ensures IndexOf(a + [b] + rest, b) == |a|
  {
    var s := a + [b] + rest;
    if a != [] {
      assert s[1..] == a[1..] + [b] + rest;
      assert s[0] == a[0];
      IndexOfAfter(a[1..], b, rest);
    }
  }

  lemma NoLetters(n: nat, i: int)
    ensures COLON !in NatText(n) && E !in IntText(i)
  {
    assert AllDigits(NatText(n));
    assert i < 0 ==> AllDigits(NatText(-i));
    assert i >= 0 ==> AllDigits(NatText(i));
  }

  lemma IntegerRoundTrip(i: Int64, s: Bytes)
    ensures ParseValue(Encode(Integer(i)) + s) == Ok(Integer(i), |Encode(Integer(i))|)
  {
    var e := Encode(Integer(i));
    var t := IntText(i);
    NoLetters(0, i);
    IndexOfAfter(t, E, s);
    assert (e + s)[1..] == t + [E] + s;
    assert (e + s)[1..|t| + 1] == t;
    IntTextParses(i);
  }

  lemma StringRoundTrip(x: Bytes, s: Bytes)
    requires |x| < SIZE_LIMIT
    ensures ParseString(StrText(x) + s) == Ok(x, |StrText(x)|)
    ensures |StrText(x)| > 0 && IsDigit((StrText(x) + s)[0])
  {
    var t := NatText(|x|);
    NoLetters(|x|, 0);
    var d := StrText(x) + s;
    assert d == t + [COLON] + (x + s);
    IndexOfAfter(t, COLON, x + s);
    assert d[..|t|] == t;
    NatTextParses(|x|);
    assert d[|t| + 1..|t| + 1 + |x|] == x;
    assert d[0] == t[0] && IsDigit(t[0]);
  }

  lemma ListAround(items: seq<Value>, s: Bytes)
    requires ParseItems(EncodeItems(items) + [E] + s) == Ok(items, |EncodeItems(items)| + 1)
    ensures ParseValue(Encode(List(items)) + s) == Ok(List(items), |Encode(List(items))|)
  {
    hide ParseItems, EncodeItems;
    assert (Encode(List(items)) + s)[1..] == EncodeItems(items) + [E] + s;
  }

  lemma DictAround(v: Value, s: Bytes)
    requires v.Dict?
    requires ParseEntries(EncodeEntries(v, SortedKeys(v.entries.Keys)) + [E] + s)
          == Ok(v.entries, |EncodeEntries(v, SortedKeys(v.entries.Keys))| + 1)
    ensures ParseValue(Encode(v) + s) == Ok(v, |Encode(v)|)
  {
    hide ParseEntries, EncodeEntries, SortedKeys;
    assert (Encode(v) + s)[1..] == EncodeEntries(v, SortedKeys(v.entries.Keys)) + [E] + s;
  }

  /** Decoding an encoding in front of anything gives the value back and stops right after it. */
  lemma {:induction false} RoundTrip(v: Value, s: Bytes)
    requires Fits(v)
    ensures ParseValue(Encode(v) + s) == Ok(v, |Encode(v)|)
    ensures |Encode(v)| > 0 && Encode(v)[0] != E
    decreases v
  {
    hide ParseValue, ParseItems, ParseEntries, SortedKeys, Ascending, Only, EncodeItems, EncodeEntries;
    match v
    case Integer(i) => IntegerRoundTrip(i, s);
    case Str(x) => StrAround(x, s);
    case List(items) =>
      ItemsRoundTrip(items, s);
      ListAround(items, s);
    case Dict(m) =>
      var keys := SortedKeys(m.Keys);
      AscendingDistinct(keys);
      EntriesRoundTrip(v, keys, s);
      AllKeys(m, keys);
      DictAround(v, s);
  }

  lemma StrAround(x: Bytes, s: Bytes)
    requires |x| < SIZE_LIMIT
    ensures ParseValue(Encode(Str(x)) + s) == Ok(Str(x), |Encode(Str(x))|)
    ensures |Encode(Str(x))| > 0 && Encode(Str(x))[0] != E
  {
    hide ParseString, StrText;
    StringRoundTrip(x, s);
    StringRoundTrip(x, []);
    assert StrText(x) + [] == StrText(x);
    StringStarts(StrText(x) + s);
    StringStarts(StrText(x));
  }

  /** The dispatch of decode_value on a digit. */
  lemma {:induction false} StringStarts(d: Bytes)
    requires ParseString(d).Ok? && d != [] && IsDigit(d[0])
    ensures ParseValue(d) == Ok(Str(ParseString(d).value), ParseString(d).used)
    ensures d[0] != E
  {
    hide ParseString, ParseInteger;
  }

  /** The entries of the given keys. */
  function Only(m: map<Bytes, Value>, keys: seq<Bytes>): map<Bytes, Value> {
    map k | k in keys && k in m :: m[k]
  }

  lemma AllKeys(m: map<Bytes, Value>, keys: seq<Bytes>)
    requires SameKeys(keys, m.Keys)
    ensures Only(m, keys) == m && forall k :: k in keys ==> k in m
  {
  }

  lemma {:induction false} ItemsRoundTrip(items: seq<Value>, s: Bytes)
    requires forall i :: 0 <= i < |items| ==> Fits(items[i])
    ensures ParseItems(EncodeItems(items) + [E] + s) == Ok(items, |EncodeItems(items)| + 1)
    decreases items
  {
    hide ParseItems, ParseValue, Encode, Fits;
    if items == [] {
      assert EncodeItems(items) + [E] + s == [E] + s;
      EndOfItems(s);
    } else {
      var head := Encode(items[0]);
      var tail := EncodeItems(items[1..]) + [E] + s;
      var d := head + tail;
      assert EncodeItems(items) + [E] + s == d;
      RoundTrip(items[0], tail);
      ParsedSome(d);
      assert d[|head|..] == tail;
      ItemsRoundTrip(items[1..], s);
      ItemStep(d, items[0], |head|, items[1..], |EncodeItems(items[1..])| + 1);
      assert [items[0]] + items[1..] == items;
    }
  }

  lemma EndOfItems(s: Bytes)
    ensures ParseItems([E] + s) == Ok([], 1)
  {
  }

  lemma ParsedSome(d: Bytes)
    requires ParseValue(d).Ok?
    ensures d != [] && 0 < ParseValue(d).used <= |d|
  {
  }

  lemma {:induction false} ItemStep(d: Bytes, v: Value, n: nat, rest: seq<Value>, m: nat)
    requires d != [] && d[0] != E && n <= |d|
    requires ParseValue(d) == Ok(v, n) && ParseItems(d[n..]) == Ok(rest, m)
    ensures ParseItems(d) == Ok([v] + rest, n + m)
  {
    hide ParseValue;
  }

  lemma AscendingDistinct(ks: seq<Bytes>)
    requires Ascending(ks)
    ensures forall i, j :: 0 <= i < j < |ks| ==> ks[i] != ks[j]
  {
    forall i, j | 0 <= i < j < |ks| ensures ks[i] != ks[j] {
      LessIrreflexive(ks[i]);
    }
  }

  lemma FirstKey(m: map<Bytes, Value>, keys: seq<Bytes>)
    requires keys != [] && forall k :: k in keys ==> k in m
    requires forall i, j :: 0 <= i < j < |keys| ==> keys[i] != keys[j]
    ensures map[keys[0] := m[keys[0]]] + Only(m, keys[1..]) == Only(m, keys)
  {
    assert forall k :: k in keys <==> k == keys[0] || k in keys[1..];
    assert keys[0] !in keys[1..];
  }

  lemma FitsEntry(v: Value, k: Bytes)
    requires v.Dict? && Fits(v) && k in v.entries
    ensures |k| < SIZE_LIMIT && Fits(v.entries[k])
  {
  }

  lemma EntriesSplit(v: Value, keys: seq<Bytes>, s: Bytes)
    requires v.Dict? && (forall k :: k in keys ==> k in v.entries) && keys != []
    ensures var key, value := StrText(keys[0]), Encode(v.entries[keys[0]]);
            var tail := EncodeEntries(v, keys[1..]) + [E] + s;
            var d := EncodeEntries(v, keys) + [E] + s;
            && d == key + (value + tail) && d[|key|..] == value + tail && d[|key| + |value|..] == tail
            && |EncodeEntries(v, keys)| == |key| + |value| + |EncodeEntries(v, keys[1..])|
  {
    hide Encode, StrText;
    Regroup(StrText(keys[0]), Encode(v.entries[keys[0]]), EncodeEntries(v, keys[1..]), [E], s);
  }

  lemma Regroup(a: Bytes, b: Bytes, c: Bytes, e: Bytes, s: Bytes)
    ensures var d := (a + b + c) + e + s;
            d == a + (b + (c + e + s)) && d[|a|..] == b + (c + e + s) && d[|a| + |b|..] == c + e + s
  {
  }

  lemma {:induction false} EntriesRoundTrip(v: Value, keys: seq<Bytes>, s: Bytes)
    requires v.Dict? && Fits(v)
    requires forall k :: k in keys ==> k in v.entries
    requires forall i, j :: 0 <= i < j < |keys| ==> keys[i] != keys[j]
    ensures ParseEntries(EncodeEntries(v, keys) + [E] + s) == Ok(Only(v.entries, keys), |EncodeEntries(v, keys)| + 1)
    decreases v, |keys|
  {
    hide ParseString, ParseValue, Encode, StrText, ParseEntries, Only, Fits;
    var m := v.entries;
    if keys == [] {
      assert EncodeEntries(v, keys) + [E] + s == [E] + s;
      EndParses(s);
      OnlyNone(m);
    } else {
      EntriesSplit(v, keys, s);
      hide EncodeEntries;
      var key, value := StrText(keys[0]), Encode(m[keys[0]]);
      var tail := EncodeEntries(v, keys[1..]) + [E] + s;
      FitsEntry(v, keys[0]);
      StringRoundTrip(keys[0], value + tail);
      RoundTrip(m[keys[0]], tail);
      EntriesRoundTrip(v, keys[1..], s);
      FirstKey(m, keys);
      EntryStep(EncodeEntries(v, keys) + [E] + s, keys[0], |key|, m[keys[0]], |value|, Only(m, keys[1..]),
                |EncodeEntries(v, keys[1..])| + 1);
    }
  }

  lemma OnlyNone(m: map<Bytes, Value>)
    ensures Only(m, []) == map[]
  {
  }

  lemma EndParses(s: Bytes)
    ensures ParseEntries([E] + s) == Ok(map[], 1)
  {
  }

  lemma {:induction false} EntryStep(d: Bytes, k: Bytes, n: nat, v: Value, m: nat, rest: map<Bytes, Value>, l: nat)
    requires d != [] && IsDigit(d[0]) && n + m <= |d|
    requires ParseString(d) == Ok(k, n) && ParseValue(d[n..]) == Ok(v, m) && ParseEntries(d[n + m..]) == Ok(rest, l)
    ensures ParseEntries(d) == Ok(map[k := v] + rest, n + m + l)
  {
    hide ParseString, ParseValue;
  }

  /** The encoding is prefix-free, hence injective: two encodings that start the same byte
      string are the same encoding of the same value. */
  lemma EncodingPrefixFree(v: Value, w: Value, s: Bytes, t: Bytes)
    requires Fits(v) && Fits(w) && Encode(v) + s == Encode(w) + t
    ensures v == w && s == t
  {
    RoundTrip(v, s);
    RoundTrip(w, t);
    assert s == (Encode(v) + s)[|Encode(v)|..];
    assert t == (Encode(w) + t)[|Encode(w)|..];
  }

  lemma EncodingInjective(v: Value, w: Value)
    requires Fits(v) && Fits(w) && Encode(v) == Encode(w)
    ensures v == w
  {
    EncodingPrefixFree(v, w, [], []);
  }
}
