/**
  Bencoding of generic values (BEP 3, section "bencoding"): the printer, the strict parser of
  generic values and the lenient one that only finds where a value ends, as functions; and the
  theorem that printing and strict parsing are inverse to each other.
*/
module Bencode {
  import opened Outcomes

  newtype byte = x: int | 0 <= x < 256
  type bytes = seq<byte>

  const MINUS: byte := 45
  const PLUS: byte := 43
  const ZERO: byte := 48
  const NINE: byte := 57
  const COLON: byte := 58
  const DICT: byte := 100
  const END: byte := 101
  const INT: byte := 105
  const LIST: byte := 108

  const MAX_INT64: nat := 0x7fff_ffff_ffff_ffff

  datatype Value = Int(i: int) | Str(s: bytes) | List(items: seq<Value>) | Dict(entries: map<bytes, Value>)

  // ---------- byte order and sorted keys ----------

  /** The order of Go strings. */
  predicate Less(a: bytes, b: bytes) {
    if a == [] || b == [] then a == [] && b != []
    else a[0] < b[0] || (a[0] == b[0] && Less(a[1..], b[1..]))
  }

  /** Exactly one of the three holds. */
  lemma {:induction false} LessTotal(a: bytes, b: bytes)
    ensures !(Less(a, b) && Less(b, a)) && (Less(a, b) || Less(b, a) ==> a != b)
    ensures Less(a, b) || Less(b, a) || a == b
    decreases |a|
  {
    if a != [] && b != [] {
      LessTotal(a[1..], b[1..]);
      assert a == [a[0]] + a[1..] && b == [b[0]] + b[1..];
    }
  }

  lemma {:induction false} LessTransitive(a: bytes, b: bytes, c: bytes)
    requires Less(a, b) && Less(b, c)
    ensures Less(a, c)
    decreases |a|
  {
    if a != [] && a[0] == b[0] == c[0] {
      LessTransitive(a[1..], b[1..], c[1..]);
    }
  }

  predicate Ascending(ks: seq<bytes>) {
    forall i, j :: 0 <= i < j < |ks| ==> Less(ks[i], ks[j])
  }

  /** Puts a new key in its place. */
  function Insert(k: bytes, ks: seq<bytes>): (r: seq<bytes>)
    requires Ascending(ks) && k !in ks
    ensures Ascending(r) && forall x :: x in r <==> x == k || x in ks
  {
    if ks == [] then [k]
    else
      assert forall x :: x in ks <==> x == ks[0] || x in ks[1..];
      if Less(k, ks[0]) then
        InsertFirst(k, ks);
        [k] + ks
      else
        LessTotal(k, ks[0]);
        InsertLater(ks[0], k, Insert(k, ks[1..]));
        [ks[0]] + Insert(k, ks[1..])
  }

  lemma InsertFirst(k: bytes, ks: seq<bytes>)
    requires Ascending(ks) && ks != [] && Less(k, ks[0])
    ensures Ascending([k] + ks)
  {
    forall j | 0 < j < |ks| ensures Less(k, ks[j]) {
      LessTransitive(k, ks[0], ks[j]);
    }
  }

  lemma InsertLater(head: bytes, k: bytes, tail: seq<bytes>)
    requires Ascending(tail) && forall x :: x in tail ==> Less(head, x)
    ensures Ascending([head] + tail)
  {
  }

  /** The keys of a map in ascending order. */
  ghost function Sorted(keys: set<bytes>): (ks: seq<bytes>)
    ensures Ascending(ks) && forall k :: k in ks <==> k in keys
  {
    if keys == {} then []
    else
      var k :| k in keys;
      Insert(k, Sorted(keys - {k}))
  }

  lemma EmptyAlike(a: seq<bytes>, b: seq<bytes>)
    requires forall k :: k in a <==> k in b
    ensures a == [] <==> b == []
  {
    assert a != [] ==> a[0] in a;
    assert b != [] ==> b[0] in b;
  }

  /** There is only one such order. */
  lemma {:induction false} SortedUnique(a: seq<bytes>, b: seq<bytes>)
    requires Ascending(a) && Ascending(b) && forall k :: k in a <==> k in b
    ensures a == b
  {
    EmptyAlike(a, b);
    if a != [] {
      assert a[0] in b && b[0] in a;
      LessTotal(a[0], b[0]);
      assert a[0] == b[0];
      forall k ensures k in a[1..] <==> k in b[1..] {
        LessTotal(a[0], k);
        assert k in a[1..] ==> k in a && Less(a[0], k);
        assert k in b[1..] ==> k in b && Less(b[0], k);
        assert k in a ==> k == a[0] || k in a[1..];
        assert k in b ==> k == b[0] || k in b[1..];
      }
      SortedUnique(a[1..], b[1..]);
      assert a == [a[0]] + a[1..] && b == [b[0]] + b[1..];
    }
  }

  // ---------- numbers ----------

  predicate IsDigit(b: byte) {
    ZERO <= b <= NINE
  }

  predicate AllDigits(ds: bytes) {
    forall i :: 0 <= i < |ds| ==> IsDigit(ds[i])
  }

  function Digits(n: nat): (ds: bytes)
    ensures ds != [] && AllDigits(ds) && (n > 0 ==> ds[0] != ZERO)
  {
    if n < 10 then [(48 + n) as byte] else Digits(n / 10) + [(48 + n % 10) as byte]
  }

  function Decimal(i: int): (t: bytes)
    ensures t != []
  {
    if i < 0 then [MINUS] + Digits(-i) else Digits(i)
  }

  function Number(ds: bytes): nat
    requires AllDigits(ds)
  {
    if ds == [] then 0 else 10 * Number(ds[..|ds| - 1]) + (ds[|ds| - 1] as int - 48)
  }

  lemma {:induction false} NumberOfDigits(n: nat)
    ensures Number(Digits(n)) == n
  {
    var ds := Digits(n);
    if n >= 10 {
      NumberOfDigits(n / 10);
      assert ds[..|ds| - 1] == Digits(n / 10);
    } else {
      assert ds[..0] == [];
      assert Number(ds) == 10 * Number(ds[..0]) + (ds[0] as int - 48);
    }
  }

  lemma TenTimes(n: nat, d: nat)
    requires d < 10
    ensures (10 * n + d) / 10 == n && (10 * n + d) % 10 == d
  {
  }

  lemma OneMoreDigit(n: nat, b: byte)
    requires IsDigit(b) && n > 0
    ensures Digits(10 * n + (b as int - 48)) == Digits(n) + [b]
  {
    TenTimes(n, b as int - 48);
  }

  lemma {:induction false} DigitsOfNumber(ds: bytes)
    requires AllDigits(ds) && ds != [] && (|ds| > 1 ==> ds[0] != ZERO)
    ensures Digits(Number(ds)) == ds && (ds[0] != ZERO ==> Number(ds) > 0)
  {
    hide Digits;
    var front, last := ds[..|ds| - 1], ds[|ds| - 1];
    assert ds == front + [last];
    if front != [] {
      DigitsOfNumber(front);
      OneMoreDigit(Number(front), last);
    } else {
      assert Number(front) == 0;
      OneDigit(last);
    }
  }

  lemma OneDigit(b: byte)
    requires IsDigit(b)
    ensures Digits(b as int - 48) == [b]
  {
  }

  /** The check made of a buffered number before it is parsed. */
  predicate CheckBufferedInt(t: bytes) {
    |t| <= 1 || (var c := if t[0] == MINUS then t[1] else t[0]; ZERO < c <= NINE)
  }

  /** Base-ten parsing with an optional sign, of any size. */
  function ParseInt(t: bytes): Option<int> {
    if t == [] then None
    else
      var ds := if t[0] == MINUS || t[0] == PLUS then t[1..] else t;
      if ds == [] || !AllDigits(ds) then None
      else
        var n: int := Number(ds);
        Some(if t[0] == MINUS then -n else n)
  }

  function ReadInt(t: bytes): Option<int> {
    if CheckBufferedInt(t) then ParseInt(t) else None
  }

  lemma DecimalReads(n: int)
    ensures ReadInt(Decimal(n)) == Some(n)
  {
    var m: nat := if n < 0 then -n else n;
    NumberOfDigits(m);
    hide Digits, Number;
    if n < 0 {
      assert Decimal(n)[1..] == Digits(m);
    } else {
      assert IsDigit(Decimal(n)[0]);
    }
  }

  lemma ReadsDecimal(t: bytes)
    requires ReadInt(t).Some?
    ensures t == Decimal(ReadInt(t).value)
  {
    hide Digits, Number;
    if t[0] == MINUS {
      DigitsOfNumber(t[1..]);
      assert t == [MINUS] + t[1..];
    } else if t[0] != PLUS {
      DigitsOfNumber(t);
    }
  }

  /** The texts accepted as a number are exactly the decimal representations, each for its own number. */
  lemma IntsAreCanonical(t: bytes, n: int)
    ensures ReadInt(t) == Some(n) <==> t == Decimal(n)
  {
    hide ReadInt, Decimal;
    DecimalReads(n);
    if ReadInt(t).Some? {
      ReadsDecimal(t);
    }
  }

  // ---------- printing ----------

  ghost function Encode(v: Value): (out: bytes)
    ensures out != [] && out[0] != END
    decreases v, 1
  {
    match v
    case Int(i) => [INT] + Decimal(i) + [END]
    case Str(s) => EncodeStr(s)
    case List(items) => [LIST] + EncodeItems(items) + [END]
    case Dict(entries) => [DICT] + EncodeEntries(v, Sorted(entries.Keys)) + [END]
  }

  function EncodeStr(s: bytes): (out: bytes)
    ensures out != [] && IsDigit(out[0])
  {
    Digits(|s|) + [COLON] + s
  }

  ghost function EncodeItems(items: seq<Value>): bytes
    decreases items, 0
  {
    if items == [] then [] else Encode(items[0]) + EncodeItems(items[1..])
  }

  ghost function EncodeEntries(v: Value, ks: seq<bytes>): bytes
    requires v.Dict? && forall k :: k in ks ==> k in v.entries
    decreases v, 0, |ks|
  {
    if ks == [] then [] else EncodeStr(ks[0]) + Encode(v.entries[ks[0]]) + EncodeEntries(v, ks[1..])
  }

  /** Numbers in ASCII: one digit, one digit more, and the sign. */
  lemma NumbersLiterally(n: nat, d: nat)
    requires d < 10
    ensures Decimal(d) == [(0x30 + d) as byte]
    ensures n > 0 ==> Decimal(10 * n + d) == Decimal(n) + [(0x30 + d) as byte] && Decimal(0 - n) == [0x2d] + Decimal(n)
  {
    TenTimes(n, d);
  }

  /** The format of BEP 3 byte by byte: `i..e`, length and colon, `l..e`, and `d..e` with the keys in ascending order. */
  lemma PrintsLiterally(n: int, s: bytes, items: seq<Value>, entries: map<bytes, Value>)
    ensures Encode(Int(n)) == [0x69] + Decimal(n) + [0x65]
    ensures Encode(Str(s)) == Decimal(|s|) + [0x3a] + s
    ensures Encode(List(items)) == [0x6c] + Joined1(items) + [0x65]
    ensures exists ks :: Ascending(ks) && (forall k :: k in ks <==> k in entries)
                         && Encode(Dict(entries)) == [0x64] + Joined2(entries, ks) + [0x65]
  {
    ItemsJoined(items);
    var ks := Sorted(entries.Keys);
    EntriesJoined(entries, ks);
    assert Encode(Dict(entries)) == [0x64] + Joined2(entries, ks) + [0x65];
  }

  /** The prints of the items one after another. */
  ghost function Joined1(items: seq<Value>): bytes {
    if items == [] then [] else Joined1(items[..|items| - 1]) + Encode(items[|items| - 1])
  }

  /** Key and value prints one after another, in the given order. */
  ghost function Joined2(entries: map<bytes, Value>, ks: seq<bytes>): bytes
    requires forall k :: k in ks ==> k in entries
  {
    if ks == [] then []
    else
      var n := |ks| - 1;
      Joined2(entries, ks[..n]) + Encode(Str(ks[n])) + Encode(entries[ks[n]])
  }

  lemma {:induction false} ItemsJoined(items: seq<Value>)
    ensures EncodeItems(items) == Joined1(items)
    decreases |items|
  {
    hide Encode;
    if items != [] {
      var n := |items| - 1;
      ItemsJoined(items[..n]);
      ItemsLast(items[..n], items[n]);
      assert items == items[..n] + [items[n]];
    }
  }

  lemma {:induction false} ItemsLast(items: seq<Value>, v: Value)
    ensures EncodeItems(items + [v]) == EncodeItems(items) + Encode(v)
    decreases |items|
  {
    hide Encode;
    if items == [] {
      assert items + [v] == [v] && [v][1..] == [];
      assert EncodeItems([v]) == Encode(v) + EncodeItems([v][1..]);
    } else {
      ItemsLast(items[1..], v);
      assert (items + [v])[1..] == items[1..] + [v];
    }
  }

  lemma {:induction false} EntriesJoined(entries: map<bytes, Value>, ks: seq<bytes>)
    requires forall k :: k in ks ==> k in entries
    ensures EncodeEntries(Dict(entries), ks) == Joined2(entries, ks)
    decreases |ks|
  {
    if ks != [] {
      var n := |ks| - 1;
      EntriesJoined(entries, ks[..n]);
      assert Encode(Str(ks[n])) == EncodeStr(ks[n]);
      hide Encode, EncodeStr;
      EntriesLast(Dict(entries), ks[..n], ks[n]);
      assert ks == ks[..n] + [ks[n]];
    }
  }

  lemma {:induction false} EntriesLast(v: Value, ks: seq<bytes>, k: bytes)
    requires v.Dict? && k in v.entries && forall x :: x in ks ==> x in v.entries
    ensures EncodeEntries(v, ks + [k]) == EncodeEntries(v, ks) + EncodeStr(k) + Encode(v.entries[k])
    decreases |ks|
  {
    hide Encode, EncodeStr;
    if ks == [] {
      assert ks + [k] == [k] && [k][1..] == [];
      assert EncodeEntries(v, [k]) == EncodeStr(k) + Encode(v.entries[k]) + EncodeEntries(v, [k][1..]);
    } else {
      EntriesLast(v, ks[1..], k);
      assert (ks + [k])[1..] == ks[1..] + [k];
    }
  }

  /** Every string and key is within the limit. */
  ghost predicate Fits(v: Value, max: int) {
    match v
    case Int(i) => true
    case Str(s) => |s| <= max
    case List(items) => forall x :: x in items ==> Fits(x, max)
    case Dict(entries) => forall k :: k in entries ==> |k| <= max && Fits(entries[k], max)
  }

  // ---------- strict parsing ----------

  /** What stands before the first `sep` and what follows it. */
  function Until(s: bytes, sep: byte): (r: Option<(bytes, bytes)>)
    ensures r.Some? ==> s == r.value.0 + [sep] + r.value.1 && sep !in r.value.0
  {
    if s == [] then None
    else if s[0] == sep then Some(([], s[1..]))
    else match Until(s[1..], sep)
         case None => None
         case Some((t, rest)) => assert s == [s[0]] + s[1..]; Some(([s[0]] + t, rest))
  }

  lemma {:induction false} UntilFinds(t: bytes, sep: byte, rest: bytes)
    requires sep !in t
    ensures Until(t + [sep] + rest, sep) == Some((t, rest))
  {
    var s := t + [sep] + rest;
    if t != [] {
      UntilFinds(t[1..], sep, rest);
      assert s[1..] == t[1..] + [sep] + rest;
      assert t == [t[0]] + t[1..];
    } else {
      assert s[1..] == rest;
    }
  }

  datatype Parsed = Value(value: Value, rest: bytes) | End(rest: bytes) | Fail

  /** A string, its first length digit included. */
  function ParseStr(s: bytes, max: int): (r: Parsed)
    ensures !r.End?
    ensures r.Value? ==> |r.rest| < |s| && r.value.Str?
  {
    match Until(s, COLON)
    case None => Fail
    case Some((t, rest)) =>
      match ReadInt(t)
      case None => Fail
      case Some(n) => if n > max || n < 0 || n > |rest| then Fail else Parsed.Value(Str(rest[..n]), rest[n..])
  }

  function Parse(s: bytes, max: int): (r: Parsed)
    ensures r.Value? || r.End? ==> |r.rest| < |s|
    ensures if s != [] && s[0] == END then r == End(s[1..]) else !r.End?
    decreases |s|, 0
  {
    if s == [] then Fail
    else if s[0] == END then End(s[1..])
    else if s[0] == DICT then ParseEntries(s[1..], map[], None, max)
    else if s[0] == LIST then ParseItems(s[1..], [], max)
    else if s[0] == INT then
      (match Until(s[1..], END)
       case None => Fail
       case Some((t, rest)) => match ReadInt(t) case None => Fail case Some(n) => Parsed.Value(Int(n), rest))
    else if IsDigit(s[0]) then ParseStr(s, max)
    else Fail
  }

  /** The rest of a list, after the items already read. */
  function ParseItems(s: bytes, items: seq<Value>, max: int): (r: Parsed)
    ensures !r.End? && (r.Value? ==> |r.rest| < |s|)
    decreases |s|, 1
  {
    match Parse(s, max)
    case Fail => Fail
    case End(rest) => Parsed.Value(List(items), rest)
    case Value(v, rest) => ParseItems(rest, items + [v], max)
  }

  /** Whether a key may follow. */
  predicate Follows(last: Option<bytes>, k: bytes) {
    last.Some? ==> Less(last.value, k)
  }

  /** The rest of a dictionary, after the entries already read, the last of them under key `last`. */
  function ParseEntries(s: bytes, entries: map<bytes, Value>, last: Option<bytes>, max: int): (r: Parsed)
    ensures !r.End? && (r.Value? ==> |r.rest| < |s|)
    decreases |s|, 1
  {
    match Parse(s, max)
    case Fail => Fail
    case End(rest) => Parsed.Value(Dict(entries), rest)
    case Value(k, rest) =>
      if !k.Str? || !Follows(last, k.s) then Fail
      else match Parse(rest, max)
           case Fail => Fail
           case End(_) => Fail
           case Value(v, rest2) => ParseEntries(rest2, entries[k.s := v], Some(k.s), max)
  }

  // ---------- printing, then parsing ----------

  lemma NoSeparator(n: int)
    ensures COLON !in Decimal(n) && END !in Decimal(n)
  {
  }

  lemma StrRoundTrip(s: bytes, rest: bytes, max: int)
    requires |s| <= max
    ensures ParseStr(EncodeStr(s) + rest, max) == Parsed.Value(Str(s), rest)
    ensures Parse(EncodeStr(s) + rest, max) == Parsed.Value(Str(s), rest)
  {
    var t := Digits(|s|);
    assert EncodeStr(s) + rest == t + [COLON] + (s + rest);
    NoSeparator(|s|);
    UntilFinds(t, COLON, s + rest);
    IntsAreCanonical(t, |s|);
    assert (s + rest)[..|s|] == s && (s + rest)[|s|..] == rest;
    assert IsDigit((EncodeStr(s) + rest)[0]);
  }

  lemma IntRoundTrip(n: int, rest: bytes, max: int)
    ensures Parse(Encode(Int(n)) + rest, max) == Parsed.Value(Int(n), rest)
  {
    var s := Encode(Int(n)) + rest;
    assert s[0] == INT && s[1..] == Decimal(n) + [END] + rest;
    NoSeparator(n);
    UntilFinds(Decimal(n), END, rest);
    IntsAreCanonical(Decimal(n), n);
  }

  lemma {:induction false} ItemsRoundTrip(items: seq<Value>, done: seq<Value>, rest: bytes, max: int)
    requires forall x :: x in items ==> Fits(x, max)
    ensures ParseItems(EncodeItems(items) + [END] + rest, done, max) == Parsed.Value(List(done + items), rest)
    decreases items, 0
  {
    hide Parse, Encode, Fits;
    var s := EncodeItems(items) + [END] + rest;
    if items == [] {
      assert s == [END] + rest && s[1..] == rest;
      assert done + items == done;
    } else {
      var tail := EncodeItems(items[1..]) + [END] + rest;
      assert s == Encode(items[0]) + tail;
      RoundTrip(items[0], tail, max);
      ItemsRoundTrip(items[1..], done + [items[0]], rest, max);
      assert (done + [items[0]]) + items[1..] == done + items;
    }
  }

  /** The entries of `v` under the keys `ks`, added to those already read. */
  ghost function Joined(done: map<bytes, Value>, v: Value, ks: seq<bytes>): map<bytes, Value>
    requires v.Dict? && forall k :: k in ks ==> k in v.entries
  {
    done + map k | k in ks :: v.entries[k]
  }

  lemma JoinedNext(done: map<bytes, Value>, v: Value, ks: seq<bytes>)
    requires v.Dict? && ks != [] && (forall k :: k in ks ==> k in v.entries) && Ascending(ks)
    ensures Joined(done[ks[0] := v.entries[ks[0]]], v, ks[1..]) == Joined(done, v, ks)
  {
    assert forall k :: k in ks <==> k == ks[0] || k in ks[1..];
  }

  lemma EntriesEnd(s: bytes, done: map<bytes, Value>, last: Option<bytes>, rest: bytes, max: int)
    requires s == [END] + rest
    ensures ParseEntries(s, done, last, max) == Parsed.Value(Dict(done), rest)
  {
    hide Parse;
    assert s[1..] == rest;
  }

  lemma EntriesStep(s: bytes, k: bytes, r1: bytes, v: Value, r2: bytes,
                    done: map<bytes, Value>, last: Option<bytes>, max: int)
    requires Parse(s, max) == Parsed.Value(Str(k), r1) && Parse(r1, max) == Parsed.Value(v, r2) && Follows(last, k)
    ensures ParseEntries(s, done, last, max) == ParseEntries(r2, done[k := v], Some(k), max)
  {
    hide Parse;
  }

  lemma {:induction false} EntriesRoundTrip(v: Value, ks: seq<bytes>, done: map<bytes, Value>, last: Option<bytes>,
                                            rest: bytes, max: int)
    requires v.Dict? && (forall k :: k in ks ==> k in v.entries) && Fits(v, max)
    requires Ascending(ks) && (ks != [] ==> Follows(last, ks[0]))
    ensures ParseEntries(EncodeEntries(v, ks) + [END] + rest, done, last, max) == Parsed.Value(Dict(Joined(done, v, ks)), rest)
    decreases v, 0, |ks|
  {
    hide Parse, ParseEntries, Encode, EncodeStr, Less;
    var s := EncodeEntries(v, ks) + [END] + rest;
    if ks == [] {
      EntriesEnd(s, done, last, rest, max);
      assert Joined(done, v, ks) == done;
    } else {
      var k := ks[0];
      var tail := EncodeEntries(v, ks[1..]) + [END] + rest;
      var middle := Encode(v.entries[k]) + tail;
      assert s == EncodeStr(k) + middle;
      StrRoundTrip(k, middle, max);
      RoundTrip(v.entries[k], tail, max);
      EntriesStep(s, k, middle, v.entries[k], tail, done, last, max);
      EntriesRoundTrip(v, ks[1..], done[k := v.entries[k]], Some(k), rest, max);
      JoinedNext(done, v, ks);
    }
  }

  lemma OpenList(body: bytes, rest: bytes, max: int)
    ensures Parse([LIST] + body + [END] + rest, max) == ParseItems(body + [END] + rest, [], max)
  {
    var s := [LIST] + body + [END] + rest;
    assert s[0] == LIST && s[1..] == body + [END] + rest;
  }

  lemma OpenDict(body: bytes, rest: bytes, max: int)
    ensures Parse([DICT] + body + [END] + rest, max) == ParseEntries(body + [END] + rest, map[], None, max)
  {
    var s := [DICT] + body + [END] + rest;
    assert s[0] == DICT && s[1..] == body + [END] + rest;
  }

  /** Parsing what was printed gives the value back and leaves what follows it. */
  lemma {:induction false} RoundTrip(v: Value, rest: bytes, max: int)
    requires Fits(v, max)
    ensures Parse(Encode(v) + rest, max) == Parsed.Value(v, rest)
    decreases v, 1
  {
    hide Parse, ParseItems, ParseEntries, EncodeItems, EncodeEntries, EncodeStr, Less;
    match v
    case Int(n) => IntRoundTrip(n, rest, max);
    case Str(t) => StrRoundTrip(t, rest, max);
    case List(items) =>
      OpenList(EncodeItems(items), rest, max);
      ItemsRoundTrip(items, [], rest, max);
      assert [] + items == items;
    case Dict(entries) =>
      var ks := Sorted(entries.Keys);
      OpenDict(EncodeEntries(v, ks), rest, max);
      EntriesRoundTrip(v, ks, map[], None, rest, max);
      JoinedAll(v);
  }

  lemma JoinedAll(v: Value)
    requires v.Dict?
    ensures Joined(map[], v, Sorted(v.entries.Keys)) == v.entries
  {
  }

  // ---------- parsing, then printing ----------

  lemma StrCanonical(s: bytes, max: int)
    requires ParseStr(s, max).Value?
    ensures var r := ParseStr(s, max); s == EncodeStr(r.value.s) + r.rest && |r.value.s| <= max
  {
    var (t, rest) := Until(s, COLON).value;
    var n := ReadInt(t).value;
    IntsAreCanonical(t, n);
    assert rest == rest[..n] + rest[n..];
  }

  lemma {:induction false} ItemsCanonical(s: bytes, done: seq<Value>, max: int) returns (items: seq<Value>)
    requires ParseItems(s, done, max).Value?
    ensures var r := ParseItems(s, done, max);
            && r.value == List(done + items) && s == EncodeItems(items) + [END] + r.rest
            && forall x :: x in items ==> Fits(x, max)
    decreases |s|, 1
  {
    hide Parse, Encode, Fits;
    var p := Parse(s, max);
    if p.End? {
      items := [];
      assert s == [s[0]] + s[1..];
    } else {
      Canonical(s, max);
      var more := ItemsCanonical(p.rest, done + [p.value], max);
      items := [p.value] + more;
      assert (done + [p.value]) + more == done + items;
      assert items[1..] == more;
    }
  }

  /** All keys read so far come up to `last`. */
  ghost predicate UpTo(done: map<bytes, Value>, last: Option<bytes>) {
    if last.None? then done == map[]
    else last.value in done && forall k :: k in done ==> k == last.value || Less(k, last.value)
  }

  /** Dictionary `v` holds what was `done` and, under the later keys `ks`, more. */
  ghost predicate Extends(v: Value, done: map<bytes, Value>, ks: seq<bytes>, last: Option<bytes>, max: int) {
    && v.Dict?
    && (forall k :: k in v.entries <==> k in done || k in ks)
    && (forall k :: k in done ==> k !in ks && v.entries[k] == done[k])
    && (forall k :: k in ks ==> Follows(last, k) && |k| <= max && Fits(v.entries[k], max))
    && Ascending(ks)
  }

  lemma ExtendsNext(v: Value, done: map<bytes, Value>, last: Option<bytes>, k: bytes, x: Value, more: seq<bytes>, max: int)
    requires Extends(v, done[k := x], more, Some(k), max) && Follows(last, k) && k !in done && |k| <= max && Fits(x, max)
    ensures Extends(v, done, [k] + more, last, max)
  {
    hide Fits, Less;
    KeyFirst(last, k, more);
    assert forall y :: y in [k] + more <==> y == k || y in more;
    assert k in done[k := x] && k !in more;
  }

  /** The keys a parse reads, in the order it reads them. */
  lemma {:induction false} EntriesCanonical(s: bytes, done: map<bytes, Value>, last: Option<bytes>, max: int)
    returns (ks: seq<bytes>)
    requires ParseEntries(s, done, last, max).Value? && UpTo(done, last)
    ensures var r := ParseEntries(s, done, last, max);
            Extends(r.value, done, ks, last, max) && s == EncodeEntries(r.value, ks) + [END] + r.rest
    decreases |s|, 1
  {
    hide Parse, Encode, EncodeStr, Less, UpTo;
    var p := Parse(s, max);
    if p.End? {
      ks := [];
      assert s == [s[0]] + s[1..];
    } else {
      Canonical(s, max);
      var k, q := p.value.s, Parse(p.rest, max);
      Canonical(p.rest, max);
      NewKey(done, last, k, q.value);
      EntriesStep(s, k, p.rest, q.value, q.rest, done, last, max);
      hide ParseEntries;
      var more := EntriesCanonical(q.rest, done[k := q.value], Some(k), max);
      var v := ParseEntries(s, done, last, max).value;
      ExtendsNext(v, done, last, k, q.value, more, max);
      ks := [k] + more;
      assert k in done[k := q.value];
      hide Extends;
      EntriesPrint(v, k, more, q.rest, ParseEntries(s, done, last, max).rest);
    }
  }

  lemma EntriesPrint(v: Value, k: bytes, more: seq<bytes>, tail: bytes, rest: bytes)
    requires v.Dict? && k in v.entries && (forall x :: x in more ==> x in v.entries)
    requires tail == EncodeEntries(v, more) + [END] + rest
    ensures forall x :: x in [k] + more ==> x in v.entries
    ensures Encode(Str(k)) + (Encode(v.entries[k]) + tail) == EncodeEntries(v, [k] + more) + [END] + rest
  {
    StrPrint(k);
    hide Encode, EncodeStr;
    assert ([k] + more)[1..] == more;
  }

  lemma StrPrint(k: bytes)
    ensures Encode(Str(k)) == EncodeStr(k)
  {
  }

  lemma NewKey(done: map<bytes, Value>, last: Option<bytes>, k: bytes, v: Value)
    requires UpTo(done, last) && Follows(last, k)
    ensures k !in done && UpTo(done[k := v], Some(k))
  {
    forall x | x in done ensures Less(x, k) {
      if x != last.value {
        LessTransitive(x, last.value, k);
      }
    }
    LessTotal(k, k);
  }

  lemma KeyFirst(last: Option<bytes>, k: bytes, more: seq<bytes>)
    requires Ascending(more) && Follows(last, k) && forall x :: x in more ==> Less(k, x)
    ensures Ascending([k] + more) && forall x :: x in more ==> Follows(last, x)
  {
    forall x | x in more ensures Follows(last, x) {
      if last.Some? {
        LessTransitive(last.value, k, x);
      }
    }
  }

  lemma IntCanonical(s: bytes, max: int)
    requires Parse(s, max).Value? && s[0] == INT
    ensures var r := Parse(s, max); s == Encode(r.value) + r.rest && Fits(r.value, max)
  {
    hide ReadInt, Until, Decimal;
    assert s == [s[0]] + s[1..];
    var (t, rest) := Until(s[1..], END).value;
    IntsAreCanonical(t, ReadInt(t).value);
  }

  lemma Brackets(first: byte, body: bytes, tail: bytes, rest: bytes)
    requires tail == body + [END] + rest
    ensures [first] + tail == [first] + body + [END] + rest
  {
  }

  /** Whatever is accepted is the print of the value returned, followed by what is left. */
  lemma {:induction false} Canonical(s: bytes, max: int)
    requires Parse(s, max).Value?
    ensures var r := Parse(s, max); s == Encode(r.value) + r.rest && Fits(r.value, max)
    decreases |s|, 0
  {
    var r := Parse(s, max);
    if s[0] == INT {
      IntCanonical(s, max);
    } else if s[0] == DICT {
      assert s == [DICT] + s[1..];
      hide EncodeEntries, ParseEntries, Follows, Less;
      var ks := EntriesCanonical(s[1..], map[], None, max);
      SortedUnique(ks, Sorted(r.value.entries.Keys));
      Brackets(DICT, EncodeEntries(r.value, ks), s[1..], r.rest);
    } else if s[0] == LIST {
      assert s == [LIST] + s[1..];
      hide EncodeItems, ParseItems;
      var items := ItemsCanonical(s[1..], [], max);
      assert [] + items == items;
      Brackets(LIST, EncodeItems(items), s[1..], r.rest);
    } else {
      hide EncodeStr, ParseStr;
      StrCanonical(s, max);
    }
  }

  /** The limit on string lengths is the only thing that keeps a printed value from being read back. */
  lemma ReadBackExactly(v: Value, rest: bytes, max: int)
    ensures Parse(Encode(v) + rest, max) == Parsed.Value(v, rest) <==> Fits(v, max)
  {
    if Fits(v, max) {
      RoundTrip(v, rest, max);
    } else if Parse(Encode(v) + rest, max) == Parsed.Value(v, rest) {
      Canonical(Encode(v) + rest, max);
    }
  }

  // ---------- finding where a value ends ----------

  datatype Skim = Skimmed(rest: bytes) | AtEnd | Bad

  /** `readOneValue`: numbers unchecked, no limit on strings but that of a 64-bit length, dictionaries read as lists. */
  function ReadOne(s: bytes): (r: Skim)
    ensures r.Skimmed? ==> |r.rest| < |s|
    ensures r.AtEnd? <==> s != [] && s[0] == END
    decreases |s|, 0
  {
    if s == [] then Bad
    else if s[0] == END then AtEnd
    else if s[0] == DICT || s[0] == LIST then ReadAll(s[1..])
    else if s[0] == INT then SkimInt(s[1..])
    else if IsDigit(s[0]) then SkimStr(s)
    else Bad
  }

  function SkimInt(s: bytes): (r: Skim)
    ensures !r.AtEnd? && (r.Skimmed? ==> |r.rest| < |s|)
  {
    match Until(s, END)
    case None => Bad
    case Some((_, rest)) => Skimmed(rest)
  }

  function SkimStr(s: bytes): (r: Skim)
    ensures !r.AtEnd? && (r.Skimmed? ==> |r.rest| < |s|)
  {
    match Until(s, COLON)
    case None => Bad
    case Some((t, rest)) =>
      match ParseInt(t)
      case None => Bad
      case Some(n) => if 0 <= n <= MAX_INT64 && n <= |rest| then Skimmed(rest[n..]) else Bad
  }

  function ReadAll(s: bytes): (r: Skim)
    ensures !r.AtEnd? && (r.Skimmed? ==> |r.rest| < |s|)
    decreases |s|, 1
  {
    match ReadOne(s)
    case Bad => Bad
    case AtEnd => Skimmed(s[1..])
    case Skimmed(rest) => ReadAll(rest)
  }

  lemma {:induction false} ItemsSkim(s: bytes, done: seq<Value>, max: int)
    requires ParseItems(s, done, max).Value? && max <= MAX_INT64
    ensures ReadAll(s) == Skimmed(ParseItems(s, done, max).rest)
    decreases |s|, 1
  {
    hide Parse, ReadOne;
    var p := Parse(s, max);
    if p.Value? {
      ParsersAgree(s, max);
      ItemsSkim(p.rest, done + [p.value], max);
    }
  }

  lemma {:induction false} EntriesSkim(s: bytes, done: map<bytes, Value>, last: Option<bytes>, max: int)
    requires ParseEntries(s, done, last, max).Value? && max <= MAX_INT64
    ensures ReadAll(s) == Skimmed(ParseEntries(s, done, last, max).rest)
    decreases |s|, 1
  {
    hide Parse, ReadOne, Follows;
    var p := Parse(s, max);
    if p.Value? {
      ParsersAgree(s, max);
      ParsersAgree(p.rest, max);
      var q := Parse(p.rest, max);
      EntriesSkim(q.rest, done[p.value.s := q.value], Some(p.value.s), max);
    }
  }

  /** On whatever the strict parser accepts, the lenient one stops in the same place. */
  lemma {:induction false} ParsersAgree(s: bytes, max: int)
    requires Parse(s, max).Value? && max <= MAX_INT64
    ensures ReadOne(s) == Skimmed(Parse(s, max).rest)
    decreases |s|, 0
  {
    if s[0] == DICT {
      EntriesSkim(s[1..], map[], None, max);
    } else if s[0] == LIST {
      ItemsSkim(s[1..], [], max);
    }
  }

  // ---------- codes ----------

  lemma {:induction false} FitsMore(v: Value, max: int, more: int)
    requires Fits(v, max) && max <= more
    ensures Fits(v, more)
  {
    match v
    case Int(_) =>
    case Str(_) =>
    case List(items) =>
      forall x | x in items ensures Fits(x, more) {
        FitsMore(x, max, more);
      }
    case Dict(entries) =>
      forall k | k in entries ensures Fits(entries[k], more) {
        FitsMore(entries[k], max, more);
      }
  }

  lemma {:induction false} ItemsFit(items: seq<Value>, max: int)
    requires |EncodeItems(items)| <= max
    ensures forall x :: x in items ==> Fits(x, max)
    decreases items, 0
  {
    if items != [] {
      FitsItself(items[0]);
      FitsMore(items[0], |Encode(items[0])|, max);
      ItemsFit(items[1..], max);
      assert items == [items[0]] + items[1..];
    }
  }

  lemma {:induction false} EntriesFit(v: Value, ks: seq<bytes>, max: int)
    requires v.Dict? && (forall k :: k in ks ==> k in v.entries) && |EncodeEntries(v, ks)| <= max
    ensures forall k :: k in ks ==> |k| <= max && Fits(v.entries[k], max)
    decreases v, 0, |ks|
  {
    if ks != [] {
      FitsItself(v.entries[ks[0]]);
      FitsMore(v.entries[ks[0]], |Encode(v.entries[ks[0]])|, max);
      EntriesFit(v, ks[1..], max);
      assert ks == [ks[0]] + ks[1..];
    }
  }

  lemma {:induction false} FitsItself(v: Value)
    ensures Fits(v, |Encode(v)|)
    decreases v, 1
  {
    match v
    case Int(_) =>
    case Str(_) =>
    case List(items) => ItemsFit(items, |Encode(v)|);
    case Dict(entries) => EntriesFit(v, Sorted(entries.Keys), |Encode(v)|);
  }

  /** No two values print alike, and no print is the beginning of another. */
  lemma PrintsArePrefixFree(v: Value, w: Value, r1: bytes, r2: bytes)
    requires Encode(v) + r1 == Encode(w) + r2
    ensures v == w && r1 == r2
  {
    var max := |Encode(v)| + |Encode(w)|;
    FitsItself(v);
    FitsItself(w);
    FitsMore(v, |Encode(v)|, max);
    FitsMore(w, |Encode(w)|, max);
    RoundTrip(v, r1, max);
    RoundTrip(w, r2, max);
  }

  /** The inputs consumed whole are exactly the prints of values within the limit. */
  lemma AcceptedWhole(data: bytes, max: int)
    ensures Parse(data, max).Value? && Parse(data, max).rest == [] <==> exists v :: Fits(v, max) && data == Encode(v)
  {
    if exists v :: Fits(v, max) && data == Encode(v) {
      var v :| Fits(v, max) && data == Encode(v);
      RoundTrip(v, [], max);
      assert Encode(v) + [] == Encode(v);
    }
    if Parse(data, max).Value? && Parse(data, max).rest == [] {
      Canonical(data, max);
      var v := Parse(data, max).value;
      assert Encode(v) + [] == Encode(v);
    }
  }
}
