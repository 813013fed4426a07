/** The decoder and encoder objects, proved against the functions of `Bencode`. */
module Codecs {
  import opened Outcomes
  import B = Bencode

  type byte = B.byte
  type bytes = B.bytes

  const DEFAULT_MAX_STR_LEN: int := 0x7ff_ffff

  /** What reading one value came to: a value, the `e` that ends a container, or a thrown error. */
  datatype Reply = Got(value: B.Value) | Ended | Thrown

  class Decoder {
    const input: bytes       // what the reader will yield
    const maxStrLen: int
    var pos: nat
    var offset: int          // sum of bytes used to decode values
    var buf: bytes

    ghost predicate Valid()
      reads this
    {
      pos <= |input|
    }

    ghost function Rest(): bytes
      requires Valid()
      reads this
    {
      input[pos..]
    }

    /** Between two states: reading only goes forward, and every byte taken is accounted for. */
    twostate predicate Forward()
      reads this
    {
      old(pos) <= pos <= |input| && offset == old(offset) + (pos - old(pos))
    }

    constructor (input: bytes, maxStrLen: int)
      ensures Valid() && this.input == input && this.maxStrLen == maxStrLen
      ensures Rest() == input && offset == 0 && buf == []
    {
      this.input, this.maxStrLen := input, maxStrLen;
      pos, offset, buf := 0, 0, [];
      new;
    }

    function GetMaxStrLen(): (r: int) {
      if maxStrLen == 0 then DEFAULT_MAX_STR_LEN else maxStrLen
    }

    method ReadByte() returns (b: Option<byte>)
      requires Valid()
      modifies this`pos, this`offset
      ensures Valid() && Forward()
      ensures if old(Rest()) == [] then b == None else b == Some(old(Rest())[0]) && Rest() == old(Rest())[1..]
    {
      if pos == |input| {
        return None;
      }
      b := Some(input[pos]);
      pos, offset := pos + 1, offset + 1;
    }

    /** Moves bytes to the buffer until `sep`, which is consumed but not kept. */
    method ReadUntil(sep: byte) returns (ok: bool)
      requires Valid()
      modifies this
      ensures Valid() && Forward()
      ensures ok == B.Until(old(Rest()), sep).Some?
      ensures ok ==> var (t, rest) := B.Until(old(Rest()), sep).value; buf == old(buf) + t && Rest() == rest
    {
      ghost var s0, t := Rest(), [];
      assert forall u: bytes :: t + u == u;
      while true
        invariant Valid() && Forward() && buf == old(buf) + t
        invariant B.Until(s0, sep) == match B.Until(Rest(), sep) case None => None case Some((u, rest)) => Some((t + u, rest))
        decreases |input| - pos
      {
        ghost var here := Rest();
        var b := ReadByte();
        if b.None? {
          return false;
        }
        assert here == [b.value] + Rest();
        if b.value == sep {
          assert t + [] == t;
          return true;
        }
        buf := buf + [b.value];
        assert forall u :: (t + [b.value]) + u == t + ([b.value] + u);
        t := t + [b.value];
      }
    }

    method ParseIntInterface() returns (r: Reply)
      requires Valid() && buf == []
      modifies this
      ensures Valid() && Forward()
      ensures match B.Until(old(Rest()), B.END)
              case None => r.Thrown?
              case Some((t, rest)) =>
                if B.ReadInt(t).Some? then r == Got(B.Int(B.ReadInt(t).value)) && Rest() == rest && buf == [] else r.Thrown?
    {
      var ok := ReadUntil(B.END);
      assert ok ==> buf == B.Until(old(Rest()), B.END).value.0;
      if !ok || !B.CheckBufferedInt(buf) {
        return Thrown;
      }
      var n := B.ParseInt(buf);
      if n.None? {
        return Thrown;
      }
      buf := [];
      r := Got(B.Int(n.value));
    }

    /** Called with the first digit of the length in the buffer. */
    method ParseStringLength() returns (length: Option<int>)
      requires Valid() && |buf| == 1
      modifies this
      ensures Valid() && Forward()
      ensures match B.Until(old(Rest()), B.COLON)
              case None => length == None
              case Some((t, rest)) =>
                match B.ReadInt(old(buf) + t)
                case None => length == None
                case Some(n) =>
                  if n > GetMaxStrLen() then length == None else length == Some(n) && buf == [] && Rest() == rest
    {
      var ok := ReadUntil(B.COLON);
      if !ok || !B.CheckBufferedInt(buf) {
        return None;
      }
      length := B.ParseInt(buf);
      if length.None? || length.value > GetMaxStrLen() {
        return None;
      }
      buf := [];
    }

    method ParseStringInterface(ghost first: byte) returns (r: Reply)
      requires Valid() && B.IsDigit(first) && buf == [first]
      modifies this
      ensures Valid() && Forward()
      ensures match B.ParseStr([first] + old(Rest()), GetMaxStrLen())
              case Value(v, rest) => r == Got(v) && Rest() == rest && buf == []
              case _ => r.Thrown?
    {
      UntilAfter(first, Rest(), B.COLON);
      hide B.Until, B.ReadInt, B.Decimal;
      var length := ParseStringLength();
      if length.None? {
        return Thrown;
      }
      ghost var (t, rest) := B.Until([first] + old(Rest()), B.COLON).value;
      assert t[0] == first;
      NotNegative(t, length.value);
      if length.value > |input| - pos {
        return Thrown;
      }
      var b := Take(length.value);
      r := Got(B.Str(b));
    }

    method Take(n: nat) returns (b: bytes)
      requires Valid() && n <= |input| - pos
      modifies this`pos, this`offset
      ensures Valid() && Forward() && b == old(Rest())[..n] && Rest() == old(Rest())[n..]
    {
      b := input[pos..pos + n];
      pos, offset := pos + n, offset + n;
      assert b == old(Rest())[..n];
    }

    method ParseValueInterface() returns (r: Reply)
      requires Valid() && buf == []
      modifies this
      ensures Valid() && Forward()
      ensures match B.Parse(old(Rest()), GetMaxStrLen())
              case Value(v, rest) => r == Got(v) && Rest() == rest && buf == []
              case End(rest) => r == Ended && Rest() == rest && buf == []
              case Fail => r == Thrown
      decreases |input| - pos, 0
    {
      ghost var s := Rest();
      var b := ReadByte();
      if b.None? {
        return Thrown;
      }
      var c := b.value;
      if c == B.END {
        r := Ended;
      } else if c == B.DICT {
        r := ParseDictInterface();
      } else if c == B.LIST {
        r := ParseListInterface();
      } else if c == B.INT {
        r := ParseIntInterface();
      } else if B.IsDigit(c) {
        buf := buf + [c];
        assert s == [c] + Rest();
        r := ParseStringInterface(c);
      } else {
        r := Thrown;
      }
    }

    method ParseListInterface() returns (r: Reply)
      requires Valid() && buf == []
      modifies this
      ensures Valid() && Forward()
      ensures match B.ParseItems(old(Rest()), [], GetMaxStrLen())
              case Value(v, rest) => r == Got(v) && Rest() == rest && buf == []
              case _ => r == Thrown
      decreases |input| - pos, 1
    {
      hide B.Parse;
      ghost var s := Rest();
      var list := [];
      while true
        invariant Valid() && Forward() && buf == []
        invariant B.ParseItems(s, [], GetMaxStrLen()) == B.ParseItems(Rest(), list, GetMaxStrLen())
        decreases |input| - pos
      {
        var item := ParseValueInterface();
        match item
        case Thrown => return Thrown;
        case Ended => return Got(B.List(list));
        case Got(v) => list := list + [v];
      }
    }

    method ParseDictInterface() returns (r: Reply)
      requires Valid() && buf == []
      modifies this
      ensures Valid() && Forward()
      ensures match B.ParseEntries(old(Rest()), map[], None, GetMaxStrLen())
              case Value(v, rest) => r == Got(v) && Rest() == rest && buf == []
              case _ => r == Thrown
      decreases |input| - pos, 1
    {
      hide B.Parse;
      ghost var s := Rest();
      var dict: map<bytes, B.Value>, lastKey: Option<bytes> := map[], None;
      while true
        invariant Valid() && Forward() && buf == []
        invariant B.ParseEntries(s, map[], None, GetMaxStrLen()) == B.ParseEntries(Rest(), dict, lastKey, GetMaxStrLen())
        decreases |input| - pos
      {
        var key := ParseValueInterface();
        if key.Ended? {
          return Got(B.Dict(dict));
        }
        if key.Thrown? || !key.value.Str? || !B.Follows(lastKey, key.value.s) {
          return Thrown;
        }
        var value := ParseValueInterface();
        if !value.Got? {
          return Thrown;
        }
        lastKey := Some(key.value.s);
        dict := dict[key.value.s := value.value];
      }
    }

    // ---------- skimming ----------

    /**
      Reads one value without looking into it. The bytes taken end up in the buffer as they are;
      an `e` is left where it is.
    */
    method ReadOneValue() returns (more: Outcome<bool>)
      requires Valid()
      modifies this
      ensures Valid() && Forward()
      ensures Skims(B.ReadOne(old(Rest())), input, old(pos), pos, old(buf), buf, more)
      decreases |input| - pos, 0
    {
      if pos == |input| {
        return Panic;
      }
      var c := input[pos];
      if c == B.END {
        return Done(false);
      }
      SkimCases(c, input[pos + 1..]);
      assert Rest() == [c] + input[pos + 1..];
      hide B.ReadOne, B.ReadAll, B.SkimInt, B.SkimStr, B.IsDigit, Skims;
      pos, offset, buf := pos + 1, offset + 1, buf + [c];
      if c == B.DICT || c == B.LIST {
        more := ReadToEnd();
        SkimsFirst(B.ReadAll(input[old(pos) + 1..]), input, old(pos), pos, old(buf), buf, more);
      } else if c == B.INT {
        more := SkimInt();
        SkimsFirst(B.SkimInt(input[old(pos) + 1..]), input, old(pos), pos, old(buf), buf, more);
      } else if B.IsDigit(c) {
        more := SkimString(c);
        SkimsFirst(B.SkimStr([c] + input[old(pos) + 1..]), input, old(pos), pos, old(buf), buf, more);
      } else {
        more := Panic;
        NoSkim(input, old(pos), pos, old(buf), buf);
      }
    }

    method ReadToEnd() returns (more: Outcome<bool>)
      requires Valid()
      modifies this
      ensures Valid() && Forward()
      ensures Skims(B.ReadAll(old(Rest())), input, old(pos), pos, old(buf), buf, more)
      decreases |input| - pos, 1
    {
      hide B.ReadOne;
      ghost var s := Rest();
      var go := true;
      while go
        invariant Valid() && Forward() && buf == old(buf) + input[old(pos)..pos]
        invariant if go then B.ReadAll(s) == B.ReadAll(Rest()) else Rest() != [] && B.ReadAll(s) == B.Skimmed(Rest()[1..])
        decreases go, |input| - pos
      {
        var more1 := ReadOneValue();
        if more1.Panic? {
          return Panic;
        }
        go := more1.value;
      }
      var b := ReadByte();
      buf := buf + [b.value];
      more := Done(true);
    }

    method SkimInt() returns (more: Outcome<bool>)
      requires Valid()
      modifies this
      ensures Valid() && Forward()
      ensures Skims(B.SkimInt(old(Rest())), input, old(pos), pos, old(buf), buf, more)
    {
      var ok := ReadUntil(B.END);
      if !ok {
        return Panic;
      }
      buf := buf + [B.END];
      more := Done(true);
      ghost var (t, rest) := B.Until(old(Rest()), B.END).value;
      Taken(input, old(pos), pos, t + [B.END], rest);
    }

    /** The length is parsed from what the buffer holds from its first digit on. */
    method SkimLength(ghost first: byte) returns (length: Option<int>)
      requires Valid() && B.IsDigit(first) && buf != [] && buf[|buf| - 1] == first
      modifies this
      ensures Valid() && Forward()
      ensures match B.Until([first] + old(Rest()), B.COLON)
              case None => length == None
              case Some((t, rest)) =>
                length == B.ParseInt(t) && (length.Some? ==> Rest() == rest && buf == old(buf) + input[old(pos)..pos])
    {
      UntilAfter(first, Rest(), B.COLON);
      hide B.Until, B.ParseInt;
      var start := |buf| - 1;
      var ok := ReadUntil(B.COLON);
      if !ok {
        return None;
      }
      ghost var (t, rest) := B.Until(old(Rest()), B.COLON).value;
      assert buf[start..] == [first] + t;
      length := B.ParseInt(buf[start..]);
      Taken(input, old(pos), pos, t + [B.COLON], rest);
      buf := buf + [B.COLON];
    }

    method CopyN(n: nat)
      requires Valid() && n <= |input| - pos
      modifies this
      ensures Valid() && Forward() && Rest() == old(Rest())[n..] && buf == old(buf) + input[old(pos)..pos]
    {
      buf := buf + input[pos..pos + n];
      pos, offset := pos + n, offset + n;
    }

    method SkimString(ghost first: byte) returns (more: Outcome<bool>)
      requires Valid() && B.IsDigit(first) && buf != [] && buf[|buf| - 1] == first
      modifies this
      ensures Valid() && Forward()
      ensures Skims(B.SkimStr([first] + old(Rest())), input, old(pos), pos, old(buf), buf, more)
    {
      hide B.Until, B.ParseInt, B.IsDigit;
      var length := SkimLength(first);
      if length.None? || !(0 <= length.value <= B.MAX_INT64) || length.value > |input| - pos {
        return Panic;
      }
      ghost var mid := pos;
      CopyN(length.value);
      Slices(input, old(pos), mid, pos);
      more := Done(true);
    }
  }

  /** What skimming leaves: on success the bytes taken, verbatim, at the end of the buffer. */
  ghost predicate Skims(spec: B.Skim, input: bytes, from: nat, to: nat, buf0: bytes, buf1: bytes, more: Outcome<bool>) {
    match spec
    case Skimmed(rest) =>
      more == Done(true) && from <= to <= |input| && input[to..] == rest && buf1 == buf0 + input[from..to]
    case AtEnd => more == Done(false) && to == from && buf1 == buf0
    case Bad => more == Panic
  }

  lemma SkimsFirst(spec: B.Skim, input: bytes, from: nat, to: nat, buf0: bytes, buf1: bytes, more: Outcome<bool>)
    requires from < |input| && !spec.AtEnd? && Skims(spec, input, from + 1, to, buf0 + [input[from]], buf1, more)
    ensures Skims(spec, input, from, to, buf0, buf1, more)
  {
    if spec.Skimmed? {
      Slices(input, from, from + 1, to);
    }
  }

  lemma NoSkim(input: bytes, from: nat, to: nat, buf0: bytes, buf1: bytes)
    ensures Skims(B.Bad, input, from, to, buf0, buf1, Panic)
  {
  }

  lemma SkimCases(c: byte, rest: bytes)
    requires c != B.END
    ensures B.ReadOne([c] + rest) ==
            if c == B.DICT || c == B.LIST then B.ReadAll(rest)
            else if c == B.INT then B.SkimInt(rest)
            else if B.IsDigit(c) then B.SkimStr([c] + rest)
            else B.Bad
  {
    hide B.ReadAll, B.SkimInt, B.SkimStr;
    assert ([c] + rest)[1..] == rest;
  }

  lemma Slices(input: bytes, a: nat, b: nat, c: nat)
    requires a <= b <= c <= |input|
    ensures input[a..c] == input[a..b] + input[b..c]
  {
  }

  const SCRATCH: nat := 64

  class Encoder {
    var out: bytes           // what has gone to the writer

    constructor ()
      ensures out == []
    {
      out := [];
    }

    /** Writes through a scratch buffer of fixed size. */
    method WriteString(s: bytes)
      modifies this
      ensures out == old(out) + s
    {
      var left := s;
      while left != []
        invariant out + left == old(out) + s
        decreases |left|
      {
        var n := if |left| < SCRATCH then |left| else SCRATCH;
        var scratch := left[..n];
        assert left == scratch + left[n..];
        left := left[n..];
        out := out + scratch;
      }
    }

    method ReflectString(s: bytes)
      modifies this
      ensures out == old(out) + B.EncodeStr(s)
    {
      out := out + B.Digits(|s|);
      WriteString([B.COLON]);
      WriteString(s);
    }

    /** Prints a value, the entries of a map in the order of their keys. */
    method ReflectValue(v: B.Value)
      modifies this
      ensures out == old(out) + B.Encode(v)
      decreases v, 3
    {
      hide B.EncodeItems, B.EncodeEntries, B.EncodeStr, B.Decimal, B.Digits, B.Less, B.Ascending, B.Sorted;
      match v
      case Int(i) =>
        WriteString([B.INT]);
        out := out + B.Decimal(i);
        WriteString([B.END]);
      case Str(s) =>
        ReflectString(s);
      case List(items) =>
        WriteString([B.LIST]);
        ReflectItems(items);
        WriteString([B.END]);
      case Dict(entries) =>
        WriteString([B.DICT]);
        ReflectEntries(v);
        WriteString([B.END]);
    }

    method ReflectItems(items: seq<B.Value>)
      modifies this
      ensures out == old(out) + B.EncodeItems(items)
      decreases items, 0
    {
      hide B.Encode;
      assert items[..0] == [];
      for i := 0 to |items|
        invariant out == old(out) + B.EncodeItems(items[..i])
      {
        ReflectValue(items[i]);
        B.ItemsLast(items[..i], items[i]);
        assert items[..i + 1] == items[..i] + [items[i]];
      }
      assert items[..|items|] == items;
    }

    method ReflectEntries(v: B.Value)
      requires v.Dict?
      modifies this
      ensures out == old(out) + B.EncodeEntries(v, B.Sorted(v.entries.Keys))
      decreases v, 2
    {
      var ks := SortKeys(v.entries.Keys);
      B.SortedUnique(ks, B.Sorted(v.entries.Keys));
      ReflectKeys(v, ks);
    }

    method ReflectKeys(v: B.Value, ks: seq<bytes>)
      requires v.Dict? && forall k :: k in ks ==> k in v.entries
      modifies this
      ensures out == old(out) + B.EncodeEntries(v, ks)
      decreases v, 1
    {
      hide B.Encode, B.EncodeStr;
      assert ks[..0] == [];
      for i := 0 to |ks|
        invariant out == old(out) + B.EncodeEntries(v, ks[..i])
      {
        B.EntriesLast(v, ks[..i], ks[i]);
        assert ks[..i + 1] == ks[..i] + [ks[i]];
        ReflectEntry(v, ks[i]);
      }
      assert ks[..|ks|] == ks;
    }

    method ReflectEntry(v: B.Value, k: bytes)
      requires v.Dict? && k in v.entries
      modifies this
      ensures out == old(out) + B.EncodeStr(k) + B.Encode(v.entries[k])
      decreases v, 0
    {
      hide B.Encode, B.EncodeStr;
      ReflectString(k);
      ReflectValue(v.entries[k]);
    }
  }

  /** The map's keys, sorted by insertion. */
  method SortKeys(keys: set<bytes>) returns (ks: seq<bytes>)
    ensures B.Ascending(ks) && forall k :: k in ks <==> k in keys
  {
    ks := [];
    var left := keys;
    while left != {}
      invariant left <= keys && B.Ascending(ks) && forall k :: k in ks <==> k in keys && k !in left
      decreases left
    {
      var k :| k in left;
      ks := B.Insert(k, ks);
      left := left - {k};
    }
  }

  lemma NotNegative(t: bytes, n: int)
    requires t != [] && B.IsDigit(t[0]) && B.ReadInt(t) == Some(n)
    ensures n >= 0
  {
  }

  /** What has been read between two positions. */
  lemma Taken(input: bytes, from: nat, to: nat, taken: bytes, rest: bytes)
    requires from <= to <= |input| && input[from..] == taken + rest && input[to..] == rest
    ensures input[from..to] == taken
  {
    assert input[from..] == input[from..to] + input[to..];
    assert |taken| == to - from;
  }

  /** Looking for a separator past a digit. */
  lemma UntilAfter(first: byte, s: bytes, sep: byte)
    requires B.IsDigit(first) && !B.IsDigit(sep)
    ensures B.Until([first] + s, sep) ==
            match B.Until(s, sep) case None => None case Some((t, rest)) => Some(([first] + t, rest))
  {
    assert ([first] + s)[1..] == s;
  }
}
