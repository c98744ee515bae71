/** The writer and the reader themselves (crates/e5r-analysis/src/cache.rs). */
module Cursor {
  import opened Ordered
  import opened Wire

  /** A little-endian writer. */
  class Enc {
    var buf: Bytes

    constructor ()
      ensures buf == []
    {
      buf := [];
    }

    method Append(b: Bytes)
      modifies this
      ensures buf == old(buf) + b
    {
      buf := buf + b;
    }

    method U8(v: nat)
      modifies this
      ensures buf == AddU8(old(buf), v)
    {
      Append(Le(v, 1));
    }

    method U32(v: nat)
      modifies this
      ensures buf == AddU32(old(buf), v)
    {
      Append(Le(v, 4));
    }

    method U64(v: nat)
      modifies this
      ensures buf == AddU64(old(buf), v)
    {
      Append(Le(v, 8));
    }

    method Bool(v: bool)
      modifies this
      ensures buf == AddBool(old(buf), v)
    {
      U8(if v then 1 else 0);
    }

    method Str(s: Bytes)
      modifies this
      ensures buf == AddStr(old(buf), s)
    {
      U32(|s|);
      Append(s);
    }

    method OptStr(s: Option<Bytes>)
      modifies this
      ensures buf == AddOptStr(old(buf), s)
    {
      match s
      case Some(text) =>
        U8(1);
        Str(text);
      case None => U8(0);
    }

    /** Addresses one after another. */
    method Addrs(xs: seq<nat>)
      modifies this
      ensures buf == AddMany(AddU64, old(buf), xs)
    {
      for k := 0 to |xs|
        invariant buf == AddMany(AddU64, old(buf), xs[..k])
      {
        AddManyStep(AddU64, old(buf), xs, k);
        U64(xs[k]);
      }
      assert xs[..|xs|] == xs;
    }
  }

  /** The reader's answer and position are what the read says. */
  predicate Did<T(==)>(r: Option<T>, now: nat, read: Read<T>) {
    match read
    case None => r == None
    case Some(p) => r == Some(p.0) && now == p.1
  }

  /** A little-endian reader over bytes that may be damaged. */
  class Dec {
    const buf: Bytes
    var at: nat

    ghost predicate Valid()
      reads this
    {
      at <= |buf|
    }

    constructor (buf: Bytes)
      ensures Valid() && this.buf == buf && at == 0
    {
      this.buf, at := buf, 0;
    }

    function Remaining(): nat
      requires Valid()
      reads this
    {
      |buf| - at
    }

    method Take(n: nat) returns (r: Option<Bytes>)
      requires Valid()
      modifies this
      ensures Valid() && Did(r, at, ReadBytes(buf, old(at), n))
    {
      var end := at + n;
      if end > |buf| {
        return None;
      }
      r := Some(buf[at..end]);
      at := end;
    }

    method Num(n: nat) returns (r: Option<nat>)
      requires Valid()
      modifies this
      ensures Valid() && Did(r, at, ReadNum(buf, old(at), n))
    {
      var b :- Take(n);
      return Some(FromLe(b));
    }

    method U8() returns (r: Option<nat>)
      requires Valid()
      modifies this
      ensures Valid() && Did(r, at, ReadU8(buf, old(at)))
    {
      r := Num(1);
    }

    method U32() returns (r: Option<nat>)
      requires Valid()
      modifies this
      ensures Valid() && Did(r, at, ReadU32(buf, old(at)))
    {
      r := Num(4);
    }

    method U64() returns (r: Option<nat>)
      requires Valid()
      modifies this
      ensures Valid() && Did(r, at, ReadU64(buf, old(at)))
    {
      r := Num(8);
    }

    method Bool() returns (r: Option<bool>)
      requires Valid()
      modifies this
      ensures Valid() && Did(r, at, ReadBool(buf, old(at)))
    {
      var v :- U8();
      return if v == 0 then Some(false) else if v == 1 then Some(true) else None;
    }

    method Str() returns (r: Option<Bytes>)
      requires Valid()
      modifies this
      ensures Valid() && Did(r, at, ReadStr(buf, old(at)))
    {
      var n :- U32();
      var b :- Take(n);
      return if Utf8(b) then Some(b) else None;
    }

    method OptStr() returns (r: Option<Option<Bytes>>)
      requires Valid()
      modifies this
      ensures Valid() && Did(r, at, ReadOptStr(buf, old(at)))
    {
      var flag :- U8();
      if flag == 0 {
        return Some(None);
      } else if flag == 1 {
        var s :- Str();
        return Some(Some(s));
      }
      return None;
    }

    method Count(least: nat) returns (r: Option<nat>)
      requires Valid()
      modifies this
      ensures Valid() && Did(r, at, ReadCount(buf, old(at), least))
    {
      var n :- U64();
      return if n * AtLeastOne(least) <= Remaining() then Some(n) else None;
    }

    method Count32(least: nat) returns (r: Option<nat>)
      requires Valid()
      modifies this
      ensures Valid() && Did(r, at, ReadCount32(buf, old(at), least))
    {
      var n :- U32();
      return if n * least <= Remaining() then Some(n) else None;
    }

    method Addrs(n: nat) returns (r: Option<seq<nat>>)
      requires Valid()
      modifies this
      ensures Valid() && Did(r, at, ReadMany(ReadU64, buf, old(at), n))
    {
      var out: seq<nat> := [];
      for k := 0 to n
        invariant Valid() && ReadMany(ReadU64, buf, old(at), k) == Some((out, at))
      {
        var v := U64();
        if v.None? {
          ManyFails(ReadU64, buf, old(at), k + 1, n);
          return None;
        }
        out := out + [v.value];
      }
      return Some(out);
    }
  }
}
