/**
 The byte writer and reader (`runtime/src/serialize.rs`): a growing buffer and a
 position in a slice, each call proved against the format in `Wire`.
 */
module Serialize {
  import opened Values
  import opened Numbers
  import opened Wire

  lemma AssocPush(a: seq<u8>, b: seq<u8>, x: u8)
    ensures a + b + [x] == a + (b + [x])
  {
  }

  lemma AssocTail(a: seq<u8>, x: u8, c: seq<u8>)
    ensures a + [x] + c == a + ([x] + c)
  {
  }

  class Writer {
    var buf: seq<u8>

    constructor ()
      ensures buf == []
    {
      buf := [];
    }

    method WriteU8(v: u8)
      modifies this
      ensures buf == old(buf) + [v]
    {
      buf := buf + [v];
    }

    /** A field of `n` little-endian bytes: `write_u32_le` (4) and `write_f64` (8, the bit pattern). */
    method WriteLe(v: nat, n: nat)
      modifies this
      ensures buf == old(buf) + Le(v, n)
    {
      var x := v;
      for i := 0 to n
        invariant buf + Le(x, n - i) == old(buf) + Le(v, n)
      {
        assert Le(x, n - i) == [x % 256] + Le(x / 256, n - i - 1);
        assert buf + ([x % 256] + Le(x / 256, n - i - 1)) == (buf + [x % 256]) + Le(x / 256, n - i - 1);
        buf := buf + [x % 256];
        x := x / 256;
      }
      assert buf + Le(x, 0) == buf;
    }

    method WriteRaw(data: seq<u8>)
      modifies this
      ensures buf == old(buf) + data
    {
      buf := buf + data;
    }

    method WriteUvarint(v: nat)
      modifies this
      ensures buf == old(buf) + EncU(v)
    {
      var x := v;
      ghost var sent: seq<u8> := [];
      while true
        invariant buf == old(buf) + sent && sent + EncU(x) == EncU(v)
        decreases x
      {
        var byte, more := x % 128, x / 128;
        EncUUnfold(x);
        hide EncU;
        if more == 0 {
          buf := buf + [byte];
          AssocPush(old(buf), sent, byte);
          return;
        }
        byte := byte + 128;
        buf := buf + [byte];
        AssocPush(old(buf), sent, byte);
        AssocTail(sent, byte, EncU(more));
        sent, x := sent + [byte], more;
      }
    }

    method WriteIvarint(v: int)
      modifies this
      ensures buf == old(buf) + EncI(v)
    {
      var x := v;
      ghost var sent: seq<u8> := [];
      while true
        invariant buf == old(buf) + sent && sent + EncI(x) == EncI(v)
        decreases Magnitude(x)
      {
        var byte, more := x % 128, x / 128;
        var sign := byte >= 64;
        EncIUnfold(x);
        assert ((more == 0 && !sign) || (more == -1 && sign)) == LastGroup(x);
        hide EncI, LastGroup, Magnitude;
        if (more == 0 && !sign) || (more == -1 && sign) {
          buf := buf + [byte];
          AssocPush(old(buf), sent, byte);
          return;
        }
        byte := byte + 128;
        buf := buf + [byte];
        AssocPush(old(buf), sent, byte);
        AssocTail(sent, byte, EncI(more));
        sent, x := sent + [byte], more;
      }
    }

    method WriteBytes(data: seq<u8>)
      modifies this
      ensures buf == old(buf) + EncBytes(data)
    {
      WriteUvarint(|data|);
      buf := buf + data;
    }
  }

  /** A reader's answer and what it left unread are what the format says. */
  ghost predicate Agrees<T>(spec: Parsed<T>, r: Result<T>, rest: seq<u8>) {
    match spec
    case Ok(v, more) => r == Success(v) && rest == more
    case Err(e) => r == Failure(e)
  }

  class Reader {
    const bytes: seq<u8>
    var pos: nat

    ghost predicate Valid()
      reads this
    {
      pos <= |bytes|
    }

    /** The unread bytes. */
    function Rest(): seq<u8>
      requires Valid()
      reads this
    {
      bytes[pos..]
    }

    constructor (bs: seq<u8>)
      ensures Valid() && bytes == bs && Rest() == bs
    {
      bytes, pos := bs, 0;
    }

    method IsEmpty() returns (b: bool)
      requires Valid()
      ensures b <==> Rest() == []
    {
      b := |bytes| - pos == 0;
    }

    /** Exactly `n` bytes; on a short input the position stays. */
    method ReadRaw(n: nat) returns (r: Result<seq<u8>>)
      requires Valid()
      modifies this
      ensures Valid() && Agrees(Take(old(Rest()), n), r, Rest())
      ensures r.Success? ==> pos == old(pos) + n
      ensures r.Failure? ==> pos == old(pos)
    {
      var end := pos + n;
      if end > |bytes| {
        return Failure(UnexpectedEof);
      }
      r := Success(bytes[pos..end]);
      assert bytes[pos..][..n] == bytes[pos..end];
      assert bytes[pos..][n..] == bytes[end..];
      pos := end;
    }

    method ReadU8() returns (r: Result<u8>)
      requires Valid()
      modifies this
      ensures Valid() && Agrees(DecU8(old(Rest())), r, Rest())
      ensures r.Success? ==> pos == old(pos) + 1 && old(Rest()) == [r.value] + Rest()
    {
      var b :- ReadRaw(1);
      r := Success(b[0]);
    }

    method ReadLe(n: nat) returns (r: Result<nat>)
      requires Valid()
      modifies this
      ensures Valid() && Agrees(DecLe(old(Rest()), n), r, Rest())
    {
      var b :- ReadRaw(n);
      var v: nat, i := 0, |b|;
      while i > 0
        invariant 0 <= i <= |b| && v == FromLe(b[i..])
      {
        i := i - 1;
        assert b[i..][1..] == b[i + 1..];
        v := 256 * v + b[i];
      }
      assert b[0..] == b;
      r := Success(v);
    }

    method ReadUvarint() returns (r: Result<nat>)
      requires Valid()
      modifies this
      ensures Valid() && Agrees(DecU(old(Rest())), r, Rest())
      ensures r.Success? ==> pos > old(pos)
    {
      var result: nat, shift := 0, 0;
      while true
        invariant Valid() && pos >= old(pos)
        invariant DecU(old(Rest())) == DecUFrom(Rest(), result, shift)
        decreases |bytes| - pos
      {
        var byte :- ReadU8();
        if shift >= 64 {
          return Failure(VarintOverflow);
        }
        result := result + Shifted(byte, shift);
        shift := shift + 7;
        if byte < 128 {
          break;
        }
      }
      r := Success(result);
    }

    method ReadIvarint() returns (r: Result<i64>)
      requires Valid()
      modifies this
      ensures Valid() && Agrees(DecI(old(Rest())), r, Rest())
    {
      var result: nat, shift := 0, 0;
      while true
        invariant Valid()
        invariant DecI(old(Rest())) == DecIFrom(Rest(), result, shift)
        decreases |bytes| - pos
      {
        var byte :- ReadU8();
        if shift >= 64 {
          return Failure(VarintOverflow);
        }
        result := result + Shifted(byte, shift);
        shift := shift + 7;
        if byte < 128 {
          var extend := if shift < 64 && byte >= 64 then POW64 - Pow2(shift) else 0;
          return Success(ToSigned(result + extend));
        }
      }
    }

    method ReadBytes() returns (r: Result<seq<u8>>)
      requires Valid()
      modifies this
      ensures Valid() && Agrees(DecBytes(old(Rest())), r, Rest())
    {
      var n :- ReadUvarint();
      r := ReadRaw(n);
    }

    method ReadStr() returns (r: Result<Text>)
      requires Valid()
      modifies this
      ensures Valid() && Agrees(DecStr(old(Rest())), r, Rest())
    {
      var b :- ReadBytes();
      r := if ValidUtf8(b) then Success(b) else Failure(InvalidUtf8);
    }
  }
}
