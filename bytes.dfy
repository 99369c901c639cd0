/** Option and Result, used for the error paths of the model. */
module Wrappers {
  datatype Option<+T> = None | Some(value: T)

  datatype Result<+T, +E> = Ok(value: T) | Err(error: E)
}

/**
 * Bytes as an `ArrayBuffer` holds them, the little- and big-endian encodings
 * that `DataView.setUint16` / `setUint32` / `setInt32` write, the matching
 * readers, and cursor-style writers over an `array<byte>`.
 *
 * A `DataView` store reduces its value modulo 2^16 or 2^32 before writing;
 * the encoders below do the same explicitly. For a non-negative integer,
 * `setInt32` writes exactly the bytes `setUint32` writes, so one encoder
 * serves both.
 */
module Bytes {
  newtype byte = x: int | 0 <= x < 256

  const Two16: nat := 0x1_0000
  const Two32: nat := 0x1_0000_0000

  /** `setUint16(offset, v, true)`: low byte first. */
  function LE16(v: nat): (r: seq<byte>)
    ensures |r| == 2
  {
    var w := v % Two16;
    [(w % 256) as byte, (w / 256) as byte]
  }

  /** `setUint32(offset, v, true)` and `setInt32(offset, v, true)`: least significant byte first. */
  function LE32(v: nat): (r: seq<byte>)
    ensures |r| == 4
  {
    var w := v % Two32;
    [(w % 256) as byte, ((w / 0x100) % 256) as byte, ((w / 0x1_0000) % 256) as byte, (w / 0x100_0000) as byte]
  }

  /** `setUint32(offset, v, false)`: most significant byte first. */
  function BE32(v: nat): (r: seq<byte>)
    ensures |r| == 4
  {
    var w := v % Two32;
    [(w / 0x100_0000) as byte, ((w / 0x1_0000) % 256) as byte, ((w / 0x100) % 256) as byte, (w % 256) as byte]
  }

  /** `getUint16(i, true)`. */
  function ReadLE16(s: seq<byte>, i: nat): (v: nat)
    requires i + 2 <= |s|
    ensures v < Two16
  {
    s[i] as int + 0x100 * (s[i + 1] as int)
  }

  /** `getUint32(i, true)`. */
  function ReadLE32(s: seq<byte>, i: nat): (v: nat)
    requires i + 4 <= |s|
    ensures v < Two32
  {
    s[i] as int + 0x100 * (s[i + 1] as int) + 0x1_0000 * (s[i + 2] as int) + 0x100_0000 * (s[i + 3] as int)
  }

  /** `getUint32(i, false)`. */
  function ReadBE32(s: seq<byte>, i: nat): (v: nat)
    requires i + 4 <= |s|
    ensures v < Two32
  {
    0x100_0000 * (s[i] as int) + 0x1_0000 * (s[i + 1] as int) + 0x100 * (s[i + 2] as int) + s[i + 3] as int
  }

  /** Reading back a little-endian u16 gives the stored value modulo 2^16. */
  lemma LE16RoundTrip(s: seq<byte>, i: nat, v: nat)
    requires i + 2 <= |s| && s[i..i + 2] == LE16(v)
    ensures ReadLE16(s, i) == v % Two16
  {
    assert s[i] == LE16(v)[0] && s[i + 1] == LE16(v)[1];
  }

  /** Reading back a little-endian u32 gives the stored value modulo 2^32. */
  lemma LE32RoundTrip(s: seq<byte>, i: nat, v: nat)
    requires i + 4 <= |s| && s[i..i + 4] == LE32(v)
    ensures ReadLE32(s, i) == v % Two32
  {
    var e := LE32(v);
    assert s[i] == e[0] && s[i + 1] == e[1] && s[i + 2] == e[2] && s[i + 3] == e[3];
    var w := v % Two32;
    Split32(w);
  }

  /** Reading back a big-endian u32 gives the stored value modulo 2^32. */
  lemma BE32RoundTrip(s: seq<byte>, i: nat, v: nat)
    requires i + 4 <= |s| && s[i..i + 4] == BE32(v)
    ensures ReadBE32(s, i) == v % Two32
  {
    var e := BE32(v);
    assert s[i] == e[0] && s[i + 1] == e[1] && s[i + 2] == e[2] && s[i + 3] == e[3];
    var w := v % Two32;
    Split32(w);
  }

  /** The four base-256 digits of a 32-bit value put it back together. */
  lemma Split32(w: nat)
    requires w < Two32
    ensures w == w % 256 + 0x100 * ((w / 0x100) % 256) + 0x1_0000 * ((w / 0x1_0000) % 256)
                 + 0x100_0000 * (w / 0x100_0000)
  {
    var a := w / 0x100;
    var b := a / 0x100;
    var c := b / 0x100;
    assert w == w % 256 + 0x100 * a;
    assert a == a % 256 + 0x100 * b;
    assert b == b % 256 + 0x100 * c;
    assert w / 0x1_0000 == b;
    assert w / 0x100_0000 == c;
  }

  /** A value already below 2^32 is stored unchanged. */
  lemma Below32(x: nat)
    requires x < Two32
    ensures x % Two32 == x
  {
  }

  /** Regrouping a concatenation, as a cursor that appends piece by piece needs. */
  lemma AppendAssoc<T>(a: seq<T>, b: seq<T>, c: seq<T>)
    ensures a + (b + c) == (a + b) + c
  {
  }

  /** A slice inside the left operand of a concatenation. */
  lemma SliceLeft<T>(a: seq<T>, b: seq<T>, lo: nat, hi: nat)
    requires lo <= hi <= |a|
    ensures (a + b)[lo..hi] == a[lo..hi]
  {
  }

  /** A slice inside the right operand of a concatenation. */
  lemma SliceRight<T>(a: seq<T>, b: seq<T>, lo: nat, hi: nat)
    requires |a| <= lo <= hi <= |a| + |b|
    ensures (a + b)[lo..hi] == b[lo - |a|..hi - |a|]
  {
  }

  /** `uint8[offset++] = v` (and `setUint8`): one byte, reduced modulo 256. */
  method PutU8(buf: array<byte>, off: nat, v: nat) returns (next: nat)
    requires off < buf.Length
    modifies buf
    ensures next == off + 1
    ensures buf[..next] == old(buf[..off]) + [(v % 256) as byte]
    ensures forall j :: next <= j < buf.Length ==> buf[j] == old(buf[j])
  {
    buf[off] := (v % 256) as byte;
    next := off + 1;
  }

  /** Writes `bytes` at the cursor and advances it; nothing before or after them changes. */
  method PutBytes(buf: array<byte>, off: nat, bytes: seq<byte>) returns (next: nat)
    requires off + |bytes| <= buf.Length
    modifies buf
    ensures next == off + |bytes|
    ensures buf[..next] == old(buf[..off]) + bytes
    ensures forall j :: next <= j < buf.Length ==> buf[j] == old(buf[j])
  {
    var k := 0;
    while k < |bytes|
      invariant 0 <= k <= |bytes|
      invariant buf[..off + k] == old(buf[..off]) + bytes[..k]
      invariant forall j :: off + |bytes| <= j < buf.Length ==> buf[j] == old(buf[j])
    {
      buf[off + k] := bytes[k];
      assert bytes[..k + 1] == bytes[..k] + [bytes[k]];
      k := k + 1;
    }
    assert bytes[..k] == bytes;
    next := off + |bytes|;
  }

  /** `view.setUint16(offset, v, true); offset += 2`. */
  method PutLE16(buf: array<byte>, off: nat, v: nat) returns (next: nat)
    requires off + 2 <= buf.Length
    modifies buf
    ensures next == off + 2
    ensures buf[..next] == old(buf[..off]) + LE16(v)
    ensures forall j :: next <= j < buf.Length ==> buf[j] == old(buf[j])
  {
    next := PutBytes(buf, off, LE16(v));
  }

  /** `view.setUint32(offset, v, true); offset += 4` (also `setInt32` of a non-negative value). */
  method PutLE32(buf: array<byte>, off: nat, v: nat) returns (next: nat)
    requires off + 4 <= buf.Length
    modifies buf
    ensures next == off + 4
    ensures buf[..next] == old(buf[..off]) + LE32(v)
    ensures forall j :: next <= j < buf.Length ==> buf[j] == old(buf[j])
  {
    next := PutBytes(buf, off, LE32(v));
  }

  /** `view.setUint32(offset, v, false); offset += 4`. */
  method PutBE32(buf: array<byte>, off: nat, v: nat) returns (next: nat)
    requires off + 4 <= buf.Length
    modifies buf
    ensures next == off + 4
    ensures buf[..next] == old(buf[..off]) + BE32(v)
    ensures forall j :: next <= j < buf.Length ==> buf[j] == old(buf[j])
  {
    next := PutBytes(buf, off, BE32(v));
  }
}
