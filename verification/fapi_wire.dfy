/** The byte-level primitives the FAPI P7 codec is built from: `push8`,
    `push16`, `push32` write an unsigned value big-endian, after the C
    conversion to the parameter's width, and `pull8`, `pull16`, `pull32`
    read one back; a pull fails when the buffer holds too few bytes.
    Those routines live in the nFAPI library, which is not part of this
    model; they are modelled here by the behaviour the codec relies on. */
module FapiWire {
  import opened Common
  import Arithmetic

  datatype Width = W8 | W16 | W32

  function Size(w: Width): (n: nat)
    ensures 1 <= n <= 4
  {
    match w
    case W8 => 1
    case W16 => 2
    case W32 => 4
  }

  function Limit(w: Width): (n: nat)
    ensures n >= 256
  {
    match w
    case W8 => 0x100
    case W16 => 0x1_0000
    case W32 => 0x1_0000_0000
  }

  /** The value survives the conversion to the width unchanged. */
  predicate Fits(w: Width, v: int) {
    0 <= v < Limit(w)
  }

  function Pow256(n: nat): (p: nat)
    ensures p >= 1
  {
    if n == 0 then 1 else 0x100 * Pow256(n - 1)
  }

  lemma LimitIsPow256(w: Width)
    ensures Limit(w) == Pow256(Size(w))
  {
    assert Pow256(1) == 0x100;
    assert Pow256(2) == 0x1_0000;
    assert Pow256(4) == 0x100 * (0x100 * Pow256(2));
  }

  /** The low `n` bytes of a non-negative value, most significant first. */
  function BigEndian(n: nat, u: nat): (bs: seq<Byte>)
    ensures |bs| == n
  {
    if n == 0 then [] else BigEndian(n - 1, u / 0x100) + [u % 0x100]
  }

  /** The value of bytes read most significant first. */
  function ValueOf(bs: seq<Byte>): (v: nat)
    ensures v < Pow256(|bs|)
  {
    if |bs| == 0 then 0
    else
      var hi := ValueOf(bs[..|bs| - 1]);
      Arithmetic.MulMonotone(hi, Pow256(|bs| - 1) - 1, 0x100);
      hi * 0x100 + bs[|bs| - 1]
  }

  lemma {:induction false} ValueOfBigEndian(n: nat, u: nat)
    ensures ValueOf(BigEndian(n, u)) == u % Pow256(n)
    decreases n
  {
    if n == 0 {
      Arithmetic.DivModUnique(u, 1, u, 0);
    } else {
      assert BigEndian(n, u)[..n - 1] == BigEndian(n - 1, u / 0x100);
      ValueOfBigEndian(n - 1, u / 0x100);
      Arithmetic.ModOfQuotient(u, 0x100, Pow256(n - 1));
    }
  }

  lemma {:induction false} BigEndianValueOf(bs: seq<Byte>)
    ensures BigEndian(|bs|, ValueOf(bs)) == bs
    decreases |bs|
  {
    if |bs| > 0 {
      var init := bs[..|bs| - 1];
      Arithmetic.DivModUnique(ValueOf(bs), 0x100, ValueOf(init), bs[|bs| - 1]);
      BigEndianValueOf(init);
      assert init + [bs[|bs| - 1]] == bs;
    }
  }

  /** The C conversion of a value to the unsigned type of the width. */
  function Truncate(w: Width, v: int): (u: int)
    ensures Fits(w, u)
  {
    match w
    case W8 => v % 0x100
    case W16 => v % 0x1_0000
    case W32 => v % 0x1_0000_0000
  }

  lemma TruncateFits(w: Width, v: int)
    requires Fits(w, v)
    ensures Truncate(w, v) == v
  {
    Arithmetic.ModSmall(v, Limit(w));
  }

  /** `pushN`: the big-endian bytes of the value reduced to the width. */
  function Encode(w: Width, v: int): (bs: seq<Byte>)
    ensures |bs| == Size(w)
  {
    BigEndian(Size(w), Truncate(w, v))
  }

  /** `pullN`: the big-endian value of `Size(w)` bytes. */
  function Decode(w: Width, bs: seq<Byte>): (v: int)
    requires |bs| == Size(w)
    ensures Fits(w, v)
  {
    LimitIsPow256(w);
    ValueOf(bs)
  }

  /** Reading back what was written yields the value reduced to the width. */
  lemma DecodeEncode(w: Width, v: int)
    ensures Decode(w, Encode(w, v)) == Truncate(w, v)
    ensures Fits(w, v) ==> Decode(w, Encode(w, v)) == v
  {
    LimitIsPow256(w);
    ValueOfBigEndian(Size(w), Truncate(w, v));
    Arithmetic.ModSmall(Truncate(w, v), Limit(w));
    if Fits(w, v) {
      TruncateFits(w, v);
    }
  }

  /** Writing back what was read reproduces the bytes. */
  lemma EncodeDecode(w: Width, bs: seq<Byte>)
    requires |bs| == Size(w)
    ensures Encode(w, Decode(w, bs)) == bs
  {
    LimitIsPow256(w);
    Arithmetic.ModSmall(ValueOf(bs), Limit(w));
    BigEndianValueOf(bs);
  }

  // ---------------------------------------------------------------
  // Reading from a byte stream
  // ---------------------------------------------------------------

  /** A value read from the front of a byte stream and the bytes after it. */
  datatype Parsed<T> = Parsed(value: T, rest: seq<Byte>)

  /** `pullN`: fails when fewer than `Size(w)` bytes are left. */
  function Pull(w: Width, s: seq<Byte>): (r: Option<Parsed<int>>)
    ensures r.Some? <==> Size(w) <= |s|
    ensures r.Some? ==> Fits(w, r.value.value)
  {
    if Size(w) <= |s| then Some(Parsed(Decode(w, s[..Size(w)]), s[Size(w)..])) else None
  }

  /** `pushN` onto a stream: the value's bytes followed by `tail`. */
  function Push(w: Width, v: int, tail: seq<Byte>): (bs: seq<Byte>)
    ensures |bs| == Size(w) + |tail|
  {
    Encode(w, v) + tail
  }

  /** Pulling a pushed value yields it reduced to the width, and the
      bytes that followed it. */
  lemma PullPushed(w: Width, v: int, tail: seq<Byte>)
    ensures Pull(w, Push(w, v, tail)) == Some(Parsed(Truncate(w, v), tail))
    ensures Fits(w, v) ==> Pull(w, Push(w, v, tail)) == Some(Parsed(v, tail))
  {
    var x := Encode(w, v);
    assert (x + tail)[..Size(w)] == x;
    assert (x + tail)[Size(w)..] == tail;
    DecodeEncode(w, v);
  }

  // ---------------------------------------------------------------
  // Runs of fields
  // ---------------------------------------------------------------

  function Repeat(w: Width, n: nat): (ws: seq<Width>)
    ensures |ws| == n && forall i :: 0 <= i < n ==> ws[i] == w
  {
    seq(n, _ => w)
  }

  function FieldsSize(ws: seq<Width>): nat {
    if |ws| == 0 then 0 else Size(ws[0]) + FieldsSize(ws[1..])
  }

  predicate AllFit(ws: seq<Width>, vs: seq<int>) {
    |ws| == |vs| && forall i :: 0 <= i < |ws| ==> Fits(ws[i], vs[i])
  }

  /** A run of pushes, one per field, followed by `tail`. */
  function EncodeFields(ws: seq<Width>, vs: seq<int>, tail: seq<Byte>): (bs: seq<Byte>)
    requires |ws| == |vs|
    ensures |bs| == FieldsSize(ws) + |tail|
  {
    if |ws| == 0 then tail else Push(ws[0], vs[0], EncodeFields(ws[1..], vs[1..], tail))
  }

  /** A run of pulls, one per field; it fails as soon as one pull does. */
  function PullFields(ws: seq<Width>, s: seq<Byte>): (r: Option<Parsed<seq<int>>>)
    ensures r.Some? <==> FieldsSize(ws) <= |s|
    ensures r.Some? ==> AllFit(ws, r.value.value)
    decreases |ws|
  {
    if |ws| == 0 then Some(Parsed([], s))
    else
      match Pull(ws[0], s)
      case None => None
      case Some(h) =>
        match PullFields(ws[1..], h.rest)
        case None => None
        case Some(t) => Some(Parsed([h.value] + t.value, t.rest))
  }

  /** Pulling a run of pushed fields yields the fields. */
  lemma {:induction false} PullFieldsEncoded(ws: seq<Width>, vs: seq<int>, tail: seq<Byte>)
    requires AllFit(ws, vs)
    ensures PullFields(ws, EncodeFields(ws, vs, tail)) == Some(Parsed(vs, tail))
    decreases |ws|
  {
    if |ws| > 0 {
      PullPushed(ws[0], vs[0], EncodeFields(ws[1..], vs[1..], tail));
      PullFieldsEncoded(ws[1..], vs[1..], tail);
      assert [vs[0]] + vs[1..] == vs;
    }
  }

  // ---------------------------------------------------------------
  // Byte arrays
  // ---------------------------------------------------------------

  predicate AllBytes(vs: seq<int>) {
    forall i :: 0 <= i < |vs| ==> 0 <= vs[i] < 0x100
  }

  /** `pusharray8` of a whole array: each element converted to a byte. */
  function PushBytes(vs: seq<int>, tail: seq<Byte>): (bs: seq<Byte>)
    ensures |bs| == |vs| + |tail|
  {
    seq(|vs|, i requires 0 <= i < |vs| => Truncate(W8, vs[i])) + tail
  }

  /** `pullarray8` of `n` bytes. */
  function PullBytes(n: nat, s: seq<Byte>): (r: Option<Parsed<seq<int>>>)
    ensures r.Some? <==> n <= |s|
    ensures r.Some? ==> |r.value.value| == n && AllBytes(r.value.value)
  {
    if n <= |s| then Some(Parsed(s[..n], s[n..])) else None
  }

  lemma PullPushedBytes(vs: seq<int>, tail: seq<Byte>)
    requires AllBytes(vs)
    ensures PullBytes(|vs|, PushBytes(vs, tail)) == Some(Parsed(vs, tail))
  {
    var x := seq(|vs|, i requires 0 <= i < |vs| => Truncate(W8, vs[i]));
    forall i | 0 <= i < |vs|
      ensures x[i] == vs[i]
    {
      TruncateFits(W8, vs[i]);
    }
    assert x == vs;
    assert PushBytes(vs, tail) == x + tail;
    assert (x + tail)[..|vs|] == vs;
    assert (x + tail)[|vs|..] == tail;
  }

  /** Slicing helpers, kept out of the larger proofs. */
  lemma SliceAt(f: seq<int>, i: nat, j: nat, m: nat)
    requires i <= j <= |f| && m < j - i
    ensures f[i..j][m] == f[i + m]
  {
  }

  lemma SliceJoin(f: seq<int>, i: nat, j: nat, k: nat)
    requires i <= j <= k <= |f|
    ensures f[..i] + f[i..j] + f[j..k] == f[..k]
  {
  }

  function Zeros(n: nat): (z: seq<int>)
    ensures |z| == n && forall i :: 0 <= i < n ==> z[i] == 0
  {
    seq(n, _ => 0)
  }

  /** A group of fields sent only when `present`; the receiver leaves an
      absent group at zero. */
  function Gated(present: bool, vs: seq<int>): (r: seq<int>)
    ensures |r| == |vs|
  {
    if present then vs else Zeros(|vs|)
  }

  function EncodeGated(present: bool, ws: seq<Width>, vs: seq<int>, tail: seq<Byte>): (bs: seq<Byte>)
    requires |ws| == |vs|
    ensures present ==> bs == EncodeFields(ws, vs, tail)
    ensures !present ==> bs == tail
  {
    if present then EncodeFields(ws, vs, tail) else tail
  }

  function PullGated(present: bool, ws: seq<Width>, s: seq<Byte>): (r: Option<Parsed<seq<int>>>)
    ensures r.Some? ==> |r.value.value| == |ws|
    ensures !present ==> r == Some(Parsed(Zeros(|ws|), s))
  {
    if present then PullFields(ws, s) else Some(Parsed(Zeros(|ws|), s))
  }

  lemma PullGatedEncoded(present: bool, ws: seq<Width>, vs: seq<int>, tail: seq<Byte>)
    requires AllFit(ws, vs)
    ensures PullGated(present, ws, EncodeGated(present, ws, vs, tail)) == Some(Parsed(Gated(present, vs), tail))
  {
    if present {
      PullFieldsEncoded(ws, vs, tail);
    }
  }

  // ---------------------------------------------------------------
  // Lists of records with one layout
  // ---------------------------------------------------------------

  function EncodeRecords(ws: seq<Width>, rs: seq<seq<int>>, tail: seq<Byte>): seq<Byte>
    requires forall i :: 0 <= i < |rs| ==> |rs[i]| == |ws|
  {
    if |rs| == 0 then tail else EncodeFields(ws, rs[0], EncodeRecords(ws, rs[1..], tail))
  }

  function PullRecords(ws: seq<Width>, count: nat, s: seq<Byte>): (r: Option<Parsed<seq<seq<int>>>>)
    ensures r.Some? ==> |r.value.value| == count && forall i :: 0 <= i < count ==> AllFit(ws, r.value.value[i])
    decreases count
  {
    if count == 0 then Some(Parsed([], s))
    else
      match PullFields(ws, s)
      case None => None
      case Some(h) =>
        match PullRecords(ws, count - 1, h.rest)
        case None => None
        case Some(t) => Some(Parsed([h.value] + t.value, t.rest))
  }

  lemma {:induction false} PullRecordsEncoded(ws: seq<Width>, rs: seq<seq<int>>, tail: seq<Byte>)
    requires forall i :: 0 <= i < |rs| ==> |rs[i]| == |ws| && AllFit(ws, rs[i])
    ensures PullRecords(ws, |rs|, EncodeRecords(ws, rs, tail)) == Some(Parsed(rs, tail))
    decreases |rs|
  {
    if |rs| > 0 {
      PullFieldsEncoded(ws, rs[0], EncodeRecords(ws, rs[1..], tail));
      PullRecordsEncoded(ws, rs[1..], tail);
      assert [rs[0]] + rs[1..] == rs;
    }
  }

  lemma {:induction false} RepeatSize(w: Width, n: nat)
    ensures FieldsSize(Repeat(w, n)) == n * Size(w)
    decreases n
  {
    if n > 0 {
      assert Repeat(w, n)[1..] == Repeat(w, n - 1);
      RepeatSize(w, n - 1);
    }
  }
}
