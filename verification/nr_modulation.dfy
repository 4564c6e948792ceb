/** NR PHY modulation helpers: bit groups to constellation-table indices,
    layer mapping at the gNB and the UE (TS 38.211 section 7.3.1.3 and
    6.3.1.3), and the precoder for matrices over {0, 1, -1, j, -j}
    (TS 38.211 section 6.3.1.5). Samples are `c16_t` pairs of int16. */
module Modulation {
  import opened Common
  import Arithmetic

  datatype C16 = C16(r: int, i: int)

  const Zero16 := C16(0, 0)

  // ---------------------------------------------------------------
  // nr_modulation: each symbol takes the next mod_order bits, least
  // significant first, as its table index
  // ---------------------------------------------------------------

  predicate SupportedModOrder(m: nat)
  {
    m == 2 || m == 4 || m == 6 || m == 8
  }

  /** The value of a bit group read least significant bit first. */
  function BitsValue(bits: seq<bool>): (v: nat)
    ensures v < Pow2(|bits|)
  {
    if bits == [] then 0 else (if bits[0] then 1 else 0) + 2 * BitsValue(bits[1..])
  }

  /** The n bits of v, least significant first. */
  function ValueBits(v: nat, n: nat): (bits: seq<bool>)
    ensures |bits| == n
  {
    if n == 0 then [] else [v % 2 == 1] + ValueBits(v / 2, n - 1)
  }

  lemma {:induction false} ValueBitsOfBitsValue(bits: seq<bool>)
    ensures ValueBits(BitsValue(bits), |bits|) == bits
  {
    if bits != [] {
      ValueBitsOfBitsValue(bits[1..]);
      var v := BitsValue(bits);
      assert v % 2 == 1 <==> bits[0];
      assert v / 2 == BitsValue(bits[1..]);
    }
  }

  function Indices(bits: seq<bool>, m: nat): (r: seq<nat>)
    requires m > 0
    ensures |r| == |bits| / m
    decreases |bits|
  {
    if |bits| < m then []
    else
      var rest := Indices(bits[m..], m);
      assert (|bits| - m) / m == |bits| / m - 1 by {
        DivStep(|bits|, m);
      }
      [BitsValue(bits[..m])] + rest
  }

  lemma DivStep(n: nat, m: nat)
    requires 0 < m <= n
    ensures (n - m) / m == n / m - 1
  {
    var q, s := n / m, n % m;
    assert n == q * m + s;
    Arithmetic.LeDivOfMulLe(1, m, n);
    assert n - m == (q - 1) * m + s;
    Arithmetic.DivModUnique(n - m, m, q - 1, s);
  }

  /** A positive quotient means the divisor fits at least once. */
  lemma DivPositive(n: nat, m: nat)
    requires m > 0 && n / m > 0
    ensures m <= n
  {
    assert n == (n / m) * m + n % m;
    Arithmetic.MulAtLeast(n / m, m);
  }

  /** nr_modulation's table indices for `length` bits; an order outside
    * {2, 4, 6, 8} aborts. */
  function SymbolIndices(bits: seq<bool>, m: nat): (r: Outcome<seq<nat>>)
    ensures r.Fatal? <==> !SupportedModOrder(m)
    ensures r.Ok? ==> |r.value| == |bits| / m && forall k :: 0 <= k < |r.value| ==> r.value[k] < Pow2(m)
  {
    if SupportedModOrder(m) then IndicesBelow(bits, m); Ok(Indices(bits, m)) else Fatal
  }

  /** Every index addresses the 2^m-entry constellation table. */
  lemma {:induction false} IndicesBelow(bits: seq<bool>, m: nat)
    requires m > 0
    ensures forall k :: 0 <= k < |Indices(bits, m)| ==> Indices(bits, m)[k] < Pow2(m)
    decreases |bits|
  {
    if |bits| >= m {
      IndicesBelow(bits[m..], m);
      IndicesSplit(bits, m);
    }
  }

  /** Symbol k's index is the value of bits m*k .. m*k + m - 1. */
  lemma {:induction false} IndexOfSymbol(bits: seq<bool>, m: nat, k: nat)
    requires m > 0 && m * k + m <= |bits|
    ensures k < |Indices(bits, m)|
    ensures Indices(bits, m)[k] == BitsValue(bits[m * k .. m * k + m])
    decreases k
  {
    IndicesSplit(bits, m);
    if k == 0 {
      assert m * k == 0;
    } else {
      var t := m * (k - 1);
      MulSucc(m, k);
      IndexOfSymbol(bits[m..], m, k - 1);
      IndexStep(bits, m, k, t);
    }
  }

  lemma IndexStep(bits: seq<bool>, m: nat, k: nat, t: nat)
    requires 0 < m <= |bits| && k >= 1 && t == m * (k - 1) && t + m <= |bits| - m
    requires k - 1 < |Indices(bits[m..], m)|
    requires Indices(bits[m..], m)[k - 1] == BitsValue(bits[m..][t .. t + m])
    ensures m * k + m <= |bits| && k < |Indices(bits, m)|
    ensures Indices(bits, m)[k] == BitsValue(bits[m * k .. m * k + m])
  {
    IndicesSplit(bits, m);
    GroupShift(bits, m, k, t);
  }

  lemma UnpackCons(bits: seq<bool>, m: nat)
    requires 0 < m <= |bits|
    ensures Unpack(Indices(bits, m), m) == bits[..m] + Unpack(Indices(bits[m..], m), m)
  {
    var head, tail := bits[..m], bits[m..];
    var rest := Indices(tail, m);
    var idx := Indices(bits, m);
    assert idx == [BitsValue(head)] + rest;
    assert idx[0] == BitsValue(head) && idx[1..] == rest;
    ValueBitsOfBitsValue(head);
  }

  lemma PrefixOfGroups(bits: seq<bool>, m: nat)
    requires 0 < m <= |bits|
    ensures bits[..m * (|bits| / m)] == bits[..m] + bits[m..][..m * (|bits[m..]| / m)]
  {
    DivStep(|bits|, m);
    var q := |bits| / m;
    var t := m * (q - 1);
    MulSucc(m, q);
    PrefixSplit(bits, m, t);
  }

  lemma IndicesSplit(bits: seq<bool>, m: nat)
    requires 0 < m <= |bits|
    ensures Indices(bits, m) == [BitsValue(bits[..m])] + Indices(bits[m..], m)
  {
  }

  lemma GroupShift<T>(s: seq<T>, m: nat, k: nat, t: nat)
    requires k >= 1 && t == m * (k - 1) && t + m <= |s| - m
    ensures m * k + m <= |s| && s[m..][t .. t + m] == s[m * k .. m * k + m]
  {
    MulSucc(m, k);
  }

  lemma MulSucc(m: nat, q: nat)
    requires q >= 1
    ensures m * q == m + m * (q - 1)
  {
  }

  lemma PrefixSplit<T>(s: seq<T>, m: nat, t: nat)
    requires m + t <= |s|
    ensures s[..m + t] == s[..m] + s[m..][..t]
  {
  }

  function Unpack(indices: seq<nat>, m: nat): (bits: seq<bool>)
    ensures |bits| == m * |indices|
  {
    if indices == [] then [] else ValueBits(indices[0], m) + Unpack(indices[1..], m)
  }

  /** Reading the indices back as bits gives every bit that was mapped. */
  lemma {:induction false} IndicesRoundTrip(bits: seq<bool>, m: nat)
    requires m > 0
    ensures Unpack(Indices(bits, m), m) == bits[..m * (|bits| / m)]
    decreases |bits|
  {
    if |bits| >= m {
      IndicesRoundTrip(bits[m..], m);
      UnpackCons(bits, m);
      PrefixOfGroups(bits, m);
    } else {
      Arithmetic.ModSmall(|bits|, m);
    }
  }

  // ---------------------------------------------------------------
  // The 64QAM path as written: each lookup of the 4096-entry table
  // takes 12 bits and writes two symbols
  // ---------------------------------------------------------------

  /** One lookup of nr_64qam_mod_table: 12 bits name two symbols. */
  function PairLookup(g: seq<bool>): (r: seq<nat>)
    requires |g| == 12
    ensures |r| == 2
  {
    [BitsValue(g[..6]), BitsValue(g[6..])]
  }

  /** Case 6 of nr_modulation as written. The 192-bit blocks of the
    * first loop are eight 24-bit chunks read from 64-bit words, and the
    * second loop reads whole 24-bit chunks; each chunk writes four
    * symbols. Any remainder gets one more lookup of the 12 bits from
    * there, those past the input being the memory that follows it
    * (`past`). */
  function Mod64AsWritten(bits: seq<bool>, past: seq<bool>): (r: seq<nat>)
    requires |past| == 12
    ensures |r| == 4 * (|bits| / 24) + (if |bits| % 24 == 0 then 0 else 2)
    decreases |bits|
  {
    if |bits| >= 24 then
      DivStep(|bits|, 24);
      PairLookup(bits[..12]) + PairLookup(bits[12..24]) + Mod64AsWritten(bits[24..], past)
    else if |bits| == 0 then []
    else PairLookup((bits + past)[..12])
  }

  /** nr_modulation as written: the 64QAM path is Mod64AsWritten, the
    * other orders map one index per full group. */
  function SymbolIndicesAsWritten(bits: seq<bool>, m: nat, past: seq<bool>): (r: Outcome<seq<nat>>)
    requires |past| == 12
    ensures r.Fatal? <==> !SupportedModOrder(m)
    ensures r.Ok? && m != 6 ==> |r.value| == |bits| / m
  {
    if !SupportedModOrder(m) then Fatal
    else if m == 6 then Ok(Mod64AsWritten(bits, past))
    else Ok(Indices(bits, m))
  }

  /** Twelve bits map to the pair one table lookup gives. */
  lemma IndicesPair(bits: seq<bool>)
    requires |bits| >= 12
    ensures Indices(bits, 6) == PairLookup(bits[..12]) + Indices(bits[12..], 6)
  {
    var g, tail := bits[..12], bits[6..];
    IndicesSplit(bits, 6);
    IndicesSplit(tail, 6);
    assert bits[..6] == g[..6] && tail[..6] == g[6..] && tail[6..] == bits[12..];
    var a, b := BitsValue(g[..6]), BitsValue(g[6..]);
    assert Indices(tail, 6) == [b] + Indices(bits[12..], 6);
    assert Indices(bits, 6) == [a] + ([b] + Indices(bits[12..], 6));
    assert PairLookup(g) == [a, b];
  }

  /** A 24-bit chunk maps to the two pairs its two lookups give. */
  lemma IndicesChunk(bits: seq<bool>)
    requires |bits| >= 24
    ensures Indices(bits, 6) == PairLookup(bits[..12]) + PairLookup(bits[12..24]) + Indices(bits[24..], 6)
  {
    var tail := bits[12..];
    IndicesPair(bits);
    IndicesPair(tail);
    assert tail[..12] == bits[12..24] && tail[12..] == bits[24..];
    var p, q := PairLookup(bits[..12]), PairLookup(bits[12..24]);
    assert Indices(bits, 6) == p + (q + Indices(bits[24..], 6));
  }

  /** Whenever the bit count is a multiple of 12 the code's 64QAM path
    * writes exactly the symbols of the corrected mapping. */
  lemma {:induction false} Mod64AgreesOnWholePairs(bits: seq<bool>, past: seq<bool>)
    requires |past| == 12 && |bits| % 12 == 0
    ensures Mod64AsWritten(bits, past) == Indices(bits, 6)
    decreases |bits|
  {
    if |bits| >= 24 {
      Mod64AgreesOnWholePairs(bits[24..], past);
      IndicesChunk(bits);
    } else if |bits| == 12 {
      assert (bits + past)[..12] == bits;
      IndicesPair(bits);
      assert bits[..12] == bits;
    }
  }

  /** With 18 bits past the last whole chunk the final lookup writes two
    * of the three symbols: the code writes every symbol but the last. */
  lemma {:induction false} AsWrittenMod64DropsLastSymbol(bits: seq<bool>, past: seq<bool>)
    requires |past| == 12 && |bits| % 24 == 18
    ensures |Mod64AsWritten(bits, past)| == |bits| / 6 - 1
    ensures Mod64AsWritten(bits, past) == Indices(bits, 6)[..|bits| / 6 - 1]
    decreases |bits|
  {
    if |bits| >= 24 {
      AsWrittenMod64DropsLastSymbol(bits[24..], past);
      IndicesChunk(bits);
      var head := PairLookup(bits[..12]) + PairLookup(bits[12..24]);
      var rest := Indices(bits[24..], 6);
      var j := |bits[24..]| / 6 - 1;
      DivStep(|bits|, 6);
      DivStep(|bits| - 6, 6);
      DivStep(|bits| - 12, 6);
      DivStep(|bits| - 18, 6);
      assert (head + rest)[..4 + j] == head + rest[..j];
    } else {
      assert (bits + past)[..12] == bits[..12];
      IndicesPair(bits);
    }
  }

  /** With 6 bits past the last whole chunk the final lookup writes one
    * symbol more than the input holds, taken from the memory after it. */
  lemma {:induction false} AsWrittenMod64WritesPastEnd(bits: seq<bool>, past: seq<bool>)
    requires |past| == 12 && |bits| % 24 == 6
    ensures |Mod64AsWritten(bits, past)| == |bits| / 6 + 1
    ensures Mod64AsWritten(bits, past) == Indices(bits, 6) + [BitsValue(past[..6])]
    decreases |bits|
  {
    if |bits| >= 24 {
      AsWrittenMod64WritesPastEnd(bits[24..], past);
      IndicesChunk(bits);
    } else {
      var g := (bits + past)[..12];
      assert g[..6] == bits && g[6..] == past[..6];
      IndicesSplit(bits, 6);
      assert bits[..6] == bits;
    }
  }

  /** The code's modulation and the corrected one agree for every order
    * but 64QAM, and for 64QAM whenever the bit count is a multiple of
    * 12. */
  lemma SymbolIndicesAgree(bits: seq<bool>, m: nat, past: seq<bool>)
    requires |past| == 12 && (m != 6 || |bits| % 12 == 0)
    ensures SymbolIndicesAsWritten(bits, m, past) == SymbolIndices(bits, m)
  {
    if m == 6 {
      Mod64AgreesOnWholePairs(bits, past);
    }
  }

  // ---------------------------------------------------------------
  // nr_layer_mapping: symbol L*g + l goes to layer l, position g
  // ---------------------------------------------------------------

  /** The layers after `groups` passes of the scalar loop, each pass
    * dealing the next nLayers symbols one per layer. */
  function Deal(mod: seq<C16>, nLayers: nat, groups: nat): (layers: seq<seq<C16>>)
    requires nLayers * groups <= |mod|
    ensures |layers| == nLayers
    ensures forall l :: 0 <= l < nLayers ==> |layers[l]| == groups
  {
    if groups == 0 then seq(nLayers, _ => [])
    else
      assert nLayers * (groups - 1) + nLayers == nLayers * groups;
      var prev := Deal(mod, nLayers, groups - 1);
      seq(nLayers, l requires 0 <= l < nLayers => prev[l] + [mod[nLayers * (groups - 1) + l]])
  }

  /** After the loop, layer l, position g holds symbol nLayers * g + l. */
  lemma {:induction false} DealAt(mod: seq<C16>, nLayers: nat, groups: nat, l: nat, g: nat)
    requires nLayers * groups <= |mod| && l < nLayers && g < groups
    ensures nLayers * g + l < |mod|
    ensures Deal(mod, nLayers, groups)[l][g] == mod[nLayers * g + l]
  {
    assert nLayers * (groups - 1) + nLayers == nLayers * groups;
    if g < groups - 1 {
      DealAt(mod, nLayers, groups - 1, l, g);
    } else {
      assert g == groups - 1;
    }
  }

  /** nr_layer_mapping for one codeword: 1 to 4 layers, each receiving
    * ceil(n_symbs / n_layers) symbols; any other layer count aborts. */
  function LayerMapping(mod: seq<C16>, nLayers: nat, nSymbs: nat): (r: Outcome<seq<seq<C16>>>)
    requires 1 <= nLayers <= 4 ==> nLayers * CeilDiv(nSymbs, nLayers) <= |mod|
    ensures r.Fatal? <==> !(1 <= nLayers <= 4)
    ensures r.Ok? ==> |r.value| == nLayers
    ensures r.Ok? ==> forall l :: 0 <= l < nLayers ==> |r.value[l]| == CeilDiv(nSymbs, nLayers)
  {
    if nLayers == 1 then
      assert CeilDiv(nSymbs, 1) == nSymbs;
      Ok([mod[..nSymbs]])
    else if 2 <= nLayers <= 4 then Ok(Deal(mod, nLayers, CeilDiv(nSymbs, nLayers)))
    else Fatal
  }

  /** Layer l, position g holds symbol n_layers * g + l. */
  lemma LayerMappingPlaces(mod: seq<C16>, nLayers: nat, nSymbs: nat, l: nat, g: nat)
    requires 1 <= nLayers <= 4 && nLayers * CeilDiv(nSymbs, nLayers) <= |mod|
    requires l < nLayers && g < CeilDiv(nSymbs, nLayers)
    ensures nLayers * g + l < |mod|
    ensures LayerMapping(mod, nLayers, nSymbs).value[l][g] == mod[nLayers * g + l]
  {
    assert nLayers * g + l < nLayers * (g + 1) <= nLayers * CeilDiv(nSymbs, nLayers) by {
      MulLe(nLayers, g + 1, CeilDiv(nSymbs, nLayers));
    }
    if nLayers == 1 {
      assert CeilDiv(nSymbs, 1) == nSymbs;
    } else {
      DealAt(mod, nLayers, CeilDiv(nSymbs, nLayers), l, g);
    }
  }

  lemma MulLe(a: nat, b: nat, c: nat)
    requires b <= c
    ensures a * b <= a * c
  {
  }

  /** Reading the layers back round-robin: position k comes from layer
    * k % L, entry k / L. */
  function Interleave(layers: seq<seq<C16>>, nLayers: nat, groups: nat): (s: seq<C16>)
    requires nLayers > 0 && |layers| == nLayers
    requires forall l :: 0 <= l < nLayers ==> |layers[l]| >= groups
    ensures |s| == nLayers * groups
  {
    if groups == 0 then []
    else
      var prev := Interleave(layers, nLayers, groups - 1);
      prev + seq(nLayers, l requires 0 <= l < nLayers => layers[l][groups - 1])
  }

  /** Interleaving the mapped layers gives back the codeword's symbols. */
  lemma {:induction false} DealInterleave(mod: seq<C16>, nLayers: nat, groups: nat)
    requires nLayers > 0 && nLayers * groups <= |mod|
    ensures Interleave(Deal(mod, nLayers, groups), nLayers, groups) == mod[..nLayers * groups]
  {
    if groups > 0 {
      var p := nLayers * (groups - 1);
      assert p + nLayers == nLayers * groups;
      DealInterleave(mod, nLayers, groups - 1);
      DealInterleaveStep(mod, nLayers, groups, p);
      assert mod[..p] + mod[p .. p + nLayers] == mod[..p + nLayers];
    }
  }

  /** One more pass of the loop appends the next group in order. */
  lemma DealInterleaveStep(mod: seq<C16>, nLayers: nat, groups: nat, p: nat)
    requires nLayers > 0 && groups > 0 && p == nLayers * (groups - 1) && p + nLayers <= |mod|
    ensures Interleave(Deal(mod, nLayers, groups), nLayers, groups)
         == Interleave(Deal(mod, nLayers, groups - 1), nLayers, groups - 1) + mod[p .. p + nLayers]
  {
    assert p + nLayers == nLayers * groups;
    var layers := Deal(mod, nLayers, groups);
    var shorter := Deal(mod, nLayers, groups - 1);
    InterleavePrefix(layers, shorter, nLayers, groups - 1);
    var last := seq(nLayers, l requires 0 <= l < nLayers => layers[l][groups - 1]);
    forall l | 0 <= l < nLayers
      ensures last[l] == mod[p + l]
    {
      DealAt(mod, nLayers, groups, l, groups - 1);
    }
    assert last == mod[p .. p + nLayers];
  }

  /** Interleave only reads the first `groups` entries of each layer. */
  lemma {:induction false} InterleavePrefix(a: seq<seq<C16>>, b: seq<seq<C16>>, nLayers: nat, groups: nat)
    requires nLayers > 0 && |a| == nLayers && |b| == nLayers
    requires forall l :: 0 <= l < nLayers ==> |a[l]| >= groups && |b[l]| >= groups
    requires forall l, g :: 0 <= l < nLayers && 0 <= g < groups ==> a[l][g] == b[l][g]
    ensures Interleave(a, nLayers, groups) == Interleave(b, nLayers, groups)
  {
    if groups > 0 {
      InterleavePrefix(a, b, nLayers, groups - 1);
      assert seq(nLayers, l requires 0 <= l < nLayers => a[l][groups - 1])
          == seq(nLayers, l requires 0 <= l < nLayers => b[l][groups - 1]);
    }
  }

  /** Layer mapping is a permutation: interleaving the layers restores the
    * (padded) codeword. */
  lemma LayerMappingInverse(mod: seq<C16>, nLayers: nat, nSymbs: nat)
    requires 1 <= nLayers <= 4 && nLayers * CeilDiv(nSymbs, nLayers) <= |mod|
    ensures Interleave(LayerMapping(mod, nLayers, nSymbs).value, nLayers, CeilDiv(nSymbs, nLayers))
         == mod[..nLayers * CeilDiv(nSymbs, nLayers)]
  {
    var n := CeilDiv(nSymbs, nLayers);
    if nLayers == 1 {
      assert n == nSymbs;
      forall l, g | 0 <= l < 1 && 0 <= g < n
        ensures [mod[..nSymbs]][l][g] == Deal(mod, 1, n)[l][g]
      {
        DealAt(mod, 1, n, l, g);
      }
      InterleavePrefix([mod[..nSymbs]], Deal(mod, 1, n), 1, n);
    }
    DealInterleave(mod, nLayers, n);
  }

  /** The four-layer mapping as the aarch64 build performs it: for every
    * full group of four the vector path stores lanes 0 and 1 into
    * layers 2 and 3 as well; a trailing partial group goes through the
    * scalar loop. */
  function NeonLayerMapping4AsWritten(mod: seq<C16>, nSymbs: nat): (layers: seq<seq<C16>>)
    requires 4 * CeilDiv(nSymbs, 4) <= |mod|
    ensures |layers| == 4 && forall l :: 0 <= l < 4 ==> |layers[l]| == CeilDiv(nSymbs, 4)
  {
    var full := nSymbs / 4;
    var dealt := Deal(mod, 4, CeilDiv(nSymbs, 4));
    seq(4, l requires 0 <= l < 4 =>
      seq(CeilDiv(nSymbs, 4), g requires 0 <= g < CeilDiv(nSymbs, 4) =>
        if g < full && l >= 2 then dealt[l - 2][g] else dealt[l][g]))
  }

  /** On aarch64 layers 2 and 3 repeat layers 0 and 1 for every full group,
    * so whenever symbols 0 and 2 differ the result is not the mapping of
    * TS 38.211 Table 7.3.1.3-1. */
  lemma AsWrittenNeonRepeatsLayers(mod: seq<C16>, nSymbs: nat)
    requires 4 * CeilDiv(nSymbs, 4) <= |mod| && nSymbs >= 4
    ensures forall g :: 0 <= g < nSymbs / 4 ==> NeonLayerMapping4AsWritten(mod, nSymbs)[2][g] == mod[4 * g]
    ensures mod[0] != mod[2] ==> NeonLayerMapping4AsWritten(mod, nSymbs) != LayerMapping(mod, 4, nSymbs).value
  {
    var c := CeilDiv(nSymbs, 4);
    Arithmetic.DivMulLe(nSymbs, 4);
    assert nSymbs / 4 <= c;
    forall g | 0 <= g < nSymbs / 4
      ensures NeonLayerMapping4AsWritten(mod, nSymbs)[2][g] == mod[4 * g]
    {
      DealAt(mod, 4, c, 0, g);
    }
    if mod[0] != mod[2] {
      LayerMappingPlaces(mod, 4, nSymbs, 2, 0);
      assert NeonLayerMapping4AsWritten(mod, nSymbs)[2][0] == mod[0];
    }
  }

  // ---------------------------------------------------------------
  // nr_ue_layer_mapping: layer mapping with amplitude scaling
  // ---------------------------------------------------------------

  /** c16mulRealShift(x, amp, 15): each part times amp, shifted right
    * arithmetically by 15 and narrowed to int16. */
  function ScaleAmp(x: C16, amp: int): C16
  {
    C16(Wrap16(x.r * amp / 0x8000), Wrap16(x.i * amp / 0x8000))
  }

  /** `layer` holds, at each position j, symbol nLayers * j + l scaled. */
  predicate ScaledLayer(mod: seq<C16>, nLayers: nat, l: nat, amp: int, layer: seq<C16>)
  {
    forall j :: 0 <= j < |layer| ==> nLayers * j + l < |mod| && layer[j] == ScaleAmp(mod[nLayers * j + l], amp)
  }

  /** The inner loop of nr_ue_layer_mapping for layer l. */
  method UeLayer(mod: seq<C16>, nLayers: nat, nSymbs: nat, l: nat, amp: int) returns (layer: seq<C16>)
    requires nLayers * nSymbs <= |mod| && l < nLayers
    ensures |layer| == nSymbs && ScaledLayer(mod, nLayers, l, amp, layer)
  {
    layer := [];
    var i := 0;
    while i < nSymbs
      invariant 0 <= i <= nSymbs && |layer| == i
      invariant ScaledLayer(mod, nLayers, l, amp, layer)
    {
      SymbolInRange(nLayers, nSymbs, i, l);
      layer := layer + [ScaleAmp(mod[nLayers * i + l], amp)];
      i := i + 1;
    }
  }

  /** nr_ue_layer_mapping: layer l, position i receives symbol
    * n_layers * i + l scaled by AMP, for any number of layers. */
  method UeLayerMapping(mod: seq<C16>, nLayers: nat, nSymbs: nat, amp: int) returns (tx: seq<seq<C16>>)
    requires nLayers * nSymbs <= |mod|
    ensures |tx| == nLayers
    ensures forall l :: 0 <= l < nLayers ==> |tx[l]| == nSymbs && ScaledLayer(mod, nLayers, l, amp, tx[l])
  {
    tx := [];
    var l := 0;
    while l < nLayers
      invariant 0 <= l <= nLayers && |tx| == l
      invariant forall k :: 0 <= k < l ==> |tx[k]| == nSymbs && ScaledLayer(mod, nLayers, k, amp, tx[k])
    {
      var layer := UeLayer(mod, nLayers, nSymbs, l, amp);
      tx := tx + [layer];
      l := l + 1;
    }
  }

  lemma SymbolInRange(nLayers: nat, nSymbs: nat, i: nat, l: nat)
    requires i < nSymbs && l < nLayers
    ensures nLayers * i + l < nLayers * nSymbs
  {
    MulLe(nLayers, i + 1, nSymbs);
  }

  /** For 1 to 4 layers the UE mapping is the gNB mapping of
    * n_layers * n_symbs symbols, scaled. */
  lemma UeMappingIsScaledLayerMapping(mod: seq<C16>, nLayers: nat, nSymbs: nat, amp: int, tx: seq<seq<C16>>, l: nat, i: nat)
    requires 1 <= nLayers <= 4 && nLayers * nSymbs <= |mod|
    requires |tx| == nLayers
    requires forall k :: 0 <= k < nLayers ==> |tx[k]| == nSymbs && ScaledLayer(mod, nLayers, k, amp, tx[k])
    requires l < nLayers && i < nSymbs
    ensures CeilDiv(nLayers * nSymbs, nLayers) == nSymbs
    ensures tx[l][i] == ScaleAmp(LayerMapping(mod, nLayers, nLayers * nSymbs).value[l][i], amp)
  {
    CeilOfMultiple(nLayers, nSymbs);
    LayerMappingPlaces(mod, nLayers, nLayers * nSymbs, l, i);
  }

  lemma CeilOfMultiple(a: nat, n: nat)
    requires a > 0
    ensures CeilDiv(a * n, a) == n
  {
    assert a * n + a - 1 == n * a + (a - 1);
    Arithmetic.DivModUnique(a * n + a - 1, a, n, a - 1);
  }

  // ---------------------------------------------------------------
  // nr_layer_precoder: one output sample of a precoding matrix row
  // ---------------------------------------------------------------

  /** A matrix entry as a Gaussian integer: '1' = 1, 'n' = -1, 'j' = j,
    * 'o' = -j; '0' and any other character weigh nothing. */
  function Weight(w: char): (z: C16)
    ensures -1 <= z.r <= 1 && -1 <= z.i <= 1 && z.r * z.i == 0
  {
    if w == '1' then C16(1, 0)
    else if w == 'n' then C16(-1, 0)
    else if w == 'j' then C16(0, 1)
    else if w == 'o' then C16(0, -1)
    else C16(0, 0)
  }

  function Times(a: C16, b: C16): C16
  {
    C16(a.r * b.r - a.i * b.i, a.r * b.i + a.i * b.r)
  }

  /** One case of the precoder's switch applied to the accumulator, with
    * int16 wrap-around as the c16_t stores do it. */
  function PrecodeStep(acc: C16, w: char, x: C16): C16
  {
    match w
    case '1' => C16(Wrap16(acc.r + x.r), Wrap16(acc.i + x.i))
    case 'n' => C16(Wrap16(acc.r - x.r), Wrap16(acc.i - x.i))
    case 'j' => C16(Wrap16(acc.r - x.i), Wrap16(acc.i + x.r))
    case 'o' => C16(Wrap16(acc.r + x.i), Wrap16(acc.i - x.r))
    case _ => acc
  }

  /** nr_layer_precoder over the first n layers at one RE. */
  function LayerPrecoder(data: seq<seq<C16>>, prec: seq<char>, n: nat, reOffset: nat): C16
    requires n <= |data| && n <= |prec|
    requires forall al :: 0 <= al < n ==> reOffset < |data[al]|
  {
    if n == 0 then Zero16
    else PrecodeStep(LayerPrecoder(data, prec, n - 1, reOffset), prec[n - 1], data[n - 1][reOffset])
  }

  /** The exact sum of weight times sample over the first n layers. */
  function WeightedSum(data: seq<seq<C16>>, prec: seq<char>, n: nat, reOffset: nat): C16
    requires n <= |data| && n <= |prec|
    requires forall al :: 0 <= al < n ==> reOffset < |data[al]|
  {
    if n == 0 then Zero16
    else
      var s := WeightedSum(data, prec, n - 1, reOffset);
      var p := Times(Weight(prec[n - 1]), data[n - 1][reOffset]);
      C16(s.r + p.r, s.i + p.i)
  }

  lemma WrapAdd(a: int, b: int)
    ensures Wrap16(Wrap16(a) + b) == Wrap16(a + b)
  {
    var w := Wrap16(a);
    assert (w - a) % 65536 == 0;
    var k := (w - a) / 65536;
    assert w == a + 65536 * k;
    assert (w + b + 32768) % 65536 == (a + b + 32768 + 65536 * k) % 65536;
    ModShift(a + b + 32768, k);
  }

  lemma ModShift(x: int, k: int)
    ensures (x + 65536 * k) % 65536 == x % 65536
  {
  }

  /** The Gaussian product with each matrix entry. */
  lemma TimesWeight(w: char, x: C16)
    ensures Times(Weight(w), x) == (
      if w == '1' then x
      else if w == 'n' then C16(-x.r, -x.i)
      else if w == 'j' then C16(-x.i, x.r)
      else if w == 'o' then C16(x.i, -x.r)
      else Zero16)
  {
  }

  lemma WrapInRange(a: int)
    requires -32768 <= a < 32768
    ensures Wrap16(a) == a
  {
    Arithmetic.ModSmall(a + 32768, 65536);
  }

  /** Each case of the switch adds weight times sample to the
    * accumulator, narrowed to int16. */
  lemma PrecodeStepAdds(acc: C16, w: char, x: C16)
    requires -32768 <= acc.r < 32768 && -32768 <= acc.i < 32768
    ensures var p := Times(Weight(w), x);
      PrecodeStep(acc, w, x) == C16(Wrap16(acc.r + p.r), Wrap16(acc.i + p.i))
  {
    var p := Times(Weight(w), x);
    TimesWeight(w, x);
    if w == '1' {
      assert p == x;
    } else if w == 'n' {
      assert p == C16(-x.r, -x.i);
    } else if w == 'j' {
      assert p == C16(-x.i, x.r);
    } else if w == 'o' {
      assert p == C16(x.i, -x.r);
    } else {
      assert p == Zero16;
      WrapInRange(acc.r);
      WrapInRange(acc.i);
    }
  }

  lemma StepIsWeightedAdd(acc: C16, s: C16, w: char, x: C16)
    requires acc == C16(Wrap16(s.r), Wrap16(s.i))
    ensures PrecodeStep(acc, w, x) == C16(Wrap16(s.r + Times(Weight(w), x).r), Wrap16(s.i + Times(Weight(w), x).i))
  {
    var p := Times(Weight(w), x);
    PrecodeStepAdds(acc, w, x);
    WrapAdd(s.r, p.r);
    WrapAdd(s.i, p.i);
  }

  lemma WrapIdempotent(a: int)
    ensures Wrap16(Wrap16(a)) == Wrap16(a)
  {
    WrapAdd(a, 0);
  }

  /** The precoder's output is the weighted sum of the layers' samples,
    * the entries acting as 0, +1, -1, +j and -j, narrowed to int16. */
  lemma {:induction false} PrecoderIsWeightedSum(data: seq<seq<C16>>, prec: seq<char>, n: nat, reOffset: nat)
    requires n <= |data| && n <= |prec|
    requires forall al :: 0 <= al < n ==> reOffset < |data[al]|
    ensures var s := WeightedSum(data, prec, n, reOffset);
      LayerPrecoder(data, prec, n, reOffset) == C16(Wrap16(s.r), Wrap16(s.i))
  {
    if n > 0 {
      PrecoderIsWeightedSum(data, prec, n - 1, reOffset);
      StepIsWeightedAdd(LayerPrecoder(data, prec, n - 1, reOffset), WeightedSum(data, prec, n - 1, reOffset),
                        prec[n - 1], data[n - 1][reOffset]);
    }
  }
}
