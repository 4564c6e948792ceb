/** The type I single-panel DL MIMO codebook of the gNB MAC (TS 38.214
    section 5.2.2.2.1): how many precoding matrices each layer count
    gets, and the PMI list entries generated for them. The weights
    themselves are floating point and are not modelled; what is modelled
    is which entries are written and with what index, layer count and
    port count. */
module Codebook {
  import opened Common
  import opened Arithmetic

  // ---------------------------------------------------------------
  // get_K1_K2
  // ---------------------------------------------------------------

  /** `get_K1_K2`: the number of beam offsets k1 (horizontal) and k2
      (vertical) the codebook uses for a layer count; layer counts
      above 4 stop the program. */
  function GetK1K2(n1: int, n2: int, layers: int): (o: Outcome<(int, int)>)
    ensures o.Ok? <==> 1 <= layers <= 4
    ensures o.Ok? && layers == 1 ==> o.value == (1, 1)
    ensures o.Ok? && layers >= 2 ==> (o.value.1 == 1 <==> n2 == 1) && (n2 != 1 ==> o.value.1 == 2)
    ensures o.Ok? && n1 >= 1 ==> o.value.0 >= 1 && o.value.1 >= 1
  {
    if layers == 1 then Ok((1, 1))
    else if layers == 2 then
      var k2 := if n2 == 1 then 1 else 2;
      var k1 := if n2 == n1 || n1 == 2 then 2 else if n2 == 1 then 4 else 3;
      Ok((k1, k2))
    else if layers == 3 || layers == 4 then
      var k2 := if n2 == 1 then 1 else 2;
      var k1 := if n1 == 6 then 5 else n1;
      Ok((k1, k2))
    else Fatal
  }

  /** The layer-specific K1 values of the two tables, as coded: for two
      layers 2 when the panel is square or two columns wide, 4 for a
      single row, 3 otherwise; for three and four layers the panel width,
      except 5 for a width of 6. */
  lemma K1Values(n1: int, n2: int)
    ensures GetK1K2(n1, n2, 2).value.0 in {2, 3, 4}
    ensures n1 >= 1 ==> GetK1K2(n1, n2, 3).value.0 == GetK1K2(n1, n2, 4).value.0 <= n1
    ensures GetK1K2(n1, n2, 3).value.1 == GetK1K2(n1, n2, 2).value.1
  {
  }

  // ---------------------------------------------------------------
  // precoding_weigths_generation
  // ---------------------------------------------------------------

  /** One `nfapi_nr_pm_pdu_t`, without its weights. */
  datatype PmiPdu = PmiPdu(pmIdx: int, numLayers: int, numAntPorts: int)

  /** Co-phasing values i2 per beam: 4 for one layer, 2 otherwise. */
  function I2Size(layers: int): nat {
    if layers == 1 then 4 else 2
  }

  /** The oversampled panel as the codebook sees it. */
  datatype Panel = Panel(n1: nat, n2: nat, o1: nat, o2: nat)

  /** Beam combinations the four outer loops run over: k2, k1, then the
      N2*O2 vertical and N1*O1 horizontal beams. */
  function BeamCount(p: Panel, k1: nat, k2: nat): nat {
    k2 * k1 * (p.n2 * p.o2) * (p.n1 * p.o1)
  }

  /** Entries [from, to) of `m` are the PMI entries of their own index
      for `layers` layers, and the rest of `m` is `before`. */
  predicate Filled(before: seq<PmiPdu>, m: seq<PmiPdu>, from: nat, to: nat, layers: int, ports: int) {
    && |m| == |before| && from <= to <= |m|
    && (forall q :: from <= q < to ==> m[q] == PmiPdu(q + 1, layers, ports))
    && (forall q :: 0 <= q < |m| && !(from <= q < to) ==> m[q] == before[q])
  }

  /** The innermost loop: one entry per co-phasing value, the first PMI
      index being 1 since index 0 is the identity. */
  method GenerateCoPhasings(m: seq<PmiPdu>, pmiq: nat, layers: int, ports: int) returns (r: seq<PmiPdu>, next: nat)
    requires pmiq + I2Size(layers) <= |m|
    ensures next == pmiq + I2Size(layers)
    ensures Filled(m, r, pmiq, next, layers, ports)
  {
    r, next := m, pmiq;
    for nn := 0 to I2Size(layers)
      invariant next == pmiq + nn
      invariant Filled(m, r, pmiq, next, layers, ports)
    {
      r := r[next := PmiPdu(next + 1, layers, ports)];
      next := next + 1;
    }
  }

  /** `precoding_weigths_generation` for `layers` layers from entry
      `pmiq`: one block of co-phasings per beam combination. The four
      outer loops are walked as one loop over their combinations, since
      only the weights depend on the loop indices. Returns the index after
      the last entry written. */
  method PrecodingWeightsGeneration(m: seq<PmiPdu>, pmiq: nat, layers: int, p: Panel, ports: int)
    returns (o: Outcome<(seq<PmiPdu>, nat)>)
    requires 1 <= layers <= 4 ==> var k := GetK1K2(p.n1, p.n2, layers).value;
      k.0 >= 0 && k.1 >= 0 && pmiq + BeamCount(p, k.0, k.1) * I2Size(layers) <= |m|
    ensures o.Fatal? <==> !(1 <= layers <= 4)
    ensures o.Ok? ==> var k := GetK1K2(p.n1, p.n2, layers).value;
      && o.value.1 == pmiq + BeamCount(p, k.0, k.1) * I2Size(layers)
      && Filled(m, o.value.0, pmiq, o.value.1, layers, ports)
  {
    var k := GetK1K2(p.n1, p.n2, layers);
    if k.Fatal? {
      return Fatal;
    }
    var k1: nat, k2: nat := k.value.0, k.value.1;
    var beams := BeamCount(p, k1, k2);
    var block := I2Size(layers);
    var r, next := m, pmiq;
    for b := 0 to beams
      invariant next == pmiq + b * block
      invariant Filled(m, r, pmiq, next, layers, ports)
    {
      MulStep(b, block, beams);
      var r2, next2 := GenerateCoPhasings(r, next, layers, ports);
      r, next := r2, next2;
    }
    return Ok((r, next));
  }

  lemma MulStep(b: nat, block: nat, beams: nat)
    requires b < beams
    ensures (b + 1) * block == b * block + block
    ensures b * block + block <= beams * block
  {
    MulMonotone(b + 1, beams, block);
  }

  // ---------------------------------------------------------------
  // init_DL_MIMO_codebook
  // ---------------------------------------------------------------

  /** What the codebook initialisation leaves: the matrix count per layer
      count (`precoding_matrix_size`) and the PMI list. */
  datatype DlCodebook = DlCodebook(sizes: seq<nat>, pdus: seq<PmiPdu>)

  /** Antenna ports of the panel: N1 * N2 * XP. */
  function PortCount(n1: nat, n2: nat, xp: nat): nat {
    n1 * n2 * xp
  }

  /** The panel with the oversampling factors the code picks: 4 where the
      panel has more than one row (resp. more than two ports), else 1. */
  function Oversampled(n1: nat, n2: nat, ports: nat): Panel {
    Panel(n1, n2, if ports > 2 then 4 else 1, if n2 > 1 then 4 else 1)
  }

  /** Matrices for `layers` layers, in the order the size loop multiplies. */
  function MatrixCount(p: Panel, layers: int): nat
    requires 1 <= layers <= 4 && p.n1 >= 1
  {
    var k := GetK1K2(p.n1, p.n2, layers).value;
    I2Size(layers) * p.n1 * p.o1 * p.n2 * p.o2 * (k.0 as nat) * (k.1 as nat)
  }

  function Sum(xs: seq<nat>): nat
    decreases |xs|
  {
    if |xs| == 0 then 0 else Sum(xs[..|xs| - 1]) + xs[|xs| - 1]
  }

  /** The layer count of entry q of a list made of blocks of the given
      sizes, layer 1 first. */
  function LayerOf(sizes: seq<nat>, q: nat): (l: nat)
    requires q < Sum(sizes)
    ensures 1 <= l <= |sizes|
    decreases |sizes|
  {
    if q >= Sum(sizes[..|sizes| - 1]) then |sizes| else LayerOf(sizes[..|sizes| - 1], q)
  }

  /** The generation loop writes a block of exactly the size the sizing
      loop counted. */
  lemma BlockIsMatrixCount(p: Panel, layers: int)
    requires 1 <= layers <= 4 && p.n1 >= 1
    ensures var k := GetK1K2(p.n1, p.n2, layers).value;
      BeamCount(p, k.0, k.1) * I2Size(layers) == MatrixCount(p, layers)
  {
    var k := GetK1K2(p.n1, p.n2, layers).value;
    Reorder(I2Size(layers), p.n1, p.o1, p.n2, p.o2, k.0 as nat, k.1 as nat);
  }

  /** The two loop orders multiply the same seven factors. */
  lemma Reorder(i2: nat, n1: nat, o1: nat, n2: nat, o2: nat, k1: nat, k2: nat)
    ensures (k2 * k1 * (n2 * o2) * (n1 * o1)) * i2 == i2 * n1 * o1 * n2 * o2 * k1 * k2
  {
    var h, v, kk := n1 * o1, n2 * o2, k2 * k1;
    assert k2 * k1 * v * h == kk * v * h;
    assert kk * v * h * i2 == i2 * h * v * kk;
    assert i2 * h == i2 * n1 * o1;
    assert i2 * n1 * o1 * v == i2 * n1 * o1 * n2 * o2;
    assert i2 * n1 * o1 * n2 * o2 * kk == i2 * n1 * o1 * n2 * o2 * k1 * k2;
  }

  /** Entries below `to` are the PMI entries of their own index, with the
      layer count of their block and the panel's port count. */
  predicate Generated(m: seq<PmiPdu>, sizes: seq<nat>, to: nat, ports: int) {
    to <= |m| && to <= Sum(sizes)
    && forall q :: 0 <= q < to ==> m[q] == PmiPdu(q + 1, LayerOf(sizes, q), ports)
  }

  /** `init_DL_MIMO_codebook`. A panel of fewer than two ports gets an
      empty codebook. Otherwise up to `min(ports, maxNbLayers)` layer
      counts get their matrices, the program stopping beyond 4 layers or
      at 16 ports or more; the list has exactly as many entries as the
      sizes add up to, numbered from 1, the layer-1 matrices first.
      `maxNbLayers` is the build's `NR_MAX_NB_LAYERS`. */
  method InitDlMimoCodebook(n1: nat, n2: nat, xp: nat, maxNbLayers: nat) returns (o: Outcome<DlCodebook>)
    ensures PortCount(n1, n2, xp) < 2 ==> o == Ok(DlCodebook([], []))
    ensures PortCount(n1, n2, xp) >= 2 ==>
      (o.Fatal? <==> Min(PortCount(n1, n2, xp), maxNbLayers) > 4 || PortCount(n1, n2, xp) >= 16)
    ensures o.Ok? && PortCount(n1, n2, xp) >= 2 ==>
      var ports := PortCount(n1, n2, xp);
      var p := Oversampled(n1, n2, ports);
      && n1 >= 1
      && |o.value.sizes| == Min(ports, maxNbLayers)
      && (forall i :: 0 <= i < |o.value.sizes| ==> o.value.sizes[i] == MatrixCount(p, i + 1))
      && |o.value.pdus| == Sum(o.value.sizes)
      && Generated(o.value.pdus, o.value.sizes, |o.value.pdus|, ports)
  {
    var ports := PortCount(n1, n2, xp);
    if ports < 2 {
      return Ok(DlCodebook([], []));
    }
    NonZeroFactors(n1, n2, xp);
    var p := Oversampled(n1, n2, ports);
    var maxLayers := if ports < maxNbLayers then ports else maxNbLayers;
    if maxLayers > 4 || ports >= 16 {
      return Fatal;
    }
    var sizes: seq<nat> := [];
    for i := 0 to maxLayers
      invariant |sizes| == i
      invariant forall j :: 0 <= j < i ==> sizes[j] == MatrixCount(p, j + 1)
    {
      sizes := sizes + [MatrixCount(p, i + 1)];
    }
    var total := Sum(sizes);
    var pdus := seq(total, _ => PmiPdu(0, 0, 0));
    var pmiq := 0;
    for layers := 1 to maxLayers + 1
      invariant pmiq == Sum(sizes[..layers - 1])
      invariant Generated(pdus, sizes, pmiq, ports) && |pdus| == total
    {
      SumPrefixStep(sizes, layers - 1);
      BlockIsMatrixCount(p, layers);
      var g := PrecodingWeightsGeneration(pdus, pmiq, layers, p, ports);
      LayerBlock(sizes, layers, pmiq, pdus, g.value.0, ports);
      pdus, pmiq := g.value.0, g.value.1;
    }
    assert sizes[..maxLayers] == sizes;
    return Ok(DlCodebook(sizes, pdus));
  }

  lemma NonZeroFactors(n1: nat, n2: nat, xp: nat)
    requires PortCount(n1, n2, xp) >= 2
    ensures n1 >= 1 && n2 >= 1 && xp >= 1
  {
  }

  lemma SumPrefixStep(sizes: seq<nat>, i: nat)
    requires i < |sizes|
    ensures Sum(sizes[..i + 1]) == Sum(sizes[..i]) + sizes[i]
    ensures Sum(sizes[..i + 1]) <= Sum(sizes)
  {
    assert sizes[..i + 1][..i] == sizes[..i];
    SumPrefixLe(sizes, i + 1);
  }

  lemma {:induction false} SumPrefixLe(sizes: seq<nat>, n: nat)
    requires n <= |sizes|
    ensures Sum(sizes[..n]) <= Sum(sizes)
    decreases |sizes| - n
  {
    if n < |sizes| {
      SumPrefixLe(sizes, n + 1);
      assert sizes[..n + 1][..n] == sizes[..n];
    } else {
      assert sizes[..n] == sizes;
    }
  }

  /** Entry q of the list of the first i blocks keeps its layer when more
      blocks follow. */
  lemma {:induction false} LayerOfPrefix(sizes: seq<nat>, i: nat, q: nat)
    requires i <= |sizes| && q < Sum(sizes[..i])
    ensures q < Sum(sizes) && LayerOf(sizes, q) == LayerOf(sizes[..i], q)
    decreases |sizes| - i
  {
    SumPrefixLe(sizes, i);
    if i < |sizes| {
      SumPrefixStep(sizes, i);
      LayerOfPrefix(sizes, i + 1, q);
      var pre := sizes[..i + 1];
      assert pre[..|pre| - 1] == sizes[..i];
    } else {
      assert sizes[..i] == sizes;
    }
  }

  /** The entries of block `layers` have that layer count. */
  lemma LayerOfBlock(sizes: seq<nat>, layers: nat, q: nat)
    requires 1 <= layers <= |sizes|
    requires Sum(sizes[..layers - 1]) <= q < Sum(sizes[..layers - 1]) + sizes[layers - 1]
    ensures q < Sum(sizes) && LayerOf(sizes, q) == layers
  {
    SumPrefixStep(sizes, layers - 1);
    LayerOfPrefix(sizes, layers, q);
    var pre := sizes[..layers];
    assert pre[..|pre| - 1] == sizes[..layers - 1];
  }

  /** Writing block `layers` after the blocks before it extends the
      generated prefix over that block. */
  lemma LayerBlock(sizes: seq<nat>, layers: nat, pmiq: nat, m: seq<PmiPdu>, r: seq<PmiPdu>, ports: int)
    requires 1 <= layers <= |sizes| && pmiq == Sum(sizes[..layers - 1])
    requires Generated(m, sizes, pmiq, ports)
    requires Filled(m, r, pmiq, pmiq + sizes[layers - 1], layers, ports)
    requires Sum(sizes[..layers]) == pmiq + sizes[layers - 1] <= Sum(sizes)
    ensures Generated(r, sizes, pmiq + sizes[layers - 1], ports)
  {
    forall q | 0 <= q < pmiq + sizes[layers - 1]
      ensures r[q] == PmiPdu(q + 1, LayerOf(sizes, q), ports)
    {
      if q >= pmiq {
        LayerOfBlock(sizes, layers, q);
      }
    }
  }
}
