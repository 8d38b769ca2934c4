/**
 Flat parameter buffers of verl/utils/memory_buffer.py: one buffer per element type, in which the parameters,
 in name order, get aligned regions of their own.
 */
module MemoryBuffers {
  import opened Arithmetic
  import opened Blocks
  import opened Wrappers

  datatype Dtype = Dtype(name: string, bits: nat)

  /** A parameter of the name-sorted list: its type and its elements, flattened. */
  datatype Param<T> = Param(dtype: Dtype, values: seq<T>)

  /** The part of a buffer that a parameter is a view of. */
  datatype Region = Region(dtype: Dtype, start: nat, size: nat)

  /** An element type whose width fits the alignment of 128 bits a whole number of times. */
  predicate Alignable(d: Dtype) {
    d.bits >= 1 && 128 % d.bits == 0
  }

  function AlignNumel(d: Dtype): nat
    requires d.bits >= 1
  {
    QuotientNonNegative(128, d.bits);
    128 / d.bits
  }

  lemma AlignPositive(d: Dtype)
    requires Alignable(d)
    ensures AlignNumel(d) >= 1 && AlignNumel(d) * d.bits == 128
  {
    ExactDivision(128, d.bits);
  }

  /** `calc_padded_numel` */
  function CalcPaddedNumel(numel: nat, d: Dtype): int
    requires d.bits >= 1 && AlignNumel(d) >= 1
  {
    (numel + AlignNumel(d) - 1) / AlignNumel(d) * AlignNumel(d)
  }

  /** The padded size is the least multiple of the alignment that holds all elements. */
  lemma PaddedIsLeast(numel: nat, d: Dtype)
    requires d.bits >= 1 && AlignNumel(d) >= 1
    ensures numel <= CalcPaddedNumel(numel, d) < numel + AlignNumel(d)
    ensures CalcPaddedNumel(numel, d) % AlignNumel(d) == 0
  {
    var a := AlignNumel(d);
    var q := (numel + a - 1) / a;
    assert numel + a - 1 == a * q + (numel + a - 1) % a;
    assert q * a == a * q;
    DivModUnique(q * a, a, q, 0);
  }

  lemma BitsOfMultiple(n: int, a: int, bits: int)
    requires a >= 1 && bits >= 1 && a * bits == 128 && n % a == 0
    ensures n * bits % 128 == 0
  {
    ExactDivision(n, a);
    assert n * bits == n / a * (a * bits);
    DivModUnique(n * bits, 128, n / a, 0);
  }

  /** In bits: padding fills up to the next multiple of 128. */
  lemma PaddedTo128Bits(numel: nat, d: Dtype)
    requires Alignable(d)
    ensures AlignNumel(d) >= 1 && CalcPaddedNumel(numel, d) * d.bits % 128 == 0
    ensures 0 <= (CalcPaddedNumel(numel, d) - numel) * d.bits < 128
  {
    AlignPositive(d);
    PaddedIsLeast(numel, d);
    BitsOfMultiple(CalcPaddedNumel(numel, d), AlignNumel(d), d.bits);
    var more := CalcPaddedNumel(numel, d) - numel;
    MulMonotonic(d.bits, 0, more);
    MulMonotonic(d.bits, more + 1, AlignNumel(d));
  }

  // ---------- where regions lie ----------

  /** What a parameter asks of its buffer. */
  datatype Slot = Slot(dtype: Dtype, size: nat, padded: nat) {
    predicate Ok() {
      && Alignable(dtype) && AlignNumel(dtype) >= 1
      && size <= padded < size + AlignNumel(dtype) && padded % AlignNumel(dtype) == 0
    }
  }

  function SlotOf<T>(p: Param<T>): (s: Slot)
    requires Alignable(p.dtype)
    ensures s.Ok() && s.dtype == p.dtype && s.size == |p.values|
  {
    AlignPositive(p.dtype);
    PaddedIsLeast(|p.values|, p.dtype);
    Slot(p.dtype, |p.values|, CalcPaddedNumel(|p.values|, p.dtype))
  }

  predicate AllAlignable<T>(params: seq<Param<T>>) {
    forall i :: 0 <= i < |params| ==> Alignable(params[i].dtype)
  }

  predicate AllOk(slots: seq<Slot>) {
    forall i :: 0 <= i < |slots| ==> slots[i].Ok()
  }

  function Slots<T>(params: seq<Param<T>>): (ss: seq<Slot>)
    requires AllAlignable(params)
    ensures |ss| == |params| && AllOk(ss)
    ensures forall i {:trigger ss[i]} :: 0 <= i < |params| ==> ss[i].dtype == params[i].dtype
  {
    seq(|params|, i requires 0 <= i < |params| => SlotOf(params[i]))
  }

  lemma SlotAt<T>(params: seq<Param<T>>, i: nat)
    requires AllAlignable(params) && i < |params|
    ensures Slots(params)[i] == SlotOf(params[i])
  {
  }

  /** What the first i slots take up in the buffer of one type. */
  function Used(slots: seq<Slot>, d: Dtype, i: nat): (n: nat)
    requires i <= |slots|
  {
    if i == 0 then 0
    else Used(slots, d, i - 1) + if slots[i - 1].dtype == d then slots[i - 1].padded else 0
  }

  lemma {:induction false} UsedGrows(slots: seq<Slot>, d: Dtype, i: nat, j: nat)
    requires i <= j <= |slots|
    ensures Used(slots, d, i) <= Used(slots, d, j)
  {
    if i < j { UsedGrows(slots, d, i, j - 1); }
  }

  /** The size of a type's buffer. */
  function BufferSize(slots: seq<Slot>, d: Dtype): nat {
    Used(slots, d, |slots|)
  }

  function RegionOf(slots: seq<Slot>, i: nat): Region
    requires i < |slots|
  {
    Region(slots[i].dtype, Used(slots, slots[i].dtype, i), slots[i].size)
  }

  /** Regions end before the next one of their type starts, and are in bounds. */
  lemma RegionFits(slots: seq<Slot>, i: nat)
    requires AllOk(slots) && i < |slots|
    ensures RegionOf(slots, i).start + RegionOf(slots, i).size <= Used(slots, slots[i].dtype, i + 1)
    ensures RegionOf(slots, i).start + RegionOf(slots, i).size <= BufferSize(slots, slots[i].dtype)
  {
    assert slots[i].Ok();
    UsedGrows(slots, slots[i].dtype, i + 1, |slots|);
  }

  predicate NoneOf(slots: seq<Slot>, d: Dtype, i: nat, j: nat)
    requires i <= j <= |slots|
  {
    forall m :: i <= m < j ==> slots[m].dtype != d
  }

  lemma {:induction false} UsedSkips(slots: seq<Slot>, d: Dtype, i: nat, j: nat)
    requires i <= j <= |slots| && NoneOf(slots, d, i, j)
    ensures Used(slots, d, i) == Used(slots, d, j)
  {
    if i < j { UsedSkips(slots, d, i, j - 1); }
  }

  /**
   No space is wasted: the first region of a type starts at 0, and the next one of the type, or the end of the
   buffer, comes less than one alignment unit after the end of a region.
   */
  lemma RegionsTight(slots: seq<Slot>, i: nat, next: nat)
    requires AllOk(slots) && i < next <= |slots| && NoneOf(slots, slots[i].dtype, i + 1, next)
    requires next < |slots| ==> slots[next].dtype == slots[i].dtype
    ensures NoneOf(slots, slots[i].dtype, 0, i) ==> RegionOf(slots, i).start == 0
    ensures var r := RegionOf(slots, i);
      var following := if next < |slots| then RegionOf(slots, next).start else BufferSize(slots, r.dtype);
      r.start + r.size <= following && slots[i].Ok() && following < r.start + r.size + AlignNumel(r.dtype)
  {
    assert slots[i].Ok();
    UsedSkips(slots, slots[i].dtype, i + 1, next);
    if NoneOf(slots, slots[i].dtype, 0, i) { UsedSkips(slots, slots[i].dtype, 0, i); }
  }

  lemma MultiplesAdd(x: int, y: int, a: int)
    requires a >= 1 && x % a == 0 && y % a == 0
    ensures (x + y) % a == 0
  {
    assert x + y == a * (x / a + y / a);
    DivModUnique(x + y, a, x / a + y / a, 0);
  }

  lemma {:induction false} UsedAligned(slots: seq<Slot>, d: Dtype, i: nat)
    requires AllOk(slots) && i <= |slots| && d.bits >= 1 && AlignNumel(d) >= 1
    ensures Used(slots, d, i) % AlignNumel(d) == 0
  {
    if i == 0 {
      DivModUnique(0, AlignNumel(d), 0, 0);
    } else {
      UsedAligned(slots, d, i - 1);
      assert slots[i - 1].Ok();
      if slots[i - 1].dtype == d { MultiplesAdd(Used(slots, d, i - 1), slots[i - 1].padded, AlignNumel(d)); }
    }
  }

  predicate Disjoint(r: Region, s: Region) {
    r.dtype != s.dtype || r.start + r.size <= s.start || s.start + s.size <= r.start
  }

  /** Every region starts at an aligned place, and no two share an element. */
  lemma RegionsApart(slots: seq<Slot>, i: nat, j: nat)
    requires AllOk(slots) && i < j < |slots|
    ensures Disjoint(RegionOf(slots, i), RegionOf(slots, j))
    ensures slots[i].Ok() && RegionOf(slots, i).start % AlignNumel(slots[i].dtype) == 0
  {
    RegionFits(slots, i);
    UsedGrows(slots, slots[i].dtype, i + 1, j);
    UsedAligned(slots, slots[i].dtype, i);
  }

  // ---------- the buffers ----------

  class MemoryBuffer<T> {
    const numel: nat
    const data: array<T>

    constructor (numel: nat, zero: T)
      ensures this.numel == numel == data.Length && fresh(data) && forall i :: 0 <= i < numel ==> data[i] == zero
    {
      this.numel := numel;
      data := new T[numel](_ => zero);
    }

    /** The place of a tensor of `size` elements at `start`; None stands for the failing assert. */
    method Get(d: Dtype, size: nat, start: nat) returns (r: Option<Region>)
      ensures r.Some? <==> start + size <= numel
      ensures r.Some? ==> r.value == Region(d, start, size)
    {
      if start + size > numel { return None; }
      return Some(Region(d, start, size));
    }
  }

  type Buffers<T> = map<Dtype, MemoryBuffer<T>>

  /** The totals of the types of the first i slots. */
  ghost predicate Totalled(totals: map<Dtype, nat>, slots: seq<Slot>, i: nat)
    requires i <= |slots|
  {
    forall d :: Used(slots, d, i) == if d in totals then totals[d] else 0
  }

  lemma TotalledNext(totals: map<Dtype, nat>, slots: seq<Slot>, i: nat)
    requires i < |slots| && Totalled(totals, slots, i)
    ensures var d := slots[i].dtype;
      Totalled(totals[d := (if d in totals then totals[d] else 0) + slots[i].padded], slots, i + 1)
  {
  }

  /** The first loop of `build_memory_buffer`. */
  method TotalNumel<T>(params: seq<Param<T>>) returns (totals: map<Dtype, nat>)
    requires AllAlignable(params)
    ensures forall d :: d in totals <==> exists i :: 0 <= i < |params| && params[i].dtype == d
    ensures forall d :: d in totals ==> totals[d] == BufferSize(Slots(params), d)
  {
    totals := map[];
    ghost var slots := Slots(params);
    for i := 0 to |params|
      invariant forall d :: d in totals <==> exists j :: 0 <= j < i && params[j].dtype == d
      invariant Totalled(totals, slots, i)
    {
      var d, slot := params[i].dtype, SlotOf(params[i]);
      SlotAt(params, i);
      TotalledNext(totals, slots, i);
      if d !in totals { totals := totals[d := 0]; }
      totals := totals[d := totals[d] + slot.padded];
    }
  }

  predicate HasBuffers<T>(slots: seq<Slot>, buffers: Buffers<T>) {
    forall i :: 0 <= i < |slots| ==> slots[i].dtype in buffers
  }

  /** One buffer per element type, of the size that its parameters add up to, all apart from each other. */
  ghost predicate SizedFor<T>(buffers: Buffers<T>, slots: seq<Slot>) {
    && HasBuffers(slots, buffers)
    && (forall d :: d in buffers ==> buffers[d].numel == buffers[d].data.Length == BufferSize(slots, d))
    && (forall d, e {:trigger buffers[d].data, buffers[e].data} ::
          d in buffers && e in buffers && d != e ==> buffers[d].data != buffers[e].data)
  }

  /** Every element of every buffer is zero. */
  ghost predicate Zeroed<T>(buffers: Buffers<T>, zero: T)
    reads set d | d in buffers :: buffers[d].data
  {
    forall d, i {:trigger buffers[d].data[i]} :: d in buffers && 0 <= i < buffers[d].data.Length ==>
      buffers[d].data[i] == zero
  }

  /** `build_memory_buffer` */
  method BuildMemoryBuffer<T>(params: seq<Param<T>>, zero: T) returns (buffers: Buffers<T>)
    requires AllAlignable(params)
    ensures SizedFor(buffers, Slots(params)) && Zeroed(buffers, zero)
    ensures forall d :: d in buffers ==> fresh(buffers[d].data)
  {
    var totals := TotalNumel(params);
    buffers := map[];
    var left := totals.Keys;
    while left != {}
      invariant left <= totals.Keys && forall d :: d in buffers <==> d in totals && d !in left
      invariant forall d :: d in buffers ==> buffers[d].numel == buffers[d].data.Length == totals[d]
      invariant Zeroed(buffers, zero) && forall d :: d in buffers ==> fresh(buffers[d].data)
      invariant forall d, e :: d in buffers && e in buffers && d != e ==> buffers[d].data != buffers[e].data
    {
      var d :| d in left;
      var buffer := new MemoryBuffer(totals[d], zero);
      buffers := buffers[d := buffer];
      left := left - {d};
    }
  }

  // ---------- the references ----------

  /** Region after region, as the reference loops hand them out. */
  function Regions(slots: seq<Slot>, i: nat): (r: seq<Region>)
    requires i <= |slots|
    ensures |r| == i
  {
    seq(i, j requires 0 <= j < i => RegionOf(slots, j))
  }

  lemma RegionsNext(slots: seq<Slot>, i: nat, regions: seq<Region>, place: Region)
    requires i < |slots| && regions == Regions(slots, i) && place == RegionOf(slots, i)
    ensures regions + [place] == Regions(slots, i + 1)
  {
  }

  predicate FitsIn(r: Region, numel: nat) {
    r.start + r.size <= numel
  }

  /** The running offsets of the reference loops, one per buffer. */
  ghost predicate OffsetsAt(starts: map<Dtype, nat>, slots: seq<Slot>, i: nat)
    requires i <= |slots|
  {
    forall d :: d in starts ==> starts[d] == Used(slots, d, i)
  }

  lemma OffsetsNext(starts: map<Dtype, nat>, slots: seq<Slot>, i: nat)
    requires i < |slots| && OffsetsAt(starts, slots, i) && slots[i].dtype in starts
    ensures OffsetsAt(starts[slots[i].dtype := starts[slots[i].dtype] + slots[i].padded], slots, i + 1)
  {
  }

  /** One turn of a reference loop: the view of a parameter, and the offsets behind it. */
  method TakeRegion<T>(p: Param<T>, buffers: Buffers<T>, starts: map<Dtype, nat>, ghost slots: seq<Slot>, ghost i: nat)
    returns (r: Option<Region>, next: map<Dtype, nat>)
    requires Alignable(p.dtype) && p.dtype in buffers && starts.Keys == buffers.Keys
    requires i < |slots| && slots[i] == SlotOf(p) && OffsetsAt(starts, slots, i)
    ensures r.Some? <==> FitsIn(RegionOf(slots, i), buffers[p.dtype].numel)
    ensures r.Some? ==> r.value == RegionOf(slots, i) && next.Keys == starts.Keys && OffsetsAt(next, slots, i + 1)
  {
    var d := p.dtype;
    r := buffers[d].Get(d, |p.values|, starts[d]);
    OffsetsNext(starts, slots, i);
    next := starts[d := starts[d] + SlotOf(p).padded];
  }

  /** The region of slot i lies within its buffer. */
  predicate RegionInBounds<T>(slots: seq<Slot>, buffers: Buffers<T>, i: nat)
    requires i < |slots| && slots[i].dtype in buffers
  {
    FitsIn(RegionOf(slots, i), buffers[slots[i].dtype].numel)
  }

  /** `build_memory_reference`, for buffers of any sizes; None stands for the failing assert of `get`. */
  method BuildMemoryReference<T>(params: seq<Param<T>>, buffers: Buffers<T>) returns (r: Option<seq<Region>>)
    requires AllAlignable(params) && HasBuffers(Slots(params), buffers)
    ensures r.Some? <==> forall i {:trigger RegionInBounds(Slots(params), buffers, i)} :: 0 <= i < |params| ==>
      RegionInBounds(Slots(params), buffers, i)
    ensures r.Some? ==> r.value == Regions(Slots(params), |params|)
  {
    ghost var slots := Slots(params);
    var starts := map d | d in buffers :: 0 as nat;
    var regions: seq<Region> := [];
    for i := 0 to |params|
      invariant starts.Keys == buffers.Keys && OffsetsAt(starts, slots, i)
      invariant regions == Regions(slots, i)
      invariant forall j {:trigger RegionInBounds(slots, buffers, j)} :: 0 <= j < i ==>
        RegionInBounds(slots, buffers, j)
    {
      SlotAt(params, i);
      var place, next := TakeRegion(params[i], buffers, starts, slots, i);
      assert place.Some? <==> RegionInBounds(slots, buffers, i);
      if place.None? { return None; }
      RegionsNext(slots, i, regions, place.value);
      starts, regions := next, regions + [place.value];
    }
    return Some(regions);
  }

  ghost predicate HoldsAt<T>(contents: seq<T>, r: Region, values: seq<T>) {
    r.start + r.size <= |contents| && contents[r.start..r.start + r.size] == values
  }

  /** Parameter j reads its own values through its region. */
  ghost predicate Reads<T>(values: seq<T>, slots: seq<Slot>, buffers: Buffers<T>, j: nat)
    requires j < |slots| && slots[j].dtype in buffers
    reads buffers[slots[j].dtype].data
  {
    HoldsAt(buffers[slots[j].dtype].data[..], RegionOf(slots, j), values)
  }

  /** The first i parameters do. */
  ghost predicate ReadBack<T>(params: seq<Param<T>>, slots: seq<Slot>, buffers: Buffers<T>, i: nat)
    requires i <= |params| == |slots| && HasBuffers(slots, buffers)
    reads set d | d in buffers :: buffers[d].data
  {
    forall j {:trigger Reads(params[j].values, slots, buffers, j)} :: 0 <= j < i ==>
      Reads(params[j].values, slots, buffers, j)
  }

  /** Element x of a buffer belongs to one of the first i parameters of the buffer's type. */
  ghost predicate Taken(slots: seq<Slot>, d: Dtype, i: nat, x: nat)
    requires i <= |slots|
  {
    exists j {:trigger RegionOf(slots, j)} :: 0 <= j < i && slots[j].dtype == d &&
      RegionOf(slots, j).start <= x < RegionOf(slots, j).start + RegionOf(slots, j).size
  }

  /** What the buffers hold. */
  type Store<T> = map<Dtype, seq<T>>

  ghost function Contents<T>(buffers: Buffers<T>): Store<T>
    reads set d | d in buffers :: buffers[d].data
  {
    map d | d in buffers :: buffers[d].data[..]
  }

  ghost predicate SameSizes<T>(was: Store<T>, now: Store<T>) {
    was.Keys == now.Keys && forall d :: d in was ==> |was[d]| == |now[d]|
  }

  /** Nothing changed outside one region. */
  ghost predicate ChangedOnly<T>(r: Region, was: Store<T>, now: Store<T>) {
    SameSizes(was, now) &&
    forall d, x: nat {:trigger now[d][x]} ::
      d in was && x < |was[d]| && !(d == r.dtype && r.start <= x < r.start + r.size) ==> was[d][x] == now[d][x]
  }

  /** Nothing changed outside the regions of the first i parameters. */
  ghost predicate OthersKept<T>(slots: seq<Slot>, was: Store<T>, now: Store<T>, i: nat)
    requires i <= |slots|
  {
    SameSizes(was, now) &&
    forall d, x: nat {:trigger now[d][x]} ::
      d in was && x < |was[d]| && !Taken(slots, d, i, x) ==> was[d][x] == now[d][x]
  }

  lemma KeptNext<T>(slots: seq<Slot>, was: Store<T>, before: Store<T>, now: Store<T>, i: nat)
    requires i < |slots| && OthersKept(slots, was, before, i) && ChangedOnly(RegionOf(slots, i), before, now)
    ensures OthersKept(slots, was, now, i + 1)
  {
    forall d, x: nat | d in was && x < |was[d]| && !Taken(slots, d, i + 1, x) ensures was[d][x] == now[d][x] {
      assert !Taken(slots, d, i, x);
      assert before[d][x] == was[d][x];
    }
  }

  lemma StillHolds<T>(before: seq<T>, after: seq<T>, r: Region, values: seq<T>, k: nat)
    requires HoldsAt(before, r, values) && r.start + r.size <= k <= |before| == |after| && after[..k] == before[..k]
    ensures HoldsAt(after, r, values)
  {
    assert before[r.start..r.start + r.size] == before[..k][r.start..r.start + r.size];
    assert after[r.start..r.start + r.size] == after[..k][r.start..r.start + r.size];
  }

  /** `buffer.copy_(param.data)`: the region is filled and nothing before it changes. */
  method FillRegion<T>(data: array<T>, r: Region, values: seq<T>)
    requires r.size == |values| && r.start + r.size <= data.Length
    modifies data
    ensures HoldsAt(data[..], r, values) && data[..r.start] == old(data[..r.start])
    ensures forall x :: 0 <= x < data.Length && !(r.start <= x < r.start + r.size) ==> data[x] == old(data[x])
  {
    ghost var before := data[..];
    CopySlice(data, r.start, values);
    var end := r.start + r.size;
    assert data[..r.start] == data[..end][..r.start];
    assert data[r.start..end] == data[..end][r.start..];
    assert forall x :: 0 <= x < r.start ==> data[x] == data[..r.start][x] && before[x] == before[..r.start][x];
    assert forall x :: end <= x < data.Length ==>
      data[x] == data[end..][x - end] && before[x] == before[end..][x - end];
  }

  /** A region written earlier lies before the new one or in another buffer. */
  lemma EarlierStays<T>(slots: seq<Slot>, j: nat, i: nat, before: seq<T>, after: seq<T>, values: seq<T>)
    requires AllOk(slots) && j < i < |slots| && slots[j].dtype == slots[i].dtype
    requires HoldsAt(before, RegionOf(slots, j), values) && RegionOf(slots, i).start <= |before| == |after|
    requires after[..RegionOf(slots, i).start] == before[..RegionOf(slots, i).start]
    ensures HoldsAt(after, RegionOf(slots, j), values)
  {
    RegionFits(slots, j);
    UsedGrows(slots, slots[i].dtype, j + 1, i);
    StillHolds(before, after, RegionOf(slots, j), values, RegionOf(slots, i).start);
  }

  /** Writes parameter i into its region. */
  method WriteParam<T>(params: seq<Param<T>>, ghost slots: seq<Slot>, buffers: Buffers<T>, i: nat, r: Region)
    requires i < |params| == |slots| && AllOk(slots) && SizedFor(buffers, slots) && r == RegionOf(slots, i)
    requires slots[i].dtype == params[i].dtype && slots[i].size == |params[i].values|
    requires ReadBack(params, slots, buffers, i)
    modifies buffers[params[i].dtype].data
    ensures ReadBack(params, slots, buffers, i + 1)
    ensures ChangedOnly(r, old(Contents(buffers)), Contents(buffers))
  {
    RegionFits(slots, i);
    var data := buffers[params[i].dtype].data;
    ghost var before := data[..];
    FillRegion(data, r, params[i].values);
    forall j | 0 <= j < i ensures Reads(params[j].values, slots, buffers, j) {
      assert old(Reads(params[j].values, slots, buffers, j));
      if slots[j].dtype == slots[i].dtype { EarlierStays(slots, j, i, before, data[..], params[j].values); }
    }
    assert Reads(params[i].values, slots, buffers, i);
  }

  /** One turn of the module loop: a view is taken and filled. */
  method MoveParam<T>(params: seq<Param<T>>, ghost slots: seq<Slot>, buffers: Buffers<T>, i: nat,
      starts: map<Dtype, nat>)
    returns (place: Region, next: map<Dtype, nat>)
    requires i < |params| == |slots| && AllOk(slots) && SizedFor(buffers, slots) && starts.Keys == buffers.Keys
    requires Alignable(params[i].dtype) && slots[i] == SlotOf(params[i]) && OffsetsAt(starts, slots, i)
    requires ReadBack(params, slots, buffers, i)
    modifies buffers[params[i].dtype].data
    ensures ReadBack(params, slots, buffers, i + 1)
    ensures ChangedOnly(place, old(Contents(buffers)), Contents(buffers))
    ensures place == RegionOf(slots, i) && next.Keys == starts.Keys && OffsetsAt(next, slots, i + 1)
  {
    RegionFits(slots, i);
    var taken;
    taken, next := TakeRegion(params[i], buffers, starts, slots, i);
    place := taken.value;
    WriteParam(params, slots, buffers, i, place);
  }

  /** `build_memory_reference_from_module`: every parameter becomes a view that reads its own values. */
  method BuildFromModule<T>(params: seq<Param<T>>, buffers: Buffers<T>) returns (r: Option<seq<Region>>)
    requires AllAlignable(params) && SizedFor(buffers, Slots(params))
    modifies set d | d in buffers :: buffers[d].data
    ensures r == Some(Regions(Slots(params), |params|)) && ReadBack(params, Slots(params), buffers, |params|)
    ensures OthersKept(Slots(params), old(Contents(buffers)), Contents(buffers), |params|)
  {
    ghost var slots := Slots(params);
    ghost var was := Contents(buffers);
    var starts := map d | d in buffers :: 0 as nat;
    var regions: seq<Region> := [];
    for i := 0 to |params|
      invariant starts.Keys == buffers.Keys && OffsetsAt(starts, slots, i)
      invariant regions == Regions(slots, i)
      invariant ReadBack(params, slots, buffers, i) && OthersKept(slots, was, Contents(buffers), i)
    {
      SlotAt(params, i);
      ghost var before := Contents(buffers);
      var place, next := MoveParam(params, slots, buffers, i, starts);
      KeptNext(slots, was, before, Contents(buffers), i);
      RegionsNext(slots, i, regions, place);
      starts, regions := next, regions + [place];
    }
    return Some(regions);
  }

  /** Buffers built for the parameters always suffice for their references. */
  lemma BuffersSuffice<T>(slots: seq<Slot>, buffers: Buffers<T>, i: nat)
    requires AllOk(slots) && SizedFor(buffers, slots) && i < |slots|
    ensures RegionInBounds(slots, buffers, i)
  {
    RegionFits(slots, i);
  }

  /** `MemoryBufferModuleWrapper.__init__`: buffers are built for a module and its parameters moved into them. */
  method WrapModule<T>(params: seq<Param<T>>, zero: T) returns (buffers: Buffers<T>, regions: seq<Region>)
    requires AllAlignable(params)
    ensures SizedFor(buffers, Slots(params)) && regions == Regions(Slots(params), |params|)
    ensures ReadBack(params, Slots(params), buffers, |params|)
    ensures forall d, x: nat {:trigger buffers[d].data[x]} ::
      d in buffers && x < buffers[d].data.Length && !Taken(Slots(params), d, |params|, x) ==> buffers[d].data[x] == zero
  {
    buffers := BuildMemoryBuffer(params, zero);
    ghost var was := Contents(buffers);
    var r := BuildFromModule(params, buffers);
    regions := r.value;
    ghost var now := Contents(buffers);
    forall d, x: nat | d in buffers && x < buffers[d].data.Length && !Taken(Slots(params), d, |params|, x)
      ensures buffers[d].data[x] == zero
    {
      assert now[d][x] == was[d][x];
    }
  }
}
