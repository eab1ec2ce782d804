/**
 * The offline activity reconstruction (plotActivity): per event, a virtual
 * emission time, an open time window applied as one mask to the depth and
 * isotope vectors, an optional detector smearing, the split into the 15O,
 * 11C and 13N streams, four histograms sharing one model and one scaling
 * factor, and the output file name.
 *
 * ROOT's binning is a parameter `binOf` (the bin a depth falls in under the
 * common model) and the Gaussian draws are a parameter `std` (the j-th
 * standard-normal draw made while smearing event i). `std::stod` is a
 * parameter too.
 */
module Activity {
  import opened Common
  import Writer

  datatype Result<T> = Ok(value: T) | Error(message: string)

  /** The window end used when the given end is not after the begin: two hours, in minutes. */
  const DefaultTimeEnd: real := 2.0 * 60.0

  /** std::numeric_limits<double>::epsilon(), 2^-52. */
  const DoubleEpsilon: real := 1.0 / 4503599627370496.0

  /** The precision option is a FWHM; sigma is precision / 2.355. */
  const FwhmPerSigma: real := 2.355

  /** Atomic numbers of the three isotope streams. */
  const OxygenZ: int := 8
  const CarbonZ: int := 6
  const NitrogenZ: int := 7

  // ---------------------------------------------------------------- window

  /** A measuring window [timeBegin, timeEnd]. */
  datatype Window = Window(timeBegin: real, timeEnd: real)

  /**
   * The window after clamping, in minutes: a negative begin becomes 0, and an
   * end not after the (clamped) begin becomes two hours.
   */
  function ClampedWindow(timeBegin: real, timeEnd: real): (w: Window)
    ensures w.timeBegin >= 0.0
    ensures w.timeBegin == if timeBegin < 0.0 then 0.0 else timeBegin
    ensures timeEnd > w.timeBegin ==> w.timeEnd == timeEnd
    ensures timeEnd <= w.timeBegin ==> w.timeEnd == DefaultTimeEnd
    ensures w.timeBegin < DefaultTimeEnd || timeEnd > w.timeBegin <==> w.timeBegin < w.timeEnd
  {
    var b := if timeBegin < 0.0 then 0.0 else timeBegin;
    Window(b, if timeEnd <= b then DefaultTimeEnd else timeEnd)
  }

  /** The clamping does not always give a non-empty window: a begin past two hours with no end. */
  lemma ClampedWindowCanBeEmpty()
    ensures ClampedWindow(200.0, 0.0) == Window(200.0, 120.0)
  {
  }

  /** Minutes to seconds. */
  function InSeconds(w: Window): (s: Window)
    ensures s.timeEnd - s.timeBegin == 60.0 * (w.timeEnd - w.timeBegin)
    ensures w.timeBegin < w.timeEnd <==> s.timeBegin < s.timeEnd
  {
    Window(w.timeBegin * 60.0, w.timeEnd * 60.0)
  }

  // ----------------------------------------------------------- event time

  /**
   * The virtual time of event `event` out of `nEvents`: the events are spread
   * uniformly over the irradiation, which ends at time 0.
   */
  function EventTime(irrTime: real, event: nat, nEvents: nat): real
    requires nEvents > 0
  {
    irrTime * ((event as real / nEvents as real) - 1.0)
  }

  lemma EventTimeFirst(irrTime: real, nEvents: nat)
    requires nEvents > 0
    ensures EventTime(irrTime, 0, nEvents) == -irrTime
  {
  }

  /** The last event gets -irrTime / N, not 0. */
  lemma EventTimeLast(irrTime: real, nEvents: nat)
    requires nEvents > 0
    ensures EventTime(irrTime, nEvents - 1, nEvents) == -irrTime / nEvents as real
  {
    var n := nEvents as real;
    calc {
      EventTime(irrTime, nEvents - 1, nEvents);
      irrTime * (((n - 1.0) / n) - 1.0);
      { assert ((n - 1.0) / n) - 1.0 == -1.0 / n; }
      irrTime * (-1.0 / n);
    }
  }

  lemma EventTimeMonotone(irrTime: real, i: nat, j: nat, nEvents: nat)
    requires nEvents > 0 && irrTime >= 0.0 && i <= j
    ensures EventTime(irrTime, i, nEvents) <= EventTime(irrTime, j, nEvents)
  {
    var n := nEvents as real;
    assert i as real / n <= j as real / n;
    MulMonotone(irrTime, i as real / n - 1.0, j as real / n - 1.0);
  }

  lemma EventTimeRange(irrTime: real, i: nat, nEvents: nat)
    requires nEvents > 0 && irrTime >= 0.0 && i < nEvents
    ensures -irrTime <= EventTime(irrTime, i, nEvents) <= 0.0
  {
    var n := nEvents as real;
    var f := i as real / n;
    assert 0.0 <= f < 1.0;
    MulMonotone(irrTime, -1.0, f - 1.0);
    MulMonotone(irrTime, f - 1.0, 0.0);
  }

  lemma MulMonotone(c: real, x: real, y: real)
    requires c >= 0.0 && x <= y
    ensures c * x <= c * y
  {
  }

  // ------------------------------------------------------------- masking

  /** The number of `true` entries of a mask. */
  function CountTrue(m: seq<bool>): nat
    ensures CountTrue(m) <= |m|
  {
    if m == [] then 0 else (if m[0] then 1 else 0) + CountTrue(m[1..])
  }

  /** `vec[mask]` of an RVec: the entries whose mask entry is true, in order. */
  function Masked<T>(v: seq<T>, m: seq<bool>): (r: seq<T>)
    requires |v| == |m|
    ensures |r| == CountTrue(m)
    decreases |v|
  {
    if |v| == 0 then [] else (if m[0] then [v[0]] else []) + Masked(v[1..], m[1..])
  }

  /** `a` is `b` with some entries dropped: the entries kept stay in their order. */
  predicate IsSubsequence<T(==)>(a: seq<T>, b: seq<T>)
    decreases |b|
  {
    if a == [] then true
    else if b == [] then false
    else (a[0] == b[0] && IsSubsequence(a[1..], b[1..])) || IsSubsequence(a, b[1..])
  }

  /** A masked vector is a subsequence of the vector. */
  lemma {:induction false} MaskedSubsequence<T>(v: seq<T>, m: seq<bool>)
    requires |v| == |m|
    ensures IsSubsequence(Masked(v, m), v)
    decreases |v|
  {
    if |v| > 0 {
      MaskedSubsequence(v[1..], m[1..]);
      var rest := Masked(v[1..], m[1..]);
      if m[0] {
        var r := [v[0]] + rest;
        assert Masked(v, m) == r && r[0] == v[0] && r[1..] == rest;
      } else {
        assert Masked(v, m) == rest;
      }
    }
  }

  /** One entry of an event's vector columns z, id and t. */
  datatype Entry = Entry(z: real, id: int, t: real)

  /** One event as the tree holds it: emitter depth, emitter Z and emission time per positron. */
  datatype EventRecord = EventRecord(z: seq<real>, id: seq<int>, t: seq<real>)
  {
    predicate Aligned() {
      |id| == |z| && |t| == |z|
    }

    /** The three columns read row-wise. */
    function Entries(): (es: seq<Entry>)
      requires Aligned()
      ensures |es| == |z|
    {
      seq(|z|, i requires 0 <= i < |z| => Entry(z[i], id[i], t[i]))
    }

    /** The record without its first entry. */
    function Tail(): (r: EventRecord)
      requires Aligned() && |z| > 0
      ensures r.Aligned() && r.Entries() == Entries()[1..]
    {
      EventRecord(z[1..], id[1..], t[1..])
    }
  }

  function DepthsOf(es: seq<Entry>): (zs: seq<real>)
    ensures |zs| == |es|
  {
    if es == [] then [] else [es[0].z] + DepthsOf(es[1..])
  }

  function IdsOf(es: seq<Entry>): (ids: seq<int>)
    ensures |ids| == |es|
  {
    if es == [] then [] else [es[0].id] + IdsOf(es[1..])
  }

  /** The gate: the emission happened strictly inside the window. */
  predicate InWindow(eventTime: real, w: Window, t: real) {
    w.timeBegin < eventTime + t < w.timeEnd
  }

  /** timeFilter: the mask of the emissions that fall strictly inside the window. */
  function TimeMask(eventTime: real, t: seq<real>, w: Window): (m: seq<bool>)
    ensures |m| == |t|
  {
    seq(|t|, i requires 0 <= i < |t| => InWindow(eventTime, w, t[i]))
  }

  /** The reference gate: the entries inside the window, in order. */
  function Gate(es: seq<Entry>, eventTime: real, w: Window): seq<Entry> {
    if es == [] then []
    else (if InWindow(eventTime, w, es[0].t) then [es[0]] else []) + Gate(es[1..], eventTime, w)
  }

  /** The gate keeps exactly the entries strictly inside the window. */
  lemma {:induction false} GateMembers(es: seq<Entry>, eventTime: real, w: Window, x: Entry)
    ensures x in Gate(es, eventTime, w) <==> x in es && InWindow(eventTime, w, x.t)
  {
    if es != [] {
      GateMembers(es[1..], eventTime, w, x);
      assert es == [es[0]] + es[1..];
    }
  }

  /** Gating a gated event changes nothing. */
  lemma {:induction false} GateIdempotent(es: seq<Entry>, eventTime: real, w: Window)
    ensures Gate(Gate(es, eventTime, w), eventTime, w) == Gate(es, eventTime, w)
  {
    if es != [] {
      GateIdempotent(es[1..], eventTime, w);
      var rest := Gate(es[1..], eventTime, w);
      if InWindow(eventTime, w, es[0].t) {
        var g := [es[0]] + rest;
        assert g[0] == es[0] && g[1..] == rest;
        assert Gate(es, eventTime, w) == g;
        assert Gate(g, eventTime, w) == [es[0]] + Gate(rest, eventTime, w);
      } else {
        assert Gate(es, eventTime, w) == rest;
      }
    }
  }

  /** zTimeFilter and idTimeFilter: the depth and isotope vectors under one time mask. */
  datatype TimeFiltered = TimeFiltered(zTimeFilter: seq<real>, idTimeFilter: seq<int>)

  function TimeFilter(rec: EventRecord, eventTime: real, w: Window): (f: TimeFiltered)
    requires rec.Aligned()
    ensures |f.zTimeFilter| == |f.idTimeFilter|
  {
    var maskT := TimeMask(eventTime, rec.t, w);
    TimeFiltered(Masked(rec.z, maskT), Masked(rec.id, maskT))
  }

  /**
   * The masked vectors are the depths and isotopes of the gated entries: the
   * one mask keeps z and id entries of the same positrons.
   */
  lemma {:induction false} TimeFilterIsGate(rec: EventRecord, eventTime: real, w: Window)
    requires rec.Aligned()
    ensures TimeFilter(rec, eventTime, w).zTimeFilter == DepthsOf(Gate(rec.Entries(), eventTime, w))
    ensures TimeFilter(rec, eventTime, w).idTimeFilter == IdsOf(Gate(rec.Entries(), eventTime, w))
    decreases |rec.z|
  {
    if |rec.z| > 0 {
      var tail := rec.Tail();
      TimeFilterIsGate(tail, eventTime, w);
      var m := TimeMask(eventTime, rec.t, w);
      assert m[1..] == TimeMask(eventTime, tail.t, w);
      var es := rec.Entries();
      assert es[1..] == tail.Entries();
      var head := if m[0] then [es[0]] else [];
      var g := Gate(es, eventTime, w);
      assert g == head + Gate(tail.Entries(), eventTime, w);
      DepthsAppend(head, Gate(tail.Entries(), eventTime, w));
      IdsAppend(head, Gate(tail.Entries(), eventTime, w));
    }
  }

  lemma {:induction false} DepthsAppend(a: seq<Entry>, b: seq<Entry>)
    ensures DepthsOf(a + b) == DepthsOf(a) + DepthsOf(b)
  {
    if a == [] {
      assert a + b == b;
    } else {
      DepthsAppend(a[1..], b);
      assert (a + b)[0] == a[0] && (a + b)[1..] == a[1..] + b;
    }
  }

  lemma {:induction false} IdsAppend(a: seq<Entry>, b: seq<Entry>)
    ensures IdsOf(a + b) == IdsOf(a) + IdsOf(b)
  {
    if a == [] {
      assert a + b == b;
    } else {
      IdsAppend(a[1..], b);
      assert (a + b)[0] == a[0] && (a + b)[1..] == a[1..] + b;
    }
  }

  // ------------------------------------------------------------ isotopes

  /** An atomic number of one of the three isotope streams. */
  predicate KnownZ(z: int) {
    z == OxygenZ || z == CarbonZ || z == NitrogenZ
  }

  /** O_Filter, C_Filter, N_Filter: the mask of the entries of one atomic number. */
  function IsotopeMask(ids: seq<int>, z: int): (m: seq<bool>)
    ensures |m| == |ids|
  {
    seq(|ids|, i requires 0 <= i < |ids| => ids[i] == z)
  }

  /** The reference split: the entries of one atomic number, in order. */
  function Isotope(es: seq<Entry>, z: int): seq<Entry> {
    if es == [] then [] else (if es[0].id == z then [es[0]] else []) + Isotope(es[1..], z)
  }

  lemma {:induction false} IsotopeMembers(es: seq<Entry>, z: int, x: Entry)
    ensures x in Isotope(es, z) <==> x in es && x.id == z
  {
    if es != [] {
      IsotopeMembers(es[1..], z, x);
      assert es == [es[0]] + es[1..];
    }
  }

  /** No entry is in two of the O, C and N streams. */
  lemma IsotopesDisjoint(es: seq<Entry>, x: Entry)
    ensures !(x in Isotope(es, OxygenZ) && x in Isotope(es, CarbonZ))
    ensures !(x in Isotope(es, OxygenZ) && x in Isotope(es, NitrogenZ))
    ensures !(x in Isotope(es, CarbonZ) && x in Isotope(es, NitrogenZ))
  {
    IsotopeMembers(es, OxygenZ, x);
    IsotopeMembers(es, CarbonZ, x);
    IsotopeMembers(es, NitrogenZ, x);
  }

  /** Masking the depths with an isotope mask picks the depths of that isotope's entries. */
  lemma {:induction false} IsotopeMaskIsIsotope(es: seq<Entry>, z: int)
    ensures Masked(DepthsOf(es), IsotopeMask(IdsOf(es), z)) == DepthsOf(Isotope(es, z))
  {
    if es != [] {
      IsotopeMaskIsIsotope(es[1..], z);
      assert DepthsOf(es)[1..] == DepthsOf(es[1..]);
      assert IsotopeMask(IdsOf(es), z)[1..] == IsotopeMask(IdsOf(es[1..]), z);
      var head := if es[0].id == z then [es[0]] else [];
      DepthsAppend(head, Isotope(es[1..], z));
    }
  }

  // ------------------------------------------------------------ smearing

  /** The depths of event `event` after adding one N(0, sigma) draw to each. */
  function Smeared(z: seq<real>, sigma: real, std: (nat, nat) -> real, event: nat): seq<real> {
    seq(|z|, j requires 0 <= j < |z| => z[j] + sigma * std(event, j))
  }

  /**
   * simulPrecision: copies the depths and adds a draw of the normal
   * distribution with sigma = precision / 2.355 to each, one at a time.
   */
  method SimulPrecision(z: seq<real>, precision: real, std: (nat, nat) -> real, event: nat) returns (zDetected: seq<real>)
    ensures zDetected == Smeared(z, precision / FwhmPerSigma, std, event)
  {
    var sigma := precision / FwhmPerSigma;
    zDetected := z;
    var i := 0;
    while i < |zDetected|
      invariant 0 <= i <= |zDetected| == |z|
      invariant forall j :: 0 <= j < i ==> zDetected[j] == z[j] + sigma * std(event, j)
      invariant zDetected[i..] == z[i..]
    {
      assert zDetected[i] == z[i];
      zDetected := zDetected[i := zDetected[i] + sigma * std(event, i)];
      i := i + 1;
    }
    assert forall j :: 0 <= j < |z| ==> zDetected[j] == Smeared(z, sigma, std, event)[j];
  }

  /** zDetected: the time-filtered depths, smeared unless the precision is below epsilon. */
  function Detected(zTimeFilter: seq<real>, precision: real, std: (nat, nat) -> real, event: nat): (r: seq<real>)
    ensures |r| == |zTimeFilter|
  {
    if precision < DoubleEpsilon then zTimeFilter else Smeared(zTimeFilter, precision / FwhmPerSigma, std, event)
  }

  /** Below epsilon the detected depths are the time-filtered ones; otherwise each moves by its own draw. */
  lemma DetectedIdentityBelowEpsilon(zTimeFilter: seq<real>, precision: real, std: (nat, nat) -> real, event: nat)
    ensures precision < DoubleEpsilon ==> Detected(zTimeFilter, precision, std, event) == zTimeFilter
    ensures precision >= DoubleEpsilon ==> forall j :: 0 <= j < |zTimeFilter| ==>
      Detected(zTimeFilter, precision, std, event)[j] == zTimeFilter[j] + precision / FwhmPerSigma * std(event, j)
  {
  }

  // ------------------------------------------------------------- streams

  /** The four depth streams of one event (or of several, concatenated). */
  datatype Streams = Streams(all: seq<real>, o: seq<real>, c: seq<real>, n: seq<real>)
  {
    function Concat(other: Streams): Streams {
      Streams(all + other.all, o + other.o, c + other.c, n + other.n)
    }
  }

  const NoStreams: Streams := Streams([], [], [], [])

  /** zDetected and its O, C and N masks: every stream masks the same detected depths. */
  function IsotopeStreams(zDetected: seq<real>, ids: seq<int>): (s: Streams)
    requires |zDetected| == |ids|
  {
    Streams(zDetected,
            Masked(zDetected, IsotopeMask(ids, OxygenZ)),
            Masked(zDetected, IsotopeMask(ids, CarbonZ)),
            Masked(zDetected, IsotopeMask(ids, NitrogenZ)))
  }

  /**
   * Every isotope stream is a subsequence of the all-stream: all four are
   * taken from the one detected vector, smeared once.
   */
  lemma IsotopeStreamsAreSubsequences(zDetected: seq<real>, ids: seq<int>)
    requires |zDetected| == |ids|
    ensures var s := IsotopeStreams(zDetected, ids);
      && s.all == zDetected
      && IsSubsequence(s.o, s.all) && IsSubsequence(s.c, s.all) && IsSubsequence(s.n, s.all)
  {
    MaskedSubsequence(zDetected, IsotopeMask(ids, OxygenZ));
    MaskedSubsequence(zDetected, IsotopeMask(ids, CarbonZ));
    MaskedSubsequence(zDetected, IsotopeMask(ids, NitrogenZ));
  }

  /** The streams of event `i` of `nEvents`; `irrTime` and `w` in seconds. */
  function EventStreams(
    rec: EventRecord, i: nat, nEvents: nat, irrTime: real, w: Window, precision: real, std: (nat, nat) -> real): Streams
    requires rec.Aligned() && nEvents > 0
  {
    var f := TimeFilter(rec, EventTime(irrTime, i, nEvents), w);
    IsotopeStreams(Detected(f.zTimeFilter, precision, std, i), f.idTimeFilter)
  }

  /**
   * Without smearing, each isotope stream of an event is the depths of that
   * isotope's entries inside the window.
   */
  lemma UnsmearedStreams(
    rec: EventRecord, i: nat, nEvents: nat, irrTime: real, w: Window, precision: real, std: (nat, nat) -> real, z: int)
    requires rec.Aligned() && nEvents > 0 && precision < DoubleEpsilon
    requires KnownZ(z)
    ensures var s := EventStreams(rec, i, nEvents, irrTime, w, precision, std);
      var gated := Gate(rec.Entries(), EventTime(irrTime, i, nEvents), w);
      && s.all == DepthsOf(gated)
      && (z == OxygenZ ==> s.o == DepthsOf(Isotope(gated, z)))
      && (z == CarbonZ ==> s.c == DepthsOf(Isotope(gated, z)))
      && (z == NitrogenZ ==> s.n == DepthsOf(Isotope(gated, z)))
  {
    var et := EventTime(irrTime, i, nEvents);
    TimeFilterIsGate(rec, et, w);
    IsotopeMaskIsIsotope(Gate(rec.Entries(), et, w), z);
  }

  /** The number of values ROOT puts in bin `bin`. */
  function BinCount(values: seq<real>, binOf: real -> int, bin: int): (k: nat)
    ensures k <= |values|
  {
    if values == [] then 0 else (if binOf(values[0]) == bin then 1 else 0) + BinCount(values[1..], binOf, bin)
  }

  lemma {:induction false} BinCountAppend(a: seq<real>, b: seq<real>, binOf: real -> int, bin: int)
    ensures BinCount(a + b, binOf, bin) == BinCount(a, binOf, bin) + BinCount(b, binOf, bin)
  {
    if a == [] {
      assert a + b == b;
    } else {
      BinCountAppend(a[1..], b, binOf, bin);
      assert (a + b)[0] == a[0] && (a + b)[1..] == a[1..] + b;
    }
  }

  lemma MaskedBinCountCons(v: seq<real>, m: seq<bool>, binOf: real -> int, bin: int)
    requires |v| == |m| > 0
    ensures BinCount(Masked(v, m), binOf, bin) ==
      (if m[0] && binOf(v[0]) == bin then 1 else 0) + BinCount(Masked(v[1..], m[1..]), binOf, bin)
  {
    BinCountAppend(if m[0] then [v[0]] else [], Masked(v[1..], m[1..]), binOf, bin);
  }

  /**
   * Three masks that never select the same entry pick, per bin, no more
   * values than the vector holds there; exactly as many when every entry is
   * selected by one of them.
   */
  lemma {:induction false} MaskedBinCounts(
    v: seq<real>, m1: seq<bool>, m2: seq<bool>, m3: seq<bool>, binOf: real -> int, bin: int)
    requires |m1| == |v| && |m2| == |v| && |m3| == |v|
    requires forall i :: 0 <= i < |v| ==> !(m1[i] && m2[i]) && !(m1[i] && m3[i]) && !(m2[i] && m3[i])
    ensures BinCount(Masked(v, m1), binOf, bin) + BinCount(Masked(v, m2), binOf, bin) + BinCount(Masked(v, m3), binOf, bin)
            <= BinCount(v, binOf, bin)
    ensures (forall i :: 0 <= i < |v| ==> m1[i] || m2[i] || m3[i]) ==>
      BinCount(Masked(v, m1), binOf, bin) + BinCount(Masked(v, m2), binOf, bin) + BinCount(Masked(v, m3), binOf, bin)
      == BinCount(v, binOf, bin)
    decreases |v|
  {
    if |v| > 0 {
      MaskedBinCounts(v[1..], m1[1..], m2[1..], m3[1..], binOf, bin);
      MaskedBinCountCons(v, m1, binOf, bin);
      MaskedBinCountCons(v, m2, binOf, bin);
      MaskedBinCountCons(v, m3, binOf, bin);
    }
  }

  /** Per bin, the O, C and N streams of an event together fill each bin no more than the all-stream does. */
  predicate BinsBounded(s: Streams, binOf: real -> int, bin: int) {
    BinCount(s.o, binOf, bin) + BinCount(s.c, binOf, bin) + BinCount(s.n, binOf, bin) <= BinCount(s.all, binOf, bin)
  }

  /** Per bin the isotope streams partition the all-stream: a bound always, equality when every Z is 6, 7 or 8. */
  lemma IsotopeBinsPartition(zDetected: seq<real>, ids: seq<int>, binOf: real -> int, bin: int)
    requires |zDetected| == |ids|
    ensures BinsBounded(IsotopeStreams(zDetected, ids), binOf, bin)
    ensures (forall i :: 0 <= i < |ids| ==> KnownZ(ids[i])) ==>
      var s := IsotopeStreams(zDetected, ids);
      BinCount(s.o, binOf, bin) + BinCount(s.c, binOf, bin) + BinCount(s.n, binOf, bin) == BinCount(s.all, binOf, bin)
  {
    MaskedBinCounts(zDetected, IsotopeMask(ids, OxygenZ), IsotopeMask(ids, CarbonZ), IsotopeMask(ids, NitrogenZ),
                    binOf, bin);
  }

  lemma ConcatBinsBounded(s1: Streams, s2: Streams, binOf: real -> int, bin: int)
    requires BinsBounded(s1, binOf, bin) && BinsBounded(s2, binOf, bin)
    ensures BinsBounded(s1.Concat(s2), binOf, bin)
  {
    BinCountAppend(s1.all, s2.all, binOf, bin);
    BinCountAppend(s1.o, s2.o, binOf, bin);
    BinCountAppend(s1.c, s2.c, binOf, bin);
    BinCountAppend(s1.n, s2.n, binOf, bin);
  }

  predicate AllAligned(events: seq<EventRecord>) {
    forall i :: 0 <= i < |events| ==> events[i].Aligned()
  }

  lemma EventBinsBounded(
    rec: EventRecord, i: nat, nEvents: nat, irrTime: real, w: Window, precision: real, std: (nat, nat) -> real,
    binOf: real -> int, bin: int)
    requires rec.Aligned() && nEvents > 0
    ensures BinsBounded(EventStreams(rec, i, nEvents, irrTime, w, precision, std), binOf, bin)
  {
    var f := TimeFilter(rec, EventTime(irrTime, i, nEvents), w);
    IsotopeBinsPartition(Detected(f.zTimeFilter, precision, std, i), f.idTimeFilter, binOf, bin);
  }

  /** Every emitter of every event is an O, C or N nucleus. */
  predicate KnownIsotopes(events: seq<EventRecord>) {
    forall i, j :: 0 <= i < |events| && 0 <= j < |events[i].id| ==> KnownZ(events[i].id[j])
  }

  /** Per bin, the O, C and N streams together fill each bin exactly as the all-stream does. */
  predicate BinsPartitioned(s: Streams, binOf: real -> int, bin: int) {
    BinCount(s.o, binOf, bin) + BinCount(s.c, binOf, bin) + BinCount(s.n, binOf, bin) == BinCount(s.all, binOf, bin)
  }

  /** Masking keeps only ids that were in the vector: all O, C or N before means all O, C or N after. */
  lemma {:induction false} MaskedIdsKnown(ids: seq<int>, m: seq<bool>)
    requires |ids| == |m|
    requires forall j :: 0 <= j < |ids| ==> KnownZ(ids[j])
    ensures forall j :: 0 <= j < |Masked(ids, m)| ==> KnownZ(Masked(ids, m)[j])
    decreases |ids|
  {
    if |ids| > 0 {
      MaskedIdsKnown(ids[1..], m[1..]);
      var rest := Masked(ids[1..], m[1..]);
      if m[0] {
        var r := [ids[0]] + rest;
        assert Masked(ids, m) == r;
        forall j | 0 <= j < |r| ensures KnownZ(r[j]) {
          if j > 0 {
            assert r[j] == rest[j - 1];
          }
        }
      } else {
        assert Masked(ids, m) == rest;
      }
    }
  }

  lemma ConcatBinsPartitioned(s1: Streams, s2: Streams, binOf: real -> int, bin: int)
    requires BinsPartitioned(s1, binOf, bin) && BinsPartitioned(s2, binOf, bin)
    ensures BinsPartitioned(s1.Concat(s2), binOf, bin)
  {
    BinCountAppend(s1.all, s2.all, binOf, bin);
    BinCountAppend(s1.o, s2.o, binOf, bin);
    BinCountAppend(s1.c, s2.c, binOf, bin);
    BinCountAppend(s1.n, s2.n, binOf, bin);
  }

  /** An event whose emitters are all O, C or N: its isotope streams fill every bin exactly as its all-stream does. */
  lemma EventBinsPartitioned(
    rec: EventRecord, i: nat, nEvents: nat, irrTime: real, w: Window, precision: real, std: (nat, nat) -> real,
    binOf: real -> int, bin: int)
    requires rec.Aligned() && nEvents > 0
    requires forall j :: 0 <= j < |rec.id| ==> KnownZ(rec.id[j])
    ensures BinsPartitioned(EventStreams(rec, i, nEvents, irrTime, w, precision, std), binOf, bin)
  {
    var et := EventTime(irrTime, i, nEvents);
    var f := TimeFilter(rec, et, w);
    var maskT := TimeMask(et, rec.t, w);
    MaskedIdsKnown(rec.id, maskT);
    assert f.idTimeFilter == Masked(rec.id, maskT);
    IsotopeBinsPartition(Detected(f.zTimeFilter, precision, std, i), f.idTimeFilter, binOf, bin);
  }

  /** The streams of events 0 .. k-1, one entry per event, in event order. */
  function PerEvent(
    events: seq<EventRecord>, k: nat, irrTime: real, w: Window, precision: real, std: (nat, nat) -> real): (ss: seq<Streams>)
    requires AllAligned(events) && 0 < |events| && k <= |events|
    ensures |ss| == k
    ensures forall i :: 0 <= i < k ==> ss[i] == EventStreams(events[i], i, |events|, irrTime, w, precision, std)
  {
    seq(k, i requires 0 <= i < k => EventStreams(events[i], i, |events|, irrTime, w, precision, std))
  }

  /** The streams of several events, concatenated in order. */
  function ConcatAll(ss: seq<Streams>): Streams {
    if ss == [] then NoStreams else ConcatAll(ss[..|ss| - 1]).Concat(ss[|ss| - 1])
  }

  /**
   * IsotopeBinsPartition over the first `k` events together: a bound always,
   * equality when every emitter of every event is O, C or N.
   */
  lemma {:induction false} CollectedBinsPartition(
    events: seq<EventRecord>, k: nat, irrTime: real, w: Window, precision: real, std: (nat, nat) -> real,
    binOf: real -> int, bin: int)
    requires AllAligned(events) && 0 < |events| && k <= |events|
    ensures BinsBounded(ConcatAll(PerEvent(events, k, irrTime, w, precision, std)), binOf, bin)
    ensures KnownIsotopes(events) ==> BinsPartitioned(ConcatAll(PerEvent(events, k, irrTime, w, precision, std)), binOf, bin)
  {
    if k > 0 {
      var prev := PerEvent(events, k - 1, irrTime, w, precision, std);
      var e := EventStreams(events[k - 1], k - 1, |events|, irrTime, w, precision, std);
      var ss := PerEvent(events, k, irrTime, w, precision, std);
      assert ss[..|ss| - 1] == prev && ss[|ss| - 1] == e;
      CollectedBinsPartition(events, k - 1, irrTime, w, precision, std, binOf, bin);
      EventBinsBounded(events[k - 1], k - 1, |events|, irrTime, w, precision, std, binOf, bin);
      ConcatBinsBounded(ConcatAll(prev), e, binOf, bin);
      if KnownIsotopes(events) {
        EventBinsPartitioned(events[k - 1], k - 1, |events|, irrTime, w, precision, std, binOf, bin);
        ConcatBinsPartitioned(ConcatAll(prev), e, binOf, bin);
      }
    }
  }

  // ---------------------------------------------------------- histograms

  /** A TH1DModel: nBins uniform bins over [low, high]. */
  datatype HistModel = HistModel(nBins: int, low: real, high: real)

  /** The model shared by the four histograms: nBins bins over [0, 1.4 * Bragg peak depth]. */
  function ActivityModel(nBins: int, braggPeakDepth: real): (m: HistModel)
    ensures m.nBins == nBins && m.low == 0.0 && m.high == 1.4 * braggPeakDepth
  {
    HistModel(nBins, 0.0, braggPeakDepth * 1.4)
  }

  /** A histogram: its model, the values filled (weight 1 each) and the factor it was scaled by. */
  datatype Histogram = Histogram(model: HistModel, values: seq<real>, scale: real)
  {
    function Content(binOf: real -> int, bin: int): real {
      scale * BinCount(values, binOf, bin) as real
    }
  }

  /**
   * The common scaling factor, with the window already in seconds: the factor
   * multiplies the window length by 60 once more.
   */
  function ScalingFactor(nIrrad: real, nEvents: nat, w: Window): real
    requires nEvents > 0
  {
    nIrrad / nEvents as real * (60.0 * (w.timeEnd - w.timeBegin))
  }

  lemma ScalingFactorAdditive(n1: real, n2: real, nEvents: nat, w: Window)
    requires nEvents > 0
    ensures ScalingFactor(n1 + n2, nEvents, w) == ScalingFactor(n1, nEvents, w) + ScalingFactor(n2, nEvents, w)
  {
    var k := 60.0 * (w.timeEnd - w.timeBegin);
    var n := nEvents as real;
    assert (n1 + n2) / n == n1 / n + n2 / n;
    assert (n1 / n + n2 / n) * k == n1 / n * k + n2 / n * k;
  }

  lemma ScalingFactorHomogeneous(c: real, nIrrad: real, nEvents: nat, w: Window)
    requires nEvents > 0
    ensures ScalingFactor(c * nIrrad, nEvents, w) == c * ScalingFactor(nIrrad, nEvents, w)
  {
    var k := 60.0 * (w.timeEnd - w.timeBegin);
    var n := nEvents as real;
    assert (c * nIrrad) / n == c * (nIrrad / n);
    assert c * (nIrrad / n) * k == c * (nIrrad / n * k);
  }

  // ------------------------------------------------------------- run

  /** The command-line options as given, and std::stod's reading of a string. */
  datatype Options = Options(
    fileStem: string,
    timeBeginStr: string, timeEndStr: string, irrTimeStr: string, precisionStr: string,
    nIrrad: real, nBins: int)

  /** What plotActivity writes: the four scaled histograms and the output file name. */
  datatype Activity = Activity(
    histoAll: Histogram, histoO: Histogram, histoC: Histogram, histoN: Histogram, outputFileName: string)

  /** The output file name, built from the option strings as given. */
  function OutputFileName(stem: string, b: string, e: string, p: string, r: string): string {
    stem + "_activity_[" + b + "," + e + "]_p" + p + "_i" + r + ".root"
  }

  /** The name starts with the stem and "_activity_[", carries the raw begin string next and ends in ".root". */
  lemma OutputFileNameLayout(stem: string, b: string, e: string, p: string, r: string)
    ensures var name := OutputFileName(stem, b, e, p, r);
      && |name| == |stem| + |b| + |e| + |p| + |r| + 22
      && name[..|stem| + 11] == stem + "_activity_["
      && name[|stem| + 11..|stem| + 11 + |b|] == b
      && name[|name| - 5..] == ".root"
  {
  }

  /**
   * The name carries the raw begin string: "-5" is written as given although
   * the clamped window starts at 0.
   */
  lemma OutputFileNameUsesRawStrings()
    ensures OutputFileName("run", "-5", "10", "0", "2") == "run_activity_[-5,10]_p0_i2.root"
    ensures ClampedWindow(-5.0, 10.0).timeBegin == 0.0
  {
  }

  /**
   * The histograms and file name for a window and irradiation time already
   * in seconds: the streams of all events, one model, one factor.
   */
  function ActivityFrom(
    opts: Options, events: seq<EventRecord>, w: Window, irrTime: real, precision: real, braggPeakDepth: real,
    std: (nat, nat) -> real): Activity
    requires AllAligned(events) && |events| > 0
  {
    var s := ConcatAll(PerEvent(events, |events|, irrTime, w, precision, std));
    var model := ActivityModel(opts.nBins, braggPeakDepth);
    var factor := ScalingFactor(opts.nIrrad, |events|, w);
    Activity(
      Histogram(model, s.all, factor), Histogram(model, s.o, factor),
      Histogram(model, s.c, factor), Histogram(model, s.n, factor),
      OutputFileName(opts.fileStem, opts.timeBeginStr, opts.timeEndStr, opts.precisionStr, opts.irrTimeStr))
  }

  /**
   * All four histograms share one model and one factor; in every bin the
   * isotope histograms together hold no more entries than the sum histogram,
   * and exactly as many when every emitter is O, C or N.
   */
  lemma ActivityHistogramsAgree(
    opts: Options, events: seq<EventRecord>, w: Window, irrTime: real, precision: real, braggPeakDepth: real,
    std: (nat, nat) -> real, binOf: real -> int, bin: int)
    requires AllAligned(events) && |events| > 0
    ensures var a := ActivityFrom(opts, events, w, irrTime, precision, braggPeakDepth, std);
      && a.histoO.model == a.histoAll.model && a.histoC.model == a.histoAll.model && a.histoN.model == a.histoAll.model
      && a.histoO.scale == a.histoAll.scale && a.histoC.scale == a.histoAll.scale && a.histoN.scale == a.histoAll.scale
      && a.histoAll.model == ActivityModel(opts.nBins, braggPeakDepth)
      && a.histoAll.scale == ScalingFactor(opts.nIrrad, |events|, w)
      && BinsBounded(Streams(a.histoAll.values, a.histoO.values, a.histoC.values, a.histoN.values), binOf, bin)
      && (KnownIsotopes(events) ==>
            BinsPartitioned(Streams(a.histoAll.values, a.histoO.values, a.histoC.values, a.histoN.values), binOf, bin))
  {
    CollectedBinsPartition(events, |events|, irrTime, w, precision, std, binOf, bin);
  }

  /**
   * Histograms with one factor whose values partition every bin: the
   * isotope contents add up to the sum histogram's content.
   */
  lemma PartitionedContents(all: Histogram, o: Histogram, c: Histogram, n: Histogram, binOf: real -> int, bin: int)
    requires o.scale == all.scale && c.scale == all.scale && n.scale == all.scale
    requires BinsPartitioned(Streams(all.values, o.values, c.values, n.values), binOf, bin)
    ensures o.Content(binOf, bin) + c.Content(binOf, bin) + n.Content(binOf, bin) == all.Content(binOf, bin)
  {
    var f := all.scale;
    var ko := BinCount(o.values, binOf, bin) as real;
    var kc := BinCount(c.values, binOf, bin) as real;
    var kn := BinCount(n.values, binOf, bin) as real;
    assert f * ko + f * kc + f * kn == f * (ko + kc + kn);
  }

  /** Scaling a histogram by `c` more scales every bin's content by `c`. */
  lemma ContentHomogeneous(h: Histogram, c: real, binOf: real -> int, bin: int)
    ensures h.(scale := c * h.scale).Content(binOf, bin) == c * h.Content(binOf, bin)
  {
    var k := BinCount(h.values, binOf, bin) as real;
    assert (c * h.scale) * k == c * (h.scale * k);
  }

  /**
   * Multiplying nIrrad by `c` multiplies the factor of all four histograms by
   * `c` and changes nothing else.
   */
  lemma ActivityFromHomogeneous(
    opts: Options, events: seq<EventRecord>, w: Window, irrTime: real, precision: real, braggPeakDepth: real,
    std: (nat, nat) -> real, c: real)
    requires AllAligned(events) && |events| > 0
    ensures var a := ActivityFrom(opts, events, w, irrTime, precision, braggPeakDepth, std);
      var a' := ActivityFrom(opts.(nIrrad := c * opts.nIrrad), events, w, irrTime, precision, braggPeakDepth, std);
      && a'.histoAll == a.histoAll.(scale := c * a.histoAll.scale)
      && a'.histoO == a.histoO.(scale := c * a.histoO.scale)
      && a'.histoC == a.histoC.(scale := c * a.histoC.scale)
      && a'.histoN == a.histoN.(scale := c * a.histoN.scale)
      && a'.outputFileName == a.outputFileName
  {
    ScalingFactorHomogeneous(c, opts.nIrrad, |events|, w);
  }

  /** The in-place clamping of the window read from the options, in minutes. */
  method ClampWindow(timeBegin0: real, timeEnd0: real) returns (timeBegin: real, timeEnd: real)
    ensures Window(timeBegin, timeEnd) == ClampedWindow(timeBegin0, timeEnd0)
  {
    timeBegin, timeEnd := timeBegin0, timeEnd0;
    if timeBegin < 0.0 {
      timeBegin := 0.0;
    }
    if timeEnd <= timeBegin {
      timeEnd := 2.0 * 60.0;
    }
  }

  /**
   * main's computation: read and clamp the window, give up when the file has
   * no tree, convert minutes to seconds, then histogram the streams.
   */
  method PlotActivity(
    opts: Options, stod: string -> real, tree: Option<seq<EventRecord>>, braggPeakDepth: real, std: (nat, nat) -> real)
    returns (r: Result<Activity>)
    requires tree.Some? ==> AllAligned(tree.value) && |tree.value| > 0
    ensures tree.None? <==> r.Error?
    ensures tree.Some? ==>
      r == Ok(ActivityFrom(opts, tree.value, InSeconds(ClampedWindow(stod(opts.timeBeginStr), stod(opts.timeEndStr))),
                           stod(opts.irrTimeStr) * 60.0, stod(opts.precisionStr), braggPeakDepth, std))
  {
    var timeBegin, timeEnd := ClampWindow(stod(opts.timeBeginStr), stod(opts.timeEndStr));

    var precision := stod(opts.precisionStr);

    if tree.None? {
      return Error("no tree");
    }
    var events := tree.value;
    var irrTime := stod(opts.irrTimeStr);

    timeBegin := timeBegin * 60.0;
    timeEnd := timeEnd * 60.0;
    irrTime := irrTime * 60.0;

    r := Ok(ActivityFrom(opts, events, Window(timeBegin, timeEnd), irrTime, precision, braggPeakDepth, std));
  }

  // ------------------------------------------------------- writer to reader

  /**
   * The positron-emitter vectors of a written row as the reader sees them:
   * depth z, isotope id and time t. The writer names the isotope column
   * `Z` and the reader reads `id`; the model takes them for one column.
   */
  function RecordOf(row: Writer.EventRow): (rec: EventRecord)
    ensures row.positrons.Aligned() ==> rec.Aligned() && |rec.z| == |row.positrons.A|
  {
    EventRecord(row.positrons.z, row.positrons.Z, row.positrons.t)
  }

  /**
   * Every row the writer adds is a record the reader can mask: aligned rows
   * make aligned records. The tree has the z, Z and t columns the reader
   * needs exactly when the writer is not in minimal mode.
   */
  lemma RowsReadable(s: Writer.Settings, rows: seq<Writer.EventRow>)
    requires Writer.AllAligned(rows)
    ensures AllAligned(seq(|rows|, i requires 0 <= i < |rows| => RecordOf(rows[i])))
    ensures (Writer.EmitterZPos in Writer.Schema(s) && Writer.EmitterZ in Writer.Schema(s)
             && Writer.EmitterT in Writer.Schema(s)) <==> !s.minimalTreeForTransverseGammas
  {
    Writer.FullTreeMembers(Writer.EmitterZPos);
  }
}
