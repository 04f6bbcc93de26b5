/** The Protobuf-style report encoder, with a decoder written from the Protocol
    Buffers Encoding specification ("Base 128 Varints", "Message Structure",
    "Length-Delimited Records"). Strings are their UTF-8 bytes, doubles their 64 bits. */
module Protobuf {
  import opened Options
  import opened Words

  type Bytes = seq<byte>

  type i64 = x: int | -0x8000_0000_0000_0000 <= x < 0x8000_0000_0000_0000

  datatype Metric = Metric(name: Bytes, value: u64, labels: map<Bytes, Bytes>)

  datatype Report = Report(hostname: Bytes, datacenter: Bytes, timestamp: i64, metrics: seq<Metric>)

  // ---------------------------------------------------------------------------
  // Numbers
  // ---------------------------------------------------------------------------

  function Varint(v: nat): (r: Bytes)
    ensures r != []
  {
    if v < 128 then [v] else [v % 128 + 128] + Varint(v / 128)
  }

  /** A varint of at most n bytes, with the bytes after it. */
  function TakeVarint(bs: Bytes, n: nat): (r: Option<(nat, Bytes)>)
    ensures r.Some? ==> |r.value.1| < |bs|
  {
    if n == 0 || bs == [] then None
    else if bs[0] < 128 then Some((bs[0], bs[1..]))
    else
      match TakeVarint(bs[1..], n - 1)
      case None => None
      case Some((v, rest)) => Some((bs[0] - 128 + 128 * v, rest))
  }

  function DecodeVarint(bs: Bytes): (r: Option<(u64, Bytes)>)
    ensures r.Some? ==> |r.value.1| < |bs|
  {
    match TakeVarint(bs, 10)
    case Some((v, rest)) => if v < WORD then Some((v, rest)) else None
    case None => None
  }

  function Bits(v: nat): nat { if v == 0 then 0 else 1 + Bits(v / 2) }

  function Pow2(n: nat): nat { if n == 0 then 1 else 2 * Pow2(n - 1) }

  lemma {:induction false} BitsBound(v: nat, n: nat)
    requires v < Pow2(n)
    ensures Bits(v) <= n
  {
    if v == 0 {
    } else {
      BitsBound(v / 2, n - 1);
    }
  }

  lemma {:induction false} SevenBits(v: nat)
    ensures v >= 128 ==> Bits(v) == 7 + Bits(v / 128)
    ensures v < 128 ==> Bits(v) <= 7
  {
    var h1 := v / 2;
    var h2 := h1 / 2;
    var h3 := h2 / 2;
    var h4 := h3 / 2;
    var h5 := h4 / 2;
    var h6 := h5 / 2;
    var h7 := h6 / 2;
    assert h7 == v / 128;
    if v >= 128 {
      assert Bits(v) == 1 + Bits(h1) == 2 + Bits(h2) == 3 + Bits(h3) == 4 + Bits(h4);
      assert Bits(h4) == 1 + Bits(h5) == 2 + Bits(h6) == 3 + Bits(h7);
    } else {
      assert Pow2(7) == 128 by {
        assert Pow2(4) == 16;
      }
      BitsBound(v, 7);
    }
  }

  /** A varint takes one byte per seven bits, and one for zero. */
  lemma {:induction false} VarintLength(v: nat)
    ensures |Varint(v)| == if v == 0 then 1 else (Bits(v) + 6) / 7
  {
    SevenBits(v);
    if v >= 128 {
      VarintLength(v / 128);
    } else if v > 0 {
      assert Bits(v) >= 1;
    }
  }

  lemma {:induction false} VarintFitsTen(v: u64)
    ensures |Varint(v)| <= 10
  {
    Pow64();
    BitsBound(v, 64);
    VarintLength(v);
  }

  lemma {:induction false} PowAdd(a: nat, b: nat)
    ensures Pow2(a + b) == Pow2(a) * Pow2(b)
  {
    if a == 0 {
    } else {
      PowAdd(a - 1, b);
      assert 2 * Pow2(a - 1) * Pow2(b) == 2 * (Pow2(a - 1) * Pow2(b));
    }
  }

  lemma {:induction false} TakeVarintBack(v: nat, rest: Bytes, n: nat)
    requires n >= |Varint(v)|
    ensures TakeVarint(Varint(v) + rest, n) == Some((v, rest))
  {
    var bs := Varint(v) + rest;
    if v >= 128 {
      TakeVarintBack(v / 128, rest, n - 1);
      assert bs[1..] == Varint(v / 128) + rest;
    } else {
      assert bs[1..] == rest;
    }
  }

  /** Every 64-bit value is decoded back from its varint, whatever follows it. */
  lemma {:induction false} VarintRoundTrip(v: u64, rest: Bytes)
    ensures DecodeVarint(Varint(v) + rest) == Some((v, rest))
  {
    VarintFitsTen(v);
    TakeVarintBack(v, rest, 10);
  }

  /** No varint is a prefix of another. */
  lemma {:induction false} VarintPrefixFree(v: u64, w: u64)
    requires Varint(v) <= Varint(w)
    ensures v == w
  {
    var rest := Varint(w)[|Varint(v)|..];
    assert Varint(w) == Varint(v) + rest == Varint(w) + [];
    VarintRoundTrip(v, rest);
    VarintRoundTrip(w, []);
  }

  function ToU64(v: i64): u64 { if v < 0 then v + WORD else v }

  function ToI64(v: u64): i64 { if v < 0x8000_0000_0000_0000 then v else v - WORD }

  lemma {:induction false} CastRoundTrip(v: i64, w: u64)
    ensures ToI64(ToU64(v)) == v && ToU64(ToI64(w)) == w
  {
  }

  function LittleEndian(v: nat, n: nat): (r: Bytes)
    ensures |r| == n
  {
    if n == 0 then [] else [v % 256] + LittleEndian(v / 256, n - 1)
  }

  function FromLittleEndian(bs: Bytes): nat {
    if bs == [] then 0 else bs[0] + 256 * FromLittleEndian(bs[1..])
  }

  lemma {:induction false} LittleEndianRoundTrip(v: nat, n: nat)
    requires v < Pow2(8 * n)
    ensures FromLittleEndian(LittleEndian(v, n)) == v
  {
    if n == 0 {
    } else {
      PowAdd(8, 8 * (n - 1));
      assert Pow2(8) == 256;
      LittleEndianRoundTrip(v / 256, n - 1);
    }
  }

  lemma {:induction false} FromLittleEndianBound(bs: Bytes)
    ensures FromLittleEndian(bs) < Pow2(8 * |bs|)
  {
    if bs == [] {
    } else {
      FromLittleEndianBound(bs[1..]);
      PowAdd(8, 8 * (|bs| - 1));
      assert Pow2(8) == 256;
    }
  }

  lemma {:induction false} Pow64()
    ensures Pow2(64) == WORD
  {
    assert Pow2(8) == 256;
    PowAdd(8, 8);
    PowAdd(16, 16);
    PowAdd(32, 32);
  }

  // ---------------------------------------------------------------------------
  // Fields
  // ---------------------------------------------------------------------------

  datatype Field =
    | Number(num: nat, value: u64)
    | Double(num: nat, bits: u64)
    | Record(num: nat, payload: Bytes)

  function TagOf(num: nat, wire: nat): nat { num * 8 + wire }

  function EncodeField(f: Field): (r: Bytes)
    ensures r != []
  {
    match f
    case Number(num, v) => Varint(TagOf(num, 0)) + Varint(v)
    case Double(num, bits) => Varint(TagOf(num, 1)) + LittleEndian(bits, 8)
    case Record(num, payload) => Varint(TagOf(num, 2)) + Varint(|payload|) + payload
  }

  function EncodeFields(fs: seq<Field>): Bytes {
    if fs == [] then [] else EncodeField(fs[0]) + EncodeFields(fs[1..])
  }

  /** One field and the bytes after it; field number 0 and the wire types that
      the encoder never uses are errors. */
  function DecodeField(bs: Bytes): (r: Option<(Field, Bytes)>)
    ensures r.Some? ==> |r.value.1| < |bs|
  {
    match DecodeVarint(bs)
    case None => None
    case Some((tag, rest)) =>
      var num, wire := tag / 8, tag % 8;
      if num == 0 then None
      else if wire == 0 then
        (match DecodeVarint(rest)
         case None => None
         case Some((v, after)) => Some((Number(num, v), after)))
      else if wire == 1 && |rest| >= 8 then
        FromLittleEndianBound(rest[..8]);
        Pow64();
        Some((Double(num, FromLittleEndian(rest[..8])), rest[8..]))
      else if wire == 2 then
        (match DecodeVarint(rest)
         case None => None
         case Some((n, after)) =>
           if n <= |after| then Some((Record(num, after[..n]), after[n..])) else None)
      else None
  }

  function DecodeFields(bs: Bytes): Option<seq<Field>>
    decreases |bs|
  {
    if bs == [] then Some([]) else
    match DecodeField(bs)
    case None => None
    case Some((f, rest)) =>
      match DecodeFields(rest)
      case None => None
      case Some(fs) => Some([f] + fs)
  }

  predicate ValidField(f: Field) {
    && 0 < f.num < 0x2000_0000
    && (f.Record? ==> |f.payload| < WORD)
  }

  lemma {:induction false} RecordRoundTrip(num: nat, payload: Bytes, rest: Bytes)
    requires ValidField(Record(num, payload))
    ensures DecodeField(EncodeField(Record(num, payload)) + rest) == Some((Record(num, payload), rest))
  {
    var bs := EncodeField(Record(num, payload)) + rest;
    var size := Varint(|payload|);
    assert bs == Varint(TagOf(num, 2)) + (size + (payload + rest));
    VarintRoundTrip(TagOf(num, 2), size + (payload + rest));
    VarintRoundTrip(|payload|, payload + rest);
  }

  lemma {:induction false} NumberRoundTrip(num: nat, v: u64, rest: Bytes)
    requires ValidField(Number(num, v))
    ensures DecodeField(EncodeField(Number(num, v)) + rest) == Some((Number(num, v), rest))
  {
    var bs := EncodeField(Number(num, v)) + rest;
    assert bs == Varint(TagOf(num, 0)) + (Varint(v) + rest);
    VarintRoundTrip(TagOf(num, 0), Varint(v) + rest);
    VarintRoundTrip(v, rest);
  }

  lemma {:induction false} DoubleRoundTrip(num: nat, bits: u64, rest: Bytes)
    requires ValidField(Double(num, bits))
    ensures DecodeField(EncodeField(Double(num, bits)) + rest) == Some((Double(num, bits), rest))
  {
    var bs := EncodeField(Double(num, bits)) + rest;
    assert bs == Varint(TagOf(num, 1)) + (LittleEndian(bits, 8) + rest);
    VarintRoundTrip(TagOf(num, 1), LittleEndian(bits, 8) + rest);
    assert (LittleEndian(bits, 8) + rest)[..8] == LittleEndian(bits, 8);
    Pow64();
    LittleEndianRoundTrip(bits, 8);
  }

  lemma {:induction false} FieldRoundTrip(f: Field, rest: Bytes)
    requires ValidField(f)
    ensures DecodeField(EncodeField(f) + rest) == Some((f, rest))
  {
    match f
    case Number(num, v) => NumberRoundTrip(num, v, rest);
    case Double(num, bits) => DoubleRoundTrip(num, bits, rest);
    case Record(num, payload) => RecordRoundTrip(num, payload, rest);
  }

  /** Messages are self-delimiting field by field. */
  lemma {:induction false} FieldsRoundTrip(fs: seq<Field>)
    requires forall f :: f in fs ==> ValidField(f)
    ensures DecodeFields(EncodeFields(fs)) == Some(fs)
  {
    if fs == [] {
    } else {
      FieldsRoundTrip(fs[1..]);
      FieldRoundTrip(fs[0], EncodeFields(fs[1..]));
      assert fs == [fs[0]] + fs[1..];
    }
  }

  lemma {:induction false} PayloadsFit(fs: seq<Field>)
    ensures forall f :: f in fs && f.Record? ==> |f.payload| <= |EncodeFields(fs)|
  {
    if fs == [] {
    } else {
      PayloadsFit(fs[1..]);
      assert fs == [fs[0]] + fs[1..];
    }
  }

  lemma {:induction false} EncodeConcat(fs: seq<Field>, gs: seq<Field>)
    ensures EncodeFields(fs + gs) == EncodeFields(fs) + EncodeFields(gs)
  {
    if fs == [] {
      assert fs + gs == gs;
    } else {
      assert (fs + gs)[1..] == fs[1..] + gs;
      EncodeConcat(fs[1..], gs);
    }
  }

  ghost predicate Small(fs: seq<Field>) { |EncodeFields(fs)| < WORD }

  lemma {:induction false} EncodeNext(fs: seq<Field>, j: nat)
    requires j < |fs|
    ensures EncodeFields(fs[..j + 1]) == EncodeFields(fs[..j]) + EncodeField(fs[j])
  {
    assert fs[..j + 1] == fs[..j] + [fs[j]];
    EncodeConcat(fs[..j], [fs[j]]);
    assert EncodeFields([fs[j]]) == EncodeField(fs[j]) + EncodeFields([]);
  }

  lemma {:induction false} SmallPayload(fs: seq<Field>, j: nat)
    requires Small(fs) && j < |fs| && fs[j].Record?
    ensures |fs[j].payload| < WORD
  {
    PayloadsFit(fs);
    assert fs[j] in fs;
  }

  lemma {:induction false} SmallFieldsAreValid(fs: seq<Field>)
    requires Small(fs) && forall f :: f in fs ==> 0 < f.num < 0x2000_0000
    ensures DecodeFields(EncodeFields(fs)) == Some(fs)
  {
    PayloadsFit(fs);
    FieldsRoundTrip(fs);
  }

  // ---------------------------------------------------------------------------
  // Reports as fields, and back
  // ---------------------------------------------------------------------------

  function EntryFields(k: Bytes, v: Bytes): seq<Field> { [Record(1, k), Record(2, v)] }

  /** The labels of a metric in an order in which a hash map may yield them. */
  ghost predicate IsOrder(order: seq<Bytes>, labels: map<Bytes, Bytes>) {
    && (forall i :: 0 <= i < |order| ==> order[i] in labels)
    && (forall k :: k in labels ==> k in order)
    && (forall i, j :: 0 <= i < j < |order| ==> order[i] != order[j])
  }

  function LabelField(k: Bytes, v: Bytes): Field { Record(3, EncodeFields(EntryFields(k, v))) }

  function MetricFields(m: Metric, order: seq<Bytes>): seq<Field>
    requires forall i :: 0 <= i < |order| ==> order[i] in m.labels
  {
    [Record(1, m.name), Double(2, m.value)]
    + seq(|order|, i requires 0 <= i < |order| => LabelField(order[i], m.labels[order[i]]))
  }

  ghost predicate AreOrders(orders: seq<seq<Bytes>>, metrics: seq<Metric>) {
    |orders| == |metrics| && forall i :: 0 <= i < |metrics| ==> IsOrder(orders[i], metrics[i].labels)
  }

  function MetricField(m: Metric, order: seq<Bytes>): Field
    requires forall i :: 0 <= i < |order| ==> order[i] in m.labels
  {
    Record(4, EncodeFields(MetricFields(m, order)))
  }

  ghost function ReportFields(r: Report, orders: seq<seq<Bytes>>): seq<Field>
    requires AreOrders(orders, r.metrics)
  {
    [Record(1, r.hostname), Record(2, r.datacenter), Number(3, ToU64(r.timestamp))]
    + seq(|r.metrics|, i requires 0 <= i < |r.metrics| => MetricField(r.metrics[i], orders[i]))
  }

  ghost function Encoding(r: Report, orders: seq<seq<Bytes>>): Bytes
    requires AreOrders(orders, r.metrics)
  {
    EncodeFields(ReportFields(r, orders))
  }

  function ReadEntry(fs: seq<Field>): (Bytes, Bytes) {
    if fs == [] then ([], []) else
    var (k, v) := ReadEntry(fs[..|fs| - 1]);
    match fs[|fs| - 1]
    case Record(num, p) => if num == 1 then (p, v) else if num == 2 then (k, p) else (k, v)
    case _ => (k, v)
  }

  /** Later scalars replace earlier ones, unknown fields are skipped. */
  function MetricWith(m: Metric, f: Field): Option<Metric> {
    match f
    case Number(_, _) => Some(m)
    case Double(num, bits) => if num == 2 then Some(m.(value := bits)) else Some(m)
    case Record(num, p) =>
      if num == 1 then Some(m.(name := p))
      else if num == 3 then
        (match DecodeFields(p)
         case None => None
         case Some(entry) => var (k, v) := ReadEntry(entry); Some(m.(labels := m.labels[k := v])))
      else Some(m)
  }

  function ReadMetric(fs: seq<Field>): Option<Metric> {
    if fs == [] then Some(Metric([], 0, map[])) else
    match ReadMetric(fs[..|fs| - 1])
    case None => None
    case Some(m) => MetricWith(m, fs[|fs| - 1])
  }

  function DecodeMetric(bs: Bytes): Option<Metric> {
    match DecodeFields(bs)
    case None => None
    case Some(fs) => ReadMetric(fs)
  }

  function ReportWith(r: Report, f: Field): Option<Report> {
    match f
    case Double(_, _) => Some(r)
    case Number(num, v) => if num == 3 then Some(r.(timestamp := ToI64(v))) else Some(r)
    case Record(num, p) =>
      if num == 1 then Some(r.(hostname := p))
      else if num == 2 then Some(r.(datacenter := p))
      else if num == 4 then
        (match DecodeMetric(p)
         case None => None
         case Some(m) => Some(r.(metrics := r.metrics + [m])))
      else Some(r)
  }

  function ReadReport(fs: seq<Field>): Option<Report> {
    if fs == [] then Some(Report([], [], 0, [])) else
    match ReadReport(fs[..|fs| - 1])
    case None => None
    case Some(r) => ReportWith(r, fs[|fs| - 1])
  }

  function DecodeReport(bs: Bytes): Option<Report> {
    match DecodeFields(bs)
    case None => None
    case Some(fs) => ReadReport(fs)
  }

  // ---------------------------------------------------------------------------
  // The round trip
  // ---------------------------------------------------------------------------

  lemma {:induction false} ReadMetricNext(fs: seq<Field>, j: nat, m: Metric)
    requires j < |fs| && ReadMetric(fs[..j]) == Some(m)
    ensures ReadMetric(fs[..j + 1]) == MetricWith(m, fs[j])
  {
    assert fs[..j + 1][..j] == fs[..j];
  }

  lemma {:induction false} ReadReportNext(fs: seq<Field>, j: nat, r: Report)
    requires j < |fs| && ReadReport(fs[..j]) == Some(r)
    ensures ReadReport(fs[..j + 1]) == ReportWith(r, fs[j])
  {
    assert fs[..j + 1][..j] == fs[..j];
  }

  lemma {:induction false} ReadEntryBack(k: Bytes, v: Bytes)
    ensures ReadEntry(EntryFields(k, v)) == (k, v)
  {
    var fs := EntryFields(k, v);
    assert fs[..1] == [Record(1, k)] && fs[..1][..0] == [];
    assert ReadEntry(fs[..1]) == (k, []);
  }

  lemma {:induction false} LabelBack(m: Metric, k: Bytes, v: Bytes)
    requires Small(EntryFields(k, v))
    ensures MetricWith(m, LabelField(k, v)) == Some(m.(labels := m.labels[k := v]))
  {
    SmallFieldsAreValid(EntryFields(k, v));
    ReadEntryBack(k, v);
  }

  function Restricted(labels: map<Bytes, Bytes>, order: seq<Bytes>): map<Bytes, Bytes> {
    map k | k in order && k in labels :: labels[k]
  }

  lemma {:induction false} RestrictedNext(labels: map<Bytes, Bytes>, order: seq<Bytes>, i: nat)
    requires i < |order| && order[i] in labels
    ensures Restricted(labels, order[..i + 1]) == Restricted(labels, order[..i])[order[i] := labels[order[i]]]
  {
    assert order[..i + 1] == order[..i] + [order[i]];
  }

  lemma {:induction false} ReadMetricHead(m: Metric, fs: seq<Field>)
    requires |fs| >= 2 && fs[0] == Record(1, m.name) && fs[1] == Double(2, m.value)
    ensures ReadMetric(fs[..2]) == Some(m.(labels := map[]))
  {
    assert fs[..0] == [];
    ReadMetricNext(fs, 0, Metric([], 0, map[]));
    ReadMetricNext(fs, 1, Metric(m.name, 0, map[]));
  }

  lemma {:induction false} ReadLabelNext(fs: seq<Field>, j: nat, m: Metric, k: Bytes, v: Bytes)
    requires j < |fs| && fs[j] == LabelField(k, v) && Small(fs) && ReadMetric(fs[..j]) == Some(m)
    ensures ReadMetric(fs[..j + 1]) == Some(m.(labels := m.labels[k := v]))
  {
    ReadMetricNext(fs, j, m);
    SmallPayload(fs, j);
    LabelBack(m, k, v);
  }

  /** Name, value, then one field per label. */
  ghost predicate MetricLayout(fs: seq<Field>, m: Metric, order: seq<Bytes>) {
    && |fs| == 2 + |order| && fs[0] == Record(1, m.name) && fs[1] == Double(2, m.value)
    && forall i :: 0 <= i < |order| ==> order[i] in m.labels && fs[2 + i] == LabelField(order[i], m.labels[order[i]])
  }

  lemma {:induction false} ReadNextLabel(fs: seq<Field>, m: Metric, order: seq<Bytes>, i: nat)
    requires MetricLayout(fs, m, order) && Small(fs) && i < |order|
    requires ReadMetric(fs[..2 + i]) == Some(m.(labels := Restricted(m.labels, order[..i])))
    ensures ReadMetric(fs[..3 + i]) == Some(m.(labels := Restricted(m.labels, order[..i + 1])))
  {
    var k := order[i];
    assert fs[2 + i] == LabelField(k, m.labels[k]);
    ReadLabelNext(fs, 2 + i, m.(labels := Restricted(m.labels, order[..i])), k, m.labels[k]);
    RestrictedNext(m.labels, order, i);
  }

  /** Reading name, value and the first i labels of `order` gives exactly those labels. */
  lemma {:induction false} ReadMetricBack(fs: seq<Field>, m: Metric, order: seq<Bytes>, i: nat)
    requires MetricLayout(fs, m, order) && Small(fs) && i <= |order|
    ensures ReadMetric(fs[..2 + i]) == Some(m.(labels := Restricted(m.labels, order[..i])))
  {
    if i == 0 {
      ReadMetricHead(m, fs);
      assert Restricted(m.labels, order[..0]) == map[];
    } else {
      ReadMetricBack(fs, m, order, i - 1);
      ReadNextLabel(fs, m, order, i - 1);
    }
  }

  lemma {:induction false} WholeOrder(labels: map<Bytes, Bytes>, order: seq<Bytes>)
    requires IsOrder(order, labels)
    ensures Restricted(labels, order[..|order|]) == labels
  {
    assert order[..|order|] == order;
  }

  lemma {:induction false} MetricRoundTrip(m: Metric, order: seq<Bytes>)
    requires IsOrder(order, m.labels) && Small(MetricFields(m, order))
    ensures DecodeMetric(EncodeFields(MetricFields(m, order))) == Some(m)
  {
    var fs := MetricFields(m, order);
    SmallFieldsAreValid(fs);
    ReadMetricBack(fs, m, order, |order|);
    assert fs[..2 + |order|] == fs;
    WholeOrder(m.labels, order);
  }

  lemma {:induction false} MetricBack(r: Report, m: Metric, order: seq<Bytes>)
    requires IsOrder(order, m.labels) && Small(MetricFields(m, order))
    ensures ReportWith(r, MetricField(m, order)) == Some(r.(metrics := r.metrics + [m]))
  {
    MetricRoundTrip(m, order);
  }

  lemma {:induction false} ReadReportHead(r: Report, fs: seq<Field>)
    requires |fs| >= 3 && fs[0] == Record(1, r.hostname) && fs[1] == Record(2, r.datacenter)
    requires fs[2] == Number(3, ToU64(r.timestamp))
    ensures ReadReport(fs[..3]) == Some(r.(metrics := []))
  {
    assert fs[..0] == [];
    ReadReportNext(fs, 0, Report([], [], 0, []));
    ReadReportNext(fs, 1, Report(r.hostname, [], 0, []));
    ReadReportNext(fs, 2, Report(r.hostname, r.datacenter, 0, []));
  }

  lemma {:induction false} ReadNextMetric(fs: seq<Field>, j: nat, r: Report, m: Metric, order: seq<Bytes>)
    requires IsOrder(order, m.labels) && j < |fs| && fs[j] == MetricField(m, order)
    requires Small(fs) && ReadReport(fs[..j]) == Some(r)
    ensures ReadReport(fs[..j + 1]) == Some(r.(metrics := r.metrics + [m]))
  {
    ReadReportNext(fs, j, r);
    SmallPayload(fs, j);
    MetricBack(r, m, order);
  }

  /** Host name, data centre and time stamp, then one field per metric. */
  ghost predicate ReportLayout(fs: seq<Field>, r: Report, orders: seq<seq<Bytes>>) {
    && |fs| == 3 + |r.metrics| && fs[0] == Record(1, r.hostname) && fs[1] == Record(2, r.datacenter)
    && fs[2] == Number(3, ToU64(r.timestamp))
    && AreOrders(orders, r.metrics)
    && forall i :: 0 <= i < |r.metrics| ==> fs[3 + i] == MetricField(r.metrics[i], orders[i])
  }

  /** The report with its first i metrics. */
  function Cut(r: Report, i: nat): Report
    requires i <= |r.metrics|
  {
    r.(metrics := r.metrics[..i])
  }

  lemma {:induction false} CutNext(r: Report, i: nat)
    requires i < |r.metrics|
    ensures Cut(r, i + 1) == Cut(r, i).(metrics := Cut(r, i).metrics + [r.metrics[i]])
  {
  }

  lemma {:induction false} ReadReportBack(fs: seq<Field>, r: Report, orders: seq<seq<Bytes>>, i: nat)
    requires ReportLayout(fs, r, orders) && Small(fs) && i <= |r.metrics|
    ensures ReadReport(fs[..3 + i]) == Some(Cut(r, i))
  {
    if i == 0 {
      ReadReportHead(r, fs);
    } else {
      ReadReportBack(fs, r, orders, i - 1);
      assert fs[3 + (i - 1)] == MetricField(r.metrics[i - 1], orders[i - 1]);
      ReadNextMetric(fs, 2 + i, Cut(r, i - 1), r.metrics[i - 1], orders[i - 1]);
      CutNext(r, i - 1);
    }
  }

  lemma {:induction false} LayoutRoundTrip(fs: seq<Field>, r: Report, orders: seq<seq<Bytes>>)
    requires ReportLayout(fs, r, orders) && Small(fs) && forall f :: f in fs ==> 0 < f.num < 5
    ensures DecodeReport(EncodeFields(fs)) == Some(r)
  {
    SmallFieldsAreValid(fs);
    ReadReportBack(fs, r, orders, |r.metrics|);
    assert fs[..3 + |r.metrics|] == fs;
    assert Cut(r, |r.metrics|) == r;
  }

  /** Every report is recovered from its encoding, for every order in which the
      label maps are iterated, as long as the message length fits 64 bits. */
  lemma {:induction false} ReportRoundTrip(r: Report, orders: seq<seq<Bytes>>)
    requires AreOrders(orders, r.metrics) && |Encoding(r, orders)| < WORD
    ensures DecodeReport(Encoding(r, orders)) == Some(r)
  {
    LayoutRoundTrip(ReportFields(r, orders), r, orders);
  }

  // ---------------------------------------------------------------------------
  // The encoder
  // ---------------------------------------------------------------------------

  lemma {:induction false} Regroup(a: Bytes, b: Bytes, c: Bytes, d: Bytes)
    ensures a + b + c + d == a + (b + c + d) && a + b + c == a + (b + c)
  {
  }

  class Buffer {
    var bytes: Bytes

    constructor ()
      ensures bytes == []
    {
      bytes := [];
    }

    method WriteVarint(value: u64)
      modifies this
      ensures bytes == old(bytes) + Varint(value)
    {
      var v := value;
      while v >= 0x80
        invariant bytes + Varint(v) == old(bytes) + Varint(value)
      {
        bytes := bytes + [v % 128 + 128];
        v := v / 128;
      }
      bytes := bytes + [v];
    }

    method WriteTag(field: nat, wire: nat)
      requires field < 0x2000_0000 && wire < 8
      modifies this
      ensures bytes == old(bytes) + Varint(TagOf(field, wire))
    {
      WriteVarint(field * 8 + wire);
    }

    method WriteString(field: nat, s: Bytes)
      requires field < 0x2000_0000 && |s| < WORD
      modifies this
      ensures bytes == old(bytes) + EncodeField(Record(field, s))
    {
      ghost var before := bytes;
      WriteTag(field, 2);
      WriteVarint(|s|);
      bytes := bytes + s;
      Regroup(before, Varint(TagOf(field, 2)), Varint(|s|), s);
    }

    method WriteDouble(field: nat, bits: u64)
      requires field < 0x2000_0000
      modifies this
      ensures bytes == old(bytes) + EncodeField(Double(field, bits))
    {
      ghost var before := bytes;
      WriteTag(field, 1);
      bytes := bytes + LittleEndian(bits, 8);
      Regroup(before, Varint(TagOf(field, 1)), LittleEndian(bits, 8), []);
    }

    method WriteInt64(field: nat, v: i64)
      requires field < 0x2000_0000
      modifies this
      ensures bytes == old(bytes) + EncodeField(Number(field, ToU64(v)))
    {
      ghost var before := bytes;
      var u := ToU64(v);
      WriteTag(field, 0);
      WriteVarint(u);
      Regroup(before, Varint(TagOf(field, 0)), Varint(u), []);
    }

    /** A nested message, prefixed by its length. */
    method WriteRecord(field: nat, payload: Buffer)
      requires field < 0x2000_0000 && |payload.bytes| < WORD && payload != this
      modifies this
      ensures bytes == old(bytes) + EncodeField(Record(field, payload.bytes))
    {
      ghost var before := bytes;
      WriteTag(field, 2);
      WriteVarint(|payload.bytes|);
      bytes := bytes + payload.bytes;
      Regroup(before, Varint(TagOf(field, 2)), Varint(|payload.bytes|), payload.bytes);
    }
  }

  method EncodeEntry(k: Bytes, v: Bytes) returns (kv: Buffer)
    requires Small(EntryFields(k, v))
    ensures fresh(kv) && kv.bytes == EncodeFields(EntryFields(k, v))
  {
    ghost var fs := EntryFields(k, v);
    SmallPayload(fs, 0);
    SmallPayload(fs, 1);
    EncodeNext(fs, 0);
    EncodeNext(fs, 1);
    assert fs[..0] == [] && fs[..2] == fs;
    kv := new Buffer();
    kv.WriteString(1, k);
    kv.WriteString(2, v);
  }

  method EncodeMetricHead(m: Metric, ghost fs: seq<Field>) returns (sub: Buffer)
    requires |m.name| < WORD
    requires |fs| >= 2 && fs[0] == Record(1, m.name) && fs[1] == Double(2, m.value)
    ensures fresh(sub) && sub.bytes == EncodeFields(fs[..2])
  {
    EncodeNext(fs, 0);
    EncodeNext(fs, 1);
    assert fs[..0] == [];
    sub := new Buffer();
    sub.WriteString(1, m.name);
    sub.WriteDouble(2, m.value);
  }

  /** One metric into a fresh buffer. */
  method EncodeMetric(m: Metric, order: seq<Bytes>) returns (sub: Buffer)
    requires IsOrder(order, m.labels) && Small(MetricFields(m, order))
    ensures fresh(sub) && sub.bytes == EncodeFields(MetricFields(m, order))
  {
    ghost var fs := MetricFields(m, order);
    SmallPayload(fs, 0);
    sub := EncodeMetricHead(m, fs);
    for i := 0 to |order|
      invariant fresh(sub) && sub.bytes == EncodeFields(fs[..2 + i])
    {
      var k := order[i];
      assert fs[2 + i] == LabelField(k, m.labels[k]);
      SmallPayload(fs, 2 + i);
      EncodeNext(fs, 2 + i);
      var kv := EncodeEntry(k, m.labels[k]);
      sub.WriteRecord(3, kv);
    }
    assert fs[..2 + |order|] == fs;
  }

  method EncodeHead(r: Report, ghost fs: seq<Field>) returns (out: Buffer)
    requires |r.hostname| < WORD && |r.datacenter| < WORD
    requires |fs| >= 3 && fs[0] == Record(1, r.hostname) && fs[1] == Record(2, r.datacenter)
    requires fs[2] == Number(3, ToU64(r.timestamp))
    ensures fresh(out) && out.bytes == EncodeFields(fs[..3])
  {
    EncodeNext(fs, 0);
    EncodeNext(fs, 1);
    EncodeNext(fs, 2);
    assert fs[..0] == [];
    out := new Buffer();
    out.WriteString(1, r.hostname);
    out.WriteString(2, r.datacenter);
    out.WriteInt64(3, r.timestamp);
  }

  /** The encoder yields the encoding, which decodes to the report. */
  method Encode(r: Report, orders: seq<seq<Bytes>>) returns (out: Buffer)
    requires AreOrders(orders, r.metrics) && |Encoding(r, orders)| < WORD
    ensures out.bytes == Encoding(r, orders)
    ensures DecodeReport(out.bytes) == Some(r)
  {
    ghost var fs := ReportFields(r, orders);
    ReportRoundTrip(r, orders);
    SmallPayload(fs, 0);
    SmallPayload(fs, 1);
    out := EncodeHead(r, fs);
    for i := 0 to |r.metrics|
      invariant fresh(out) && out.bytes == EncodeFields(fs[..3 + i])
    {
      assert fs[3 + i] == MetricField(r.metrics[i], orders[i]);
      SmallPayload(fs, 3 + i);
      EncodeNext(fs, 3 + i);
      var sub := EncodeMetric(r.metrics[i], orders[i]);
      out.WriteRecord(4, sub);
    }
    assert fs[..3 + |r.metrics|] == fs;
  }

  // ---------------------------------------------------------------------------
  // The bytes themselves
  // ---------------------------------------------------------------------------

  /** v without its k lowest groups of seven bits. */
  function ShiftedGroups(v: nat, k: nat): nat {
    if k == 0 then v else ShiftedGroups(v / 128, k - 1)
  }

  /** v without its k lowest bytes. */
  function ShiftedBytes(v: nat, k: nat): nat {
    if k == 0 then v else ShiftedBytes(v / 256, k - 1)
  }

  /** Byte i of a varint carries the i-th group of seven bits, lowest first, and a
      continuation bit unless it is the last. */
  lemma {:induction false} VarintBytes(v: nat, i: nat)
    requires i < |Varint(v)|
    ensures Varint(v)[i] % 128 == ShiftedGroups(v, i) % 128
    ensures Varint(v)[i] >= 128 <==> i < |Varint(v)| - 1
  {
    if i == 0 {
    } else {
      VarintBytes(v / 128, i - 1);
    }
  }

  /** Byte i of a fixed field is the i-th byte of the value, lowest first. */
  lemma {:induction false} LittleEndianBytes(v: nat, n: nat, i: nat)
    requires i < n
    ensures LittleEndian(v, n)[i] == ShiftedBytes(v, i) % 256
  {
    if i == 0 {
    } else {
      LittleEndianBytes(v / 256, n - 1, i - 1);
    }
  }

  /** The worked examples of the encoding specification: field 1 set to 150, and field 2
      set to the text "testing"; and a negative number, which is its two's complement. */
  lemma {:induction false} SpecificationExamples()
    ensures EncodeField(Number(1, 150)) == [0x08, 0x96, 0x01]
    ensures EncodeField(Record(2, [0x74, 0x65, 0x73, 0x74, 0x69, 0x6e, 0x67]))
         == [0x12, 0x07, 0x74, 0x65, 0x73, 0x74, 0x69, 0x6e, 0x67]
    ensures ToU64(-2) == 0xffff_ffff_ffff_fffe
  {
    assert Varint(150) == [0x96] + Varint(1);
  }

  lemma {:induction false} TwoFields(f: Field, g: Field)
    ensures EncodeFields([f, g]) == EncodeField(f) + EncodeField(g)
  {
    assert [f, g][1..] == [g] && [g][1..] == [];
    assert EncodeFields([g]) == EncodeField(g) + EncodeFields([]);
  }

  lemma {:induction false} SampleLabel()
    ensures EncodeFields(EntryFields([107], [118])) == [0x0a, 1, 107, 0x12, 1, 118]
  {
    TwoFields(Record(1, [107]), Record(2, [118]));
  }

  const SAMPLE_METRIC := Metric([109], 1, map[[107] := [118]])
  const SAMPLE_LABELS: seq<Bytes> := [[107]]

  lemma {:induction false} SampleDouble()
    ensures LittleEndian(1, 8) == [1, 0, 0, 0, 0, 0, 0, 0]
  {
    assert LittleEndian(0, 3) == [0, 0, 0];
    assert LittleEndian(0, 5) == [0, 0] + LittleEndian(0, 3);
    assert LittleEndian(0, 7) == [0, 0] + LittleEndian(0, 5);
  }

  lemma {:induction false} OneField(f: Field)
    ensures EncodeFields([f]) == EncodeField(f)
  {
    assert [f][1..] == [];
    assert EncodeFields([f]) == EncodeField(f) + EncodeFields([]);
  }

  lemma {:induction false} SampleMetricHead()
    ensures EncodeFields([Record(1, [109]), Double(2, 1)]) == [0x0a, 1, 109] + [0x11, 1, 0, 0, 0, 0, 0, 0, 0]
  {
    TwoFields(Record(1, [109]), Double(2, 1));
    SampleDouble();
  }

  lemma {:induction false} SampleLabelField()
    ensures EncodeFields([LabelField([107], [118])]) == [0x1a, 6, 0x0a, 1, 107, 0x12, 1, 118]
  {
    OneField(LabelField([107], [118]));
    SampleLabel();
  }

  lemma {:induction false} SampleMetric()
    ensures EncodeFields(MetricFields(SAMPLE_METRIC, SAMPLE_LABELS))
         == [0x0a, 1, 109] + [0x11, 1, 0, 0, 0, 0, 0, 0, 0] + [0x1a, 6, 0x0a, 1, 107, 0x12, 1, 118]
  {
    var head, tail := [Record(1, [109]), Double(2, 1)], [LabelField([107], [118])];
    assert MetricFields(SAMPLE_METRIC, SAMPLE_LABELS) == head + tail;
    EncodeConcat(head, tail);
    SampleMetricHead();
    SampleLabelField();
  }

  const SAMPLE_METRIC_BYTES: Bytes :=
    [0x0a, 1, 109] + [0x11, 1, 0, 0, 0, 0, 0, 0, 0] + [0x1a, 6, 0x0a, 1, 107, 0x12, 1, 118]

  lemma {:induction false} SampleMetricField()
    ensures MetricField(SAMPLE_METRIC, SAMPLE_LABELS) == Record(4, SAMPLE_METRIC_BYTES)
    ensures EncodeField(Record(4, SAMPLE_METRIC_BYTES)) == [0x22, 20] + SAMPLE_METRIC_BYTES
  {
    SampleMetric();
    assert |SAMPLE_METRIC_BYTES| == 20;
  }

  lemma {:induction false} SampleReportHead()
    ensures EncodeFields([Record(1, [104]), Record(2, [100])]) == [0x0a, 1, 104] + [0x12, 1, 100]
    ensures EncodeField(Number(3, 5)) == [0x18, 5]
  {
    TwoFields(Record(1, [104]), Record(2, [100]));
  }

  /** A whole report byte by byte: host name 1, data centre 2, time stamp 3, each metric 4
      with name 1, value 2 and a label entry 3 of key 1 and value 2. */
  lemma {:induction false} SampleReport()
    ensures AreOrders([SAMPLE_LABELS], [SAMPLE_METRIC])
    ensures Encoding(Report([104], [100], 5, [SAMPLE_METRIC]), [SAMPLE_LABELS])
         == ([0x0a, 1, 104] + [0x12, 1, 100]) + ([0x18, 5] + ([0x22, 20] + SAMPLE_METRIC_BYTES))
  {
    var r, sub := Report([104], [100], 5, [SAMPLE_METRIC]), Record(4, SAMPLE_METRIC_BYTES);
    var head, tail := [Record(1, [104]), Record(2, [100])], [Number(3, 5), sub];
    SampleMetricField();
    SampleReportHead();
    TwoFields(Number(3, 5), sub);
    EncodeConcat(head, tail);
    assert ReportFields(r, [SAMPLE_LABELS]) == head + tail;
  }
}
