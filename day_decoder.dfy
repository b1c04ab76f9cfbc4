/**
 * Decoding of one cTrader day file (`ReadCTraderDayV2`): after the gzip
 * stream has been inflated, the bytes are cut into 24-byte little-endian
 * records {int64 time in ms, int64 bid, int64 ask}; only the low 32 bits of
 * the two prices are kept, and a zero price is filled forward.
 */
module DayDecoder {
  import opened Wrappers
  import opened Ticks
  import opened LittleEndian

  const U32Bound: int := 0x1_0000_0000

  /**
   * What the file system and zlib yield for one day file: the file is
   * missing, cannot be opened, its stream does not inflate to its end, or it
   * inflates to the given bytes.
   */
  datatype FileOutcome = NotFound | OpenFailed | InflateFailed | Inflated(bytes: seq<byte>)

  function DayFileName(symbolFile: string, dateString: string): string
  {
    symbolFile + "\\" + dateString + ".zticks"
  }

  function RecordCount(b: seq<byte>): nat
  {
    |b| / 24
  }

  /** The 64-bit field at `off`, read as `uint64_t`. */
  function Field(b: seq<byte>, off: nat): u64
    requires off + 8 <= |b|
  {
    LEBound(b[off..off + 8]);
    assert Pow256(8) == U64Bound;
    LE(b[off..off + 8])
  }

  /** Timestamp of record `i`: the int64 bit pattern kept in a `uint64_t` vector. */
  function RawDt(b: seq<byte>, i: nat): u64
    requires i < RecordCount(b)
  {
    Field(b, 24 * i)
  }

  /** Bid of record `i` as read: the int64 field converted to `uint32_t`. */
  function RawBid(b: seq<byte>, i: nat): u64
    requires i < RecordCount(b)
  {
    Field(b, 24 * i + 8) % U32Bound
  }

  /** Ask of record `i` as read: the int64 field converted to `uint32_t`. */
  function RawAsk(b: seq<byte>, i: nat): u64
    requires i < RecordCount(b)
  {
    Field(b, 24 * i + 16) % U32Bound
  }

  /** The stored bid: a zero bid takes the previous stored bid, or at record 0 the raw ask. */
  function FilledBid(b: seq<byte>, i: nat): u64
    requires i < RecordCount(b)
  {
    if RawBid(b, i) != 0 then RawBid(b, i)
    else if i == 0 then RawAsk(b, 0)
    else FilledBid(b, i - 1)
  }

  /** The stored ask: a zero ask takes the previous stored ask, or at record 0 the raw bid. */
  function FilledAsk(b: seq<byte>, i: nat): u64
    requires i < RecordCount(b)
  {
    if RawAsk(b, i) != 0 then RawAsk(b, i)
    else if i == 0 then RawBid(b, 0)
    else FilledAsk(b, i - 1)
  }

  /** The series a successful decode leaves in the three vectors. */
  function DecodeDay(b: seq<byte>): TickSeries
  {
    var n := RecordCount(b);
    Series(seq(n, i requires 0 <= i < n => RawDt(b, i)),
           seq(n, i requires 0 <= i < n => FilledBid(b, i)),
           seq(n, i requires 0 <= i < n => FilledAsk(b, i)))
  }

  /** The three parallel vectors `mSerialArrays`. */
  class SerialArrays {
    var tick2dt: array<u64>
    var tick2Bid: array<u64>
    var tick2Ask: array<u64>

    ghost predicate Valid()
      reads this
    {
      tick2dt.Length == tick2Bid.Length == tick2Ask.Length
    }

    ghost function Contents(): TickSeries
      reads this, tick2dt, tick2Bid, tick2Ask
      requires Valid()
    {
      Series(tick2dt[..], tick2Bid[..], tick2Ask[..])
    }

    /** The vectors of a freshly started plugin are empty. */
    constructor ()
      ensures Valid() && Contents() == Series([], [], [])
    {
      tick2dt := new u64[0];
      tick2Bid := new u64[0];
      tick2Ask := new u64[0];
    }

    /**
     * `ReadCTraderDayV2`: `file` is what opening and inflating the day file
     * `DayFileName(symbolFile, dateString)` yields. Every failure returns a
     * non-empty message and leaves the vectors as they were; success returns
     * "" and replaces all three vectors by the decoded day.
     */
    method ReadDay(symbolFile: string, dateString: string, file: FileOutcome) returns (error: string)
      requires Valid()
      modifies this
      ensures Valid()
      ensures error == "" <==> file.Inflated?
      ensures file.NotFound? ==> error == "Tickdata file " + DayFileName(symbolFile, dateString) + " not found"
      ensures file.OpenFailed? ==> error == "Error opening file " + DayFileName(symbolFile, dateString)
      ensures file.InflateFailed? ==> error == "Decompresson error"
      ensures file.Inflated? ==>
                fresh(tick2dt) && fresh(tick2Bid) && fresh(tick2Ask) && Contents() == DecodeDay(file.bytes)
      ensures !file.Inflated? ==>
                tick2dt == old(tick2dt) && tick2Bid == old(tick2Bid) && tick2Ask == old(tick2Ask)
    {
      var fileName := DayFileName(symbolFile, dateString);
      match file
      case NotFound =>
        return "Tickdata file " + fileName + " not found";
      case OpenFailed =>
        return "Error opening file " + fileName;
      case InflateFailed =>
        return "Decompresson error";
      case Inflated(bytes) =>
        var n := |bytes| / 24;
        tick2dt, tick2Bid, tick2Ask := new u64[n], new u64[n], new u64[n];
        Fill(bytes);
        return "";
    }

    /**
     * One pass of the day search in `BrokerHistory2`: decode the file of
     * day `d` and, when that succeeds, put the cursor on the day's last
     * record; on an error the cursor and the vectors stay as they were.
     */
    method LoadDay(symbolFile: string, dateString: string, files: int -> FileOutcome, d: int, cursor: int)
      returns (error: string, cursor': int)
      requires Valid()
      modifies this
      ensures Valid()
      ensures (error == "") == DayLoader(files)(d).Some?
      ensures error == "" ==> Contents() == DayLoader(files)(d).value && cursor' == |Contents().dt| - 1
      ensures error != "" ==> cursor' == cursor && Contents() == old(Contents())
    {
      error := ReadDay(symbolFile, dateString, files(d));
      cursor' := cursor;
      if "" == error {
        cursor' := tick2dt.Length - 1;
      }
    }

    /** The record loop of `ReadCTraderDayV2`, over vectors already resized to the record count. */
    method Fill(bytes: seq<byte>)
      requires Valid() && tick2dt.Length == RecordCount(bytes)
      requires tick2dt != tick2Bid && tick2dt != tick2Ask && tick2Bid != tick2Ask
      modifies tick2dt, tick2Bid, tick2Ask
      ensures Contents() == DecodeDay(bytes)
    {
      var times, bids, asks := tick2dt, tick2Bid, tick2Ask;
      var sourceNdx, targetNdx := 0, 0;
      while sourceNdx + 24 <= |bytes|
        invariant 0 <= targetNdx <= RecordCount(bytes) && sourceNdx == 24 * targetNdx
        invariant TimesDecoded(bytes, times, targetNdx)
        invariant BidsDecoded(bytes, bids, targetNdx)
        invariant AsksDecoded(bytes, asks, targetNdx)
        decreases |bytes| - sourceNdx
      {
        var dt := Field(bytes, sourceNdx);
        sourceNdx := sourceNdx + 8;
        var bid := Field(bytes, sourceNdx) % U32Bound;
        sourceNdx := sourceNdx + 8;
        var ask := Field(bytes, sourceNdx) % U32Bound;
        sourceNdx := sourceNdx + 8;
        var filledBid := if bid == 0 then (if targetNdx == 0 then ask else bids[targetNdx - 1]) else bid;
        var filledAsk := if ask == 0 then (if targetNdx == 0 then bid else asks[targetNdx - 1]) else ask;
        assert filledBid == FilledBid(bytes, targetNdx);
        assert filledAsk == FilledAsk(bytes, targetNdx);
        times[targetNdx] := dt;
        bids[targetNdx] := filledBid;
        asks[targetNdx] := filledAsk;
        targetNdx := targetNdx + 1;
      }
      assert times[..] == DecodeDay(bytes).dt;
      assert bids[..] == DecodeDay(bytes).bid;
      assert asks[..] == DecodeDay(bytes).ask;
    }
  }

  ghost predicate TimesDecoded(bytes: seq<byte>, a: array<u64>, k: nat)
    reads a
    requires k <= RecordCount(bytes) && k <= a.Length
  {
    forall i :: 0 <= i < k ==> a[i] == RawDt(bytes, i)
  }

  ghost predicate BidsDecoded(bytes: seq<byte>, a: array<u64>, k: nat)
    reads a
    requires k <= RecordCount(bytes) && k <= a.Length
  {
    forall i :: 0 <= i < k ==> a[i] == FilledBid(bytes, i)
  }

  ghost predicate AsksDecoded(bytes: seq<byte>, a: array<u64>, k: nat)
    reads a
    requires k <= RecordCount(bytes) && k <= a.Length
  {
    forall i :: 0 <= i < k ==> a[i] == FilledAsk(bytes, i)
  }

  // ---------------------------------------------------------------------
  // Record layout

  /** Record `i` occupies bytes [24i, 24i+24): time, then the low four bytes of the bid and ask fields. */
  lemma DecodeLayout(b: seq<byte>, i: nat)
    requires i < RecordCount(b)
    ensures |DecodeDay(b).dt| == |DecodeDay(b).bid| == |DecodeDay(b).ask| == |b| / 24
    ensures DecodeDay(b).dt[i] == LE(b[24 * i .. 24 * i + 8])
    ensures RawBid(b, i) == LE(b[24 * i + 8 .. 24 * i + 12])
    ensures RawAsk(b, i) == LE(b[24 * i + 16 .. 24 * i + 20])
  {
    LowHalf(b[24 * i + 8 .. 24 * i + 16]);
    assert b[24 * i + 8 .. 24 * i + 16][..4] == b[24 * i + 8 .. 24 * i + 12];
    LowHalf(b[24 * i + 16 .. 24 * i + 24]);
    assert b[24 * i + 16 .. 24 * i + 24][..4] == b[24 * i + 16 .. 24 * i + 20];
  }

  // ---------------------------------------------------------------------
  // Zero-price correction

  /** The correction rule, record by record. */
  lemma ZeroFillRule(b: seq<byte>, i: nat)
    requires i < RecordCount(b)
    ensures RawBid(b, i) != 0 ==> DecodeDay(b).bid[i] == RawBid(b, i)
    ensures RawAsk(b, i) != 0 ==> DecodeDay(b).ask[i] == RawAsk(b, i)
    ensures RawBid(b, i) == 0 ==> DecodeDay(b).bid[i] == if i == 0 then RawAsk(b, 0) else DecodeDay(b).bid[i - 1]
    ensures RawAsk(b, i) == 0 ==> DecodeDay(b).ask[i] == if i == 0 then RawBid(b, 0) else DecodeDay(b).ask[i - 1]
  {
  }

  lemma {:induction false} FilledNonZero(b: seq<byte>, i: nat)
    requires i < RecordCount(b) && (RawBid(b, 0) != 0 || RawAsk(b, 0) != 0)
    ensures FilledBid(b, i) != 0 && FilledAsk(b, i) != 0
  {
    if i > 0 {
      FilledNonZero(b, i - 1);
    }
  }

  /** Once the first record carries a price, no stored bid or ask is zero. */
  lemma NoZeroPrices(b: seq<byte>)
    requires RecordCount(b) > 0 && (RawBid(b, 0) != 0 || RawAsk(b, 0) != 0)
    ensures forall i :: 0 <= i < |DecodeDay(b).bid| ==> DecodeDay(b).bid[i] != 0 && DecodeDay(b).ask[i] != 0
  {
    forall i | 0 <= i < RecordCount(b)
      ensures DecodeDay(b).bid[i] != 0 && DecodeDay(b).ask[i] != 0
    {
      FilledNonZero(b, i);
    }
  }

  /** A first record with both prices zero stays zero: the correction has nothing to copy. */
  lemma ZeroFirstRecordStaysZero(b: seq<byte>)
    requires RecordCount(b) > 0 && RawBid(b, 0) == 0 && RawAsk(b, 0) == 0
    ensures DecodeDay(b).bid[0] == 0 && DecodeDay(b).ask[0] == 0
  {
  }

  /** Reference definition of the correction: a left-to-right pass carrying the last stored value. */
  function ForwardFill(raw: seq<u64>, carry: u64): (r: seq<u64>)
    ensures |r| == |raw|
  {
    if raw == [] then []
    else
      var v := if raw[0] == 0 then carry else raw[0];
      [v] + ForwardFill(raw[1..], v)
  }

  function RawBids(b: seq<byte>): seq<u64>
  {
    seq(RecordCount(b), i requires 0 <= i < RecordCount(b) => RawBid(b, i))
  }

  function RawAsks(b: seq<byte>): seq<u64>
  {
    seq(RecordCount(b), i requires 0 <= i < RecordCount(b) => RawAsk(b, i))
  }

  function BidSeed(b: seq<byte>, j: nat): u64
    requires j <= RecordCount(b)
  {
    if j == 0 then (if RecordCount(b) > 0 then RawAsk(b, 0) else 0) else FilledBid(b, j - 1)
  }

  function AskSeed(b: seq<byte>, j: nat): u64
    requires j <= RecordCount(b)
  {
    if j == 0 then (if RecordCount(b) > 0 then RawBid(b, 0) else 0) else FilledAsk(b, j - 1)
  }

  lemma {:induction false} BidSuffix(b: seq<byte>, j: nat)
    requires j <= RecordCount(b)
    ensures ForwardFill(RawBids(b)[j..], BidSeed(b, j)) == DecodeDay(b).bid[j..]
    decreases RecordCount(b) - j
  {
    if j < RecordCount(b) {
      BidSuffix(b, j + 1);
      var raw, out := RawBids(b)[j..], DecodeDay(b).bid[j..];
      assert raw[0] == RawBid(b, j) && raw[1..] == RawBids(b)[j + 1..];
      assert out[0] == FilledBid(b, j) && out[1..] == DecodeDay(b).bid[j + 1..];
      assert BidSeed(b, j + 1) == FilledBid(b, j);
      assert out == [out[0]] + out[1..];
    }
  }

  lemma {:induction false} AskSuffix(b: seq<byte>, j: nat)
    requires j <= RecordCount(b)
    ensures ForwardFill(RawAsks(b)[j..], AskSeed(b, j)) == DecodeDay(b).ask[j..]
    decreases RecordCount(b) - j
  {
    if j < RecordCount(b) {
      AskSuffix(b, j + 1);
      var raw, out := RawAsks(b)[j..], DecodeDay(b).ask[j..];
      assert raw[0] == RawAsk(b, j) && raw[1..] == RawAsks(b)[j + 1..];
      assert out[0] == FilledAsk(b, j) && out[1..] == DecodeDay(b).ask[j + 1..];
      assert AskSeed(b, j + 1) == FilledAsk(b, j);
      assert out == [out[0]] + out[1..];
    }
  }

  /**
   * The in-place correction, which reads back the previous stored element,
   * equals the carrying pass over the raw prices seeded with the other price
   * of record 0.
   */
  lemma ZeroFillIsForwardFill(b: seq<byte>)
    ensures DecodeDay(b).bid == ForwardFill(RawBids(b), BidSeed(b, 0))
    ensures DecodeDay(b).ask == ForwardFill(RawAsks(b), AskSeed(b, 0))
  {
    BidSuffix(b, 0);
    AskSuffix(b, 0);
    assert RawBids(b)[0..] == RawBids(b) && DecodeDay(b).bid[0..] == DecodeDay(b).bid;
    assert RawAsks(b)[0..] == RawAsks(b) && DecodeDay(b).ask[0..] == DecodeDay(b).ask;
  }

  // ---------------------------------------------------------------------
  // Round trip with an encoder of day files

  function EncodeRecord(t: Tick): (r: seq<byte>)
    ensures |r| == 24
  {
    LEBytes(t.dt, 8) + LEBytes(t.bid, 8) + LEBytes(t.ask, 8)
  }

  /** The inflated contents of a day file holding the records `rs`. */
  function EncodeDay(rs: seq<Tick>): (b: seq<byte>)
    ensures |b| == 24 * |rs|
  {
    if rs == [] then [] else EncodeRecord(rs[0]) + EncodeDay(rs[1..])
  }

  lemma {:induction false} EncodedRecordAt(rs: seq<Tick>, i: nat)
    requires i < |rs|
    ensures EncodeDay(rs)[24 * i .. 24 * i + 24] == EncodeRecord(rs[i])
  {
    var e := EncodeDay(rs);
    assert e == EncodeRecord(rs[0]) + EncodeDay(rs[1..]);
    if i > 0 {
      EncodedRecordAt(rs[1..], i - 1);
      assert e[24 * i .. 24 * i + 24] == EncodeDay(rs[1..])[24 * (i - 1) .. 24 * (i - 1) + 24];
    } else {
      assert e[0..24] == EncodeRecord(rs[0]);
    }
  }

  lemma EncodedRecordFields(t: Tick)
    ensures EncodeRecord(t)[0..8] == LEBytes(t.dt, 8)
    ensures EncodeRecord(t)[8..16] == LEBytes(t.bid, 8)
    ensures EncodeRecord(t)[16..24] == LEBytes(t.ask, 8)
  {
  }

  lemma SubSlice(s: seq<byte>, lo: nat, hi: nat, a: nat, b: nat)
    requires lo <= hi <= |s| && a <= b <= hi - lo
    ensures s[lo..hi][a..b] == s[lo + a..lo + b]
  {
    var t := s[lo..hi];
    assert forall k | 0 <= k < b - a :: t[a..b][k] == t[a + k] == s[lo + a + k];
  }

  lemma FieldRoundTrip(e: seq<byte>, off: nat, x: u64)
    requires off + 8 <= |e| && e[off..off + 8] == LEBytes(x, 8)
    ensures Field(e, off) == x
  {
    assert Pow256(8) == U64Bound;
    LERoundTrip(x, 8);
  }

  lemma RecordInside(i: nat, n: nat)
    requires i < n
    ensures 24 * i + 24 <= 24 * n
  {
  }

  /** The field at `k` of the record stored at `o` reads back as `x`. */
  lemma EncodedField(e: seq<byte>, o: nat, r: seq<byte>, k: nat, x: u64)
    requires o + 24 <= |e| && e[o..o + 24] == r
    requires k + 8 <= 24 && r[k..k + 8] == LEBytes(x, 8)
    ensures Field(e, o + k) == x
  {
    SubSlice(e, o, o + 24, k, k + 8);
    FieldRoundTrip(e, o + k, x);
  }

  /** A record encoded at slot `i` of any buffer reads back as its time and 32-bit prices. */
  lemma RecordReadsBack(e: seq<byte>, i: nat, t: Tick)
    requires 24 * i + 24 <= |e| && e[24 * i .. 24 * i + 24] == EncodeRecord(t)
    ensures i < RecordCount(e)
    ensures RawDt(e, i) == t.dt
    ensures RawBid(e, i) == t.bid % U32Bound
    ensures RawAsk(e, i) == t.ask % U32Bound
  {
    SlotInside(i, |e|);
    EncodedRecordFields(t);
    EncodedField(e, 24 * i, EncodeRecord(t), 0, t.dt);
    EncodedField(e, 24 * i, EncodeRecord(t), 8, t.bid);
    EncodedField(e, 24 * i, EncodeRecord(t), 16, t.ask);
  }

  lemma SlotInside(i: nat, m: nat)
    requires 24 * i + 24 <= m
    ensures i < m / 24
  {
  }

  lemma DecodeEncodedRecord(rs: seq<Tick>, i: nat)
    requires i < |rs|
    ensures RecordCount(EncodeDay(rs)) == |rs|
    ensures RawDt(EncodeDay(rs), i) == rs[i].dt
    ensures RawBid(EncodeDay(rs), i) == rs[i].bid % U32Bound
    ensures RawAsk(EncodeDay(rs), i) == rs[i].ask % U32Bound
  {
    EncodedCount(rs);
    RecordInside(i, |rs|);
    EncodedRecordAt(rs, i);
    RecordReadsBack(EncodeDay(rs), i, rs[i]);
  }

  /** Decoding an encoded day gives back every record, with both prices truncated to 32 bits. */
  lemma DecodeEncode(rs: seq<Tick>)
    ensures RecordCount(EncodeDay(rs)) == |rs|
    ensures forall i :: 0 <= i < |rs| ==>
              RawDt(EncodeDay(rs), i) == rs[i].dt &&
              RawBid(EncodeDay(rs), i) == rs[i].bid % U32Bound &&
              RawAsk(EncodeDay(rs), i) == rs[i].ask % U32Bound
  {
    forall i | 0 <= i < |rs|
      ensures RawDt(EncodeDay(rs), i) == rs[i].dt
      ensures RawBid(EncodeDay(rs), i) == rs[i].bid % U32Bound
      ensures RawAsk(EncodeDay(rs), i) == rs[i].ask % U32Bound
    {
      DecodeEncodedRecord(rs, i);
    }
  }

  /** The bids of `rs` as the decoder reads them back: truncated to 32 bits. */
  function Low32Bids(rs: seq<Tick>): seq<u64>
  {
    seq(|rs|, i requires 0 <= i < |rs| => rs[i].bid % U32Bound)
  }

  /** The asks of `rs` as the decoder reads them back: truncated to 32 bits. */
  function Low32Asks(rs: seq<Tick>): seq<u64>
  {
    seq(|rs|, i requires 0 <= i < |rs| => rs[i].ask % U32Bound)
  }

  lemma EncodedCount(rs: seq<Tick>)
    ensures RecordCount(EncodeDay(rs)) == |rs|
  {
    assert |EncodeDay(rs)| == 24 * |rs|;
  }

  lemma DecodedTimes(rs: seq<Tick>)
    ensures RecordCount(EncodeDay(rs)) == |rs|
    ensures DecodeDay(EncodeDay(rs)).dt == seq(|rs|, i requires 0 <= i < |rs| => rs[i].dt)
  {
    EncodedCount(rs);
    var b := EncodeDay(rs);
    forall i | 0 <= i < |rs| ensures DecodeDay(b).dt[i] == rs[i].dt {
      DecodeEncodedRecord(rs, i);
    }
  }

  lemma DecodedRawPrices(rs: seq<Tick>)
    ensures RawBids(EncodeDay(rs)) == Low32Bids(rs) && RawAsks(EncodeDay(rs)) == Low32Asks(rs)
  {
    EncodedCount(rs);
    var b := EncodeDay(rs);
    forall i | 0 <= i < |rs| ensures RawBids(b)[i] == Low32Bids(rs)[i] && RawAsks(b)[i] == Low32Asks(rs)[i] {
      DecodeEncodedRecord(rs, i);
    }
  }

  /**
   * Round trip of a whole day: decoding the encoded records gives their
   * times in order, and the forward fill of their 32-bit prices, seeded
   * with the other price of the first record.
   */
  lemma DecodeEncodedDay(rs: seq<Tick>)
    ensures var d := DecodeDay(EncodeDay(rs));
      && d.dt == seq(|rs|, i requires 0 <= i < |rs| => rs[i].dt)
      && d.bid == ForwardFill(Low32Bids(rs), if rs == [] then 0 else rs[0].ask % U32Bound)
      && d.ask == ForwardFill(Low32Asks(rs), if rs == [] then 0 else rs[0].bid % U32Bound)
  {
    var b := EncodeDay(rs);
    DecodedTimes(rs);
    DecodedRawPrices(rs);
    ZeroFillIsForwardFill(b);
    if rs != [] {
      DecodeEncodedRecord(rs, 0);
    }
  }

  // ---------------------------------------------------------------------
  // The record loop's guard as written

  /**
   * The record loop's control exactly as written: it runs while
   * `sourceNdx < size` and steps 24 bytes per pass. Returns the number of
   * records it stores (the last one at index `written - 1`) and the end of
   * the last 8-byte field it reads. With whole records only this is the
   * record count; with a trailing partial record the last pass stores at
   * index `size / 24`, one past the vectors resized to `size / 24`, and
   * reads beyond the inflated bytes.
   */
  method SourceRecordLoop(size: nat) returns (written: nat, readEnd: nat)
    ensures readEnd == 24 * written
    ensures size % 24 == 0 ==> written == size / 24 && readEnd == size
    ensures size % 24 != 0 ==> written - 1 == size / 24 && readEnd > size
  {
    var sourceNdx, targetNdx := 0, 0;
    while sourceNdx < size
      invariant sourceNdx == 24 * targetNdx
      invariant targetNdx == 0 || 24 * (targetNdx - 1) < size
      decreases size - sourceNdx
    {
      sourceNdx := sourceNdx + 24;
      targetNdx := targetNdx + 1;
    }
    return targetNdx, sourceNdx;
  }

  // ---------------------------------------------------------------------
  // The decoder as the resampler's day loader

  /**
   * The day loader the resampler searches with: day `d` is what decoding
   * `files(d)` leaves in the vectors, or none when that returns an error.
   */
  function DayLoader(files: int -> FileOutcome): int -> Option<TickSeries>
  {
    d => if files(d).Inflated? then Some(DecodeDay(files(d).bytes)) else None
  }
}
