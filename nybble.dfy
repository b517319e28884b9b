/** A model of the `nybble` crate: splitting a byte buffer into one byte per
    4-bit half (nybble) and combining such a buffer back into bytes.

    Bytes are `bv8`, so masks, shifts and OR behave exactly as on Rust's `u8`
    (bits shifted past bit 7 are discarded). Buffers are `seq<bv8>`: each
    operation takes its buffer by value and builds a fresh one. */
module Nybble {

  /** Which nybble of a byte is emitted first in a nybblified buffer. */
  datatype NybbleOrder = HighFirst | LowFirst

  /** Why `Denybblify` refuses its input (the source panics instead). */
  datatype CodecError = InvalidLength

  datatype Result<T> = Ok(value: T) | Err(error: CodecError)

  /** The one-letter name the `Display` impl writes for an order. The command
      line front end chooses the order by the same letters. */
  function OrderLetter(order: NybbleOrder): (c: char)
    ensures c == 'h' || c == 'l'
    ensures c == 'h' <==> order == HighFirst
  {
    match order
    case HighFirst => 'h'
    case LowFirst => 'l'
  }

  /** The other order; combining with it is the mistake the format cannot detect. */
  function Flipped(order: NybbleOrder): (r: NybbleOrder)
    ensures r != order
  {
    if order == HighFirst then LowFirst else HighFirst
  }

  // ---------------------------------------------------------------------------
  // Single bytes

  /** The upper four bits of `b`, moved down to the low end. */
  function HighNybble(b: bv8): (r: bv8)
    ensures r < 16
    ensures r as int == b as int / 16
  {
    (b & 0xf0) >> 4
  }

  /** The lower four bits of `b`. */
  function LowNybble(b: bv8): (r: bv8)
    ensures r < 16
    ensures r as int == b as int % 16
  {
    b & 0x0f
  }

  /** Both nybbles of `b`, the high one first whatever the buffer order. */
  function NybblesFromByte(b: bv8): (p: (bv8, bv8))
    ensures p.0 < 16 && p.1 < 16
    ensures 16 * p.0 as int + p.1 as int == b as int
  {
    (HighNybble(b), LowNybble(b))
  }

  /** The byte whose high nybble is `high` and low nybble is `low`. Neither
      argument is masked: bits of `high` above its nybble are shifted out of the
      byte, and bits of `low` above its nybble land in the high nybble. */
  function ByteFromNybbles(high: bv8, low: bv8): (r: bv8)
    ensures LowNybble(r) == LowNybble(low)
    ensures high < 16 && low < 16 ==> r as int == 16 * high as int + low as int
    ensures high < 16 && low < 16 ==> HighNybble(r) == high && LowNybble(r) == low
  {
    (high << 4) | low
  }

  /** Joining the two nybbles of a byte gives the byte back. */
  lemma ByteFromNybblesOfByte(b: bv8)
    ensures ByteFromNybbles(HighNybble(b), LowNybble(b)) == b
  {
  }

  /** Joining a byte's nybbles in swapped order gives the byte back exactly
      when its two nybbles are equal. */
  lemma SwappedNybbles(b: bv8)
    ensures ByteFromNybbles(LowNybble(b), HighNybble(b)) == b <==> HighNybble(b) == LowNybble(b)
  {
  }

  // ---------------------------------------------------------------------------
  // The pair of buffer entries one byte becomes, and the byte a pair becomes

  /** The two entries `b` contributes to a nybblified buffer, in `order`. */
  function SplitByte(b: bv8, order: NybbleOrder): (p: seq<bv8>)
    ensures |p| == 2 && p[0] < 16 && p[1] < 16
    ensures order == HighFirst ==> p[0] == HighNybble(b) && p[1] == LowNybble(b)
    ensures order == LowFirst ==> p[0] == LowNybble(b) && p[1] == HighNybble(b)
  {
    var n := NybblesFromByte(b);
    if order == HighFirst then [n.0, n.1] else [n.1, n.0]
  }

  /** The byte rebuilt from two adjacent entries of a nybblified buffer. */
  function JoinPair(first: bv8, second: bv8, order: NybbleOrder): (r: bv8)
    ensures first < 16 && second < 16 ==>
              SplitByte(r, order) == [first, second]
  {
    if order == HighFirst then ByteFromNybbles(first, second) else ByteFromNybbles(second, first)
  }

  /** Joining the pair a byte was split into, with the same order, gives the byte. */
  lemma JoinSplit(b: bv8, order: NybbleOrder)
    ensures JoinPair(SplitByte(b, order)[0], SplitByte(b, order)[1], order) == b
  {
  }

  // ---------------------------------------------------------------------------
  // Whole buffers: specification functions

  /** What `Nybblify` computes: each byte of `data`, in turn, becomes its two
      nybbles in `order`. */
  function Nybblified(data: seq<bv8>, order: NybbleOrder): (r: seq<bv8>)
    ensures |r| == 2 * |data|
    ensures forall k :: 0 <= k < |r| ==> r[k] < 16
  {
    if data == [] then []
    else Nybblified(data[..|data| - 1], order) + SplitByte(data[|data| - 1], order)
  }

  /** What `Denybblify` computes on an even-length buffer: each adjacent pair
      of entries, in turn, becomes one byte. */
  function Denybblified(data: seq<bv8>, order: NybbleOrder): (r: seq<bv8>)
    requires |data| % 2 == 0
    ensures |r| == |data| / 2
  {
    if data == [] then []
    else Denybblified(data[..|data| - 2], order) + [JoinPair(data[|data| - 2], data[|data| - 1], order)]
  }

  // ---------------------------------------------------------------------------
  // The operations

  /** Splits every byte of `data` into its high and low nybble, emitted in `order`. */
  method Nybblify(data: seq<bv8>, order: NybbleOrder) returns (result: seq<bv8>)
    ensures result == Nybblified(data, order)
  {
    result := [];
    for i := 0 to |data|
      invariant result == Nybblified(data[..i], order)
    {
      var b := data[i];
      var n := NybblesFromByte(b);
      if order == HighFirst {
        result := result + [n.0];
        result := result + [n.1];
      } else {
        result := result + [n.1];
        result := result + [n.0];
      }
      assert data[..i + 1][..i] == data[..i];
    }
    assert data[..|data|] == data;
  }

  /** Combines each adjacent pair of entries of `data` into one byte, reading
      the pair in `order`; an odd-length buffer is refused. */
  method Denybblify(data: seq<bv8>, order: NybbleOrder) returns (r: Result<seq<bv8>>)
    ensures r.Err? <==> |data| % 2 != 0
    ensures r.Ok? ==> r.value == Denybblified(data, order)
  {
    if |data| % 2 != 0 {
      return Err(InvalidLength);
    }
    var result := [];
    var index := 0;
    var offset := 0;
    var count := |data| / 2;
    while index < count
      invariant index <= count
      invariant offset == 2 * index
      invariant result == Denybblified(data[..offset], order)
    {
      var high := data[offset];
      var low := data[offset + 1];
      var b := if order == HighFirst then ByteFromNybbles(high, low) else ByteFromNybbles(low, high);
      result := result + [b];
      index := index + 1;
      offset := offset + 2;
      assert data[..offset][..offset - 2] == data[..offset - 2];
    }
    assert data[..offset] == data;
    r := Ok(result);
  }

  // ---------------------------------------------------------------------------
  // Properties of the specification functions

  /** Entries `2i` and `2i+1` of a nybblified buffer are the nybbles of `data[i]`,
      high first for `HighFirst` and low first for `LowFirst`. */
  lemma {:induction false} NybblifiedAt(data: seq<bv8>, order: NybbleOrder, i: nat)
    requires i < |data|
    ensures order == HighFirst ==>
              Nybblified(data, order)[2 * i] == HighNybble(data[i]) &&
              Nybblified(data, order)[2 * i + 1] == LowNybble(data[i])
    ensures order == LowFirst ==>
              Nybblified(data, order)[2 * i] == LowNybble(data[i]) &&
              Nybblified(data, order)[2 * i + 1] == HighNybble(data[i])
  {
    var init := data[..|data| - 1];
    if i < |data| - 1 {
      NybblifiedAt(init, order, i);
      assert init[i] == data[i];
    }
  }

  /** Entry `i` of a denybblified buffer is the byte built from entries `2i`
      and `2i+1`, the first of them the high nybble for `HighFirst` and the
      low nybble for `LowFirst`. */
  lemma {:induction false} DenybblifiedAt(data: seq<bv8>, order: NybbleOrder, i: nat)
    requires |data| % 2 == 0
    requires i < |data| / 2
    ensures order == HighFirst ==>
              Denybblified(data, order)[i] == ByteFromNybbles(data[2 * i], data[2 * i + 1])
    ensures order == LowFirst ==>
              Denybblified(data, order)[i] == ByteFromNybbles(data[2 * i + 1], data[2 * i])
  {
    var init := data[..|data| - 2];
    if i < |data| / 2 - 1 {
      DenybblifiedAt(init, order, i);
      assert init[2 * i] == data[2 * i] && init[2 * i + 1] == data[2 * i + 1];
    }
  }

  /** Round trip: denybblifying a nybblified buffer with the same order gives
      the original buffer back. */
  lemma {:induction false} RoundTrip(data: seq<bv8>, order: NybbleOrder)
    ensures Denybblified(Nybblified(data, order), order) == data
  {
    if data != [] {
      var init, last := data[..|data| - 1], data[|data| - 1];
      var front, pair := Nybblified(init, order), SplitByte(last, order);
      var n := Nybblified(data, order);
      assert n == front + pair;
      assert n[..|n| - 2] == front && n[|n| - 2] == pair[0] && n[|n| - 1] == pair[1];
      calc {
        Denybblified(n, order);
        Denybblified(front, order) + [JoinPair(pair[0], pair[1], order)];
        { RoundTrip(init, order); JoinSplit(last, order); }
        init + [last];
        data;
      }
    }
  }

  /** The converse on the buffers `Nybblify` can produce: an even-length buffer
      of nybbles is the nybblified form of its denybblified form. */
  lemma {:induction false} RoundTripFromNybbles(data: seq<bv8>, order: NybbleOrder)
    requires |data| % 2 == 0
    requires forall k :: 0 <= k < |data| ==> data[k] < 16
    ensures Nybblified(Denybblified(data, order), order) == data
  {
    if data != [] {
      var init := data[..|data| - 2];
      var first, second := data[|data| - 2], data[|data| - 1];
      var d := Denybblified(data, order);
      assert d == Denybblified(init, order) + [JoinPair(first, second, order)];
      assert d[..|d| - 1] == Denybblified(init, order);
      calc {
        Nybblified(d, order);
        Nybblified(Denybblified(init, order), order) + SplitByte(JoinPair(first, second, order), order);
        { RoundTripFromNybbles(init, order); }
        init + [first, second];
        data;
      }
    }
  }

  /** Denybblifying with the wrong order swaps the two nybbles of every byte. */
  lemma MismatchAt(data: seq<bv8>, order: NybbleOrder, i: nat)
    requires i < |data|
    ensures |Denybblified(Nybblified(data, order), Flipped(order))| == |data|
    ensures Denybblified(Nybblified(data, order), Flipped(order))[i]
              == ByteFromNybbles(LowNybble(data[i]), HighNybble(data[i]))
  {
    NybblifiedAt(data, order, i);
    DenybblifiedAt(Nybblified(data, order), Flipped(order), i);
  }

  /** The format carries no order marker: denybblifying with the wrong order
      gives the original buffer back exactly when every byte has two equal
      nybbles. */
  lemma OrderMismatch(data: seq<bv8>, order: NybbleOrder)
    ensures Denybblified(Nybblified(data, order), Flipped(order)) == data
            <==> forall i :: 0 <= i < |data| ==> HighNybble(data[i]) == LowNybble(data[i])
  {
    var d := Denybblified(Nybblified(data, order), Flipped(order));
    forall i | 0 <= i < |data|
      ensures d[i] == data[i] <==> HighNybble(data[i]) == LowNybble(data[i])
    {
      MismatchAt(data, order, i);
      SwappedNybbles(data[i]);
    }
  }

  // ---------------------------------------------------------------------------
  // The crate's own test vectors

  lemma NybblifyVector()
    ensures Nybblified([0x01, 0x23, 0x45], HighFirst) == [0x00, 0x01, 0x02, 0x03, 0x04, 0x05]
  {
  }

  lemma NybblifyFlippedVector()
    ensures Nybblified([0x57, 0x61, 0x76], LowFirst) == [0x07, 0x05, 0x01, 0x06, 0x06, 0x07]
  {
  }

  lemma DenybblifyVector()
    ensures Denybblified([0x00, 0x01, 0x02, 0x03, 0x04, 0x05], HighFirst) == [0x01, 0x23, 0x45]
  {
  }

  lemma DenybblifyFlippedVector()
    ensures Denybblified([0x07, 0x05, 0x01, 0x06, 0x06, 0x07], LowFirst) == [0x57, 0x61, 0x76]
  {
  }
}
