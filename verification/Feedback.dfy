/** Signed words and the reputation feedback batch of seven parallel arrays (app/src/api/evm.rs). */
module Feedback {
  import opened Numbers
  import opened Options
  import opened Hex
  import opened Abi

  const I128_MIN: int := -0x8000_0000_0000_0000_0000_0000_0000_0000
  const I128_MAX: int := 0x7FFF_FFFF_FFFF_FFFF_FFFF_FFFF_FFFF_FFFF
  const TWO_128: int := 0x1_0000_0000_0000_0000_0000_0000_0000_0000

  predicate IsI128(v: int) { I128_MIN <= v <= I128_MAX }

  // ----- Signed words -----

  function Fs(n: nat): (r: string)
    ensures |r| == n
  {
    seq(n, i => 'f')
  }

  /** `encode_int128_as_u256` */
  function Int128Word(v: int): (r: string)
    requires IsI128(v)
    ensures |r| == 64
  {
    if v >= 0 then HexOf(v, 64) else Fs(32) + HexOf(v + TWO_128, 32)
  }

  /** `decode_int128_word`: the lower half as an `i128`; the upper half is not looked at. */
  function DecodeInt128(word: string): Result<int>
  {
    if |word| != 64 then Err
    else
      var lower :- FromStrRadix16(word[32..], 32);
      Ok(if lower >= TWO_128 / 2 then lower - TWO_128 else lower)
  }

  lemma {:induction false} LowerHalf(v: nat)
    requires v < TWO_128
    ensures FromStrRadix16(HexOf(v, 32), 32) == Ok(v)
  {
    Pow16Values();
    ValueOfHexOf(v, 32);
    FromStrRadixHex(HexOf(v, 32), 32);
  }

  /** Decoding inverts encoding on every 128-bit signed integer. */
  lemma Int128RoundTrip(v: int)
    requires IsI128(v)
    ensures DecodeInt128(Int128Word(v)) == Ok(v)
  {
    hide HexOf;
    hide Pow16;
    hide FromStrRadix16;
    Pow16Values();
    if v >= 0 {
      HexOfPads(v, 32, 32);
      LowerHalf(v);
      assert Int128Word(v)[32..] == HexOf(v, 32);
    } else {
      LowerHalf(v + TWO_128);
      assert Int128Word(v)[32..] == HexOf(v + TWO_128, 32);
    }
  }

  /**
   * Every lower-case word decodes, to the number in its lower half. Encoding that number gives the word back
   * exactly when the upper half is the sign extension; any other upper half is accepted and lost.
   */
  lemma DecodedWordIsCanonicalIff(word: string)
    requires |word| == 64 && IsLowerHex(word)
    ensures DecodeInt128(word).Ok? && IsI128(DecodeInt128(word).value)
    ensures
      var v := DecodeInt128(word).value;
      Int128Word(v) == word <==> word[..32] == if v < 0 then Fs(32) else Zeros(32)
  {
    hide HexOf;
    hide Pow16;
    hide ValueOf;
    Pow16Values();
    var low := word[32..];
    HexOfValueOf(low);
    FromStrRadixHex(low, 32);
    var v := DecodeInt128(word).value;
    if v >= 0 {
      HexOfPads(v, 32, 32);
      SameHalves(word, Zeros(32), low);
    } else {
      SameHalves(word, Fs(32), low);
    }
  }

  lemma SameHalves(word: string, high: string, low: string)
    requires |word| == 64 && |high| == 32 && word[32..] == low
    ensures word == high + low <==> word[..32] == high
  {
    assert word == word[..32] + word[32..];
  }

  /** Such a word: a one right above the lower half is read as zero. */
  lemma WrongUpperHalfIsAccepted()
    ensures
      var word := Zeros(31) + "1" + Zeros(32);
      |word| == 64 && IsLowerHex(word) && DecodeInt128(word) == Ok(0) && Int128Word(0) != word
  {
    var word := Zeros(31) + "1" + Zeros(32);
    DecodedWordIsCanonicalIff(word);
    assert word[..32][31] == '1';
    assert word[32..] == Zeros(32);
    ValueOfZeros(32);
  }

  lemma {:induction false} ValueOfZeros(n: nat)
    ensures IsHex(Zeros(n)) && ValueOf(Zeros(n)) == 0
  {
    if n > 0 {
      ValueOfZeros(n - 1);
      assert Zeros(n)[..n - 1] == Zeros(n - 1);
    }
  }

  /** The target word of the oracle configuration: 16 bytes of sign, then the number's big-endian bytes. */
  function OracleTargetWord(v: int): string
    requires IsI128(v)
  {
    if v >= 0 then HexOf(v, 64)
    else HexBytes(seq(16, i => 0xFF) + BigEndian(v + TWO_128, 16))
  }

  lemma {:induction false} HexOfFF(n: nat)
    ensures HexBytes(seq(n, i => 0xFF as byte)) == Fs(2 * n)
  {
    if n > 0 {
      HexOfFF(n - 1);
      TwoDigits(0xFF);
      assert seq(n, i => 0xFF as byte)[..n - 1] == seq(n - 1, i => 0xFF as byte);
      assert Fs(2 * n) == Fs(2 * (n - 1)) + "ff";
    }
  }

  /** Both sign extensions print the same word. */
  lemma SignExtensionsAgree(v: int)
    requires IsI128(v)
    ensures OracleTargetWord(v) == Int128Word(v)
  {
    if v < 0 {
      HexBytesAppend(seq(16, i => 0xFF as byte), BigEndian(v + TWO_128, 16));
      HexOfFF(16);
      HexOfBigEndian(v + TWO_128, 16);
    }
  }

  /**
   * The feed address word of the same calldata: a zero width flag only pads numbers, so the text is padded
   * with spaces, unlike `AddressWord`, and is not hexadecimal for any address shorter than a word.
   */
  function OracleAddressWord(address: string): string
  {
    var text := Lower(Trim0x(address));
    seq(SatSub(64, |text|), i => ' ') + text
  }

  lemma OracleAddressWordIsHex(address: string)
    ensures IsHex(OracleAddressWord(address)) <==> IsHex(Lower(Trim0x(address))) && |Trim0x(address)| >= 64
    ensures |OracleAddressWord(address)| == 64 && IsHex(OracleAddressWord(address))
       <==> IsHex(Lower(Trim0x(address))) && |Trim0x(address)| == 64
    ensures IsAddress(address) ==> !IsHex(OracleAddressWord(address))
  {
    var text := Lower(Trim0x(address));
    var word := OracleAddressWord(address);
    if |text| < 64 {
      assert word[0] == ' ';
    } else {
      assert word == text;
    }
    if IsAddress(address) {
      HexHasNoPrefix(address[2..]);
    }
  }

  // ----- The batch -----

  datatype Entry = Entry(
    client: string, index: nat, value: int, decimals: nat, tag1: string, tag2: string, revoked: bool)

  predicate IsTag(s: string) { |s| == 66 && s[..2] == "0x" }

  /** An entry as the decoder renders one. */
  predicate ValidEntry(e: Entry)
  {
    && IsAddress(e.client) && IsLowerHex(e.client[2..])
    && e.index <= U64_MAX && IsI128(e.value) && e.decimals <= 255 && IsTag(e.tag1) && IsTag(e.tag2)
  }

  /** The head offsets, from which the arrays are found; `refs` holds one reference per array. */
  function ArrayRefs(payload: string, n: nat): (r: Result<seq<ArrayRef>>)
    ensures r.Ok? ==> |r.value| == n
  {
    if n == 0 then Ok([])
    else
      var before :- ArrayRefs(payload, n - 1);
      var last :- ArrayAt(payload, n - 1);
      Ok(before + [last])
  }

  predicate SameLengths(refs: seq<ArrayRef>) { forall i :: 0 <= i < |refs| ==> refs[i].length == refs[0].length }

  function DecodeEntry(payload: string, refs: seq<ArrayRef>, i: nat): Result<Entry>
    requires |refs| == 7
  {
    var client :- AddressArgument(payload, refs[0].start + i);
    var index :- U64Argument(payload, refs[1].start + i);
    var valueWord :- WordAt(payload, refs[2].start + i);
    var value :- DecodeInt128(valueWord);
    var decimalsWord :- WordAt(payload, refs[3].start + i);
    var decimals :- ParseU8(decimalsWord);
    var tag1 :- WordAt(payload, refs[4].start + i);
    var tag2 :- WordAt(payload, refs[5].start + i);
    var revoked :- BoolArgument(payload, refs[6].start + i);
    Ok(Entry(client, index, value, decimals, "0x" + tag1, "0x" + tag2, revoked))
  }

  function DecodeEntries(payload: string, refs: seq<ArrayRef>, n: nat): Result<seq<Entry>>
    requires |refs| == 7
  {
    if n == 0 then Ok([])
    else
      var before :- DecodeEntries(payload, refs, n - 1);
      var last :- DecodeEntry(payload, refs, n - 1);
      Ok(before + [last])
  }

  function DecodeBatch(payload: string): Result<seq<Entry>>
  {
    if |payload| < 2 || payload[..2] != "0x" then Err
    else if |payload| < 2 + 64 * 7 then Ok([])
    else
      var refs :- ArrayRefs(payload, 7);
      if !SameLengths(refs) then Err else DecodeEntries(payload, refs, refs[0].length)
  }

  lemma {:induction false} DecodeEntriesFails(payload: string, refs: seq<ArrayRef>, i: nat, n: nat)
    requires |refs| == 7 && i <= n && DecodeEntries(payload, refs, i).Err?
    ensures DecodeEntries(payload, refs, n).Err?
  {
    hide DecodeEntry;
    if i < n {
      DecodeEntriesFails(payload, refs, i, n - 1);
    }
  }

  /** `decode_reputation_feedback_batch` */
  method DecodeReputationFeedbackBatch(payload: string) returns (r: Result<seq<Entry>>)
    ensures r == DecodeBatch(payload)
  {
    hide ArrayRefs;
    hide DecodeEntry;
    if |payload| < 2 || payload[..2] != "0x" {
      return Err;
    }
    if |payload| < 2 + 64 * 7 {
      return Ok([]);
    }
    var found := ArrayRefs(payload, 7);
    if found.Err? {
      return Err;
    }
    var refs := found.value;
    var length := refs[0].length;
    for k := 1 to 7
      invariant forall j :: 0 <= j < k ==> refs[j].length == length
    {
      if refs[k].length != length {
        return Err;
      }
    }
    var out: seq<Entry> := [];
    for i := 0 to length
      invariant DecodeEntries(payload, refs, i) == Ok(out)
    {
      var entry := DecodeEntry(payload, refs, i);
      if entry.Err? {
        DecodeEntriesFails(payload, refs, i + 1, length);
        return Err;
      }
      out := out + [entry.value];
    }
    r := Ok(out);
  }

  // ----- The canonical encoding -----

  /** The word at which the `i`-th array starts, its length word first. */
  function StartOf(columns: seq<seq<string>>, i: nat): (r: nat)
    requires i <= |columns|
    ensures r >= |columns|
  {
    if i == 0 then |columns| else StartOf(columns, i - 1) + 1 + |columns[i - 1]|
  }

  function Heads(columns: seq<seq<string>>): (r: seq<string>)
    ensures |r| == |columns| && AllWords(r)
  {
    seq(|columns|, i requires 0 <= i < |columns| => Word(32 * StartOf(columns, i)))
  }

  function Blocks(columns: seq<seq<string>>, n: nat): seq<string>
    requires n <= |columns|
  {
    if n == 0 then [] else Blocks(columns, n - 1) + ([Word(|columns[n - 1]|)] + columns[n - 1])
  }

  /** The tuple of arrays as the ABI lays it out: all offsets, then each array's length and elements. */
  function BatchPayload(columns: seq<seq<string>>): string
  {
    "0x" + Flat(Heads(columns) + Blocks(columns, |columns|))
  }

  predicate WordColumns(columns: seq<seq<string>>) { forall i :: 0 <= i < |columns| ==> AllWords(columns[i]) }

  lemma {:induction false} BlocksShape(columns: seq<seq<string>>, n: nat)
    requires n <= |columns| && WordColumns(columns)
    ensures AllWords(Blocks(columns, n)) && |columns| + |Blocks(columns, n)| == StartOf(columns, n)
  {
    hide Word;
    if n > 0 {
      BlocksShape(columns, n - 1);
    }
  }

  lemma {:induction false} BlockHeld(p: string, columns: seq<seq<string>>, n: nat, i: nat)
    requires i < n <= |columns| && WordColumns(columns) && Holds(p, |columns|, Blocks(columns, n))
    ensures Holds(p, StartOf(columns, i), [Word(|columns[i]|)] + columns[i])
  {
    hide Word;
    hide Holds;
    hide WordColumns;
    BlocksShape(columns, n - 1);
    HoldsSplit(p, |columns|, Blocks(columns, n - 1), [Word(|columns[n - 1]|)] + columns[n - 1]);
    if i < n - 1 {
      BlockHeld(p, columns, n - 1, i);
    }
  }

  lemma {:induction false} StartBound(columns: seq<seq<string>>, i: nat, n: nat)
    requires i < n <= |columns|
    ensures StartOf(columns, i) + 1 + |columns[i]| <= StartOf(columns, n)
  {
    if i < n - 1 {
      StartBound(columns, i, n - 1);
    }
  }

  lemma {:induction false} PayloadLength(columns: seq<seq<string>>)
    requires WordColumns(columns)
    ensures IsPayload(BatchPayload(columns)) && |BatchPayload(columns)| == 2 + 64 * StartOf(columns, |columns|)
    ensures Holds(BatchPayload(columns), 0, Heads(columns))
    ensures Holds(BatchPayload(columns), |columns|, Blocks(columns, |columns|))
  {
    hide Word;
    hide Holds;
    hide Heads;
    hide Blocks;
    hide Flat;
    hide WordColumns;
    BlocksShape(columns, |columns|);
    var words := Heads(columns) + Blocks(columns, |columns|);
    assert AllWords(words);
    FlatLength(words);
    var p := BatchPayload(columns);
    assert p[2..] == Flat(words);
    FlatHolds(p, 0, words);
    HoldsSplit(p, 0, Heads(columns), Blocks(columns, |columns|));
  }

  /** Each array of the canonical encoding is found, with its length and its elements. */
  lemma {:induction false} ColumnFound(columns: seq<seq<string>>, i: nat)
    requires WordColumns(columns) && i < |columns| && |BatchPayload(columns)| <= ISIZE_MAX
    ensures ArrayAt(BatchPayload(columns), i) == Ok(ArrayRef(StartOf(columns, i) + 1, |columns[i]|))
    ensures Holds(BatchPayload(columns), StartOf(columns, i) + 1, columns[i])
  {
    hide Word;
    hide Holds;
    hide Blocks;
    hide WordColumns;
    hide BatchPayload;
    hide ArrayAt;
    hide WordAt;
    hide IsPayload;
    hide StartOf;
    var p := BatchPayload(columns);
    PayloadLength(columns);
    BlockHeld(p, columns, |columns|, i);
    StartBound(columns, i, |columns|);
    HeldWordIs(p, 0, Heads(columns), i, i, Word(32 * StartOf(columns, i)));
    HeldWordIs(p, StartOf(columns, i), [Word(|columns[i]|)] + columns[i], 0, StartOf(columns, i), Word(|columns[i]|));
    HoldsSplit(p, StartOf(columns, i), [Word(|columns[i]|)], columns[i]);
    ArrayAtDecodes(p, i, StartOf(columns, i), |columns[i]|);
  }

  lemma {:induction false} RefsFound(columns: seq<seq<string>>, n: nat)
    requires WordColumns(columns) && n <= |columns| && |BatchPayload(columns)| <= ISIZE_MAX
    ensures ArrayRefs(BatchPayload(columns), n).Ok?
    ensures forall i :: 0 <= i < n ==>
      ArrayRefs(BatchPayload(columns), n).value[i] == ArrayRef(StartOf(columns, i) + 1, |columns[i]|)
  {
    hide ArrayAt;
    hide BatchPayload;
    hide WordColumns;
    hide StartOf;
    if n > 0 {
      RefsFound(columns, n - 1);
      ColumnFound(columns, n - 1);
    }
  }

  /**
   * Whatever the payload, a decoded batch of at least seven words of input has as many entries as each of its
   * seven arrays claims; so arrays of different lengths are refused wherever they lie.
   */
  lemma DecodedLengthsAgree(payload: string)
    requires |payload| >= 2 + 64 * 7
    ensures DecodeBatch(payload).Ok? ==>
      && ArrayRefs(payload, 7).Ok?
      && forall k :: 0 <= k < 7 ==> ArrayRefs(payload, 7).value[k].length == |DecodeBatch(payload).value|
  {
    hide ArrayRefs;
    hide DecodeEntries;
    if DecodeBatch(payload).Ok? {
      var refs := ArrayRefs(payload, 7).value;
      DecodedCount(payload, refs, refs[0].length);
    }
  }

  lemma {:induction false} DecodedCount(payload: string, refs: seq<ArrayRef>, n: nat)
    requires |refs| == 7
    ensures DecodeEntries(payload, refs, n).Ok? ==> |DecodeEntries(payload, refs, n).value| == n
  {
    hide DecodeEntry;
    if n > 0 {
      DecodedCount(payload, refs, n - 1);
    }
  }

  /** In particular the canonical encoding of arrays of different lengths is refused. */
  lemma MismatchedLengthsFail(columns: seq<seq<string>>, i: nat)
    requires |columns| == 7 && WordColumns(columns) && |BatchPayload(columns)| <= ISIZE_MAX
    requires i < 7 && |columns[i]| != |columns[0]|
    ensures DecodeBatch(BatchPayload(columns)) == Err
  {
    hide ArrayRefs;
    hide BatchPayload;
    hide WordColumns;
    hide StartOf;
    hide DecodeEntries;
    PayloadLength(columns);
    RefsFound(columns, 7);
    var refs := ArrayRefs(BatchPayload(columns), 7).value;
    assert refs[i].length != refs[0].length;
  }

  // ----- The round trip -----

  function FieldWord(e: Entry, k: nat): (r: string)
    requires ValidEntry(e) && k < 7
    ensures |r| == 64
  {
    if k == 0 then Zeros(24) + e.client[2..]
    else if k == 1 then Word(e.index)
    else if k == 2 then Int128Word(e.value)
    else if k == 3 then Word(e.decimals)
    else if k == 4 then e.tag1[2..]
    else if k == 5 then e.tag2[2..]
    else BoolWord(e.revoked)
  }

  predicate ValidEntries(es: seq<Entry>) { forall i :: 0 <= i < |es| ==> ValidEntry(es[i]) }

  function Column(es: seq<Entry>, k: nat): (r: seq<string>)
    requires ValidEntries(es) && k < 7
    ensures |r| == |es| && AllWords(r)
  {
    seq(|es|, i requires 0 <= i < |es| => FieldWord(es[i], k))
  }

  function Columns(es: seq<Entry>): (r: seq<seq<string>>)
    requires ValidEntries(es)
    ensures |r| == 7 && WordColumns(r) && forall k :: 0 <= k < 7 ==> |r[k]| == |es|
  {
    seq(7, k requires 0 <= k < 7 => Column(es, k))
  }

  lemma ClientDecodes(e: Entry)
    requires ValidEntry(e)
    ensures AddressOf(FieldWord(e, 0)) == e.client
  {
    hide IsI128;
    assert FieldWord(e, 0)[24..] == e.client[2..];
    assert e.client == "0x" + e.client[2..];
  }

  lemma DecimalsDecode(e: Entry)
    requires ValidEntry(e)
    ensures ParseU8(FieldWord(e, 3)) == Ok(e.decimals)
  {
    hide Word;
    hide IsAddress;
    hide IsI128;
    hide ParseU64;
    U64Word(e.decimals);
  }

  lemma TagsDecode(e: Entry)
    requires ValidEntry(e)
    ensures "0x" + FieldWord(e, 4) == e.tag1 && "0x" + FieldWord(e, 5) == e.tag2
  {
    assert e.tag1 == e.tag1[..2] + e.tag1[2..];
    assert e.tag2 == e.tag2[..2] + e.tag2[2..];
  }

  lemma {:induction false} NumbersDecode(e: Entry)
    requires ValidEntry(e)
    ensures ParseU64(FieldWord(e, 1)) == Ok(e.index) && DecodeInt128(FieldWord(e, 2)) == Ok(e.value)
    ensures ParseBool(FieldWord(e, 6)) == Ok(e.revoked)
  {
    hide Word;
    hide BoolWord;
    hide IsAddress;
    hide ParseU64;
    hide ParseBool;
    hide DecodeInt128;
    hide Int128Word;
    U64Word(e.index);
    Int128RoundTrip(e.value);
    BoolWordParses(e.revoked);
  }

  lemma {:induction false} EntryDecodes(p: string, refs: seq<ArrayRef>, i: nat, e: Entry)
    requires |refs| == 7 && ValidEntry(e)
    requires forall k: nat :: k < 7 ==> WordAt(p, refs[k].start + i) == Ok(FieldWord(e, k))
    ensures DecodeEntry(p, refs, i) == Ok(e)
  {
    hide WordAt;
    hide FieldWord;
    hide ValidEntry;
    hide ParseU64;
    hide ParseU8;
    hide ParseBool;
    hide DecodeInt128;
    hide AddressOf;
    ClientDecodes(e);
    NumbersDecode(e);
    DecimalsDecode(e);
    TagsDecode(e);
  }

  lemma {:induction false} EntriesDecode(es: seq<Entry>, refs: seq<ArrayRef>, n: nat)
    requires ValidEntries(es) && n <= |es| && |refs| == 7 && |BatchPayload(Columns(es))| <= ISIZE_MAX
    requires forall k :: 0 <= k < 7 ==> refs[k] == ArrayRef(StartOf(Columns(es), k) + 1, |es|)
    ensures DecodeEntries(BatchPayload(Columns(es)), refs, n) == Ok(es[..n])
  {
    hide BatchPayload;
    hide DecodeEntry;
    hide StartOf;
    hide Columns;
    hide ValidEntry;
    hide FieldWord;
    hide WordAt;
    if n > 0 {
      EntriesDecode(es, refs, n - 1);
      EntryHeld(es, refs, n - 1);
      EntryDecodes(BatchPayload(Columns(es)), refs, n - 1, es[n - 1]);
      assert es[..n] == es[..n - 1] + [es[n - 1]];
    }
  }

  lemma EntryHeld(es: seq<Entry>, refs: seq<ArrayRef>, i: nat)
    requires ValidEntries(es) && i < |es| && |refs| == 7 && |BatchPayload(Columns(es))| <= ISIZE_MAX
    requires forall k :: 0 <= k < 7 ==> refs[k] == ArrayRef(StartOf(Columns(es), k) + 1, |es|)
    ensures forall k: nat :: k < 7 ==> WordAt(BatchPayload(Columns(es)), refs[k].start + i) == Ok(FieldWord(es[i], k))
  {
    hide BatchPayload;
    hide WordAt;
    hide StartOf;
    hide FieldWord;
    hide ValidEntry;
    hide Columns;
    forall k: nat | k < 7
      ensures WordAt(BatchPayload(Columns(es)), refs[k].start + i) == Ok(FieldWord(es[i], k))
    {
      FieldHeld(es, k, i);
    }
  }

  lemma FieldHeld(es: seq<Entry>, k: nat, i: nat)
    requires ValidEntries(es) && i < |es| && k < 7 && |BatchPayload(Columns(es))| <= ISIZE_MAX
    ensures WordAt(BatchPayload(Columns(es)), StartOf(Columns(es), k) + 1 + i) == Ok(FieldWord(es[i], k))
  {
    hide BatchPayload;
    hide WordAt;
    hide StartOf;
    hide FieldWord;
    hide ValidEntry;
    hide Columns;
    ColumnFound(Columns(es), k);
    ColumnField(es, k, i);
    HeldWord(BatchPayload(Columns(es)), StartOf(Columns(es), k) + 1, Columns(es)[k], i);
  }

  lemma ColumnField(es: seq<Entry>, k: nat, i: nat)
    requires ValidEntries(es) && i < |es| && k < 7
    ensures Columns(es)[k][i] == FieldWord(es[i], k)
  {
    hide FieldWord;
    hide ValidEntry;
    assert Columns(es)[k] == Column(es, k);
  }

  /** The batch decoder inverts the canonical encoding of any number of entries. */
  lemma {:induction false} BatchRoundTrip(es: seq<Entry>)
    requires ValidEntries(es) && |BatchPayload(Columns(es))| <= ISIZE_MAX
    ensures DecodeBatch(BatchPayload(Columns(es))) == Ok(es)
  {
    hide ArrayRefs;
    hide BatchPayload;
    hide StartOf;
    hide DecodeEntries;
    hide Column;
    hide ValidEntry;
    var columns := Columns(es);
    PayloadLength(columns);
    RefsFound(columns, 7);
    EntriesDecode(es, ArrayRefs(BatchPayload(columns), 7).value, |es|);
    assert es[..|es|] == es;
  }

  // ----- Address arrays -----

  function Addresses(payload: string, n: nat): Result<seq<string>>
  {
    if n == 0 then Ok([])
    else
      var before :- Addresses(payload, n - 1);
      var last :- AddressArgument(payload, 2 + n - 1);
      Ok(before + [last])
  }

  /** `decode_address_array`: reads the length from word 1 whatever the offset in word 0. */
  function DecodeAddressArray(payload: string): Result<seq<string>>
  {
    if |payload| < 2 || payload[..2] != "0x" then Err
    else if |payload| < 2 + 64 * 2 then Ok([])
    else
      var length :- U64Argument(payload, 1);
      Addresses(payload, length)
  }

  predicate ValidAddresses(xs: seq<string>) { forall i :: 0 <= i < |xs| ==> IsAddress(xs[i]) && IsLowerHex(xs[i][2..]) }

  function PaddedAddress(x: string): (r: string)
    requires IsAddress(x)
    ensures |r| == 64
  {
    Zeros(24) + x[2..]
  }

  function AddressWords(xs: seq<string>): (r: seq<string>)
    requires ValidAddresses(xs)
    ensures |r| == |xs| && AllWords(r)
  {
    seq(|xs|, i requires 0 <= i < |xs| => PaddedAddress(xs[i]))
  }

  lemma {:induction false} AddressesDecode(p: string, xs: seq<string>, n: nat)
    requires ValidAddresses(xs) && n <= |xs| && Holds(p, 2, AddressWords(xs))
    ensures Addresses(p, n) == Ok(xs[..n])
  {
    hide WordAt;
    hide Holds;
    if n > 0 {
      AddressesDecode(p, xs, n - 1);
      HeldWord(p, 2, AddressWords(xs), n - 1);
      PaddedAddressDecodes(xs[n - 1]);
      assert xs[..n] == xs[..n - 1] + [xs[n - 1]];
    }
  }

  lemma PaddedAddressDecodes(x: string)
    requires IsAddress(x) && IsLowerHex(x[2..])
    ensures AddressOf(PaddedAddress(x)) == x
  {
    assert PaddedAddress(x)[24..] == x[2..];
    assert x == "0x" + x[2..];
  }

  /** Any list of addresses survives the canonical encoding of an address array. */
  lemma {:induction false} AddressArrayRoundTrip(xs: seq<string>)
    requires ValidAddresses(xs) && |xs| <= U64_MAX
    ensures DecodeAddressArray("0x" + Flat([Word(32), Word(|xs|)] + AddressWords(xs))) == Ok(xs)
  {
    hide Flat;
    hide Word;
    hide WordAt;
    hide Holds;
    hide AddressWords;
    hide ParseU64;
    hide ValidAddresses;
    var words := [Word(32), Word(|xs|)] + AddressWords(xs);
    FlatLength(words);
    var p := "0x" + Flat(words);
    assert p[2..] == Flat(words);
    FlatHolds(p, 0, words);
    HoldsSplit(p, 0, [Word(32), Word(|xs|)], AddressWords(xs));
    HeldWord(p, 0, words, 1);
    U64Word(|xs|);
    AddressesDecode(p, xs, |xs|);
    assert xs[..|xs|] == xs;
  }
}
