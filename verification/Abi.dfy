/**
 * The Solidity contract ABI calldata the service writes by hand, and the decoders it uses
 * (app/src/api/evm.rs); the layout is that of the Contract ABI Specification, section "Formal
 * Specification of the Encoding".
 */
module Abi {
  import opened Numbers
  import opened Options
  import opened Hex
  import Decimal
  import opened Utf8

  const MARKET_CORE_CREATE_RICH_SELECTOR: string := "0xddabefe7"
  const AGENT_RUNTIME_CREATE_FOR_SELECTOR: string := "0x77c19c89"
  const AGENT_RUNTIME_UPDATE_BATCH_SELECTOR: string := "0x689fd457"
  const AGENT_RUNTIME_DEACTIVATE_BATCH_SELECTOR: string := "0x7fa805d3"

  /** The largest length of a Rust allocation. */
  const ISIZE_MAX: nat := 0x7FFF_FFFF_FFFF_FFFF

  // ----- Words -----

  /** `encode_u256_hex` and `encode_u256_hex_u128` */
  function Word(value: nat): (r: string)
    ensures |r| == 64
  {
    HexOf(value, 64)
  }

  function BoolWord(value: bool): (r: string)
    ensures |r| == 64
  {
    Word(if value then 1 else 0)
  }

  predicate IsAddress(s: string) { |s| == 42 && s[..2] == "0x" && IsHex(s[2..]) }

  function AddressWord(s: string): Result<string>
  {
    if !IsAddress(s) then Err else Ok(Zeros(24) + Lower(s[2..]))
  }

  /** An address as the decoders render the word that holds it. */
  function AddressOf(word: string): string
    requires |word| == 64
  {
    "0x" + Lower(word[24..])
  }

  function Flat(words: seq<string>): string
  {
    if words == [] then "" else Flat(words[..|words| - 1]) + words[|words| - 1]
  }

  predicate AllWords(words: seq<string>) { forall i :: 0 <= i < |words| ==> |words[i]| == 64 }

  /** `word_at` */
  function WordAt(data: string, index: nat): (r: Result<string>)
    ensures r.Ok? ==> |r.value| == 64
  {
    if |data| < 2 || data[..2] != "0x" then Err
    else if |data| < 2 + index * 64 + 64 then Err
    else Ok(data[2 + index * 64..2 + index * 64 + 64])
  }

  lemma {:induction false} FlatLength(words: seq<string>)
    requires AllWords(words)
    ensures |Flat(words)| == 64 * |words|
  {
    if words != [] {
      FlatLength(words[..|words| - 1]);
    }
  }

  lemma {:induction false} FlatConcat(a: seq<string>, b: seq<string>)
    ensures Flat(a + b) == Flat(a) + Flat(b)
  {
    if b == [] {
      assert a + b == a;
    } else {
      hide Flat;
      var front, w := b[..|b| - 1], b[|b| - 1];
      FlatConcat(a, front);
      assert a + b == (a + front) + [w] && b == front + [w];
      FlatSnoc(a + front, w);
      FlatSnoc(front, w);
      Associate(Flat(a), Flat(front), w);
    }
  }

  lemma FlatSnoc(words: seq<string>, w: string)
    ensures Flat(words + [w]) == Flat(words) + w
  {
    assert (words + [w])[..|words|] == words;
  }

  lemma FlatSingle(w: string)
    ensures Flat([w]) == w
  {
    assert [w][..0] == [];
    assert Flat([]) == "";
  }

  // ----- Text at known places -----

  /** `text` stands in `p` from position `at` on. */
  predicate Spells(p: string, at: nat, text: string) { at + |text| <= |p| && p[at..at + |text|] == text }

  predicate IsPayload(p: string) { |p| >= 2 && p[..2] == "0x" }

  lemma SpellsSplit(p: string, at: nat, a: string, b: string)
    requires Spells(p, at, a + b)
    ensures Spells(p, at, a) && Spells(p, at + |a|, b)
  {
    assert p[at..at + |a|] == p[at..at + |a + b|][..|a|];
    assert p[at + |a|..at + |a| + |b|] == p[at..at + |a + b|][|a|..];
  }

  lemma WordSpelled(p: string, index: nat, w: string)
    requires IsPayload(p) && |w| == 64 && Spells(p, 2 + index * 64, w)
    ensures WordAt(p, index) == Ok(w)
  {
  }

  /** From word `start` on, the payload holds `words`. */
  ghost predicate Holds(p: string, start: nat, words: seq<string>)
  {
    forall i: nat :: i < |words| ==> WordAt(p, start + i) == Ok(words[i])
  }

  /** Words written one after the other at a word boundary are read back one by one. */
  lemma {:induction false} FlatHolds(p: string, start: nat, words: seq<string>)
    requires IsPayload(p) && AllWords(words) && Spells(p, 2 + start * 64, Flat(words))
    ensures Holds(p, start, words)
  {
    hide WordAt;
    hide Spells;
    hide IsPayload;
    if words != [] {
      var before, last := words[..|words| - 1], words[|words| - 1];
      FlatLength(before);
      SpellsSplit(p, 2 + start * 64, Flat(before), last);
      FlatHolds(p, start, before);
      assert 2 + start * 64 + 64 * |before| == 2 + (start + |before|) * 64;
      WordSpelled(p, start + |before|, last);
    }
  }

  lemma HoldsSplit(p: string, start: nat, a: seq<string>, b: seq<string>)
    requires Holds(p, start, a + b)
    ensures Holds(p, start, a) && Holds(p, start + |a|, b)
  {
    hide WordAt;
    forall i: nat | i < |a|
      ensures WordAt(p, start + i) == Ok(a[i])
    {
      assert (a + b)[i] == a[i];
    }
    forall i: nat | i < |b|
      ensures WordAt(p, start + |a| + i) == Ok(b[i])
    {
      assert (a + b)[|a| + i] == b[i];
      assert start + (|a| + i) == start + |a| + i;
    }
  }

  lemma HeldWord(p: string, start: nat, words: seq<string>, i: nat)
    requires Holds(p, start, words) && i < |words|
    ensures WordAt(p, start + i) == Ok(words[i])
  {
    hide WordAt;
  }

  lemma HeldWordIs(p: string, start: nat, words: seq<string>, i: nat, index: nat, w: string)
    requires Holds(p, start, words) && i < |words| && index == start + i && words[i] == w
    ensures WordAt(p, index) == Ok(w)
  {
    hide WordAt;
  }

  lemma U64Word(value: nat)
    requires value <= U64_MAX
    ensures ParseU64(Word(value)) == Ok(value)
  {
    Pow16Values();
    ParseHexWord(value, 64, 16);
  }

  lemma U128Word(value: nat)
    requires value <= U128_MAX
    ensures ParseU128(Word(value)) == Ok(value)
  {
    Pow16Values();
    ParseHexWord(value, 64, 32);
  }

  lemma BoolWordParses(value: bool)
    ensures ParseBool(BoolWord(value)) == Ok(value)
  {
    U64Word(if value then 1 else 0);
  }

  lemma AddressWordParses(s: string)
    requires IsAddress(s)
    ensures AddressWord(s).Ok? && |AddressWord(s).value| == 64 && AddressOf(AddressWord(s).value) == Lower(s)
  {
    var w := AddressWord(s).value;
    assert w[24..] == Lower(s[2..]);
    assert s == "0x" + s[2..];
    assert Lower(s) == "0x" + Lower(s[2..]);
    assert forall i :: 0 <= i < 40 ==> DigitOf(Lower(s[2..])[i]).Some?;
  }

  // ----- Dynamic strings -----

  /** How many words `n` digits fill. */
  function WordsFor(n: nat): (r: nat)
    ensures n <= 64 * r < n + 64
  {
    (n + 63) / 64
  }

  /** `encode_dynamic_string_tail` */
  function StringTail(s: seq<byte>): (r: string)
    ensures |r| == 64 * (1 + WordsFor(2 * |s|))
  {
    hide *;
    Word(|s|) + HexBytes(s) + Zeros(64 * WordsFor(2 * |s|) - 2 * |s|)
  }

  /** `decode_abi_string_at_offset` */
  function DecodeString(payload: string, offsetWord: string): Result<seq<byte>>
  {
    var offset :- ParseU64(offsetWord);
    if |payload| < 2 || payload[..2] != "0x" then Err
    else if |payload| < 2 + 2 * offset + 64 then Err
    else
      var head := 2 + 2 * offset;
      var length :- ParseU64(payload[head..head + 64]);
      if |payload| < head + 64 + 2 * length then Err
      else
        var bytes :- FromHexBytes(payload[head + 64..head + 64 + 2 * length]);
        if Valid(bytes) then Ok(bytes) else Err
  }

  lemma {:induction false} DecodeStringFrom(payload: string, offset: nat, s: seq<byte>)
    requires offset <= U64_MAX && |s| <= U64_MAX && Valid(s)
    requires |payload| >= 2 + 2 * offset + 64 + 2 * |s| && payload[..2] == "0x"
    requires payload[2 + 2 * offset..2 + 2 * offset + 64] == Word(|s|)
    requires payload[2 + 2 * offset + 64..2 + 2 * offset + 64 + 2 * |s|] == HexBytes(s)
    ensures DecodeString(payload, Word(offset)) == Ok(s)
  {
    hide Valid;
    hide ParseU64;
    hide FromHexBytes;
    hide HexBytes;
    hide Word;
    U64Word(offset);
    U64Word(|s|);
    FromHexBytesRoundTrip(s);
  }

  lemma StringTailParts(s: seq<byte>)
    ensures StringTail(s) == Word(|s|) + HexBytes(s) + Zeros(64 * WordsFor(2 * |s|) - 2 * |s|)
  {
  }

  /** A string tail decodes to its string wherever the offset points at it. */
  lemma {:induction false} StringTailSpelled(p: string, offset: nat, s: seq<byte>)
    requires offset <= U64_MAX && |s| <= U64_MAX && Valid(s)
    requires IsPayload(p) && Spells(p, 2 + 2 * offset, StringTail(s))
    ensures DecodeString(p, Word(offset)) == Ok(s)
  {
    hide Valid;
    hide DecodeString;
    hide StringTail;
    hide Word;
    hide HexBytes;
    StringTailParts(s);
    var padding := Zeros(64 * WordsFor(2 * |s|) - 2 * |s|);
    SpellsSplit(p, 2 + 2 * offset, Word(|s|) + HexBytes(s), padding);
    SpellsSplit(p, 2 + 2 * offset, Word(|s|), HexBytes(s));
    DecodeStringFrom(p, offset, s);
  }

  /** What follows the four-byte selector, as a decoder sees it. */
  function Arguments(calldata: string): string
    requires |calldata| >= 10
  {
    "0x" + calldata[10..]
  }

  // ----- createMarketRich -----

  function CreateMarketRichHead(
    q: seq<byte>, d: seq<byte>, c: seq<byte>, closeTime: nat, resolverWord: string): seq<string>
  {
    var questionOffset := 32 * 6;
    var descriptionOffset := questionOffset + |StringTail(q)| / 2;
    var categoryOffset := descriptionOffset + |StringTail(d)| / 2;
    var sourceOffset := categoryOffset + |StringTail(c)| / 2;
    [Word(questionOffset), Word(descriptionOffset), Word(categoryOffset), Word(sourceOffset), Word(closeTime),
     resolverWord]
  }

  function EncodeCreateMarketRich(
    question: seq<byte>, description: seq<byte>, category: seq<byte>, source: seq<byte>, closeTime: nat,
    resolver: string): Result<string>
  {
    var resolverWord :- AddressWord(resolver);
    Ok(MARKET_CORE_CREATE_RICH_SELECTOR
       + Flat(CreateMarketRichHead(question, description, category, closeTime, resolverWord))
       + StringTail(question) + StringTail(description) + StringTail(category) + StringTail(source))
  }

  datatype Metadata = Metadata(question: seq<byte>, description: seq<byte>, category: seq<byte>, source: seq<byte>)

  function StringArgument(payload: string, index: nat): Result<seq<byte>>
  {
    var offset :- WordAt(payload, index);
    DecodeString(payload, offset)
  }

  /** `decode_market_metadata_tuple` */
  function DecodeMetadata(payload: string): Result<Metadata>
  {
    var question :- StringArgument(payload, 0);
    var description :- StringArgument(payload, 1);
    var category :- StringArgument(payload, 2);
    var source :- StringArgument(payload, 3);
    Ok(Metadata(question, description, category, source))
  }

  /** A string argument is decoded from a head word holding its tail's offset. */
  lemma {:induction false} StringArgumentDecodes(p: string, index: nat, offset: nat, s: seq<byte>)
    requires offset <= U64_MAX && |s| <= U64_MAX && Valid(s)
    requires IsPayload(p) && Spells(p, 2 + 2 * offset, StringTail(s))
    requires WordAt(p, index) == Ok(Word(offset))
    ensures StringArgument(p, index) == Ok(s)
  {
    hide Valid;
    hide DecodeString;
    hide WordAt;
    hide Word;
    hide Spells;
    hide IsPayload;
    StringTailSpelled(p, offset, s);
  }

  function U64Argument(payload: string, index: nat): Result<nat>
  {
    var word :- WordAt(payload, index);
    ParseU64(word)
  }

  function U128Argument(payload: string, index: nat): Result<nat>
  {
    var word :- WordAt(payload, index);
    ParseU128(word)
  }

  function BoolArgument(payload: string, index: nat): Result<bool>
  {
    var word :- WordAt(payload, index);
    ParseBool(word)
  }

  function AddressArgument(payload: string, index: nat): Result<string>
  {
    var word :- WordAt(payload, index);
    Ok(AddressOf(word))
  }

  // ----- Arrays of agent rows -----

  /**
   * A launch input or an update: both are six-word tuples that differ only in what `id` names, the market or
   * the agent. Sizes travel as decimal text.
   */
  datatype Row = Row(id: nat, isYes: bool, price: nat, size: string, cadence: nat, expiry: nat)

  datatype Decoded = Decoded(id: nat, isYes: bool, price: nat, size: nat, cadence: nat, expiry: nat)

  function DecodedOf(row: Row): Result<Decoded>
  {
    var size :- Decimal.ParseU128(row.size);
    Ok(Decoded(row.id, row.isYes, row.price, size, row.cadence, row.expiry))
  }

  function DecodedRows(rows: seq<Row>): (r: Result<seq<Decoded>>)
    ensures r.Ok? ==> |r.value| == |rows|
  {
    if rows == [] then Ok([])
    else
      var before :- DecodedRows(rows[..|rows| - 1]);
      var last :- DecodedOf(rows[|rows| - 1]);
      Ok(before + [last])
  }

  function RowWords(d: Decoded): seq<string>
  {
    [Word(d.id), BoolWord(d.isYes), Word(d.price), Word(d.size), Word(d.cadence), Word(d.expiry)]
  }

  function RowsWords(ds: seq<Decoded>): seq<string>
  {
    if ds == [] then [] else RowsWords(ds[..|ds| - 1]) + RowWords(ds[|ds| - 1])
  }

  function RowsTail(rows: seq<Row>): Result<string>
  {
    var ds :- DecodedRows(rows);
    Ok(Flat([Word(|rows|)] + RowsWords(ds)))
  }

  lemma RowsTailAppend(ds: seq<Decoded>, n: nat, d: Decoded)
    ensures Flat([Word(n)] + RowsWords(ds + [d])) ==
      Flat([Word(n)] + RowsWords(ds))
      + (Word(d.id) + BoolWord(d.isYes) + Word(d.price) + Word(d.size) + Word(d.cadence) + Word(d.expiry))
  {
    hide Word;
    hide BoolWord;
    hide Flat;
    assert (ds + [d])[..|ds|] == ds;
    assert [Word(n)] + RowsWords(ds + [d]) == ([Word(n)] + RowsWords(ds)) + RowWords(d);
    FlatConcat([Word(n)] + RowsWords(ds), RowWords(d));
    FlatSix(Word(d.id), BoolWord(d.isYes), Word(d.price), Word(d.size), Word(d.cadence), Word(d.expiry));
  }

  lemma FlatSix(a: string, b: string, c: string, d: string, e: string, f: string)
    ensures Flat([a, b, c, d, e, f]) == a + b + c + d + e + f
  {
    assert [a, b, c, d, e, f][..5] == [a, b, c, d, e];
    assert [a, b, c, d, e][..4] == [a, b, c, d];
    assert [a, b, c, d][..3] == [a, b, c];
    assert [a, b, c][..2] == [a, b];
    assert [a, b][..1] == [a];
    FlatSingle(a);
    assert Flat([a, b, c]) == Flat([a, b]) + c;
    assert Flat([a, b, c, d]) == Flat([a, b, c]) + d;
    assert Flat([a, b, c, d, e]) == Flat([a, b, c, d]) + e;
  }

  lemma {:induction false} DecodedRowsFails(rows: seq<Row>, k: nat)
    requires k < |rows| && DecodedOf(rows[k]).Err?
    ensures DecodedRows(rows).Err?
  {
    if k < |rows| - 1 {
      DecodedRowsFails(rows[..|rows| - 1], k);
    }
  }

  /** `encode_agent_config_array_tail` and `encode_agent_update_array_tail` */
  method EncodeRowsTail(rows: seq<Row>) returns (r: Result<string>)
    ensures r == RowsTail(rows)
  {
    hide Word;
    hide BoolWord;
    hide Flat;
    hide DecodedOf;
    FlatSingle(Word(|rows|));
    var encoded := Word(|rows|);
    ghost var ds: seq<Decoded> := [];
    assert [Word(|rows|)] + RowsWords(ds) == [Word(|rows|)];
    for i := 0 to |rows|
      invariant DecodedRows(rows[..i]) == Ok(ds)
      invariant encoded == Flat([Word(|rows|)] + RowsWords(ds))
    {
      assert rows[..i + 1][..i] == rows[..i];
      var row := rows[i];
      var size := Decimal.ParseU128(row.size);
      DecodedOfMeans(row);
      if size.Err? {
        DecodedRowsFails(rows, i);
        return Err;
      }
      ghost var d := Decoded(row.id, row.isYes, row.price, size.value, row.cadence, row.expiry);
      RowsTailAppend(ds, |rows|, d);
      encoded := encoded + (Word(row.id) + BoolWord(row.isYes) + Word(row.price)
                            + Word(size.value) + Word(row.cadence) + Word(row.expiry));
      ds := ds + [d];
    }
    assert rows[..|rows|] == rows;
    r := Ok(encoded);
  }

  lemma DecodedOfMeans(row: Row)
    ensures DecodedOf(row) == match Decimal.ParseU128(row.size)
      case Err => Err
      case Ok(size) => Ok(Decoded(row.id, row.isYes, row.price, size, row.cadence, row.expiry))
  {
  }

  /** One six-word tuple, from word `start`. */
  function DecodeRow(payload: string, start: nat): Result<Decoded>
  {
    var id :- U64Argument(payload, start);
    var isYes :- BoolArgument(payload, start + 1);
    var price :- U64Argument(payload, start + 2);
    var size :- U128Argument(payload, start + 3);
    var cadence :- U64Argument(payload, start + 4);
    var expiry :- U64Argument(payload, start + 5);
    Ok(Decoded(id, isYes, price, size, cadence, expiry))
  }

  function DecodeRows(payload: string, start: nat, n: nat): Result<seq<Decoded>>
  {
    if n == 0 then Ok([])
    else
      var before :- DecodeRows(payload, start, n - 1);
      var last :- DecodeRow(payload, start + 6 * (n - 1));
      Ok(before + [last])
  }

  datatype ArrayRef = ArrayRef(start: nat, length: nat)

  /** `array_at`: where the elements of the array argument at head word `index` start, and how many there are. */
  function ArrayAt(payload: string, index: nat): Result<ArrayRef>
  {
    var offset :- U64Argument(payload, index);
    var length :- U64Argument(payload, offset / 32);
    Ok(ArrayRef(offset / 32 + 1, length))
  }

  /** An array argument is found through its offset word. */
  lemma {:induction false} ArrayAtDecodes(payload: string, index: nat, offset: nat, length: nat)
    requires WordAt(payload, index) == Ok(Word(32 * offset)) && 32 * offset <= U64_MAX && length <= U64_MAX
    requires WordAt(payload, offset) == Ok(Word(length))
    ensures ArrayAt(payload, index) == Ok(ArrayRef(offset + 1, length))
  {
    hide WordAt;
    hide Word;
    hide ParseU64;
    U64Word(32 * offset);
    U64Word(length);
    assert 32 * offset / 32 == offset;
  }

  function RowsArgument(payload: string, index: nat): Result<seq<Decoded>>
  {
    var found :- ArrayAt(payload, index);
    DecodeRows(payload, found.start, found.length)
  }

  // ----- The agent runtime's batch calls -----

  function EncodeCreateAgentsFor(owner: string, manager: string, rows: seq<Row>, strategy: seq<byte>): Result<string>
  {
    var tail :- RowsTail(rows);
    var ownerWord :- AddressWord(owner);
    var managerWord :- AddressWord(manager);
    var headLength := 32 * 4;
    Ok(AGENT_RUNTIME_CREATE_FOR_SELECTOR
       + Flat([ownerWord, managerWord, Word(headLength), Word(headLength + |tail| / 2)]) + tail + StringTail(strategy))
  }

  function EncodeUpdateAgents(rows: seq<Row>, strategy: seq<byte>): Result<string>
  {
    var tail :- RowsTail(rows);
    var headLength := 32 * 2;
    Ok(AGENT_RUNTIME_UPDATE_BATCH_SELECTOR
       + Flat([Word(headLength), Word(headLength + |tail| / 2)]) + tail + StringTail(strategy))
  }

  function U64Words(values: seq<nat>): (r: seq<string>)
    ensures |r| == |values| && AllWords(r)
  {
    seq(|values|, i requires 0 <= i < |values| => Word(values[i]))
  }

  /** `encode_u64_array_tail` */
  method EncodeU64ArrayTail(values: seq<nat>) returns (encoded: string)
    ensures encoded == Flat([Word(|values|)] + U64Words(values))
  {
    hide Word;
    hide Flat;
    FlatSingle(Word(|values|));
    encoded := Word(|values|);
    assert [Word(|values|)] + U64Words(values)[..0] == [Word(|values|)];
    for i := 0 to |values|
      invariant encoded == Flat([Word(|values|)] + U64Words(values)[..i])
    {
      assert [Word(|values|)] + U64Words(values)[..i + 1]
          == ([Word(|values|)] + U64Words(values)[..i]) + [Word(values[i])];
      FlatConcat([Word(|values|)] + U64Words(values)[..i], [Word(values[i])]);
      FlatSingle(Word(values[i]));
      encoded := encoded + Word(values[i]);
    }
    assert U64Words(values)[..|values|] == U64Words(values);
  }

  function EncodeDeactivateAgents(ids: seq<nat>): string
  {
    AGENT_RUNTIME_DEACTIVATE_BATCH_SELECTOR + Flat([Word(32)]) + Flat([Word(|ids|)] + U64Words(ids))
  }

  function DecodeU64s(payload: string, start: nat, n: nat): Result<seq<nat>>
  {
    if n == 0 then Ok([])
    else
      var before :- DecodeU64s(payload, start, n - 1);
      var last :- U64Argument(payload, start + n - 1);
      Ok(before + [last])
  }

  function U64sArgument(payload: string, index: nat): Result<seq<nat>>
  {
    var found :- ArrayAt(payload, index);
    DecodeU64s(payload, found.start, found.length)
  }
}
