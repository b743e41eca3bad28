/** Round trips of the bootstrap calldata: what the encoders write, an ABI decoder reads back. */
module AbiCalldata {
  import opened Numbers
  import opened Options
  import opened Hex
  import opened Utf8
  import opened Abi

  lemma BodySpelled(body: string)
    ensures IsPayload("0x" + body) && Spells("0x" + body, 2, body)
  {
  }

  // ----- createMarketRich -----

  /**
   * Market creation: encoding fails exactly for a malformed resolver, and otherwise the arguments are whole
   * words from which the service's own decoder recovers all four texts, and the words hold the closing time
   * and the resolver.
   */
  lemma {:induction false} CreateMarketRichRoundTrip(
    q: seq<byte>, d: seq<byte>, c: seq<byte>, s: seq<byte>, closeTime: nat, resolver: string)
    requires Valid(q) && Valid(d) && Valid(c) && Valid(s) && closeTime <= U64_MAX
    ensures EncodeCreateMarketRich(q, d, c, s, closeTime, resolver).Ok? <==> IsAddress(resolver)
    ensures
      var r := EncodeCreateMarketRich(q, d, c, s, closeTime, resolver);
      r.Ok? && |r.value| <= ISIZE_MAX ==>
        && |r.value| >= 10 && r.value[..10] == MARKET_CORE_CREATE_RICH_SELECTOR && (|r.value| - 10) % 64 == 0
        && var payload := Arguments(r.value);
           && DecodeMetadata(payload) == Ok(Metadata(q, d, c, s))
           && U64Argument(payload, 4) == Ok(closeTime) && AddressArgument(payload, 5) == Ok(Lower(resolver))
  {
    var r := EncodeCreateMarketRich(q, d, c, s, closeTime, resolver);
    if r.Ok? && |r.value| <= ISIZE_MAX {
      RichDecodes(q, d, c, s, closeTime, resolver);
    }
  }

  lemma {:induction false} RichBody(
    q: seq<byte>, d: seq<byte>, c: seq<byte>, s: seq<byte>, closeTime: nat, resolver: string)
    returns (body: string)
    requires IsAddress(resolver)
    ensures AddressWord(resolver).Ok?
    ensures body == Flat(CreateMarketRichHead(q, d, c, closeTime, AddressWord(resolver).value))
                    + StringTail(q) + StringTail(d) + StringTail(c) + StringTail(s)
    ensures EncodeCreateMarketRich(q, d, c, s, closeTime, resolver) == Ok(MARKET_CORE_CREATE_RICH_SELECTOR + body)
    ensures Arguments(MARKET_CORE_CREATE_RICH_SELECTOR + body) == "0x" + body
  {
    hide Flat;
    hide StringTail;
    hide CreateMarketRichHead;
    var f := Flat(CreateMarketRichHead(q, d, c, closeTime, AddressWord(resolver).value));
    body := f + StringTail(q) + StringTail(d) + StringTail(c) + StringTail(s);
    assert MARKET_CORE_CREATE_RICH_SELECTOR + f + StringTail(q) + StringTail(d) + StringTail(c) + StringTail(s)
        == MARKET_CORE_CREATE_RICH_SELECTOR + body;
  }

  /** Where the parts of the body stand. */
  lemma RichSpelled(p: string, f: string, a: string, b: string, c: string, d: string)
    requires Spells(p, 2, f + a + b + c + d)
    ensures Spells(p, 2, f) && Spells(p, 2 + |f|, a) && Spells(p, 2 + |f| + |a|, b)
    ensures Spells(p, 2 + |f| + |a| + |b|, c) && Spells(p, 2 + |f| + |a| + |b| + |c|, d)
  {
    hide Spells;
    SpellsSplit(p, 2, f + a + b + c, d);
    SpellsSplit(p, 2, f + a + b, c);
    SpellsSplit(p, 2, f + a, b);
    SpellsSplit(p, 2, f, a);
  }

  /** The head of the call, with the tails' lengths in bytes in place of the offsets. */
  lemma {:induction false} RichHead(q: seq<byte>, d: seq<byte>, c: seq<byte>, closeTime: nat, w: string)
    requires |w| == 64
    ensures
      var head := CreateMarketRichHead(q, d, c, closeTime, w);
      && AllWords(head) && |Flat(head)| == 384
      && head == [Word(192), Word(192 + TailBytes(q)), Word(192 + TailBytes(q) + TailBytes(d)),
                  Word(192 + TailBytes(q) + TailBytes(d) + TailBytes(c)), Word(closeTime), w]
  {
    hide Word;
    hide Flat;
    hide StringTail;
    FlatLength(CreateMarketRichHead(q, d, c, closeTime, w));
  }

  function TailBytes(s: seq<byte>): (r: nat)
    ensures |StringTail(s)| == 2 * r
  {
    32 * (1 + WordsFor(2 * |s|))
  }

  lemma {:induction false} RichStrings(
    p: string, q: seq<byte>, d: seq<byte>, c: seq<byte>, s: seq<byte>, closeTime: nat, w: string)
    requires Valid(q) && Valid(d) && Valid(c) && Valid(s) && closeTime <= U64_MAX && |w| == 64
    requires IsPayload(p) && |p| <= ISIZE_MAX
    requires Spells(p, 2, Flat(CreateMarketRichHead(q, d, c, closeTime, w))
                          + StringTail(q) + StringTail(d) + StringTail(c) + StringTail(s))
    ensures DecodeMetadata(p) == Ok(Metadata(q, d, c, s))
    ensures U64Argument(p, 4) == Ok(closeTime) && AddressArgument(p, 5) == Ok(AddressOf(w))
  {
    hide Valid;
    hide Flat;
    hide StringTail;
    hide TailBytes;
    hide CreateMarketRichHead;
    hide Word;
    hide AddressOf;
    hide WordAt;
    hide StringArgument;
    hide ParseU64;
    hide IsPayload;
    hide Spells;
    hide Holds;
    var head := CreateMarketRichHead(q, d, c, closeTime, w);
    RichHead(q, d, c, closeTime, w);
    RichSpelled(p, Flat(head), StringTail(q), StringTail(d), StringTail(c), StringTail(s));
    var second := 192 + TailBytes(q);
    var third := second + TailBytes(d);
    var fourth := third + TailBytes(c);
    FlatHolds(p, 0, head);
    HeldWord(p, 0, head, 0);
    HeldWord(p, 0, head, 1);
    HeldWord(p, 0, head, 2);
    HeldWord(p, 0, head, 3);
    HeldWord(p, 0, head, 4);
    HeldWord(p, 0, head, 5);
    TailDecodes(p, 0, 192, q);
    TailDecodes(p, 1, second, d);
    TailDecodes(p, 2, third, c);
    TailDecodes(p, 3, fourth, s);
    U64Word(closeTime);
  }

  lemma {:induction false} TailDecodes(p: string, index: nat, offset: nat, s: seq<byte>)
    requires IsPayload(p) && |p| <= ISIZE_MAX && Valid(s)
    requires Spells(p, 2 + 2 * offset, StringTail(s)) && WordAt(p, index) == Ok(Word(offset))
    ensures StringArgument(p, index) == Ok(s)
  {
    hide Valid;
    hide StringTail;
    hide StringArgument;
    hide WordAt;
    hide IsPayload;
    TailFits(p, s, 2 + 2 * offset);
    StringArgumentDecodes(p, index, offset, s);
  }

  /** In an allocation a string's length and position fit 64 bits. */
  lemma TailFits(p: string, s: seq<byte>, at: nat)
    requires Spells(p, at, StringTail(s)) && |p| <= ISIZE_MAX
    ensures |s| <= U64_MAX && at <= U64_MAX
  {
  }

  lemma {:induction false} RichDecodes(
    q: seq<byte>, d: seq<byte>, c: seq<byte>, s: seq<byte>, closeTime: nat, resolver: string)
    requires Valid(q) && Valid(d) && Valid(c) && Valid(s) && closeTime <= U64_MAX && IsAddress(resolver)
    ensures
      var r := EncodeCreateMarketRich(q, d, c, s, closeTime, resolver);
      r.Ok? && |r.value| <= ISIZE_MAX ==>
      && |r.value| >= 10 && r.value[..10] == MARKET_CORE_CREATE_RICH_SELECTOR && (|r.value| - 10) % 64 == 0
      && var payload := Arguments(r.value);
         && DecodeMetadata(payload) == Ok(Metadata(q, d, c, s))
         && U64Argument(payload, 4) == Ok(closeTime) && AddressArgument(payload, 5) == Ok(Lower(resolver))
  {
    hide Valid;
    hide Flat;
    hide StringTail;
    hide AddressWord;
    hide AddressOf;
    hide IsAddress;
    hide EncodeCreateMarketRich;
    hide DecodeMetadata;
    hide U64Argument;
    hide AddressArgument;
    hide Spells;
    hide IsPayload;
    hide Word;
    AddressWordParses(resolver);
    var body := RichBody(q, d, c, s, closeTime, resolver);
    FlatLength(CreateMarketRichHead(q, d, c, closeTime, AddressWord(resolver).value));
    BodySpelled(body);
    if |MARKET_CORE_CREATE_RICH_SELECTOR + body| <= ISIZE_MAX {
      RichStrings("0x" + body, q, d, c, s, closeTime, AddressWord(resolver).value);
    }
    assert |body| == 64 * (10 + WordsFor(2 * |q|) + WordsFor(2 * |d|) + WordsFor(2 * |c|) + WordsFor(2 * |s|));
  }

  // ----- Arrays -----

  predicate InRange(d: Decoded)
  {
    d.id <= U64_MAX && d.price <= U64_MAX && d.size <= U128_MAX && d.cadence <= U64_MAX && d.expiry <= U64_MAX
  }

  /** What the input types guarantee of a row. */
  predicate RowInRange(r: Row)
  {
    r.id <= U64_MAX && r.price <= U64_MAX && r.cadence <= U64_MAX && r.expiry <= U64_MAX
  }

  lemma {:induction false} DecodedInRange(rows: seq<Row>)
    requires DecodedRows(rows).Ok? && forall i :: 0 <= i < |rows| ==> RowInRange(rows[i])
    ensures forall i :: 0 <= i < |rows| ==> InRange(DecodedRows(rows).value[i])
  {
    if rows != [] {
      DecodedInRange(rows[..|rows| - 1]);
    }
  }

  lemma RowWordsDecode(payload: string, start: nat, d: Decoded)
    requires InRange(d) && Holds(payload, start, RowWords(d))
    ensures DecodeRow(payload, start) == Ok(d)
  {
    hide WordAt;
    hide Word;
    hide ParseU64;
    hide ParseU128;
    hide ParseBool;
    hide BoolWord;
    U64Word(d.id);
    BoolWordParses(d.isYes);
    U64Word(d.price);
    U128Word(d.size);
    U64Word(d.cadence);
    U64Word(d.expiry);
    var w := RowWords(d);
    HeldWord(payload, start, w, 0);
    HeldWord(payload, start, w, 1);
    HeldWord(payload, start, w, 2);
    HeldWord(payload, start, w, 3);
    HeldWord(payload, start, w, 4);
    HeldWord(payload, start, w, 5);
  }

  lemma {:induction false} RowsWordsShape(ds: seq<Decoded>)
    ensures |RowsWords(ds)| == 6 * |ds| && AllWords(RowsWords(ds))
  {
    hide Word;
    hide BoolWord;
    if ds != [] {
      RowsWordsShape(ds[..|ds| - 1]);
    }
  }

  lemma {:induction false} RowsDecodeStep(payload: string, start: nat, before: seq<Decoded>, last: Decoded)
    requires DecodeRows(payload, start, |before|) == Ok(before)
    requires DecodeRow(payload, start + 6 * |before|) == Ok(last)
    ensures DecodeRows(payload, start, |before + [last]|) == Ok(before + [last])
  {
    hide DecodeRow;
  }

  lemma RowsWordsAppend(before: seq<Decoded>, last: Decoded)
    ensures RowsWords(before + [last]) == RowsWords(before) + RowWords(last)
  {
    hide RowWords;
    assert (before + [last])[..|before|] == before;
  }

  lemma {:induction false} RowsHeld(payload: string, start: nat, before: seq<Decoded>, last: Decoded)
    requires Holds(payload, start, RowsWords(before + [last]))
    ensures Holds(payload, start, RowsWords(before)) && Holds(payload, start + 6 * |before|, RowWords(last))
  {
    hide *;
    RowsWordsShape(before);
    RowsWordsAppend(before, last);
    HoldsSplit(payload, start, RowsWords(before), RowWords(last));
    assert start + |RowsWords(before)| == start + 6 * |before|;
  }

  lemma {:induction false} RowsDecode(payload: string, start: nat, ds: seq<Decoded>)
    requires forall i :: 0 <= i < |ds| ==> InRange(ds[i])
    requires Holds(payload, start, RowsWords(ds))
    ensures DecodeRows(payload, start, |ds|) == Ok(ds)
  {
    hide InRange;
    hide Holds;
    hide RowsWords;
    hide DecodeRow;
    if ds != [] {
      RowsHeldPrefix(payload, start, ds);
      RowsDecode(payload, start, ds[..|ds| - 1]);
      RowsDecodeLast(payload, start, ds);
    }
  }

  lemma {:induction false} RowsHeldPrefix(payload: string, start: nat, ds: seq<Decoded>)
    requires ds != [] && Holds(payload, start, RowsWords(ds))
    ensures Holds(payload, start, RowsWords(ds[..|ds| - 1]))
  {
    hide *;
    assert ds == ds[..|ds| - 1] + [ds[|ds| - 1]];
    RowsHeld(payload, start, ds[..|ds| - 1], ds[|ds| - 1]);
  }

  lemma RowsDecodeLast(payload: string, start: nat, ds: seq<Decoded>)
    requires ds != [] && InRange(ds[|ds| - 1]) && Holds(payload, start, RowsWords(ds))
    requires DecodeRows(payload, start, |ds| - 1) == Ok(ds[..|ds| - 1])
    ensures DecodeRows(payload, start, |ds|) == Ok(ds)
  {
    hide *;
    var before, last := ds[..|ds| - 1], ds[|ds| - 1];
    assert ds == before + [last];
    RowsHeld(payload, start, before, last);
    RowWordsDecode(payload, start + 6 * |before|, last);
    RowsDecodeStep(payload, start, before, last);
  }

  /** Head words, then the words of one array of rows, then a string: all of it decodes. */
  lemma {:induction false} RowsThenString(
    head: seq<string>, rowsIndex: nat, stringIndex: nat, ds: seq<Decoded>, strategy: seq<byte>)
    requires AllWords(head) && rowsIndex < |head| && stringIndex < |head| && Valid(strategy)
    requires forall i :: 0 <= i < |ds| ==> InRange(ds[i])
    requires head[rowsIndex] == Word(32 * |head|)
    requires head[stringIndex] == Word(32 * |head| + 32 * (1 + 6 * |ds|))
    requires 64 * (|head| + 1 + 6 * |ds|) + |StringTail(strategy)| + 2 <= ISIZE_MAX
    ensures
      var tail := Flat([Word(|ds|)] + RowsWords(ds));
      var body := Flat(head) + tail + StringTail(strategy);
      && |body| % 64 == 0
      && Holds("0x" + body, 0, head)
      && RowsArgument("0x" + body, rowsIndex) == Ok(ds)
      && StringArgument("0x" + body, stringIndex) == Ok(strategy)
  {
    hide *;
    var block := [Word(|ds|)] + RowsWords(ds);
    var body := Flat(head) + Flat(block) + StringTail(strategy);
    BlockLength(ds);
    FlatLength(head);
    WholeBlocks(|head| + 1 + 6 * |ds| + 1 + WordsFor(2 * |strategy|));
    BodySpelled(body);
    RowsSpelled("0x" + body, head, rowsIndex, stringIndex, ds, 32 * |head| + 32 * (1 + 6 * |ds|), strategy);
  }

  lemma {:induction false} BlockLength(ds: seq<Decoded>)
    ensures AllWords([Word(|ds|)] + RowsWords(ds)) && |Flat([Word(|ds|)] + RowsWords(ds))| == 64 * (1 + 6 * |ds|)
  {
    hide Word;
    hide Flat;
    hide RowsWords;
    RowsWordsShape(ds);
    FlatLength([Word(|ds|)] + RowsWords(ds));
  }

  /** The string argument of head words, a block and the string's tail. */
  lemma {:induction false} HeadString(
    p: string, head: seq<string>, block: string, index: nat, offset: nat, s: seq<byte>)
    requires IsPayload(p) && |p| <= ISIZE_MAX && Valid(s) && Spells(p, 2, Flat(head) + block + StringTail(s))
    requires AllWords(head) && index < |head| && head[index] == Word(offset)
    requires 64 * |head| + |block| == 2 * offset
    ensures Holds(p, 0, head) && StringArgument(p, index) == Ok(s)
  {
    hide *;
    FlatLength(head);
    SpellsSplit(p, 2, Flat(head) + block, StringTail(s));
    SpellsSplit(p, 2, Flat(head), block);
    FlatHolds(p, 0, head);
    HeldWord(p, 0, head, index);
    TailDecodes(p, index, offset, s);
  }

  lemma {:induction false} RowsSpelled(
    p: string, head: seq<string>, rowsIndex: nat, stringIndex: nat, ds: seq<Decoded>, offset: nat, strategy: seq<byte>)
    requires IsPayload(p) && |p| <= ISIZE_MAX
    requires Spells(p, 2, Flat(head) + Flat([Word(|ds|)] + RowsWords(ds)) + StringTail(strategy))
    requires AllWords(head) && rowsIndex < |head| && stringIndex < |head| && Valid(strategy)
    requires |head| <= ISIZE_MAX / 64 && |ds| <= ISIZE_MAX && forall i :: 0 <= i < |ds| ==> InRange(ds[i])
    requires head[rowsIndex] == Word(32 * |head|)
    requires head[stringIndex] == Word(offset) && offset == 32 * |head| + 32 * (1 + 6 * |ds|)
    ensures Holds(p, 0, head) && RowsArgument(p, rowsIndex) == Ok(ds) && StringArgument(p, stringIndex) == Ok(strategy)
  {
    hide Valid;
    hide Flat;
    hide StringTail;
    hide Word;
    hide WordAt;
    hide StringArgument;
    hide RowsArgument;
    hide InRange;
    hide RowsWords;
    hide Holds;
    hide Spells;
    hide IsPayload;
    hide AllWords;
    var block := [Word(|ds|)] + RowsWords(ds);
    BlockLength(ds);
    HeadString(p, head, Flat(block), stringIndex, offset, strategy);
    RowsAfterHead(p, head, rowsIndex, ds, StringTail(strategy));
  }

  lemma {:induction false} RowsAfterHead(p: string, head: seq<string>, index: nat, ds: seq<Decoded>, rest: string)
    requires IsPayload(p) && Spells(p, 2, Flat(head) + Flat([Word(|ds|)] + RowsWords(ds)) + rest)
    requires AllWords(head) && index < |head| && head[index] == Word(32 * |head|)
    requires 32 * |head| <= U64_MAX && |ds| <= U64_MAX && forall i :: 0 <= i < |ds| ==> InRange(ds[i])
    ensures RowsArgument(p, index) == Ok(ds)
  {
    hide *;
    var block := [Word(|ds|)] + RowsWords(ds);
    BlockLength(ds);
    FlatLength(head);
    SpellsSplit(p, 2, Flat(head) + Flat(block), rest);
    SpellsSplit(p, 2, Flat(head), Flat(block));
    FlatHolds(p, 0, head);
    FlatHolds(p, |head|, block);
    HeldWord(p, 0, head, index);
    BlockDecodes(p, index, |head|, ds);
  }

  /** An array of rows written from word `at` on, with its offset at head word `index`. */
  lemma {:induction false} BlockDecodes(p: string, index: nat, at: nat, ds: seq<Decoded>)
    requires Holds(p, at, [Word(|ds|)] + RowsWords(ds)) && WordAt(p, index) == Ok(Word(32 * at))
    requires 32 * at <= U64_MAX && |ds| <= U64_MAX && forall i :: 0 <= i < |ds| ==> InRange(ds[i])
    ensures RowsArgument(p, index) == Ok(ds)
  {
    hide Word;
    hide WordAt;
    hide ArrayAt;
    hide DecodeRows;
    hide InRange;
    hide RowsWords;
    hide Holds;
    HeldWord(p, at, [Word(|ds|)] + RowsWords(ds), 0);
    HoldsSplit(p, at, [Word(|ds|)], RowsWords(ds));
    ArrayAtDecodes(p, index, at, |ds|);
    RowsDecode(p, at + 1, ds);
  }

  lemma WholeBlocks(n: nat)
    ensures 64 * n % 64 == 0
  {
  }

  lemma PrefixFree(selector: string, head: string, tail: string, last: string)
    requires |selector| == 10
    ensures Arguments(selector + head + tail + last) == "0x" + (head + tail + last)
    ensures |selector + head + tail + last| == 10 + |head + tail + last|
    ensures (selector + head + tail + last)[..10] == selector
  {
    assert (selector + head + tail + last)[10..] == head + tail + last;
  }

  /**
   * Launching agents: encoding fails exactly for a malformed address or size, and otherwise the arguments are
   * whole words that decode to the owner, the manager, every row and the strategy.
   */
  lemma {:induction false} CreateAgentsForRoundTrip(owner: string, manager: string, rows: seq<Row>, strategy: seq<byte>)
    requires Valid(strategy) && forall i :: 0 <= i < |rows| ==> RowInRange(rows[i])
    ensures EncodeCreateAgentsFor(owner, manager, rows, strategy).Ok?
       <==> DecodedRows(rows).Ok? && IsAddress(owner) && IsAddress(manager)
    ensures
      var r := EncodeCreateAgentsFor(owner, manager, rows, strategy);
      r.Ok? && |r.value| <= ISIZE_MAX ==>
        && |r.value| >= 10 && r.value[..10] == AGENT_RUNTIME_CREATE_FOR_SELECTOR && (|r.value| - 10) % 64 == 0
        && var payload := Arguments(r.value);
           && AddressArgument(payload, 0) == Ok(Lower(owner)) && AddressArgument(payload, 1) == Ok(Lower(manager))
           && RowsArgument(payload, 2) == DecodedRows(rows) && StringArgument(payload, 3) == Ok(strategy)
  {
    hide Valid;
    hide Flat;
    hide StringTail;
    hide Word;
    hide IsAddress;
    hide AddressOf;
    hide WordAt;
    hide StringArgument;
    hide RowsArgument;
    hide DecodedRows;
    hide RowInRange;
    hide InRange;
    hide RowsWords;
    AddressWordFails(owner);
    AddressWordFails(manager);
    if DecodedRows(rows).Ok? && IsAddress(owner) && IsAddress(manager) {
      hide AddressWord;
      var ds := DecodedRows(rows).value;
      DecodedInRange(rows);
      AddressWordParses(owner);
      AddressWordParses(manager);
      RowsWordsShape(ds);
      FlatLength([Word(|ds|)] + RowsWords(ds));
      var tail := Flat([Word(|ds|)] + RowsWords(ds));
      var head := [AddressWord(owner).value, AddressWord(manager).value, Word(128), Word(128 + |tail| / 2)];
      FlatLength(head);
      PrefixFree(AGENT_RUNTIME_CREATE_FOR_SELECTOR, Flat(head), tail, StringTail(strategy));
      var r := EncodeCreateAgentsFor(owner, manager, rows, strategy);
      if |r.value| <= ISIZE_MAX {
        RowsThenString(head, 2, 3, ds, strategy);
        HeldWord(Arguments(r.value), 0, head, 0);
        HeldWord(Arguments(r.value), 0, head, 1);
      }
    }
  }

  lemma AddressWordFails(s: string)
    ensures AddressWord(s).Ok? <==> IsAddress(s)
  {
  }

  /** Updating agents: encoding fails exactly for a malformed size, else it decodes to the rows and the strategy. */
  lemma {:induction false} UpdateAgentsRoundTrip(rows: seq<Row>, strategy: seq<byte>)
    requires Valid(strategy) && forall i :: 0 <= i < |rows| ==> RowInRange(rows[i])
    ensures EncodeUpdateAgents(rows, strategy).Ok? <==> DecodedRows(rows).Ok?
    ensures
      var r := EncodeUpdateAgents(rows, strategy);
      r.Ok? && |r.value| <= ISIZE_MAX ==>
        && |r.value| >= 10 && r.value[..10] == AGENT_RUNTIME_UPDATE_BATCH_SELECTOR && (|r.value| - 10) % 64 == 0
        && RowsArgument(Arguments(r.value), 0) == DecodedRows(rows)
        && StringArgument(Arguments(r.value), 1) == Ok(strategy)
  {
    hide Valid;
    hide Flat;
    hide StringTail;
    hide Word;
    hide WordAt;
    hide StringArgument;
    hide RowsArgument;
    hide DecodedRows;
    hide RowInRange;
    hide InRange;
    hide RowsWords;
    if DecodedRows(rows).Ok? {
      var ds := DecodedRows(rows).value;
      DecodedInRange(rows);
      RowsWordsShape(ds);
      FlatLength([Word(|ds|)] + RowsWords(ds));
      var tail := Flat([Word(|ds|)] + RowsWords(ds));
      var head := [Word(64), Word(64 + |tail| / 2)];
      FlatLength(head);
      PrefixFree(AGENT_RUNTIME_UPDATE_BATCH_SELECTOR, Flat(head), tail, StringTail(strategy));
      var r := EncodeUpdateAgents(rows, strategy);
      if |r.value| <= ISIZE_MAX {
        RowsThenString(head, 0, 1, ds, strategy);
      }
    }
  }

  lemma {:induction false} U64sDecode(payload: string, start: nat, values: seq<nat>)
    requires forall i :: 0 <= i < |values| ==> values[i] <= U64_MAX
    requires Holds(payload, start, U64Words(values))
    ensures DecodeU64s(payload, start, |values|) == Ok(values)
  {
    hide WordAt;
    hide Word;
    hide ParseU64;
    if values != [] {
      var before, last := values[..|values| - 1], values[|values| - 1];
      assert values == before + [last];
      assert U64Words(values) == U64Words(before) + [Word(last)];
      HoldsSplit(payload, start, U64Words(before), [Word(last)]);
      U64sDecode(payload, start, before);
      U64Word(last);
      HeldWord(payload, start + |before|, [Word(last)], 0);
    }
  }

  /** Deactivating agents: the arguments are whole words that decode to the identifiers. */
  lemma {:induction false} DeactivateAgentsRoundTrip(ids: seq<nat>)
    requires forall i :: 0 <= i < |ids| ==> ids[i] <= U64_MAX
    ensures
      var encoded := EncodeDeactivateAgents(ids);
      |encoded| <= ISIZE_MAX ==>
      && |encoded| >= 10 && encoded[..10] == AGENT_RUNTIME_DEACTIVATE_BATCH_SELECTOR && (|encoded| - 10) % 64 == 0
      && U64sArgument(Arguments(encoded), 0) == Ok(ids)
  {
    hide Flat;
    hide Word;
    hide WordAt;
    hide ArrayAt;
    hide DecodeU64s;
    var block := [Word(|ids|)] + U64Words(ids);
    var words := [Word(32)] + block;
    FlatLength([Word(32)]);
    FlatLength(block);
    FlatConcat([Word(32)], block);
    PrefixFree(AGENT_RUNTIME_DEACTIVATE_BATCH_SELECTOR, Flat([Word(32)]), Flat(block), "");
    var encoded := EncodeDeactivateAgents(ids);
    var payload := Arguments(encoded);
    assert encoded == AGENT_RUNTIME_DEACTIVATE_BATCH_SELECTOR + Flat([Word(32)]) + Flat(block) + "";
    assert payload == "0x" + Flat(words);
    BodySpelled(Flat(words));
    FlatHolds(payload, 0, words);
    HoldsSplit(payload, 0, [Word(32)], block);
    HoldsSplit(payload, 1, [Word(|ids|)], U64Words(ids));
    HeldWord(payload, 0, words, 0);
    HeldWord(payload, 0, words, 1);
    if |encoded| <= ISIZE_MAX {
      ArrayAtDecodes(payload, 0, 1, |ids|);
      U64sDecode(payload, 2, ids);
    }
  }
}
