/** Well-formed UTF-8, the invariant of every Rust string (RFC 3629, section 4). */
module Utf8 {
  import opened Hex

  predicate Continuation(b: byte) { 0x80 <= b <= 0xBF }

  /** The length of the well-formed character starting `b`, or 0 when there is none. */
  function CharLength(b: seq<byte>): (r: nat)
    ensures r <= |b|
  {
    if |b| >= 1 && b[0] <= 0x7F then 1
    else if |b| >= 2 && 0xC2 <= b[0] <= 0xDF && Continuation(b[1]) then 2
    else if && |b| >= 3 && 0xE0 <= b[0] <= 0xEF && Continuation(b[1]) && Continuation(b[2])
            && (b[0] == 0xE0 ==> b[1] >= 0xA0) && (b[0] == 0xED ==> b[1] <= 0x9F) then 3
    else if && |b| >= 4 && 0xF0 <= b[0] <= 0xF4 && Continuation(b[1]) && Continuation(b[2]) && Continuation(b[3])
            && (b[0] == 0xF0 ==> b[1] >= 0x90) && (b[0] == 0xF4 ==> b[1] <= 0x8F) then 4
    else 0
  }

  predicate Valid(b: seq<byte>)
  {
    b == [] || (CharLength(b) > 0 && Valid(b[CharLength(b)..]))
  }
}
