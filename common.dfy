/** Shared vocabulary: optional values, results, Rust's fixed-width
  * unsigned counters and their saturating increment, entity ids. */
module Common {

  datatype Option<T> = None | Some(value: T)

  datatype Result<T, E> = Ok(value: T) | Err(error: E)

  /** Rust `u8`, `u16`, `u32` and `i8`. */
  type u8 = x: int | 0 <= x < 0x100
  type u16 = x: int | 0 <= x < 0x1_0000
  type u32 = x: int | 0 <= x < 0x1_0000_0000
  type i8 = x: int | -0x80 <= x < 0x80

  /** A Bevy `Entity` id. */
  type Entity = nat

  /** `x.saturating_add(1)` on a `u8`. */
  function SatIncU8(x: u8): (r: u8)
    ensures x < 0xFF ==> r == x + 1
    ensures x == 0xFF ==> r == 0xFF
  {
    if x == 0xFF then 0xFF else x + 1
  }

  /** `x.saturating_add(1)` on a `u16`. */
  function SatIncU16(x: u16): (r: u16)
    ensures x < 0xFFFF ==> r == x + 1
    ensures x == 0xFFFF ==> r == 0xFFFF
  {
    if x == 0xFFFF then 0xFFFF else x + 1
  }

  function Max(a: int, b: int): int { if a < b then b else a }
  function Min(a: int, b: int): int { if a < b then a else b }

  /** Regrouping a concatenation, stated once for every element type. */
  lemma AppendAssoc<T>(a: seq<T>, b: seq<T>, c: seq<T>)
    ensures a + (b + c) == a + b + c
  {
  }

  lemma EmptyAppend<T>(a: seq<T>)
    ensures [] + a == a
  {
  }
  /** Moving one element from the remaining ones to the visited ones. */
  lemma MoveOne<T>(remaining: set<T>, done: set<T>, all: set<T>, x: T)
    requires remaining !! done && remaining + done == all && x in remaining
    ensures remaining - {x} !! done + {x} && remaining - {x} + (done + {x}) == all
    ensures |remaining - {x}| < |remaining|
  {
  }


  /** A non-empty sequence, alone or after another, ends in its last element. */
  lemma SplitLast<T>(a: seq<T>, b: seq<T>)
    requires |b| > 0
    ensures b == b[..|b| - 1] + [b[|b| - 1]]
    ensures a + b == (a + b[..|b| - 1]) + [b[|b| - 1]]
  {
  }

  /** Moving the first element of `q` to the end of `p` keeps the concatenation. */
  lemma MoveFront<T>(p: seq<T>, q: seq<T>)
    requires |q| > 0
    ensures p + [q[0]] + q[1..] == p + q
  {
    assert q == [q[0]] + q[1..];
  }
}
