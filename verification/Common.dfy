/** Small shared vocabulary: results, options, bytes, fixed-width integers and byte order. */
module Common {

  datatype Option<+T> = None | Some(value: T)

  datatype Result<+T, +E> = Ok(value: T) | Err(error: E) {
    predicate IsFailure() {
      Err?
    }

    function PropagateFailure<U>(): Result<U, E>
      requires Err?
    {
      Err(error)
    }

    function Extract(): T
      requires Ok?
    {
      value
    }
  }

  type byte = x: int | 0 <= x < 256

  type Bytes = seq<byte>

  const U64_LIMIT: int := 0x1_0000_0000_0000_0000

  type u64 = x: int | 0 <= x < 0x1_0000_0000_0000_0000

  type u16 = x: int | 0 <= x < 0x1_0000

  /** `u64::checked_add`. */
  function CheckedAdd(a: u64, b: u64): Option<u64> {
    if a + b < U64_LIMIT then Some(a + b) else None
  }

  predicate AllZero(s: Bytes) {
    forall i :: 0 <= i < |s| ==> s[i] == 0
  }

  // ---------- big-endian integers ----------

  function Pow256(width: nat): (p: nat)
    ensures p >= 1
  {
    if width == 0 then 1 else 256 * Pow256(width - 1)
  }

  function ToBigEndian(value: nat, width: nat): (s: Bytes)
    ensures |s| == width
  {
    if width == 0 then [] else ToBigEndian(value / 256, width - 1) + [value % 256]
  }

  function FromBigEndian(s: Bytes): (value: nat)
    ensures value < Pow256(|s|)
  {
    if s == [] then 0 else FromBigEndian(s[..|s| - 1]) * 256 + s[|s| - 1]
  }

  lemma {:induction false} BigEndianRoundTrip(value: nat, width: nat)
    requires value < Pow256(width)
    ensures FromBigEndian(ToBigEndian(value, width)) == value
  {
    if width > 0 {
      BigEndianRoundTrip(value / 256, width - 1);
      var s := ToBigEndian(value, width);
      assert s[..|s| - 1] == ToBigEndian(value / 256, width - 1);
    }
  }

  lemma {:induction false} BigEndianUnique(s: Bytes)
    ensures ToBigEndian(FromBigEndian(s), |s|) == s
  {
    if s != [] {
      var front := s[..|s| - 1];
      BigEndianUnique(front);
      assert FromBigEndian(s) / 256 == FromBigEndian(front);
      assert FromBigEndian(s) % 256 == s[|s| - 1];
      assert s == front + [s[|s| - 1]];
    }
  }

  // ---------- array order of byte strings ----------

  /** The order `BTreeMap` keeps its fixed-size array keys in: first differing byte decides. */
  predicate Before(a: Bytes, b: Bytes) {
    b != [] && (a == [] || a[0] < b[0] || (a[0] == b[0] && Before(a[1..], b[1..])))
  }

  lemma {:induction false} BeforeIsTotal(a: Bytes, b: Bytes)
    ensures Before(a, b) || a == b || Before(b, a)
    ensures !(Before(a, b) && Before(b, a))
    ensures !Before(a, a)
  {
    if a != [] {
      BeforeIsTotal(a[1..], if b == [] then [] else b[1..]);
    }
    if a != [] && b != [] && a[0] == b[0] && a[1..] == b[1..] {
      assert a == [a[0]] + a[1..] && b == [b[0]] + b[1..];
    }
  }

  lemma {:induction false} BeforeIsTransitive(a: Bytes, b: Bytes, c: Bytes)
    requires Before(a, b) && Before(b, c)
    ensures Before(a, c)
  {
    if a != [] && a[0] == b[0] && b[0] == c[0] {
      BeforeIsTransitive(a[1..], b[1..], c[1..]);
    }
  }

  /** `key` is the smallest member of `keys` in array order. */
  predicate IsFirst(keys: set<Bytes>, key: Bytes) {
    key in keys && forall other :: other in keys && other != key ==> Before(key, other)
  }

  lemma FirstAfterAdding(keys: set<Bytes>, first: Bytes, more: Bytes)
    requires IsFirst(keys, first) && more !in keys
    ensures IsFirst(keys + {more}, if Before(more, first) then more else first)
  {
    BeforeIsTotal(more, first);
    if Before(more, first) {
      forall other | other in keys && other != first ensures Before(more, other) {
        BeforeIsTransitive(more, first, other);
      }
    }
  }

  lemma {:induction false} FirstExists(keys: set<Bytes>)
    requires keys != {}
    ensures exists key :: IsFirst(keys, key)
  {
    var some :| some in keys;
    var rest := keys - {some};
    if rest == {} {
      assert keys == {some};
      assert IsFirst(keys, some);
    } else {
      FirstExists(rest);
      var best :| IsFirst(rest, best);
      FirstAfterAdding(rest, best, some);
      assert rest + {some} == keys;
    }
  }

  lemma FirstIsUnique(keys: set<Bytes>, a: Bytes, b: Bytes)
    requires IsFirst(keys, a) && IsFirst(keys, b)
    ensures a == b
  {
    BeforeIsTotal(a, b);
  }
}
