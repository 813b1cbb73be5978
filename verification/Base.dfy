/** Shared vocabulary: results, bytes, ideal digests and a few sequence folds. */
module Base {
  datatype Option<+T> = None | Some(value: T)

  datatype Result<+T, +E> = Ok(value: T) | Err(error: E)

  type byte = b: int | 0 <= b < 256

  const MIB := 1024 * 1024
  const I32_MAX := 0x7fff_ffff
  const I64_MAX := 0x7fff_ffff_ffff_ffff
  const U64_LIMIT := 0x1_0000_0000_0000_0000

  /** A BLAKE3 digest, idealised: the digest determines the hashed bytes. */
  datatype Digest = Blake3(content: seq<byte>)

  function Min(a: int, b: int): int {
    if a <= b then a else b
  }

  /** The Unicode White_Space characters. */
  predicate White(c: char) {
    var u := c as int;
    || 9 <= u <= 13 || u == 0x20 || u == 0x85 || u == 0xa0 || u == 0x1680 || 0x2000 <= u <= 0x200a
    || u == 0x2028 || u == 0x2029 || u == 0x202f || u == 0x205f || u == 0x3000
  }

  predicate Blank(s: string) {
    s == [] || (White(s[0]) && Blank(s[1..]))
  }

  function Utf8Length(s: string): nat {
    if s == [] then 0
    else
      var u := s[0] as int;
      (if u < 0x80 then 1 else if u < 0x800 then 2 else if u < 0x10000 then 3 else 4) + Utf8Length(s[1..])
  }

  function Flatten<T>(groups: seq<seq<T>>): seq<T> {
    if groups == [] then [] else groups[0] + Flatten(groups[1..])
  }

  lemma {:induction false} FlattenAppend<T>(groups: seq<seq<T>>, last: seq<T>)
    ensures Flatten(groups + [last]) == Flatten(groups) + last
  {
    if groups == [] {
      assert groups + [last] == [last];
      assert Flatten([last]) == last + Flatten([]);
    } else {
      assert (groups + [last])[1..] == groups[1..] + [last];
      FlattenAppend(groups[1..], last);
    }
  }

  lemma {:induction false} FlattenConcat<T>(a: seq<seq<T>>, b: seq<seq<T>>)
    ensures Flatten(a + b) == Flatten(a) + Flatten(b)
  {
    if a == [] {
      assert a + b == b;
    } else {
      assert (a + b)[1..] == a[1..] + b;
      FlattenConcat(a[1..], b);
    }
  }

  lemma ProductSign(x: real, y: real)
    requires x >= 0.0 && y >= 0.0
    ensures x * y >= 0.0
  {
  }

  lemma QuotientAtMost(x: real, n: real, bound: real)
    requires n > 0.0
    ensures x / n <= bound <==> x <= bound * n
  {
  }

  function Sum(values: seq<nat>): nat {
    if values == [] then 0 else values[0] + Sum(values[1..])
  }

  lemma {:induction false} SumAppend(values: seq<nat>, last: nat)
    ensures Sum(values + [last]) == Sum(values) + last
  {
    if values == [] {
      assert values + [last] == [last];
      assert Sum([last]) == last + Sum([]);
    } else {
      assert (values + [last])[1..] == values[1..] + [last];
      SumAppend(values[1..], last);
    }
  }
}
