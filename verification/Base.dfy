// Small shared vocabulary: optional values, results, and the clamp at zero
// that every counter of the system goes through.
module Base {
  datatype Option<+T> = None | Some(value: T)

  datatype Result<+T, +E> = Ok(value: T) | Err(error: E)

  function Bit(b: bool): int {
    if b then 1 else 0
  }

  // clampCount / clampRedisCount: a counter never goes below zero.
  function Clamp(value: int): (r: nat)
    ensures value <= r
    ensures r == value || (r == 0 && value < 0)
  {
    if value < 0 then 0 else value
  }

  // The sequence without the element at i.
  function Without<T>(s: seq<T>, i: nat): seq<T>
    requires i < |s|
  {
    s[..i] + s[i + 1..]
  }

  // The size of a set with one element put in or taken out.
  lemma SizeWith<T>(s: set<T>, x: T)
    ensures |s + {x}| == |s| + Bit(x !in s)
    ensures |s - {x}| == |s| - Bit(x in s)
  {
    if x in s {
      assert s + {x} == s && s == (s - {x}) + {x};
    } else {
      assert s - {x} == s;
    }
  }
}
