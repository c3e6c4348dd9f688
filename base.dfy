/** Small value types shared by the whole model: optional values and Rust's `i32`. */
module Base {

  /** Rust's `Option<T>`. */
  datatype Option<T> = None | Some(value: T) {
    /** `unwrap_or`: the carried value, or `default` when there is none. */
    function GetOr(default: T): T {
      if Some? then value else default
    }
  }

  const I32Min: int := -0x8000_0000
  const I32Max: int := 0x7fff_ffff

  /** The values of Rust's `i32` and of a PostgreSQL `INT` column. */
  type i32 = x: int | I32Min <= x <= I32Max

  /**
   * `a + b` on `i32` as a release build computes it: the sum is taken modulo 2^32
   * and read back as a two's-complement number.
   */
  function WrappingAdd(a: i32, b: i32): (r: i32)
    ensures I32Min <= a + b <= I32Max ==> r == a + b
    ensures a + b > I32Max ==> r == a + b - 0x1_0000_0000 && r < 0
  {
    (a + b - I32Min) % 0x1_0000_0000 + I32Min
  }

  /** Updating a union at a key is updating its right-hand side there. */
  lemma UnionUpdate<K, V>(a: map<K, V>, b: map<K, V>, k: K, v: V)
    ensures (a + b)[k := v] == a + b[k := v]
  {
  }
}
