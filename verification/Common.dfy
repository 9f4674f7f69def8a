/** Types shared by the components: optional values, failures, addresses, hashes and integer widths. */
module Common {

  datatype Option<+T> = None | Some(value: T)

  /** The program's `(value, error)` returns. */
  datatype Result<+T, +E> = Ok(value: T) | Err(error: E)

  /** An error is known by its message only. */
  type Error = string

  newtype byte = b: int | 0 <= b < 256

  const ADDRESS_LENGTH := 20
  const HASH_LENGTH := 32

  type Address = a: seq<byte> | |a| == ADDRESS_LENGTH witness seq(ADDRESS_LENGTH, i => 0)
  type Hash = h: seq<byte> | |h| == HASH_LENGTH witness seq(HASH_LENGTH, i => 0)

  const TWO_TO_THE_64: int := 0x1_0000000000000000

  /** The conversion of a signed 64-bit integer to an unsigned one: negative numbers wrap around. */
  function ToUint64(n: int): nat {
    if n < 0 then n % TWO_TO_THE_64 else n
  }

  /** Reading a missing key yields the zero value. */
  function GetOrZero(m: map<int, int>, key: int): int {
    if key in m then m[key] else 0
  }

  /** The first moment of 1970, in nanoseconds since the zero time, the start of year 1. */
  const EPOCH: int := 62_135_596_800_000_000_000

  /** A block header as the program keeps it; the timestamp is in nanoseconds since the zero time. */
  datatype Header = Header(chainID: int, hash: Hash, number: int, timestamp: int)

  lemma EmptyOrMember<T>(s: set<T>)
    ensures s == {} || exists x :: x in s
  {
    if forall x :: x !in s {
      assert s == {};
    }
  }

  ghost function Member<T>(s: set<T>): T
    requires s != {}
    ensures Member(s) in s
  {
    EmptyOrMember(s);
    var x :| x in s;
    x
  }

  /** A loop over a set or the keys of a map visits its members in any order. */
  method AnyMember<T(==)>(s: set<T>) returns (x: T)
    requires s != {}
    ensures x in s
  {
    EmptyOrMember(s);
    x :| x in s;
  }
}
