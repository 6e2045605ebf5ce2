/** Small shared vocabulary: optional values, results, instants and day offsets. */
module Common {

  /** A nullable column or an optional argument. */
  datatype Option<T> = None | Some(value: T) {
    /** The wrapped value, or `default` when there is none. */
    function GetOr(default: T): T {
      if Some? then value else default
    }
  }

  /** The outcome of an operation that can raise a domain error. */
  datatype Result<T, E> = Success(value: T) | Failure(error: E)

  /** An instant is an integer tick count; one tick is a microsecond, the resolution of a datetime. */
  type Instant = int

  const TicksPerDay: int := 86_400_000_000

  /** The tick length of `timedelta(days = n)`. */
  function Days(n: int): int {
    n * TicksPerDay
  }

  /** Python's `s or d` on an optional string: null and the empty string are falsy. */
  function StrOr(s: Option<string>, d: string): (r: string)
    ensures s.None? || s.value == "" ==> r == d
    ensures s.Some? && s.value != "" ==> r == s.value
  {
    if s.None? || s.value == "" then d else s.value
  }

  /** Python's `n or d` on an optional integer: null and zero are falsy. */
  function IntOr(n: Option<int>, d: int): (r: int)
    ensures n.None? || n.value == 0 ==> r == d
    ensures n.Some? && n.value != 0 ==> r == n.value
  {
    if n.None? || n.value == 0 then d else n.value
  }
}
