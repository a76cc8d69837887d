/** The conversion of result-set objects to the column types announced by the meta data, in
    JDBCScanner.java:104-126. */
module ResultConversion {
  import opened Wrappers

  /** A column value: `null`, an integral number of any Java class, a decimal, a finite binary
      floating-point number, or some other object. */
  datatype Cell =
    | Null
    | Whole(value: int)
    | Decimal(amount: real)
    | Floating(approx: real)
    | Object(class_: string, id: int)

  /** The element class of a column array. */
  datatype Kind = Short | Integer | Long | Float | Double | Other(class_: string)

  predicate IsIntegral(kind: Kind) {
    kind.Short? || kind.Integer? || kind.Long?
  }

  predicate IsNumber(cell: Cell) {
    cell.Whole? || cell.Decimal? || cell.Floating?
  }

  function Modulus(kind: Kind): (m: int)
    requires IsIntegral(kind)
    ensures m > 0 && m % 2 == 0
  {
    match kind
    case Short => 0x1_0000
    case Integer => 0x1_0000_0000
    case Long => 0x1_0000_0000_0000_0000
  }

  predicate InRange(kind: Kind, v: int)
    requires IsIntegral(kind)
  {
    -Modulus(kind) / 2 <= v < Modulus(kind) / 2
  }

  /** Keeping the low-order bits, read as two's complement. */
  function Wrap(m: int, v: int): int
    requires m > 0
  {
    if v % m < m / 2 then v % m else v % m - m
  }

  function TowardZero(r: real): int {
    if r >= 0.0 then r.Floor else -((-r).Floor)
  }

  function Clamp(kind: Kind, v: int): int
    requires IsIntegral(kind)
  {
    if InRange(kind, v) then v else if v < 0 then -Modulus(kind) / 2 else Modulus(kind) / 2 - 1
  }

  /** `shortValue`, `intValue` and `longValue`. Decimals drop their fraction and keep the low bits;
      floating-point numbers saturate, at `int` for the two narrower types. */
  function IntegralValue(kind: Kind, cell: Cell): int
    requires IsIntegral(kind) && IsNumber(cell)
  {
    match cell
    case Whole(v) => Wrap(Modulus(kind), v)
    case Decimal(r) => Wrap(Modulus(kind), TowardZero(r))
    case Floating(r) => Wrap(Modulus(kind), Clamp(if kind.Long? then Long else Integer, TowardZero(r)))
  }

  /** What ends up in the column array; `None` when the cast or the array store throws. How numbers
      become `Float` and `Double`, and which objects fit another class, is up to `library`. */
  function Convert(library: (Kind, Cell) -> Option<Cell>, kind: Kind, cell: Cell): Option<Cell> {
    if cell.Null? then Some(Null)
    else if kind.Other? then library(kind, cell)
    else if !IsNumber(cell) then None
    else if IsIntegral(kind) then Some(Whole(IntegralValue(kind, cell)))
    else library(kind, cell)
  }

  /** `v` moved by `q` turns of the type's range. */
  function Turned(v: int, q: int, m: int): int {
    v + q * m
  }

  lemma WrapFits(m: int, v: int)
    requires m > 0 && m % 2 == 0
    ensures -m / 2 <= Wrap(m, v) < m / 2
    ensures exists q :: Wrap(m, v) == Turned(v, q, m)
  {
    var q := v / m;
    assert v == q * m + v % m;
    if v % m < m / 2 {
      assert Wrap(m, v) == Turned(v, -q, m);
    } else {
      assert Wrap(m, v) == Turned(v, -q - 1, m);
    }
  }

  /** Integral values arrive unchanged exactly when the column type can hold them; otherwise the
      result is the value of that type congruent to them. */
  lemma IntegralExactIff(kind: Kind, v: int)
    requires IsIntegral(kind)
    ensures IntegralValue(kind, Whole(v)) == v <==> InRange(kind, v)
    ensures InRange(kind, IntegralValue(kind, Whole(v)))
    ensures exists q :: IntegralValue(kind, Whole(v)) == Turned(v, q, Modulus(kind))
  {
    var m := Modulus(kind);
    WrapFits(m, v);
    if 0 <= v < m / 2 {
      assert v % m == v;
    } else if -m / 2 <= v < 0 {
      assert v % m == v + m;
    }
  }

  // ----- What arrives in a column

  /** The bounds of the column types, by name. */
  predicate Fits(kind: Kind, v: int)
    requires IsIntegral(kind)
  {
    match kind
    case Short => -32768 <= v <= 32767
    case Integer => -2147483648 <= v <= 2147483647
    case Long => -9223372036854775808 <= v <= 9223372036854775807
  }

  lemma FitsIffInRange(kind: Kind, v: int)
    requires IsIntegral(kind)
    ensures Fits(kind, v) <==> InRange(kind, v)
  {
  }

  /** A null stays a null in a column of any type, and in an integral column nothing else becomes one. */
  lemma NullStays(library: (Kind, Cell) -> Option<Cell>, kind: Kind, cell: Cell)
    ensures Convert(library, kind, Null) == Some(Null)
    ensures IsIntegral(kind) ==> (Convert(library, kind, cell) == Some(Null) <==> cell == Null)
  {
  }

  /** A whole number arrives in an integral column as itself exactly when the column can hold it; else as
      the number of that type it is congruent to. */
  lemma WholeArrives(library: (Kind, Cell) -> Option<Cell>, kind: Kind, v: int)
    requires IsIntegral(kind)
    ensures Convert(library, kind, Whole(v)) == Some(Whole(v)) <==> Fits(kind, v)
    ensures exists w, q ::
      Convert(library, kind, Whole(v)) == Some(Whole(w)) && Fits(kind, w) && w == Turned(v, q, Modulus(kind))
    ensures Modulus(kind) == match kind
      case Short => 65536
      case Integer => 4294967296
      case Long => 18446744073709551616
  {
    IntegralExactIff(kind, v);
    FitsIffInRange(kind, v);
    FitsIffInRange(kind, IntegralValue(kind, Whole(v)));
    var q :| IntegralValue(kind, Whole(v)) == Turned(v, q, Modulus(kind));
    var w := IntegralValue(kind, Whole(v));
    assert Convert(library, kind, Whole(v)) == Some(Whole(w)) && Fits(kind, w) && w == Turned(v, q, Modulus(kind));
  }

  /** What is no number is refused by every numeric column. */
  lemma OnlyNumbersConvert(library: (Kind, Cell) -> Option<Cell>, kind: Kind, cell: Cell)
    requires !kind.Other? && cell.Object?
    ensures Convert(library, kind, cell) == None
  {
  }

  /** `n` is `r` without its fraction, on the side of zero. */
  predicate Truncates(r: real, n: int) {
    if r >= 0.0 then 0 <= n && n as real <= r < n as real + 1.0
    else n <= 0 && n as real - 1.0 < r <= n as real
  }

  /** A decimal arrives as its whole part would: it loses its fraction toward zero and nothing else. */
  lemma DecimalArrives(library: (Kind, Cell) -> Option<Cell>, kind: Kind, r: real, n: int)
    requires IsIntegral(kind) && Truncates(r, n)
    ensures Convert(library, kind, Decimal(r)) == Convert(library, kind, Whole(n))
    ensures Fits(kind, n) ==> Convert(library, kind, Decimal(r)) == Some(Whole(n))
  {
    TruncatesTowardZero(r, n);
    FitsIffInRange(kind, n);
    IntegralExactIff(kind, n);
  }

  lemma TruncatesTowardZero(r: real, n: int)
    requires Truncates(r, n)
    ensures TowardZero(r) == n
  {
  }

  /** A floating-point number too, after saturating at the bounds of `long` for a `long` column, and at those
      of `int` for the two narrower ones. */
  lemma FloatingArrives(library: (Kind, Cell) -> Option<Cell>, kind: Kind, r: real, n: int)
    requires IsIntegral(kind) && Truncates(r, n)
    ensures Fits(kind, n) ==> Convert(library, kind, Floating(r)) == Some(Whole(n))
    ensures Convert(library, kind, Floating(r)) == Convert(library, kind, Whole(
      if kind.Long? then
        if n > 9223372036854775807 then 9223372036854775807
        else if n < -9223372036854775808 then -9223372036854775808 else n
      else if n > 2147483647 then 2147483647 else if n < -2147483648 then -2147483648 else n))
  {
    TruncatesTowardZero(r, n);
    FitsIffInRange(kind, n);
    IntegralExactIff(kind, n);
  }
}
