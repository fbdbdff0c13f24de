/** The values a scraped table cell can hold once pandas has parsed it, and
    the few Python operations the scraper applies to them. */
module Cells {
  import opened Options

  /** A table as `read_html` or `read_excel` returns it: rows of cells, each
      as wide as the table; `df[k]` is column `k`. */
  datatype Frame = Frame(width: nat, rows: seq<seq<Cell>>) {
    predicate WellFormed() {
      forall k :: 0 <= k < |rows| ==> |rows[k]| == width
    }
  }

  /** `str`, `int`, a finite `float`, `float('nan')` (pandas' missing value)
      and `None`. */
  datatype Cell = Text(s: string) | Int(i: int) | Real(r: real) | Nan | Null

  /** What `int(s)` and `float(s)` read from a text cell (`None` when they
      raise). Number parsing belongs to Python, not to the scraper, so it is
      a parameter of the model. */
  datatype Numerals = Numerals(intOf: string -> Option<int>, floatOf: string -> Option<real>)

  /** `isinstance(x, (int, float))`; NaN is a float. */
  predicate IsNumber(c: Cell) {
    c.Int? || c.Real? || c.Nan?
  }

  /** Python `a == b` between two cells: numbers compare by value across int
      and float, NaN equals nothing (not even NaN), a string equals only the
      same string. */
  predicate PyEq(a: Cell, b: Cell) {
    match (a, b)
    case (Text(x), Text(y)) => x == y
    case (Int(x), Int(y)) => x == y
    case (Int(x), Real(y)) => x as real == y
    case (Real(x), Int(y)) => x == y as real
    case (Real(x), Real(y)) => x == y
    case (Null, Null) => true
    case _ => false
  }

  /** `-1 * x`: numbers are negated, NaN stays NaN, a string repeated a
      negative number of times is the empty string, and `-1 * None` raises. */
  function NegOne(c: Cell): (r: Option<Cell>)
    ensures r.None? <==> c.Null?
    ensures c.Int? ==> r == Some(Int(-c.i))
    ensures c.Real? ==> r == Some(Real(-c.r))
    ensures c.Text? ==> r == Some(Text(""))
  {
    match c
    case Int(i) => Some(Int(-i))
    case Real(x) => Some(Real(-x))
    case Nan => Some(Nan)
    case Text(_) => Some(Text(""))
    case Null => None
  }

  /** `int(x)` of a float truncates toward zero. */
  function Trunc(x: real): (n: int)
    ensures x >= 0.0 ==> n as real <= x < n as real + 1.0
    ensures x < 0.0 ==> n as real - 1.0 < x <= n as real
  {
    if x >= 0.0 then x.Floor else -((-x).Floor)
  }

  /** `int(x)`; NaN and `None` raise. */
  function PyInt(c: Cell, num: Numerals): Option<int> {
    match c
    case Text(s) => num.intOf(s)
    case Int(i) => Some(i)
    case Real(x) => Some(Trunc(x))
    case Nan => None
    case Null => None
  }

  /** `float(x)`; the result is a float or NaN, and `None` raises. */
  function PyFloat(c: Cell, num: Numerals): (r: Option<Cell>)
    ensures r.Some? ==> r.value.Real? || r.value.Nan?
    ensures r.Some? && r.value.Nan? ==> c.Nan?
    ensures c.Int? ==> r == Some(Real(c.i as real))
  {
    match c
    case Text(s) => (match num.floatOf(s) case Some(x) => Some(Real(x)) case None => None)
    case Int(i) => Some(Real(i as real))
    case Real(x) => Some(Real(x))
    case Nan => Some(Nan)
    case Null => None
  }

  /** `df.fillna(0)`: a missing value becomes 0, anything else is kept.
      pandas counts both NaN and `None` as missing. */
  function FillNa(c: Cell): (r: Cell)
    ensures !r.Nan? && !r.Null?
    ensures c.Nan? || c.Null? ==> r == Int(0)
    ensures !c.Nan? && !c.Null? ==> r == c
  {
    if c.Nan? || c.Null? then Int(0) else c
  }

  /** `self.translator[self.sport].get(name, name)` for this sport's table:
      a known label maps to its canonical name, anything else (an unknown
      label, a number) is passed through. */
  function Translate(names: map<string, string>, c: Cell): (r: Cell)
    ensures c.Text? && c.s in names ==> r == Text(names[c.s])
    ensures !(c.Text? && c.s in names) ==> r == c
  {
    if c.Text? && c.s in names then Text(names[c.s]) else c
  }

  /** `float(x)` as a number, for a cell that `fillna(0)` has cleaned (so
      not NaN): `None` when it raises. */
  function FloatValue(c: Cell, num: Numerals): (r: Option<real>)
    requires !c.Nan?
    ensures c.Int? ==> r == Some(c.i as real)
    ensures c.Real? ==> r == Some(c.r)
    ensures c.Text? ==> r == num.floatOf(c.s)
    ensures c.Null? ==> r.None?
  {
    match PyFloat(c, num)
    case Some(Real(x)) => Some(x)
    case _ => None
  }
}
