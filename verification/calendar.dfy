/**
 * The date picker's month stepping: the month shown moves one back or one
 * forward, wrapping the year at January and December.
 */
module Calendar {

  /** The picker's `view = [year, month]`. */
  datatype View = View(year: int, month: int)

  predicate Valid(v: View) {
    1 <= v.month <= 12
  }

  /** Months counted from January of year 0. */
  function Index(v: View): int {
    12 * v.year + v.month - 1
  }

  /** `_prev`: December of the year before January, otherwise the month before. */
  function Prev(v: View): (r: View)
    requires Valid(v)
    ensures Valid(r) && Index(r) == Index(v) - 1
  {
    if v.month == 1 then View(v.year - 1, 12) else View(v.year, v.month - 1)
  }

  /** `_next`: January of the year after December, otherwise the month after. */
  function Next(v: View): (r: View)
    requires Valid(v)
    ensures Valid(r) && Index(r) == Index(v) + 1
  {
    if v.month == 12 then View(v.year + 1, 1) else View(v.year, v.month + 1)
  }

  /** A valid view is determined by its month index. */
  lemma IndexInjective(a: View, b: View)
    requires Valid(a) && Valid(b) && Index(a) == Index(b)
    ensures a == b
  {
  }

  /** Stepping back and then forward, or forward and then back, returns to the same month. */
  lemma PrevNextInverse(v: View)
    requires Valid(v)
    ensures Next(Prev(v)) == v && Prev(Next(v)) == v
  {
    IndexInjective(Next(Prev(v)), v);
    IndexInjective(Prev(Next(v)), v);
  }

  /** `n` presses of the forward button. */
  function Forward(v: View, n: nat): (r: View)
    requires Valid(v)
    ensures Valid(r)
    decreases n
  {
    if n == 0 then v else Forward(Next(v), n - 1)
  }

  /** `n` presses forward move the view exactly `n` months, across any number of years. */
  lemma {:induction false} ForwardIndex(v: View, n: nat)
    requires Valid(v)
    ensures Index(Forward(v, n)) == Index(v) + n
    decreases n
  {
    if n > 0 {
      ForwardIndex(Next(v), n - 1);
    }
  }

  /** Twelve presses forward land on the same month of the next year. */
  lemma TwelveIsAYear(v: View)
    requires Valid(v)
    ensures Forward(v, 12) == View(v.year + 1, v.month)
  {
    ForwardIndex(v, 12);
    IndexInjective(Forward(v, 12), View(v.year + 1, v.month));
  }
}
