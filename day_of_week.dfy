/**
 * `DateUtil.DayOfWeek`: the seven days, each carrying the number
 * `java.util.Calendar` gives it (Sunday 1 .. Saturday 7), a renumbering from
 * a chosen start, and the lookup of a day by its number.
 */
module Weekdays {
  import opened Wrappers
  import opened JavaTypes

  datatype DayOfWeek = Sunday | Monday | Tuesday | Wednesday | Thursday | Friday | Saturday {

    /** `getValue()`: `Calendar.SUNDAY` (1) .. `Calendar.SATURDAY` (7). */
    function Value(): Int {
      match this
      case Sunday => 1
      case Monday => 2
      case Tuesday => 3
      case Wednesday => 4
      case Thursday => 5
      case Friday => 6
      case Saturday => 7
    }

    /** `getValue(start)`: the number when Sunday counts as `start`, in Java `int` arithmetic. */
    function ValueFrom(start: Int): (r: Int)
      ensures (r - (start + Value() - 1)) % 0x1_0000_0000 == 0
      ensures start <= INT_MAX - 6 ==> r == start + Value() - 1
    {
      WrapInt(Value() - 1 + start)
    }
  }

  /** `values()`, in declaration order. */
  const VALUES: seq<DayOfWeek> := [Sunday, Monday, Tuesday, Wednesday, Thursday, Friday, Saturday]

  /** Each day sits in `values()` at its number less one, so the numbers are 1..7 and distinct. */
  lemma Listed(d: DayOfWeek)
    ensures 1 <= d.Value() <= 7 && VALUES[d.Value() - 1] == d
  {
  }

  /** Renumbering from 1 gives `getValue()` back. */
  lemma ValueFromOne(d: DayOfWeek)
    ensures d.ValueFrom(1) == d.Value()
  {
  }

  /**
   * From any start that leaves room for six more, the renumbered week is
   * consecutive: Sunday is `start` and Saturday `start + 6`.
   */
  lemma ValueFromConsecutive(start: Int, d: DayOfWeek)
    requires start <= INT_MAX - 6
    ensures d.ValueFrom(start) == start + d.Value() - 1
    ensures start <= d.ValueFrom(start) <= start + 6
  {
  }

  /** Past the top of `int` the renumbering wraps around, as Java's `+` does. */
  lemma ValueFromWraps()
    ensures Saturday.ValueFrom(INT_MAX) == INT_MIN + 5
  {
  }

  /**
   * `getDayOfWeek(int)`: the first day in `values()` whose number is
   * `value`; null when there is none.
   */
  method GetDayOfWeek(value: int) returns (r: Option<DayOfWeek>)
    ensures r.Some? <==> 1 <= value <= 7
    ensures r.Some? ==> r.value.Value() == value
    ensures forall d: DayOfWeek :: d.Value() == value ==> r == Some(d)
  {
    var k := 0;
    while k < |VALUES|
      invariant 0 <= k <= |VALUES|
      invariant !(1 <= value <= k)
    {
      if VALUES[k].Value() == value {
        forall d: DayOfWeek | d.Value() == value
          ensures d == VALUES[k]
        {
          Listed(d);
          Listed(VALUES[k]);
        }
        return Some(VALUES[k]);
      }
      k := k + 1;
    }
    forall d: DayOfWeek
      ensures d.Value() != value
    {
      Listed(d);
    }
    r := None;
  }
}
