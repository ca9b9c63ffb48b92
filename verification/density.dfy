/** The shift analysis: each sale is binned into an hour of the day and a
    shift, and the sales are counted per (weekday, shift) and per hour. */
module Density {
  import opened Wrappers
  import opened Sequences
  import opened Transactions

  /** The five shifts of `get_time_slot`. */
  datatype Shift = Morning | LunchBreak | Afternoon | EveningRush | NightDuty

  /** The label `get_time_slot` returns for a shift. */
  function Label(s: Shift): string
  {
    match s
    case Morning => "1. Morning (08-12)"
    case LunchBreak => "2. Lunch Break (12-14)"
    case Afternoon => "3. Afternoon (14-17)"
    case EveningRush => "4. Evening Rush (17-20)"
    case NightDuty => "5. Night/Duty"
  }

  /** `get_time_slot`: total over all hours; what no day shift covers is
      night duty. */
  function TimeSlot(hour: int): (s: Shift)
    ensures s == NightDuty <==> hour < 8 || 20 <= hour
  {
    if 8 <= hour < 12 then Morning
    else if 12 <= hour < 14 then LunchBreak
    else if 14 <= hour < 17 then Afternoon
    else if 17 <= hour < 20 then EveningRush
    else NightDuty
  }

  /** `shift_order`, the order the heatmap lays the shifts out in. */
  const ShiftOrder: seq<string> := ["1. Morning (08-12)", "2. Lunch Break (12-14)",
    "3. Afternoon (14-17)", "4. Evening Rush (17-20)", "5. Night/Duty"]

  const AllShifts: seq<Shift> := [Morning, LunchBreak, Afternoon, EveningRush, NightDuty]

  function DigitValue(c: char): int
  {
    c as int - '0' as int
  }

  /** The hour window a label prints at its end as "(HH-HH)", if any. */
  function PrintedWindow(text: string): Option<(int, int)>
  {
    var n := |text|;
    if n >= 7 && text[n - 7] == '(' && text[n - 4] == '-' && text[n - 1] == ')' then
      Some((10 * DigitValue(text[n - 6]) + DigitValue(text[n - 5]),
            10 * DigitValue(text[n - 3]) + DigitValue(text[n - 2])))
    else None
  }

  /** The label of shift `s` prints a window that contains hour `h`. */
  predicate InPrintedWindow(s: Shift, h: int)
  {
    var w := PrintedWindow(Label(s));
    w.Some? && w.value.0 <= h < w.value.1
  }

  /** `shift_order` lists the labels of the five shifts, in order, once each. */
  lemma ShiftOrderListsLabels()
    ensures |ShiftOrder| == |AllShifts| == 5
    ensures forall i :: 0 <= i < |AllShifts| ==> Label(AllShifts[i]) == ShiftOrder[i]
    ensures forall i, j :: 0 <= i < j < |ShiftOrder| ==> ShiftOrder[i] != ShiftOrder[j]
  {
    assert ShiftOrder[0][0] != ShiftOrder[1][0] && ShiftOrder[0][0] != ShiftOrder[2][0];
    assert ShiftOrder[0][0] != ShiftOrder[3][0] && ShiftOrder[0][0] != ShiftOrder[4][0];
    assert ShiftOrder[1][0] != ShiftOrder[2][0] && ShiftOrder[1][0] != ShiftOrder[3][0];
    assert ShiftOrder[1][0] != ShiftOrder[4][0] && ShiftOrder[2][0] != ShiftOrder[3][0];
    assert ShiftOrder[2][0] != ShiftOrder[4][0] && ShiftOrder[3][0] != ShiftOrder[4][0];
  }

  /** The position of a shift in `shift_order`. */
  function ShiftIndex(s: Shift): (i: nat)
    ensures i < |AllShifts| && AllShifts[i] == s
  {
    match s
    case Morning => 0
    case LunchBreak => 1
    case Afternoon => 2
    case EveningRush => 3
    case NightDuty => 4
  }

  /** Every label `get_time_slot` returns is one of the five of
      `shift_order`, each is returned for some hour of the day, and the five
      are distinct. */
  lemma {:induction false} TimeSlotHasFiveLabels()
    ensures (set h | 0 <= h < 24 :: Label(TimeSlot(h))) == set i | 0 <= i < |ShiftOrder| :: ShiftOrder[i]
    ensures forall i :: 0 <= i < |AllShifts| ==> Label(AllShifts[i]) == ShiftOrder[i]
    ensures forall i, j :: 0 <= i < j < |ShiftOrder| ==> ShiftOrder[i] != ShiftOrder[j]
  {
    ShiftOrderListsLabels();
    var hit := set h | 0 <= h < 24 :: Label(TimeSlot(h));
    var listed := set i | 0 <= i < |ShiftOrder| :: ShiftOrder[i];
    forall x | x in hit ensures x in listed {
      var h :| 0 <= h < 24 && x == Label(TimeSlot(h));
      var i := ShiftIndex(TimeSlot(h));
      assert ShiftOrder[i] == x;
    }
    var starts := [8, 12, 14, 17, 0];
    forall x | x in listed ensures x in hit {
      var i :| 0 <= i < |ShiftOrder| && x == ShiftOrder[i];
      assert TimeSlot(starts[i]) == AllShifts[i];
      assert Label(TimeSlot(starts[i])) in hit;
    }
  }

  /** The shift of hour `h` is the one whose label prints a window
      containing `h`; night duty prints none and takes every hour no other
      label's window contains. */
  lemma {:induction false} TimeSlotAgreesWithLabels(h: int)
    ensures PrintedWindow(Label(TimeSlot(h))).Some? ==> InPrintedWindow(TimeSlot(h), h)
    ensures forall s: Shift :: InPrintedWindow(s, h) ==> TimeSlot(h) == s
    ensures TimeSlot(h) == NightDuty <==> PrintedWindow(Label(TimeSlot(h))).None?
    ensures TimeSlot(h) == NightDuty <==> forall s: Shift :: !InPrintedWindow(s, h)
  {
    assert PrintedWindow(Label(Morning)) == Some((8, 12));
    assert PrintedWindow(Label(LunchBreak)) == Some((12, 14));
    assert PrintedWindow(Label(Afternoon)) == Some((14, 17));
    assert PrintedWindow(Label(EveningRush)) == Some((17, 20));
    assert PrintedWindow(Label(NightDuty)) == None;
    if TimeSlot(h) != NightDuty {
      assert InPrintedWindow(TimeSlot(h), h);
    }
  }

  /** `Series.dt.day_name()`; the calendar computation itself is a parameter
      of the heatmap. */
  datatype Weekday = Monday | Tuesday | Wednesday | Thursday | Friday | Saturday | Sunday

  const AllDays: seq<Weekday> := [Monday, Tuesday, Wednesday, Thursday, Friday, Saturday, Sunday]

  /** How often `k` occurs in `ks`. */
  function Occurrences<K(==)>(ks: seq<K>, k: K): nat
  {
    if ks == [] then 0 else (if ks[0] == k then 1 else 0) + Occurrences(ks[1..], k)
  }

  /** Reference definition of `groupby(key)['Product_Name'].count()` at
      group `k`: the rows of group `k` whose product is not missing. */
  function CountIn<K(==)>(rows: seq<Row>, key: Row -> Option<K>, k: K): nat
  {
    if rows == [] then 0
    else (if key(rows[0]) == Some(k) && rows[0].product.Some? then 1 else 0) + CountIn(rows[1..], key, k)
  }

  lemma {:induction false} NoGroupNoCount<K>(rows: seq<Row>, key: Row -> Option<K>, k: K)
    requires !HasKey(rows, key, k)
    ensures CountIn(rows, key, k) == 0
  {
    if rows != [] {
      HasKeySplit(rows, key, k);
      NoGroupNoCount(rows[1..], key, k);
    }
  }

  /** `groupby(key)['Product_Name'].count()`: one entry per group a row
      belongs to (rows with a missing key belong to none), holding the
      number of its rows with a product. */
  function GroupCount<K(==,!new)>(rows: seq<Row>, key: Row -> Option<K>): (m: map<K, nat>)
    ensures forall k :: k in m <==> HasKey(rows, key, k)
    ensures forall k :: k in m ==> m[k] == CountIn(rows, key, k)
  {
    if rows == [] then map[]
    else
      var rest := GroupCount(rows[1..], key);
      assert forall k :: HasKey(rows, key, k) <==> key(rows[0]) == Some(k) || HasKey(rows[1..], key, k) by {
        forall k ensures HasKey(rows, key, k) <==> key(rows[0]) == Some(k) || HasKey(rows[1..], key, k) {
          HasKeySplit(rows, key, k);
        }
      }
      match key(rows[0])
      case None => rest
      case Some(k) =>
        var one := if rows[0].product.Some? then 1 else 0;
        if k in rest then rest[k := one + rest[k]]
        else
          NoGroupNoCount(rows[1..], key, k);
          rest[k := one]
  }

  /** The value the chart shows for group `k`: its count, 0 where absent. */
  function CountOr0<K(==)>(m: map<K, nat>, k: K): nat
  {
    if k in m then m[k] else 0
  }

  /** The sum of the counts shown for the groups `ks`. */
  function SumCounts<K(==)>(m: map<K, nat>, ks: seq<K>): nat
  {
    if ks == [] then 0 else CountOr0(m, ks[0]) + SumCounts(m, ks[1..])
  }

  /** The sum over the groups `ks` of the reference counts. */
  function SumCountIn<K(==)>(rows: seq<Row>, key: Row -> Option<K>, ks: seq<K>): nat
  {
    if ks == [] then 0 else CountIn(rows, key, ks[0]) + SumCountIn(rows, key, ks[1..])
  }

  /** The rows that belong to a group and have a product. */
  function KeyedProducts<K(==)>(rows: seq<Row>, key: Row -> Option<K>): nat
  {
    if rows == [] then 0
    else (if key(rows[0]).Some? && rows[0].product.Some? then 1 else 0) + KeyedProducts(rows[1..], key)
  }

  /** The rows whose product is not missing. */
  function ProductCount(rows: seq<Row>): nat
  {
    if rows == [] then 0 else (if rows[0].product.Some? then 1 else 0) + ProductCount(rows[1..])
  }

  lemma {:induction false} SumCountInFirstRow<K>(rows: seq<Row>, key: Row -> Option<K>, ks: seq<K>)
    requires rows != []
    ensures SumCountIn(rows, key, ks) ==
      SumCountIn(rows[1..], key, ks)
      + (if key(rows[0]).Some? && rows[0].product.Some? then Occurrences(ks, key(rows[0]).value) else 0)
  {
    if ks != [] {
      SumCountInFirstRow(rows, key, ks[1..]);
    }
  }

  /** When every group a row can fall in is listed once in `ks`, the counts
      over `ks` add up to the grouped rows that have a product. */
  lemma {:induction false} SumCountInTotal<K>(rows: seq<Row>, key: Row -> Option<K>, ks: seq<K>)
    requires forall i :: 0 <= i < |rows| && key(rows[i]).Some? ==> Occurrences(ks, key(rows[i]).value) == 1
    ensures SumCountIn(rows, key, ks) == KeyedProducts(rows, key)
  {
    if rows == [] {
      if ks != [] {
        SumCountInTotal(rows, key, ks[1..]);
      }
    } else {
      SumCountInFirstRow(rows, key, ks);
      assert forall i :: 0 <= i < |rows| - 1 ==> rows[1..][i] == rows[i + 1];
      SumCountInTotal(rows[1..], key, ks);
    }
  }

  lemma {:induction false} SumCountsOfGroupCount<K(!new)>(rows: seq<Row>, key: Row -> Option<K>, ks: seq<K>)
    ensures SumCounts(GroupCount(rows, key), ks) == SumCountIn(rows, key, ks)
  {
    if ks != [] {
      if !HasKey(rows, key, ks[0]) {
        NoGroupNoCount(rows, key, ks[0]);
      }
      SumCountsOfGroupCount(rows, key, ks[1..]);
    }
  }

  lemma {:induction false} KeyedProductsWhenAllKeyed<K>(rows: seq<Row>, key: Row -> Option<K>)
    requires forall i :: 0 <= i < |rows| ==> key(rows[i]).Some?
    ensures KeyedProducts(rows, key) == ProductCount(rows)
  {
    if rows != [] {
      assert forall i :: 0 <= i < |rows| - 1 ==> rows[1..][i] == rows[i + 1];
      KeyedProductsWhenAllKeyed(rows[1..], key);
    }
  }

  /** The (day, shift) group of a row; none for a missing date. */
  function DayShiftOf(weekday: Stamp -> Weekday, row: Row): Option<(Weekday, Shift)>
  {
    if row.date.Some? then Some((weekday(row.date.value), TimeSlot(row.date.value.hour))) else None
  }

  /** The hour group of a row; none for a missing date. */
  function HourOf(row: Row): Option<Hour>
  {
    if row.date.Some? then Some(row.date.value.hour) else None
  }

  /** `heatmap_data`: sales counted per (weekday, shift). */
  function Heatmap(rows: seq<Row>, weekday: Stamp -> Weekday): (m: map<(Weekday, Shift), nat>)
    ensures forall k :: k in m <==>
      (exists i :: 0 <= i < |rows| && rows[i].date.Some? && k == (weekday(rows[i].date.value), TimeSlot(rows[i].date.value.hour)))
    ensures forall k :: k in m ==> m[k] == CountIn(rows, row => DayShiftOf(weekday, row), k)
  {
    GroupCount(rows, row => DayShiftOf(weekday, row))
  }

  /** `hourly_trend`: sales counted per hour of the day. */
  function HourlyTrend(rows: seq<Row>): (m: map<Hour, nat>)
    ensures forall h :: h in m <==> exists i :: 0 <= i < |rows| && rows[i].date.Some? && h == rows[i].date.value.hour
    ensures forall h :: h in m ==> m[h] == CountIn(rows, HourOf, h)
  {
    GroupCount(rows, HourOf)
  }

  /** Every (day, shift) pair: the heatmap's 7 × 5 grid. */
  function Cross(days: seq<Weekday>, shifts: seq<Shift>): seq<(Weekday, Shift)>
  {
    if days == [] then [] else Tagged(days[0], shifts) + Cross(days[1..], shifts)
  }

  function Tagged(d: Weekday, shifts: seq<Shift>): seq<(Weekday, Shift)>
  {
    if shifts == [] then [] else [(d, shifts[0])] + Tagged(d, shifts[1..])
  }

  /** The hours lo, lo + 1, ..., 23. */
  function HoursFrom(lo: nat): seq<Hour>
    requires lo <= 24
    decreases 24 - lo
  {
    if lo == 24 then [] else [lo] + HoursFrom(lo + 1)
  }

  lemma {:induction false} OccurrencesConcat<K>(a: seq<K>, b: seq<K>, k: K)
    ensures Occurrences(a + b, k) == Occurrences(a, k) + Occurrences(b, k)
  {
    if a == [] {
      assert a + b == b;
    } else {
      assert (a + b)[0] == a[0] && (a + b)[1..] == a[1..] + b;
      OccurrencesConcat(a[1..], b, k);
    }
  }

  lemma {:induction false} OccurrencesTagged(d0: Weekday, shifts: seq<Shift>, d: Weekday, s: Shift)
    ensures Occurrences(Tagged(d0, shifts), (d, s)) == if d == d0 then Occurrences(shifts, s) else 0
  {
    if shifts != [] {
      OccurrencesTagged(d0, shifts[1..], d, s);
    }
  }

  lemma {:induction false} OccurrencesCross(days: seq<Weekday>, shifts: seq<Shift>, d: Weekday, s: Shift)
    requires Occurrences(shifts, s) == 1
    ensures Occurrences(Cross(days, shifts), (d, s)) == Occurrences(days, d)
  {
    if days != [] {
      OccurrencesConcat(Tagged(days[0], shifts), Cross(days[1..], shifts), (d, s));
      OccurrencesTagged(days[0], shifts, d, s);
      OccurrencesCross(days[1..], shifts, d, s);
    }
  }

  lemma {:induction false} OccurrencesHoursFrom(lo: nat, h: Hour)
    requires lo <= 24
    ensures Occurrences(HoursFrom(lo), h) == if lo <= h then 1 else 0
    decreases 24 - lo
  {
    if lo < 24 {
      OccurrencesHoursFrom(lo + 1, h);
    }
  }

  /** An element of a list without repeats occurs in it once. */
  lemma {:induction false} OccursOnceWithoutRepeats<K>(ks: seq<K>, k: K)
    requires k in ks
    requires NoDuplicates(ks)
    ensures Occurrences(ks, k) == 1
  {
    if ks[0] == k {
      assert k !in ks[1..] by {
        forall i | 0 <= i < |ks| - 1 ensures ks[1..][i] != k {
          assert ks[1..][i] == ks[i + 1];
        }
      }
      OccursNotWhenAbsent(ks[1..], k);
    } else {
      assert k in ks[1..];
      OccursOnceWithoutRepeats(ks[1..], k);
    }
  }

  lemma {:induction false} OccursNotWhenAbsent<K>(ks: seq<K>, k: K)
    requires k !in ks
    ensures Occurrences(ks, k) == 0
  {
    if ks != [] {
      assert k !in ks[1..] by {
        forall i | 0 <= i < |ks| - 1 ensures ks[1..][i] != k {
          assert ks[1..][i] == ks[i + 1];
        }
      }
      OccursNotWhenAbsent(ks[1..], k);
    }
  }

  lemma DayAndShiftListedOnce(d: Weekday, s: Shift)
    ensures Occurrences(Cross(AllDays, AllShifts), (d, s)) == 1
  {
    OccursOnceWithoutRepeats(AllShifts, s);
    OccursOnceWithoutRepeats(AllDays, d);
    OccurrencesCross(AllDays, AllShifts, d, s);
  }

  /** The heatmap's 35 cells add up to the number of sales with a product,
      when every row is dated (as every cleaned row is). */
  lemma {:induction false} HeatmapCountsAllProducts(rows: seq<Row>, weekday: Stamp -> Weekday)
    requires forall i :: 0 <= i < |rows| ==> rows[i].date.Some?
    ensures SumCounts(Heatmap(rows, weekday), Cross(AllDays, AllShifts)) == ProductCount(rows)
  {
    var key := row => DayShiftOf(weekday, row);
    var ks := Cross(AllDays, AllShifts);
    forall i | 0 <= i < |rows| && key(rows[i]).Some?
      ensures Occurrences(ks, key(rows[i]).value) == 1
    {
      DayAndShiftListedOnce(key(rows[i]).value.0, key(rows[i]).value.1);
    }
    SumCountsOfGroupCount(rows, key, ks);
    SumCountInTotal(rows, key, ks);
    KeyedProductsWhenAllKeyed(rows, key);
  }

  /** The hourly trend's 24 points add up to the number of sales with a
      product, when every row is dated. */
  lemma {:induction false} HourlyTrendCountsAllProducts(rows: seq<Row>)
    requires forall i :: 0 <= i < |rows| ==> rows[i].date.Some?
    ensures SumCounts(HourlyTrend(rows), HoursFrom(0)) == ProductCount(rows)
  {
    var ks := HoursFrom(0);
    forall i | 0 <= i < |rows| && HourOf(rows[i]).Some?
      ensures Occurrences(ks, HourOf(rows[i]).value) == 1
    {
      OccurrencesHoursFrom(0, HourOf(rows[i]).value);
    }
    SumCountsOfGroupCount(rows, HourOf, ks);
    SumCountInTotal(rows, HourOf, ks);
    KeyedProductsWhenAllKeyed(rows, HourOf);
  }
}
