/** The difficulty clock: the year-indexed spawn delay table and the number
    of year increments a change_year task makes. */
module Difficulty {

  /** The year the game starts in (main.py YEAR). */
  const StartYear: int := 1957

  /** Resumptions between two year increments (change_year sleeps 15 ticks). */
  const TicksPerYear: nat := 15

  /** Shooting is unlocked strictly after this year. */
  const GunYear: int := 2020

  /** Spawn delay, in ticks, of the garbage spawner for a given year. */
  function GarbageDelayTics(year: int): (d: nat)
    ensures d in {30, 20, 14, 10, 8, 6, 2}
    ensures year < 1961 ==> d == 30
    ensures year >= 2020 ==> d == 2
  {
    if year < 1961 then 30
    else if year < 1969 then 20
    else if year < 1981 then 14
    else if year < 1995 then 10
    else if year < 2010 then 8
    else if year < 2020 then 6
    else 2
  }

  /** One row of a delay table: years strictly below `until` get `delay`. */
  datatype Bracket = Bracket(until: int, delay: nat)

  /** The delay table as data: brackets in increasing year order, and the
      delay held for every later year. */
  const Schedule: seq<Bracket> :=
    [Bracket(1961, 30), Bracket(1969, 20), Bracket(1981, 14),
     Bracket(1995, 10), Bracket(2010, 8), Bracket(2020, 6)]
  const FinalDelay: nat := 2

  /** Delay of the first bracket whose bound lies above `year`. */
  function Lookup(table: seq<Bracket>, final: nat, year: int): nat
  {
    if table == [] then final
    else if year < table[0].until then table[0].delay
    else Lookup(table[1..], final, year)
  }

  /** Brackets grow in year and shrink (weakly) in delay, down to `final`. */
  ghost predicate WellFormed(table: seq<Bracket>, final: nat) {
    && (forall i, j :: 0 <= i < j < |table| ==> table[i].until < table[j].until)
    && (forall i, j :: 0 <= i < j < |table| ==> table[i].delay >= table[j].delay)
    && (forall i :: 0 <= i < |table| ==> table[i].delay >= final)
  }

  /** A well-formed table gives a non-increasing delay as the year grows. */
  lemma {:induction false} LookupNonIncreasing(table: seq<Bracket>, final: nat, y1: int, y2: int)
    requires WellFormed(table, final)
    requires y1 <= y2
    ensures Lookup(table, final, y2) <= Lookup(table, final, y1)
  {
    if table == [] {
    } else if y1 < table[0].until {
      if y2 >= table[0].until {
        LookupBoundedByHead(table[1..], final, table[0].delay, y2);
      }
    } else {
      assert WellFormed(table[1..], final);
      LookupNonIncreasing(table[1..], final, y1, y2);
    }
  }

  /** Every delay the table can give is at most `bound` when all its entries are. */
  lemma {:induction false} LookupBoundedByHead(table: seq<Bracket>, final: nat, bound: nat, year: int)
    requires final <= bound
    requires forall i :: 0 <= i < |table| ==> table[i].delay <= bound
    ensures Lookup(table, final, year) <= bound
  {
    if table != [] && year >= table[0].until {
      LookupBoundedByHead(table[1..], final, bound, year);
    }
  }

  /** The if-chain of the spawner agrees with the table for every year. */
  lemma DelayMatchesSchedule(year: int)
    ensures GarbageDelayTics(year) == Lookup(Schedule, FinalDelay, year)
  {
    var t6: seq<Bracket> := [];
    var t5 := [Bracket(2020, 6)] + t6;
    var t4 := [Bracket(2010, 8)] + t5;
    var t3 := [Bracket(1995, 10)] + t4;
    var t2 := [Bracket(1981, 14)] + t3;
    var t1 := [Bracket(1969, 20)] + t2;
    assert Schedule == [Bracket(1961, 30)] + t1;
    assert t5[1..] == t6 && t4[1..] == t5 && t3[1..] == t4 && t2[1..] == t3 && t1[1..] == t2;
    assert Lookup(t5, FinalDelay, year) == if year < 2020 then 6 else 2;
    assert Lookup(t4, FinalDelay, year) == if year < 2010 then 8 else Lookup(t5, FinalDelay, year);
    assert Lookup(t3, FinalDelay, year) == if year < 1995 then 10 else Lookup(t4, FinalDelay, year);
    assert Lookup(t2, FinalDelay, year) == if year < 1981 then 14 else Lookup(t3, FinalDelay, year);
    assert Lookup(t1, FinalDelay, year) == if year < 1969 then 20 else Lookup(t2, FinalDelay, year);
    assert ([Bracket(1961, 30)] + t1)[1..] == t1;
  }

  /** The spawn delay never grows as the years pass. */
  lemma DelayNonIncreasing(y1: int, y2: int)
    requires y1 <= y2
    ensures GarbageDelayTics(y2) <= GarbageDelayTics(y1)
  {
    DelayMatchesSchedule(y1);
    DelayMatchesSchedule(y2);
    ScheduleWellFormed();
    LookupNonIncreasing(Schedule, FinalDelay, y1, y2);
  }

  lemma ScheduleWellFormed()
    ensures WellFormed(Schedule, FinalDelay)
  {
  }

  /** Year increments made by a fresh change_year task after `n` resumptions:
      the first resumption only starts its first sleep, then one increment
      every TicksPerYear resumptions. */
  function YearsElapsed(n: nat): nat
  {
    if n == 0 then 0 else (n - 1) / TicksPerYear
  }
}
