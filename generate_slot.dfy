/**
 * The slot generator: it deletes every slot dated today or later, then
 * inserts one available slot for each doctor of a fixed timetable, each day
 * 1 to 30 days ahead and each time of that doctor's list, counting the rows
 * it inserts.
 */
module SlotGeneration {
  import opened Server

  /** The fixed timetable: each doctor id with its daily times, in table order. */
  const DoctorTimeSlots: seq<(int, seq<string>)> := [
    (1, ["09:00:00", "10:00:00", "11:00:00", "14:00:00", "15:00:00"]),
    (2, ["10:00:00", "11:00:00", "15:00:00", "16:00:00"]),
    (3, ["09:30:00", "11:30:00", "14:30:00", "16:00:00"]),
    (4, ["08:00:00", "09:00:00", "10:00:00", "13:00:00"]),
    (5, ["09:00:00", "10:30:00", "14:00:00", "15:30:00"]),
    (6, ["11:00:00", "13:00:00", "15:00:00", "16:30:00"])
  ]

  /** How many days ahead slots are generated (day offsets 1 to 30). */
  const DaysAhead := 30

  /** The columns an INSERT supplies; the id comes from the serial sequence. */
  datatype NewSlot = NewSlot(doctorId: int, slotDate: Date, slotTime: string)

  /** The rows inserted for one doctor on one day: one per time, in list order. */
  function TimesRows(doctorId: int, date: Date, times: seq<string>): (rows: seq<NewSlot>)
    ensures |rows| == |times|
    ensures forall i :: 0 <= i < |times| ==> rows[i] == NewSlot(doctorId, date, times[i])
  {
    seq(|times|, i requires 0 <= i < |times| => NewSlot(doctorId, date, times[i]))
  }

  /** The rows inserted for one doctor over day offsets 1 to `days`, day by day. */
  function DaysRows(doctorId: int, times: seq<string>, today: Date, days: nat): seq<NewSlot> {
    if days == 0 then [] else DaysRows(doctorId, times, today, days - 1) + TimesRows(doctorId, today + days, times)
  }

  /** The rows inserted for the first `n` doctors of `table`, doctor by doctor. */
  function TableRows(table: seq<(int, seq<string>)>, today: Date, days: nat, n: nat): seq<NewSlot>
    requires n <= |table|
  {
    if n == 0 then []
    else TableRows(table, today, days, n - 1) + DaysRows(table[n - 1].0, table[n - 1].1, today, days)
  }

  /** Every row a run inserts, in insertion order. */
  function Plan(today: Date): seq<NewSlot> {
    TableRows(DoctorTimeSlots, today, DaysAhead, |DoctorTimeSlots|)
  }

  /** The slot row an insert creates: available, with the id the sequence handed out. */
  function SlotOf(id: int, r: NewSlot): (s: Slot)
    ensures s.slotId == id && s.isAvailable
  {
    Slot(id, r.doctorId, r.slotDate, r.slotTime, true)
  }

  /** The slot row with id `k` when `rows` are inserted with ids from `start` on. */
  function PlacedRow(start: int, rows: seq<NewSlot>, k: int): Slot
    requires start <= k < start + |rows|
  {
    SlotOf(k, rows[k - start])
  }

  /** The rows `rows`, inserted with the consecutive ids from `start` on. */
  function Placed(start: int, rows: seq<NewSlot>): map<int, Slot> {
    map k | start <= k < start + |rows| :: PlacedRow(start, rows, k)
  }

  /** The slots dated before `today`: what the delete leaves. */
  function PastSlots(slots: map<int, Slot>, today: Date): (r: map<int, Slot>)
    ensures forall k :: k in r <==> k in slots && slots[k].slotDate < today
    ensures forall k :: k in r ==> r[k] == slots[k]
  {
    map k | k in slots && slots[k].slotDate < today :: slots[k]
  }

  /** The tables after a complete run. */
  function Regenerated(t: Tables, today: Date): Tables {
    t.(slots := PastSlots(t.slots, today) + Placed(t.nextSlotId, Plan(today)),
       nextSlotId := t.nextSlotId + |Plan(today)|)
  }

  /** The number of daily times the first `n` entries of `table` list. */
  function SumLengths(table: seq<(int, seq<string>)>, n: nat): nat
    requires n <= |table|
  {
    if n == 0 then 0 else SumLengths(table, n - 1) + |table[n - 1].1|
  }

  /** All the times the first `n` entries of `table` list for `doctorId`. */
  function TimesFor(table: seq<(int, seq<string>)>, n: nat, doctorId: int): seq<string>
    requires n <= |table|
  {
    if n == 0 then []
    else TimesFor(table, n - 1, doctorId) + (if table[n - 1].0 == doctorId then table[n - 1].1 else [])
  }

  /** The times of the first `n` rows that are for `doctorId` on `date`, in insertion order. */
  function TimesIn(rows: seq<NewSlot>, n: nat, doctorId: int, date: Date): seq<string>
    requires n <= |rows|
  {
    if n == 0 then []
    else
      var r := rows[n - 1];
      TimesIn(rows, n - 1, doctorId, date) + (if r.doctorId == doctorId && r.slotDate == date then [r.slotTime] else [])
  }

  /** The times of the rows for `doctorId` on `date`, in insertion order. */
  function TimesOn(rows: seq<NewSlot>, doctorId: int, date: Date): seq<string> {
    TimesIn(rows, |rows|, doctorId, date)
  }

  // ---------------------------------------------------------------------
  // The count
  // ---------------------------------------------------------------------

  lemma {:induction false} MulAdd(a: nat, b: int, c: int)
    ensures a * (b + c) == a * b + a * c
  {
    if a > 0 {
      MulAdd(a - 1, b, c);
    }
  }

  lemma {:induction false} DaysRowsLength(doctorId: int, times: seq<string>, today: Date, days: nat)
    ensures |DaysRows(doctorId, times, today, days)| == days * |times|
  {
    if days > 0 {
      DaysRowsLength(doctorId, times, today, days - 1);
    }
  }

  /** The first `n` doctors get `days` days of their daily times. */
  lemma {:induction false} TableRowsLength(table: seq<(int, seq<string>)>, today: Date, days: nat, n: nat)
    requires n <= |table|
    ensures |TableRows(table, today, days, n)| == days * SumLengths(table, n)
  {
    if n > 0 {
      TableRowsLength(table, today, days, n - 1);
      DaysRowsLength(table[n - 1].0, table[n - 1].1, today, days);
      MulAdd(days, SumLengths(table, n - 1), |table[n - 1].1|);
    }
  }

  /** A run inserts 30 days of 25 daily times: 750 rows. */
  lemma PlanLength(today: Date)
    ensures |Plan(today)| == DaysAhead * SumLengths(DoctorTimeSlots, |DoctorTimeSlots|) == 750
  {
    TableRowsLength(DoctorTimeSlots, today, DaysAhead, |DoctorTimeSlots|);
    var table := DoctorTimeSlots;
    assert SumLengths(table, 1) == 5;
    assert SumLengths(table, 2) == 9;
    assert SumLengths(table, 3) == 13;
    assert SumLengths(table, 4) == 17;
    assert SumLengths(table, 5) == 21;
    assert SumLengths(table, 6) == 25;
  }

  // ---------------------------------------------------------------------
  // Dates, doctors and times of the inserted rows
  // ---------------------------------------------------------------------

  /** An inserted row's doctor is one of the table's and its date is 1 to `days` days ahead. */
  predicate InWindow(table: seq<(int, seq<string>)>, r: NewSlot, today: Date, days: int) {
    && today < r.slotDate <= today + days
    && exists e :: e in table && e.0 == r.doctorId
  }

  lemma {:induction false} DaysRowsInWindow(doctorId: int, times: seq<string>, today: Date, days: nat)
    ensures forall r :: r in DaysRows(doctorId, times, today, days) ==>
      r.doctorId == doctorId && today < r.slotDate <= today + days
  {
    if days > 0 {
      DaysRowsInWindow(doctorId, times, today, days - 1);
    }
  }

  lemma {:induction false} TableRowsInWindow(table: seq<(int, seq<string>)>, today: Date, days: nat, n: nat)
    requires n <= |table|
    ensures forall r :: r in TableRows(table, today, days, n) ==> InWindow(table, r, today, days)
  {
    if n > 0 {
      TableRowsInWindow(table, today, days, n - 1);
      DaysRowsInWindow(table[n - 1].0, table[n - 1].1, today, days);
      assert table[n - 1] in table;
    }
  }

  /**
   * Every planned row is dated strictly after today and at most 30 days
   * ahead, for a doctor of the timetable; so a doctor it does not name gets
   * no slot, and no new slot is dated today.
   */
  lemma PlanInWindow(today: Date)
    ensures forall r :: r in Plan(today) ==> InWindow(DoctorTimeSlots, r, today, DaysAhead)
  {
    TableRowsInWindow(DoctorTimeSlots, today, DaysAhead, |DoctorTimeSlots|);
  }

  lemma {:induction false} TimesInPrefix(a: seq<NewSlot>, b: seq<NewSlot>, n: nat, doctorId: int, date: Date)
    requires n <= |a|
    ensures TimesIn(a + b, n, doctorId, date) == TimesIn(a, n, doctorId, date)
  {
    if n > 0 {
      TimesInPrefix(a, b, n - 1, doctorId, date);
    }
  }

  lemma {:induction false} TimesInSuffix(a: seq<NewSlot>, b: seq<NewSlot>, k: nat, doctorId: int, date: Date)
    requires k <= |b|
    ensures TimesIn(a + b, |a| + k, doctorId, date) == TimesIn(a, |a|, doctorId, date) + TimesIn(b, k, doctorId, date)
  {
    if k == 0 {
      TimesInPrefix(a, b, |a|, doctorId, date);
    } else {
      TimesInSuffix(a, b, k - 1, doctorId, date);
    }
  }

  /** Filtering distributes over concatenation. */
  lemma TimesOnConcat(a: seq<NewSlot>, b: seq<NewSlot>, doctorId: int, date: Date)
    ensures TimesOn(a + b, doctorId, date) == TimesOn(a, doctorId, date) + TimesOn(b, doctorId, date)
  {
    TimesInSuffix(a, b, |b|, doctorId, date);
  }

  lemma {:induction false} TimesInTimesRows(d: int, day: Date, times: seq<string>, doctorId: int, date: Date, n: nat)
    requires n <= |times|
    ensures TimesIn(TimesRows(d, day, times), n, doctorId, date) == if d == doctorId && day == date then times[..n] else []
  {
    if n > 0 {
      TimesInTimesRows(d, day, times, doctorId, date, n - 1);
      assert times[..n] == times[..n - 1] + [times[n - 1]];
    }
  }

  /** One doctor's day holds that doctor's times, in list order, and nothing for anyone else. */
  lemma TimesOnTimesRows(d: int, day: Date, times: seq<string>, doctorId: int, date: Date)
    ensures TimesOn(TimesRows(d, day, times), doctorId, date) == if d == doctorId && day == date then times else []
  {
    TimesInTimesRows(d, day, times, doctorId, date, |times|);
    assert times[..|times|] == times;
  }

  lemma TimesOnTimesRowsMatch(d: int, day: Date, times: seq<string>)
    ensures TimesOn(TimesRows(d, day, times), d, day) == times
  {
    TimesOnTimesRows(d, day, times, d, day);
  }

  lemma TimesOnTimesRowsOther(d: int, day: Date, times: seq<string>, doctorId: int, date: Date)
    requires d != doctorId || day != date
    ensures TimesOn(TimesRows(d, day, times), doctorId, date) == []
  {
    TimesOnTimesRows(d, day, times, doctorId, date);
  }

  /** Over `days` days, one doctor gets its list once on each day of the window. */
  lemma {:induction false} TimesOnDaysRows(d: int, times: seq<string>, today: Date, days: nat, doctorId: int, date: Date)
    ensures d == doctorId && today < date <= today + days ==> TimesOn(DaysRows(d, times, today, days), doctorId, date) == times
    ensures !(d == doctorId && today < date <= today + days) ==> TimesOn(DaysRows(d, times, today, days), doctorId, date) == []
  {
    if days > 0 {
      var earlier := DaysRows(d, times, today, days - 1);
      var last := TimesRows(d, today + days, times);
      assert DaysRows(d, times, today, days) == earlier + last;
      TimesOnConcat(earlier, last, doctorId, date);
      TimesOnDaysRows(d, times, today, days - 1, doctorId, date);
      if d == doctorId && date == today + days {
        TimesOnTimesRowsMatch(d, today + days, times);
      } else {
        TimesOnTimesRowsOther(d, today + days, times, doctorId, date);
      }
    }
  }

  /** Over the first `n` doctors, a date in the window holds all the times listed for the doctor. */
  lemma {:induction false} TimesOnTableRows(table: seq<(int, seq<string>)>, today: Date, days: nat, n: nat, doctorId: int, date: Date)
    requires n <= |table|
    ensures today < date <= today + days ==> TimesOn(TableRows(table, today, days, n), doctorId, date) == TimesFor(table, n, doctorId)
    ensures !(today < date <= today + days) ==> TimesOn(TableRows(table, today, days, n), doctorId, date) == []
  {
    if n > 0 {
      var earlier := TableRows(table, today, days, n - 1);
      var last := DaysRows(table[n - 1].0, table[n - 1].1, today, days);
      assert TableRows(table, today, days, n) == earlier + last;
      TimesOnTableRows(table, today, days, n - 1, doctorId, date);
      TimesOnConcat(earlier, last, doctorId, date);
      TimesOnDaysRows(table[n - 1].0, table[n - 1].1, today, days, doctorId, date);
    }
  }

  /** The timetable's own list for `doctorId`; empty for a doctor it does not name. */
  function DoctorTimes(doctorId: int): seq<string> {
    if 1 <= doctorId <= |DoctorTimeSlots| then DoctorTimeSlots[doctorId - 1].1 else []
  }

  /** In a table whose ids are 1, 2, 3, ..., the times for an id are that entry's list. */
  lemma {:induction false} TimesForNumbered(table: seq<(int, seq<string>)>, n: nat, doctorId: int)
    requires n <= |table|
    requires forall i :: 0 <= i < |table| ==> table[i].0 == i + 1
    ensures TimesFor(table, n, doctorId) == if 1 <= doctorId <= n then table[doctorId - 1].1 else []
  {
    if n > 0 {
      TimesForNumbered(table, n - 1, doctorId);
    }
  }

  lemma DoctorTimesListed(doctorId: int)
    ensures TimesFor(DoctorTimeSlots, |DoctorTimeSlots|, doctorId) == DoctorTimes(doctorId)
  {
    var table := DoctorTimeSlots;
    assert forall i :: 0 <= i < |table| ==> table[i].0 == i + 1;
    TimesForNumbered(table, |table|, doctorId);
  }

  /**
   * On each of the 30 days ahead, a doctor of the timetable gets exactly its
   * list of times, in list order; on any other date, and for a doctor the
   * timetable does not name, the run inserts nothing.
   */
  lemma PlanTimes(today: Date, doctorId: int, date: Date)
    ensures today < date <= today + DaysAhead ==> TimesOn(Plan(today), doctorId, date) == DoctorTimes(doctorId)
    ensures !(today < date <= today + DaysAhead) ==> TimesOn(Plan(today), doctorId, date) == []
  {
    TimesOnTableRows(DoctorTimeSlots, today, DaysAhead, |DoctorTimeSlots|, doctorId, date);
    DoctorTimesListed(doctorId);
  }

  // ---------------------------------------------------------------------
  // The tables after a run
  // ---------------------------------------------------------------------

  /** The insert columns of a slot row. */
  function Content(s: Slot): NewSlot {
    NewSlot(s.doctorId, s.slotDate, s.slotTime)
  }

  /** The rows dated today or later, without their ids. */
  function FutureContents(slots: map<int, Slot>, today: Date): set<NewSlot> {
    set k | k in slots && slots[k].slotDate >= today :: Content(slots[k])
  }

  /** Where each row of the regenerated slot table comes from. */
  lemma RegeneratedMembers(t: Tables, today: Date)
    requires WellFormed(t)
    ensures forall k :: k in Regenerated(t, today).slots <==>
      (k in t.slots && t.slots[k].slotDate < today) || t.nextSlotId <= k < t.nextSlotId + |Plan(today)|
    ensures forall k :: k in Regenerated(t, today).slots && k < t.nextSlotId ==>
      Regenerated(t, today).slots[k] == t.slots[k]
    ensures forall k :: k in Regenerated(t, today).slots && k >= t.nextSlotId ==>
      Regenerated(t, today).slots[k] == PlacedRow(t.nextSlotId, Plan(today), k)
  {
  }

  /**
   * After a run, the slots dated before today are exactly the old ones,
   * unchanged, and no old slot dated today or later remains, booked or not.
   */
  lemma RegeneratedPast(t: Tables, today: Date)
    requires WellFormed(t)
    ensures var s := Regenerated(t, today).slots;
      && (forall k :: k in s && s[k].slotDate < today <==> k in t.slots && t.slots[k].slotDate < today)
      && (forall k :: k in s && s[k].slotDate < today ==> s[k] == t.slots[k])
      && (forall k :: k in t.slots && t.slots[k].slotDate >= today ==> k !in s)
  {
    RegeneratedNewRows(t, today);
  }

  /** The rows a run adds are available and dated after today. */
  lemma RegeneratedNewRows(t: Tables, today: Date)
    requires WellFormed(t)
    ensures forall k :: k in Regenerated(t, today).slots && k >= t.nextSlotId ==>
      Regenerated(t, today).slots[k].isAvailable && Regenerated(t, today).slots[k].slotDate > today
  {
    var s := Regenerated(t, today).slots;
    var plan := Plan(today);
    RegeneratedMembers(t, today);
    PlanInWindow(today);
    forall k | k in s && k >= t.nextSlotId ensures s[k].isAvailable && s[k].slotDate > today {
      assert s[k] == PlacedRow(t.nextSlotId, plan, k);
      assert plan[k - t.nextSlotId] in plan;
    }
  }

  /** After a run, every slot dated today or later is a new, available one dated after today. */
  lemma RegeneratedFutureNew(t: Tables, today: Date)
    requires WellFormed(t)
    ensures var s := Regenerated(t, today).slots;
      forall k :: k in s && s[k].slotDate >= today ==> k >= t.nextSlotId && s[k].isAvailable && s[k].slotDate > today
  {
    RegeneratedMembers(t, today);
    RegeneratedNewRows(t, today);
  }

  /** Every future row after a run is a row of the plan. */
  lemma FutureContentsInPlan(t: Tables, today: Date)
    requires WellFormed(t)
    ensures forall r :: r in FutureContents(Regenerated(t, today).slots, today) ==> r in Plan(today)
  {
    var s := Regenerated(t, today).slots;
    var start := t.nextSlotId;
    var plan := Plan(today);
    RegeneratedMembers(t, today);
    RegeneratedFutureNew(t, today);
    forall k | k in s && s[k].slotDate >= today ensures Content(s[k]) in plan {
      assert s[k] == PlacedRow(start, plan, k);
      assert plan[k - start] in plan;
    }
  }

  /** Every row of the plan is a future row after a run. */
  lemma PlanInFutureContents(t: Tables, today: Date)
    requires WellFormed(t)
    ensures forall r :: r in Plan(today) ==> r in FutureContents(Regenerated(t, today).slots, today)
  {
    var s := Regenerated(t, today).slots;
    var start := t.nextSlotId;
    var plan := Plan(today);
    RegeneratedMembers(t, today);
    RegeneratedNewRows(t, today);
    forall r | r in plan ensures r in FutureContents(s, today) {
      var i :| 0 <= i < |plan| && plan[i] == r;
      assert start + i in s && Content(s[start + i]) == r;
    }
  }

  /**
   * After a run, every slot dated today or later is a new, available one
   * dated after today, and their contents are exactly the plan's rows.
   */
  lemma RegeneratedFuture(t: Tables, today: Date)
    requires WellFormed(t)
    ensures var s := Regenerated(t, today).slots;
      && (forall k :: k in s && s[k].slotDate >= today ==> k >= t.nextSlotId && s[k].isAvailable && s[k].slotDate > today)
      && FutureContents(s, today) == set r | r in Plan(today)
  {
    RegeneratedFutureNew(t, today);
    FutureContentsInPlan(t, today);
    PlanInFutureContents(t, today);
  }

  /** Running twice on the same day leaves the same future slots, up to fresh ids, and the same past. */
  lemma RegenerateTwice(t: Tables, today: Date)
    requires WellFormed(t)
    ensures var once := Regenerated(t, today);
      var twice := Regenerated(once, today);
      && FutureContents(twice.slots, today) == FutureContents(once.slots, today)
      && PastSlots(twice.slots, today) == PastSlots(once.slots, today)
  {
    var once := Regenerated(t, today);
    RegeneratePreservesInvariants(t, today);
    var twice := Regenerated(once, today);
    RegeneratedFuture(t, today);
    RegeneratedFuture(once, today);
    RegeneratedKeepsPast(once, today);
  }

  /** A run leaves the slots dated before today as they were. */
  lemma RegeneratedKeepsPast(t: Tables, today: Date)
    requires WellFormed(t)
    ensures PastSlots(Regenerated(t, today).slots, today) == PastSlots(t.slots, today)
  {
    RegeneratedPast(t, today);
  }

  /**
   * A run keeps the serial ids in order, and the booking invariant: every new
   * slot has an id no appointment holds, and booked slots that survive are
   * untouched.
   */
  lemma RegeneratePreservesInvariants(t: Tables, today: Date)
    requires WellFormed(t)
    ensures WellFormed(Regenerated(t, today))
    ensures BookingConsistent(t) ==> BookingConsistent(Regenerated(t, today))
  {
    var t' := Regenerated(t, today);
    assert forall k :: k in t'.slots && k >= t.nextSlotId ==> t'.slots[k] == SlotOf(k, Plan(today)[k - t.nextSlotId]);
  }

  /**
   * The slot rows part-way through a run: the kept `base` rows, then each of
   * the first `n` rows of `rows` under the next serial id, one insert at a time.
   */
  function Generating(base: map<int, Slot>, start: int, rows: seq<NewSlot>, n: nat): map<int, Slot>
    requires n <= |rows|
  {
    if n == 0 then base
    else Generating(base, start, rows, n - 1)[start + n - 1 := SlotOf(start + n - 1, rows[n - 1])]
  }

  /** Only the first `n` rows matter. */
  lemma {:induction false} GeneratingPrefix(base: map<int, Slot>, start: int, a: seq<NewSlot>, b: seq<NewSlot>, n: nat)
    requires n <= |a|
    ensures Generating(base, start, a + b, n) == Generating(base, start, a, n)
  {
    if n > 0 {
      GeneratingPrefix(base, start, a, b, n - 1);
      assert (a + b)[n - 1] == a[n - 1];
    }
  }

  /** Inserting one more row under the next id extends the placed rows by it. */
  lemma InsertStep(base: map<int, Slot>, start: int, inserted: seq<NewSlot>, r: NewSlot)
    ensures Generating(base, start, inserted, |inserted|)[start + |inserted| := SlotOf(start + |inserted|, r)] ==
      Generating(base, start, inserted + [r], |inserted| + 1)
  {
    GeneratingPrefix(base, start, inserted, [r], |inserted|);
  }

  /** Placing one more row adds just that row, under the next id. */
  lemma PlacedAppend(start: int, rows: seq<NewSlot>, r: NewSlot)
    ensures Placed(start, rows + [r]) == Placed(start, rows)[start + |rows| := SlotOf(start + |rows|, r)]
  {
    var a := Placed(start, rows + [r]);
    var b := Placed(start, rows)[start + |rows| := SlotOf(start + |rows|, r)];
    assert forall j :: j in a ==> j in b && a[j] == b[j];
  }

  /** Updating the right operand of a map union updates the union. */
  lemma UnionUpdate(base: map<int, Slot>, m: map<int, Slot>, k: int, v: Slot)
    ensures base + m[k := v] == (base + m)[k := v]
  {
  }

  /** One insert at a time ends with the rows `Placed` describes in one go. */
  lemma {:induction false} GeneratingPlaces(base: map<int, Slot>, start: int, rows: seq<NewSlot>, n: nat)
    requires n <= |rows|
    ensures Generating(base, start, rows, n) == base + Placed(start, rows[..n])
  {
    if n == 0 {
      assert Placed(start, rows[..0]) == map[];
    } else {
      var prefix := rows[..n - 1];
      assert rows[..n] == prefix + [rows[n - 1]];
      GeneratingPlaces(base, start, rows, n - 1);
      PlacedAppend(start, prefix, rows[n - 1]);
      UnionUpdate(base, Placed(start, prefix), start + n - 1, SlotOf(start + n - 1, rows[n - 1]));
    }
  }

  lemma AppendAssoc(a: seq<NewSlot>, b: seq<NewSlot>, c: seq<NewSlot>)
    ensures (a + b) + c == a + (b + c)
  {
  }

  lemma TakeNext(s: seq<NewSlot>, i: nat)
    requires i < |s|
    ensures s[..i + 1] == s[..i] + [s[i]]
  {
  }

  /** The rows and serial of `db` are those of `inserted` placed after the kept `base` rows. */
  ghost predicate Generated(db: Database, base: map<int, Slot>, start: int, inserted: seq<NewSlot>)
    reads db`slots, db`nextSlotId
  {
    db.slots == Generating(base, start, inserted, |inserted|) && db.nextSlotId == start + |inserted|
  }

  /** The innermost loop: one day's rows for one doctor, inserted one at a time and counted. */
  method InsertTimes(db: Database, doctorId: int, date: Date, times: seq<string>, count: int,
                     ghost base: map<int, Slot>, ghost start: int,
                     ghost inserted: seq<NewSlot>, ghost after: seq<NewSlot>)
    returns (newCount: int)
    requires Generated(db, base, start, inserted) && count == |inserted|
    requires after == inserted + TimesRows(doctorId, date, times)
    modifies db`slots, db`nextSlotId
    ensures Generated(db, base, start, after) && newCount == |after|
  {
    newCount := count;
    ghost var dayRows := TimesRows(doctorId, date, times);
    ghost var done := inserted;
    var i := 0;
    while i < |times|
      invariant 0 <= i <= |times|
      invariant done == inserted + dayRows[..i]
      invariant Generated(db, base, start, done) && newCount == |done|
    {
      // insert one available slot under the next id
      var row := NewSlot(doctorId, date, times[i]);
      InsertStep(base, start, done, row);
      db.slots := db.slots[db.nextSlotId := SlotOf(db.nextSlotId, row)];
      db.nextSlotId := db.nextSlotId + 1;
      TakeNext(dayRows, i);
      AppendAssoc(inserted, dayRows[..i], [row]);
      done := done + [row];
      newCount := newCount + 1;
      i := i + 1;
    }
    assert dayRows[..|times|] == dayRows;
  }

  /** One more day's rows extend the rows of the days before it. */
  lemma DaysStep(inserted: seq<NewSlot>, doctorId: int, times: seq<string>, today: Date, days: nat)
    requires days >= 1
    ensures (inserted + DaysRows(doctorId, times, today, days - 1)) + TimesRows(doctorId, today + days, times) ==
      inserted + DaysRows(doctorId, times, today, days)
  {
    AppendAssoc(inserted, DaysRows(doctorId, times, today, days - 1), TimesRows(doctorId, today + days, times));
  }

  /** The middle loop: day offsets 1 to `days` of one doctor's times. */
  method InsertDays(db: Database, doctorId: int, times: seq<string>, today: Date, days: nat, count: int,
                    ghost base: map<int, Slot>, ghost start: int, ghost inserted: seq<NewSlot>)
    returns (newCount: int)
    requires Generated(db, base, start, inserted) && count == |inserted|
    modifies db`slots, db`nextSlotId
    ensures Generated(db, base, start, inserted + DaysRows(doctorId, times, today, days))
    ensures newCount == count + |DaysRows(doctorId, times, today, days)|
  {
    newCount := count;
    assert inserted + DaysRows(doctorId, times, today, 0) == inserted;
    var dayOffset := 1;
    while dayOffset <= days
      invariant 1 <= dayOffset <= days + 1
      invariant Generated(db, base, start, inserted + DaysRows(doctorId, times, today, dayOffset - 1))
      invariant newCount == count + |DaysRows(doctorId, times, today, dayOffset - 1)|
    {
      DaysStep(inserted, doctorId, times, today, dayOffset);
      newCount := InsertTimes(db, doctorId, today + dayOffset, times, newCount, base, start,
                              inserted + DaysRows(doctorId, times, today, dayOffset - 1),
                              inserted + DaysRows(doctorId, times, today, dayOffset));
      dayOffset := dayOffset + 1;
    }
  }

  /** Where the loops end: the tables `Regenerated` describes, still well formed, after 750 inserts. */
  lemma GeneratedRun(t0: Tables, today: Date)
    requires WellFormed(t0)
    ensures var t := t0.(slots := Generating(PastSlots(t0.slots, today), t0.nextSlotId, Plan(today), |Plan(today)|),
                         nextSlotId := t0.nextSlotId + |Plan(today)|);
      t == Regenerated(t0, today) && WellFormed(t) && |Plan(today)| == 750
  {
    GeneratingPlaces(PastSlots(t0.slots, today), t0.nextSlotId, Plan(today), |Plan(today)|);
    assert Plan(today)[..|Plan(today)|] == Plan(today);
    PlanLength(today);
    RegeneratePreservesInvariants(t0, today);
  }

  /** The rows of the first `n` doctors, then the next doctor's, are the rows of the first `n + 1`. */
  lemma TableStep(table: seq<(int, seq<string>)>, today: Date, days: nat, n: nat)
    requires n < |table|
    ensures TableRows(table, today, days, n + 1) ==
      TableRows(table, today, days, n) + DaysRows(table[n].0, table[n].1, today, days)
  {
  }

  /** The outer loop: every doctor of the timetable in turn, starting from no inserted rows. */
  method InsertTable(db: Database, table: seq<(int, seq<string>)>, today: Date, days: nat,
                     ghost base: map<int, Slot>, ghost start: int)
    returns (totalSlots: int)
    requires Generated(db, base, start, [])
    modifies db`slots, db`nextSlotId
    ensures Generated(db, base, start, TableRows(table, today, days, |table|))
    ensures totalSlots == |TableRows(table, today, days, |table|)|
  {
    totalSlots := 0;
    var d := 0;
    while d < |table|
      invariant 0 <= d <= |table|
      invariant Generated(db, base, start, TableRows(table, today, days, d))
      invariant totalSlots == |TableRows(table, today, days, d)|
    {
      TableStep(table, today, days, d);
      totalSlots := InsertDays(db, table[d].0, table[d].1, today, days, totalSlots, base, start,
                               TableRows(table, today, days, d));
      d := d + 1;
    }
  }

  /**
   * The run itself: the delete, then the loops over doctors and days, the
   * innermost one inserting a day's rows one at a time and counting. It ends
   * with the tables `Regenerated` describes and a count of 750.
   */
  method GenerateTimeSlots(db: Database, today: Date) returns (totalSlots: int)
    requires db.Valid()
    modifies db
    ensures db.Valid()
    ensures db.State() == Regenerated(old(db.State()), today)
    ensures totalSlots == |Plan(today)| == 750
  {
    ghost var t0 := db.State();
    // drop the slots dated today or later
    db.slots := PastSlots(db.slots, today);
    // insert the timetable's rows, doctor by doctor, and count them
    totalSlots := InsertTable(db, DoctorTimeSlots, today, DaysAhead, db.slots, db.nextSlotId);
    GeneratedRun(t0, today);
  }
}
