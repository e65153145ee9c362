/** Interval arithmetic, booking conflicts and the greedy slot search of the
    availability tool (app/ai/tools/consultar_disponibilidade_tool.py).

    Instants are whole minutes of local time in one fixed offset, counted
    from a midnight; the calendar day of an instant is `t / 1440` and day 0
    (1970-01-01) is a Thursday. Seconds are dropped. */
module Schedule {
  import opened Text
  import opened Values

  const MinutesPerDay: int := 1440
  /** 09:00 and 18:00, the business-hours window, as minutes of the day. */
  const OpenMinute: int := 540
  const CloseMinute: int := 1080
  /** Grid of candidate slot starts. */
  const SlotStep: int := 30
  /** Python's `weekday()` numbering: Monday is 0, Sunday is 6. */
  const Sunday: int := 6
  const EpochWeekday: int := 3

  function DayOf(t: int): int { t / MinutesPerDay }
  function Weekday(day: int): int { (day + EpochWeekday) % 7 }
  function WorkStart(day: int): int { day * MinutesPerDay + OpenMinute }
  function WorkEnd(day: int): int { day * MinutesPerDay + CloseMinute }

  lemma DayOfBounds(t: int)
    ensures DayOf(t) * MinutesPerDay <= t < DayOf(t) * MinutesPerDay + MinutesPerDay
  {
  }

  lemma DayOfWithin(t: int, day: int)
    requires day * MinutesPerDay <= t < day * MinutesPerDay + MinutesPerDay
    ensures DayOf(t) == day
  {
    DayOfBounds(t);
  }

  // -------------------------------------------------------------------
  // Interval arithmetic
  // -------------------------------------------------------------------

  /** `_overlap`: the half-open intervals [aStart, aEnd) and [bStart, bEnd) intersect. */
  predicate Overlap(aStart: int, aEnd: int, bStart: int, bEnd: int): (r: bool)
    ensures aStart < aEnd && bStart < bEnd ==> (r <==> Max(aStart, bStart) < Min(aEnd, bEnd))
    ensures aStart == aEnd ==> (r <==> bStart < aStart < bEnd)
  {
    aStart < bEnd && bStart < aEnd
  }

  /** Minute `m` lies in the half-open interval [s, e). */
  predicate Covers(s: int, e: int, m: int) {
    s <= m < e
  }

  /** For non-empty intervals, overlap is exactly "some minute lies in both". */
  lemma OverlapMeansCommonMinute(aStart: int, aEnd: int, bStart: int, bEnd: int)
    requires aStart < aEnd && bStart < bEnd
    ensures Overlap(aStart, aEnd, bStart, bEnd) <==>
            exists m :: Covers(aStart, aEnd, m) && Covers(bStart, bEnd, m)
  {
    if Overlap(aStart, aEnd, bStart, bEnd) {
      var m := if aStart < bStart then bStart else aStart;
      assert Covers(aStart, aEnd, m) && Covers(bStart, bEnd, m);
    }
  }

  lemma OverlapSymmetric(aStart: int, aEnd: int, bStart: int, bEnd: int)
    ensures Overlap(aStart, aEnd, bStart, bEnd) == Overlap(bStart, bEnd, aStart, aEnd)
  {
  }

  /** Intervals that only touch at a boundary do not overlap. */
  lemma TouchingIntervalsDoNotOverlap(aStart: int, mid: int, bEnd: int)
    ensures !Overlap(aStart, mid, mid, bEnd)
  {
  }

  /** `_round_up_to_step`: rounds the minute of the hour down to a multiple
      of `step`, then adds `step` when that moved the instant back. */
  function RoundUpToStep(t: int, step: int): (r: int)
    requires step > 0
    ensures t <= r < t + step
    ensures (t % 60) % step == 0 ==> r == t
    ensures 60 % step == 0 ==> r % step == 0
  {
    var minute := t % 60;
    var rounded := t - minute + (minute / step) * step;
    RoundUpFacts(t, step);
    if rounded < t then rounded + step else rounded
  }

  lemma RoundUpFacts(t: int, step: int)
    requires step > 0
    ensures var minute := t % 60;
            var rounded := t - minute + (minute / step) * step;
            rounded == t - minute % step
            && (60 % step == 0 ==> rounded % step == 0 && (rounded + step) % step == 0)
  {
    var minute := t % 60;
    var q := minute / step;
    DivModParts(minute, step);
    if 60 % step == 0 {
      var c := 60 / step;
      var h := t / 60;
      DivModParts(60, step);
      DivModParts(t, 60);
      assert h * 60 == h * (c * step);
      MultipleOfStep(h, c, q, step);
      MultipleOfStep(h, c, q + 1, step);
      NextMultiple(q, step);
    }
  }

  lemma DivModParts(a: int, b: int)
    requires b > 0
    ensures a == (a / b) * b + a % b
  {
  }

  lemma NextMultiple(q: int, step: int)
    ensures (q + 1) * step == q * step + step
  {
  }

  lemma MultipleOfStep(h: int, c: int, q: int, step: int)
    requires step > 0
    ensures (h * (c * step) + q * step) % step == 0
  {
    assert h * (c * step) == (h * c) * step;
    assert (h * c) * step + q * step == (h * c + q) * step;
    MultipleMod(h * c + q, step);
  }

  lemma MultipleMod(n: int, step: int)
    requires step > 0
    ensures (n * step) % step == 0
  {
    var p := n * step;
    var x := p / step - n;
    assert step * x == -(p % step);
  }

  /** 14:07 on day 0 rounds up to 14:30; an on-grid time is unchanged. */
  lemma RoundUpExamples()
    ensures RoundUpToStep(14 * 60 + 7, SlotStep) == 14 * 60 + 30
    ensures RoundUpToStep(14 * 60 + 30, SlotStep) == 14 * 60 + 30
  {
  }

  // -------------------------------------------------------------------
  // Records and bookings
  // -------------------------------------------------------------------

  /** `_safe_int`: Python's `int(v)`, with `None` for `None` and for every
      value `int` rejects. */
  function SafeInt(v: Value): (r: Option<int>)
    ensures v.VNone? || v.VList? || v.VDict? ==> r.None?
    ensures v.VInt? ==> r == Some(v.i)
    ensures v.VBool? ==> r == Some(if v.b then 1 else 0)
    ensures v.VStr? ==> r == ParseInt(v.s)
  {
    match v
    case VInt(i) => Some(i)
    case VBool(b) => Some(if b then 1 else 0)
    case VStr(s) => ParseInt(s)
    case _ => None
  }

  /** `int(str(n)) == n` survives the lookup: a duration written as text is read back. */
  lemma SafeIntOfDecimalText(n: int)
    ensures SafeInt(VStr(IntToString(n))) == Some(n)
  {
    ParseIntOfIntToString(n);
  }

  /** A member of the staff roster. */
  datatype Professional = Professional(id: int, name: Value, nickname: Value)

  /** A booking as the store returns it: the professional's id (if the record
      names one), the start instant (`None` when `dataHoraInicio` is missing,
      empty or unparseable) and the raw `duracaoEmMinutos`. */
  datatype Booking = Booking(professionalId: Option<int>, start: Option<int>, duration: Value)

  /** A suggested slot. */
  datatype Slot = Slot(professionalId: int, professionalName: Value, start: int, end: int)

  /** `_agendamento_interval`: [start, start + duration) when both are usable. */
  function BookingInterval(b: Booking): (r: Option<(int, int)>)
    ensures r.Some? <==> b.start.Some? && SafeInt(b.duration).Some?
    ensures r.Some? ==> r.value.0 == b.start.value && r.value.1 - r.value.0 == SafeInt(b.duration).value
  {
    if b.start.None? then None
    else
      match SafeInt(b.duration)
      case None => None
      case Some(d) => Some((b.start.value, b.start.value + d))
  }

  /** Booking `b` makes [s, e) unavailable for professional `pid`. */
  predicate Blocks(b: Booking, pid: int, s: int, e: int) {
    b.professionalId == Some(pid) &&
    match BookingInterval(b)
    case None => false
    case Some(iv) => Overlap(s, e, iv.0, iv.1)
  }

  /** No booking of `pid` with a usable interval overlaps [s, e). */
  predicate SlotFree(s: int, e: int, ags: seq<Booking>, pid: int) {
    forall i :: 0 <= i < |ags| ==> !Blocks(ags[i], pid, s, e)
  }

  /** `_is_slot_free`: scans the bookings and stops at the first conflict. */
  method IsSlotFree(slotStart: int, slotEnd: int, ags: seq<Booking>, pid: int) returns (free: bool)
    ensures free == SlotFree(slotStart, slotEnd, ags, pid)
  {
    for i := 0 to |ags|
      invariant forall j :: 0 <= j < i ==> !Blocks(ags[j], pid, slotStart, slotEnd)
    {
      var ag := ags[i];
      if ag.professionalId != Some(pid) {
        continue;
      }
      var itv := BookingInterval(ag);
      if itv.None? {
        continue;
      }
      if Overlap(slotStart, slotEnd, itv.value.0, itv.value.1) {
        assert Blocks(ags[i], pid, slotStart, slotEnd);
        return false;
      }
    }
    return true;
  }

  /** A booked interval of a professional is never free again for that
      professional, whatever the length of the slot asked for. */
  lemma BookedIntervalIsTaken(ags: seq<Booking>, i: nat, len: int)
    requires i < |ags| && ags[i].professionalId.Some? && ags[i].start.Some?
    requires SafeInt(ags[i].duration).Some? && SafeInt(ags[i].duration).value > 0
    requires len > 0
    ensures !SlotFree(ags[i].start.value, ags[i].start.value + len, ags, ags[i].professionalId.value)
  {
    assert Blocks(ags[i], ags[i].professionalId.value, ags[i].start.value, ags[i].start.value + len);
  }

  /** Appending a booking that can never block `pid` leaves `pid`'s freedom unchanged. */
  lemma NonBlockingAppended(s: int, e: int, ags: seq<Booking>, b: Booking, pid: int)
    requires !Blocks(b, pid, s, e)
    ensures SlotFree(s, e, ags + [b], pid) == SlotFree(s, e, ags, pid)
  {
    var all := ags + [b];
    assert forall i :: 0 <= i < |ags| ==> all[i] == ags[i];
    assert all[|ags|] == b;
  }

  /** Bookings of other professionals never matter. */
  lemma OtherProfessionalsIgnored(s: int, e: int, ags: seq<Booking>, b: Booking, pid: int)
    requires b.professionalId != Some(pid)
    ensures SlotFree(s, e, ags + [b], pid) == SlotFree(s, e, ags, pid)
  {
    NonBlockingAppended(s, e, ags, b, pid);
  }

  /** Bookings without a start or with a duration `int` rejects never matter. */
  lemma IncompleteBookingsIgnored(s: int, e: int, ags: seq<Booking>, b: Booking, pid: int)
    requires b.start.None? || SafeInt(b.duration).None?
    ensures SlotFree(s, e, ags + [b], pid) == SlotFree(s, e, ags, pid)
  {
    NonBlockingAppended(s, e, ags, b, pid);
  }

  // -------------------------------------------------------------------
  // First free professional
  // -------------------------------------------------------------------

  /** The position of the first professional, in list order, free over [s, e). */
  function FirstFree(s: int, e: int, profs: seq<Professional>, ags: seq<Booking>): (r: Option<nat>)
    ensures r.Some? ==> r.value < |profs| && SlotFree(s, e, ags, profs[r.value].id)
    ensures r.Some? ==> forall j :: 0 <= j < r.value ==> !SlotFree(s, e, ags, profs[j].id)
    ensures r.None? ==> forall j :: 0 <= j < |profs| ==> !SlotFree(s, e, ags, profs[j].id)
    decreases |profs|
  {
    if profs == [] then None
    else if SlotFree(s, e, ags, profs[0].id) then Some(0)
    else
      match FirstFree(s, e, profs[1..], ags)
      case None => None
      case Some(j) => Some(j + 1)
  }

  /** The `for p in ...: if _is_slot_free(...): ...; break` loop. */
  method FindFreeProfessional(s: int, e: int, profs: seq<Professional>, ags: seq<Booking>)
    returns (r: Option<nat>)
    ensures r == FirstFree(s, e, profs, ags)
  {
    var i := 0;
    while i < |profs|
      invariant 0 <= i <= |profs|
      invariant forall j :: 0 <= j < i ==> !SlotFree(s, e, ags, profs[j].id)
    {
      var ok := IsSlotFree(s, e, ags, profs[i].id);
      if ok {
        return Some(i);
      }
      i := i + 1;
    }
    return None;
  }

  /** What the scan emits at grid position `t`: the first free professional's slot. */
  function Proposal(t: int, dur: int, profs: seq<Professional>, ags: seq<Booking>): Option<Slot> {
    match FirstFree(t, t + dur, profs, ags)
    case None => None
    case Some(j) => Some(Slot(profs[j].id, profs[j].name, t, t + dur))
  }

  lemma ProposalOfPick(t: int, dur: int, profs: seq<Professional>, ags: seq<Booking>, pick: Option<nat>)
    requires pick == FirstFree(t, t + dur, profs, ags)
    ensures pick.Some? ==> (pick.value < |profs| &&
              Proposal(t, dur, profs, ags) == Some(Slot(profs[pick.value].id, profs[pick.value].name, t, t + dur)))
    ensures pick.None? ==> Proposal(t, dur, profs, ags) == None
  {
  }

  // -------------------------------------------------------------------
  // Slot search
  // -------------------------------------------------------------------

  /** Where the scan of the `k`-th day starts: the base instant, or 09:00 if
      later, rounded up to the grid on the first day; 09:00 on later days. */
  function FirstCursor(base: int, k: int): int {
    if k == 0 then RoundUpToStep(Max(base, WorkStart(DayOf(base))), SlotStep)
    else WorkStart(DayOf(base) + k)
  }

  /** `t` is one of the grid positions the scan visits. */
  predicate IsScanPosition(base: int, days: int, dur: int, t: int) {
    var k := DayOf(t) - DayOf(base);
    && 0 <= k < days
    && Weekday(DayOf(t)) != Sunday
    && FirstCursor(base, k) <= t
    && t % SlotStep == 0
    && t + dur <= WorkEnd(DayOf(t))
  }

  predicate WithinCap(slots: seq<Slot>, wanted: int) {
    |slots| <= Max(wanted, 1)
  }

  predicate AllProposed(slots: seq<Slot>, dur: int, profs: seq<Professional>, ags: seq<Booking>) {
    forall i :: 0 <= i < |slots| ==> Proposal(slots[i].start, dur, profs, ags) == Some(slots[i])
  }

  predicate OnGrid(slots: seq<Slot>) {
    forall i :: 0 <= i < |slots| ==> slots[i].start % SlotStep == 0
  }

  predicate Increasing(slots: seq<Slot>) {
    forall i, j :: 0 <= i < j < |slots| ==> slots[i].start < slots[j].start
  }

  predicate InScan(base: int, days: int, dur: int, slots: seq<Slot>) {
    forall i :: 0 <= i < |slots| ==> IsScanPosition(base, days, dur, slots[i].start)
  }

  predicate Listed(slots: seq<Slot>, t: int) {
    exists i :: 0 <= i < |slots| && slots[i].start == t
  }

  /** Every visited position with a free professional up to the point where
      the scan stopped produced a suggestion: all of them when fewer than
      `wanted` were found, otherwise all those before the last suggestion. */
  ghost predicate NoneSkipped(base: int, days: int, wanted: int, dur: int,
                              profs: seq<Professional>, ags: seq<Booking>, slots: seq<Slot>) {
    forall t :: (IsScanPosition(base, days, dur, t) && Proposal(t, dur, profs, ags).Some? &&
                 (|slots| < wanted || (slots != [] && t < slots[|slots| - 1].start)))
                ==> Listed(slots, t)
  }

  /** The facts the search establishes about its result. */
  ghost predicate ValidSuggestions(base: int, days: int, wanted: int, dur: int,
                                   profs: seq<Professional>, ags: seq<Booking>, slots: seq<Slot>) {
    && WithinCap(slots, wanted)
    && AllProposed(slots, dur, profs, ags)
    && OnGrid(slots)
    && (dur > 0 ==> Increasing(slots) && InScan(base, days, dur, slots))
    && NoneSkipped(base, days, wanted, dur, profs, ags, slots)
  }

  /** The first grid position the scan visits from the `k`-th day on: the
      first cursor of the first working day whose slot still ends by 18:00. */
  function FirstVisit(base: int, days: int, dur: int, k: int): Option<int>
    decreases days - k
  {
    if k >= days then None
    else if Weekday(DayOf(base) + k) != Sunday && FirstCursor(base, k) + dur <= WorkEnd(DayOf(base) + k)
    then Some(FirstCursor(base, k))
    else FirstVisit(base, days, dur, k + 1)
  }

  function AsList(p: Option<Slot>): seq<Slot> {
    if p.Some? then [p.value] else []
  }

  /** What a scan asked for `sugestoes <= 0` answers: the count is checked
      after the first visited position, so only the proposal there, if any. */
  function FirstOnly(base: int, days: int, dur: int, profs: seq<Professional>, ags: seq<Booking>): seq<Slot> {
    match FirstVisit(base, days, dur, 0)
    case None => []
    case Some(t) => AsList(Proposal(t, dur, profs, ags))
  }

  /** Everything the search promises: the facts above, and for a count of
      zero or less the single answer of the first visited position. */
  ghost predicate Suggestions(base: int, days: int, wanted: int, dur: int,
                              profs: seq<Professional>, ags: seq<Booking>, slots: seq<Slot>) {
    && ValidSuggestions(base, days, wanted, dur, profs, ags, slots)
    && (wanted <= 0 ==> slots == FirstOnly(base, days, dur, profs, ags))
  }

  /** For a positive duration, `FirstVisit` is the earliest scan position. */
  lemma FirstVisitIsEarliest(base: int, days: int, dur: int)
    requires dur > 0
    ensures var f := FirstVisit(base, days, dur, 0);
            f.Some? ==> IsScanPosition(base, days, dur, f.value) &&
                        forall t :: IsScanPosition(base, days, dur, t) ==> f.value <= t
    ensures FirstVisit(base, days, dur, 0).None? <==> forall t :: !IsScanPosition(base, days, dur, t)
  {
    FirstVisitFrom(base, days, dur, 0);
  }

  lemma {:induction false} FirstVisitFrom(base: int, days: int, dur: int, k: int)
    requires dur > 0 && 0 <= k
    ensures var f := FirstVisit(base, days, dur, k);
            f.Some? ==> IsScanPosition(base, days, dur, f.value) &&
                        forall t :: IsScanPosition(base, days, dur, t) && DayOf(t) - DayOf(base) >= k ==> f.value <= t
    ensures FirstVisit(base, days, dur, k).None? ==>
              forall t :: IsScanPosition(base, days, dur, t) ==> DayOf(t) - DayOf(base) < k
    decreases days - k
  {
    var day := DayOf(base) + k;
    if k >= days {
    } else if Weekday(day) != Sunday && FirstCursor(base, k) + dur <= WorkEnd(day) {
      var c := FirstCursor(base, k);
      FirstCursorFacts(base, k);
      CursorIsScanPosition(base, days, dur, k, c);
      forall t | IsScanPosition(base, days, dur, t) && DayOf(t) - DayOf(base) >= k
        ensures c <= t
      {
        DayOfBounds(t);
      }
    } else {
      FirstVisitFrom(base, days, dur, k + 1);
      forall t | IsScanPosition(base, days, dur, t) && DayOf(t) - DayOf(base) == k
        ensures false
      {
      }
    }
  }

  /** For a count of zero or less and a positive duration, at most one slot
      is suggested, at the earliest position of the whole scan. */
  lemma NonPositiveCountFacts(base: int, days: int, wanted: int, dur: int,
                              profs: seq<Professional>, ags: seq<Booking>, slots: seq<Slot>)
    requires Suggestions(base, days, wanted, dur, profs, ags, slots)
    requires wanted <= 0 && dur > 0
    ensures |slots| <= 1
    ensures slots != [] ==> IsScanPosition(base, days, dur, slots[0].start) &&
                            forall t :: IsScanPosition(base, days, dur, t) ==> slots[0].start <= t
    ensures slots == [] <==> FirstVisit(base, days, dur, 0).None? ||
                             Proposal(FirstVisit(base, days, dur, 0).value, dur, profs, ags).None?
  {
    FirstVisitIsEarliest(base, days, dur);
  }

  /** Every visited position before `bound` with a free professional is listed. */
  ghost predicate DoneBefore(base: int, days: int, dur: int, profs: seq<Professional>,
                             ags: seq<Booking>, slots: seq<Slot>, bound: int) {
    forall t :: (IsScanPosition(base, days, dur, t) && t < bound && Proposal(t, dur, profs, ags).Some?)
                ==> Listed(slots, t)
  }

  predicate StartsBefore(slots: seq<Slot>, bound: int) {
    forall i :: 0 <= i < |slots| ==> slots[i].start < bound
  }

  lemma FirstCursorFacts(base: int, k: int)
    requires k >= 0
    ensures FirstCursor(base, k) % SlotStep == 0
    ensures FirstCursor(base, k) >= WorkStart(DayOf(base) + k)
    ensures FirstCursor(base, k) >= base
  {
    DayOfBounds(base);
    if k > 0 {
      var d := DayOf(base) + k;
      assert WorkStart(d) == (d * 48 + 18) * SlotStep;
      MultipleMod(d * 48 + 18, SlotStep);
    }
  }

  lemma GridStep(t: int, c: int)
    requires t % SlotStep == 0 && c % SlotStep == 0 && c <= t < c + SlotStep
    ensures t == c
  {
  }

  lemma GridNext(c: int)
    requires c % SlotStep == 0
    ensures (c + SlotStep) % SlotStep == 0
  {
  }

  /** A stretch of time without visited positions changes nothing. */
  lemma DoneAcrossGap(base: int, days: int, dur: int, profs: seq<Professional>,
                      ags: seq<Booking>, slots: seq<Slot>, lo: int, hi: int)
    requires DoneBefore(base, days, dur, profs, ags, slots, lo)
    requires forall t :: lo <= t < hi ==> !IsScanPosition(base, days, dur, t)
    ensures DoneBefore(base, days, dur, profs, ags, slots, hi)
  {
  }

  lemma NoPositionBeforeBase(base: int, days: int, dur: int)
    ensures forall t :: t < DayOf(base) * MinutesPerDay ==> !IsScanPosition(base, days, dur, t)
  {
    forall t | t < DayOf(base) * MinutesPerDay ensures !IsScanPosition(base, days, dur, t) {
      DayOfBounds(t);
    }
  }

  lemma NoPositionBeforeFirstCursor(base: int, days: int, dur: int, k: int)
    requires k >= 0
    ensures forall t :: (DayOf(base) + k) * MinutesPerDay <= t < FirstCursor(base, k) ==>
                        !IsScanPosition(base, days, dur, t)
  {
    var day := DayOf(base) + k;
    DayOfBounds(base);
    forall t | day * MinutesPerDay <= t < FirstCursor(base, k)
      ensures !IsScanPosition(base, days, dur, t)
    {
      if t < day * MinutesPerDay + MinutesPerDay {
        DayOfWithin(t, day);
      } else {
        DayOfWithin(t, day + 1);
        assert FirstCursor(base, 1) == WorkStart(day + 1);
      }
    }
  }

  lemma NoPositionAfterClose(base: int, days: int, dur: int, day: int, cursor: int)
    requires cursor + dur > WorkEnd(day)
    ensures forall t :: cursor <= t && day * MinutesPerDay <= t < day * MinutesPerDay + MinutesPerDay ==>
                        !IsScanPosition(base, days, dur, t)
  {
    forall t | cursor <= t && day * MinutesPerDay <= t < day * MinutesPerDay + MinutesPerDay
      ensures !IsScanPosition(base, days, dur, t)
    {
      DayOfWithin(t, day);
    }
  }

  lemma NoPositionOnSunday(base: int, days: int, dur: int, day: int)
    requires Weekday(day) == Sunday
    ensures forall t :: day * MinutesPerDay <= t < day * MinutesPerDay + MinutesPerDay ==>
                        !IsScanPosition(base, days, dur, t)
  {
    forall t | day * MinutesPerDay <= t < day * MinutesPerDay + MinutesPerDay
      ensures !IsScanPosition(base, days, dur, t)
    {
      DayOfWithin(t, day);
    }
  }

  lemma NoPositionBeyondHorizon(base: int, days: int, dur: int, k: int)
    requires k >= days
    ensures forall t :: t >= (DayOf(base) + k) * MinutesPerDay ==> !IsScanPosition(base, days, dur, t)
  {
    forall t | t >= (DayOf(base) + k) * MinutesPerDay ensures !IsScanPosition(base, days, dur, t) {
      DayOfBounds(t);
    }
  }

  lemma ListedGrows(slots: seq<Slot>, more: seq<Slot>, t: int)
    requires Listed(slots, t)
    ensures Listed(slots + more, t)
  {
    var i :| 0 <= i < |slots| && slots[i].start == t;
    assert (slots + more)[i] == slots[i];
  }

  /** A grid position of a working day that the scan reaches. */
  lemma CursorIsScanPosition(base: int, days: int, dur: int, k: int, cursor: int)
    requires 0 <= k < days && Weekday(DayOf(base) + k) != Sunday && dur > 0
    requires cursor % SlotStep == 0 && FirstCursor(base, k) <= cursor
    requires cursor + dur <= WorkEnd(DayOf(base) + k)
    ensures IsScanPosition(base, days, dur, cursor)
  {
    FirstCursorFacts(base, k);
    DayOfWithin(cursor, DayOf(base) + k);
  }

  /** Appending a slot that starts after every earlier one. */
  lemma AppendKeepsOrder(base: int, days: int, dur: int, profs: seq<Professional>, ags: seq<Booking>,
                         before: seq<Slot>, x: Slot)
    requires Proposal(x.start, dur, profs, ags) == Some(x) && x.start % SlotStep == 0
    requires AllProposed(before, dur, profs, ags) && OnGrid(before)
    requires dur > 0 ==> Increasing(before) && InScan(base, days, dur, before) &&
                         StartsBefore(before, x.start) && IsScanPosition(base, days, dur, x.start)
    ensures AllProposed(before + [x], dur, profs, ags) && OnGrid(before + [x])
    ensures dur > 0 ==> Increasing(before + [x]) && InScan(base, days, dur, before + [x])
  {
    var after := before + [x];
    forall i | 0 <= i < |after|
      ensures Proposal(after[i].start, dur, profs, ags) == Some(after[i])
      ensures after[i].start % SlotStep == 0
    {
      if i < |before| { assert after[i] == before[i]; }
    }
    if dur > 0 {
      AppendKeepsScan(base, days, dur, before, x);
    }
  }

  lemma AppendKeepsScan(base: int, days: int, dur: int, before: seq<Slot>, x: Slot)
    requires Increasing(before) && InScan(base, days, dur, before)
    requires StartsBefore(before, x.start) && IsScanPosition(base, days, dur, x.start)
    ensures Increasing(before + [x]) && InScan(base, days, dur, before + [x])
  {
    var after := before + [x];
    forall i | 0 <= i < |after| ensures IsScanPosition(base, days, dur, after[i].start) {
      if i < |before| { assert after[i] == before[i]; }
    }
    forall i, j | 0 <= i < j < |after| ensures after[i].start < after[j].start {
      assert after[i] == before[i];
      if j < |before| { assert after[j] == before[j]; }
    }
  }

  /** After the grid position `cursor` is processed, everything before the
      next position is listed. */
  lemma DoneStep(base: int, days: int, dur: int, profs: seq<Professional>, ags: seq<Booking>,
                 cursor: int, before: seq<Slot>, after: seq<Slot>)
    requires cursor % SlotStep == 0
    requires Proposal(cursor, dur, profs, ags).Some? ==>
               |after| == |before| + 1 && after[|before|].start == cursor
    requires Proposal(cursor, dur, profs, ags).None? ==> after == before
    requires before <= after
    requires DoneBefore(base, days, dur, profs, ags, before, cursor)
    ensures DoneBefore(base, days, dur, profs, ags, after, cursor + SlotStep)
  {
    forall t | IsScanPosition(base, days, dur, t) && t < cursor + SlotStep && Proposal(t, dur, profs, ags).Some?
      ensures Listed(after, t)
    {
      if t < cursor {
        var i :| 0 <= i < |before| && before[i].start == t;
        assert after[i] == before[i];
      } else {
        GridStep(t, cursor);
        assert after[|before|].start == t;
      }
    }
  }

  /** What holds between grid positions: the cap, every slot a proposal on
      the grid, and every visited position before `bound` dealt with. */
  ghost predicate Progress(base: int, days: int, wanted: int, dur: int, profs: seq<Professional>,
                           ags: seq<Booking>, slots: seq<Slot>, bound: int) {
    && (|slots| < wanted || slots == [])
    && AllProposed(slots, dur, profs, ags) && OnGrid(slots)
    && (dur > 0 ==> Increasing(slots) && InScan(base, days, dur, slots) && StartsBefore(slots, bound))
    && DoneBefore(base, days, dur, profs, ags, slots, bound)
  }

  /** One grid position of day `k`: append the proposal there, if any; then
      either the scan may go on or the result is complete. */
  lemma ScanStep(base: int, days: int, wanted: int, dur: int, profs: seq<Professional>,
                 ags: seq<Booking>, k: int, cursor: int, before: seq<Slot>, after: seq<Slot>)
    requires 0 <= k < days && Weekday(DayOf(base) + k) != Sunday
    requires cursor % SlotStep == 0 && FirstCursor(base, k) <= cursor
    requires cursor + dur <= WorkEnd(DayOf(base) + k)
    requires Progress(base, days, wanted, dur, profs, ags, before, cursor)
    requires Proposal(cursor, dur, profs, ags).Some? ==> after == before + [Proposal(cursor, dur, profs, ags).value]
    requires Proposal(cursor, dur, profs, ags).None? ==> after == before
    ensures |after| < wanted ==> Progress(base, days, wanted, dur, profs, ags, after, cursor + SlotStep)
    ensures dur > 0 ==> StartsBefore(after, WorkEnd(DayOf(base) + k))
    ensures |after| >= wanted ==> ValidSuggestions(base, days, wanted, dur, profs, ags, after)
  {
    var prop := Proposal(cursor, dur, profs, ags);
    if prop.Some? {
      if dur > 0 {
        CursorIsScanPosition(base, days, dur, k, cursor);
      }
      AppendKeepsOrder(base, days, dur, profs, ags, before, prop.value);
    }
    DoneStep(base, days, dur, profs, ags, cursor, before, after);
  }

  /** The inner `while` of `_suggest_slots` for the `k`-th day, a working day:
      either the cap is reached (`stop`) or the whole day has been scanned. */
  method ScanDay(base: int, days: int, wanted: int, dur: int, profs: seq<Professional>,
                 ags: seq<Booking>, k: int, slots0: seq<Slot>) returns (slots: seq<Slot>, stop: bool)
    requires 0 <= k < days && Weekday(DayOf(base) + k) != Sunday
    requires Progress(base, days, wanted, dur, profs, ags, slots0, (DayOf(base) + k) * MinutesPerDay)
    ensures stop ==> ValidSuggestions(base, days, wanted, dur, profs, ags, slots)
    ensures !stop ==> Progress(base, days, wanted, dur, profs, ags, slots, (DayOf(base) + k + 1) * MinutesPerDay)
    ensures wanted <= 0 ==> (stop <==> FirstCursor(base, k) + dur <= WorkEnd(DayOf(base) + k))
    ensures wanted <= 0 ==> slots == (if stop then AsList(Proposal(FirstCursor(base, k), dur, profs, ags)) else [])
  {
    slots := slots0;
    var day := DayOf(base) + k;
    var cursor := if k == 0 then RoundUpToStep(Max(base, WorkStart(day)), SlotStep) else WorkStart(day);
    ghost var first := cursor;
    assert first == FirstCursor(base, k);
    FirstCursorFacts(base, k);
    NoPositionBeforeFirstCursor(base, days, dur, k);
    DoneAcrossGap(base, days, dur, profs, ags, slots, day * MinutesPerDay, cursor);
    while cursor + dur <= WorkEnd(day)
      invariant first <= cursor
      invariant cursor % SlotStep == 0
      invariant Progress(base, days, wanted, dur, profs, ags, slots, cursor)
      invariant dur > 0 ==> StartsBefore(slots, WorkEnd(day))
      invariant wanted <= 0 ==> cursor == first && slots == []
      decreases WorkEnd(day) - dur - cursor
    {
      var slotStart := cursor;
      var slotEnd := cursor + dur;
      ghost var before := slots;
      var pick := FindFreeProfessional(slotStart, slotEnd, profs, ags);
      ProposalOfPick(cursor, dur, profs, ags, pick);
      if pick.Some? {
        var p := profs[pick.value];
        slots := slots + [Slot(p.id, p.name, slotStart, slotEnd)];
        assert Proposal(cursor, dur, profs, ags).value == Slot(p.id, p.name, slotStart, slotEnd);
      }
      assert slots == before + AsList(Proposal(cursor, dur, profs, ags));
      ScanStep(base, days, wanted, dur, profs, ags, k, cursor, before, slots);
      if |slots| >= wanted {
        return slots, true;
      }
      GridNext(cursor);
      cursor := cursor + SlotStep;
    }
    NoPositionAfterClose(base, days, dur, day, cursor);
    DoneAcrossGap(base, days, dur, profs, ags, slots, cursor, (day + 1) * MinutesPerDay);
    return slots, false;
  }

  /** `_suggest_slots`: day by day from the base day, skipping Sundays, and on
      each day along the 30-minute grid from the first cursor while the slot
      ends by 18:00, emit the first free professional's slot; stop as soon as
      `wanted` slots are collected (checked after every grid position). */
  method SuggestSlots(base: int, days: int, wanted: int, dur: int,
                      profs: seq<Professional>, ags: seq<Booking>) returns (slots: seq<Slot>)
    ensures Suggestions(base, days, wanted, dur, profs, ags, slots)
  {
    slots := [];
    var baseDay := DayOf(base);
    NoPositionBeforeBase(base, days, dur);
    var k := 0;
    while k < days
      invariant 0 <= k && (k <= days || k == 0)
      invariant Progress(base, days, wanted, dur, profs, ags, slots, (baseDay + k) * MinutesPerDay)
      invariant wanted <= 0 ==> FirstVisit(base, days, dur, k) == FirstVisit(base, days, dur, 0)
    {
      var day := baseDay + k;
      if Weekday(day) != Sunday {
        var stop;
        slots, stop := ScanDay(base, days, wanted, dur, profs, ags, k, slots);
        if stop {
          return;
        }
      } else {
        NoPositionOnSunday(base, days, dur, day);
        DoneAcrossGap(base, days, dur, profs, ags, slots, day * MinutesPerDay, (day + 1) * MinutesPerDay);
      }
      k := k + 1;
    }
    NoPositionBeyondHorizon(base, days, dur, k);
  }

  /** What every suggested slot satisfies: it lasts `dur` minutes inside
      09:00-18:00 of its own day, not a Sunday, within the first `days`
      calendar days and not before the base instant, and it names the first
      professional in list order who is free over it. */
  lemma SuggestedSlotFacts(base: int, days: int, wanted: int, dur: int,
                           profs: seq<Professional>, ags: seq<Booking>, slots: seq<Slot>, i: int)
    requires ValidSuggestions(base, days, wanted, dur, profs, ags, slots)
    requires dur > 0 && 0 <= i < |slots|
    ensures var s := slots[i];
            && s.end == s.start + dur
            && base <= s.start
            && WorkStart(DayOf(s.start)) <= s.start && s.end <= WorkEnd(DayOf(s.start))
            && Weekday(DayOf(s.start)) != Sunday
            && DayOf(base) <= DayOf(s.start) < DayOf(base) + days
            && s.start % SlotStep == 0
    ensures var s := slots[i];
            exists j :: 0 <= j < |profs| && profs[j].id == s.professionalId && profs[j].name == s.professionalName
                        && SlotFree(s.start, s.end, ags, profs[j].id)
                        && forall j' :: 0 <= j' < j ==> !SlotFree(s.start, s.end, ags, profs[j'].id)
  {
    var s := slots[i];
    assert IsScanPosition(base, days, dur, s.start);
    var k := DayOf(s.start) - DayOf(base);
    FirstCursorFacts(base, k);
    assert Proposal(s.start, dur, profs, ags) == Some(s);
    var j := FirstFree(s.start, s.start + dur, profs, ags).value;
    assert profs[j].id == s.professionalId;
  }
}
