/** The decision logic of `consultar_disponibilidade_tool`
    (app/ai/tools/consultar_disponibilidade_tool.py): resolve the service,
    find the professionals who perform it, check the requested time and
    suggest free slots. The HTTP fetches are inputs: the service list, the
    roster, the per-professional service lists and the bookings of a window;
    the clock reading is the instant `now`. */
module Availability {
  import opened Text
  import opened Values
  import opened Shared
  import opened Schedule
  import opened Catalog

  const CandidateLimit: nat := 10
  const EligibleLimit: nat := 10
  const DefaultDuration: int := 30

  const NoServicesMessage: string := "Nenhum serviço encontrado"
  const NoProfessionalsMessage: string := "Nenhum profissional encontrado"
  const ClarifyMessage: string := "Não consegui identificar com certeza o serviço. Sugira ao cliente escolher um."
  const NoEligibleMessage: string := "Nenhum profissional realiza esse serviço no momento."

  /** The tool's arguments. `desired` is `dataHoraDesejada` once parsed;
      `None` stands for a missing or empty argument. */
  datatype Query = Query(
    term: Option<string>,
    serviceId: Option<int>,
    professionalId: Option<int>,
    desired: Option<int>,
    days: int,
    wanted: int)

  /** The `requested` record: with a chosen professional it reports that
      professional; otherwise the first free eligible one, if any. */
  datatype Requested =
    | CheckedProfessional(start: int, end: int, available: bool, professionalId: int)
    | AnyProfessional(start: int, end: int, available: bool, suggestedProfessionalId: Option<int>)

  /** What the tool answers. `Failure` is an `{"error": ...}` result. */
  datatype Outcome =
    | Failure(message: string)
    | NeedsClarification(message: string, candidates: seq<Dict>)
    | NoEligible(service: Dict, message: string)
    | Found(service: Dict, eligible: seq<Professional>, requested: Option<Requested>,
            suggested: seq<Slot>, duration: int, days: int)

  // -------------------------------------------------------------------
  // Service resolution and duration
  // -------------------------------------------------------------------

  /** Step 2: by identifier first; by term only when that finds nothing and
      the term is non-empty. */
  function ChosenService(q: Query, services: seq<Dict>, vocab: Vocabulary): (r: Option<nat>)
    ensures r.Some? ==> r.value < |services|
    ensures q.serviceId.Some? && PickServiceById(services, q.serviceId.value).Some? ==>
              r == PickServiceById(services, q.serviceId.value)
    ensures (q.serviceId.None? || PickServiceById(services, q.serviceId.value).None?) &&
            q.term.Some? && q.term.value != "" ==>
              r == PickServiceByTerm(services, q.term.value, vocab)
    ensures (q.serviceId.None? || PickServiceById(services, q.serviceId.value).None?) &&
            (q.term.None? || q.term.value == "") ==>
              r.None?
  {
    var byId := if q.serviceId.Some? then PickServiceById(services, q.serviceId.value) else None;
    if byId.None? && q.term.Some? && q.term.value != "" then PickServiceByTerm(services, q.term.value, vocab)
    else byId
  }

  /** `_safe_int(service.get("duracaoEmMinutos")) or 30`. */
  function DurationOf(service: Dict): (d: int)
    ensures d != 0
    ensures var n := SafeInt(GetOrNone(service, "duracaoEmMinutos"));
            (n.Some? && n.value != 0 ==> d == n.value) && (n.None? || n.value == 0 ==> d == DefaultDuration)
  {
    match SafeInt(GetOrNone(service, "duracaoEmMinutos"))
    case Some(n) => if n != 0 then n else DefaultDuration
    case None => DefaultDuration
  }

  // -------------------------------------------------------------------
  // Eligibility
  // -------------------------------------------------------------------

  /** `[p for p in profs if p.get("id") == pid]`. */
  function WithId(profs: seq<Professional>, pid: int): (r: seq<Professional>)
    ensures |r| <= |profs|
    ensures forall i :: 0 <= i < |r| ==> r[i].id == pid
    ensures (exists i :: 0 <= i < |profs| && profs[i].id == pid) <==> r != []
    decreases |profs|
  {
    if profs == [] then []
    else (if profs[0].id == pid then [profs[0]] else []) + WithId(profs[1..], pid)
  }

  /** The professionals whose services are fetched: only the requested one
      when the roster has them, otherwise the whole roster. */
  function ToCheck(roster: seq<Professional>, pid: Option<int>): (r: seq<Professional>)
    ensures forall i :: 0 <= i < |r| ==> r[i] in roster
    ensures r == [] <==> roster == []
  {
    WithIdWithin(roster, if pid.Some? then pid.value else 0);
    var only := if pid.Some? then WithId(roster, pid.value) else [];
    if only == [] then roster else only
  }

  /** `any(s.get("id") == chosen_service["id"] for s in servs)`. */
  predicate Offers(servs: seq<Dict>, serviceKey: Value): (r: bool)
    ensures r <==> FirstIndex(servs, s => PyEq(GetOrNone(s, "id"), serviceKey)).Some?
  {
    exists j :: 0 <= j < |servs| && PyEq(GetOrNone(servs[j], "id"), serviceKey)
  }

  /** The members of `profs`, in order, whose service list offers the service. */
  function Eligible(profs: seq<Professional>, serviceKey: Value, offered: int -> seq<Dict>): (r: seq<Professional>)
    ensures |r| <= |profs|
    ensures forall i :: 0 <= i < |r| ==> r[i] in profs && Offers(offered(r[i].id), serviceKey)
    decreases |profs|
  {
    if profs == [] then []
    else
      var last := profs[|profs| - 1];
      Eligible(profs[..|profs| - 1], serviceKey, offered) +
      (if Offers(offered(last.id), serviceKey) then [last] else [])
  }

  /** Step 6: suggestions use the requested professional when eligible,
      otherwise every eligible professional. */
  function SuggestCandidates(eligible: seq<Professional>, pid: Option<int>): (r: seq<Professional>)
    ensures forall i :: 0 <= i < |r| ==> r[i] in eligible
    ensures r == [] <==> eligible == []
  {
    WithIdWithin(eligible, if pid.Some? then pid.value else 0);
    if pid.Some? && WithId(eligible, pid.value) != [] then WithId(eligible, pid.value) else eligible
  }

  // -------------------------------------------------------------------
  // Requested time and booking window
  // -------------------------------------------------------------------

  /** The search starts at the requested instant, or at `now`. */
  function BaseInstant(q: Query, now: int): int {
    if q.desired.Some? then q.desired.value else now
  }

  /** Midnight of the base day and `max(1, days)` days later: the window
      whose bookings are fetched. */
  function BookingWindow(base: int, days: int): (w: (int, int))
    ensures w.0 <= base < w.0 + MinutesPerDay && w.1 - w.0 == Max(1, days) * MinutesPerDay
  {
    DayOfBounds(base);
    (DayOf(base) * MinutesPerDay, DayOf(base) * MinutesPerDay + Max(1, days) * MinutesPerDay)
  }

  /** The identifier of the first professional free over [s, e), if any. */
  function FirstFreeId(s: int, e: int, profs: seq<Professional>, ags: seq<Booking>): Option<int> {
    match FirstFree(s, e, profs, ags)
    case None => None
    case Some(j) => Some(profs[j].id)
  }

  /** Step 5: the `requested` record the tool reports. */
  function RequestedCheck(q: Query, dur: int, eligible: seq<Professional>, ags: seq<Booking>): Option<Requested> {
    match q.desired
    case None => None
    case Some(t) =>
      if q.professionalId.Some? then
        Some(CheckedProfessional(t, t + dur, SlotFree(t, t + dur, ags, q.professionalId.value), q.professionalId.value))
      else
        Some(AnyProfessional(t, t + dur, FirstFree(t, t + dur, eligible, ags).Some?, FirstFreeId(t, t + dur, eligible, ags)))
  }

  /** `requested is None or requested["available"] is False`. */
  predicate NeedSuggest(requested: Option<Requested>) {
    requested.None? || !requested.value.available
  }

  // -------------------------------------------------------------------
  // The tool
  // -------------------------------------------------------------------

  /** The eligibility loop: fetch each professional's services and keep
      those offering the chosen service. */
  method CollectEligible(toCheck: seq<Professional>, serviceKey: Value, offered: int -> seq<Dict>)
    returns (eligible: seq<Professional>)
    ensures eligible == Eligible(toCheck, serviceKey, offered)
  {
    eligible := [];
    for i := 0 to |toCheck|
      invariant eligible == Eligible(toCheck[..i], serviceKey, offered)
    {
      assert toCheck[..i + 1][..i] == toCheck[..i];
      var p := toCheck[i];
      var servs := offered(p.id);
      if Offers(servs, serviceKey) {
        eligible := eligible + [p];
      }
    }
    assert toCheck[..|toCheck|] == toCheck;
  }

  /** The `ok_any` / `ok_pid` loop: the first eligible professional free
      over [s, e). */
  method FirstAvailable(s: int, e: int, eligible: seq<Professional>, ags: seq<Booking>)
    returns (okAny: bool, okPid: Option<int>)
    ensures okAny == FirstFree(s, e, eligible, ags).Some?
    ensures okPid == FirstFreeId(s, e, eligible, ags)
  {
    okAny := false;
    okPid := None;
    var i := 0;
    while i < |eligible|
      invariant 0 <= i <= |eligible|
      invariant forall j :: 0 <= j < i ==> !SlotFree(s, e, ags, eligible[j].id)
    {
      var free := IsSlotFree(s, e, ags, eligible[i].id);
      if free {
        okAny := true;
        okPid := Some(eligible[i].id);
        FirstFreeAt(s, e, eligible, ags, i);
        return;
      }
      i := i + 1;
    }
  }

  lemma FirstFreeAt(s: int, e: int, profs: seq<Professional>, ags: seq<Booking>, i: nat)
    requires i < |profs| && SlotFree(s, e, ags, profs[i].id)
    requires forall j :: 0 <= j < i ==> !SlotFree(s, e, ags, profs[j].id)
    ensures FirstFree(s, e, profs, ags) == Some(i)
  {
  }

  /** Step 5 as the tool runs it. */
  method CheckRequested(q: Query, dur: int, eligible: seq<Professional>, ags: seq<Booking>)
    returns (requested: Option<Requested>)
    ensures requested == RequestedCheck(q, dur, eligible, ags)
  {
    requested := None;
    if q.desired.Some? {
      var reqStart := q.desired.value;
      var reqEnd := reqStart + dur;
      if q.professionalId.Some? {
        var ok := IsSlotFree(reqStart, reqEnd, ags, q.professionalId.value);
        requested := Some(CheckedProfessional(reqStart, reqEnd, ok, q.professionalId.value));
      } else {
        var okAny, okPid := FirstAvailable(reqStart, reqEnd, eligible, ags);
        requested := Some(AnyProfessional(reqStart, reqEnd, okAny, okPid));
      }
    }
  }

  /** What the tool answers once the service is resolved. */
  ghost predicate ServedAs(q: Query, service: Dict, roster: seq<Professional>, offered: int -> seq<Dict>,
                           fetchBookings: (int, int) -> seq<Booking>, now: int, out: Outcome) {
    var eligible := Eligible(ToCheck(roster, q.professionalId), GetOrNone(service, "id"), offered);
    var base := BaseInstant(q, now);
    var window := BookingWindow(base, q.days);
    var ags := fetchBookings(window.0, window.1);
    var dur := DurationOf(service);
    if roster == [] then out == Failure(NoProfessionalsMessage)
    else if eligible == [] then out == NoEligible(service, NoEligibleMessage)
    else
      && out.Found?
      && out.service == service
      && out.eligible == eligible[..Min(EligibleLimit, |eligible|)]
      && out.requested == RequestedCheck(q, dur, eligible, ags)
      && out.duration == dur && out.days == q.days
      && (NeedSuggest(out.requested) ==>
            Suggestions(base, q.days, q.wanted, dur,
                        SuggestCandidates(eligible, q.professionalId), ags, out.suggested))
      && (!NeedSuggest(out.requested) ==> out.suggested == [])
  }

  /** Steps 3 to 6 of the tool for the resolved service. */
  method Serve(q: Query, service: Dict, roster: seq<Professional>, offered: int -> seq<Dict>,
               fetchBookings: (int, int) -> seq<Booking>, now: int) returns (out: Outcome)
    ensures ServedAs(q, service, roster, offered, fetchBookings, now, out)
  {
    var dur := DurationOf(service);
    if roster == [] {
      return Failure(NoProfessionalsMessage);
    }
    var toCheck: seq<Professional> := [];
    if q.professionalId.Some? {
      toCheck := WithId(roster, q.professionalId.value);
    }
    if toCheck == [] {
      toCheck := roster;
    }
    assert toCheck == ToCheck(roster, q.professionalId);
    var eligible := CollectEligible(toCheck, GetOrNone(service, "id"), offered);
    if eligible == [] {
      return NoEligible(service, NoEligibleMessage);
    }
    var base := if q.desired.Some? then q.desired.value else now;
    var window := BookingWindow(base, q.days);
    var ags := fetchBookings(window.0, window.1);
    var requested := CheckRequested(q, dur, eligible, ags);
    var suggested: seq<Slot> := [];
    if requested.None? || !requested.value.available {
      var candidates := eligible;
      if q.professionalId.Some? {
        var only := WithId(eligible, q.professionalId.value);
        if only != [] {
          candidates := only;
        }
      }
      assert candidates == SuggestCandidates(eligible, q.professionalId);
      suggested := SuggestSlots(base, q.days, q.wanted, dur, candidates, ags);
    }
    return Found(service, eligible[..Min(EligibleLimit, |eligible|)], requested, suggested, dur, q.days);
  }

  /** `consultar_disponibilidade_tool`, from the fetched snapshot to the
      answer. The early returns come in the source's order: no services, no
      service resolved, no professionals, nobody eligible. */
  method CheckAvailability(q: Query, vocab: Vocabulary, services: seq<Dict>, roster: seq<Professional>,
                           offered: int -> seq<Dict>, fetchBookings: (int, int) -> seq<Booking>, now: int)
    returns (out: Outcome)
    ensures services == [] ==> out == Failure(NoServicesMessage)
    ensures services != [] && ChosenService(q, services, vocab).None? ==>
              out == NeedsClarification(ClarifyMessage, services[..Min(CandidateLimit, |services|)])
    ensures services != [] && ChosenService(q, services, vocab).Some? ==>
              ServedAs(q, services[ChosenService(q, services, vocab).value], roster, offered, fetchBookings, now, out)
  {
    if services == [] {
      return Failure(NoServicesMessage);
    }
    var chosen: Option<nat> := None;
    if q.serviceId.Some? {
      chosen := PickServiceById(services, q.serviceId.value);
    }
    if chosen.None? && q.term.Some? && q.term.value != "" {
      chosen := PickServiceByTerm(services, q.term.value, vocab);
    }
    assert chosen == ChosenService(q, services, vocab);
    if chosen.None? {
      return NeedsClarification(ClarifyMessage, services[..Min(CandidateLimit, |services|)]);
    }
    out := Serve(q, services[chosen.value], roster, offered, fetchBookings, now);
  }

  // -------------------------------------------------------------------
  // Properties of the pipeline
  // -------------------------------------------------------------------

  /** A professional is eligible exactly when they are among those checked
      and their service list offers the service. */
  lemma {:induction false} EligibleIff(profs: seq<Professional>, serviceKey: Value,
                                       offered: int -> seq<Dict>, p: Professional)
    ensures p in Eligible(profs, serviceKey, offered) <==> p in profs && Offers(offered(p.id), serviceKey)
    decreases |profs|
  {
    if profs != [] {
      var init := profs[..|profs| - 1];
      EligibleIff(init, serviceKey, offered, p);
      assert profs == init + [profs[|profs| - 1]];
    }
  }

  /** Eligibility filters segment by segment, so roster order is kept. */
  lemma {:induction false} EligibleAppend(a: seq<Professional>, b: seq<Professional>,
                                          serviceKey: Value, offered: int -> seq<Dict>)
    ensures Eligible(a + b, serviceKey, offered) == Eligible(a, serviceKey, offered) + Eligible(b, serviceKey, offered)
    decreases |b|
  {
    if b != [] {
      var init := b[..|b| - 1];
      EligibleAppend(a, init, serviceKey, offered);
      assert (a + b)[..|a + b| - 1] == a + init;
      assert (a + b)[|a + b| - 1] == b[|b| - 1];
    } else {
      assert a + b == a;
    }
  }

  /** A roster entry is kept exactly when it carries the identifier. */
  lemma {:induction false} WithIdIff(profs: seq<Professional>, pid: int, p: Professional)
    ensures p in WithId(profs, pid) <==> p in profs && p.id == pid
    decreases |profs|
  {
    if profs != [] {
      WithIdIff(profs[1..], pid, p);
      assert profs == [profs[0]] + profs[1..];
    }
  }

  /** Every entry the filter keeps comes from the roster. */
  lemma WithIdWithin(profs: seq<Professional>, pid: int)
    ensures forall i :: 0 <= i < |WithId(profs, pid)| ==> WithId(profs, pid)[i] in profs
  {
    var r := WithId(profs, pid);
    forall i | 0 <= i < |r| ensures r[i] in profs {
      WithIdIff(profs, pid, r[i]);
    }
  }

  /** The filter works segment by segment, so roster order and repeats are kept. */
  lemma {:induction false} WithIdAppend(a: seq<Professional>, b: seq<Professional>, pid: int)
    ensures WithId(a + b, pid) == WithId(a, pid) + WithId(b, pid)
    decreases |a|
  {
    if a == [] {
      assert a + b == b;
    } else {
      WithIdAppend(a[1..], b, pid);
      assert (a + b)[0] == a[0];
      assert (a + b)[1..] == a[1..] + b;
      WithIdHead(a, pid);
      WithIdHead(a + b, pid);
    }
  }

  lemma WithIdHead(profs: seq<Professional>, pid: int)
    requires profs != []
    ensures WithId(profs, pid) == WithId([profs[0]], pid) + WithId(profs[1..], pid)
  {
    WithIdSingle(profs[0], pid);
  }

  /** A single roster entry is kept exactly when it carries the identifier. */
  lemma WithIdSingle(p: Professional, pid: int)
    ensures WithId([p], pid) == (if p.id == pid then [p] else [])
  {
    assert [p][1..] == [];
  }

  /** A requested professional who is in the roster is the only one checked;
      one who is not leaves the whole roster to be checked. */
  lemma ToCheckFacts(roster: seq<Professional>, pid: int)
    ensures (exists i :: 0 <= i < |roster| && roster[i].id == pid) ==>
              ToCheck(roster, Some(pid)) != [] &&
              forall i :: 0 <= i < |ToCheck(roster, Some(pid))| ==> ToCheck(roster, Some(pid))[i].id == pid
    ensures (forall i :: 0 <= i < |roster| ==> roster[i].id != pid) ==> ToCheck(roster, Some(pid)) == roster
    ensures ToCheck(roster, None) == roster
  {
  }

  /** No fallback: when the requested professional is in the roster but
      performs no such service, nobody is eligible, even if others are. */
  lemma NoFallbackWhenIneligible(roster: seq<Professional>, pid: int, serviceKey: Value, offered: int -> seq<Dict>)
    requires exists i :: 0 <= i < |roster| && roster[i].id == pid
    requires !Offers(offered(pid), serviceKey)
    ensures Eligible(ToCheck(roster, Some(pid)), serviceKey, offered) == []
  {
    var checked := ToCheck(roster, Some(pid));
    assert forall i :: 0 <= i < |checked| ==> checked[i].id == pid;
    NoneEligible(checked, serviceKey, offered);
  }

  /** Nobody is eligible when no service list offers the service. */
  lemma {:induction false} NoneEligible(profs: seq<Professional>, serviceKey: Value, offered: int -> seq<Dict>)
    requires forall i :: 0 <= i < |profs| ==> !Offers(offered(profs[i].id), serviceKey)
    ensures Eligible(profs, serviceKey, offered) == []
    decreases |profs|
  {
    if profs != [] {
      NoneEligible(profs[..|profs| - 1], serviceKey, offered);
    }
  }

  /** The suggestion candidates are the requested professional's entries
      when eligible, and every eligible professional otherwise. */
  lemma SuggestCandidatesFacts(eligible: seq<Professional>, pid: Option<int>)
    ensures pid.Some? && (exists i :: 0 <= i < |eligible| && eligible[i].id == pid.value) ==>
              SuggestCandidates(eligible, pid) != [] &&
              forall i :: 0 <= i < |SuggestCandidates(eligible, pid)| ==>
                SuggestCandidates(eligible, pid)[i].id == pid.value &&
                SuggestCandidates(eligible, pid)[i] in eligible
    ensures (pid.None? || forall i :: 0 <= i < |eligible| ==> eligible[i].id != pid.value) ==>
              SuggestCandidates(eligible, pid) == eligible
  {
  }

  /** With a professional named, availability is that professional's; without
      one, some eligible professional is free exactly when the record says
      available, and the one reported is the first free in list order. */
  lemma RequestedFacts(q: Query, dur: int, eligible: seq<Professional>, ags: seq<Booking>)
    requires q.desired.Some?
    ensures var r := RequestedCheck(q, dur, eligible, ags);
            var t := q.desired.value;
            r.Some? && r.value.start == t && r.value.end == t + dur
    ensures var r := RequestedCheck(q, dur, eligible, ags).value;
            var t := q.desired.value;
            q.professionalId.Some? ==>
              r.CheckedProfessional? && r.professionalId == q.professionalId.value &&
              (r.available <==> SlotFree(t, t + dur, ags, q.professionalId.value))
    ensures var r := RequestedCheck(q, dur, eligible, ags).value;
            var t := q.desired.value;
            q.professionalId.None? ==>
              r.AnyProfessional? &&
              (r.available <==> exists i :: 0 <= i < |eligible| && SlotFree(t, t + dur, ags, eligible[i].id)) &&
              (r.suggestedProfessionalId.Some? <==> r.available) &&
              (r.available ==> exists i :: 0 <= i < |eligible| && eligible[i].id == r.suggestedProfessionalId.value
                                 && SlotFree(t, t + dur, ags, eligible[i].id)
                                 && forall j :: 0 <= j < i ==> !SlotFree(t, t + dur, ags, eligible[j].id))
  {
    var t := q.desired.value;
    if q.professionalId.None? {
      var f := FirstFree(t, t + dur, eligible, ags);
      if f.Some? {
        assert eligible[f.value].id == FirstFreeId(t, t + dur, eligible, ags).value;
      }
    }
  }

  /** Every position the scan visits lies, with its whole slot, inside the
      window whose bookings were fetched. */
  lemma ScanInsideWindow(base: int, days: int, dur: int, t: int)
    requires dur > 0 && IsScanPosition(base, days, dur, t)
    ensures var w := BookingWindow(base, days);
            w.0 <= t && t + dur <= w.1
  {
    DayOfBounds(t);
    var k := DayOf(t) - DayOf(base);
    assert DayOf(t) * MinutesPerDay == DayOf(base) * MinutesPerDay + k * MinutesPerDay;
    assert k + 1 <= Max(1, days);
    assert (k + 1) * MinutesPerDay <= Max(1, days) * MinutesPerDay;
  }
}
