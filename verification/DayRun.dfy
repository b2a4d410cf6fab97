/** Whole-day runs: bookings are taken from offered slots and released again, in any
    order. Timing of a booking: src/services/bookingReservationService.js:38-58; the free
    intervals and the offers: src/services/agendaService.js:550-581, 1881-2047. */
module DayRun {
  import opened Intervals
  import opened Slots

  /** Opening hours in normal form and the bookings in force. */
  datatype Day = Day(opening: seq<Interval>, bookings: seq<Interval>)

  datatype Event =
    | Book(floor: Floor, duration: int, buffer: int, start: int)
    | Release(index: nat)

  ghost function Free(day: Day): seq<Interval> { Subtracted(day.opening, day.bookings) }

  /** calculateReservationTiming: negative parts count as zero. */
  function TotalMinutes(duration: int, buffer: int): nat {
    (if duration < 0 then 0 else duration) + (if buffer < 0 then 0 else buffer)
  }

  function Booked(event: Event): Interval
    requires event.Book?
  {
    Interval(event.start, event.start + TotalMinutes(event.duration, event.buffer))
  }

  ghost predicate IsOffered(day: Day, event: Event, minSellable: nat)
    requires event.Book?
  {
    exists slot: Slot :: slot.start == event.start
      && slot in AllOffered(Sellable(Free(day), event.floor), TotalMinutes(event.duration, event.buffer),
                            SLOT_INTERVAL_MINUTES, minSellable)
  }

  /** Only offered slots are booked, and only bookings of at least the minimum are released. */
  ghost predicate Enabled(day: Day, event: Event, minSellable: nat) {
    match event
    case Book(_, _, _, _) => IsOffered(day, event, minSellable)
    case Release(index) =>
      index < |day.bookings| && day.bookings[index].end - day.bookings[index].start >= minSellable
  }

  function Without(bookings: seq<Interval>, index: nat): seq<Interval>
    requires index < |bookings|
  {
    bookings[..index] + bookings[index + 1..]
  }

  ghost function Next(day: Day, event: Event): Day
    requires event.Release? ==> event.index < |day.bookings|
  {
    match event
    case Book(_, _, _, _) => day.(bookings := day.bookings + [Booked(event)])
    case Release(index) => day.(bookings := Without(day.bookings, index))
  }

  ghost predicate IsRun(days: seq<Day>, events: seq<Event>, minSellable: nat) {
    && |days| == |events| + 1
    && (forall i :: 0 <= i < |events| ==> Enabled(days[i], events[i], minSellable) && days[i + 1] == Next(days[i], events[i]))
  }

  // ------------------------------------------------------------- invariants

  /** Bookings lie inside the opening hours and no minute is booked twice. */
  ghost predicate BookingsApart(day: Day) {
    && (forall i, p :: 0 <= i < |day.bookings| && Has(day.bookings[i], p) ==> Covers(day.opening, p))
    && (forall i, j, p :: 0 <= i < j < |day.bookings| && Has(day.bookings[i], p) ==> !Has(day.bookings[j], p))
  }

  ghost predicate GapsSellable(day: Day, minSellable: nat) {
    forall k :: 0 <= k < |Free(day)| ==> Free(day)[k].end - Free(day)[k].start >= minSellable
  }

  ghost predicate DayOk(day: Day) { Separated(day.opening) && BookingsApart(day) }

  /** The free interval a booking starts in, untrimmed. */
  ghost predicate GapOf(day: Day, k: nat, booked: Interval) {
    k < |Free(day)| && Free(day)[k].start <= booked.start && booked.end <= Free(day)[k].end
  }

  // ------------------------------------------------------------------ offers

  lemma FreePoints(day: Day)
    requires Separated(day.opening)
    ensures Separated(Free(day))
    ensures forall p :: Covers(Free(day), p) <==> Covers(day.opening, p) && !Covers(day.bookings, p)
  {
    SubtractedPoints(day.opening, day.bookings);
    SubtractedNormal(day.opening, day.bookings);
  }

  /** Each trimmed interval comes from one free interval, clipped at the floor. */
  lemma {:induction false} TrimmedOrigin(free: seq<Interval>, floor: int, k: nat) returns (j: nat)
    requires k < |Trimmed(free, floor)|
    ensures j < |free| && Trimmed(free, floor)[k].end == free[j].end
    ensures Trimmed(free, floor)[k].start == if free[j].start < floor then floor else free[j].start
  {
    if !NonEmpty(free[0]) || free[0].end <= floor {
      j := TrimmedOrigin(free[1..], floor, k);
      j := j + 1;
    } else if k == 0 {
      j := 0;
    } else {
      j := TrimmedOrigin(free[1..], floor, k - 1);
      j := j + 1;
    }
  }

  /** An offered start sits in a free gap; what stays after it is sellable, and so is what
      stays before it when no floor clipped the gap. */
  lemma OfferSitsInGap(day: Day, event: Event, minSellable: nat) returns (k: nat)
    requires event.Book? && IsOffered(day, event, minSellable)
    ensures GapOf(day, k, Booked(event))
    ensures !Unsellable(Free(day)[k].end - Booked(event).end, minSellable)
    ensures event.floor.NoFloor? ==> !Unsellable(event.start - Free(day)[k].start, minSellable)
  {
    var total := TotalMinutes(event.duration, event.buffer);
    var frees := Sellable(Free(day), event.floor);
    var slot: Slot :| slot.start == event.start && slot in AllOffered(frees, total, SLOT_INTERVAL_MINUTES, minSellable);
    AllOfferedMember(frees, total, SLOT_INTERVAL_MINUTES, minSellable, slot);
    var j :| 0 <= j < |frees| && OfferedBy(frees[j], total, SLOT_INTERVAL_MINUTES, minSellable, slot);
    SlotGeneration(frees[j], total, SLOT_INTERVAL_MINUTES, minSellable);
    if event.floor.NoFloor? {
      k := j;
    } else {
      k := TrimmedOrigin(Free(day), event.floor.at, j);
    }
  }

  /** The bookings of a day as the pipeline reads them. */
  function AsBusy(bookings: seq<Interval>): seq<Busy> {
    seq(|bookings|, i requires 0 <= i < |bookings| => Busy(bookings[i], Appointment))
  }

  /** A booking is offered exactly when its service and buffer together must be offered on the day. */
  lemma OfferedIff(day: Day, event: Event, minSellable: nat)
    requires Separated(day.opening) && event.Book?
    ensures IsOffered(day, event, minSellable) <==>
      exists slot: Slot ::
        slot.start == event.start
        && MustOffer(day.opening, AsBusy(day.bookings), event.floor,
                     (if event.duration > 0 then event.duration else 0) + (if event.buffer > 0 then event.buffer else 0), minSellable, slot)
  {
    assert Spans(AsBusy(day.bookings)) == day.bookings;
    forall slot: Slot {
      OffersExact(day.opening, AsBusy(day.bookings), event.floor, TotalMinutes(event.duration, event.buffer), minSellable, slot);
    }
  }

  /** An offered booking takes only open minutes no other booking has, for the service and for the
      buffer after it. */
  lemma ServiceAndBufferFree(day: Day, event: Event, minSellable: nat, p: int)
    requires DayOk(day) && event.Book? && IsOffered(day, event, minSellable)
    requires event.start <= p
    requires p < event.start + (if event.duration > 0 then event.duration else 0) + (if event.buffer > 0 then event.buffer else 0)
    ensures Covers(day.opening, p) && forall i :: 0 <= i < |day.bookings| ==> !(day.bookings[i].start <= p < day.bookings[i].end)
    ensures |Next(day, event).bookings| == |day.bookings| + 1 && Has(Next(day, event).bookings[|day.bookings|], p)
  {
    var k := OfferSitsInGap(day, event, minSellable);
    FreePoints(day);
    assert Has(Free(day)[k], p);
    assert Covers(Free(day), p);
    forall i | 0 <= i < |day.bookings| ensures !(day.bookings[i].start <= p < day.bookings[i].end) {
      if Has(day.bookings[i], p) { assert false; }
    }
  }

  // ----------------------------------------------------------- booking steps

  lemma BookedPoints(day: Day, event: Event, p: int)
    requires event.Book?
    ensures Covers(Next(day, event).bookings, p) <==> Covers(day.bookings, p) || Has(Booked(event), p)
  {
    CoversConcat(day.bookings, [Booked(event)], p);
    CoversSingle(Booked(event), p);
  }

  lemma BookKeepsApart(day: Day, event: Event, minSellable: nat)
    requires DayOk(day) && event.Book? && IsOffered(day, event, minSellable)
    ensures DayOk(Next(day, event))
  {
    var k := OfferSitsInGap(day, event, minSellable);
    FreePoints(day);
    var booked := Booked(event);
    forall p | Has(booked, p) ensures Covers(day.opening, p) && !Covers(day.bookings, p) {
      assert Has(Free(day)[k], p);
      assert Covers(Free(day), p);
    }
    forall i, p | 0 <= i < |day.bookings| && Has(day.bookings[i], p) ensures !Has(booked, p) {
      assert Covers(day.bookings, p);
    }
  }

  lemma ReleaseKeepsApart(day: Day, index: nat)
    requires DayOk(day) && index < |day.bookings|
    ensures DayOk(Next(day, Release(index)))
  {
    var rest := Without(day.bookings, index);
    assert forall i :: 0 <= i < |rest| ==> rest[i] == day.bookings[if i < index then i else i + 1];
  }

  /** Bookings stay apart and inside the opening hours along every run, floors included. */
  lemma {:induction false} RunKeepsBookingsApart(days: seq<Day>, events: seq<Event>, minSellable: nat)
    requires IsRun(days, events, minSellable) && DayOk(days[0])
    ensures forall i :: 0 <= i < |days| ==> DayOk(days[i])
    decreases |events|
  {
    if events != [] {
      var n := |events| - 1;
      RunKeepsBookingsApart(days[..n + 1], events[..n], minSellable);
      assert days[..n + 1][n] == days[n];
      match events[n]
      case Book(_, _, _, _) => BookKeepsApart(days[n], events[n], minSellable);
      case Release(index) => ReleaseKeepsApart(days[n], index);
      assert DayOk(days[n + 1]);
      assert forall i :: 0 <= i < n + 1 ==> days[..n + 1][i] == days[i];
    }
  }

  /** After a booking, each free run is an old one or a residue of the chosen gap. */
  lemma RunAfterBooking(day: Day, event: Event, k: nat, h: nat)
    requires DayOk(day) && event.Book? && GapOf(day, k, Booked(event)) && NonEmpty(Booked(event))
    requires h < |Free(Next(day, event))| && Separated(day.opening)
    ensures var run, gap := Free(Next(day, event))[h], Free(day)[k];
            || run in Free(day)
            || run == Interval(gap.start, Booked(event).start)
            || run == Interval(Booked(event).end, gap.end)
  {
    var after, booked := Next(day, event), Booked(event);
    FreePoints(day);
    FreePoints(after);
    var run, gap := Free(after)[h], Free(day)[k];
    forall p ensures Covers(Free(after), p) <==> Covers(Free(day), p) && !Has(booked, p) { BookedPoints(day, event, p); }
    forall p | Has(run, p) ensures Covers(Free(day), p) && !Has(booked, p) {
      assert Covers(Free(after), p);
    }
    var g := StretchInOneRun(Free(day), run.start, run.end);
    var old_ := Free(day)[g];
    EndUncovered(Free(day), g);
    EdgeUncovered(Free(day), g);
    if g != k {
      forall p | Has(old_, p) ensures Covers(Free(after), p) {
        assert Covers(Free(day), p);
        if Has(booked, p) { SameRun(Free(day), g, k, p); }
      }
      var h' := MaximalStretch(Free(after), old_.start, old_.end);
      SameRun(Free(after), h, h', run.start);
    } else {
      assert !Has(run, booked.start);
      if run.end <= booked.start {
        forall p | gap.start <= p < booked.start ensures Covers(Free(after), p) {
          assert Has(gap, p);
          assert Covers(Free(day), p);
        }
        assert Has(booked, booked.start);
        var h' := MaximalStretch(Free(after), gap.start, booked.start);
        SameRun(Free(after), h, h', run.start);
      } else {
        assert booked.end <= run.start by { assert !Has(booked, run.start); }
        forall p | booked.end <= p < gap.end ensures Covers(Free(after), p) {
          assert Has(gap, p);
          assert Covers(Free(day), p);
        }
        assert Has(booked, booked.end - 1);
        var h' := MaximalStretch(Free(after), booked.end, gap.end);
        SameRun(Free(after), h, h', run.start);
      }
    }
  }

  /** A booking keeps every free gap sellable exactly when it starts at the edge of its
      gap or leaves at least the minimum before it; a zero-length booking changes nothing. */
  lemma BookKeepsGapsIff(day: Day, event: Event, k: nat, minSellable: nat)
    requires DayOk(day) && GapsSellable(day, minSellable)
    requires event.Book? && IsOffered(day, event, minSellable) && GapOf(day, k, Booked(event))
    requires NonEmpty(Booked(event))
    ensures GapsSellable(Next(day, event), minSellable)
       <==> !Unsellable(event.start - Free(day)[k].start, minSellable)
  {
    var after, booked := Next(day, event), Booked(event);
    var gap := Free(day)[k];
    FreePoints(day);
    var k' := OfferSitsInGap(day, event, minSellable);
    assert Has(Free(day)[k], booked.start) && Has(Free(day)[k'], booked.start);
    SameRun(Free(day), k, k', booked.start);
    BookKeepsApart(day, event, minSellable);
    FreePoints(after);
    if !Unsellable(event.start - gap.start, minSellable) {
      forall h | 0 <= h < |Free(after)| ensures Free(after)[h].end - Free(after)[h].start >= minSellable {
        RunAfterBooking(day, event, k, h);
        assert NonEmpty(Free(after)[h]);
      }
    } else {
      var h := LeftResidueIsRun(day, event, k);
      assert Free(after)[h].end - Free(after)[h].start < minSellable;
    }
  }

  lemma LeftResidueIsRun(day: Day, event: Event, k: nat) returns (h: nat)
    requires DayOk(day) && event.Book? && GapOf(day, k, Booked(event)) && NonEmpty(Booked(event))
    requires Free(day)[k].start < event.start
    ensures h < |Free(Next(day, event))| && Free(Next(day, event))[h] == Interval(Free(day)[k].start, event.start)
  {
    var after, booked, gap := Next(day, event), Booked(event), Free(day)[k];
    FreePoints(day);
    FreePoints(after);
    forall p ensures Covers(Free(after), p) <==> Covers(Free(day), p) && !Has(booked, p) { BookedPoints(day, event, p); }
    EdgeUncovered(Free(day), k);
    assert Has(booked, booked.start);
    forall p | gap.start <= p < booked.start ensures Covers(Free(after), p) {
      assert Has(gap, p);
      assert Covers(Free(day), p);
    }
    h := MaximalStretch(Free(after), gap.start, booked.start);
  }

  lemma EmptyBookingKeepsFree(day: Day, event: Event)
    requires Separated(day.opening) && event.Book? && !NonEmpty(Booked(event))
    ensures Free(Next(day, event)) == Free(day)
  {
    FreePoints(day);
    FreePoints(Next(day, event));
    forall p ensures Covers(Free(Next(day, event)), p) <==> Covers(Free(day), p) { BookedPoints(day, event, p); }
    NormalFormUnique(Free(Next(day, event)), Free(day));
  }

  /** Releasing a booking of at least the minimum leaves no short gap behind. */
  lemma ReleaseKeepsGaps(day: Day, index: nat, minSellable: nat)
    requires DayOk(day) && GapsSellable(day, minSellable)
    requires Enabled(day, Release(index), minSellable)
    ensures GapsSellable(Next(day, Release(index)), minSellable)
  {
    var after, released := Next(day, Release(index)), day.bookings[index];
    ReleaseKeepsApart(day, index);
    FreePoints(day);
    FreePoints(after);
    ReleasedPoints(day, index);
    forall h | 0 <= h < |Free(after)| ensures Free(after)[h].end - Free(after)[h].start >= minSellable {
      var run := Free(after)[h];
      assert Has(run, run.start);
      assert Covers(Free(after), run.start);
      if Covers(Free(day), run.start) {
        var g :| 0 <= g < |Free(day)| && Has(Free(day)[g], run.start);
        RunSwallows(after, h, Free(day)[g], run.start);
      } else {
        RunSwallows(after, h, released, run.start);
      }
    }
  }

  lemma RunSwallows(after: Day, h: nat, part: Interval, p: int)
    requires Separated(Free(after)) && h < |Free(after)| && Has(Free(after)[h], p) && Has(part, p)
    requires forall q :: Has(part, q) ==> Covers(Free(after), q)
    ensures Free(after)[h].start <= part.start && part.end <= Free(after)[h].end
  {
    var h' := StretchInOneRun(Free(after), part.start, part.end);
    SameRun(Free(after), h, h', p);
  }

  lemma ReleasedPoints(day: Day, index: nat)
    requires DayOk(day) && index < |day.bookings|
    ensures var after := Next(day, Release(index));
            forall p :: Covers(Free(after), p) <==> Covers(Free(day), p) || Has(day.bookings[index], p)
    ensures forall q, g :: 0 <= g < |Free(day)| && Has(Free(day)[g], q) ==> Covers(Free(Next(day, Release(index))), q)
  {
    var after := Next(day, Release(index));
    var rest := Without(day.bookings, index);
    FreePoints(day);
    FreePoints(after);
    assert day.bookings == day.bookings[..index] + ([day.bookings[index]] + day.bookings[index + 1..]);
    forall p ensures Covers(Free(after), p) <==> Covers(Free(day), p) || Has(day.bookings[index], p) {
      CoversConcat(day.bookings[..index], [day.bookings[index]] + day.bookings[index + 1..], p);
      CoversConcat([day.bookings[index]], day.bookings[index + 1..], p);
      CoversConcat(day.bookings[..index], day.bookings[index + 1..], p);
      CoversSingle(day.bookings[index], p);
      forall j | 0 <= j < |rest| && Has(day.bookings[index], p) ensures !Has(rest[j], p) {
        assert rest[j] == day.bookings[if j < index then j else j + 1];
      }
    }
    forall q, g | 0 <= g < |Free(day)| && Has(Free(day)[g], q) ensures Covers(Free(after), q) {
      assert Covers(Free(day), q);
    }
  }

  /** A booking of some minutes starts at the edge of its gap or leaves the minimum before it. */
  ghost predicate SparesGap(day: Day, event: Event, minSellable: nat) {
    event.Book? && NonEmpty(Booked(event)) ==>
      forall k: nat :: GapOf(day, k, Booked(event)) ==> !Unsellable(event.start - Free(day)[k].start, minSellable)
  }

  lemma StepKeepsGapsIff(day: Day, event: Event, minSellable: nat)
    requires DayOk(day) && GapsSellable(day, minSellable) && Enabled(day, event, minSellable)
    ensures GapsSellable(Next(day, event), minSellable) <==> SparesGap(day, event, minSellable)
  {
    if event.Release? {
      ReleaseKeepsGaps(day, event.index, minSellable);
    } else if NonEmpty(Booked(event)) {
      var k := OfferSitsInGap(day, event, minSellable);
      BookKeepsGapsIff(day, event, k, minSellable);
      FreePoints(day);
      forall j: nat | GapOf(day, j, Booked(event)) ensures j == k {
        assert Has(Free(day)[j], event.start) && Has(Free(day)[k], event.start);
        SameRun(Free(day), j, k, event.start);
      }
    } else {
      EmptyBookingKeepsFree(day, event);
    }
  }

  ghost predicate AllSellable(days: seq<Day>, minSellable: nat) {
    forall i :: 0 <= i < |days| ==> GapsSellable(days[i], minSellable)
  }

  ghost predicate AllSpare(days: seq<Day>, events: seq<Event>, minSellable: nat)
    requires |days| == |events| + 1
  {
    forall i :: 0 <= i < |events| ==> SparesGap(days[i], events[i], minSellable)
  }

  lemma SellableSnoc(days: seq<Day>, minSellable: nat)
    requires |days| > 0
    ensures var n := |days| - 1; AllSellable(days, minSellable) <==> AllSellable(days[..n], minSellable) && GapsSellable(days[n], minSellable)
  {
    var n := |days| - 1;
    assert forall i :: 0 <= i < n ==> days[..n][i] == days[i];
    if AllSellable(days[..n], minSellable) && GapsSellable(days[n], minSellable) {
      forall i | 0 <= i < |days| ensures GapsSellable(days[i], minSellable) {
        if i < n { assert GapsSellable(days[..n][i], minSellable); }
      }
    }
  }

  lemma SpareSnoc(days: seq<Day>, events: seq<Event>, minSellable: nat)
    requires |days| == |events| + 1 && |events| > 0
    ensures var n := |events| - 1;
      AllSpare(days, events, minSellable) <==>
        AllSpare(days[..n + 1], events[..n], minSellable) && SparesGap(days[n], events[n], minSellable)
  {
    var n := |events| - 1;
    assert forall i :: 0 <= i < n ==> days[..n + 1][i] == days[i] && events[..n][i] == events[i];
    if AllSpare(days[..n + 1], events[..n], minSellable) && SparesGap(days[n], events[n], minSellable) {
      forall i | 0 <= i < |events| ensures SparesGap(days[i], events[i], minSellable) {
        if i < n { assert SparesGap(days[..n + 1][i], events[..n][i], minSellable); }
      }
    }
  }

  /** Every run, floors of today included: all its days have only sellable gaps exactly when
      every booking of some minutes starts at the edge of its gap or leaves the minimum
      before it. */
  lemma {:induction false} RunKeepsGapsIff(days: seq<Day>, events: seq<Event>, minSellable: nat)
    requires IsRun(days, events, minSellable) && DayOk(days[0]) && GapsSellable(days[0], minSellable)
    ensures AllSellable(days, minSellable) <==> AllSpare(days, events, minSellable)
    decreases |events|
  {
    if events != [] {
      var n := |events| - 1;
      RunKeepsBookingsApart(days, events, minSellable);
      PrefixIsRun(days, events, minSellable);
      RunKeepsGapsIff(days[..n + 1], events[..n], minSellable);
      SellableSnoc(days, minSellable);
      SpareSnoc(days, events, minSellable);
      if AllSellable(days[..n + 1], minSellable) {
        assert GapsSellable(days[..n + 1][n], minSellable);
        StepKeepsGapsIff(days[n], events[n], minSellable);
      }
    } else {
      assert days == [days[0]];
    }
  }

  lemma PrefixIsRun(days: seq<Day>, events: seq<Event>, minSellable: nat)
    requires IsRun(days, events, minSellable) && |events| > 0
    ensures var n := |events| - 1;
      IsRun(days[..n + 1], events[..n], minSellable) && days[..n + 1][0] == days[0] && days[..n + 1][n] == days[n]
  {
  }

  /** Days other than today: no floor ever clips a gap. */
  ghost predicate Unclipped(events: seq<Event>) {
    forall i :: 0 <= i < |events| && events[i].Book? ==> events[i].floor.NoFloor?
  }

  lemma UnclippedSpares(day: Day, event: Event, minSellable: nat)
    requires DayOk(day) && Enabled(day, event, minSellable) && (event.Book? ==> event.floor.NoFloor?)
    ensures SparesGap(day, event, minSellable)
  {
    if event.Book? && NonEmpty(Booked(event)) {
      var k := OfferSitsInGap(day, event, minSellable);
      FreePoints(day);
      forall j: nat | GapOf(day, j, Booked(event)) ensures j == k {
        assert Has(Free(day)[j], event.start) && Has(Free(day)[k], event.start);
        SameRun(Free(day), j, k, event.start);
      }
    }
  }

  /** So on days other than today every day reached by taking offered slots and releasing
      bookings keeps bookings apart, inside hours, and every gap sellable. */
  lemma RunKeepsGapsSellable(days: seq<Day>, events: seq<Event>, minSellable: nat)
    requires IsRun(days, events, minSellable) && Unclipped(events)
    requires DayOk(days[0]) && GapsSellable(days[0], minSellable)
    ensures forall i :: 0 <= i < |days| ==> DayOk(days[i]) && GapsSellable(days[i], minSellable)
  {
    RunKeepsBookingsApart(days, events, minSellable);
    forall i | 0 <= i < |events| ensures SparesGap(days[i], events[i], minSellable) {
      UnclippedSpares(days[i], events[i], minSellable);
    }
    RunKeepsGapsIff(days, events, minSellable);
  }

  lemma LoneGap(iv: Interval)
    requires NonEmpty(iv)
    ensures DayOk(Day([iv], [])) && Free(Day([iv], [])) == [iv]
  {
    assert [iv][1..] == [];
    assert Subtracted([iv], []) == Carve(iv.start, iv.end, []) + Subtracted([], []);
  }

  lemma LoneClippedOffer(iv: Interval, floor: int, duration: nat, minSellable: nat)
    requires iv.start < floor < iv.end && Aligned(floor, SLOT_INTERVAL_MINUTES)
    requires duration > 0 && floor + duration + minSellable <= iv.end
    ensures IsOffered(Day([iv], []), Book(Floor(floor), duration, 0, floor), minSellable)
  {
    LoneGap(iv);
    var clipped := Interval(floor, iv.end);
    assert [iv][1..] == [];
    assert Trimmed([iv], floor) == [clipped] + Trimmed([], floor);
    assert Sellable([iv], Floor(floor)) == [clipped];
    SlotGeneration(clipped, duration, SLOT_INTERVAL_MINUTES, minSellable);
    assert OfferedBy([clipped][0], duration, SLOT_INTERVAL_MINUTES, minSellable, SlotAt(clipped, floor, duration));
    AllOfferedMember([clipped], duration, SLOT_INTERVAL_MINUTES, minSellable, SlotAt(clipped, floor, duration));
    assert SlotAt(clipped, floor, duration).start == floor;
  }

  /** Today's floor can break it: with the minimum at 10, a gap 600-720 clipped at 605 is
      offered from 605, and taking that slot strands the five minutes before it. */
  lemma FloorStrandsShortGap()
    ensures var day := Day([Interval(600, 720)], []);
            var event := Book(Floor(605), 30, 0, 605);
            && DayOk(day) && GapsSellable(day, 10) && IsOffered(day, event, 10)
            && !GapsSellable(Next(day, event), 10)
  {
    var day := Day([Interval(600, 720)], []);
    var event := Book(Floor(605), 30, 0, 605);
    LoneGap(Interval(600, 720));
    LoneClippedOffer(Interval(600, 720), 605, 30, 10);
    assert GapOf(day, 0, Booked(event));
    BookKeepsGapsIff(day, event, 0, 10);
  }
}
