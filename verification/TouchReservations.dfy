/**
 The counter as requests share it, and the reservation a handler holds between
 Reserve and Settle (internal/api/touchcounter.go): every run of requests is a run
 of the system in TouchRuns, with each reservation owned by the request that made it.
 */
module TouchReservations {
  import opened TouchCounter
  import opened TouchRuns

  const MAX_PAGE := 50

  /** A request, told apart from every other. */
  type Request = nat

  datatype Entry = Entry(who: Request, event: Event)

  datatype Ticket = Ticket(who: Request, booking: Booking)

  function Events(log: seq<Entry>): seq<Event> {
    seq(|log|, i requires 0 <= i < |log| => log[i].event)
  }

  function Bookings(tickets: seq<Ticket>): seq<Booking> {
    seq(|tickets|, i requires 0 <= i < |tickets| => tickets[i].booking)
  }

  /** What one request has done to the counter. */
  function Mine(log: seq<Entry>, who: Request): seq<Event> {
    if log == [] then []
    else Mine(log[..|log| - 1], who) + if log[|log| - 1].who == who then [log[|log| - 1].event] else []
  }

  function Own(t: Ticket, who: Request): seq<Booking> {
    if t.who == who then [t.booking] else []
  }

  /** The reservations a request holds. */
  function HeldBy(tickets: seq<Ticket>, who: Request): seq<Booking> {
    if tickets == [] then [] else Own(tickets[0], who) + HeldBy(tickets[1..], who)
  }

  lemma Associates<T>(a: seq<T>, b: seq<T>, c: seq<T>)
    ensures a + b + c == a + (b + c)
  {
  }

  lemma {:induction false} HeldConcat(a: seq<Ticket>, b: seq<Ticket>, who: Request)
    ensures HeldBy(a + b, who) == HeldBy(a, who) + HeldBy(b, who)
  {
    if a == [] {
      assert a + b == b;
    } else {
      assert (a + b)[0] == a[0] && (a + b)[1..] == a[1..] + b;
      HeldConcat(a[1..], b, who);
      Associates(Own(a[0], who), HeldBy(a[1..], who), HeldBy(b, who));
    }
  }

  lemma HeldSingle(t: Ticket, who: Request)
    ensures HeldBy([t], who) == Own(t, who)
  {
    assert HeldBy([t][1..], who) == [];
  }

  lemma HeldAround(tickets: seq<Ticket>, i: nat, who: Request)
    requires i < |tickets|
    ensures HeldBy(tickets, who) == HeldBy(tickets[..i], who) + (Own(tickets[i], who) + HeldBy(tickets[i + 1..], who))
  {
    assert tickets == tickets[..i] + tickets[i..];
    HeldConcat(tickets[..i], tickets[i..], who);
    assert tickets[i..][1..] == tickets[i + 1..];
  }

  /** Taking a ticket out takes it from its holder and from nobody else. */
  lemma HeldRemove(tickets: seq<Ticket>, i: nat, who: Request)
    requires i < |tickets|
    ensures tickets[i].who != who ==> HeldBy(tickets[..i] + tickets[i + 1..], who) == HeldBy(tickets, who)
    ensures tickets[i].who == who && |HeldBy(tickets, who)| == 1 ==>
              HeldBy(tickets[..i] + tickets[i + 1..], who) == [] && HeldBy(tickets, who) == [tickets[i].booking]
  {
    HeldAround(tickets, i, who);
    HeldConcat(tickets[..i], tickets[i + 1..], who);
    OnlyMiddle(HeldBy(tickets[..i], who), Own(tickets[i], who), HeldBy(tickets[i + 1..], who));
  }

  lemma OnlyMiddle<T>(a: seq<T>, b: seq<T>, c: seq<T>)
    ensures b == [] ==> a + (b + c) == a + c
    ensures |b| == 1 && |a + (b + c)| == 1 ==> a == [] && c == [] && a + (b + c) == b
  {
    assert |a + (b + c)| == |a| + |b| + |c|;
  }

  lemma {:induction false} HolderHasTicket(tickets: seq<Ticket>, who: Request)
    requires HeldBy(tickets, who) != []
    ensures exists i :: 0 <= i < |tickets| && tickets[i].who == who
  {
    if tickets[0].who != who {
      HolderHasTicket(tickets[1..], who);
      var i :| 0 <= i < |tickets[1..]| && tickets[1..][i].who == who;
      assert tickets[i + 1].who == who;
    }
  }

  /** Where a request's one ticket is, and that it has none once this is taken out. */
  lemma PlaceHeld(tickets: seq<Ticket>, who: Request, booking: Booking) returns (i: nat)
    requires HeldBy(tickets, who) == [booking]
    ensures i < |tickets| && tickets[i] == Ticket(who, booking)
    ensures HeldBy(tickets[..i] + tickets[i + 1..], who) == []
  {
    HolderHasTicket(tickets, who);
    i :| 0 <= i < |tickets| && tickets[i].who == who;
    HeldRemove(tickets, i, who);
  }

  lemma MineMore(log: seq<Entry>, e: Entry, who: Request)
    ensures Mine(log + [e], who) == Mine(log, who) + if e.who == who then [e.event] else []
  {
    assert (log + [e])[..|log|] == log;
  }

  /** What ties the shared state to a run of the system. */
  ghost predicate InStep(cfg: Config, origin: Time, clock: Time, counter: State, log: seq<Entry>,
                         tickets: seq<Ticket>)
  {
    && Legal(cfg, MAX_PAGE, Start(origin), Events(log))
    && var y := Run(cfg, MAX_PAGE, Start(origin), Events(log));
       && y.counter == counter
       && y.inFlight == Bookings(tickets)
       && y.clock <= clock
  }

  lemma InStepMore(cfg: Config, origin: Time, clock: Time, counter: State, log: seq<Entry>, tickets: seq<Ticket>,
                   e: Entry, clock': Time, counter': State, tickets': seq<Ticket>)
    requires InStep(cfg, origin, clock, counter, log, tickets)
    requires var y := Run(cfg, MAX_PAGE, Start(origin), Events(log));
             && Enabled(MAX_PAGE, y, e.event)
             && var z := Next(cfg, MAX_PAGE, y, e.event);
                z.counter == counter' && z.inFlight == Bookings(tickets') && z.clock <= clock'
    ensures InStep(cfg, origin, clock', counter', log + [e], tickets')
  {
    RunMore(cfg, MAX_PAGE, Start(origin), Events(log), e.event);
    assert Events(log + [e]) == Events(log) + [e.event];
  }

  lemma SettleStep(cfg: Config, origin: Time, clock: Time, counter: State, log: seq<Entry>, tickets: seq<Ticket>,
                   e: Entry, i: nat, less: seq<Ticket>)
    requires InStep(cfg, origin, clock, counter, log, tickets)
    requires i < |tickets| && e.event.Finish? && e.event.index == i && |e.event.ids| <= tickets[i].booking.size
    requires less == tickets[..i] + tickets[i + 1..]
    ensures InStep(cfg, origin, clock, Settled(counter, tickets[i].booking.sub, e.event.ids, tickets[i].booking.size),
                   log + [e], less)
  {
    var y := Run(cfg, MAX_PAGE, Start(origin), Events(log));
    assert Bookings(less) == Bookings(tickets)[..i] + Bookings(tickets)[i + 1..];
    NextIsTheCounters(cfg, MAX_PAGE, y, e.event);
    InStepMore(cfg, origin, clock, counter, log, tickets, e, clock,
               Settled(counter, tickets[i].booking.sub, e.event.ids, tickets[i].booking.size), less);
  }

  /** What requests other than `who` leave as it is: what `who` has done, and what it holds. */
  ghost predicate Undisturbed(who: Request, log: seq<Entry>, tickets: seq<Ticket>, log': seq<Entry>,
                              tickets': seq<Ticket>)
  {
    log <= log' && Mine(log', who) == Mine(log, who) && HeldBy(tickets', who) == HeldBy(tickets, who)
  }

  lemma BookingUndisturbing(log: seq<Entry>, tickets: seq<Ticket>, e: Entry, booking: Booking, log': seq<Entry>,
                            tickets': seq<Ticket>)
    requires log' == log + [e] && (tickets' == tickets || tickets' == tickets + [Ticket(e.who, booking)])
    ensures forall other :: other != e.who ==> Undisturbed(other, log, tickets, log', tickets')
  {
    forall other | other != e.who
      ensures Undisturbed(other, log, tickets, log', tickets')
    {
      MineMore(log, e, other);
      HeldConcat(tickets, [Ticket(e.who, booking)], other);
      HeldSingle(Ticket(e.who, booking), other);
    }
  }

  lemma RemovalUndisturbing(log: seq<Entry>, tickets: seq<Ticket>, e: Entry, i: nat, log': seq<Entry>,
                            tickets': seq<Ticket>)
    requires i < |tickets| && tickets[i].who == e.who && log' == log + [e]
             && tickets' == tickets[..i] + tickets[i + 1..]
    ensures forall other :: other != e.who ==> Undisturbed(other, log, tickets, log', tickets')
  {
    forall other | other != e.who
      ensures Undisturbed(other, log, tickets, log', tickets')
    {
      MineMore(log, e, other);
      HeldRemove(tickets, i, other);
    }
  }

  /** A request's events with one settlement added. */
  predicate Closes(before: seq<Event>, after: seq<Event>, ids: set<string>) {
    |after| == |before| + 1 && before <= after && after[|before|].Finish? && after[|before|].ids == ids
  }

  /**
   The i-th step of the log is this request's question to the counter, answered `ok`: as the
   counter then was, the records touched and reserved in the caller's live window, if it had
   one, were fewer than the cap.
   */
  ghost predicate AskedAt(cfg: Config, origin: Time, log: seq<Entry>, who: Request, i: nat, ok: bool) {
    && i < |log| && log[i].who == who && log[i].event.Arrive?
    && Legal(cfg, MAX_PAGE, Start(origin), Events(log[..i]))
    && var before := Run(cfg, MAX_PAGE, Start(origin), Events(log[..i])).counter.windows;
       var sub, now := log[i].event.sub, log[i].event.now;
       ok <==> (if sub in before && now - before[sub].start < cfg.window
                then |before[sub].touched| + before[sub].reserved else 0) < cfg.cap
  }

  /** The request asked the counter, and the cap test on the counter as it then was answered `ok`. */
  ghost predicate Asked(cfg: Config, origin: Time, log: seq<Entry>, who: Request, ok: bool) {
    exists i: nat :: AskedAt(cfg, origin, log, who, i, ok)
  }

  lemma AskedStays(cfg: Config, origin: Time, log: seq<Entry>, log': seq<Entry>, who: Request, ok: bool)
    requires log <= log' && Asked(cfg, origin, log, who, ok)
    ensures Asked(cfg, origin, log', who, ok)
  {
    var i: nat :| AskedAt(cfg, origin, log, who, i, ok);
    assert log'[..i] == log[..i];
    assert AskedAt(cfg, origin, log', who, i, ok);
  }

  function Arrivals(es: seq<Event>): nat {
    if es == [] then 0 else Arrivals(es[..|es| - 1]) + if es[|es| - 1].Arrive? then 1 else 0
  }

  lemma MineCounts(log: seq<Entry>, e: Entry, who: Request)
    ensures Arrivals(Mine(log + [e], who))
         == Arrivals(Mine(log, who)) + if e.who == who && e.event.Arrive? then 1 else 0
  {
    MineMore(log, e, who);
    var mine := Mine(log, who);
    if e.who == who {
      assert (mine + [e.event])[..|mine|] == mine;
    } else {
      assert mine + [] == mine;
    }
  }

  lemma {:induction false} ArrivalsGrow(log: seq<Entry>, who: Request, i: nat)
    requires i < |log| && log[i].who == who && log[i].event.Arrive?
    ensures Arrivals(Mine(log, who)) >= Arrivals(Mine(log[..i], who)) + 1
  {
    var n := |log| - 1;
    assert log[..n] + [log[n]] == log;
    MineCounts(log[..n], log[n], who);
    if i < n {
      ArrivalsGrow(log[..n], who, i);
      assert log[..n][..i] == log[..i];
    }
  }

  /** A request that asked once was told one thing. */
  lemma AskedOnce(cfg: Config, origin: Time, log: seq<Entry>, who: Request, a: bool, b: bool)
    requires Arrivals(Mine(log, who)) <= 1
    requires Asked(cfg, origin, log, who, a) && Asked(cfg, origin, log, who, b)
    ensures a == b
  {
    var i: nat :| AskedAt(cfg, origin, log, who, i, a);
    var j: nat :| AskedAt(cfg, origin, log, who, j, b);
    if i != j {
      var first, second := if i < j then i else j, if i < j then j else i;
      ArrivalsGrow(log, who, second);
      ArrivalsGrow(log[..second], who, first);
    }
  }

  /** The counter every request shares, its clock, and the ghost record of who did what. */
  class SharedCounter {
    const counter: InProcessTouchCounter
    const origin: Time
    var clock: Time
    ghost var log: seq<Entry>
    ghost var tickets: seq<Ticket>

    ghost predicate Valid()
      reads this, counter
    {
      InStep(counter.Cfg(), origin, clock, counter.Abs(), log, tickets)
    }

    /** What the cap test told this request when it asked. */
    ghost predicate Told(who: Request, ok: bool)
      reads this
    {
      Asked(counter.Cfg(), origin, log, who, ok)
    }

    constructor (counter: InProcessTouchCounter, now: Time)
      requires counter.Abs() == EMPTY
      ensures Valid() && this.counter == counter && log == [] && tickets == []
    {
      this.counter, origin, clock := counter, now, now;
      log, tickets := [], [];
    }

    /** Other requests run: any steps of theirs, each of which promises this to every request but its own. */
    method Others(who: Request)
      requires Valid()
      modifies this, counter
      ensures Valid() && Undisturbed(who, old(log), old(tickets), log, tickets)
    {
    }

    method Reserve(who: Request, sub: string, size: nat) returns (ok: bool, ghost event: Event, ghost booking: Booking)
      requires Valid() && size <= MAX_PAGE
      modifies this, counter
      ensures Valid() && log == old(log) + [Entry(who, event)]
      ensures event.Arrive? && event.sub == sub && event.size == size
      ensures ok <==> (if sub in old(counter.windows) && event.now - old(counter.windows)[sub].start < counter.window
                       then |old(counter.windows)[sub].touched| + old(counter.windows)[sub].reserved
                       else 0) < counter.cap
      ensures Told(who, ok)
      ensures booking.sub == sub && booking.size == size
      ensures tickets == if ok then old(tickets) + [Ticket(who, booking)] else old(tickets)
      ensures forall other :: other != who ==> Undisturbed(other, old(log), old(tickets), log, tickets)
    {
      var passed: int :| passed >= 0;
      ghost var before, y, was := counter.Abs(), Run(counter.Cfg(), MAX_PAGE, Start(origin), Events(log)), clock;
      clock := clock + passed;
      event := Arrive(sub, size, clock);
      NextIsTheCounters(counter.Cfg(), MAX_PAGE, y, event);
      GrantedIs(counter.Cfg(), MAX_PAGE, origin, Events(log), sub, clock);
      ok := counter.Reserve(sub, size, clock);
      booking := Booking(sub, size, counter.windows[sub].start);
      ghost var more := if ok then tickets + [Ticket(who, booking)] else tickets;
      assert Bookings(tickets + [Ticket(who, booking)]) == Bookings(tickets) + [booking];
      InStepMore(counter.Cfg(), origin, was, before, log, tickets, Entry(who, event), clock, counter.Abs(), more);
      BookingUndisturbing(log, tickets, Entry(who, event), booking, log + [Entry(who, event)], more);
      log, tickets := log + [Entry(who, event)], more;
      assert log[..|log| - 1] == old(log);
      assert AskedAt(counter.Cfg(), origin, log, who, |log| - 1, ok);
    }

    method Settle(who: Request, sub: string, ids: seq<string>, size: nat, ghost booking: Booking)
      returns (ghost event: Event)
      requires Valid() && HeldBy(tickets, who) == [booking] && booking.sub == sub && booking.size == size
      requires |set id | id in ids| <= size
      modifies this, counter
      ensures Valid() && log == old(log) + [Entry(who, event)]
      ensures event.Finish? && event.ids == (set id | id in ids)
      ensures sub in counter.windows ==> (set id | id in ids) <= counter.windows[sub].touched
      ensures HeldBy(tickets, who) == []
      ensures forall other :: other != who ==> Undisturbed(other, old(log), old(tickets), log, tickets)
    {
      ghost var i := PlaceHeld(tickets, who, booking);
      event := Finish(i, set id | id in ids);
      ghost var less := tickets[..i] + tickets[i + 1..];
      SettleStep(counter.Cfg(), origin, clock, counter.Abs(), log, tickets, Entry(who, event), i, less);
      counter.Settle(sub, ids, size);
      RemovalUndisturbing(log, tickets, Entry(who, event), i, log + [Entry(who, event)], less);
      log, tickets := log + [Entry(who, event)], less;
    }
  }

  /** A granted reservation; the deferred release does nothing once it is settled. */
  class TouchReservation {
    const shared: SharedCounter
    const who: Request
    const sub: string
    const reserved: nat
    var done: bool
    ghost const booking: Booking

    ghost predicate Valid()
      reads this, shared, shared.counter
    {
      && shared.Valid()
      && booking.sub == sub && booking.size == reserved
      && HeldBy(shared.tickets, who) == if done then [] else [booking]
    }

    constructor (shared: SharedCounter, who: Request, sub: string, reserved: nat, ghost booking: Booking)
      requires shared.Valid() && HeldBy(shared.tickets, who) == [booking] && booking.sub == sub
               && booking.size == reserved
      ensures Valid() && !done
      ensures this.shared == shared && this.who == who && this.sub == sub && this.reserved == reserved
    {
      this.shared, this.who, this.sub, this.reserved, this.booking := shared, who, sub, reserved, booking;
      done := false;
    }

    method Settle(ids: seq<string>)
      requires Valid() && |set id | id in ids| <= reserved
      modifies this, shared, shared.counter
      ensures Valid() && done
      ensures old(done) ==> unchanged(shared) && unchanged(shared.counter)
      ensures !old(done) ==> Closes(old(Mine(shared.log, who)), Mine(shared.log, who), set id | id in ids)
      ensures !old(done) && sub in shared.counter.windows ==>
                (set id | id in ids) <= shared.counter.windows[sub].touched
      ensures old(shared.log) <= shared.log
      ensures forall other :: other != who ==>
              Undisturbed(other, old(shared.log), old(shared.tickets), shared.log, shared.tickets)
    {
      if done {
        return;
      }
      done := true;
      ghost var before := shared.log;
      ghost var event := shared.Settle(who, sub, ids, reserved, booking);
      MineMore(before, Entry(who, event), who);
    }

    method Release()
      requires Valid()
      modifies this, shared, shared.counter
      ensures Valid() && done
      ensures old(done) ==> unchanged(shared) && unchanged(shared.counter)
      ensures !old(done) ==> Closes(old(Mine(shared.log, who)), Mine(shared.log, who), {})
      ensures old(shared.log) <= shared.log
      ensures forall other :: other != who ==>
              Undisturbed(other, old(shared.log), old(shared.tickets), shared.log, shared.tickets)
    {
      assert (set id: string | id in []) == {};
      Settle([]);
    }
  }

  /** Whatever requests are doing at this moment, a caller's touched and outstanding records keep within the bound. */
  lemma SharedCap(s: SharedCounter, sub: string)
    requires s.Valid() && s.counter.window > 0 && sub in s.counter.windows
    ensures var y := Run(s.counter.Cfg(), MAX_PAGE, Start(s.origin), Events(s.log));
            var w := s.counter.windows[sub];
            |w.touched| + Outstanding(Bookings(s.tickets), sub, w.start)
            <= Bound(s.counter.Cfg(), MAX_PAGE) + Carried(y, sub)
  {
    TouchCap(s.counter.Cfg(), MAX_PAGE, s.origin, Events(s.log), sub);
  }

  /** Once every request has let go of its reservation, no budget stays reserved, whatever straddled which window. */
  lemma NothingLeaks(s: SharedCounter, sub: string)
    requires s.Valid() && s.counter.window > 0 && sub in s.counter.windows
    requires forall who :: HeldBy(s.tickets, who) == []
    ensures s.counter.windows[sub].reserved == 0
  {
    ReservedIsOwed(s.counter.Cfg(), MAX_PAGE, Start(s.origin), Events(s.log));
    TicketsAreHeld(s.tickets);
  }

  lemma TicketsAreHeld(tickets: seq<Ticket>)
    ensures tickets != [] ==> exists who :: HeldBy(tickets, who) != []
  {
    if tickets != [] {
      assert |HeldBy(tickets, tickets[0].who)| > 0;
    }
  }
}
