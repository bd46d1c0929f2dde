/** The `Scraper` object: its registry deque, its handles on Elasticsearch
    and RabbitMQ (seen through the state they hold), and the methods
    `store`, `enqueue`, `scrape` and `run`, each proved to do what the
    functions of the Cycle, Sinks and Schedule modules say. */
module TweetdeckScraper {
  import opened Items
  import opened Sinks
  import opened Cycle
  import Recency
  import Schedule

  /** One turn of the `run` loop: the page as the scrape finds it, and how
      long the scrape takes, in whole time units. */
  datatype Round = Round(page: Page, duration: nat)

  function Durations(rounds: seq<Round>): (ds: seq<nat>)
    ensures |ds| == |rounds|
    ensures forall i :: 0 <= i < |rounds| ==> ds[i] == rounds[i].duration
  {
    seq(|rounds|, i requires 0 <= i < |rounds| => rounds[i].duration)
  }

  function Pages(rounds: seq<Round>): (ps: seq<Page>)
    ensures |ps| == |rounds|
    ensures forall i :: 0 <= i < |rounds| ==> ps[i] == rounds[i].page
  {
    seq(|rounds|, i requires 0 <= i < |rounds| => rounds[i].page)
  }

  lemma DurationsPrefix(rounds: seq<Round>, n: nat)
    requires n <= |rounds|
    ensures Durations(rounds[..n]) == Durations(rounds)[..n]
  {
  }

  lemma PagesPrefix(rounds: seq<Round>, n: nat)
    requires n <= |rounds|
    ensures Pages(rounds[..n]) == Pages(rounds)[..n]
  {
  }

  /** A prefix one longer is the prefix and the next element. */
  lemma TakeOneMore<T>(s: seq<T>, i: nat)
    requires i < |s|
    ensures s[..i + 1] == s[..i] + [s[i]]
  {
  }

  /** Where `run` stands after some turns: the scraper's state, the times
      the scrapes began followed by the time the next one begins, and
      whether the loop has ended on an exception. */
  datatype Outcome = Outcome(state: State, wakes: seq<int>, crashed: bool)

  /** One more turn of `run`: nothing once the loop has ended; otherwise a
      scrape, then the sleep on `self.rmq`, which raises unless the
      connection is open. */
  function Advance(o: Outcome, start: int, round: Round): (r: Outcome)
    requires |o.state.registry| <= Recency.Capacity && o.wakes != []
    ensures |r.state.registry| <= Recency.Capacity && r.wakes != []
    ensures o.crashed ==> r == o
    ensures !o.crashed ==> r.state == ScrapePage(o.state, round.page)
    ensures !o.crashed ==> (r.crashed <==> r.state.broker != Connection(true))
  {
    if o.crashed then o
    else
      var st := ScrapePage(o.state, round.page);
      if st.broker != Connection(true) then Outcome(st, o.wakes, true)
      else Outcome(st, o.wakes + [Schedule.NextWake(start, o.wakes[|o.wakes| - 1], round.duration)], false)
  }

  /** The first |rounds| turns of `run`, from state `st` at time `start`. */
  function RunTurns(st: State, start: int, rounds: seq<Round>): (o: Outcome)
    requires |st.registry| <= Recency.Capacity
    ensures |o.state.registry| <= Recency.Capacity && o.wakes != []
    decreases |rounds|
  {
    if rounds == [] then Outcome(st, [start], false)
    else Advance(RunTurns(st, start, rounds[..|rounds| - 1]), start, rounds[|rounds| - 1])
  }

  lemma RunTurnsStep(st: State, start: int, rounds: seq<Round>, k: nat)
    requires |st.registry| <= Recency.Capacity && k < |rounds|
    ensures RunTurns(st, start, rounds[..k + 1]) == Advance(RunTurns(st, start, rounds[..k]), start, rounds[k])
  {
    assert rounds[..k + 1][..k] == rounds[..k];
  }

  /** Once the loop has ended, later rounds change nothing. */
  lemma {:induction false} CrashedStays(st: State, start: int, rounds: seq<Round>, n: nat)
    requires |st.registry| <= Recency.Capacity && n <= |rounds|
    requires RunTurns(st, start, rounds[..n]).crashed
    ensures RunTurns(st, start, rounds) == RunTurns(st, start, rounds[..n])
    decreases |rounds|
  {
    if n < |rounds| {
      var init := rounds[..|rounds| - 1];
      assert init[..n] == rounds[..n];
      CrashedStays(st, start, init, n);
    } else {
      assert rounds[..n] == rounds;
    }
  }

  lemma PrefixOfPrefix<T>(s: seq<T>, m: nat, n: nat)
    requires n <= m <= |s|
    ensures s[..m][..n] == s[..n]
  {
  }

  /** The scrapes done: while the connection is open after each scrape
      every turn runs to its end, and the state is the scrapes' fold over
      all the pages ... */
  lemma {:induction false} RunTurnsCompleted(st: State, start: int, rounds: seq<Round>)
    requires |st.registry| <= Recency.Capacity
    ensures var o := RunTurns(st, start, rounds);
            && |o.wakes| - 1 <= |rounds|
            && (!o.crashed ==> |o.wakes| - 1 == |rounds| && o.state == ScrapePages(st, Pages(rounds)))
    decreases |rounds|
  {
    if rounds != [] {
      var L := |rounds| - 1;
      RunTurnsCompleted(st, start, rounds[..L]);
      PagesPrefix(rounds, L);
      if !RunTurns(st, start, rounds).crashed {
        TakeOneMore(Pages(rounds), L);
        ScrapePagesStep(st, Pages(rounds)[..L], rounds[L].page);
        assert Pages(rounds)[..L + 1] == Pages(rounds);
      }
    }
  }

  /** ... and the first scrape after which the connection is not open is
      the last one: the state is the fold over the pages up to it. */
  lemma {:induction false} RunTurnsCrashed(st: State, start: int, rounds: seq<Round>)
    requires |st.registry| <= Recency.Capacity
    ensures var o := RunTurns(st, start, rounds);
            o.crashed ==> && |o.wakes| - 1 < |rounds|
                          && o.state == ScrapePages(st, Pages(rounds)[..|o.wakes|])
                          && o.state.broker != Connection(true)
    decreases |rounds|
  {
    if rounds != [] {
      var L := |rounds| - 1;
      var init := rounds[..L];
      var o' := RunTurns(st, start, init);
      PagesPrefix(rounds, L);
      if o'.crashed {
        RunTurnsCrashed(st, start, init);
        PrefixOfPrefix(Pages(rounds), L, |o'.wakes|);
      } else {
        RunTurnsCompleted(st, start, init);
        TakeOneMore(Pages(rounds), L);
        ScrapePagesStep(st, Pages(rounds)[..L], rounds[L].page);
      }
    }
  }

  /** The wake-up times: one per turn that ran to its end, plus the start,
      on the schedule of `Schedule.WakeTimes`. */
  lemma {:induction false} RunTurnsWakes(st: State, start: int, rounds: seq<Round>)
    requires |st.registry| <= Recency.Capacity
    ensures var o := RunTurns(st, start, rounds);
            |o.wakes| - 1 <= |rounds| && o.wakes == Schedule.WakeTimes(start, Durations(rounds)[..|o.wakes| - 1])
    decreases |rounds|
  {
    if rounds != [] {
      var L := |rounds| - 1;
      var init := rounds[..L];
      RunTurnsWakes(st, start, init);
      RunTurnsCompleted(st, start, init);
      var o' := RunTurns(st, start, init);
      var o := RunTurns(st, start, rounds);
      var ds := Durations(rounds);
      DurationsPrefix(rounds, L);
      PrefixOfPrefix(ds, L, |o'.wakes| - 1);
      if o.wakes == o'.wakes {
      } else {
        assert |o'.wakes| - 1 == L;
        var d := rounds[L].duration;
        assert o.wakes == o'.wakes + [Schedule.NextWake(start, o'.wakes[L], d)];
        Schedule.WakeTimesStep(start, ds[..L], d);
        TakeOneMore(ds, L);
      }
    }
  }

  /** The connection was open after each scrape of a turn that ran to its
      end. */
  lemma {:induction false} RunTurnsOpen(st: State, start: int, rounds: seq<Round>)
    requires |st.registry| <= Recency.Capacity
    ensures var o := RunTurns(st, start, rounds);
            |o.wakes| - 1 <= |rounds| && OpenThroughout(st, Pages(rounds), |o.wakes| - 1)
    decreases |rounds|
  {
    if rounds != [] {
      var L := |rounds| - 1;
      var init := rounds[..L];
      RunTurnsOpen(st, start, init);
      RunTurnsCompleted(st, start, init);
      var o' := RunTurns(st, start, init);
      var n := |o'.wakes| - 1;
      PagesPrefix(rounds, L);
      forall i | 0 < i <= n
        ensures ScrapePages(st, Pages(rounds)[..i]).broker == Connection(true)
      {
        PrefixOfPrefix(Pages(rounds), L, i);
      }
      if !o'.crashed && !RunTurns(st, start, rounds).crashed {
        TakeOneMore(Pages(rounds), L);
        ScrapePagesStep(st, Pages(rounds)[..L], rounds[L].page);
        OpenThroughoutStep(st, Pages(rounds), L);
      }
    }
  }

  /** A scraper whose start-up connection failed ends `run` after one
      scrape, having never woken up again. */
  lemma {:induction false} RunTurnsUnset(st: State, start: int, rounds: seq<Round>)
    requires |st.registry| <= Recency.Capacity && st.broker.Unset? && rounds != []
    ensures RunTurns(st, start, rounds).crashed && RunTurns(st, start, rounds).wakes == [start]
    decreases |rounds|
  {
    if |rounds| > 1 {
      RunTurnsUnset(st, start, rounds[..|rounds| - 1]);
    }
  }

  class Scraper {
    /** `self.registry`, the deque of recently seen item ids. */
    const registry: Recency.Registry<Id>
    /** The documents of the index `ES_CURRENT`, by id. */
    var index: map<string, Document>
    /** The bodies of the messages published to `RMQ_QUEUE`, oldest first. */
    var queue: seq<string>
    /** `self.rmq`: unset, or a connection that is open or closed. */
    var broker: Broker
    /** How many times `setup_rmq` has run. */
    ghost var connects: nat

    ghost function Snapshot(): State
      reads this, registry
    {
      State(registry.items, registry.Appended, index, queue, broker, connects)
    }

    ghost predicate Valid()
      reads this, registry
    {
      Consistent(Snapshot())
    }

    /** `__init__`: an empty registry, the index as Elasticsearch already
        holds it, and one `setup_rmq`, which leaves `self.rmq` unset when
        the broker cannot be reached. */
    constructor (stored: map<string, Document>, brokerUnreachable: bool)
      ensures Valid() && fresh(registry)
      ensures Snapshot() == State([], [], stored, [], Connect(Unset, brokerUnreachable), 1)
    {
      registry := new Recency.Registry();
      index := stored;
      queue := [];
      broker := Unset;
      connects := 0;
      new;
      SetupRmq(brokerUnreachable);
    }

    /** `setup_rmq`: one connection attempt; a failure is only logged. */
    method SetupRmq(fails: bool)
      modifies this
      ensures broker == Connect(old(broker), fails) && connects == old(connects) + 1
      ensures index == old(index) && queue == old(queue)
    {
      if !fails {
        broker := Connection(true);
      }
      connects := connects + 1;
    }

    /** `store`: returns whether it returned normally (true) or raised. */
    method Store(id: Id, dateDownload: string, t: Tweet, unavailable: bool) returns (ok: bool)
      modifies this
      ensures ok == Sinks.Store(old(index), id, dateDownload, t, unavailable).Success?
      ensures index == if ok then Sinks.Store(old(index), id, dateDownload, t, unavailable).value
                       else old(index)
      ensures queue == old(queue) && broker == old(broker) && connects == old(connects)
    {
      if unavailable || !UsableKey(id) {
        // `es.exists` (or `es.index`) raises
        return false;
      }
      if id.value !in index {
        var extractedInfo := NewDocument(id.value, dateDownload, t);
        index := index[id.value := extractedInfo];
      }
      ok := true;
    }

    /** `enqueue`: returns whether the publish went through (true) or
        raised. `dropped` says that the broker has closed the connection
        since it was last used. */
    method Enqueue(id: string, dropped: bool, connectFails: bool) returns (sent: bool)
      modifies this
      ensures Delivery(broker, queue, connects, sent)
              == Sinks.Enqueue(old(broker), old(queue), old(connects), id, dropped, connectFails)
      ensures index == old(index)
    {
      if dropped && broker.Connection? {
        broker := Connection(false);
      }
      if broker.Unset? {
        // `self.rmq.is_open` raises AttributeError
        return false;
      }
      if !broker.isOpen {
        SetupRmq(connectFails);
      }
      if broker.isOpen {
        queue := queue + [id];
        sent := true;
      } else {
        // `basic_publish` on the channel of a closed connection raises
        sent := false;
      }
    }

    /** The body of the inner loop of `scrape` for one item node. */
    method ProcessItem(v: Visit)
      requires registry.Valid()
      modifies this, registry
      ensures registry.Valid()
      ensures Snapshot() == StepItem(old(Snapshot()), v)
    {
      var id := v.node.tweetId;
      if id !in registry.items {
        registry.Append(id);
        var fields := ParseItem(v.node);
        if fields.Success? {
          var stored := Store(id, v.world.clock, fields.value, v.world.storeUnavailable);
          if stored {
            var sent := Enqueue(id.value, v.world.brokerDropped, v.world.reconnectFails);
          }
        }
      }
    }

    /** The inner loop of `scrape`: the item nodes of one column, in
        order. */
    method ScrapeItems(items: seq<Visit>)
      requires registry.Valid()
      modifies this, registry
      ensures registry.Valid()
      ensures Snapshot() == ScrapeColumn(old(Snapshot()), items)
    {
      ghost var st0 := Snapshot();
      var i := 0;
      while i < |items|
        invariant 0 <= i <= |items|
        invariant registry.Valid()
        invariant Snapshot() == ScrapeColumn(st0, items[..i])
      {
        ProcessItem(items[i]);
        TakeOneMore(items, i);
        ScrapeColumnStep(st0, items[..i], items[i]);
        i := i + 1;
      }
      assert items[..i] == items;
    }

    /** `scrape`: the columns of the page in order, unless the page did not
        load in time. */
    method Scrape(page: Page)
      requires registry.Valid()
      modifies this, registry
      ensures registry.Valid()
      ensures Snapshot() == ScrapePage(old(Snapshot()), page)
      ensures old(Valid()) ==> Valid()
    {
      if Valid() {
        ScrapePageKeeps(Snapshot(), page);
      }
      if !page.ready {
        // timed out waiting for a `column` element
        return;
      }
      ghost var st0 := Snapshot();
      var columns := page.columns;
      var c := 0;
      while c < |columns|
        invariant 0 <= c <= |columns|
        invariant registry.Valid()
        invariant Snapshot() == ScrapeColumns(st0, columns[..c])
      {
        ScrapeItems(columns[c]);
        TakeOneMore(columns, c);
        ScrapeColumnsStep(st0, columns[..c], columns[c]);
        c := c + 1;
      }
      assert columns[..c] == columns;
    }

    /** One turn of `run`'s loop: scrape (a failure inside is caught),
        then sleep until the next multiple of the interval after `start`;
        `wakes` ends with the time this turn began. The sleep is a call on
        `self.rmq` outside any `try`: it raises when the connection made at
        start-up failed (`self.rmq` is unset, an AttributeError) and when
        the scrape left it closed (a reconnection that failed), and the
        loop ends (`crashed`). */
    method Turn(start: int, round: Round, wakes: seq<int>) returns (wakes': seq<int>, crashed: bool)
      requires registry.Valid() && wakes != []
      modifies this, registry
      ensures registry.Valid()
      ensures Snapshot() == ScrapePage(old(Snapshot()), round.page)
      ensures crashed <==> ScrapePage(old(Snapshot()), round.page).broker != Connection(true)
      ensures old(broker).Unset? ==> crashed
      ensures !crashed ==> wakes' == wakes + [Schedule.NextWake(start, wakes[|wakes| - 1], round.duration)]
    {
      Scrape(round.page);
      if broker != Connection(true) {
        return wakes, true;
      }
      var now := wakes[|wakes| - 1] + round.duration;
      var delay := Schedule.SleepDelay(start, now);
      wakes', crashed := wakes + [now + delay], false;
    }

    /** The first |rounds| turns of `run`'s endless loop: it leaves the
        state, wake-up times and ending that `RunTurns` describes. */
    method Run(start: int, rounds: seq<Round>) returns (wakes: seq<int>, crashed: bool)
      requires registry.Valid()
      modifies this, registry
      ensures registry.Valid()
      ensures Outcome(Snapshot(), wakes, crashed) == RunTurns(old(Snapshot()), start, rounds)
    {
      ghost var st0 := Snapshot();
      wakes, crashed := [start], false;
      var k := 0;
      while k < |rounds|
        invariant 0 <= k <= |rounds|
        invariant registry.Valid()
        invariant Outcome(Snapshot(), wakes, false) == RunTurns(st0, start, rounds[..k])
      {
        var next;
        next, crashed := Turn(start, rounds[k], wakes);
        RunTurnsStep(st0, start, rounds, k);
        if crashed {
          CrashedStays(st0, start, rounds, k + 1);
          return;
        }
        wakes := next;
        k := k + 1;
      }
      assert rounds[..k] == rounds;
    }
  }
}
