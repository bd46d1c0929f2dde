/** One run of `Scraper.scrape` as a function of the scraper's state: the
    page is walked column by column and, within a column, item by item;
    every item whose id is not in the registry is recorded first, then its
    fields are looked up, then it is stored, then enqueued, and a failure
    at any of these steps ends the work on that item only. */
module Cycle {
  import opened Wrappers
  import opened Items
  import opened Sinks
  import Recency

  /** What the outside world does while one item is processed: the value of
      `datetime.now()` (formatted), whether the Elasticsearch calls raise,
      whether the broker has closed the connection, and whether the one
      reconnection attempt fails. */
  datatype Conditions = Conditions(
    clock: string,
    storeUnavailable: bool,
    brokerDropped: bool,
    reconnectFails: bool)

  /** One item node of a column, with the conditions met while it is
      processed. */
  datatype Visit = Visit(node: ItemNode, world: Conditions)

  /** The page at one scrape: whether a `column` element appeared before
      the 10-second wait timed out, and the `js-stream-item` nodes of each
      column element, in document order. */
  datatype Page = Page(ready: bool, columns: seq<seq<Visit>>)

  /** The scraper's state as far as a scrape is concerned: the registry
      deque, every id ever recorded in it (ghost bookkeeping), the index,
      the queue, the broker connection and the number of `setup_rmq`
      calls. */
  datatype State = State(
    registry: seq<Id>,
    recorded: seq<Id>,
    index: map<string, Document>,
    queue: seq<string>,
    broker: Broker,
    connects: nat)

  /** The ids among `ids` that are present, in order. */
  function Present(ids: seq<Id>): (r: seq<string>)
    ensures |r| <= |ids|
    ensures forall x :: x in r <==> Some(x) in ids
  {
    if ids == [] then []
    else Present(ids[..|ids| - 1]) + (if ids[|ids| - 1].Some? then [ids[|ids| - 1].value] else [])
  }

  lemma {:induction false} PresentAppend(a: seq<Id>, b: seq<Id>)
    ensures Present(a + b) == Present(a) + Present(b)
    decreases |b|
  {
    if b != [] {
      var n := |b| - 1;
      assert (a + b)[..|a + b| - 1] == a + b[..n];
      PresentAppend(a, b[..n]);
    } else {
      assert a + b == a;
    }
  }

  /** The invariant a scraper keeps between items: the registry is the
      window of all recorded ids; no id is recorded twice within 1000
      recordings; every published id has a document; and every message
      corresponds to a distinct recording of its id. */
  ghost predicate Consistent(st: State)
  {
    && st.registry == Recency.Window(st.recorded)
    && Recency.Spaced(st.recorded)
    && (forall m :: m in st.queue ==> m in st.index)
    && multiset(st.queue) <= multiset(Present(st.recorded))
  }

  /** The body of the inner loop for one item node. */
  function StepItem(st: State, v: Visit): (r: State)
    requires |st.registry| <= Recency.Capacity
    ensures |r.registry| <= Recency.Capacity
    // an id already in the registry is skipped: nothing changes
    ensures v.node.tweetId in st.registry ==> r == st
    // a fresh id is recorded whatever happens to the item afterwards
    ensures v.node.tweetId !in st.registry ==>
              r.registry == Recency.Push(st.registry, v.node.tweetId)
              && r.recorded == st.recorded + [v.node.tweetId]
    // failed lookups or a failed store publish nothing
    ensures (ParseItem(v.node).Failure? || v.world.storeUnavailable || !UsableKey(v.node.tweetId)) ==>
              r.queue == st.queue && r.index == st.index && r.broker == st.broker
              && r.connects == st.connects
    // a message is published only for an item that is now in the index
    ensures r.queue == st.queue || (UsableKey(v.node.tweetId) && r.queue == st.queue + [v.node.tweetId.value]
                                    && v.node.tweetId.value in r.index)
    ensures st.index.Keys <= r.index.Keys
    // without a connection from start-up nothing is published, ever
    ensures st.broker.Unset? ==> r.broker == Unset && r.queue == st.queue
    ensures st.broker.Connection? ==> r.broker.Connection?
    // a fresh item whose lookups succeed goes to `store`, and, when `store`
    // returns normally, to `enqueue`
    ensures v.node.tweetId !in st.registry && ParseItem(v.node).Success? ==>
              var stored := Store(st.index, v.node.tweetId, v.world.clock, ParseItem(v.node).value,
                                  v.world.storeUnavailable);
              && (stored.Failure? ==>
                    r.index == st.index && r.queue == st.queue && r.broker == st.broker
                    && r.connects == st.connects)
              && (stored.Success? ==>
                    var d := Enqueue(st.broker, st.queue, st.connects, v.node.tweetId.value,
                                     v.world.brokerDropped, v.world.reconnectFails);
                    r.index == stored.value && r.queue == d.queue && r.broker == d.broker
                    && r.connects == d.connects)
  {
    var id := v.node.tweetId;
    if id in st.registry then st
    else
      var st1 := st.(registry := Recency.Push(st.registry, id), recorded := st.recorded + [id]);
      match ParseItem(v.node)
      case Failure(_) => st1
      case Success(t) =>
        match Store(st1.index, id, v.world.clock, t, v.world.storeUnavailable)
        case Failure(_) => st1
        case Success(index) =>
          var d := Enqueue(st1.broker, st1.queue, st1.connects, id.value,
                           v.world.brokerDropped, v.world.reconnectFails);
          st1.(index := index, queue := d.queue, broker := d.broker, connects := d.connects)
  }

  /** A fresh item whose lookups succeed, met while Elasticsearch answers,
      is stored: its id is indexed, under the document already stored for
      it if there was one, and no other id is added. */
  lemma FreshItemIsStored(st: State, v: Visit)
    requires |st.registry| <= Recency.Capacity
    requires v.node.tweetId !in st.registry && UsableKey(v.node.tweetId)
    requires ParseItem(v.node).Success? && !v.world.storeUnavailable
    ensures var id := v.node.tweetId.value;
            && id in StepItem(st, v).index
            && (forall k :: k in StepItem(st, v).index ==> k in st.index || k == id)
            && StepItem(st, v).index[id]
               == (if id in st.index then st.index[id]
                   else NewDocument(id, v.world.clock, ParseItem(v.node).value))
  {
    var stored := Store(st.index, v.node.tweetId, v.world.clock, ParseItem(v.node).value, false);
    assert stored.Success? && StepItem(st, v).index == stored.value;
  }

  /** ... and, when the connection is open and stays so, it is published
      once, and its id is recorded in the registry. */
  lemma FreshItemIsPublished(st: State, v: Visit)
    requires |st.registry| <= Recency.Capacity
    requires v.node.tweetId !in st.registry && UsableKey(v.node.tweetId)
    requires ParseItem(v.node).Success? && !v.world.storeUnavailable
    requires st.broker == Connection(true) && !v.world.brokerDropped
    ensures StepItem(st, v).queue == st.queue + [v.node.tweetId.value]
    ensures StepItem(st, v).broker == Connection(true)
    ensures StepItem(st, v).registry == Recency.Push(st.registry, v.node.tweetId)
  {
    var stored := Store(st.index, v.node.tweetId, v.world.clock, ParseItem(v.node).value, false);
    assert stored.Success?;
  }

  /** The inner loop over the items of one column. */
  function ScrapeColumn(st: State, items: seq<Visit>): (r: State)
    requires |st.registry| <= Recency.Capacity
    ensures |r.registry| <= Recency.Capacity
    ensures st.broker.Unset? ==> r.broker == Unset && r.queue == st.queue
    ensures st.broker.Connection? ==> r.broker.Connection?
    decreases |items|
  {
    if items == [] then st
    else StepItem(ScrapeColumn(st, items[..|items| - 1]), items[|items| - 1])
  }

  /** An item whose lookups succeed and whose id can key a document, met
      while both services answer. */
  predicate Smooth(v: Visit)
  {
    && ParseItem(v.node).Success? && UsableKey(v.node.tweetId)
    && !v.world.storeUnavailable && !v.world.brokerDropped
  }

  /** A column holding the items x, y and then x's id again, with x and y
      smooth and of different ids, processed by a fresh scraper: x and y
      are each stored and published once, and the repeated id is skipped by
      the registry whatever its item holds. */
  lemma RepeatedIdCommittedOnce(x: Visit, y: Visit, z: Visit)
    requires Smooth(x) && Smooth(y) && x.node.tweetId != y.node.tweetId
    requires z.node.tweetId == x.node.tweetId
    ensures var a, b := x.node.tweetId.value, y.node.tweetId.value;
            var r := ScrapeColumn(State([], [], map[], [], Connection(true), 1), [x, y, z]);
            && r.queue == [a, b] && r.registry == [Some(a), Some(b)]
            && a in r.index && b in r.index && (forall k :: k in r.index ==> k == a || k == b)
  {
    var st0 := State([], [], map[], [], Connection(true), 1);
    ColumnOfThree(st0, x, y, z);
    TwoSmoothItemsPublished(st0, x, y);
    TwoSmoothItemsStored(st0, x, y);
    assert z.node.tweetId in StepItem(StepItem(st0, x), y).registry;
  }

  /** The first two items of that column, both fresh, are both
      published and recorded ... */
  lemma TwoSmoothItemsPublished(st0: State, x: Visit, y: Visit)
    requires st0 == State([], [], map[], [], Connection(true), 1)
    requires Smooth(x) && Smooth(y) && x.node.tweetId != y.node.tweetId
    ensures var a, b := x.node.tweetId.value, y.node.tweetId.value;
            var r := StepItem(StepItem(st0, x), y);
            r.queue == [a, b] && r.registry == [Some(a), Some(b)]
  {
    SmoothFreshItemPublished(st0, x);
    SecondSmoothItemPublished(StepItem(st0, x), x.node.tweetId.value, y);
  }

  /** The step from one committed item to two. */
  lemma SecondSmoothItemPublished(st1: State, a: string, y: Visit)
    requires st1.registry == [Some(a)] && st1.queue == [a] && st1.broker == Connection(true)
    requires Smooth(y) && y.node.tweetId != Some(a)
    ensures var r := StepItem(st1, y);
            r.queue == [a, y.node.tweetId.value] && r.registry == [Some(a), y.node.tweetId]
  {
    SmoothFreshItemPublished(st1, y);
  }

  /** ... and both stored, and nothing else. */
  lemma TwoSmoothItemsStored(st0: State, x: Visit, y: Visit)
    requires st0 == State([], [], map[], [], Connection(true), 1)
    requires Smooth(x) && Smooth(y) && x.node.tweetId != y.node.tweetId
    ensures var a, b := x.node.tweetId.value, y.node.tweetId.value;
            var r := StepItem(StepItem(st0, x), y);
            a in r.index && b in r.index && (forall k :: k in r.index ==> k == a || k == b)
  {
    var st1 := StepItem(st0, x);
    FreshItemIsStored(st0, x);
    SmoothFreshItemPublished(st0, x);
    assert st1.registry == [x.node.tweetId];
    FreshItemIsStored(st1, y);
  }

  /** A smooth fresh item, while the connection is open, is published and
      recorded. */
  lemma SmoothFreshItemPublished(st: State, v: Visit)
    requires |st.registry| < Recency.Capacity
    requires Smooth(v) && v.node.tweetId !in st.registry && st.broker == Connection(true)
    ensures var r := StepItem(st, v);
            && r.queue == st.queue + [v.node.tweetId.value]
            && r.registry == st.registry + [v.node.tweetId]
            && r.broker == Connection(true)
  {
    FreshItemIsPublished(st, v);
    Recency.PushBelowCapacity(st.registry, v.node.tweetId);
  }

  /** Three items of a column are processed one after the other. */
  lemma ColumnOfThree(st: State, x: Visit, y: Visit, z: Visit)
    requires |st.registry| <= Recency.Capacity
    ensures ScrapeColumn(st, [x, y, z]) == StepItem(StepItem(StepItem(st, x), y), z)
  {
    ScrapeColumnStep(st, [], x);
    assert [] + [x] == [x];
    ScrapeColumnStep(st, [x], y);
    assert [x] + [y] == [x, y];
    ScrapeColumnStep(st, [x, y], z);
    assert [x, y] + [z] == [x, y, z];
  }

  /** The outer loop over the columns of the page. */
  function ScrapeColumns(st: State, columns: seq<seq<Visit>>): (r: State)
    requires |st.registry| <= Recency.Capacity
    ensures |r.registry| <= Recency.Capacity
    ensures st.broker.Unset? ==> r.broker == Unset && r.queue == st.queue
    ensures st.broker.Connection? ==> r.broker.Connection?
    decreases |columns|
  {
    if columns == [] then st
    else ScrapeColumn(ScrapeColumns(st, columns[..|columns| - 1]), columns[|columns| - 1])
  }

  /** `scrape`: nothing at all when the page did not load in time. */
  function ScrapePage(st: State, page: Page): (r: State)
    requires |st.registry| <= Recency.Capacity
    ensures |r.registry| <= Recency.Capacity
    ensures !page.ready ==> r == st
    ensures st.broker.Unset? ==> r.broker == Unset && r.queue == st.queue
    ensures st.broker.Connection? ==> r.broker.Connection?
  {
    if page.ready then ScrapeColumns(st, page.columns) else st
  }

  /** Successive scrapes, one per page. */
  function ScrapePages(st: State, pages: seq<Page>): (r: State)
    requires |st.registry| <= Recency.Capacity
    ensures |r.registry| <= Recency.Capacity
    ensures st.broker.Unset? ==> r.broker == Unset && r.queue == st.queue
    ensures st.broker.Connection? ==> r.broker.Connection?
    decreases |pages|
  {
    if pages == [] then st
    else ScrapePage(ScrapePages(st, pages[..|pages| - 1]), pages[|pages| - 1])
  }

  /** The folds take one more element by one more step: the way the
      loops of `scrape` and `run` advance. */
  lemma ScrapeColumnStep(st: State, items: seq<Visit>, v: Visit)
    requires |st.registry| <= Recency.Capacity
    ensures ScrapeColumn(st, items + [v]) == StepItem(ScrapeColumn(st, items), v)
  {
    assert (items + [v])[..|items|] == items;
  }

  lemma ScrapeColumnsStep(st: State, columns: seq<seq<Visit>>, column: seq<Visit>)
    requires |st.registry| <= Recency.Capacity
    ensures ScrapeColumns(st, columns + [column]) == ScrapeColumn(ScrapeColumns(st, columns), column)
  {
    assert (columns + [column])[..|columns|] == columns;
  }

  lemma ScrapePagesStep(st: State, pages: seq<Page>, page: Page)
    requires |st.registry| <= Recency.Capacity
    ensures ScrapePages(st, pages + [page]) == ScrapePage(ScrapePages(st, pages), page)
  {
    assert (pages + [page])[..|pages|] == pages;
  }

  /** The connection is open after each of the first n scrapes. */
  ghost predicate OpenThroughout(st: State, pages: seq<Page>, n: nat)
    requires |st.registry| <= Recency.Capacity && n <= |pages|
  {
    forall i :: 0 < i <= n ==> ScrapePages(st, pages[..i]).broker == Connection(true)
  }

  lemma OpenThroughoutStep(st: State, pages: seq<Page>, n: nat)
    requires |st.registry| <= Recency.Capacity && n < |pages|
    requires OpenThroughout(st, pages, n)
    requires ScrapePages(st, pages[..n + 1]).broker == Connection(true)
    ensures OpenThroughout(st, pages, n + 1)
  {
  }

  /** Processing one item keeps the scraper consistent. */
  lemma StepItemConsistent(st: State, v: Visit)
    requires Consistent(st)
    ensures Consistent(StepItem(st, v))
  {
    var id := v.node.tweetId;
    var r := StepItem(st, v);
    if id !in st.registry {
      Recency.PushWindow(st.recorded, id);
      Recency.SpacedAppendFresh(st.recorded, id);
      PresentAppend(st.recorded, [id]);
      assert Present([id]) == if id.Some? then [id.value] else [] by {
        assert [id][..0] == [];
      }
      if r.queue != st.queue {
        assert multiset(r.queue) == multiset(st.queue) + multiset{id.value};
      }
    }
  }

  /** No element occurs twice. */
  predicate Distinct<T(==)>(s: seq<T>)
  {
    forall i, j :: 0 <= i < j < |s| ==> s[i] != s[j]
  }

  lemma {:induction false} DistinctCountsAtMostOne<T>(s: seq<T>, x: T)
    requires Distinct(s)
    ensures multiset(s)[x] <= 1
    decreases |s|
  {
    if s != [] {
      var init := s[..|s| - 1];
      assert s == init + [s[|s| - 1]];
      DistinctCountsAtMostOne(init, x);
      if x == s[|s| - 1] {
        assert x !in init;
      }
    }
  }

  lemma CountsAtMostOneDistinct<T>(s: seq<T>)
    requires forall x :: multiset(s)[x] <= 1
    ensures Distinct(s)
  {
    forall i, j | 0 <= i < j < |s| ensures s[i] != s[j] {
      assert s == s[..j] + s[j..];
      assert multiset(s) == multiset(s[..j]) + multiset(s[j..]);
      assert multiset(s[..j])[s[i]] >= 1 && multiset(s[j..])[s[j]] >= 1;
      assert multiset(s)[s[i]] == multiset(s[..j])[s[i]] + multiset(s[j..])[s[i]] <= 1;
    }
  }

  lemma {:induction false} PresentDistinct(ids: seq<Id>)
    requires Distinct(ids)
    ensures Distinct(Present(ids))
    decreases |ids|
  {
    if ids != [] {
      var init := ids[..|ids| - 1];
      var last := ids[|ids| - 1];
      assert Distinct(init);
      PresentDistinct(init);
      if last.Some? {
        assert last !in init;
        assert last.value !in Present(init);
      }
    }
  }

  /** What a stretch of processing adds: the queue and the record only
      grow at their ends, the index keeps its documents, and each new
      message is matched by a distinct new recording of its id. */
  ghost predicate Extends(a: State, b: State)
  {
    && a.queue <= b.queue
    && a.recorded <= b.recorded
    && a.index.Keys <= b.index.Keys
    && multiset(b.queue[|a.queue|..]) <= multiset(Present(b.recorded[|a.recorded|..]))
  }

  lemma ExtendsTransitive(a: State, b: State, c: State)
    requires Extends(a, b) && Extends(b, c)
    ensures Extends(a, c)
  {
    var qab, qbc := b.queue[|a.queue|..], c.queue[|b.queue|..];
    var rab, rbc := b.recorded[|a.recorded|..], c.recorded[|b.recorded|..];
    SuffixSplit(a.queue, b.queue, c.queue);
    SuffixSplit(a.recorded, b.recorded, c.recorded);
    MatchedAppend(qab, qbc, rab, rbc);
  }

  /** The part of z past x is the part of y past x followed by the part of
      z past y. */
  lemma SuffixSplit<T>(x: seq<T>, y: seq<T>, z: seq<T>)
    requires x <= y && y <= z
    ensures x <= z && z[|x|..] == y[|x|..] + z[|y|..]
  {
    assert z[..|y|] == y;
  }

  /** Messages each matched by a recording of their id stay matched when
      two stretches of processing are put together. */
  lemma MatchedAppend(qab: seq<string>, qbc: seq<string>, rab: seq<Id>, rbc: seq<Id>)
    requires multiset(qab) <= multiset(Present(rab))
    requires multiset(qbc) <= multiset(Present(rbc))
    ensures multiset(qab + qbc) <= multiset(Present(rab + rbc))
  {
    PresentAppend(rab, rbc);
    assert multiset(Present(rab) + Present(rbc))
        == multiset(Present(rab)) + multiset(Present(rbc));
  }

  lemma StepItemExtends(st: State, v: Visit)
    requires |st.registry| <= Recency.Capacity
    ensures Extends(st, StepItem(st, v))
  {
    var r := StepItem(st, v);
    var id := v.node.tweetId;
    if id !in st.registry {
      assert r.recorded[|st.recorded|..] == [id];
      assert Present([id]) == if id.Some? then [id.value] else [] by {
        assert [id][..0] == [];
      }
    }
  }

  lemma {:induction false} ScrapeColumnKeeps(st: State, items: seq<Visit>)
    requires Consistent(st)
    ensures Consistent(ScrapeColumn(st, items)) && Extends(st, ScrapeColumn(st, items))
    decreases |items|
  {
    if items != [] {
      var mid := ScrapeColumn(st, items[..|items| - 1]);
      ScrapeColumnKeeps(st, items[..|items| - 1]);
      StepItemConsistent(mid, items[|items| - 1]);
      StepItemExtends(mid, items[|items| - 1]);
      ExtendsTransitive(st, mid, ScrapeColumn(st, items));
    } else {
      assert st.queue[|st.queue|..] == [] && st.recorded[|st.recorded|..] == [];
    }
  }

  lemma {:induction false} ScrapeColumnsKeeps(st: State, columns: seq<seq<Visit>>)
    requires Consistent(st)
    ensures Consistent(ScrapeColumns(st, columns)) && Extends(st, ScrapeColumns(st, columns))
    decreases |columns|
  {
    if columns != [] {
      var mid := ScrapeColumns(st, columns[..|columns| - 1]);
      ScrapeColumnsKeeps(st, columns[..|columns| - 1]);
      ScrapeColumnKeeps(mid, columns[|columns| - 1]);
      ExtendsTransitive(st, mid, ScrapeColumns(st, columns));
    } else {
      assert st.queue[|st.queue|..] == [] && st.recorded[|st.recorded|..] == [];
    }
  }

  /** A scrape keeps the scraper consistent, and only appends to the queue
      and to the record of ids. */
  lemma ScrapePageKeeps(st: State, page: Page)
    requires Consistent(st)
    ensures Consistent(ScrapePage(st, page)) && Extends(st, ScrapePage(st, page))
  {
    if page.ready {
      ScrapeColumnsKeeps(st, page.columns);
    } else {
      assert st.queue[|st.queue|..] == [] && st.recorded[|st.recorded|..] == [];
    }
  }

  /** Any number of scrapes keeps the scraper consistent. */
  lemma {:induction false} ScrapePagesKeeps(st: State, pages: seq<Page>)
    requires Consistent(st)
    ensures Consistent(ScrapePages(st, pages))
    decreases |pages|
  {
    if pages != [] {
      ScrapePagesKeeps(st, pages[..|pages| - 1]);
      ScrapePageKeeps(ScrapePages(st, pages[..|pages| - 1]), pages[|pages| - 1]);
    }
  }

  /** Within one scrape that records at most Capacity + 1 new ids (so that
      fewer than 1000 new ids come between any two of them), every id is
      published at most once, however often it appears in or across the
      columns. */
  lemma ScrapePublishesAtMostOnce(st: State, page: Page)
    requires Consistent(st)
    requires |ScrapePage(st, page).recorded| - |st.recorded| <= Recency.Capacity + 1
    ensures st.queue <= ScrapePage(st, page).queue
    ensures Distinct(ScrapePage(st, page).queue[|st.queue|..])
  {
    var r := ScrapePage(st, page);
    ScrapePageKeeps(st, page);
    var newIds := r.recorded[|st.recorded|..];
    var sent := r.queue[|st.queue|..];
    assert Distinct(newIds) by {
      forall i, j | 0 <= i < j < |newIds| ensures newIds[i] != newIds[j] {
        Recency.SpacedSegmentDistinct(r.recorded, |st.recorded|, |st.recorded| + i, |st.recorded| + j);
      }
    }
    PresentDistinct(newIds);
    forall x ensures multiset(sent)[x] <= 1 {
      DistinctCountsAtMostOne(Present(newIds), x);
    }
    CountsAtMostOneDistinct(sent);
  }
}
