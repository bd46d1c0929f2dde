# tweetdeck-scraper in Dafny

A model of the `Scraper` class of tweetdeck-scraper, with proofs about it.
The scraper keeps a TweetDeck page open in a browser. Every
`SCRAPE_INTERVAL` it walks the page's columns and their `js-stream-item`
nodes. Each item id it has not seen recently is first appended to a
bounded recency registry. The scraper then reads the item's fields, stores
a document for it in Elasticsearch (unless one already exists) and
publishes the id to a RabbitMQ queue.

The model is split into modules:

- `Recency` (recency.dfy): the `collections.deque(maxlen=1000)` registry.
  - `Window` is what the deque holds after a sequence of appends.
  - `Push` is one append.
  - The `Registry` class holds the deque as a field and keeps it equal to
    the window of everything ever appended.
- `ImageUrl` (image_url.dfy): the anchored regular expression
  `background-image:\s*url\("?(.*?)\?`.
  - It is specified by `MatchesAt`, the set of ways the pattern can match.
  - It is implemented by `Locate`, which picks the match Python's
    backtracking engine reports: greedy `\s*` and `"?`, lazy capture.
- `Items` (items.dfy): the field lookups on one item node. A missing
  element, or a timestamp that does not parse, is an error result.
- `Sinks` (sinks.dfy): the two places an item is committed to.
  - The Elasticsearch index is a map from id to document: `store`.
  - The queue is a sequence of message bodies, and the connection is
    `Unset` or open/closed: `setup_rmq` and `enqueue`.
- `Cycle` (cycle.dfy): one `scrape` as a function of the scraper's state.
  It is a fold over columns, then items. It comes with the invariant
  `Consistent` and the lemmas about it.
- `Schedule` (schedule.dfy): the sleep in `run`, and the times at which
  successive scrapes begin.
- `TweetdeckScraper` (scraper.dfy): the `Scraper` class.
  - It holds the registry, index, queue and broker as fields.
  - Its methods `Store`, `Enqueue`, `ProcessItem`, `ScrapeItems`, `Scrape`,
    `Turn` and `Run` loop and update the fields as the Python methods do.
  - Each method is proved to leave the state that the `Sinks`, `Cycle` and
    `Schedule` functions describe.

What the outside world does is passed in as data:

- a `Page` is whether the page loaded and the item nodes of each column;
- a `Conditions` value per item is the formatted `datetime.now()`, whether
  the Elasticsearch calls raise, whether the broker has dropped the
  connection, and whether a reconnection fails;
- a `Round` per turn of `run` is the page and how long the scrape takes.

Two consequences of the code that the model keeps:

- When the queue connection fails at start-up, `setup_rmq` logs "exiting"
  but does not exit (scraper.py:126-128), so `self.rmq` is never assigned.
  `enqueue` then raises `AttributeError` at `self.rmq.is_open`
  (scraper.py:229), before it could reconnect, and the per-item `try`
  swallows it. The model's broker therefore stays `Unset`, and nothing is
  ever published (the `Unset` ensures of `Cycle.StepItem` and
  `Cycle.ScrapePages`).
- The sleep `self.rmq.sleep(...)` (scraper.py:248) sits outside the `try`
  of `run`. It raises when `self.rmq` is unset, and when a scrape left the
  connection closed because a reconnection failed. `run` then ends after
  that scrape (`crashed` in `TweetdeckScraper.Scraper.Turn` and
  `TweetdeckScraper.Scraper.Run`).

## Model

| member | source | states |
|---|---|---|
| Recency.Window | tweetdeck_scraper/scraper.py:48 | the deque holds the last min(n, 1000) ids appended, in order of appending |
| Recency.Registry.constructor | tweetdeck_scraper/scraper.py:48 | a new registry is empty, and so is the history of appends; the invariant holds |
| Recency.Push | tweetdeck_scraper/scraper.py:174 | one append puts the id last; if the deque was full, the oldest entry is dropped, otherwise nothing is |
| Recency.PushWindow | tweetdeck_scraper/scraper.py:172-174 | appending to the window of a history gives the window of the longer history: the deque is always the last ≤ 1000 ids |
| Recency.InWindowIffRecent | tweetdeck_scraper/scraper.py:172 | `id not in self.registry` holds exactly when the id is not among the last 1000 appended |
| Recency.SpacedAppendFresh | tweetdeck_scraper/scraper.py:172-174 | appending only ids absent from the deque keeps any two appends of one id more than 1000 appends apart |
| Recency.Registry.Append | tweetdeck_scraper/scraper.py:174 | the registry field becomes `Push` of the old contents, and still equals the window of all appends |
| ImageUrl.Locate | tweetdeck_scraper/scraper.py:191-193 | a reported match is a match of the pattern, and it is the one the engine prefers: whitespace as long as possible, the quote taken when present, the shortest capture |
| ImageUrl.LocateComplete | tweetdeck_scraper/scraper.py:191-194 | whenever the pattern can match at all, a match is reported |
| ImageUrl.ExtractImageUrl | tweetdeck_scraper/scraper.py:191-195 | a URL found contains no `?` and no newline, and the style starts with `background-image:` |
| ImageUrl.ExtractIsPreferredCapture | tweetdeck_scraper/scraper.py:191-195 | if the pattern matches, `match.group(1)` is the capture of the preferred match |
| ImageUrl.ExtractOnlyOnMatch | tweetdeck_scraper/scraper.py:191-195 | a URL is only returned when it is the capture of some match |
| ImageUrl.QuotedUrlStopsAtQuery | tweetdeck_scraper/scraper.py:191-195 | `background-image: url("https://x/img.jpg?format=jpg")` gives `https://x/img.jpg` |
| ImageUrl.UnquotedUrlStopsAtQuery | tweetdeck_scraper/scraper.py:191-195 | without a quote and without whitespace the URL is found the same way |
| ImageUrl.UrlWithoutQueryIsNone | tweetdeck_scraper/scraper.py:191-195 | a URL with no `?` does not match, so there is no image URL |
| ImageUrl.AnchoredAtStart | tweetdeck_scraper/scraper.py:191-193 | `re.match` is anchored: text before `background-image:` prevents a match |
| Items.ImageOf | tweetdeck_scraper/scraper.py:185-197 | a missing media element gives no image URL; a present one gives exactly what the pattern extracts from its style; a URL found has no `?` |
| Items.ParseItem | tweetdeck_scraper/scraper.py:175-197 | the lookups succeed exactly when author, timestamp, text and body are present; the first missing one decides the error; on success the fields are the node's |
| Items.MediaIsOptional | tweetdeck_scraper/scraper.py:185-197 | the media element never decides whether an item parses; without it the image URL is None |
| Sinks.NewDocument | tweetdeck_scraper/scraper.py:217-220 | the document has exactly the seven base keys, plus `image_url` exactly when the URL is truthy, with the item's values |
| Sinks.Store | tweetdeck_scraper/scraper.py:212-226 | succeeds exactly when the client call does not raise and the id is usable; an existing id leaves the index unchanged; otherwise exactly one document is added, under the id, and every other document is kept |
| Sinks.StoreIdempotent | tweetdeck_scraper/scraper.py:214-215 | storing the same id again changes nothing, whatever fields are passed the second time |
| Sinks.Connect | tweetdeck_scraper/scraper.py:107-128 | a successful `setup_rmq` leaves an open connection; a failed one keeps the old handle |
| Sinks.Enqueue | tweetdeck_scraper/scraper.py:228-238 | a publish appends the id exactly once and leaves the connection open; otherwise the queue is unchanged, an unset connection stays unset and any other is left closed. The publish succeeds exactly when there is a connection that is open, or is reopened. `setup_rmq` runs once exactly when the connection was closed |
| Sinks.EnqueueTwiceTwoMessages | tweetdeck_scraper/scraper.py:232-238 | there is no duplicate check: enqueueing one id twice gives two messages |
| Cycle.StepItem | tweetdeck_scraper/scraper.py:170-210 | a known id changes nothing. A fresh id is recorded whatever happens later. A lookup or store failure publishes nothing and leaves index, connection and the count of `setup_rmq` calls alone. A fresh item whose lookups succeed goes to `Sinks.Store`, and when that returns normally the index, queue, connection and connection count are what `Sinks.Enqueue` gives. A message is published only for a usable id now in the index. An unset connection never publishes |
| Cycle.FreshItemIsStored | tweetdeck_scraper/scraper.py:198-202 | a fresh item whose lookups succeed, while Elasticsearch answers, ends up in the index: under the document already there if any, else under the new document; no other id is added |
| Cycle.FreshItemIsPublished | tweetdeck_scraper/scraper.py:198-205 | such an item, on a connection that is open and stays so, is published once and recorded in the registry, and the connection stays open |
| Cycle.ScrapeColumn | tweetdeck_scraper/scraper.py:170-210 | the registry stays within 1000 entries over a column's items; an unset connection publishes nothing and stays unset |
| Cycle.RepeatedIdCommittedOnce | tweetdeck_scraper/scraper.py:170-205 | a column with items a, b and a again, read by a fresh scraper while both services answer, publishes [a, b], leaves the registry [a, b] and indexes exactly a and b: the repeated id is skipped whatever its item holds |
| Cycle.ScrapeColumns | tweetdeck_scraper/scraper.py:164-210 | the registry stays within 1000 entries over the columns; with an unset connection the queue is untouched |
| Cycle.ScrapePage | tweetdeck_scraper/scraper.py:147-210 | a page that did not load leaves the state unchanged |
| Cycle.ScrapePages | tweetdeck_scraper/scraper.py:243-247 | over any number of scrapes, a connection unset at start-up stays unset and nothing is published |
| Cycle.StepItemConsistent | tweetdeck_scraper/scraper.py:170-207 | one item keeps the invariant: registry = window of recorded ids, ids spaced, every message indexed, each message matched by its own recording |
| Cycle.StepItemExtends | tweetdeck_scraper/scraper.py:170-207 | one item only appends to the queue and the record, keeps indexed ids, and each new message matches a new recording |
| Cycle.ScrapePageKeeps | tweetdeck_scraper/scraper.py:147-210 | a scrape keeps the invariant and only extends queue and record |
| Cycle.ScrapePagesKeeps | tweetdeck_scraper/scraper.py:243-247 | successive scrapes keep the invariant |
| Cycle.ScrapePublishesAtMostOnce | tweetdeck_scraper/scraper.py:164-205 | within one scrape recording at most 1001 new ids, every id is published at most once, however often it appears |
| Schedule.SleepDelay | tweetdeck_scraper/scraper.py:248-249 | the sleep lasts 1 to SCRAPE_INTERVAL units and ends a whole number of intervals after `start_time` |
| Schedule.WakeTimes | tweetdeck_scraper/scraper.py:242-249 | the first scrape begins at `start_time`, and there is one wake-up per turn plus the next one |
| Schedule.WakeTimesStep | tweetdeck_scraper/scraper.py:243-249 | one more turn adds one wake-up time: the end of the scrape plus the sleep |
| Schedule.WakeTimesOnGrid | tweetdeck_scraper/scraper.py:242-249 | every scrape begins a whole number of intervals after `start_time`: no drift |
| Schedule.WakeTimesAfterScrape | tweetdeck_scraper/scraper.py:243-249 | each scrape begins strictly after the previous one ended, and at most one interval after that |
| Schedule.NoDriftWhenScrapesAreShort | tweetdeck_scraper/scraper.py:242-249 | when every scrape is shorter than the interval, scrape k begins at exactly start + k·interval |
| Schedule.ThreeUnitScrapes | tweetdeck_scraper/scraper.py:248-249 | 3-unit scrapes with a 10-unit interval begin at start, start+10, start+20 |
| TweetdeckScraper.Advance | tweetdeck_scraper/scraper.py:242-249 | after the loop has ended nothing changes; otherwise one turn is one `ScrapePage`, and the sleep raises exactly when the connection is not open after it |
| TweetdeckScraper.RunTurns | tweetdeck_scraper/scraper.py:240-249 | the turns of `run` one after another: the registry stays within 1000 entries and there is always a next wake-up time |
| TweetdeckScraper.CrashedStays | tweetdeck_scraper/scraper.py:242-249 | once the sleep has raised, later rounds change nothing: the exception ends `run` |
| TweetdeckScraper.RunTurnsCompleted | tweetdeck_scraper/scraper.py:242-249 | when the loop has not ended, every round ran to its end and the state is `ScrapePages` over all their pages |
| TweetdeckScraper.RunTurnsCrashed | tweetdeck_scraper/scraper.py:242-249 | when the loop has ended, it ended after the first scrape that left the connection not open: the state is `ScrapePages` over the pages up to that one, and fewer turns than rounds ran to their end |
| TweetdeckScraper.RunTurnsWakes | tweetdeck_scraper/scraper.py:242-249 | the wake-up times are `WakeTimes` of the durations of the turns that ran to their end |
| TweetdeckScraper.RunTurnsOpen | tweetdeck_scraper/scraper.py:242-249 | after each scrape of a turn that ran to its end the connection was open |
| TweetdeckScraper.RunTurnsUnset | tweetdeck_scraper/scraper.py:240-249 | with a start-up connection that failed, `run` ends after its first scrape without waking up again |
| TweetdeckScraper.Scraper.constructor | tweetdeck_scraper/scraper.py:44-52 | an empty registry, the index as stored, and one `setup_rmq`; the invariant holds |
| TweetdeckScraper.Scraper.SetupRmq | tweetdeck_scraper/scraper.py:107-128 | the connection becomes `Connect` of the old one; index and queue are untouched |
| TweetdeckScraper.Scraper.Store | tweetdeck_scraper/scraper.py:212-226 | returns normally exactly when `Sinks.Store` succeeds, and the index becomes its result; nothing else changes |
| TweetdeckScraper.Scraper.Enqueue | tweetdeck_scraper/scraper.py:228-238 | connection, queue and connection count become what `Sinks.Enqueue` gives; the index is untouched |
| TweetdeckScraper.Scraper.ProcessItem | tweetdeck_scraper/scraper.py:170-207 | the new state is `StepItem` of the old one |
| TweetdeckScraper.Scraper.ScrapeItems | tweetdeck_scraper/scraper.py:170-210 | the new state is `ScrapeColumn` of the old one over the column's items |
| TweetdeckScraper.Scraper.Scrape | tweetdeck_scraper/scraper.py:147-210 | the new state is `ScrapePage` of the old one, and the invariant is kept |
| TweetdeckScraper.Scraper.Turn | tweetdeck_scraper/scraper.py:244-249 | one turn is one `ScrapePage`, then a wake-up at the next grid point; it raises exactly when the connection is not open after the scrape, which includes a start-up connection that was never made |
| TweetdeckScraper.Scraper.Run | tweetdeck_scraper/scraper.py:240-249 | after the given rounds, the state, the wake-up times and whether the loop ended on an exception are exactly what `RunTurns` gives |

## Left out

- Selenium is not modelled: browser set-up, `login`, the `WebDriverWait` for
  the page (only its outcome, `Page.ready`) and stale-element errors outside
  the per-item `try`. The page is given as data.
- `set_logger` and all logging. They only cause side effects.
- `setup_es` is not modelled: client construction, `ping`, index creation
  and `sys.exit`. The index is a map given to the constructor.
- `setup_rmq` is simplified. Only whether the connection attempt succeeds is
  modelled, not a channel or `queue_declare` failing after a successful
  connect.
- `dateutil.parser.parse`, `datetime.now()` and `strftime` are not modelled.
  An item node carries the already formatted date, or None if it does not
  parse, and the download time is a string in `Conditions`.
- Time is not modelled in floating point. Times and `SCRAPE_INTERVAL` are
  whole units; `time.time()` readings are the start time plus the scrape
  durations given, and `rmq.sleep` is modelled by its length only.
- The `COLUMNS` setting: only `COLUMNS == 'ALL'` (every `column` element) is
  modelled, not the list of XPaths.
- `DEBUG` logging branches. They only log.
- The Python 2 `ConnectionError` shim.
- `run` is endless. The model covers any finite number of its turns.
- Items.ImageOf: assumes `get_attribute('style')` returns a string, so a
  `TypeError` from `re.match(None)` is not modelled.
- Sinks.Store: Elasticsearch's refusal of an empty id is modelled as the
  call raising. No other client-side validation is modelled.
- Sinks.Enqueue: whether the connection was closed is given as a flag; the
  pika heartbeat and I/O loop are not modelled. Publishing on a connection
  that `setup_rmq` failed to reopen raises.
- TweetdeckScraper.Scraper.Turn: the connection can only become closed
  in the model through an `enqueue` whose reconnection fails. A drop
  noticed by no publish in that scrape, or one during the sleep itself, is
  not modelled, so such a crash is not predicted.
- Schedule.SleepDelay: the interval is the configured 10 units. The proofs
  use only that it is positive, but they are checked for that value alone.
- TweetdeckScraper.Scraper.Run: the invariant is not stated on the method
  itself. It holds by `Cycle.ScrapePagesKeeps`, because the final state is
  `ScrapePages` of the initial one over the scrapes done
  (`TweetdeckScraper.RunTurnsCompleted`, `TweetdeckScraper.RunTurnsCrashed`).
- Cycle.ScrapePublishesAtMostOnce: proved for one scrape that records at
  most 1001 new ids. Beyond that the registry forgets ids and the source
  does republish.
