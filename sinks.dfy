/** The two places an item is committed to: the Elasticsearch index, seen as
    a map from document id to document, and the RabbitMQ queue, seen as the
    sequence of message bodies published to it, together with the state of
    the scraper's broker connection. */
module Sinks {
  import opened Wrappers
  import opened Items

  /** A JSON value of a stored document: the fields are strings, except the
      language, which is null when the text element has no `lang`. */
  datatype Value = Str(s: string) | Null

  type Document = map<string, Value>

  /** The keys every stored document has. */
  const BaseKeys: set<string> :=
    {"id", "date_download", "date_publish", "author", "language", "text", "body"}

  /** Python truthiness of the image URL: neither None nor empty. */
  predicate Truthy(url: Option<string>)
  {
    url.Some? && url.value != ""
  }

  /** The document `store` builds for an item: the seven base fields, and
      `image_url` only when the URL is truthy. */
  function NewDocument(id: string, dateDownload: string, t: Tweet): (d: Document)
    ensures d.Keys == BaseKeys + (if Truthy(t.imageUrl) then {"image_url"} else {})
    ensures d["id"] == Str(id) && d["date_download"] == Str(dateDownload)
    ensures d["date_publish"] == Str(t.published) && d["author"] == Str(t.author)
    ensures d["text"] == Str(t.text) && d["body"] == Str(t.body)
    ensures d["language"] == (if t.language.Some? then Str(t.language.value) else Null)
    ensures Truthy(t.imageUrl) ==> d["image_url"] == Str(t.imageUrl.value)
  {
    var base := map[
      "id" := Str(id),
      "date_download" := Str(dateDownload),
      "date_publish" := Str(t.published),
      "author" := Str(t.author),
      "language" := (if t.language.Some? then Str(t.language.value) else Null),
      "text" := Str(t.text),
      "body" := Str(t.body)];
    if Truthy(t.imageUrl) then base["image_url" := Str(t.imageUrl.value)] else base
  }

  /** Why a call into a client raised. */
  datatype Fault =
    | StoreUnavailable   // the Elasticsearch call failed
    | EmptyDocumentId    // the client refuses an absent or empty id
    | NoConnection       // `self.rmq` was never assigned: AttributeError
    | ChannelClosed      // publishing on the channel of a closed connection

  /** An id the Elasticsearch client accepts as a document id. */
  predicate UsableKey(id: Id)
  {
    id.Some? && id.value != ""
  }

  /** `store`: an existence-checked write. When the client call raises the
      index is untouched; when the id is already indexed nothing is written;
      otherwise exactly one document, under that id, is added. */
  function Store(index: map<string, Document>, id: Id, dateDownload: string, t: Tweet,
                 unavailable: bool): (r: Result<map<string, Document>, Fault>)
    ensures r.Success? <==> !unavailable && UsableKey(id)
    ensures r.Success? && id.value in index ==> r.value == index
    ensures r.Success? && id.value !in index ==>
              && r.value.Keys == index.Keys + {id.value}
              && |r.value| == |index| + 1
              && r.value[id.value] == NewDocument(id.value, dateDownload, t)
              && forall k :: k in index ==> r.value[k] == index[k]
  {
    if unavailable then Failure(StoreUnavailable)
    else if !UsableKey(id) then Failure(EmptyDocumentId)
    else if id.value in index then Success(index)
    else Success(index[id.value := NewDocument(id.value, dateDownload, t)])
  }

  /** Storing the same item again changes nothing: the second write is a
      no-op, whatever the fields passed the second time. */
  lemma StoreIdempotent(index: map<string, Document>, id: Id, d1: string, t1: Tweet,
                        d2: string, t2: Tweet)
    requires Store(index, id, d1, t1, false).Success?
    ensures Store(Store(index, id, d1, t1, false).value, id, d2, t2, false)
            == Store(index, id, d1, t1, false)
  {
  }

  /** The scraper's handle on RabbitMQ: `Unset` when the connection made at
      start-up failed and `self.rmq` was never assigned, otherwise a
      connection that may have been closed by the broker. */
  datatype Broker = Unset | Connection(isOpen: bool)

  /** The queue side after one `enqueue`: the connection, the messages
      published, how many times `setup_rmq` has been called, and whether
      the publish went through. */
  datatype Delivery = Delivery(broker: Broker, queue: seq<string>, connects: nat, sent: bool)

  /** `setup_rmq`: one connection attempt. On success the scraper holds a
      new open connection; on failure the error is logged and the old
      handle, if any, is kept. */
  function Connect(broker: Broker, fails: bool): (b: Broker)
    ensures !fails ==> b == Connection(true)
    ensures fails ==> b == broker
  {
    if fails then broker else Connection(true)
  }

  /** `enqueue`: `dropped` says that the broker closed the connection since
      it was last used, `connectFails` that the one reconnection attempt
      fails. A closed connection is re-established once, never more, before
      the publish; the id is then appended to the queue exactly once, with
      no check for an earlier message with the same body. */
  function Enqueue(broker: Broker, queue: seq<string>, connects: nat, id: string,
                   dropped: bool, connectFails: bool): (r: Delivery)
    ensures r.sent ==> r.queue == queue + [id] && r.broker == Connection(true)
    ensures !r.sent ==> r.queue == queue
    ensures !r.sent ==> r.broker == (if broker.Unset? then Unset else Connection(false))
    ensures r.sent <==>
              broker.Connection? && ((broker.isOpen && !dropped) || !connectFails)
    ensures r.connects == connects + (if broker.Connection? && (dropped || !broker.isOpen) then 1 else 0)
  {
    match broker
    case Unset => Delivery(Unset, queue, connects, false)
    case Connection(isOpen) =>
      var seen := Connection(isOpen && !dropped);
      var now := if seen.isOpen then seen else Connect(seen, connectFails);
      var connects' := if seen.isOpen then connects else connects + 1;
      if now.isOpen then Delivery(now, queue + [id], connects', true)
      else Delivery(now, queue, connects', false)
  }

  /** Publishing is not deduplicated: enqueueing the same id twice on a
      working connection yields two messages with that body. */
  lemma EnqueueTwiceTwoMessages(queue: seq<string>, connects: nat, id: string)
    ensures Enqueue(Enqueue(Connection(true), queue, connects, id, false, false).broker,
                    Enqueue(Connection(true), queue, connects, id, false, false).queue,
                    connects, id, false, false).queue
            == queue + [id, id]
  {
  }
}
