/** The fields the scraper reads out of one rendered `js-stream-item` node,
    in the order it looks them up. */
module Items {
  import opened Wrappers
  import ImageUrl

  /** An item id: the `data-tweet-id` attribute, None when the node has no
      such attribute (Selenium's `get_attribute` then returns `None`). */
  type Id = Option<string>

  /** The `tweet-text` element: its `innerHTML` and its `lang` attribute. */
  datatype TextElement = TextElement(innerHtml: string, lang: Option<string>)

  /** One item node as the browser renders it. Each lookup by class name
      gives None when the element is missing (`NoSuchElementException`).
      `published` is what the scraper makes of the `tweet-timestamp`
      element: the date, already formatted as `%Y-%m-%d %H:%M:%S`, when the
      element is present and its `datetime` attribute parses, None
      otherwise. `mediaStyle` is the `style` attribute of the optional
      `js-media-image-link` element. */
  datatype ItemNode = ItemNode(
    tweetId: Id,
    author: Option<string>,
    published: Option<string>,
    text: Option<TextElement>,
    body: Option<string>,
    mediaStyle: Option<string>)

  /** Why field extraction raised, by the first lookup that failed. */
  datatype ParseError = NoAuthor | BadTimestamp | NoText | NoBody

  /** The fields handed to `store`. */
  datatype Tweet = Tweet(
    author: string,
    published: string,
    text: string,
    body: string,
    language: Option<string>,
    imageUrl: Option<string>)

  /** The media URL of an item: None when the media element is absent or
      its style does not match the pattern. */
  function ImageOf(mediaStyle: Option<string>): (r: Option<string>)
    ensures mediaStyle.None? ==> r.None?
    ensures mediaStyle.Some? ==> r == ImageUrl.ExtractImageUrl(mediaStyle.value)
    ensures r.Some? ==> '?' !in r.value
  {
    match mediaStyle
    case None => None
    case Some(style) => ImageUrl.ExtractImageUrl(style)
  }

  /** The field lookups of one item: the author, the timestamp, the text
      element and the body are required, and the first one missing decides
      the error; the text's language and the media URL are optional. */
  function ParseItem(node: ItemNode): (r: Result<Tweet, ParseError>)
    ensures r.Success? <==>
              node.author.Some? && node.published.Some? && node.text.Some? && node.body.Some?
    ensures r.Failure? ==>
              r.error == (if node.author.None? then NoAuthor
                          else if node.published.None? then BadTimestamp
                          else if node.text.None? then NoText
                          else NoBody)
    ensures r.Success? ==>
              && r.value.author == node.author.value
              && r.value.published == node.published.value
              && r.value.text == node.text.value.innerHtml
              && r.value.language == node.text.value.lang
              && r.value.body == node.body.value
              && r.value.imageUrl == ImageOf(node.mediaStyle)
  {
    match node.author
    case None => Failure(NoAuthor)
    case Some(author) =>
      match node.published
      case None => Failure(BadTimestamp)
      case Some(published) =>
        match node.text
        case None => Failure(NoText)
        case Some(textEl) =>
          match node.body
          case None => Failure(NoBody)
          case Some(body) =>
            Success(Tweet(author, published, textEl.innerHtml, body, textEl.lang,
                          ImageOf(node.mediaStyle)))
  }

  /** The media element never decides whether an item parses: a node with
      no media element, or with a style that does not match, parses exactly
      when the same node with any other media style does, and then has no
      image URL. */
  lemma MediaIsOptional(node: ItemNode, style: Option<string>)
    ensures ParseItem(node).Success? == ParseItem(node.(mediaStyle := style)).Success?
    ensures ParseItem(node.(mediaStyle := None)).Success? ==>
              ParseItem(node.(mediaStyle := None)).value.imageUrl.None?
  {
  }
}
