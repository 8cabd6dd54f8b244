/**
 * The HTML body a redirect sends: a page whose only content is a
 * `<meta http-equiv="refresh">` tag carrying the delay and the escaped URL,
 * for user agents that ignore the `Location` header.
 */
module MetaRefresh {
  import opened Text
  import opened Escaping
  import opened Decimal

  /** The template text before the delay. */
  const Head: string := "<html><head><meta http-equiv=\"refresh\" content=\""
  /** The template text between the delay and the URL. */
  const UrlMark: string := ";url="
  /** The template text after the URL, from the closing quote on. */
  const Tail: string := "\"/></head></html>"

  /** What a refresh page tells the user agent: wait `delay` seconds, then load `url`. */
  datatype Refresh = Refresh(delay: int, url: string)

  /** The value of the `content` attribute. */
  function ContentValue(delay: int, url: string): (v: string)
    ensures '"' !in v
  {
    FormatInt(delay) + UrlMark + EscapeHtml(url)
  }

  /**
   * `sprintf('<html><head><meta http-equiv="refresh" content="%d;url=%s"/></head></html>',
   * $delay, htmlspecialchars($url, ENT_QUOTES))`.
   */
  function Page(delay: int, url: string): string
  {
    Head + ContentValue(delay, url) + Tail
  }

  /** Reads a `content` value back: the delay up to the first `;`, then `url=` and the escaped URL. */
  function ParseContent(content: string): Option<Refresh>
  {
    match SplitAt(content, ';')
    case None => None
    case Some((digits, target)) =>
      if !StartsWith(target, "url=") then None
      else match ParseInt(digits)
        case None => None
        case Some(delay) => Some(Refresh(delay, UnescapeHtml(target[4..])))
  }

  /**
   * Reads a refresh page back: the template around a `content` value that
   * runs to the first quote after the head.
   */
  function ParsePage(body: string): Option<Refresh>
  {
    if !StartsWith(body, Head) then None
    else match SplitAt(body[|Head|..], '"')
      case None => None
      case Some((content, rest)) => if rest != Tail[1..] then None else ParseContent(content)
  }

  /** In `h + v + t`, with no quote in `v` and `t` opening with one, the first quote after `h` ends `v`. */
  lemma FirstQuoteAfter(h: string, v: string, t: string)
    requires '"' !in v && |t| > 0 && t[0] == '"'
    ensures StartsWith(h + v + t, h)
    ensures SplitAt((h + v + t)[|h|..], '"') == Some((v, t[1..]))
  {
    var body := h + v + t;
    assert body[..|h|] == h;
    assert body[|h|..] == v + ['"'] + t[1..];
    SplitAtFirst(v, '"', t[1..]);
  }

  /**
   * The URL cannot break out of the attribute: the first quote after the
   * template head is the one the template itself closes the attribute with.
   */
  lemma PageAttributeClosed(delay: int, url: string)
    ensures StartsWith(Page(delay, url), Head)
    ensures SplitAt(Page(delay, url)[|Head|..], '"') == Some((ContentValue(delay, url), Tail[1..]))
  {
    FirstQuoteAfter(Head, ContentValue(delay, url), Tail);
  }

  /** The `content` value carries exactly the delay and the URL it was made from. */
  lemma ParseContentOfValue(delay: int, url: string)
    ensures ParseContent(ContentValue(delay, url)) == Some(Refresh(delay, url))
  {
    var d := FormatInt(delay);
    var e := EscapeHtml(url);
    var target := "url=" + e;
    assert SplitAt(ContentValue(delay, url), ';') == Some((d, target)) by {
      assert ContentValue(delay, url) == d + [';'] + target;
      SplitAtFirst(d, ';', target);
    }
    assert StartsWith(target, "url=") && target[4..] == e;
    ParseFormatInt(delay);
    UnescapeEscapeHtml(url);
  }

  /** The page carries exactly the delay and the URL it was made from. */
  lemma ParsePageOfPage(delay: int, url: string)
    ensures ParsePage(Page(delay, url)) == Some(Refresh(delay, url))
  {
    PageAttributeClosed(delay, url);
    ParseContentOfValue(delay, url);
  }
}
