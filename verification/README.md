# symfony web controller redirect, modelled in Dafny

This project models `sfWebController::redirect` from symfony 1.x. The routine
turns a redirect destination into an HTTP redirect response. A destination is
either an internal URI or an array of route parameters. The routine:

1. throws `InvalidArgumentException('Cannot redirect to an empty URL.')` when
   PHP's `empty()` holds for the destination;
2. resolves the destination to an absolute URL through the URL builder
   (`genUrl($url, true)`);
3. collapses every `&amp;` in that URL back to `&`, a workaround for a URL
   builder that escapes twice;
4. notifies the event dispatcher with `Redirect to "<url>"` when logging is on;
5. clears the response headers, then sets the status code;
6. sets a `Location` header only for status 201 and the 3xx codes, the
   responses for which section 10.2.2 of RFC 9110 (section 14.30 of RFC 2616)
   defines `Location`;
7. sets the body to a meta-refresh page carrying the delay and the URL,
   escaped as `htmlspecialchars(..., ENT_QUOTES)` does;
8. sends the response.

Modules, one file each:

- `Text` (`text.dfy`): prefix tests and splitting a string at its first
  occurrence of a character.
- `Escaping` (`escaping.dfy`): the two string transforms. `ReplaceAmp` is
  `str_replace('&amp;', '&', ...)` and `EscapeHtml` is `htmlspecialchars` with
  `ENT_QUOTES`. Each has an inverse and proved round trips:
  - `EscapeAmp`, the double escaping that `ReplaceAmp` undoes;
  - `UnescapeHtml`, the entity decoding that undoes `EscapeHtml`.
- `Decimal` (`decimal.dfy`): `sprintf('%d')` as `FormatInt`, with the reader
  `ParseInt` and a round trip.
- `MetaRefresh` (`meta_refresh.dfy`): the response body as `Page`. Its reader
  `ParsePage` is proved to recover the exact delay and URL. A lemma shows the
  URL can never close the `content` attribute early.
- `Http` (`http.dfy`): the response and the event dispatcher, as classes whose
  methods update their fields. A response also records its calls, in order,
  in a ghost trace. `Apply` and `Replay` say what each call does to the
  response state.
- `WebController` (`web_controller.dfy`): the destination, PHP `empty()`, the
  header rule, and the `Controller` class with `Redirect`. `Redirect` is
  proved against the functions above. Its final response state and its call
  trace are stated in full. When it throws, it touches neither the response
  nor the dispatcher.

The default arguments `delay = 0` and `statusCode = 302` are Dafny default
parameter values of `Redirect`.

The doc comment at `lib/controller/sfWebController.class.php:56` says the
exception is thrown for "null or an empty string". The code uses PHP
`empty()`, which also rejects `"0"`, `false`, `0` and the empty array. The model
follows the code (`IsEmptyDest`, lemma `EmptyDestinations`).

## Model

| member | source | states |
|---|---|---|
| `WebController.Controller.Redirect` | lib/controller/sfWebController.class.php:58-88 | An empty destination gives `InvalidArgument("Cannot redirect to an empty URL.")` and leaves the response and the dispatcher unchanged. Otherwise: the status is `statusCode`; the headers are exactly `RedirectHeaders(statusCode, url)` for `url = TargetUrl(dest)`; the body is `Page(delay, url)`; the response is sent; the call trace grows by `RedirectCalls`; the dispatcher log grows by `Redirect to "<url>"` exactly when logging is enabled |
| `WebController.Controller.TargetUrl` | lib/controller/sfWebController.class.php:65-67 | The redirect URL is `genUrl(dest, true)` after `&amp;` collapsing, and is never longer than the generated URL |
| `WebController.EmptyDestinations` | lib/controller/sfWebController.class.php:56-63 | `empty()` rejects null, `""`, `"0"` and the empty array, but accepts `"00"`, `" "` and `"/"` |
| `WebController.RedirectHeaders` | lib/controller/sfWebController.class.php:76-84 | After a redirect, the header map holds at most `Location`. `Location` is present if and only if the status is 201 or in [300, 400), and its value is the URL |
| `WebController.RedirectCalls` | lib/controller/sfWebController.class.php:75-87 | The redirect's calls start by clearing the headers. They end with `send`, which occurs exactly once |
| `WebController.ReplayRedirectCalls` | lib/controller/sfWebController.class.php:75-87 | Replaying the redirect's calls from any prior response state gives exactly the redirect's status, headers and body, and a sent response: nothing from before survives |
| `Http.Response.ClearHttpHeaders` | lib/controller/sfWebController.class.php:76 | Empties the header map and changes nothing else; records the call |
| `Http.Response.SetStatusCode` | lib/controller/sfWebController.class.php:77 | Sets the status and changes nothing else; records the call |
| `Http.Response.SetHttpHeader` | lib/controller/sfWebController.class.php:83 | Sets one header, keeping the others; records the call |
| `Http.Response.SetContent` | lib/controller/sfWebController.class.php:86 | Sets the body and changes nothing else; records the call |
| `Http.Response.Send` | lib/controller/sfWebController.class.php:87 | Marks the response sent and changes nothing else; records the call |
| `Http.Dispatcher.Notify` | lib/controller/sfWebController.class.php:69-72 | Appends the message to the log |
| `Escaping.ReplaceAmp` | lib/controller/sfWebController.class.php:67 | The normalised URL is never longer than its input and is shorter by a multiple of four characters |
| `Escaping.ReplaceAmpKeepsAmpersands` | lib/controller/sfWebController.class.php:67 | The normalisation keeps the number of `&` characters |
| `Escaping.ReplaceAmpWithoutEntity` | lib/controller/sfWebController.class.php:67 | A URL containing no `&amp;` is unchanged |
| `Escaping.ReplaceAmpAtEntity` | lib/controller/sfWebController.class.php:67 | Every `&amp;` becomes `&` whatever precedes it, as in a left-to-right scan without overlap |
| `Escaping.EscapeAmp` | lib/controller/sfWebController.class.php:66-67 | The double escaping being worked around lengthens the text by four characters per `&` |
| `Escaping.ReplaceAmpUndoesEscapeAmp` | lib/controller/sfWebController.class.php:66-67 | Collapsing `&amp;` exactly undoes a second round of `&` escaping |
| `Escaping.EscapeHtml` | lib/controller/sfWebController.class.php:86 | The escaped URL contains no raw `"`, `'`, `<` or `>` |
| `Escaping.EscapeHtmlLength` | lib/controller/sfWebController.class.php:86 | Escaping adds 4 characters per `&`, 5 per `"` and per `'`, and 3 per `<` and per `>` |
| `Escaping.EscapeHtmlPlain` | lib/controller/sfWebController.class.php:86 | Text without special characters is left as it is |
| `Escaping.EscapeHtmlIdentity` | lib/controller/sfWebController.class.php:86 | The escaped URL is at least as long as the URL. It equals the URL if and only if the URL has no `&`, `"`, `'`, `<` or `>` |
| `Escaping.UnescapeEscapeHtml` | lib/controller/sfWebController.class.php:86 | Decoding the five entities recovers the URL, so escaping loses nothing |
| `Decimal.NatDigits` | lib/controller/sfWebController.class.php:86 | The digits of a natural number: non-empty, all digits, and no leading zero |
| `Decimal.DigitsValueOfNatDigits` | lib/controller/sfWebController.class.php:86 | The digits denote the number they were made from |
| `Decimal.FormatInt` | lib/controller/sfWebController.class.php:86 | `%d` writes a leading `-` exactly for negative delays; otherwise it writes only digits |
| `Decimal.ParseFormatInt` | lib/controller/sfWebController.class.php:86 | The written delay reads back as the same integer |
| `MetaRefresh.ContentValue` | lib/controller/sfWebController.class.php:86 | The `content` attribute value holds no double quote |
| `MetaRefresh.PageAttributeClosed` | lib/controller/sfWebController.class.php:86 | The body starts with the template head. The first quote after the head is the template's own closing quote |
| `MetaRefresh.ParseContentOfValue` | lib/controller/sfWebController.class.php:86 | The `content` value gives back exactly the delay and the URL |
| `MetaRefresh.ParsePageOfPage` | lib/controller/sfWebController.class.php:86 | The body gives back exactly the delay and the URL it was made from |

## Left out

- `genUrl` / `sfUrlBuilder::generateUrl` and routing (line 33) are outside this model. The URL builder is the controller's uninterpreted function field `genUrl`; nothing is assumed about its output.
- `convertUrlStringToParameters` (lines 43-46) delegates to the URL builder's parser and has no behaviour of its own.
- `sfConfig::get('sf_logging_enabled')` is the controller field `loggingEnabled`.
- `sfConfig::get('sf_charset')` is not modelled. The charset only changes `htmlspecialchars` on byte sequences invalid in it, and characters here are abstract code points.
- The dispatcher is reduced to the list of logged messages. The `sfEvent` subject, the `application.log` event name and the listeners are left out.
- The relative order of the log notification and the response calls is not recorded; each has its own trace.
- What `send()` transmits (headers, then content, over the HTTP transport) is I/O. Only the `sent` flag and the call trace are modelled.
- `sfWebResponse` details beyond these calls are left out: header-name normalisation, the status text, the `replace` flag and the `headers_sent()` guard.
- `Dest` covers null, booleans, integers, strings and string-keyed arrays. Floats (`0.0` is empty), objects, and arrays with non-string keys or values are left out.
- `Decimal.FormatInt`: the delay is an unbounded integer. PHP's 64-bit integer range and `%d`'s conversion of non-integer delays are not modelled.
