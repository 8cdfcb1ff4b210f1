# uniqlo-discount-notifier, modelled in Dafny

The system is a single script, `app.py`. It reads a list of product-page URLs. For each page it reads the price history from a chart, computes maximum, minimum, current price and discount rate, and posts the results to a Slack channel, three products per message.

This project models the three pieces of sequential logic in that script. The browser and the chat client become plain inputs.

- **Text** (`text.dfy`): Python's `str.strip()` with no argument. It strips CPython's full set of white-space characters. The module proves what `strip` promises: the result is a slice of the input, white space is removed only at the ends, and `not line.strip()` holds exactly for blank lines.
- **Extraction** (`extraction.dfy`): the statistics half of `get_product_data`. The browser's answer is an `Option<PageData>`: a title and the chart's `y` values, or `None` when navigation, the wait, the title lookup or the script read raised. Python's `max`/`min` are left-to-right scans. They are proved to return the greatest/least element. The record exists exactly when the page was read, the price list is non-empty and the maximum is not zero. Otherwise `max` raises `ValueError`, or the division raises `ZeroDivisionError`, and both are caught and turned into `None`.
- **Collection** (`collection.dfy`): the `for url in urls` loop of `main`, as a method over a `seq` of lines. It is proved equal to a recursive reference definition `Qualified`. Lemmas about `Qualified` state: order along the lines, one line's contribution, at most one product per non-blank line, that blank lines never reach the browser, and that every product comes from a non-blank line and is well formed.
- **Batching** (`batching.dfy`): a recursive reference definition of the groups of `unit_size`, with its count `ceil(n / k)`, the exact partition, group sizes, and the index formula `s[i*k .. min((i+1)*k, n)]` with `i*k < min(...) <= n`.
- **Message** (`message.dfy`): the header and the per-product stanza. The `message +=` loop is a method.
- **Notifier** (`notifier.dfy`): the `for i in range(num_units)` loop with `start_index`/`end_index`, which records each text handed to `post_message` in a trace `sent`, and the whole run after start-up. It also holds worked examples: 7 products give groups of 3, 3 and 1, and no products give no message. Two URL lines where the second fails give one message.

Three points of the code's behaviour are easy to misread. The model follows the code:

- For a positive original price and a non-negative current price, the discount rate lies in [0, 1], and 1 is reached. It is exactly 1 when the current price is 0 (`Extraction.DiscountRateIsOneIffFree`). A negative current price gives a rate above 1.
- A zero maximum never gives a record, and no zero rate is produced for it. The division raises `ZeroDivisionError` and the exception handler returns `None`.
- The code does not require the maximum price to be positive, only non-zero. A price list whose maximum is negative still gives a record. The [0, 1] bound is therefore proved under `originalPrice > 0` and `currentPrice >= 0`.

## Model

| member | source | states |
|---|---|---|
| Text.TrimStartSpec | app.py:105 | stripping the front removes exactly the longest all-white-space prefix: the rest is the input's suffix and does not start with white space |
| Text.TrimEndSpec | app.py:105 | stripping the back removes exactly the longest all-white-space suffix: the rest is the input's prefix and does not end with white space |
| Text.StripIsMaximalTrim | app.py:68 | `strip()` returns a contiguous slice `s[i..j]` of its input, everything outside it is white space, and the result neither starts nor ends with white space |
| Text.StripEmptyIffBlank | app.py:105-106 | `line.strip()` is empty if and only if every character of the line is white space, so exactly the blank lines are skipped |
| Extraction.Max | app.py:59 | `max(prices)` of a non-empty list is one of the prices and at least every price |
| Extraction.Min | app.py:60 | `min(prices)` of a non-empty list is one of the prices and at most every price |
| Extraction.GetProductData | app.py:41-77 | a record is returned if and only if the page was read, the price list is non-empty and its maximum is non-zero (else `None`, for the caught `ValueError`/`ZeroDivisionError`); the record's name is the page title and its URL the stripped line; its original and lowest prices are prices from the list that bound every price; its current price is the last one; its rate is `(max - current) / max` |
| Extraction.GetProductDataWellFormed | app.py:59-73 | every returned record has a non-zero original price, lowest <= current <= original, and rate `(original - current) / original` |
| Extraction.DiscountRateInUnitInterval | app.py:62 | with a positive maximum and a non-negative current price the discount rate lies in [0, 1] |
| Extraction.DiscountRateIsOneIffFree | app.py:62 | with a positive maximum the rate equals 1 exactly when the current price is 0; it is below 1 for a positive current price and above 1 for a negative one |
| Collection.CollectProducts | app.py:100-110 | the loop that skips blank lines, extracts the others and appends the records that come back leaves `qualified_products` equal to the reference definition `Qualified` |
| Collection.QualifiedAppend | app.py:104-110 | the products of lines `a + b` are those of `a` followed by those of `b`: input-line order is kept |
| Collection.QualifiedSingle | app.py:105-110 | one line contributes nothing when blank, nothing when its extraction fails, and its record otherwise |
| Collection.QualifiedAtMostNonBlank | app.py:104-110 | there are at most as many products as non-blank lines |
| Collection.QualifiedIgnoresEmptyUrl | app.py:105-108 | what the browser does for the empty URL never matters: blank lines are never passed to extraction |
| Collection.QualifiedFromNonBlankLines | app.py:104-110 | every collected product is the record of some non-blank input line; its URL is non-empty and it is well formed |
| Batching.ChunkCount | app.py:119 | the number of groups is `(n + k - 1) // k`, that is `ceil(n / k)`, and 0 when nothing qualified |
| Batching.FlattenChunks | app.py:121-124 | the groups concatenated in order give back exactly the product list: nothing dropped, duplicated or reordered |
| Batching.ChunkAt | app.py:122-124 | group `i` is the slice `[i * k : min((i + 1) * k, n)]`, and `i * k < min((i + 1) * k, n) <= n`: every slice is in bounds and non-empty |
| Batching.ChunkSizes | app.py:122-124 | every group except the last has exactly `k` products; the last has between 1 and `k` |
| Message.StanzasAppend | app.py:127-128 | the stanzas of two runs of products put together are the stanzas of the first followed by those of the second |
| Message.StanzaInMessage | app.py:127-128 | the stanzas of a group are those of the products before product `i`, then product `i`'s stanza, then those of the products after it: one stanza per product, in group order |
| Message.MessageNamesProduct | app.py:126-128 | in the message of a group, product `i` appears right after the header and the stanzas of the products before it: its `Item` line with its name, then its `Url` line with its stripped URL |
| Message.FormatIsHeaderOnlyIffEmpty | app.py:126-128 | every message starts with the fixed header, and it is the header alone exactly when its group is empty |
| Message.BuildMessage | app.py:126-128 | the `message +=` loop produces the header followed by the stanzas of the group's products in order |
| Notifier.MessagesAt | app.py:121-132 | one message per group, message `i` being the text of group `i` |
| Notifier.SendInChunks | app.py:116-132 | the index loop posts `ceil(n / unit_size)` messages, which are the texts of the groups of the partition in order |
| Notifier.Run | app.py:99-132 | a run posts `ceil(q / 3)` messages for the `q` collected products, which are the texts of their groups of 3 in order |
| Notifier.ExampleGroupSizes | app.py:117-124 | 7 products go out in groups of 3, 3 and 1; 0 products in no group |
| Notifier.ExampleOneFailure | app.py:104-132 | two URL lines around a blank one, the second failing extraction, give one product and so one message, the text of that product alone |

## Left out

- Browser session (`open_browser`, `driver.get`, the 10-second `WebDriverWait`, `find_element`, `execute_script`, `driver.quit` in the `finally`): these are foreign calls. The outcome of the page calls for a URL is the input `load(url.strip())`. An exception raised by `driver.get`, the wait, `find_element` or `execute_script` becomes its `None`, since those calls sit inside the `try` of `get_product_data`. `open_browser` and `driver.quit` are outside that `try`. The session's release is not modelled. Because `load` is a function, the same URL always gives the same page result; a real session, with its 10-second wait, may answer differently for a repeated line. No lemma relies on this: each one holds for whatever `load` gives.
- `float(data['y'])` failing on a malformed point is folded into the same `None`. Python floats are exact reals here: no NaN, no infinities, no rounding in the division.
- Rendering of numbers in the message (`str(float)` and the `:.2%` percentage): supplied by the `Render` parameter, not modelled.
- Slack: creating `WebClient` and `chat_postMessage` are network I/O. A post is the text appended to the trace `sent`. A post that raises `SlackApiError` is caught in `post_message` and the loop goes on. The text is still recorded in `sent`: the trace lists attempted posts, and a `SlackApiError` does not change what is attempted next.
- Notifier.SendInChunks, Notifier.Run: the count of `ceil(n / unit_size)` posted messages assumes every post returns or raises `SlackApiError`. Any other exception from `chat_postMessage` (a connection error, say) is not caught in `post_message` or in the send loop. It would end the run, and the remaining groups would not be posted. Likewise, an exception from `open_browser()` or `driver.quit()` ends the run before any post. These paths are not modelled.
- Start-up: reading `SLACK_TOKEN`/`SLACK_CHANNEL`, opening `data/product_list.txt` and the `sys.exit(1)` paths are process and file I/O. The model starts from the file's lines.
- Logging (loguru, the daily log file) and the `SPYDER_ARGS` headless toggle: no effect on the computed results.
- Notifier.SendInChunks: `unit_size` is a parameter required to be positive. The source fixes it at 3 (`UnitSize`), and `Run` uses that.
