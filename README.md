# Matcha stock bot — a verified model of its core

The bot scrapes the Marukyu-Koyamaen shop for matcha products, renders a
stock summary in Telegram MarkdownV2, and sends it to every subscribed chat
from a cron job that runs every quarter hour.

This project models, in Dafny, the parts of that program that decide what
is sent, to whom, and when:

- **Scraping** (`scraper.ts`)
  - Records are built from parsed listing items and product-page forms.
  - Each URL has its own try/catch loop: a failing URL contributes nothing.
  - Records are deduplicated by the key `url|name`, keeping the first occurrence.
- **Text** (`telegram.ts`)
  - `escapeMdV2` and `makeSummary`.
  - `chunkText`, which greedily packs lines into messages.
- **Dispatch** (`telegram.ts`)
  - The subscriber store.
  - The check-then-act bodies of `/subscribe` and `/unsubscribe`.
  - `notifyAvailable`: every chunk to every subscriber, in batches of 20. A subscriber whose send fails with 403, 400 or 410 is deleted.
- **Scheduler** (`app.ts`)
  - The cron callback as a transition over `isRunning`, `toggle` and `lastSentDateJST`.
  - Its two branches, its own dedup, and `shouldSend`.
  - The rule that the date is recorded only when `notifyAvailable` returns normally.

## Modules and files

| file | module | contents |
|---|---|---|
| `wrappers.dfy` | `Wrappers` | `Option` |
| `text.dfy` | `Text` | `split("\n")`/`join("\n")`, decimal rendering, JavaScript `trim`, `toLowerCase` for the characters that matter, `includes`, UTF-16 `length` |
| `markdown.dfy` | `Markdown` | `escapeMdV2`, its inverse, and how Telegram reads plain MarkdownV2 text |
| `products.dfy` | `Products` | the `Product` record, its dedup key, availability counts |
| `dedup.dfy` | `Deduplication` | the `seen`/`unique` loop and its specification |
| `scraper.dfy` | `Scraper` | record construction, the per-URL try/catch loops, the three scrape entry points |
| `summary.dfy` | `Summary` | `makeSummary` |
| `chunking.dfy` | `Chunking` | `chunkText` |
| `dispatch.dfy` | `Dispatch` | subscriber store, `/subscribe`, `/unsubscribe`, `notifyAvailable` |
| `scheduler.dfy` | `Scheduler` | the cron callback |

## How the outside world is represented

- **The network and HTML parsing.** A `Web` value gives, for each URL, either the parsed page or `None`.
  - `None` stands for an axios or cheerio failure.
  - A listing page is its `li.product` items: name text, optional href, `outofstock` class, price text.
  - A product page is its title text and its variation forms: stock text, then rows of size text and price text.
- **The Telegram transport.** It is a function from an `Attempt` (chunk number, chat id, text) to `Delivered` or `Failed(status)`.
- **The subscriber table.** It is a `SubscriberStore` object holding the chat ids in the order `findMany` returns them, with no duplicates.
- **Other inputs.** The presence of `bot` (`botReady`), whether Prisma calls succeed (`storeUp`), whether a handler's reply inside its `try` is delivered (`replyOk`) and the Tokyo date (`today`) are parameters.
- **Methods and their specifications.** Each loop of the source is a method proved equal to a function. The properties are lemmas about those functions.

## Model

| member | source | states |
|---|---|---|
| `Markdown.Escape` | telegram.ts:19-20 | the output is as long as the input plus its reserved characters; nothing changes without reserved characters; every reserved character of the output is preceded by a backslash |
| `Markdown.EscapeAddsOnlyBackslashes` | telegram.ts:19-20 | every output character is a backslash or a character of the input |
| `Markdown.UnescapeEscape` | telegram.ts:19-20 | dropping each backslash placed before a reserved character gives back the input exactly, backslashes in the input included |
| `Markdown.ReadEscape` | telegram.ts:18-20 | Telegram reads the escaped form of a backslash-free text as exactly that text |
| `Markdown.BackslashDefeatsEscape` | telegram.ts:18-20 | the backslash is not escaped, so the text `\.` escapes to `\\.`, which is not valid MarkdownV2 plain text |
| `Text.Decimal` | telegram.ts:55 | an interpolated count is a non-empty run of digits with no leading zero |
| `Text.ParseDecimalInverse` | telegram.ts:55 | the rendered count reads back as the count |
| `Text.SplitLines` | telegram.ts:24 | splitting at `\n` gives at least one piece |
| `Text.JoinSplit` | telegram.ts:24 | joining the pieces of a split with `\n` gives back the text |
| `Text.SplitJoin` | telegram.ts:65 | splitting a join of a non-empty list of newline-free lines gives back the lines (the empty list joins to `""`, which splits to `[""]`) |
| `Text.SplitHasNoNewlines` | telegram.ts:24 | no piece of a split contains a newline |
| `Text.JoinAppend` | telegram.ts:65 | joining a concatenation of two non-empty lists of lines is joining each, with one `\n` between |
| `Text.TrimSpec` | scraper.ts:43 | the trimmed text has no white space at either end, and is empty exactly when the text is all white space |
| `Text.TrimStartSpec` | scraper.ts:43 | the leading-space trim keeps the suffix starting at the first non-space character |
| `Text.TrimEndSpec` | scraper.ts:43 | the trailing-space trim keeps the prefix ending at the last non-space character |
| `Text.Utf16LengthAppend` | telegram.ts:31-37 | `length` in UTF-16 units adds up over concatenation |
| `Text.Utf16LengthBounds` | telegram.ts:31-37 | `length` lies between the number of characters and twice it, and equals it when no character is beyond U+FFFF |
| `Text.ToLowerSpec` | scraper.ts:143-146 | lower-casing keeps the length and maps each character on its own |
| `Text.ToLowerAppend` | scraper.ts:143-146 | lower-casing distributes over concatenation |
| `Text.ContainsSpec` | scraper.ts:76-78 | `includes` holds exactly when the pattern occurs at some position |
| `Products.CountAvailable` | telegram.ts:49-51 | the available count is at most the total and is positive exactly when some product is available |
| `Products.CountsPartition` | telegram.ts:48-52 | available plus sold out is the total |
| `Products.KeyCollision` | scraper.ts:179 | two records with different urls and names can share a key, because the separator may occur inside a url or a name |
| `Summary.SummaryLayout` | telegram.ts:44-65 | when no product text holds a newline, the summary splits into exactly two more lines than there are products: the mode's header, the counts line, then one entry per product in input order |
| `Summary.SummaryLinesShape` | telegram.ts:57-65 | the summary's lines are the header, the counts line and the entries, and none holds a newline |
| `Summary.SummaryLinesSingle` | telegram.ts:57-65 | no summary line holds a newline when no product text does |
| `Summary.EntryLinesShape` | telegram.ts:57-62 | one entry per product, in input order |
| `Summary.EntryLineSingle` | telegram.ts:61 | an entry holds no newline when its product's texts hold none |
| `Summary.EscapeKeepsSingleLine` | telegram.ts:58-59 | escaping a newline-free text keeps it newline-free |
| `Summary.CountsLineSingle` | telegram.ts:55 | the counts line holds no newline |
| `Summary.HeaderSingle` | telegram.ts:54 | neither header holds a newline |
| `Summary.DecimalSingle` | telegram.ts:55 | a rendered count holds no newline |
| `Summary.HeaderNeedsNoEscape` | telegram.ts:54-65 | escaping leaves "automatic update" and "requested update" unchanged |
| `Summary.NoReservedNoEscape` | telegram.ts:19-20 | a text with no reserved character is unchanged by escaping |
| `Summary.CountsLineFigures` | telegram.ts:48-55 | the counts line shows total, available and sold out, where sold out is the number of sold-out products and the two figures read back add up to the total |
| `Chunking.ChunkText` | telegram.ts:23-42 | the loop over lines with `cur`, `len` and `chunks`, weighing each line by its `length` in UTF-16 units, returns exactly the greedy packing `Chunks(text, maxLength)` |
| `Chunking.ChunksCoverLines` | telegram.ts:23-42 | the groups of lines behind the chunks, concatenated, are the lines of the text in order, and each chunk is its group joined with `\n` |
| `Chunking.ChunksStart` | telegram.ts:29-40 | there is always a chunk; only the first group can be empty, exactly when the first line's UTF-16 length plus one exceeds `maxLength`, and its chunk is then `""` |
| `Chunking.ChunkBound` | telegram.ts:29-38 | a chunk of two or more lines is at most `maxLength - 1` UTF-16 units long; single-line chunks are not bounded (see `Chunking.LongLineNotSplit`) |
| `Chunking.ChunksGreedy` | telegram.ts:31-35 | each group but the last was closed because the next line would have pushed its weight (UTF-16 units) past `maxLength` |
| `Chunking.ChunksRoundTrip` | telegram.ts:23-42 | joining the chunks with `\n` gives the text when the first line fits in UTF-16 units, and `\n` followed by the text when it does not |
| `Chunking.JoinLeadingEmpty` | telegram.ts:32-40 | a leading empty group adds one newline in front of the joined text |
| `Chunking.LongLineNotSplit` | telegram.ts:29-40 | `"aaaaa"` with limit 4 chunks into `["", "aaaaa"]`: an oversized line is kept whole, after a leading empty chunk |
| `Chunking.EmptyChunkFromEmptyLine` | telegram.ts:29-40 | `"aaa\n"` with limit 4 chunks into `["aaa", ""]`: an empty chunk can also come last, from an empty line |
| `Chunking.AstralCharCountsTwice` | telegram.ts:31 | a character beyond U+FFFF counts two units: `"\u{1F375}\na"` with limit 4 chunks into two chunks |
| `Chunking.PackFlatten` | telegram.ts:29-40 | the groups hold the open group followed by every remaining line, in order |
| `Chunking.PackFromOpenGroup` | telegram.ts:29-40 | with a non-empty open group, every group is non-empty and the first starts with the open group |
| `Chunking.PackMultiLineWeight` | telegram.ts:31-37 | no group of two or more lines weighs more than `maxLength`, each line counting its UTF-16 length plus one |
| `Chunking.PackGreedy` | telegram.ts:31-35 | each group but the last was closed by a line whose UTF-16 length overflowed it |
| `Chunking.JoinedLength` | telegram.ts:32 | a joined group's UTF-16 length is one less than the sum of its lines' UTF-16 lengths plus one each |
| `Chunking.JoinGroups` | telegram.ts:32-40 | joining the chunks of non-empty groups joins all their lines |
| `Chunking.JoinEachShape` | telegram.ts:32-40 | one chunk per group, each the group joined |
| `Deduplication.DedupByKey` | scraper.ts:176-185 | the `seen`/`unique` loop returns `Dedup(all)` |
| `Deduplication.FirstWithKey` | scraper.ts:176-185 | the first record with a key exists exactly when the key occurs; it has that key, and no earlier record has it |
| `Deduplication.DedupKeys` | scraper.ts:176-185 | the output has exactly the input's keys |
| `Deduplication.DedupDistinct` | scraper.ts:176-185 | the output's keys are pairwise distinct |
| `Deduplication.DedupKeepsFirst` | scraper.ts:176-185 | each output record is the first input record with its key |
| `Deduplication.DedupSubsequence` | scraper.ts:176-185 | the output is a subsequence of the input |
| `Deduplication.DedupOfDistinct` | scraper.ts:176-185 | a list with distinct keys is left unchanged |
| `Deduplication.DedupIdempotent` | scraper.ts:176-185 | deduplicating twice is deduplicating once |
| `Deduplication.DedupNoneAvailable` | app.ts:61-73 | deduplication never makes an available record appear |
| `Deduplication.FirstOfTwoKept` | scraper.ts:178-182 | of two records for one product, the first is kept |
| `Scraper.ExtractListing` | scraper.ts:114-126 | the `.each` over catalog items yields `ListingRecords` |
| `Scraper.ExtractProductPage` | scraper.ts:138-169 | the `.each` over forms yields `PageRecords` |
| `Scraper.ExtractForm` | scraper.ts:139-168 | one form's rows yield `FormRecords` |
| `Scraper.ScrapeCatalogPages` | scraper.ts:110-130 | the catalog loop, a failed URL contributing nothing, yields the records of each URL in list order |
| `Scraper.ScrapeProductPages` | scraper.ts:133-173 | the same for the single-product loop |
| `Scraper.ScrapePrincipalProducts` | scraper.ts:35-58 | the records of the first catalog URL, or none when it fails |
| `Scraper.ScrapeOtherProducts` | scraper.ts:60-104 | the records of the single-product URLs in order |
| `Scraper.ScrapeAllProducts` | scraper.ts:106-186 | the catalog records followed by the single-product records, deduplicated by key over the whole list, first occurrence kept |
| `Scraper.ListingRecordsShape` | scraper.ts:114-126 | one record per item, in order; sold out exactly when the item has `outofstock`; url is the href, or the catalog URL when the href is missing or empty; trimmed name and price |
| `Scraper.FormRecordsShape` | scraper.ts:138-168 | one record per row, in order, at the page URL, sold out exactly when the lower-cased stock text contains "out of stock", named from title and size, with the trimmed price |
| `Scraper.KelvinSignReadsAsK` | scraper.ts:143-151 | a stock text gets the same status with the Kelvin sign as with `K` in its place, since both lower-case to `k` |
| `Scraper.RowRecordsShape` | scraper.ts:153-168 | each row gives the record with the variant name, page URL, form status and trimmed price |
| `Scraper.FormStatusShared` | scraper.ts:143-151 | all records of one form share one status |
| `Scraper.VariantNameParts` | scraper.ts:140-163 | the name is "Unknown product" for a blank title, else the trimmed title, followed by " (size)" exactly when the trimmed size is non-empty |
| `Scraper.FlatMapAppend` | scraper.ts:133-173 | the records of a split URL list are the records of each part, in order |
| `Scraper.FailedUrlIsolated` | scraper.ts:133-173 | a failing URL contributes nothing and leaves the records of the URLs around it unchanged |
| `Scraper.PrincipalIsCatalog` | scraper.ts:35-58 | the principal scrape yields the same records as the catalog part of the full scrape |
| `Dispatch.SubscriberStore.Insert` | telegram.ts:94-96 | `create` appends an absent chat id and keeps ids unique |
| `Dispatch.SubscriberStore.Delete` | telegram.ts:127-129 | `delete` removes that chat id and keeps every other row in order |
| `Dispatch.Subscribe` | telegram.ts:79-109 | the `/subscribe` body: the store and reply are `SubscribeStep` of the old store, a failed reply turning into the error text while a `create` that ran stays |
| `Dispatch.Unsubscribe` | telegram.ts:112-142 | the `/unsubscribe` body: the store and reply are `UnsubscribeStep` of the old store, a failed reply turning into the error text while a `delete` that ran stays |
| `Dispatch.SubscribeSpec` | telegram.ts:82-101 | `/subscribe` inserts exactly when the id was absent, keeps ids unique, and leaves the chat subscribed; the success text goes out exactly for a new id whose reply was delivered, and the error text exactly when the reply failed |
| `Dispatch.UnsubscribeSpec` | telegram.ts:115-134 | `/unsubscribe` deletes exactly when the id was present, touches no other id, and leaves the chat unsubscribed; the success text goes out exactly for a present id whose reply was delivered, and the error text exactly when the reply failed |
| `Dispatch.SubscribeThenUnsubscribe` | telegram.ts:79-142 | subscribing a new chat and unsubscribing it restores the store, whichever replies were delivered |
| `Dispatch.FailedReplyKeepsChange` | telegram.ts:98-108 | when the reply inside the `try` rejects, the catch sends the error text but the store change already made stays |
| `Dispatch.KeepMembers` | telegram.ts:268-270 | after deletions, an id remains exactly when it was present and not deleted |
| `Dispatch.KeepDistinct` | telegram.ts:268-270 | deletions keep ids unique |
| `Dispatch.KeepKeep` | telegram.ts:268-270 | deleting one set of ids and then another deletes both |
| `Dispatch.KeepAbsent` | telegram.ts:268-270 | deleting ids that are absent changes nothing |
| `Dispatch.BatchesCover` | telegram.ts:251-252 | the slices `i, i + 20, …` cover the subscribers exactly once in order, there are ⌈n/20⌉ of them, each but the last holds 20 and the last holds 1 to 20 |
| `Dispatch.RoundShape` | telegram.ts:251-282 | one chunk's round sends it once to each subscriber, in order |
| `Dispatch.RoundAppend` | telegram.ts:251-282 | a round over two consecutive slices is the two rounds one after the other |
| `Dispatch.FanoutShape` | telegram.ts:249-287 | the fan-out makes #chunks × #subscribers sends, chunk by chunk, chunk `k` to subscriber `j` at position `k·n + j` |
| `Dispatch.PruneAppend` | telegram.ts:254-282 | the deletions of two runs of sends compose |
| `Dispatch.PruneRemovesBounced` | telegram.ts:262-279 | the store after the sends is the original minus exactly the ids some send bounced on with 403, 400 or 410, in original order |
| `Dispatch.SendBatch` | telegram.ts:254-282 | a batch sends the chunk to each member in turn, deleting those that bounce, whatever the others return |
| `Dispatch.BatchStep` | telegram.ts:251-252 | each step of the batch loop takes the next batch, and its sends extend the chunk's round |
| `Dispatch.SendChunk` | telegram.ts:251-286 | the batch loop takes exactly the slices `BatchesFrom(subs, 0)` and sends them one batch after another, which is one send of the chunk to every subscriber in order |
| `Dispatch.SendAll` | telegram.ts:249-287 | the chunk loop makes exactly the fan-out of the chunks over the subscribers |
| `Dispatch.NotifyAvailable` | telegram.ts:229-288 | it throws exactly when the bot exists and `findMany` fails; its sends are `Plan` (none without a bot or subscribers); the store afterwards is the snapshot minus the bounced ids |
| `Dispatch.NotifyCoversEveryone` | telegram.ts:237-287 | with subscribers, every chunk goes to every subscriber read at the start, even one deleted earlier, and only bounced ids leave the store |
| `Dispatch.NotifyEarlyReturn` | telegram.ts:230-241 | without a bot, with the store failing, or with no subscribers, nothing is sent and the store is unchanged |
| `Scheduler.Scheduler.constructor` | app.ts:26-39 | at process start nothing is running, `toggle` is false and no date has been recorded |
| `Scheduler.Scheduler.Begin` | app.ts:47-52 | a tick while running changes nothing; otherwise it sets `isRunning` and flips `toggle` |
| `Scheduler.FirstTickPrincipal` | app.ts:38-60 | from the process-start state the first tick flips `toggle` to true and scrapes the principal page first |
| `Scheduler.Scheduler.RunCycle` | app.ts:54-130 | the cycle scrapes and notifies as `CycleSpec` says, records today only after a notify that did not throw, and always clears `isRunning` |
| `Scheduler.Scheduler.Tick` | app.ts:46-131 | the whole callback is `TickSpec`, and the store changes only by that tick's bounces |
| `Scheduler.SkipWhileRunning` | app.ts:47-50 | a tick while a cycle runs changes no state and scrapes and sends nothing |
| `Scheduler.TickTransition` | app.ts:51-52 | a tick that runs flips `toggle` and ends not running; the date changes only to today, exactly after a notify that did not throw |
| `Scheduler.NotifyExactlyWhenShouldSend` | app.ts:55-114 | a cycle notifies exactly when its list is non-empty and either the last date sent differs from today or a product is available, and the list sent is the branch's list |
| `Scheduler.EmptyPrincipalStops` | app.ts:55-60 | an empty principal page ends the cycle before the other pages and without notifying |
| `Scheduler.BranchesAgree` | app.ts:61-70 | the toggle-true branch's inline dedup gives the same list as `scrapeAllProducts` |
| `Scheduler.FirstOfDaySends` | app.ts:73-85 | the first cycle of a day with a non-empty list notifies even with nothing in stock |
| `Scheduler.EarlyReturnStillRecords` | app.ts:84-85 | when `notifyAvailable` returns early for a missing bot or no subscribers, nothing is sent and today is still recorded |
| `Scheduler.QuietTick` | app.ts:76-94 | after today's notification, a tick with nothing in stock sends nothing and keeps the date |
| `Scheduler.QuietDay` | app.ts:76-94 | after today's notification, any number of ticks with nothing in stock send nothing and keep the date |

## Left out

- The axios requests, cheerio selectors and HTTP timeout (scraper.ts:28-33, 39-40, 64-65). Page contents are inputs, and a failed fetch or parse is `None`.
- `getTokyoDateString` (app.ts:28-36). It depends on the clock and time-zone conversion, so the date is a parameter.
- `cron.schedule`, the Express endpoints, `app.listen` and the `process.on` handlers (app.ts:14-23, 44, 132-156). They are scheduling, HTTP and process plumbing.
- Concurrency.
  - The sends of a batch run under `Promise.all`; here they are sequential. Each send touches only its own subscriber, so the outcome does not depend on the order.
  - The `sleep` delays are left out.
  - Ticks interleave only at the cycle boundary: `Begin` and `RunCycle` are separate methods, so a tick during a cycle is a `Begin` on a running scheduler.
  - A `/subscribe` that runs during `notifyAvailable` is not modelled.
- `initBot`, `/start`, `/help`, `/matcha` and `sendChunkedMessage` (telegram.ts:69-76, 145-226). These are I/O wrappers. `/matcha` calls a `scrapeProducts` that scraper.ts does not export. `sendChunkedMessage` repeats `chunkText`'s loop.
- Prisma failures.
  - Any Prisma failure inside a handler is the `storeUp = false` path, answered by the error reply. A rejected reply inside the `try` is `replyOk = false`: the catch sends the error text and a store change already made stays.
  - The handlers' replies from the catch itself can reject too; that rejection escapes the handler and changes nothing the model tracks.
  - A failing `findMany` is the only failure that escapes `notifyAvailable`.
  - A failing delete after a bounce is caught and logged, and the row stays. The model's `Delete` always succeeds, and a second delete of the same id is a no-op: Prisma throws there, the catch logs it, and the effect is the same.
- The outer `catch` of the cron callback (app.ts:126-127). Nothing in the model throws past the inner catches, so the path is unreachable; the `finally` that clears `isRunning` is modelled.
- `Text.ToLower`: only A–Z and U+212A KELVIN SIGN (to `k`) are lower-cased; `toLowerCase` maps all of Unicode. Every other character it changes either maps to a character outside "out of stock" or, for U+0130, to `i` plus a combining dot, and the phrase has no `i`; so the result of the `includes` test is the same, but `ToLower` itself is not the full function.
- The order of `findMany` rows. The store keeps ids in insertion order, and a different order would only reorder the sends.
- Timestamps (`createdAt`) and the `id` column of the subscriber table.
- The three-character "â€¢" separator is copied as it appears in the source.
- `chunkText` does not split a line longer than `maxLength`; such a line becomes a chunk of its own, as the code does.
- `notifyAvailable` reads the subscribers once, so a subscriber deleted for a bounce still receives the later chunks, as the code does.
- An empty chunk string can come from an empty line as well as from an oversized first line (`Chunking.EmptyChunkFromEmptyLine`). Only an empty *group* is confined to the first position (`Chunking.ChunksStart`).
- `escapeMdV2` leaves `\` unescaped. Round-tripping through Telegram's reading is stated for backslash-free text (`Markdown.ReadEscape`), and `Markdown.BackslashDefeatsEscape` exhibits the failure.
