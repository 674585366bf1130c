# Gas-industry news bot for Bale: a Dafny model of its core

The bot collects Iranian gas-industry news once a day and sends it to the
subscribers of a Bale chat bot. Its core decides which items go out and
what is remembered. The model covers four parts of that core.

- **Collection** (`news_scraper.py`). Each of the two agencies, Mehr and
  ISNA, is searched for the first three keywords, and at most five
  articles are read from each result page. An article becomes an item
  only when it has an anchor with an `href`. Its title must also contain
  one of five fixed words once lower-cased. The item's link is the
  agency's site followed by the `href`. The Mehr items come first, then
  the ISNA items, and repeated links are removed so that the first
  occurrence of each link is kept.
- **Novelty filter and archive** (`news_bot.py`, inside `main`).
  - An item is new when its link is not among the links of the archive of
    items already sent.
  - If anything is new, the new items are appended to the archive. The
    archive is then cut to its 1000 newest entries and saved.
- **Subscriber registration** (`bot_handler.py`). A message whose text,
  stripped and lower-cased, is `/start` adds its chat id to the subscriber
  list when the id is absent, saves the list, and answers with a welcome.
- **Weekday name** (`bot_handler.py`). The greeting names the weekday in
  Persian; a day text that is not one of the seven English weekday names
  is returned unchanged.

The model has five modules.

- `Wrappers` holds `Option`, used by the other modules for absent
  attributes, absent message text and failed requests.
- `Text` models Python's `str.strip()` and `str.lower()` and the substring
  test `w in t`.
- `Scraper` models `news_scraper.py`.
  - The network request and the HTML parser are an input function,
    `fetch`. It maps a search URL to a `Response`: `Failed` when the request
    raised, otherwise the status and the parsed article blocks.
  - Each article block is an optional anchor with its text, an optional
    `title` attribute and an optional `href`.
  - The loops and routines of the source are methods (`ExtractPage`,
    `SearchKeywords`, `Dedup`, `GetAllNews`, and `ProcessUpdates` in
    `BotHandler`). Each is proved equal to a specification function, and
    the source's promises are proved about those functions.
- `NewsBot` models the novelty filter, the archive update and `main`.
- `BotHandler` models the update loop of the handler and the weekday
  table.

An item's identity is its link everywhere, as in the code.

## Model

| member | source | states |
|---|---|---|
| Text.TrimStart | bot_handler.py:77 | the result is a suffix of the input, everything removed is whitespace (Python's `isspace` set), and the result does not start with whitespace |
| Text.TrimEnd | bot_handler.py:77 | the result is a prefix of the input, everything removed is whitespace, and the result does not end with whitespace |
| Text.Strip | bot_handler.py:77 | the stripped text neither starts nor ends with whitespace |
| Text.StripPadding | bot_handler.py:77 | stripping a text padded with whitespace on both sides gives back exactly the text, when the text itself has no whitespace at either end |
| Text.TrimStartPadding | bot_handler.py:77 | removing leading whitespace gives back exactly the text after the padding |
| Text.TrimEndPadding | bot_handler.py:77 | removing trailing whitespace gives back exactly the text before the padding |
| Text.Lower | news_scraper.py:95 | lower-casing keeps the length and maps every character through the ASCII lower-case mapping `Text.LowerChar` |
| Text.LowerWithoutCapitals | news_scraper.py:95 | a text without ASCII capitals, such as every Persian word used, is unchanged by lower-casing |
| Text.IsSpace | bot_handler.py:77 | the whitespace `strip()` removes: Python's `isspace` set; its use is stated by `Text.TrimStart`, `Text.TrimEnd` and `Text.StripPadding` |
| Text.Contains | news_scraper.py:97 | the substring test `w in t`, built on the prefix test `Text.StartsWith`; its meaning is stated by `Text.ContainsOccurs` |
| Text.StartsWithPrefix | news_scraper.py:97 | the character-by-character prefix test holds exactly when `t` begins with `w`, as a slice comparison |
| Text.ContainsOccurs | news_scraper.py:97 | `w in t` holds exactly when `w` occurs in `t` at some position |
| Scraper.IsRelevant | news_scraper.py:93-97 | `_is_relevant`; its meaning is stated by `Scraper.IsRelevantOccurs`, `Scraper.EmptyTitleIrrelevant` and `Scraper.GasHeadlineRelevant` |
| Scraper.IsRelevantOccurs | news_scraper.py:93-97 | a title is relevant exactly when one of the five fixed words occurs in its lower-cased form; the search keywords play no part |
| Scraper.AnyContained | news_scraper.py:97 | `any(word in text_lower for word in relevant_words)`; its meaning is stated by `Scraper.AnyContainedOccurs` |
| Scraper.AnyContainedOccurs | news_scraper.py:97 | `any(word in text for word in words)` holds exactly when some word of the list occurs in the text |
| Scraper.EmptyTitleIrrelevant | news_scraper.py:76 | the empty title, which an ISNA anchor without a `title` attribute yields, is not relevant |
| Scraper.GasHeadlineRelevant | news_scraper.py:93-97 | a headline mentioning gas is relevant |
| Scraper.BaseUrl | news_scraper.py:43-77 | the site prefixed to an `href` (lines 43 and 77); the link form is stated by `Scraper.ExtractedItemsSound` and `Scraper.SearchItemsWellFormed` |
| Scraper.SourceName | news_scraper.py:50-83 | the agency name recorded as `source` (lines 50 and 83); stated by `Scraper.SearchItemsWellFormed` |
| Scraper.SearchUrl | news_scraper.py:31-65 | the search URL of a keyword (lines 31 and 65); which page each keyword reads is stated by `Scraper.Pages` and `Scraper.SearchKeyword` |
| Scraper.TitleOf | news_scraper.py:40-76 | the Mehr title is the anchor text (line 42), the ISNA title the `title` attribute or `''` (line 76); used by `Scraper.SkippedArticles` and `Scraper.ExtractedItemsSound` |
| Scraper.ExtractArticle | news_scraper.py:39-54 | one iteration of the article loop; its cases are stated by `Scraper.SkippedArticles` and `Scraper.ExtractedItemsSound` |
| Scraper.ExtractAll | news_scraper.py:38-54 | the article loop yields at most one item per article; its order and contents are stated by `Scraper.ExtractAllSnoc`, `Scraper.ExtractAllAppend` and `Scraper.ExtractedItemsSound` |
| Scraper.SkippedArticles | news_scraper.py:39-54 | a block without an anchor, an anchor without `href`, and an ISNA anchor without `title` produce no item |
| Scraper.ExtractAllSnoc | news_scraper.py:38-54 | one more article adds the item it produces, if any, at the end |
| Scraper.ExtractAllAppend | news_scraper.py:38-54 | the article loop over two lists of articles is the concatenation of the loops over each |
| Scraper.SkippedArticleIsolated | news_scraper.py:53-54 | an article that is skipped (including one whose link raises) changes nothing about the items of the articles around it |
| Scraper.ExtractedItemsSound | news_scraper.py:40-52 | every extracted item has a relevant title and is built from one article, with the agency's site followed by the article's `href` as its link |
| Scraper.ExtractPage | news_scraper.py:38-54 | the article loop appends exactly the items of the specification `ExtractAll`, in article order |
| Scraper.Take | news_scraper.py:36 | `find_all(limit=5)` yields a prefix of the blocks: all of them when there are at most five, otherwise exactly the first five |
| Scraper.PageItems | news_scraper.py:34-87 | the status test, `find_all(limit=5)` and the article loop of one answered page (lines 34-54 and 68-87); stated by `Scraper.PageResult` and `Scraper.ReadPage` |
| Scraper.ReadPage | news_scraper.py:34-54 | an answered page yields nothing unless its status is 200, and otherwise the items of its first five articles |
| Scraper.PageResult | news_scraper.py:32-36 | a keyword's page is absent exactly when the request raised, has at most five items, and is empty when the status is not 200 |
| Scraper.Pages | news_scraper.py:30-32 | one page result per searched keyword, in keyword order, each from that keyword's search URL |
| Scraper.SearchKeyword | news_scraper.py:31-54 | one iteration of the keyword loop yields exactly the page result of that keyword's search URL |
| Scraper.SearchKeywords | news_scraper.py:28-58 | the keyword loop returns exactly the pages' items in order, up to the first request that raised |
| Scraper.SearchNews | news_scraper.py:26-91 | a search routine returns the specification `Search`, over the first three keywords |
| Scraper.Collect | news_scraper.py:28-58 | the keyword loop and its outer `try` (the same at lines 62-91); stated by `Scraper.CollectStep`, `Scraper.CollectStopsAtNone`, `Scraper.CollectSkipsEmpty`, `Scraper.CollectItems` and `Scraper.CollectBounded` |
| Scraper.SearchFrom | news_scraper.py:28-58 | a search over a list of keywords (the same at lines 62-91); stated by `Scraper.SearchStopsAtFailure`, `Scraper.SearchSkipsBadStatus` and `Scraper.SearchFromItems` |
| Scraper.Search | news_scraper.py:26-91 | a search routine over the first three keywords; stated by `Scraper.SearchBounded` and `Scraper.SearchItemsWellFormed` |
| Scraper.CollectStep | news_scraper.py:30-54 | one step of the keyword loop either ends the search or adds the page's items before the rest |
| Scraper.CollectBounded | news_scraper.py:30-36 | with at most `n` items per page, the loop collects at most `n` per keyword |
| Scraper.CollectItems | news_scraper.py:30-54 | every collected item lies on one of the pages |
| Scraper.CollectAppend | news_scraper.py:30-54 | pages whose requests did not raise contribute independently of the pages after them |
| Scraper.CollectStopsAtNone | news_scraper.py:29-56 | a request that raised ends the loop, so later pages contribute nothing |
| Scraper.CollectSkipsEmpty | news_scraper.py:34 | an empty page can be dropped without changing the result |
| Scraper.SearchBounded | news_scraper.py:30-36 | each search routine returns at most 3 x 5 items |
| Scraper.SearchStopsAtFailure | news_scraper.py:29-56 | when the request for keyword `k` raises, the search returns only what keywords before `k` yielded |
| Scraper.SearchSkipsBadStatus | news_scraper.py:34 | a keyword whose page has a status other than 200 contributes nothing and does not stop the search |
| Scraper.SearchFromItems | news_scraper.py:30-52 | every item a search returns comes from one of the first five articles of a status-200 page of one of the searched keywords |
| Scraper.SearchItemsWellFormed | news_scraper.py:43-50 | every item a search returns has a relevant title, names its agency as source, and links to the agency's site followed by an `href` |
| Scraper.DedupByLink | news_scraper.py:115-120 | the first-occurrence filter by link; stated by `Scraper.DedupProperties`, `Scraper.DedupSubsequence`, `Scraper.DedupOnlyFirstOccurrences`, `Scraper.DedupKeepsFirstOccurrences`, `Scraper.DedupOfDistinct` and `Scraper.DedupIdempotent` |
| Scraper.AllNews | news_scraper.py:99-123 | the Mehr items, then the ISNA items, de-duplicated; stated by `Scraper.GetAllNews` |
| Scraper.Dedup | news_scraper.py:115-120 | the seen-set loop returns exactly the specification `DedupByLink` of the input |
| Scraper.GetAllNews | news_scraper.py:99-123 | the result is the Mehr items then the ISNA items with repeated links removed; it has no repeated link, at most 30 items, and only relevant titles |
| Scraper.DedupProperties | news_scraper.py:115-120 | the result has no two items with the same link, and exactly the links of the input |
| Scraper.DedupSubsequence | news_scraper.py:115-120 | the result is the input with items removed, in input order |
| Scraper.SubsequenceLength | news_scraper.py:115-120 | an order-preserving selection is no longer than what it selects from |
| Scraper.SubsequenceMembers | news_scraper.py:115-120 | an order-preserving selection contains only items of what it selects from |
| Scraper.DedupOnlyFirstOccurrences | news_scraper.py:117-120 | every item kept stands at the first occurrence of its link in the input |
| Scraper.DedupKeepsFirstOccurrences | news_scraper.py:117-120 | every item standing at the first occurrence of its link is kept |
| Scraper.FirstOccurrenceInPrefix | news_scraper.py:117-118 | whether an index holds the first occurrence of its link does not depend on later items |
| Scraper.LinksAppend | news_scraper.py:119 | adding an item adds exactly its link to the set of links |
| Scraper.DedupOfDistinct | news_scraper.py:115-120 | a list without repeated links is returned unchanged |
| Scraper.DedupIdempotent | news_scraper.py:115-120 | de-duplicating twice gives the same as de-duplicating once |
| NewsBot.Unsent | news_bot.py:106 | the new items are no more than the collected items |
| NewsBot.UnsentMembers | news_bot.py:104-106 | an item is new exactly when it was collected and its link is not among the archived links |
| NewsBot.UnsentSubsequence | news_bot.py:106 | the new items keep the collection order |
| NewsBot.UnsentDistinct | news_bot.py:106 | filtering a list without repeated links leaves it without |
| NewsBot.UnsentNone | news_bot.py:105-106 | nothing is new when every collected link is archived |
| NewsBot.Retain | news_bot.py:132-133 | the archive keeps its newest entries: all of them up to 1000, otherwise exactly the last 1000 |
| NewsBot.Committed | news_bot.py:129-134 | the archive after a run; stated by `NewsBot.UpdateArchive`, `NewsBot.CommittedContents` and `NewsBot.CommittedKeepsNew` |
| NewsBot.UpdateArchive | news_bot.py:129-134 | the archive is saved exactly when something is new; otherwise it is unchanged; when saved it holds at most 1000 entries |
| NewsBot.CommittedContents | news_bot.py:130-133 | the updated archive is the old archive followed by the new items when they fit in 1000, and otherwise the last 1000 of them, so the oldest entries are dropped first |
| NewsBot.CommittedKeepsNew | news_bot.py:130-133 | when at most 1000 items are new, every new link is in the updated archive |
| NewsBot.RerunDeliversOnlyEvicted | news_bot.py:104-134 | a second run on the same collected items can only deliver items whose link was dropped from the archive |
| NewsBot.RerunDeliversNothing | news_bot.py:104-134 | when nothing is dropped, a second run on the same collected items delivers nothing |
| NewsBot.DailyRun | news_bot.py:90-134 | with no subscribers the run stops before collecting; otherwise the new items are the unsent collected items, without repeated links, at most 30, all relevant and none archived, and the archive is updated as `UpdateArchive` states |
| NewsBot.SecondRunDeliversNothing | news_bot.py:100-134 | with at most 970 archived entries, running the whole collection twice delivers nothing the second time |
| BotHandler.IsStartCommand | bot_handler.py:77-82 | the text, stripped and lower-cased, is `/start`; stated by `BotHandler.StartCommandPadded` |
| BotHandler.StartChat | bot_handler.py:75-82 | the chat of a `/start` update, nothing for other updates; stated by `BotHandler.PaddedUpperCaseStartRegisters` and `BotHandler.UpdatesWithoutTextIgnored` |
| BotHandler.Register | bot_handler.py:84-85 | appends the chat only when absent; stated by `BotHandler.RegisterAllAppends` and `BotHandler.RegisteredChatsUnchanged` |
| BotHandler.RegisterAll | bot_handler.py:74-85 | the subscriber list after the updates; stated by `BotHandler.RegisterAllAppends`, `BotHandler.RegisterAllDistinct`, `BotHandler.RegisteredChatsUnchanged` and `BotHandler.RegisterAllIdempotent` |
| BotHandler.StartChats | bot_handler.py:75-107 | at most one welcome per update |
| BotHandler.ProcessUpdates | bot_handler.py:74-107 | the update loop yields the registration of every `/start` chat, one welcome per `/start` update, and one save per chat added |
| BotHandler.RegisterAllAppends | bot_handler.py:84-85 | registration only appends: the old list is a prefix, at most one chat is added per update, and the chats are the old ones plus those that sent `/start` |
| BotHandler.StartRegisters | bot_handler.py:82-107 | after a `/start` update from a chat, that chat is welcomed and is in the subscriber list, whether or not it was registered before |
| BotHandler.RegisterAllDistinct | bot_handler.py:84-85 | a subscriber list without duplicates stays without |
| BotHandler.RegisteredChatsUnchanged | bot_handler.py:84-86 | `/start` from chats already registered leaves the list unchanged, so nothing is saved |
| BotHandler.RegisterAllIdempotent | bot_handler.py:84-85 | processing the same updates again changes nothing |
| BotHandler.StartCommandPadded | bot_handler.py:77-82 | `/start` in any ASCII case and padded with whitespace is recognised |
| BotHandler.PaddedUpperCaseStartRegisters | bot_handler.py:75-82 | `' /START '` registers its chat |
| BotHandler.UpdatesWithoutTextIgnored | bot_handler.py:75 | updates without a message, without text or with empty text are ignored |
| BotHandler.DayNameFa | bot_handler.py:41-53 | each English weekday name is replaced by its own Persian name from the table, and any other text is returned unchanged (the result equals the input exactly when it is not a weekday name) |
| BotHandler.DayNamesDistinct | bot_handler.py:41-49 | different weekdays get different Persian names |

## Left out

- HTTP requests, the HTML parser, and the Bale client (`get_updates`, `send_message`) are foreign calls. The response to each search URL is an input function. The parsed blocks and the updates are inputs. Every send is taken to succeed.
- The Mehr title is `get_text(strip=True)` of the anchor. The model takes that text as given in the anchor.
- An exception the parser could raise inside the article loop is not modelled. Only the missing `href`, which makes the link concatenation raise, is.
- The `date` field of an item, `get_date_header`, `get_greeting_message` and the timestamps read the wall clock, so they are left out. The date is therefore not part of `NewsItem`.
- `format_news_message`, the welcome text and the console output are presentation, so they are left out. `main` sends the message even when nothing is new; the model does not represent the messages sent.
- `load_users`, `save_users`, `load_sent_news` and `save_sent_news` are JSON file I/O. A missing or unreadable file yields an empty list. The model works on the loaded lists, and a save is a flag or a count.
- The token lookup and the top-level `try`/`except` with its traceback are environment and logging plumbing.
- `config.py` and `self.sources` are static data that the core does not use.
- Text.Lower: lower-casing is ASCII-only. Python's full Unicode case mapping is not modelled. It is the identity on the Persian words that matter.
- BotHandler.Message: the chat id is taken as the string `str(chat.id)`. The integer id is not modelled.
- UpdateArchive: `sent_news.extend` mutates the loaded list in place. The model returns the new archive as a value, which is all the code observes before the save.
- Identity is the link string throughout, as the code does. No hash-based identifier exists in the code, and the archive is the list of sent items, not a map.
- RerunDeliversNothing: "a rerun delivers nothing" holds only when no entry is evicted. With eviction, RerunDeliversOnlyEvicted states what a rerun can deliver.
- SearchStopsAtFailure, SearchSkipsBadStatus: stated over the list of page results that `Pages` computes, not over the keywords alone.
