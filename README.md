# Tech & Science blog: a Dafny model of its decision logic

The project is a technology-and-science blog. It has two halves:

- A FastAPI backend. It stores posts with their tags, generates posts with an AI model, and accepts image uploads.
- A browser front end. It consists of:
  - the public pages' script;
  - a floating chat widget and a full-page chat;
  - the comment section;
  - the admin panel;
  - a caching service worker.

This model covers the parts of that code that decide something. Those parts are small stores, state machines, input checks, and the backend's post-table operations.

Stateful parts are Dafny classes. Their methods update fields, and each method states the new state in its contract:

- the service worker's cache partitions;
- the bookmark map;
- the notification switches;
- the chat logs;
- the comment paging;
- the post table.

Pure rules are functions. The lemmas beside them state what the code promises.

The model takes the following as plain inputs:

- times (integers in milliseconds);
- network outcomes;
- the browser's answer to a permission prompt;
- `json.loads` (a function value);
- the uuid text.

Shared pieces:

- `Wrappers` and `Strings` hold the Option/Result types and string helpers. The helpers cover the JavaScript and Python trim sets, ASCII lower-casing, substring search, split and join.
- `Notifications` holds the switch that three pages copy.
- `Theme` holds the light/dark switch.
- `Chat` holds what both chats share.

## Model

| member | source | states |
|---|---|---|
| ServiceWorker.NetworkFirstUnreachable | static/sw.js:59-67 | '/' is a static asset and matching is a substring test on the href, so every request that is not passed through is served cache-first. No request reaches the network-first branch. |
| ServiceWorker.MatchIn | static/sw.js:68-71 | `caches.match` finds a response iff some partition holds the key. It returns the entry of the first such partition in creation order. |
| ServiceWorker.IsPassthrough | static/sw.js:58-63 | Defines the four bypass conditions: another origin, a path starting '/api/', a path containing '/admin/', or 'nocache' in the query string. |
| ServiceWorker.IsStaticAsset | static/sw.js:66 | Defines the cache-first test: some manifest entry occurs as a substring of the href. |
| ServiceWorker.Classify | static/sw.js:57-98 | The routing rule: passthrough iff a bypass condition holds. Otherwise cache-first iff the href contains a manifest entry, else network-first. The bypass test takes precedence. |
| ServiceWorker.AddAllAccepts | static/sw.js:25 | Defines what `cache.addAll` accepts: a 2xx status other than 206. |
| ServiceWorker.PutAccepts | static/sw.js:73 | Defines what `cache.put` accepts: a GET request and a status other than 206. |
| ServiceWorker.OpenedNames | static/sw.js:22 | After `caches.open` the old creation order is a prefix of the new one. A name is added (last) iff it was missing. |
| ServiceWorker.PutInto | static/sw.js:70-73 | After open-and-put exactly one partition is added or written. An accepted put stores the response under the href, and every other entry of that partition is an old one. A refused put leaves it as it was, or empty when new. |
| ServiceWorker.PutThenMatch | static/sw.js:68-90 | After a fetch handler's put, `caches.match` gives every other URL the answer it gave before. A URL that no partition held, stored by an accepted put, is now matched with that response. |
| ServiceWorker.CacheStorage.Open | static/sw.js:23-24 | Opening a missing partition creates it empty at the end of the creation order. Opening an existing one changes nothing. |
| ServiceWorker.CacheStorage.Match | static/sw.js:68 | An answer needs a GET request and is an entry some partition holds under the href. A GET whose href some partition holds always gets one. |
| ServiceWorker.CacheStorage.Put | static/sw.js:72-75 | A GET request with a non-206 response is stored under its href in that partition. Otherwise nothing changes. |
| ServiceWorker.CacheStorage.Delete | static/sw.js:44 | The named partition is gone. All others keep their order and contents. |
| ServiceWorker.CacheStorage.OpenAndPut | static/sw.js:70-73 | `caches.open(name)` then `cache.put`: the new creation order is `OpenedNames` and the partitions are `PutInto` of the old ones. |
| ServiceWorker.CacheStorage.Install | static/sw.js:20-33 | The static partition exists afterwards, appended to the creation order only if it was new. No other partition appears, disappears or changes. If every manifest URL fetched with an accepted status, all of them are stored; otherwise the partition is unchanged and install still completes. |
| ServiceWorker.CacheStorage.AddAllAssets | static/sw.js:25 | `addAll` is all or nothing: it stores iff every manifest URL was fetched with an accepted status. Then the static partition gains exactly those responses; otherwise nothing changes. The creation order never changes. |
| ServiceWorker.AllFetched | static/sw.js:25 | Defines the condition under which `addAll` succeeds: every manifest URL was fetched with a 2xx, non-206 status. |
| ServiceWorker.AssetsCovered | static/sw.js:25 | When `addAll` succeeds, its stored responses cover every manifest URL. |
| ServiceWorker.CacheStorage.Activate | static/sw.js:36-51 | Exactly the partitions named neither static nor dynamic are deleted, including the never-opened `CACHE_NAME`. The two kept partitions keep their contents and order. |
| ServiceWorker.CacheStorage.PruneAt | static/sw.js:41-46 | One loop step deletes the name iff it is neither kept name, and keeps the invariant "kept prefix, then unvisited suffix". |
| ServiceWorker.CacheStorage.HandleFetch | static/sw.js:54-98 | The handler does not intercept iff the request is a passthrough, and then nothing changes. On a cache-first hit it returns the cached response and nothing is fetched or written. On a miss it returns the network response. The static partition exists afterwards and holds that response whatever its status; a put the Cache API refuses leaves that partition's entries as they were. A rejected fetch is a network error. Network-first keeps only a 200, in the dynamic partition (same rules); on rejection it falls back to the cache or undefined. On both put branches the new state is exactly `OpenedNames`/`PutInto` of the old one, so no other partition or entry changes. |
| ServiceWorker.ClickTarget | static/sw.js:134-140 | A click always opens a non-empty URL. The carried URL is kept iff it is non-empty; with none, '/' is opened. |
| ServiceWorker.ClickOpensPushedUrl | static/sw.js:116-140 | Clicking a pushed notification opens the pushed `url`, or '/' when it is absent or empty; the opened URL would be opened again if pushed. |
| Theme.Toggled | static/js/admin.js:29-34 | Toggling gives 'dark' iff the theme was 'light'. Any other value gives 'light'. |
| Theme.ButtonIcon | static/js/admin.js:42-52 | The icon is the sun iff the theme is 'dark'. |
| Theme.InitialTheme | static/js/chatbot-fullpage.js:366-389 | A saved non-empty theme wins. Otherwise the theme is 'dark' iff the system prefers dark. |
| Theme.OnSystemChange | static/js/app.js:1858-1869 | With a saved theme the page ignores the system. Without one it follows the system. |
| Theme.ToggleTwice | static/js/chatbot-fullpage.js:339-344 | Two toggles restore the theme iff it was 'light' or 'dark'. |
| Theme.ToggleFlipsIcon | static/js/admin.js:29-52 | Every toggle changes the icon iff the theme was 'light' or 'dark'. |
| Theme.PageTheme.constructor | static/js/admin.js:5-20 | Start-up picks the initial theme and draws the matching icon. |
| Theme.PageTheme.Toggle | static/js/chatbot-fullpage.js:339-364 | The theme is toggled, saved under 'theme' and the icon redrawn. |
| Notifications.ToggleSwitch | static/js/app.js:116-152 | Denied: nothing changes and nothing is saved. Granted: `enabled` flips. Default: the browser is asked and `enabled` becomes answer == granted. The saved flag always equals the new `enabled`. |
| Notifications.GlyphOf | static/js/app.js:154-185 | The slashed bell shows iff permission is denied. Otherwise the plain bell shows. |
| Notifications.ToggleKeepsCoherent | static/js/admin.js:70-99 | From a non-denied state a toggle never enables without permission. A granted or denied permission is never changed by a toggle. |
| Notifications.ToggleTwiceGranted | static/js/app.js:133-152 | With permission granted, two toggles restore the switch. |
| Notifications.ToggleTurnsOn | static/js/app.js:116-152 | After a toggle, notifications are on iff a prompt was granted or they were granted and off. |
| Notifications.Gate.constructor | static/js/app.js:97-100 | The switch starts from the saved 'notificationsEnabled' flag and the browser's permission. The button is drawn with `active` iff notifications are on (also admin.js:64-67). |
| Notifications.PersistentGate.constructor | static/js/chatbot-fullpage.js:264-267 | The switch starts from the saved flag and the permission, and the first redraw leaves the button consistent with it. |
| Notifications.Gate.Click | static/js/admin.js:70-128 | The state follows `ToggleSwitch` and the storage entry follows the new flag (unchanged when denied). The button's `active` class holds iff notifications are on. |
| Notifications.PersistentGate.Redraw | static/js/chatbot-fullpage.js:302-336 | `active` is added when on and removed only in the final branch. A denied permission leaves the class as it was. |
| Notifications.PersistentGate.Click | static/js/chatbot-fullpage.js:271-300 | The state follows `ToggleSwitch` and the storage entry follows the new flag (unchanged when denied). `active` still holds iff notifications are on. |
| Chat.LookupFrom | static/js/chatbot.js:421-423 | Finds the first table entry whose key equals the message, or reports that none does. |
| Chat.Normalise | static/js/chatbot.js:418 | Defines the matched form of a message: lower-cased, then trimmed (also chatbot-fullpage.js:93). |
| Chat.PartialFrom | static/js/chatbot.js:425-430 | Finds the first non-'default' key contained in the message, with no earlier entry matching; or reports that none matches. |
| Chat.Fallback | static/js/chatbot.js:417-433 | The corrected lookup, over the table's own keys (see Findings). There is no canned answer iff no key equals the lower-cased, trimmed message and no non-default key occurs in it. |
| Chat.FallbackAsWritten | static/js/chatbot.js:417-433 | The lookup as written finds an inherited `Object.prototype` member iff the normalised message is "constructor" or "__proto__". Otherwise it answers exactly as `Fallback`. |
| Chat.TurnAsWritten | static/js/chatbot.js:368-415 | As written, a failed call whose fallback is an inherited member leaves only the user's message. Every other send appends exactly `Turn`. |
| Chat.ConstructorLosesReply | static/js/chatbot.js:391-397 | With the endpoint unreachable, "constructor" gets no reply as written. Answering from own keys gives it the error text. |
| Chat.FallbackKeysDistinct | static/js/chatbot.js:9-19 | The table's keys are distinct, so the exact lookup is unambiguous. |
| Chat.ExactMatchWins | static/js/chatbot-fullpage.js:92-98 | A message equal to a key, 'default' included, gets that key's answer before any partial match. |
| Chat.PartialMatchFirst | static/js/chatbot.js:425-433 | Without an exact match the answer is that of the first matching key in table order. So 'hi' wins for any message containing it. |
| Chat.GetFallbackResponse | static/js/chatbot.js:417-433 | The early-return loop computes `Fallback`. |
| Chat.ErrorText | static/js/chatbot.js:400-413 | The text is one of five. It is the generic one iff the error mentions none of 401, 429, 500, NetworkError or Failed to fetch. |
| Chat.ErrorTextByRules | static/js/chatbot-fullpage.js:76-88 | The if-chain equals the first applicable rule of the ordered table 401, 429, 500, network, then generic. |
| Chat.CallAI | static/js/chatbot.js:436-471 | The call succeeds iff it receives a 2xx JSON reply with success and non-empty data; the answer is that data trimmed. A network failure gives its own message; a bad status gives "status N: body". |
| Chat.BotReplies | static/js/chatbot.js:383-413 | A success gives one reply, the answer. A failure with a fallback gives the canned answer then the note. A failure without one gives one error text. |
| Chat.Respond | static/js/chatbot.js:380-414 | The try/catch of `sendMessage` produces `BotReplies` of the call's outcome. |
| Chat.Turn | static/js/chatbot.js:368-415 | With fallbacks from the table's own keys: a blank input adds nothing. Otherwise the trimmed user message comes first, then 1-2 bot messages, all stamped with the same time. |
| Chat.BotMessages | static/js/chatbot.js:473-498 | One bot message per text, in order. |
| Chat.FallbackNoteMarksFallback | static/js/chatbot.js:391-397 | A turn has three messages iff the call failed and a fallback exists. Then the canned answer is followed by the note. |
| Chat.Recent | static/js/chatbot.js:533 | Keeps the last min(n, length) messages in order, as `slice(-n)` does for the positive n both callers pass (10 and 20). |
| Chatbot.AIChatbot.constructor | static/js/chatbot.js:527-565 | A stored list is adopted whole and only its last 10 are drawn. A missing or corrupt entry gives an empty log. The widget starts closed. |
| Chatbot.AIChatbot.ToggleChat | static/js/chatbot.js:100-117 | Opens a closed widget and closes an open one. The logs are untouched. |
| Chatbot.AIChatbot.CloseChat | static/js/chatbot.js:359-366 | The widget is closed afterwards, whatever it was. |
| Chatbot.AIChatbot.AddMessage | static/js/chatbot.js:473-500 | The message is appended to the log and the screen, and the log is written through to 'ai_chatbot_messages'. |
| Chatbot.AIChatbot.AddReplies | static/js/chatbot.js:391-397 | The replies are appended in order. |
| Chatbot.AIChatbot.SendMessage | static/js/chatbot.js:368-415 | The log and the screen grow by exactly `Turn`, with canned answers from the table's own keys (see Findings). Storage still equals the log. |
| FullPageChat.SendAsWritten | static/js/chatbot-fullpage.js:45-90 | As written, a blank input returns quietly. Any other input throws on the missing `this.addMessage` before anything is added. |
| FullPageChat.SendAsWrittenLosesMessages | static/js/chatbot-fullpage.js:52 | 'hi' adds nothing as written, where the intended handler adds at least two messages. |
| FullPageChat.FullPageChatbot.constructor | static/js/chatbot-fullpage.js:202-240 | The stored list is adopted whole and only its last 20 are drawn. |
| FullPageChat.FullPageChatbot.AddFullscreenMessage | static/js/chatbot-fullpage.js:148-175 | The message is appended and the log written through to 'ai_chatbot_fullpage_messages'. |
| FullPageChat.FullPageChatbot.SendMessageAsWritten | static/js/chatbot-fullpage.js:45-90 | The handler as written returns `SendAsWritten` and changes no field. |
| FullPageChat.FullPageChatbot.AddReplies | static/js/chatbot-fullpage.js:67-71 | The replies are appended in order. |
| FullPageChat.FullPageChatbot.SendMessage | static/js/chatbot-fullpage.js:45-90 | The corrected handler grows the log by exactly the widget's `Turn`, with canned answers from the table's own keys. |
| Comments.ValidateComment | static/js/comments.js:171-192 | The form is refused iff a trimmed name, e-mail or comment is empty, or the comment is under 10 characters. Otherwise the body holds the trimmed fields, and the website is null iff it is blank. |
| Comments.ValidateIdempotent | static/js/comments.js:175-192 | Resubmitting an accepted body as typed is accepted with the same body. |
| Comments.CharCountColour | static/js/comments.js:235-252 | Red iff the length is over 1800. Yellow iff it is in 1501..1800. |
| Comments.CharCountMonotone | static/js/comments.js:240-250 | A longer text never gets a less severe colour. |
| Comments.CommentAge | static/js/comments.js:284-307 | "Just now" iff under 60 s. Then floor minutes, hours and days, each within its bounds. A calendar date iff 604800 s or more. |
| Comments.Unit | static/js/comments.js:295-303 | The text starts with the count and the unit and ends in " ago". For a unit not ending in 's' it ends in "s ago" iff the count is over one. |
| Comments.AgeText | static/js/comments.js:284-307 | A relative text is shown iff the age is not past a week; every text except "Just now" ends in " ago". |
| Comments.AgeTextPlural | static/js/comments.js:284-307 | `formatDate` gives "Just now" iff under a minute, and no relative text iff a week or more. Otherwise the text starts with the whole-unit count and is plural iff that count is over one. |
| Comments.CommentsSystem.constructor | static/js/comments.js:3-11 | Paging starts at page 0 with size 10 and more comments to load. |
| Comments.CommentsSystem.LoadMoreComments | static/js/comments.js:254-282 | Once paging has ended it is a no-op forever. Otherwise the page counter moves first and is never rolled back. A non-empty successful page sets "more" to !last; an empty or unsuccessful page ends paging; a failed request changes nothing else. |
| Comments.UpvoteButton.Click | static/js/comments.js:129-169 | A disabled button ignores the click. Otherwise one request is sent. Success sets the count and marks the button, which stays disabled. Failure re-enables it at once. |
| Comments.UpvoteButton.TimerFires | static/js/comments.js:158-160 | The timer only re-enables the button. |
| Comments.UpvoteButton.constructor | static/js/comments.js:107-110 | A rendered button starts enabled and not upvoted, shows the given count and has sent no request. |
| Tags.TrimAll | static/js/app.js:1487 | Each piece is trimmed, in order. |
| Tags.ParseTags | static/js/app.js:1487 | Defines the tag field's parse: split on ',', trim each piece, keep the non-empty ones (also admin.js:541-544). |
| Tags.NonEmpty | static/js/admin.js:541-544 | Keeps exactly the non-empty pieces, in order. |
| Tags.ParseTagsWellFormed | static/js/admin.js:541-544 | Every parsed tag is non-empty, trimmed and comma-free. |
| Tags.ParseTagsJoin | static/js/app.js:1487 | Typing well-formed tags joined by commas gives them back in order. |
| Admin.PromptHint | static/js/admin.js:130-156 | Under 10 trimmed characters: "need k more" with length + k = 10. Over 500: "too many". Otherwise: ready. |
| Admin.HintSuffix | static/js/admin.js:143-152 | Defines the hint's words: "Need k more characters", "Too many characters - max 500" or "✓ Ready to generate". |
| Admin.HintIsSuccess | static/js/admin.js:143-151 | The success colour shows iff the hint is ready. |
| Admin.CheckPrompt | static/js/admin.js:456-492 | The request is refused iff the trimmed prompt is empty, under 10 or over 500 characters. Otherwise it carries the trimmed prompt, and the trimmed author or 'Admin'. |
| Admin.CheckAgreesWithHint | static/js/admin.js:463-479 | The generate button accepts exactly the prompts the hint calls ready. |
| Admin.PageSubmit | static/js/admin.js:398-415 | A non-empty id gives PUT /pages/{id}. An empty one gives POST /pages. The display order is always 0. |
| Admin.PageSubmitTargetsOnePage | static/js/admin.js:402-415 | Two ids address the same path iff they are equal. |
| Admin.TotalViews | static/js/admin.js:242 | Defines the dashboard total: a left-to-right `reduce` adding each post's view count, a missing count as 0. |
| Admin.TotalViewsAppend | static/js/admin.js:242 | The `reduce` total of two lists in sequence is the sum of their totals. |
| Admin.TotalViewsBounds | static/js/admin.js:230-252 | A missing count adds 0. With non-negative counts the total is at least every single count. |
| Bookmarks.Insert | static/js/app.js:366-370 | Inserting into a sorted listing keeps it sorted and adds exactly that entry. |
| Bookmarks.Entries | static/js/app.js:366-370 | The listing holds every map entry once, sorted newest first, with ties in ascending id order (a stable sort of `Object.values`). |
| Bookmarks.Toggled | static/js/app.js:358-364 | A saved post is removed and an unsaved one saved now. No other key changes. |
| Bookmarks.ToggleTwice | static/js/app.js:325-364 | Two toggles restore which posts are saved and leave every other bookmark untouched. |
| Bookmarks.ListingProps | static/js/app.js:366-370 | The listing contains exactly the saved bookmarks, newest first. |
| Bookmarks.BookmarkManager.constructor | static/js/app.js:296-316 | The saved map is loaded, or empty when missing or unreadable. |
| Bookmarks.BookmarkManager.Save | static/js/app.js:317-323 | Storage holds the current map. |
| Bookmarks.BookmarkManager.AddBookmark | static/js/app.js:329-338 | The post data and save time replace any entry under the id, then the map is saved. |
| Bookmarks.BookmarkManager.RemoveBookmark | static/js/app.js:340-348 | A saved post is removed and saved. An absent id changes nothing and writes nothing. |
| Bookmarks.BookmarkManager.ToggleBookmark | static/js/app.js:358-364 | The map becomes `Toggled` of the old one, and `isBookmarked` flips. |
| Bookmarks.BookmarkManager.GetAllBookmarks | static/js/app.js:366-370 | Every saved post once, newest first. |
| Bookmarks.BookmarkManager.GetStats | static/js/app.js:538-545 | The count of saved posts, and the first min(5, n) of the listing, which are at least as new as the rest. |
| App.ShouldNotify | static/js/app.js:217-224 | Defines the notify test: on, a newest post exists, it is younger than a day and newer than `lastPostCheck`. |
| App.AnnouncedOnce | static/js/app.js:221-228 | A post announced once is never announced again. |
| App.PostWatcher.constructor | static/js/app.js:91-114 | A saved choice with an undecided permission prompts at once. Checking runs iff notifications are on. `lastPostCheck` starts from its saved value (loaded at lines 265-267), else 0. |
| App.PostWatcher.ToggleNotifications | static/js/app.js:133-152 | The switch follows `ToggleSwitch`, and the periodic check runs iff notifications are on. |
| App.PostWatcher.CheckForNewPosts | static/js/app.js:208-232 | Notifies iff on, and the newest post is younger than a day and newer than `lastPostCheck`. Only then is `lastPostCheck` set to it and saved, so it never decreases. |
| App.StartupThemeAsWritten | static/js/app.js:61-76 | As written, start-up aborts iff there is no saved theme, no dark preference and a toggle button, because `currentTheme` is undeclared. |
| App.ToggleThemeAsWritten | static/js/app.js:1787-1793 | As written, `toggleTheme` fails iff `currentTheme` was never assigned. |
| App.FirstLightVisitFails | static/js/app.js:1809-1820 | A first visit with a light system preference aborts start-up, and the theme button then fails too. |
| App.StartupTheme | static/js/app.js:61-76 | With `currentTheme` declared as 'light', start-up never fails and agrees with the script wherever the script succeeds. |
| App.StartupThenToggle | static/js/app.js:1787-1820 | After the corrected start-up the theme button always works, and the icon follows the theme. |
| App.AgoText | static/js/app.js:1154-1157 | Defines the compact texts: "Just now", then "<n>m ago", "<n>h ago" or "<n>d ago". |
| App.TimeAgo | static/js/app.js:1149-1158 | Under 60 s, negative times included, gives "Just now". Then floor minutes under an hour, floor hours under a day, floor days. |
| App.TimeAgoMatchesCommentAge | static/js/comments.js:284-307 | The post lists and the comments bucket times alike for a week. After that the lists count days and the comments show a date. |
| App.TimeAgoMonotone | static/js/app.js:1149-1158 | A later time never shows a smaller unit, and the day count never falls. |
| App.CheckNewsletter | static/js/app.js:1208-1220 | Refused iff the trimmed address is empty or lacks '@'. Otherwise the trimmed address is sent. |
| App.NewsletterStable | static/js/app.js:1208-1220 | The address sent is accepted again unchanged. |
| App.SearchAccepted | static/js/app.js:1610 | Defines when a smart search runs: two or more characters once trimmed. |
| App.SearchIgnoresPadding | static/js/app.js:1610-1614 | Whitespace around a query never decides whether it is searched (two or more trimmed characters). |
| App.MatchesQuery | static/js/app.js:1760-1763 | Defines the filter test: the lower-cased title, or a non-empty lower-cased excerpt, contains the lower-cased query. |
| App.FilterListings | static/js/app.js:1753-1771 | Keeps exactly the posts whose title, or non-empty excerpt, contains the query, ignoring case. The result is a subsequence of the list: order kept, no post repeated. |
| App.EmptyQueryKeepsAll | static/js/app.js:1760-1765 | An empty query keeps every post in order. |
| App.FilterIdempotent | static/js/app.js:1760-1765 | Filtering twice by the same query changes nothing more. |
| App.PageRange | static/js/app.js:1376-1378 | One numbered button per page from lo to hi. Only `current`'s is active. |
| App.PageRangeActive | static/js/app.js:1376-1378 | Some button is active iff `current` lies in the range, and never two. |
| App.DisplayPagination | static/js/app.js:1369-1382 | The bar is Previous (disabled iff on page 0), the first min(total, 5) pages, then Next (disabled iff on or after the last page). |
| App.SmartSearchPagination | static/js/app.js:1734-1750 | The bar is Previous, the existing pages within two of the current one, then Next. |
| App.BarsOfferExistingPages | static/js/app.js:1369-1382 | From an existing page, both bars offer only existing pages. The search bar always marks the current page. The plain bar marks it only on the first five pages. |
| PostModel.GenerateExcerpt | app/models/blog_post.py:40-46 | A truthy excerpt is kept. Otherwise, content over 200 characters gives its first 197 plus "...", exactly 200. Shorter non-empty content is kept whole. Empty content returns the excerpt. |
| PostModel.DerivedExcerptFits | app/models/blog_post.py:13 | A derived excerpt is at most 200 characters, so it fits the 500-character column. |
| PostModel.GenerateExcerptStable | app/models/blog_post.py:40-46 | Storing the derived excerpt and deriving again changes nothing. |
| Schemas.TitleOk | app/schemas/blog_post.py:6 | Defines the title bound: 3 to 200 characters. |
| Schemas.ContentOk | app/schemas/blog_post.py:7 | Defines the content bound: at least 10 characters. |
| Schemas.CreateValid | app/schemas/blog_post.py:5-15 | A create body is valid iff its title and content meet their bounds. |
| Schemas.UpdateValid | app/schemas/blog_post.py:17-19 | An update is valid iff a supplied title and a supplied content meet the create bounds. |
| Schemas.AIRequestValid | app/schemas/blog_post.py:38 | Defines the AI request bound: a prompt of at least 10 characters, no upper bound. |
| Schemas.WithDefaults | app/schemas/blog_post.py:8-12 | Omitted fields become no tags, a draft, and no excerpt, author or image. |
| Schemas.UpdateAcceptsCreate | app/schemas/blog_post.py:17-24 | An update carrying a valid create body's fields is valid, and so is an empty update. |
| Schemas.AIRequestOf | app/schemas/blog_post.py:37-39 | An omitted author becomes 'AI Assistant'. |
| Schemas.AdminPromptsAreServerValid | app/schemas/blog_post.py:38 | Every prompt the admin panel sends meets the server's ≥ 10 bound. A 501-character prompt is refused by the panel but valid for the server. |
| PostService.IndexOf | app/services/blog_post_service.py:62-64 | The first post with the id, or None iff there is none. |
| PostService.TagsOf | app/services/blog_post_service.py:48-50 | A post's tags are exactly the tags of its rows, in row order. |
| PostService.RowsFor | app/services/blog_post_service.py:94-97 | One row per tag, in order. |
| PostService.RemoveRows | app/services/blog_post_service.py:116-118 | Exactly the other posts' rows remain. |
| PostService.TagsOfAppend | app/services/blog_post_service.py:117-121 | The tags of appended rows are the tags of each part in turn. |
| PostService.TagsOfRowsFor | app/services/blog_post_service.py:94-97 | A post's new rows carry exactly its tags and no other post's. |
| PostService.TagsOfRemoveRows | app/models/blog_post.py:36-38 | Removing a post's rows leaves it with no tags and every other post with its own. |
| PostService.Published | app/services/blog_post_service.py:16 | Exactly the published posts, as a subsequence of the table: table order, each row once. |
| PostService.Drafts | app/services/blog_post_service.py:199-210 | Exactly the unpublished posts, as a subsequence of the table. |
| PostService.PublishedPlusDrafts | app/services/blog_post_service.py:207 | published + drafts = total, so the computed draft count is never negative. |
| PostService.PageOf | app/services/blog_post_service.py:28 | The page is the slice from page*size, at most size long, and empty past the end. |
| PostService.PageCount | app/services/blog_post_service.py:59 | ceil(total/size) when size > 0, else 0. |
| PostService.PagingPlacesItem | app/services/blog_post_service.py:28 | Item k is at position k mod size of page k div size. |
| PostService.PagingCount | app/services/blog_post_service.py:25-59 | A page is non-empty iff its index is below total_pages. |
| PostService.ListedExcerpt | app/services/blog_post_service.py:37 | `excerpt or generate_excerpt()` is `generate_excerpt()`, capped at 200 for long content. |
| PostService.ListAll | app/services/blog_post_service.py:31-52 | Each listed post carries its row, its shown excerpt and its tags. |
| PostService.MatchesKeyword | app/services/blog_post_service.py:155-160 | Defines the `ilike '%keyword%'` test: the keyword occurs, ignoring ASCII case, in the title, the content or a present excerpt. |
| PostService.Matching | app/services/blog_post_service.py:152-171 | Exactly the published posts whose title, content or excerpt contains the keyword, ignoring case, as a subsequence of the table. |
| PostService.Tagged | app/services/blog_post_service.py:173-191 | Exactly the published posts with a row for that tag, as a subsequence of the table. |
| PostService.TogglePublished | app/services/blog_post_service.py:138-150 | `published` flips. The first publication is stamped with now, and a stamp is never cleared. `updated_at` becomes now (the column's `onupdate`, app/models/blog_post.py:32). Nothing else changes. |
| PostService.ToggleTwice | app/services/blog_post_service.py:143-147 | Two toggles restore the flag and keep an existing stamp. A post without a stamp gains one. `updated_at` is the second toggle's time. |
| PostService.ApplyUpdate | app/services/blog_post_service.py:108-112 | Each given field is written and every other column kept. |
| PostService.EmptyUpdateKeeps | app/services/blog_post_service.py:108-112 | An update giving nothing changes no column. |
| PostService.NewPost | app/services/blog_post_service.py:73-92 | The new row has the given fields and zero views. It has no update or publication time, even when created published. A falsy excerpt is derived from the content. |
| PostService.BlogPostService.constructor | app/services/blog_post_service.py:10-11 | An empty table that satisfies the id and row invariants. |
| PostService.BlogPostService.GetPostById | app/services/blog_post_service.py:62-64 | Some iff a post has the id, and then that post. |
| PostService.BlogPostService.IncrementViewCount | app/services/blog_post_service.py:66-71 | An existing post gains exactly one view and `updated_at` becomes now (the column's `onupdate`). Nothing else changes. A missing id is a no-op. |
| PostService.BlogPostService.CreatePost | app/services/blog_post_service.py:73-100 | One row with the next id is appended, then one tag row per tag. The new post's tags are exactly the given ones, and other posts' tags are unchanged. |
| PostService.BlogPostService.UpdatePost | app/services/blog_post_service.py:102-126 | A missing id gives None and changes nothing. Otherwise the given fields are written and `updated_at` set. Tags are replaced wholesale iff given; other posts' tags are unchanged. |
| PostService.BlogPostService.ReplaceTags | app/services/blog_post_service.py:114-121 | The post's rows are deleted, then one row per new tag is added. |
| PostService.BlogPostService.AddTags | app/services/blog_post_service.py:94-97 | The loop appends one row per tag in order, and the post's tags become exactly those. |
| PostService.BlogPostService.DeletePost | app/services/blog_post_service.py:128-136 | False iff the id is missing, and then nothing changes. Otherwise the row and its tag rows are gone. |
| PostService.BlogPostService.TogglePublish | app/services/blog_post_service.py:138-150 | None for a missing id. Otherwise the row becomes `TogglePublished` of itself. |
| PostService.BlogPostService.GetPublishedPosts | app/services/blog_post_service.py:13-60 | One page of published posts with excerpts and tags, plus the published count and `PageCount`. |
| PostService.BlogPostService.SearchPosts | app/services/blog_post_service.py:152-171 | One page of the matching published posts, plus their count. |
| PostService.BlogPostService.GetPostsByTag | app/services/blog_post_service.py:173-191 | One page of the published posts with that tag, plus their count. |
| PostService.SumViews | app/services/blog_post_service.py:203 | Defines `func.sum(view_count) or 0`: the sum over all rows, 0 for an empty table. |
| PostService.BlogPostService.GetStatistics | app/services/blog_post_service.py:199-210 | Total, published, drafts = the unpublished posts, and the sum of view counts. |
| AIService.ExtractJson | app/services/ai_service.py:45-50 | The text parsed is never longer than the reply; the lemmas below pin it down case by case. |
| AIService.UnfencedReplyParsedWhole | app/services/ai_service.py:49-50 | A reply without fences is parsed whole, stripped. |
| AIService.JsonFenceUnclosed | app/services/ai_service.py:45-46 | With no "```" after the first "```json", the text parsed is everything after it, stripped. |
| AIService.JsonFenceClosed | app/services/ai_service.py:45-46 | Otherwise it is the text between the first "```json" and the next "```", stripped. The body may hold single backquotes, and fences before the opening one do not count. The only exception is a "```json" starting one or two characters into that closing fence. |
| AIService.JsonFenceOverlapped | app/services/ai_service.py:45-46 | In that exception ("````json"), the text runs up to the overlapping "```json". |
| AIService.PlainFenceBody | app/services/ai_service.py:47-48 | Without "```json", the text parsed runs from the first "```" to the next one, or to the end when there is none, stripped. |
| AIService.FallbackExcerpt | app/services/ai_service.py:71 | The first min(200, length) characters of the content. |
| AIService.Complete | app/services/ai_service.py:55-62 | Present keys are kept. A missing title, content or tags gets its default. A missing excerpt becomes exactly the first min(200, length) characters of the (possibly defaulted) content. |
| AIService.GenerateFromReply | app/services/ai_service.py:43-73 | A decoded object is completed. A decode error gives the default title, the raw reply, its first ≤ 200 characters and no tags. |
| AIService.DefaultedExcerptFits | app/services/ai_service.py:60-71 | Any excerpt that was not supplied is a prefix of the content of at most 200 characters. |
| AIService.CompleteObjectKept | app/services/ai_service.py:52-64 | An object with all four keys is returned as the model wrote it. |
| FileUpload.Named | app/api/file_upload.py:18 | Keeps exactly the path components that are neither empty nor '.'. |
| FileUpload.Name | app/api/file_upload.py:18 | The name is empty iff no path component names anything. Otherwise it is a named component after which every component is empty or '.', i.e. the last named one. |
| FileUpload.NamedLast | app/api/file_upload.py:18 | The last named component sits after every other named one. |
| FileUpload.LastIndexOf | app/api/file_upload.py:18 | The position of the last occurrence of the character, or None iff it is absent. |
| FileUpload.Suffix | app/api/file_upload.py:40 | The suffix runs from the last dot to the end. It is empty iff there is no dot, or the dot is first or last. |
| FileUpload.AllowedHasStemAndExtension | app/api/file_upload.py:14-18 | An allowed name has an extension of 4-5 characters after a non-empty stem. |
| FileUpload.UpperCaseAllowed | app/api/file_upload.py:18 | "A.JPG" is allowed: the check lower-cases the suffix. |
| FileUpload.DoubleExtensionRefused | app/api/file_upload.py:18 | "x.png.exe" is refused: only the last extension counts. |
| FileUpload.BareExtensionRefused | app/api/file_upload.py:18 | ".png" is refused: a leading dot is not an extension. |
| FileUpload.IsAllowedFile | app/api/file_upload.py:14-18 | Defines the type check: the lower-cased suffix of the final path component is one of .jpg, .jpeg, .png, .gif, .webp. |
| FileUpload.UploadImage | app/api/file_upload.py:20-52 | A bad type is reported iff the name is not allowed, even for an oversized file. Too large iff allowed and over 10485760 bytes (exactly that size passes). Otherwise the file is stored as uuid + original-case suffix, at url "/uploads/" + that name. |
| FileUpload.StoredNameAcceptedAgain | app/api/file_upload.py:40-42 | The stored name keeps the original suffix and would be accepted again. |
| FileUpload.ReplyJson | app/api/file_upload.py:48-52 | An accepted upload replies with exactly the keys message, filename and url. A refusal replies with only `detail`. |
| FileUpload.FormImageAsWritten | static/js/app.js:1482-1485 | The forms as written take an image only from a reply with `success` and `data`. |
| FileUpload.UploadedImageAlwaysDropped | static/js/admin.js:535-538 | Whatever is uploaded, the forms as written store no image. |
| FileUpload.FormImage | static/js/app.js:1482-1485 | The corrected form reads the reply's url iff it has one. |
| FileUpload.UploadedImageKept | app/api/file_upload.py:48-52 | With the corrected form an accepted upload gives "/uploads/" + uuid + suffix, and a refused one gives no image. |

## Left out

- DOM work is not modelled: HTML templates, innerHTML, styles, toasts, spinners, modals and `escapeHtml`. Buttons and icons appear only as the flags and glyphs they show.
- Timers are not modelled: `setInterval`, `setTimeout` and the five-minute check loop. The upvote timer is an explicit `TimerFires` call.
- `Date.now`, date-string parsing and NaN dates are not modelled. Times are integer milliseconds.
- Storage, the Notification API prompt and the fetch API are not modelled. Storage is a field, a permission answer is an input, and network outcomes are datatypes.
- Storage write failures are not modelled: the source catches and logs them.
- Service-worker lifecycle is not modelled: `skipWaiting`, `clients.claim`, the no-op background sync and the push display.
- The Cache API's `Vary` handling, opaque responses and response cloning are not modelled.
- ServiceWorker.CacheStorage.HandleFetch: neither `cache.put` is awaited in the source (cache-first at line 73, network-first at line 87), so the reply can precede the write; the model performs the write before the reply.
- The HTTP route layer is not modelled. That includes FastAPI validation and its route order.
- SQLAlchemy sessions and commits are not modelled. The table is a sequence in table order.
- PostService.BlogPostService.GetPublishedPosts: `ORDER BY` with `sort_by`/`sort_dir` is not modelled; pages follow table order. The unused `lang` argument is dropped.
- PostService.BlogPostService.SearchPosts and PostService.BlogPostService.GetPostsByTag: newest-first ordering is not modelled; pages follow table order.
- PostService.PageCount: uses exact integer ceiling where the source uses float division.
- PostService.MatchesKeyword: `ilike` is Unicode case-insensitive and treats `%`/`_` in the keyword as wildcards; the model lower-cases ASCII and matches literally.
- PostService.TogglePublished: the source takes `published_at` from the application clock (`datetime.utcnow()`) and `updated_at` from the database clock (`func.now()`); the model uses one `now` for both.
- PostService.ApplyUpdate: an explicit null for a nullable field counts as "not given", so it cannot clear a field.
- Cascades beyond tag rows are not modelled: images and comments have no table here.
- `get_top_posts`, `add_image` and `set_featured_image` are not modelled. They are outside the modelled set of service operations.
- `get_image` and `delete_image` in app/api/file_upload.py are not modelled, and neither is the file write.
- FileUpload.ReplyJson: refusal details keep only their first words. The allowed-types list is joined in Python's set order, which is unspecified.
- FileUpload.Name: POSIX path rules only; Windows separators are not modelled.
- The AI HTTP request is not modelled: model name, key, headers, 60 s timeout and error statuses. The reply text is an input.
- AIService.GenerateFromReply: JSON that decodes to a non-object, or keys with non-string values, are not modelled. `json.loads` is a function parameter.
- Chat.Normalise and the other case folds: ASCII lower-casing only. JavaScript `toLowerCase` is Unicode-aware.
- Strings are sequences of code points, not UTF-16 units, so `slice`, `length` and `[:200]` agree only on BMP text.
- Bookmarks: ids are natural numbers. Non-integer object keys, and prototype keys such as `__proto__`, are not modelled.
- Bookmarks.Entries: ties are broken by ascending id, which is `Object.values` order only for ids up to 2^32-2 (array-index keys); larger integer keys iterate in insertion order, which the model does not track.
- Schemas.AIRequestOf: an explicit `"author": null` gives None in Pydantic; the model treats it as omitted, so it becomes 'AI Assistant'.
- App.PostWatcher.constructor: assumes the browser supports notifications. Without `Notification` in `window` (static/js/app.js:92-95) the page keeps its initial flags and draws no bell; that path is not modelled.
- Chat.Turn: every message of one turn gets the same timestamp; the source stamps each one separately.
- App.PostWatcher.constructor: a saved `lastPostCheck` that `parseInt` cannot read (NaN) is not modelled; the saved value is an integer or absent.
- app.js as a whole is not modelled. It has a stray `}` at line 894 and defines `loadTrendingPosts` twice. Function bodies are modelled one by one.
- `performRegularSearch` requests a page URL and passes an object to `displayPosts`; only its filter is modelled.

## Findings

| source | as written | input that shows it | evidently intended | confidence | as-written member | corrected member |
|---|---|---|---|---|---|---|
| static/js/chatbot-fullpage.js:52 | `sendMessage` calls `this.addMessage`, which the class does not define. Its only drawing method is `addFullscreenMessage`. | Typing "hi" and sending: a TypeError is thrown before the message is shown or sent. | Each message is drawn and saved with `addFullscreenMessage`, as in the widget. | high (not executed) | FullPageChat.SendAsWritten | FullPageChat.FullPageChatbot.SendMessage |
| static/js/app.js:65 | `currentTheme` is assigned and read but never declared. With no saved theme and a light system preference, `updateThemeToggleIcon` reads it and throws, and start-up aborts. | First visit, light system preference, page with `#theme-toggle`. | Declare `currentTheme = 'light'`, as admin.js and chatbot-fullpage.js do. | high (not executed) | App.StartupThemeAsWritten | App.StartupTheme |
| static/js/chatbot.js:421 | The exact lookup indexes a plain object literal, so "constructor" and "__proto__" find inherited `Object.prototype` members. They are truthy non-strings: `addMessage` throws on `replace` before storing, and the rejection escapes `sendMessage`. The full page's copy (static/js/chatbot-fullpage.js:96) has the same lookup. | The chat endpoint fails and the user sends "constructor": only the user's message is added, with no reply and no error text. | Answer only from the table's own keys, so the message gets the error text. | high (not executed) | Chat.TurnAsWritten | Chat.Turn |
| static/js/app.js:1483 | The post forms take the uploaded image from `result.success` and `result.data`. The upload endpoint replies `{message, filename, url}`. | Any accepted upload: the post is saved without its image. | Read `result.url`. | medium, assumes no proxy rewraps the reply (not executed) | FileUpload.FormImageAsWritten | FileUpload.FormImage |

Two behaviours follow the code where a reader might expect otherwise:

- `create_post` with `published` true leaves `published_at` unset. Only `toggle_publish` stamps it.
- The network-first branch of the service worker is dead code (`ServiceWorker.NetworkFirstUnreachable`).
