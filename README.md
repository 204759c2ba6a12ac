# gulfquotes core, modelled in Dafny

gulfquotes is a Next.js quote-sharing site. It has quotes with authors,
categories, tags and gallery backgrounds, replies to comments, in-app
notifications for followers, a site map, and credentials-plus-two-factor
sign-in. This project models the server core in Dafny and proves what each
operation promises:

- the services for quotes, replies, notifications, tags, public quotes,
  quote display and quotes by tag;
- the validation schemas;
- the `/api/quotes`, `/api/gallery` and `/api/search/suggestions` route handlers;
- the authentication callbacks;
- the site map generator;
- the client-side logic of the quote edit form, the author image upload
  field, the tag sort control and the search analytics dashboard.

How the model is built:

- **Database tables.** Each is a sequence of rows in creation order. A query
  is a function over the rows it reads. A service that writes (quotes,
  replies, notifications, the quote–gallery links, the auth tables) is a
  class whose methods change those sequences. Each such method states the
  whole new table against the old one.
- **Ordering.** Where a query orders by a column the model does not compute
  (likes, download counts, quote counts), the rows are given in the order
  the database returns them. The notification, reply and quote stores keep
  their rows in creation order as an invariant, and their newest-first pages
  are computed from it. The display service's author listing requires its
  rows to be sorted by the selected key. The tag, quotes-by-tag and
  public-quote services take the rows as a parameter (`ordered`,
  `matching`) that stands for the database's answer under the selected
  `orderBy`; the model does not check that order.
- **Ids and timestamps.** Both come from a counter the store keeps. A row
  created later has a larger stamp.
- **Outside code.** Code outside the core is passed in as parameters:
  - `slugify`
  - the database's `contains`
  - the URL check of the update schema
  - the ownership check
  - the like, bookmark and follow lookups
  - the gallery, analytics and create services the routes call
  - `MONTH_NAMES`
  - `getMaxFiles`
- **Errors.** A service returns `Result`. Its failure is an `AppError` with
  its code and HTTP status, the ownership module's `QuoteAccessError`, or
  any other exception. A route returns a `Response`: JSON data, or an error
  code with its status.
- **JavaScript semantics** are written out:
  - `x || d` on numbers and strings (`Common.Or`, `GalleryRoute.OrText`,
    `Common.Truthy`)
  - destructuring defaults, which apply only to an absent value
    (`Common.Default`)
  - `Math.min`/`Math.max` clamping
  - Prisma's `skip`/`take` window
  - `trim`, `split` and `URLSearchParams.set`
  - JavaScript `Map` insertion order (`OrderedMap`)

A quirk of the code is modelled as written. In the tag service and the
quotes-by-tag service, the offset uses the raw limit and the page size uses
the clamped limit, so page 2 with limit 100 skips 100 rows and returns at
most 50. `TagService.ListOffsetUsesRawLimit` states this.

## Model

| member | source | states |
|---|---|---|
| Common.StatusOf | lib/services/quote.service.ts:82-84 | Every error code has its HTTP status in 400..500. The status is 500 exactly for DATABASE_ERROR and INTERNAL_ERROR, and 409 exactly for the two concurrency codes. |
| Common.RespondWith | app/api/quotes/route.ts:56-76 | A route's catch always answers with an error. An AppError keeps its code and status; anything else becomes 500 INTERNAL_ERROR. |
| Common.Or | lib/services/reply.service.ts:131-132 | `n or d`: the result is `d` exactly when `n` is absent, 0 or `d`. Otherwise it is `n`. |
| Common.Default | lib/services/notification/notification.service.ts:169 | A destructuring default: a present value is kept, even 0, and only an absent value gives the default. |
| Common.Clamp | app/api/quotes/route.ts:85 | The result lies in lo..hi. A value inside stays as it is; one below becomes lo and one above becomes hi. |
| Common.Window | lib/services/notification/notification.service.ts:188-192 | `skip`/`take` on ordered rows: at most `take` rows, exactly `take` when the rows suffice, nothing past the end, and each row is the one at offset plus position. |
| Common.Take | app/sitemap.ts:154 | `take: n`: n rows when there are enough, otherwise all of them. It is the window at offset 0. |
| Common.WindowWithin | lib/services/reply.service.ts:147-161 | Every row of a page is a row of the table. |
| Common.Skip | lib/services/notification/notification.service.ts:172 | `(page-1)*limit`: page 1 starts at row 0, no page starts before it, and each page ends where the next starts. |
| Common.HasMoreIff | lib/services/quote.service.ts:166-170 | `hasMore` is true exactly when rows remain past the page's window. |
| Common.WindowSplit | lib/services/notification/notification.service.ts:188-192 | Adjacent windows join into one window. |
| Common.PagesTile | lib/services/notification/notification.service.ts:172 | Consecutive pages are consecutive, non-overlapping windows. |
| Common.LastWhere | lib/services/notification/notification.service.ts:262-268 | The shared key lookup: the last position whose row satisfies the condition, or -1 exactly when none does. |
| OrderedMap.Keys | app/sitemap.ts:255-268 | One key per entry, in entry order. |
| OrderedMap.Values | app/sitemap.ts:268 | `Array.from(map.values())`: one value per entry, in insertion order. |
| OrderedMap.Find | app/sitemap.ts:259 | The position of a key, or -1 exactly when it is absent. No earlier entry has the key. |
| OrderedMap.Get | app/sitemap.ts:259 | `map.get`: absent exactly when no entry has the key. Otherwise it is the value of an entry with that key. |
| OrderedMap.GetFind | app/sitemap.ts:259 | `get` and the key's position agree. |
| OrderedMap.Set | app/sitemap.ts:263 | `map.set`: keys stay distinct and `get` then gives the new value. A new key is appended; an existing key keeps its position. No other entry changes. |
| OrderedMap.SetAll | lib/services/public-quote/quote-display.service.ts:190-192 | `new Map(entries)` keeps keys distinct. |
| OrderedMap.SetHasKey | app/sitemap.ts:263 | After `set`, a key is present exactly when it was present before or is the key set. |
| OrderedMap.SetAllKeys | lib/services/public-quote/quote-display.service.ts:190-192 | A built map holds exactly the keys that were there or were set. |
| OrderedMap.SetAllValues | lib/services/public-quote/quote-display.service.ts:190-192 | Every entry of a built map was already there or was set. |
| JsText.TrimStart | app/api/search/suggestions/route.ts:32 | Drops exactly the leading whitespace: the result is a suffix, and everything dropped is whitespace. |
| JsText.TrimEnd | app/api/search/suggestions/route.ts:32 | Drops exactly the trailing whitespace: the result is a prefix, and everything dropped is whitespace. |
| JsText.Trim | app/api/search/suggestions/route.ts:32 | `trim()`: never longer, and no whitespace at either end. |
| JsText.TrimIdempotent | app/api/quotes/route.ts:88 | Trimming twice is trimming once. |
| JsText.TrimEmptyIff | lib/services/tag/tag.service.ts:218 | A string trims to empty exactly when it is all whitespace. |
| JsText.IndexOf | app/api/gallery/route.ts:35 | The first position of the separator, or -1 exactly when it does not occur. |
| JsText.Split | app/api/gallery/route.ts:35 | `split(",")`: at least one piece, and no piece contains the separator. |
| JsText.SplitJoin | app/api/gallery/route.ts:35 | Splitting loses nothing: joining the pieces with the separator gives back the input. |
| JsText.NatToString | app/sitemap.ts:236 | The decimal rendering: at least one character, all of them digits. |
| JsText.NatToStringValue | app/sitemap.ts:236 | The rendered digits read back as the number. |
| NotificationService.Stamp | lib/services/notification/notification.service.ts:51-62 | The stored row carries exactly the caller's fields, starts unread, and gets the issued id and stamp. |
| NotificationService.StampAll | lib/services/notification/notification.service.ts:112-114 | `createMany`: one row per input, in order. Each row carries its input and gets consecutive ids from the counter. |
| NotificationService.Notices | lib/services/notification/notification.service.ts:100-109 | One NEW_QUOTE notice per follower, in follower order. |
| NotificationService.FollowersOf | lib/services/notification/notification.service.ts:82-95 | Every result follows that author profile and comes from the follows; every such follow is included. |
| NotificationService.FollowersOfAppend | lib/services/notification/notification.service.ts:82-114 | The follower query decides row by row: a follow of the profile is kept once in its place, others are skipped. So `n` follows of the profile give exactly `n` followers, in table order, and so exactly `n` notices. |
| NotificationService.SanitizeTagName | lib/services/notification/notification.service.ts:146 | The length is kept; tag characters stay and every other character becomes `_`. |
| NotificationService.SanitizeTagNameIdempotent | lib/services/notification/notification.service.ts:146 | Sanitising twice is sanitising once. |
| NotificationService.SanitizeTagNameKeepsValid | lib/services/notification/notification.service.ts:146 | A name made only of tag characters is left unchanged. |
| NotificationService.Matching | lib/services/notification/notification.service.ts:175-184 | The `where` clause: exactly the user's rows that satisfy the read clause. |
| NotificationService.ReadClauseAdmits | lib/services/notification/notification.service.ts:175-184 | The where clause admits the user's rows: only unread ones when `includeRead` is false, only read ones when `onlyRead` is set, all of them otherwise. |
| NotificationService.UnreadOf | lib/services/notification/notification.service.ts:218-223 | The unread count is the number of the user's rows the `read: false` clause admits. |
| NotificationService.MatchingAscending | lib/services/notification/notification.service.ts:188 | The filtered rows keep creation order. |
| NotificationService.NewestPage | lib/services/notification/notification.service.ts:188-192 | The `skip`/`take` window of the matching rows in reverse creation order: at most `take` rows, strictly newest first. |
| NotificationService.ListOf | lib/services/notification/notification.service.ts:167-238 | The listing, with page/limit defaults 1 and 10. `includeRead=false` gives only unread rows; `onlyRead` gives only read rows. The items are exactly the window at `(page-1)*limit` of size `limit` over the matching rows, newest first. `total` counts matching rows, `unreadCount` counts all the user's unread rows, and `hasMore` follows the shared rule. |
| NotificationService.UnreadCountIndependent | lib/services/notification/notification.service.ts:218-223 | The reported unread count does not depend on the filter or the page. |
| NotificationService.MarkAllRead | lib/services/notification/notification.service.ts:291-297 | `updateMany` keeps the number of rows. |
| NotificationService.MarkAllReadEffect | lib/services/notification/notification.service.ts:291-297 | Afterwards the user has no unread row. Exactly the user's rows are set read; other users' rows are unchanged. |
| NotificationService.MarkAllReadIdempotent | lib/services/notification/notification.service.ts:289-304 | A second mark-all changes nothing. |
| NotificationService.IndexOfId | lib/services/notification/notification.service.ts:262-268 | `findUnique` by id: -1 exactly when no row has the id. |
| NotificationService.MarkAllReadStamped | lib/services/notification/notification.service.ts:291-297 | Marking rows read keeps ids and stamps in order. |
| NotificationService.RemoveStamped | lib/services/notification/notification.service.ts:324-326 | A delete keeps the remaining rows in order. |
| NotificationService.AppendStamped | lib/services/notification/notification.service.ts:112-114 | Rows stamped from the counter keep the table in order. |
| NotificationService.NotificationStore.constructor | lib/services/notification/notification.service.ts:49 | An empty, well-formed table. |
| NotificationService.NotificationStore.Insert | lib/services/notification/notification.service.ts:51-62 | Appends exactly one row that carries the data, under a fresh id. |
| NotificationService.NotificationStore.CreateNotification | lib/services/notification/notification.service.ts:49-67 | Exactly one new unread row with the given fields, under an id no row had. |
| NotificationService.NotificationStore.CreateQuoteNotificationsForFollowers | lib/services/notification/notification.service.ts:74-124 | With no follower nothing is written. Otherwise one NEW_QUOTE row per follower is appended in follower order, as `createMany` stamps them, and existing rows are untouched. |
| NotificationService.NotificationStore.GetUserNotifications | lib/services/notification/notification.service.ts:167-238 | The listing `ListOf` describes, over the stored rows. |
| NotificationService.NotificationStore.GetUnreadCount | lib/services/notification/notification.service.ts:243-255 | The number of the user's unread rows. |
| NotificationService.NotificationStore.MarkAsRead | lib/services/notification/notification.service.ts:260-284 | NOT_FOUND for a missing id, checked first. FORBIDDEN for another user's row. Otherwise only that row becomes read. Errors change nothing. |
| NotificationService.NotificationStore.MarkAllAsRead | lib/services/notification/notification.service.ts:289-304 | Returns how many of the user's rows were unread; none are unread afterwards and other rows are unchanged. |
| NotificationService.NotificationStore.DeleteNotification | lib/services/notification/notification.service.ts:309-332 | Same NOT_FOUND-then-FORBIDDEN checks; then exactly that row is removed. |
| ReplyService.OfComment | lib/services/reply.service.ts:147-151 | Exactly the replies of the comment, in table order. |
| ReplyService.OfCommentAscending | lib/services/reply.service.ts:152-154 | The comment's replies stay oldest first. |
| ReplyService.ReplyPage | lib/services/reply.service.ts:131-161 | The page uses `page or 1` and `limit or 10`. It is exactly the window of the comment's replies, oldest first, that starts at `(page-1)*limit` and takes `limit`. That includes the shorter rest on a partial last page. |
| ReplyService.IndexOfId | lib/services/reply.service.ts:84-102 | `getById`: the position of the id, or -1 exactly when it is missing. |
| ReplyService.RemoveStored | lib/services/reply.service.ts:268-270 | A delete keeps the other replies in order. |
| ReplyService.OnlyWithId | lib/services/reply.service.ts:84-102 | Ids are unique: one reply per id. |
| ReplyService.ReplyStore.constructor | lib/services/reply.service.ts:42 | No replies, with the given comments. |
| ReplyService.ReplyStore.CreateReply | lib/services/reply.service.ts:42-79 | An unknown comment gives NOT_FOUND and no write. Otherwise one new reply is appended with that content, comment and user, no likes, not edited, and a fresh id. |
| ReplyService.ReplyStore.GetReplyWithLikeStatus | lib/services/reply.service.ts:107-125 | Null exactly when no reply has the id. Otherwise that reply, with `isLiked` true exactly when the user liked it. |
| ReplyService.ReplyStore.ListReplies | lib/services/reply.service.ts:130-192 | NOT_FOUND for an unknown comment. Otherwise the reply page, as the window above, with `page`, `limit` and `total`, and `hasMore` by the shared rule. Each item is flagged liked-or-not only when a non-empty user id is given. |
| ReplyService.ReplyStore.MarkLiked | lib/services/reply.service.ts:168-176 | Each reply is kept and gets `isLiked` from the user's likes. |
| ReplyService.ReplyStore.UpdateReply | lib/services/reply.service.ts:197-242 | NOT_FOUND first, then FORBIDDEN unless owner, AUTHOR or ADMIN. Otherwise only that reply takes the content and is marked edited at `now`. |
| ReplyService.MayModifyRoles | lib/services/reply.service.ts:210-211 | An AUTHOR or ADMIN may modify any reply; anyone else only their own. |
| ReplyService.ReplyStore.DeleteReply | lib/services/reply.service.ts:247-278 | The same checks; then exactly that reply is removed and returned. |
| QuoteService.CollapseSpaces | lib/services/quote.service.ts:55 | Every whitespace left is a single space, no two spaces are adjacent, and the first character is a space exactly when the input starts with whitespace. |
| QuoteService.CollapseKeepsWords | lib/services/quote.service.ts:55 | Collapsing keeps every non-whitespace character of the input, in order. |
| QuoteService.KeepAllowed | lib/services/quote.service.ts:56 | Only allowed characters remain, and no whitespace other than spaces is introduced. |
| QuoteService.KeepAllowedAppend | lib/services/quote.service.ts:56 | The filter works character by character: an allowed character is kept in its place and any other is deleted, so exactly the allowed characters survive, in order. |
| QuoteService.SanitizeContent | lib/services/quote.service.ts:52-57 | Never longer; only allowed characters; whitespace only as plain spaces. |
| QuoteService.KeepAllowedIdentity | lib/services/quote.service.ts:56 | Text of allowed characters passes the filter unchanged. |
| QuoteService.CollapseNoSpace | lib/services/quote.service.ts:55 | Text without whitespace is not collapsed. |
| QuoteService.SanitizePlainWord | lib/services/quote.service.ts:52-57 | Allowed text without whitespace is its own sanitised form. |
| QuoteService.ChooseSlug | lib/services/quote.service.ts:88-90 | A non-blank provided slug is used trimmed, with no whitespace at either end. Otherwise `slugify` of the first 50 sanitised characters. |
| QuoteService.ValidateAccess | lib/services/quote.service.ts:59-78 | Allowed exactly for a signed-in ADMIN, or an AUTHOR who owns the quote. Otherwise UNAUTHORIZED without a user, a QuoteAccessError for a non-owning AUTHOR, and FORBIDDEN for other roles. |
| QuoteService.CreateFaultError | lib/services/quote.service.ts:108-121 | P2002 maps exactly to DUPLICATE_SLUG, P2003 exactly to INVALID_REFERENCE, every other known database error exactly to DATABASE_ERROR, and anything unknown to INTERNAL_ERROR. Each carries its status. |
| QuoteService.UpdateFaultError | lib/services/quote.service.ts:231-240 | P2025 maps exactly to CONCURRENT_MODIFICATION. Other known codes map to DATABASE_ERROR and unknown errors to INTERNAL_ERROR. |
| QuoteService.IndexOfId | lib/services/quote.service.ts:182-185 | The quote's position, or -1 exactly when it is missing. |
| QuoteService.UpdatedContent | lib/services/quote.service.ts:187-189 | Absent content keeps the stored content. An empty string is written as is. Truthy content is sanitised. |
| QuoteService.UpdatedSlug | lib/services/quote.service.ts:190-206 | The slug is recomputed only when content is truthy or a slug is given, from the new or else the stored content. Otherwise it is kept. |
| QuoteService.Patched | lib/services/quote.service.ts:187-210 | Id, author and creation stamp are kept. Every supplied field replaces the stored one, with content and slug as above. |
| QuoteService.PatchedKeeps | lib/services/quote.service.ts:187-206 | No content keeps the content. No content and no slug keeps the slug. The empty update changes nothing. |
| QuoteService.PrepareUpdate | lib/services/quote.service.ts:173-210 | The checks in order: UNAUTHORIZED, access, NOT_FOUND, DUPLICATE_SLUG exactly when content or a slug is given and another quote has the new slug, then CATEGORY_NOT_FOUND exactly for a truthy unknown category. Success exactly when all pass, with the quote's position and the patched row. |
| QuoteService.SlugInUseFound | lib/services/quote.service.ts:39-50 | With unique slugs, `validateSlug` fails exactly when some quote has the slug and, with an excluded id, that quote is another one. |
| QuoteService.ValidSlugKept | lib/services/quote.service.ts:194-197 | A slug that passed the update schema is written exactly as given. |
| QuoteService.PrepareCreate | lib/services/quote.service.ts:80-98 | CONTENT_TOO_LONG over 500 raw characters, then DUPLICATE_SLUG, then CATEGORY_NOT_FOUND. Success exactly when all pass, with the sanitised content and the chosen slug. |
| QuoteService.PlainFormStoredVerbatim | lib/services/quote.service.ts:80-98 | A valid form of plain words that `create` accepts is stored exactly as written, and the stored content passes the schemas' content rule. |
| QuoteService.NewestPage | lib/services/quote.service.ts:148-156 | The `skip`/`take` window of the rows in reverse creation order: at most `take` quotes, strictly newest first. |
| QuoteService.Listed | lib/services/quote.service.ts:144-147 | Exactly the quotes that match the optional author and category filters. |
| QuoteService.ListedAscending | lib/services/quote.service.ts:148-156 | The filtered quotes keep creation order. |
| QuoteService.Containing | lib/services/quote.service.ts:255-265 | The quotes whose content contains the query, and every such quote is kept. |
| QuoteService.ContainingAppend | lib/services/quote.service.ts:255-265 | The search filter keeps each matching row once, in table order: it splits over concatenation, and one row is kept exactly when it matches. |
| QuoteService.ContainingDistinct | lib/services/quote.service.ts:255-265 | A table without repeats gives matches without repeats. |
| QuoteService.AppendStored | lib/services/quote.service.ts:99-107 | A new row under an unused slug keeps ids, stamps and slugs well-formed. |
| QuoteService.RemoveStored | lib/services/quote.service.ts:243-253 | A delete keeps the table well-formed. |
| QuoteService.ReplaceStored | lib/services/quote.service.ts:213-230 | Rewriting a row in place with a fresh stamp and a unique slug keeps the table well-formed. |
| QuoteService.NewRow | lib/services/quote.service.ts:99-107 | The created row: sanitised content, chosen slug, the form's category and profile, `featured` false unless given, and the background image or null. |
| QuoteService.FindSlug | lib/services/quote.service.ts:130-134 | With unique slugs, exactly the quote with that slug, or none. |
| QuoteService.QuoteStore.constructor | lib/services/quote.service.ts:80 | An empty table with the given categories. |
| QuoteService.QuoteStore.Create | lib/services/quote.service.ts:80-122 | A failed check gives its error and no write. A failing write gives the mapped error and no write. Otherwise exactly one row is appended: the new row under the next id. |
| QuoteService.QuoteStore.GetById | lib/services/quote.service.ts:124-128 | The quote with the id, or none exactly when it is missing. |
| QuoteService.QuoteStore.GetBySlug | lib/services/quote.service.ts:130-134 | Slugs are unique, so at most one quote answers. None exactly when the slug is unused. |
| QuoteService.QuoteStore.Update | lib/services/quote.service.ts:173-241 | Pre-checks first. A quote deleted meanwhile gives CONCURRENT_DELETE; one touched inside the transaction gives CONCURRENT_MODIFICATION. Write faults are mapped, and a missing category gives DATABASE_ERROR. Success changes exactly that row, to the patched row with a newer stamp. |
| QuoteService.QuoteStore.RemoveAt | lib/services/quote.service.ts:218-220 | Another writer's delete: exactly that row disappears. |
| QuoteService.QuoteStore.Touch | lib/services/quote.service.ts:213-230 | Another writer's update: only that row's stamp moves on. |
| QuoteService.QuoteStore.ConditionalWrite | lib/services/quote.service.ts:222-230 | `update where { id, updatedAt }`. A changed stamp gives P2025 and a missing category gives P2003, both without a write. Otherwise exactly that row is written with a fresh stamp. |
| QuoteService.QuoteStore.Delete | lib/services/quote.service.ts:243-253 | The access rule first; a missing row makes the delete throw. Otherwise exactly that row is removed and returned. |
| QuoteService.QuoteStore.List | lib/services/quote.service.ts:136-171 | The items are exactly the window at `(page-1)*limit` of size `limit` (`page or 1`, `limit or 10`) over the matching quotes, newest first. `total` counts all matches and `hasMore` follows the shared rule. |
| QuoteService.QuoteStore.Search | lib/services/quote.service.ts:255-265 | `take: 10`: all the matching quotes when there are at most ten, otherwise exactly the first ten. |
| QuoteService.QuoteStore.SearchDistinct | lib/services/quote.service.ts:255-265 | Quote ids are unique, so `search` never returns a quote twice. |
| QuoteSchema.RunLength | schemas/quote.ts:54-57 | The greedy `[a-z0-9]+` run: the longest prefix of slug characters. |
| QuoteSchema.GroupsShapeToSlug | schemas/quote.ts:54-57 | A run followed by well-shaped dash groups has the slug shape. |
| QuoteSchema.SlugToGroupsShape | schemas/quote.ts:54-57 | A well-shaped slug is a run followed by dash groups. |
| QuoteSchema.MatchGroupsShape | schemas/quote.ts:54-57 | The `(?:-[a-z0-9]+)*$` part accepts exactly dash-led tails of the shape. |
| QuoteSchema.SlugPatternIff | schemas/quote.ts:54-57 | The slug regex accepts exactly the non-empty strings of lowercase letters, digits and dashes with no leading, trailing or doubled dash. |
| QuoteSchema.FeaturedOf | schemas/quote.ts:32 | `featured` is false when omitted and otherwise as given. |
| QuoteSchema.UpdateSlugShape | schemas/quote.ts:54-57 | A valid update's slug has the slug shape. |
| QuoteDisplayService.FontSize | lib/services/public-quote/quote-display.service.ts:202-213 | The size lies in 30..45. It is 45 up to 100 characters and 30 beyond 600. |
| QuoteDisplayService.FontSizeNonIncreasing | lib/services/public-quote/quote-display.service.ts:202-213 | Longer text never gets a larger font. |
| QuoteDisplayService.CanvasDimensions | lib/services/public-quote/quote-display.service.ts:218-224 | A 1080 by 1080 canvas with padding 40. |
| QuoteDisplayService.FirstActive | lib/services/public-quote/quote-display.service.ts:234 | `find(g => g.isActive)`: the first active entry, or -1 exactly when none is active. |
| QuoteDisplayService.GetDisplayConfig | lib/services/public-quote/quote-display.service.ts:229-236 | Canvas, font size of the content and padding. The background is the first active entry's non-empty url; it is null exactly when no entry is active or that url is empty. |
| QuoteDisplayService.OwnBackgrounds | lib/services/public-quote/quote-display.service.ts:153-165 | Exactly the quote's linked images of at least 800 by 500. |
| QuoteDisplayService.GlobalBackgrounds | lib/services/public-quote/quote-display.service.ts:167-180 | Exactly the global images of at least 800 by 500 that are not linked to the quote. |
| QuoteDisplayService.ById | lib/services/public-quote/quote-display.service.ts:190 | One `(id, image)` entry per image, in order. |
| QuoteDisplayService.GetQuoteBackgrounds | lib/services/public-quote/quote-display.service.ts:148-197 | The backgrounds have distinct ids and are all large enough. Each comes from one of the two sources, and every id of either source is present. |
| QuoteDisplayService.BackgroundsFrom | lib/services/public-quote/quote-display.service.ts:190-192 | Each deduplicated value is a candidate stored under its own id. |
| QuoteDisplayService.BackgroundIds | lib/services/public-quote/quote-display.service.ts:190-192 | Deduplication keeps the set of ids. |
| QuoteDisplayService.ResetBackgrounds | lib/services/public-quote/quote-display.service.ts:264-270 | `updateMany` keeps the number of links. |
| QuoteDisplayService.ResetBackgroundsEffect | lib/services/public-quote/quote-display.service.ts:264-270 | Exactly the quote's background links become inactive; every other link is unchanged. |
| QuoteDisplayService.FindLink | lib/services/public-quote/quote-display.service.ts:273-281 | The link with the composite key, or -1 exactly when there is none. |
| QuoteDisplayService.ActiveBackground | lib/services/public-quote/quote-display.service.ts:261-285 | Both writes together keep the number of links. |
| QuoteDisplayService.FindLinkSameKeys | lib/services/public-quote/quote-display.service.ts:273-281 | The reset does not move a key. |
| QuoteDisplayService.ActiveBackgroundEffect | lib/services/public-quote/quote-display.service.ts:261-285 | Keys stay unique and keys and background flags are kept. Links of other quotes, and the quote's non-background links other than the chosen one, are unchanged. Among the quote's backgrounds exactly the chosen one is active, and the chosen link is active whatever its background flag. |
| QuoteDisplayService.LinkTable.constructor | lib/services/public-quote/quote-display.service.ts:261 | The given links with unique keys. |
| QuoteDisplayService.LinkTable.UpdateActiveBackground | lib/services/public-quote/quote-display.service.ts:261-285 | The table becomes the reset plus the chosen activation. A missing link is INTERNAL_ERROR after the reset has happened. |
| QuoteDisplayService.SortKeyOf | lib/services/public-quote/quote-display.service.ts:309-317 | `popular` orders by downloads, `likes` by likes, and the default `recent` by creation date. |
| QuoteDisplayService.FirstImage | lib/services/public-quote/quote-display.service.ts:373 | `images[0]?.url or null`: present exactly when a first url exists and is non-empty. |
| QuoteDisplayService.GetQuotesByAuthorId | lib/services/public-quote/quote-display.service.ts:290-407 | Page at least 1 and limit clamped to 1..50. The quotes are the window in the selected order, which is kept. Each carries the author image and quote count; like and bookmark flags are set only for a signed-in user. `hasMore` follows the shared rule. |
| QuoteDisplayService.FindBySlug | lib/services/public-quote/quote-display.service.ts:98-100 | The quote with the slug, or -1 exactly when there is none. |
| QuoteDisplayService.GetQuoteBySlug | lib/services/public-quote/quote-display.service.ts:51-143 | NOT_FOUND exactly for an unknown slug. Otherwise the quote with author image and quote count. Like, bookmark and follow flags are true only for a truthy user id with that relation. |
| TagService.TagOrderOf | lib/services/tag/tag.service.ts:98-114 | `name` and `recent` select their columns and anything else selects quote count. The direction is the requested one, `desc` by default. |
| TagService.Matching | lib/services/tag/tag.service.ts:89-95 | Every result matches the search by name or description and is a given tag; every matching tag is included. |
| TagService.MatchingAppend | lib/services/tag/tag.service.ts:217-240 | The search decides tag by tag: a match is kept once in its place and others are skipped, so the matches keep the query's quote-count order. |
| TagService.FindBy | lib/services/tag/tag.service.ts:25-64 | The tag with the slug or id, or -1 exactly when there is none. |
| TagService.GetBySlug | lib/services/tag/tag.service.ts:25-42 | NOT_FOUND exactly when no tag has the slug; otherwise a tag with that slug. |
| TagService.GetById | lib/services/tag/tag.service.ts:47-64 | NOT_FOUND exactly when no tag has the id; otherwise a tag with that id. |
| TagService.ListWhere | lib/services/tag/tag.service.ts:89-95 | The search filter applies only when the search is truthy. |
| TagService.List | lib/services/tag/tag.service.ts:69-143 | Page default 1. The reported limit is the default-20 limit clamped to 1..50, and at most that many rows come back. `total` counts filtered tags. Rows are the window at the raw-limit offset and all match a truthy search. `hasMore` follows the shared rule. |
| TagService.ListOffsetUsesRawLimit | lib/services/tag/tag.service.ts:85-86 | Page 2 with limit 100 skips 100 rows but returns only 50. |
| TagService.QuotesOf | lib/services/tag/tag.service.ts:156-160 | Exactly the quotes carrying the tag. |
| TagService.RelatedAmong | lib/services/tag/tag.service.ts:166-175 | Every result is another tag sharing a quote with the tag; every such tag is included. |
| TagService.RelatedAmongAppend | lib/services/tag/tag.service.ts:148-183 | The related tags are decided tag by tag and keep the quote-count order of the tags they come from. |
| TagService.GetRelatedTags | lib/services/tag/tag.service.ts:148-191 | Never the tag itself; each result shares a quote with it. The results are exactly the first `limit` (default 5) related tags by quote count, or all of them when fewer. |
| TagService.GetPopularTags | lib/services/tag/tag.service.ts:196-212 | The first `limit` (default 10) tags by quote count. |
| TagService.Search | lib/services/tag/tag.service.ts:217-243 | For a non-blank query: exactly the first `limit` (default 10) matching tags in order, or all matches when fewer. |
| TagService.BlankSearchIsPopular | lib/services/tag/tag.service.ts:218-220 | A whitespace-only query answers exactly the popular tags. |
| QuoteTagService.GetTagBySlug | lib/services/public-quote/quote-tag.service.ts:23-38 | NOT_FOUND exactly when no tag has the slug. |
| QuoteTagService.QuoteOrderOf | lib/services/public-quote/quote-tag.service.ts:75-87 | `popular` orders by likes and `alphabetical` by content; anything else orders by creation date. |
| QuoteTagService.GalleryView | lib/services/public-quote/quote-tag.service.ts:156-160 | Each link keeps its image and `isActive`. It is the background exactly when it is active and its url is the quote's background image. |
| QuoteTagService.WithTag | lib/services/public-quote/quote-tag.service.ts:92-98 | Every result carries the tag and is a given quote; every such quote is included. |
| QuoteTagService.WithTagAppend | lib/services/public-quote/quote-tag.service.ts:92-98 | The tag filter decides quote by quote: a tagged quote is kept once in its place, so the tag's quotes keep the requested sort order. |
| QuoteTagService.View | lib/services/public-quote/quote-tag.service.ts:148-163 | The transform copies the quote and its author's quote count, takes the first author image, builds the gallery view and leaves both flags false. |
| QuoteTagService.Flagged | lib/services/public-quote/quote-tag.service.ts:166-178 | Each view is kept except its flags. Like and bookmark flags are true exactly for a truthy user with that relation. |
| QuoteTagService.GetQuotesByTag | lib/services/public-quote/quote-tag.service.ts:43-194 | BAD_REQUEST for an empty slug, then NOT_FOUND for an unknown tag. Otherwise the tag's quotes: the window at the raw-limit offset with the clamped page size. They carry gallery view, author image, count and user flags. `total` and `hasMore` are given. |
| PublicQuoteService.SortKeyOf | lib/services/public-quote/public-quote.service.ts:22 | `sortBy or 'recent'`. |
| PublicQuoteService.List | lib/services/public-quote/public-quote.service.ts:9-45 | `page or 1` and `limit or 12`, with no clamping. The items are the window, at most `limit`. `total` and `hasMore` are given. |
| PublicQuoteService.ListLimitUnclamped | lib/services/public-quote/public-quote.service.ts:10-11 | Limit 100 on page 2 returns rows 100..199. |
| PublicQuoteService.Summary | lib/services/public-quote/public-quote.service.ts:92-98 | The author reduced to id, name, slug, first image and bio. |
| PublicQuoteService.FindSlug | lib/services/public-quote/public-quote.service.ts:51-87 | The quote with the slug, or -1 exactly when there is none. |
| PublicQuoteService.GetQuoteBySlug | lib/services/public-quote/public-quote.service.ts:47-111 | Null exactly for an unknown slug. Otherwise that quote with its author summary, and each gallery link's image and flags as stored. |
| QuotesRoute.ForwardedGallery | app/api/quotes/route.ts:47-51 | One entry per gallery id, in order. Each is active and background exactly when its id is the body's `backgroundImage`. |
| QuotesRoute.Post | app/api/quotes/route.ts:9-77 | 401 without a user, then 403 for roles other than ADMIN and AUTHOR. An unparseable body gives 500 and a schema failure gives 400 VALIDATION_ERROR. Otherwise the service's answer, its failures mapped; data is returned only from a successful create. |
| QuotesRoute.Param | app/api/quotes/route.ts:89-91 | `get(name) or undefined`: present exactly when it is truthy. |
| QuotesRoute.PageOf | app/api/quotes/route.ts:84 | `max(1, n or 1)`: at least 1, and the parameter itself when it is at least 1. |
| QuotesRoute.GetQuery | app/api/quotes/route.ts:84-110 | Page at least 1 and limit clamped to 1..50 (default 10). The search is trimmed. `authorId=me` means the session user; other filters are present only when truthy. |
| QuotesRoute.Get | app/api/quotes/route.ts:79-130 | 401 without a user. Otherwise the service's list, and any failure is 500 INTERNAL_ERROR. |
| GalleryRoute.OrText | app/api/gallery/route.ts:38-39 | `p or d` on a parameter. |
| GalleryRoute.ListQuery | app/api/gallery/route.ts:26-50 | Page at least 1 and limit clamped to 1..50 (default 20). The search is trimmed. `isGlobal` holds only for exactly `"true"`. Formats are comma-split. Sort defaults to `createdAt`/`desc`. |
| GalleryRoute.FormatsRoundTrip | app/api/gallery/route.ts:35 | The split formats joined back give the parameter. |
| GalleryRoute.Get | app/api/gallery/route.ts:14-66 | 401 without a user, before the query is read. Otherwise the service's list with its failures mapped. |
| GalleryRoute.Post | app/api/gallery/route.ts:69-112 | 401 without a user, 500 for an unparseable body, and 400 VALIDATION_ERROR without creating. Otherwise the service's create with failures mapped. |
| SuggestionsRoute.Normalise | app/api/search/suggestions/route.ts:32-34 | The query is trimmed (empty when absent). The limit is clamped to 1..10 (default 5). Trending is on unless the parameter is exactly `"false"`. |
| SuggestionsRoute.PopularScores | app/api/search/suggestions/route.ts:40-46 | One suggestion per popular query, in order, scored `1 - index/n`. |
| SuggestionsRoute.PopularScoresOrdered | app/api/search/suggestions/route.ts:43 | The first score is 1, scores strictly decrease, and all lie in (0, 1]. |
| SuggestionsRoute.Get | app/api/search/suggestions/route.ts:25-77 | An empty query with trending gives the scored popular list. A non-empty query gives the service's suggestions. Anything else gives an empty answer. Any failure is 500 INTERNAL_ERROR. |
| SuggestionsRoute.BlankQueryIsEmpty | app/api/search/suggestions/route.ts:32 | A whitespace-only query counts as empty. |
| EditQuoteForm.FirstActiveLink | components/quotes/edit-quote-form.tsx:62 | The first active link, or -1 exactly when none is active. |
| EditQuoteForm.InitialSelection | components/quotes/edit-quote-form.tsx:60-64 | Starts from the quote's background. The public id is that of the first active link, when non-empty. The background flag is set exactly for a non-empty background. |
| EditQuoteForm.InitialGallery | components/quotes/edit-quote-form.tsx:66-72 | One item per link, in order, keeping `isActive`. An item is the background exactly when its url is the quote's background. |
| EditQuoteForm.ImageSelected | components/quotes/edit-quote-form.tsx:195-201 | The same images in the same order, active exactly at the image's id and background exactly at its url. |
| EditQuoteForm.FindId | components/quotes/edit-quote-form.tsx:208 | The first item with the id, or -1 exactly when there is none. |
| EditQuoteForm.WithoutId | components/quotes/edit-quote-form.tsx:210-212 | Exactly the items without that id; an absent id changes nothing. |
| EditQuoteForm.WithoutIdAppend | components/quotes/edit-quote-form.tsx:210-212 | Removal keeps the order of what remains. |
| EditQuoteForm.NewSelections | components/quotes/edit-quote-form.tsx:223-226 | Every result is a chosen image whose id is not yet in the list; every such image is included. |
| EditQuoteForm.NewSelectionsAppend | components/quotes/edit-quote-form.tsx:223-239 | The filter decides image by image: an unlisted chosen image is kept once in its place and a listed one dropped, so exactly the unlisted chosen images are appended, in the order chosen. |
| EditQuoteForm.Unflagged | components/quotes/edit-quote-form.tsx:223-239 | An added image is neither active nor background. |
| EditQuoteForm.PayloadGallery | components/quotes/edit-quote-form.tsx:97-101 | One entry per item, in order. Both flags are equal, and set exactly when the item's url is the selected url. |
| EditQuoteForm.TagIds | components/quotes/edit-quote-form.tsx:104 | The ids of the tags, in order. |
| EditQuoteForm.Disconnected | components/quotes/edit-quote-form.tsx:105-107 | Exactly the original tags that are no longer selected. |
| EditQuoteForm.SubmitPayload | components/quotes/edit-quote-form.tsx:94-109 | Form fields are passed through with the selected background and the gallery flags. All selected tags are connected. Disconnected tags are original, never connected, and include every dropped original. |
| EditQuoteForm.EditForm.constructor | components/quotes/edit-quote-form.tsx:53-82 | Initial selection, gallery, tags and form values from the quote. |
| EditQuoteForm.EditForm.HandleAutoGenerateSlug | components/quotes/edit-quote-form.tsx:136-148 | With empty content nothing changes. Otherwise the slug becomes `slugify` of the first 50 characters, and nothing else changes. |
| EditQuoteForm.EditForm.HandleImageSelect | components/quotes/edit-quote-form.tsx:189-205 | The image becomes the selection and the form background, and the list is reflagged. |
| EditQuoteForm.EditForm.HandleImageDeselect | components/quotes/edit-quote-form.tsx:207-221 | An unknown id changes nothing. Otherwise the id's items are removed. Selection and background are cleared exactly when the removed image was selected. |
| EditQuoteForm.EditForm.HandleGallerySelect | components/quotes/edit-quote-form.tsx:223-239 | Existing items stay in place; new chosen images are appended in order, unflagged. |
| ImageUpload.DropIndex | app/manage/author-profiles/create/components/image-upload.tsx:43-47 | Removes exactly the element at the index; an index outside the list removes nothing. |
| ImageUpload.ImageField.constructor | app/manage/author-profiles/create/components/image-upload.tsx:22 | The field holds the given maximum and images. |
| ImageUpload.ImageField.UploadWidget | app/manage/author-profiles/create/components/image-upload.tsx:88-92 | The widget is offered exactly below the maximum. Its file allowance is at least 1 and fills up to the maximum. |
| ImageUpload.ImageField.Current | app/manage/author-profiles/create/components/image-upload.tsx:27 | The form's `images` value, or no images when it is unset. |
| ImageUpload.ImageField.HandleUploadSuccess | app/manage/author-profiles/create/components/image-upload.tsx:24-41 | A failed or info-less event, or a full list, changes nothing. Otherwise exactly one image is appended, so the list never exceeds the maximum. |
| ImageUpload.ImageField.HandleRemoveImage | app/manage/author-profiles/create/components/image-upload.tsx:43-47 | The list without the element at the index; never longer. |
| Sitemap.StaticRoutes | app/sitemap.ts:13-74 | Eight routes with distinct URLs, all stamped now. The home page is first with priority 1; the others are under the base URL with priority 0.8..0.9. |
| Sitemap.WithQuotes | app/sitemap.ts:79-85 | Exactly the tags with at least one quote. |
| Sitemap.MaxCount | app/sitemap.ts:106 | The largest quote count, attained by some tag of a non-empty selection. |
| Sitemap.TagPriority | app/sitemap.ts:107-108 | Priority in 0.5..0.8: linear in the count up to the maximum, and 0.8 at the maximum. |
| Sitemap.NormalizedAtMostOne | app/sitemap.ts:107 | A count at most the maximum normalises to at most 1. |
| Sitemap.TagPriorityMonotone | app/sitemap.ts:104-108 | More quotes never means a lower priority. |
| Sitemap.TagFrequency | app/sitemap.ts:112-114 | Weekly exactly above 20 quotes; otherwise monthly. |
| Sitemap.TagRoutes | app/sitemap.ts:103-122 | One route per tag with quotes, in order, with the tag URL. The stamp is the tag's update or now. Frequency and priority are set by count. |
| Sitemap.TopTagPriority | app/sitemap.ts:104-108 | The tag with the most quotes gets 0.8. |
| Sitemap.AuthorRoutes | app/sitemap.ts:195-200 | One weekly 0.7 route per author profile, in order. |
| Sitemap.QuoteRoutes | app/sitemap.ts:141-155 | Monthly 0.6 routes for featured quotes only, at most 1000, in order. |
| Sitemap.CategoryRoutes | app/sitemap.ts:223-228 | One weekly 0.6 route per category, in order. |
| Sitemap.Present | app/sitemap.ts:220 | `filter(Boolean)`: only present values, and every present value is kept. |
| Sitemap.PresentAppend | app/sitemap.ts:220 | `filter(Boolean)` keeps each present value once, in order: it splits over concatenation, keeps `Some(x)` as `x` and drops `None`. |
| Sitemap.TrendingPriority | app/sitemap.ts:218 | 0.9 minus 0.02 per rank, never below 0.7, and 0.7 from rank 10 on. |
| Sitemap.TrendingRoute | app/sitemap.ts:211-219 | None exactly without a quote or slug. Otherwise a daily route for the quote at its rank's priority. |
| Sitemap.TrendingCandidates | app/sitemap.ts:211 | Each entry is scored by its position among all entries, dropped ones included. |
| Sitemap.TrendingRoutes | app/sitemap.ts:211-220 | Every kept route is daily with priority in 0.7..0.9, and is the route of some entry at its own index. Every entry with a slug is kept. |
| Sitemap.TrendingRoutesSnoc | app/sitemap.ts:211-220 | One more entry appends its route, scored by its own position, exactly when it has a quote with a slug. |
| Sitemap.TrendingOrdered | app/sitemap.ts:218 | Down the trending list, priorities never rise. |
| Sitemap.TrendingMonotone | app/sitemap.ts:218 | A later rank never scores higher. |
| Sitemap.PresentNonIncreasing | app/sitemap.ts:220 | Filtering keeps a non-increasing order. |
| Sitemap.BirthdayRoute | app/sitemap.ts:231-240 | None exactly when the month or day is missing or 0. Otherwise the `<month>_<day>` page, monthly 0.6. |
| Sitemap.BirthdayRoutes | app/sitemap.ts:231-241 | Each route is some group's birthday route, and every group that has one contributes it. |
| Sitemap.BirthdayRoutesAppend | app/sitemap.ts:231-241 | The routes split over concatenation, and a single group gives its route exactly when it has one. |
| Sitemap.AllRoutes | app/sitemap.ts:244-252 | The candidates start with the static routes. |
| Sitemap.WinnerIndex | app/sitemap.ts:257-265 | The kept candidate for a URL, or -1 exactly when no candidate has it. |
| Sitemap.WinnerIsBest | app/sitemap.ts:262 | The kept candidate has the top priority for its URL; every earlier one is strictly lower. |
| Sitemap.FirstIndex | app/sitemap.ts:255-268 | The first candidate with a URL, or -1 exactly when there is none. |
| Sitemap.Finish | app/sitemap.ts:268 | The finished map's values are the deduplicated routes. |
| Sitemap.Next | app/sitemap.ts:258-265 | One loop turn: the URL is then held with a priority at least the route's and at least what it held before; a held route that is not outranked is kept; other entries stay in place. |
| Sitemap.Dedupe | app/sitemap.ts:255-268 | One route per URL, every candidate URL present. URLs are in first-candidate order, each holding its winning candidate, which has the top priority for its URL. |
| Sitemap.KeptIsBest | app/sitemap.ts:262-264 | No candidate outranks the kept route for its URL. |
| Sitemap.DedupeResult | app/sitemap.ts:255-268 | The map's values, once all candidates are in, are deduplicated. |
| Sitemap.Generate | app/sitemap.ts:5-269 | The sitemap is the deduplication of all candidates. |
| Auth.FindUser | auth.ts:32 | `getUserById`: none exactly when no user has the id. |
| Auth.WithoutConfirmation | auth.ts:47-49 | Exactly the user's confirmation is deleted. |
| Auth.SignInDecision | auth.ts:24-53 | Non-credentials providers are allowed. Credentials need a user id, a known verified user and, with two-factor, a confirmation, which is consumed. |
| Auth.ConfirmationIsSpent | auth.ts:39-50 | A confirmation admits one sign-in; the next is denied. |
| Auth.SignInKeepsOthers | auth.ts:47-49 | Other users' confirmations are never touched. |
| Auth.ImageOf | auth.ts:69-71 | The picture, else the image claim, else null. |
| Auth.Token.constructor | auth.ts:76 | A token with only its subject. |
| Auth.SessionUser.constructor | auth.ts:54 | An empty session user. |
| Auth.SessionCallback | auth.ts:54-75 | Id when `sub` is truthy and role when present. The flags become booleans; name and email are copied. The image is the picture, else the image claim. |
| Auth.AuthStore.constructor | auth.ts:10 | The given tables with unique user ids. |
| Auth.AuthStore.SignIn | auth.ts:24-53 | The answer and the new confirmations are those of the sign-in decision; users and accounts are unchanged. |
| Auth.AuthStore.Jwt | auth.ts:76-97 | Picture is set on an update with an image, and the image claim on sign-in. With a known `sub`, name, email, role, two-factor flag and OAuth flag are refreshed; otherwise they are kept. |
| Auth.AuthStore.LinkAccount | auth.ts:16-21 | Exactly that user's email becomes verified at `now`. A missing user throws without a write. |
| Auth.IndexOfUser | auth.ts:17-18 | The user's position, or -1 exactly when the id is missing. |
| Auth.UniqueUser | auth.ts:17-18 | With unique ids, the user found is the one at its position. |
| TagSort.Others | components/tags/TagSort.tsx:26 | The pairs of other names, in order. |
| TagSort.FirstNamed | components/tags/TagSort.tsx:26 | The first pair with the name, or -1 exactly when there is none. |
| TagSort.GetParam | components/tags/TagSort.tsx:25 | Absent exactly when no pair has the name. |
| TagSort.SetParamNamed | components/tags/TagSort.tsx:26 | After `set`, the name reads the value and is its only pair. |
| TagSort.SetParamOthers | components/tags/TagSort.tsx:26 | `set` leaves the pairs of other names and their order unchanged. |
| TagSort.OthersFirst | components/tags/TagSort.tsx:29 | Dropping one name keeps another's value. |
| TagSort.HandleSortChange | components/tags/TagSort.tsx:24-32 | `sort` reads the value and `page` reads `"1"`. Every other pair is carried over in order. |
| TagSort.SortLabel | components/tags/TagSort.tsx:35-46 | Popular and alphabetical get their labels; anything else is "Most Recent". |
| TagSort.SelectedSort | components/tags/TagSort.tsx:57 | `sort or "recent"`. |
| SearchAnalytics.ChartLabel | app/manage/analytics/search/components/SearchAnalyticsDashboard.tsx:65 | The query if at most 15 characters, else its first 15 and `...`; never more than 18. |
| SearchAnalytics.ChartRows | app/manage/analytics/search/components/SearchAnalyticsDashboard.tsx:64-68 | The first ten rows, in order, each with the label, count and full query. |
| SearchAnalytics.ChartData | app/manage/analytics/search/components/SearchAnalyticsDashboard.tsx:64-74 | Both charts once data is loaded; none before. |
| SearchAnalytics.FirstQueryOrNA | app/manage/analytics/search/components/SearchAnalyticsDashboard.tsx:168 | "N/A" exactly when there is no first query, or it is empty or itself "N/A"; otherwise that query. |
| SearchAnalytics.PopularSearchCard | app/manage/analytics/search/components/SearchAnalyticsDashboard.tsx:168 | The top query or "N/A". |
| SearchAnalytics.ZeroResultsCard | app/manage/analytics/search/components/SearchAnalyticsDashboard.tsx:183 | The top zero-result query or "N/A". |

## Left out

- Database ordering by columns the model does not hold (likes, download counts, quote counts, ranks) is taken as given: rows arrive in the order the query returns them.
- Timestamps: `new Date()` becomes a counter the stores keep, or a `now` parameter. `createMany` stamps rows consecutively from that counter.
- processEmailNotificationsAsync (email fan-out, preferences and templates) is not modelled. It is asynchronous I/O, and only its tag-name sanitising is modelled (`NotificationService.SanitizeTagName`).
- Nested relation includes and writes are not modelled: tag connect/disconnect, gallery link creation inside `create` and `update`, `_count` selections. Only the rows and fields the modelled promises are about are kept.
- Negative `skip` and `take` follow the model's window, not Prisma. The window reads a negative skip (page 0 or below) as 0, and Prisma's own handling of it is not modelled. Prisma accepts a negative `take` and then counts from the end of the ordering; the window returns no rows instead. So `limit = -5` in quote `list` or in `getUserNotifications` returns rows in the source and `[]` in the model.
- A database call that throws inside a service is not modelled, except for the writes of quote `create` and `update` and the second write of `updateActiveBackground`. The source catches such a failure and throws INTERNAL_ERROR (500) in every notification service method (`createNotification`, `createQuoteNotificationsForFollowers`, `getUserNotifications`, `getUnreadCount`, `markAsRead`, `markAllAsRead`, `deleteNotification`), in every reply service method (`createReply`, `getById`, `getReplyWithLikeStatus`, `listReplies`, `updateReply`, `deleteReply`), in `getQuotesByTag`, and in the display service's `getQuoteBySlug` and `getQuoteBackgrounds`. The model's tables never fail in these operations.
- Foreign code is passed in as parameters:
  - `slugify`
  - the database's case-insensitive `contains`
  - zod's URL check
  - the ownership check behind `validateAccess`
  - the like, bookmark and follow services
  - `createQuoteSchema` and `createGallerySchema`
  - the gallery and analytics services
  - `getMaxFiles`
  - `MONTH_NAMES`
- QuoteAccessError's own code and status are not part of this model, because that module is not among the modelled files. The routes treat it as a non-AppError, which is a 500.
- QuotesRoute.Post and QuotesRoute.Get call the create and list operations as parameters. The route imports a quote service module that is not part of this model.
- String lengths count characters, not UTF-16 code units.
- QuotesRoute.GetQuery, GalleryRoute.ListQuery, SuggestionsRoute.Normalise: `Number(searchParams.get(...))` is taken as an already parsed integer or absent. A missing or non-numeric parameter (NaN) is absent. A fractional value such as `"2.5"` gives page 2.5 in the source, and the model cannot express it, because non-integer numbers are not modelled.
- Sitemap.TrendingPriority, SuggestionsRoute.PopularScores: JavaScript floating point is modelled as exact reals. The source gives 0.8400000000000001 at trending rank 3 and 0.33333333333333337 as the third of three popularity scores. The model gives 0.84 and 1/3.
- Sitemap.TagPriority: the priority is an exact rational, with no `toFixed(2)` rounding. When the largest count is 0 the source divides by zero; no tag reaches that case, because only tags with quotes are selected.
- The dashboard's number formatting (`toLocaleString`, click-through percentage), fetching, loading and error states, and all React rendering, toasts and `router.push` are I/O or presentation and are not modelled.
- URL serialisation of the query string in TagSort is not modelled; the model works on the list of pairs.
- generateDownloadImage is not modelled. It draws with html2canvas in the browser.
- `auth()` and `req.json()` throwing are modelled only as an absent session or body.
- NextAuth's adapter and provider internals, and the `pages` configuration, are not modelled.
- Auth.SessionCallback: models a session that has a user. Without `session.user` the callback changes nothing, and there is no object to update.
- QuoteDisplayService.FontSize: the contract states the bounds and the two end bands, and FontSizeNonIncreasing states monotonicity. The intermediate thresholds (240, 300, …, 600) are not restated in the contract.
- ReplyService IndexOfId serves as `getById`. The separate `getById` with its include is not modelled.
- The notification and reply services check NOT_FOUND before FORBIDDEN, so a foreign missing id is NOT_FOUND. The model follows that code order.
