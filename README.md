# A Dafny model of a developer portfolio's logic

The portfolio is a Next.js site with an Express blog API. Most of it is markup. The parts
that compute something are modelled here and proved correct against a specification:

- **The simulated terminal page** (`Terminal`, `TerminalState`). It keeps four pieces of
  state: a draft line, a most-recent-first command history, a recall cursor, and a
  transcript of numbered entries.
  - Typed lines are trimmed, lower-cased, split on single spaces, and dispatched on their
    first word.
  - Up and Down walk the history; Tab completes against eleven command names.
  - Rendered output is an opaque tag (`Help`, `ProjectDetail(p)`, `UsageError`, …).
  - Every handler is a function from the old state to the new one. The class
    `TerminalPage` holds the four fields, and each of its methods is proved to change them
    exactly as that function says.
- **The certification carousel** (`Carousel`): a ring of cards with one active index.
  - The arrows, the dots and the keyboard move the index.
  - Each card gets a position class, a horizontal offset, a stacking order and a badge,
    all relative to the active card. The footer message shows whether the active card is
    unlocked.
- **The projects section** (`Projects`): the category filter, the rule for which link
  buttons a card shows, and the cycling colours of the technology tags.
- **The blog page** (`BlogPage`): filtering posts by category tab and search box, and
  splitting the result into a highlighted section and a regular section.
- **The home page blog section** (`BlogHome`): the posts are sorted featured first and
  newest first, then the first three are taken. A fetch failure leaves no posts.
- **The blog API controller** (`BlogController`):
  - the SQL text and parameter array of the post list and of the count query, with
    placeholders numbered by the parameter count at the time they are appended;
  - the pagination object;
  - the status and body of every response of the three handlers.

  The database is a parameter of each handler: a function from a query and its
  parameters to its rows, or to a thrown error.

Shared modules:

- `Js` gives the JavaScript semantics the code relies on:
  - `trim` over ECMAScript's whitespace set, ASCII `toLowerCase`, `split` on one
    character, `startsWith` and `includes`;
  - `Number.parseInt`, including signs, leading whitespace and the `0x` prefix;
  - template-literal printing of integers, and the truncating remainder `%`.
- `Lists` gives `filter`, `find` and `slice(0, n)` with their properties.
- `Options` and `Api` hold the shared types.

Where the code and its documentation differ, the model follows the code:

- `clear` never goes through `addResult`, so it is never recorded in the history.
- What the history records is the entry's command (`project 2`, the normalised line),
  not the line as typed.
- Pressing Down at cursor -1 still empties the draft.
- An ambiguous Tab completion records the draft in the history.
- `parseInt` is modelled with its hexadecimal form, as JavaScript evaluates it.

## Model

| member | source | states |
|---|---|---|
| TerminalState.Initial | app/terminal/page.tsx:17-48 | The first state (empty draft and history, cursor -1, one welcome entry with id 0) satisfies the page invariant. |
| TerminalState.ApplyKeepsConsistent | app/terminal/page.tsx:138-151 | Appending an entry or clearing keeps the invariant: every id equals its position, the transcript is non-empty, the cursor stays in [-1, len-1], and no blank command is in the history. |
| TerminalState.TerminalPage.constructor | app/terminal/page.tsx:17-48 | The page starts in the initial state. |
| TerminalState.TerminalPage.HandleInputChange | app/terminal/page.tsx:64-66 | Typing replaces the draft and changes nothing else. |
| TerminalState.TerminalPage.AddResult | app/terminal/page.tsx:138-151 | The command is put at the front of the history exactly when it is non-blank after trimming. An entry whose id is the old transcript length is appended. The invariant is kept. |
| TerminalState.TerminalPage.ClearTerminal | app/terminal/page.tsx:824-839 | The transcript becomes the single "cleared" entry with id 0 and an empty command. The history, cursor and draft are untouched. |
| TerminalState.TerminalPage.ExecuteCommand | app/terminal/page.tsx:153-215 | The page moves to the state that dispatching the line gives: append its entry, or reset. |
| TerminalState.TerminalPage.ClickHelpButton | app/terminal/page.tsx:881 | The header button appends the `help` entry and records `help` in the history, leaving the draft and cursor alone. |
| TerminalState.TerminalPage.NavigateHistory | app/terminal/page.tsx:85-97 | The cursor and draft change exactly as `Navigate` says, and the invariant is kept. |
| TerminalState.TerminalPage.AutocompleteCommand | app/terminal/page.tsx:99-136 | The state changes exactly as `Autocomplete` says, and the invariant is kept. |
| TerminalState.TerminalPage.HandleKeyDown | app/terminal/page.tsx:68-83 | The state changes exactly as `KeyDown` says for Enter, the two arrows, Tab and any other key, and the invariant is kept. |
| TerminalState.Navigate | app/terminal/page.tsx:85-97 | With an empty history nothing changes. Otherwise the cursor stays in [-1, len-1], a cursor at an entry loads that entry, and a cursor at -1 loads the empty draft. |
| TerminalState.DownAfterUp | app/terminal/page.tsx:88-96 | Below the oldest entry, Down undoes Up, restoring the cursor and the entry it shows (the empty draft at -1). |
| TerminalState.UpAfterDown | app/terminal/page.tsx:88-96 | From any entry, Up undoes Down. |
| TerminalState.UpTimes | app/terminal/page.tsx:88-91 | Any number of Up presses keeps the cursor in range. |
| TerminalState.UpRepeated | app/terminal/page.tsx:88-91 | `k` presses of Up put the cursor at `min(cursor + k, len - 1)` and load that entry; there is no wrap-around. |
| TerminalState.KeyDown | app/terminal/page.tsx:68-83 | Every key keeps the cursor within the history. |
| TerminalState.Submit | app/terminal/page.tsx:69-72 | Typing a line and pressing Enter keeps the cursor within the history. |
| TerminalState.KeyDownKeepsConsistent | app/terminal/page.tsx:68-83 | Every key keeps the page invariant. |
| TerminalState.BlankEnterIgnored | app/terminal/page.tsx:69 | Enter on an empty or whitespace-only draft changes nothing. |
| TerminalState.SubmitAddsOneEntry | app/terminal/page.tsx:69-72 | A non-blank submission empties the draft and resets the cursor. Unless it is `clear`, it adds exactly one transcript entry (with the dispatched command and output) and puts that command at the front of the history. `clear` leaves the single cleared entry and the history as it was. |
| TerminalState.RecallAfterSubmit | app/terminal/page.tsx:73-75 | Up right after a submission recalls the command as recorded (the normalised line, or `project <id>`). |
| TerminalState.SubmitClear | app/terminal/page.tsx:201-203 | Submitting `clear` resets the transcript, empties the draft, resets the cursor, and leaves the history unchanged. |
| TerminalState.AutocompleteUnique | app/terminal/page.tsx:115-117 | With exactly one candidate, the draft becomes the only name that starts with the lower-cased draft, and nothing else changes. |
| TerminalState.AutocompleteAmbiguous | app/terminal/page.tsx:118-141 | With two distinct candidates, the draft and cursor are kept, and one entry listing every candidate in list order is appended under the draft as typed. Because that entry goes through `addResult`, the history becomes what `addResult` makes of the draft: it is put at the front when non-blank. |
| TerminalState.AutocompleteAmbiguousRemembers | app/terminal/page.tsx:100-141 | With the page's own names, an ambiguous draft always starts with a letter, so Tab puts it at the front of the history and keeps it as the draft. |
| TerminalState.PrefixOfWordNotBlank | app/terminal/page.tsx:115 | A non-empty draft that a lower-case word starts with, after lower-casing, is not blank. |
| TerminalState.AutocompleteNoCandidate | app/terminal/page.tsx:114-116 | An empty draft, or a draft no name starts with, leaves the state unchanged. |
| Terminal.ProjectLinks | app/terminal/page.tsx:310-377 | In the detail view, projects 1 and 4 show their link and projects 2 and 3 show their repository; no other link is shown. |
| Terminal.CertificationLinks | app/terminal/page.tsx:549-582 | A certification shows its certificate link exactly when it is unlocked. |
| Terminal.ProjectIds | app/terminal/page.tsx:310-377 | The project catalog has four entries with ids 1 to 4, in order. |
| Terminal.FindProjectById | app/terminal/page.tsx:414 | The lookup by id finds a project exactly when the id is 1 to 4, and then it is the entry at position id-1. |
| Terminal.ShowProjectDetails | app/terminal/page.tsx:413-484 | The entry is recorded under `project ${id}`. Its output is the detail view of the catalog entry exactly when the id is 1 to 4, and "not found" for that id otherwise. |
| Terminal.ShowCertifications | app/terminal/page.tsx:584-619 | The unlocked list and the upcoming list split the catalog between them, each keeping exactly the certifications of its kind, in catalog order. The teaser is shown exactly when the upcoming list is non-empty. |
| Terminal.CatalogCertificationsView | app/terminal/page.tsx:549-619 | For the page's catalog, three certifications are listed, the fourth is the only upcoming one, and the teaser is shown. |
| Terminal.RouteDomain | app/terminal/page.tsx:158-200 | The names with an argument-free branch are exactly the completion names other than `clear`. |
| Terminal.DispatchRoutes | app/terminal/page.tsx:153-215 | A line resets the transcript exactly when its first word is `clear`. A routed name is recorded under that name with its output. An unknown first word is recorded as the normalised line with an "unknown command" output naming it. |
| Terminal.SelectRoutes | app/terminal/page.tsx:158-214 | The same three facts for any first word, normalised line and word list. |
| Terminal.DispatchProject | app/terminal/page.tsx:168-177 | `project` with a missing second piece, or one `parseInt` rejects, is a usage error recorded under the normalised line; otherwise the parsed id goes to `showProjectDetails`. A double space leaves the second piece empty, so that line is a usage error. |
| Terminal.NormalizeNonBlank | app/terminal/page.tsx:154 | Trimming and lower-casing keep a non-blank line non-blank. |
| Terminal.DispatchRecordsNonBlank | app/terminal/page.tsx:139-141 | Every entry a non-blank line produces carries a non-blank command, so it reaches the history. |
| Terminal.SelectRecordsNonBlank | app/terminal/page.tsx:158-214 | For any first word, a non-blank normalised line is recorded under a non-blank command. |
| Terminal.CommandNamesAreWords | app/terminal/page.tsx:100-112 | Every completion name is a non-empty run of lower-case letters. |
| Terminal.LowercaseWord | app/terminal/page.tsx:154-155 | A lower-case word normalises to itself and splits into itself alone. |
| Terminal.DispatchName | app/terminal/page.tsx:153-158 | Typing a completion name runs the branch of that name. |
| Terminal.DispatchHelp | app/terminal/page.tsx:159-161 | `help` appends the help entry under `help`. |
| Terminal.DispatchAbout | app/terminal/page.tsx:162-164 | `about` appends the about entry under `about`. |
| Terminal.DispatchClear | app/terminal/page.tsx:201-203 | `clear` resets the transcript. |
| Terminal.MatchesSpec | app/terminal/page.tsx:115 | The completions are exactly the listed names the lower-cased draft is a prefix of, in list order. |
| Terminal.ProjectNotCompleted | app/terminal/page.tsx:100-112 | `project` is not a completion name. |
| Js.TrimIsCore | app/terminal/page.tsx:154 | `trim` leaves a core that starts and ends with non-whitespace, and only whitespace around it. |
| Js.TrimBlank | app/terminal/page.tsx:69 | A string trims to empty exactly when it is all whitespace. |
| Js.TrimIdempotent | app/terminal/page.tsx:154 | Trimming twice is trimming once. |
| Js.LowerIdempotent | app/terminal/page.tsx:154 | Lower-casing twice is lower-casing once. |
| Js.LowerOfTrimmedIsTrimmed | app/terminal/page.tsx:154 | A trimmed line stays trimmed after lower-casing. |
| Js.Split | app/terminal/page.tsx:155 | `split` gives at least one piece, no piece contains the separator, and joining the pieces with it rebuilds the string. |
| Js.SplitJoin | app/terminal/page.tsx:155 | Splitting a join of separator-free pieces gives the pieces back. |
| Js.ParseIntToString | app/terminal/page.tsx:169-170 | Over the model's unbounded integers, `parseInt` reads back the decimal text `${n}` gives, sign included. |
| Js.ParseIntStopsAtNonDigit | app/terminal/page.tsx:169 | `parseInt("5abc")` is 5: the digit prefix is read and the rest ignored. |
| Js.Rem | components/certifications.tsx:64 | `%` is the remainder of truncating division: its sign follows the dividend and its size is below the divisor's. |
| Js.RemNonNegative | components/certifications.tsx:108 | For a non-negative dividend and a positive divisor, `%` is the mathematical remainder. |
| Lists.FilterIsSubsequence | app/blog/page.tsx:29 | `filter` keeps an order-preserving sub-list. |
| Lists.FilterMembership | app/blog/page.tsx:29 | An element is kept exactly when it is in the list and passes the test. |
| Lists.Find | app/terminal/page.tsx:414 | `find` returns a value exactly when some element passes, and then it is the first one that does. |
| Lists.Take | components/blog.tsx:32 | `slice(0, n)` is the prefix of length `min(n, len)`. |
| Carousel.Next | components/certifications.tsx:84-87 | The right arrow's index stays in [0, n). |
| Carousel.Prev | components/certifications.tsx:79-82 | The left arrow's index stays in [0, n). |
| Carousel.NextWraps | components/certifications.tsx:84-87 | The right arrow goes from the last card to the first and otherwise steps by one. |
| Carousel.PrevNext | components/certifications.tsx:79-87 | Each arrow undoes the other. |
| Carousel.NextTimes | components/certifications.tsx:63-64 | Any number of autoplay ticks keeps the index in range. |
| Carousel.NextTimesIsAddition | components/certifications.tsx:63-64 | `k` ticks advance the index by `k` modulo `n`. |
| Carousel.FullTurn | components/certifications.tsx:63-64 | After `n` ticks the same card is active again. |
| Carousel.Diff | components/certifications.tsx:108 | The position difference lies in [0, n). |
| Carousel.DiffIsDistance | components/certifications.tsx:108 | The difference is the forward distance from the active card round the ring. |
| Carousel.ActiveExactly | components/certifications.tsx:107-109 | A card is "active" exactly when it is the active index. |
| Carousel.AdjacentAreNeighbours | components/certifications.tsx:110-111 | A card is "adjacent" exactly when it is one step before or after the active card and is not active itself; all other cards are "distant". |
| Carousel.OffsetPlacement | components/certifications.tsx:152-163 | Only the active card is centred. A card is shifted 30% exactly when it is adjacent and 50% exactly when it is distant. It goes right exactly when it lies at most half the ring ahead. |
| Carousel.NeighbourSides | components/certifications.tsx:152-163 | The next card is drawn 30% to the right and, with three or more cards, the previous one 30% to the left. |
| Carousel.ActiveOnTop | components/certifications.tsx:164-165 | The active card is stacked above every other card. |
| Carousel.Dots | components/certifications.tsx:382-394 | There is one dot per card, and exactly the active one is marked. |
| Carousel.FooterUnlocked | components/certifications.tsx:424-426 | The footer says "Logro Desbloqueado" exactly when the active certification is unlocked. |
| Carousel.ActiveBadgeMatchesFooter | components/certifications.tsx:285-317 | The active card shows the certificate button when unlocked and "Próximamente..." otherwise, matching the footer; inactive cards show neither. |
| Carousel.CatalogLockedLast | components/certifications.tsx:14-51 | The carousel has four certifications and only the last one is locked. |
| Carousel.CertificationCarousel.constructor | components/certifications.tsx:14-53 | The carousel starts on the first card of its catalog. |
| Carousel.CertificationCarousel.HandlePrev | components/certifications.tsx:79-82 | The active index becomes `Prev` of the old one and stays valid. |
| Carousel.CertificationCarousel.HandleNext | components/certifications.tsx:84-87 | The active index becomes `Next` of the old one and stays valid. |
| Carousel.CertificationCarousel.HandleDotClick | components/certifications.tsx:89-92 | The active index becomes the clicked dot's index, and that dot is the marked one. |
| Carousel.CertificationCarousel.HandleKey | components/certifications.tsx:95-101 | The left arrow acts as `handlePrev`, the right arrow as `handleNext`, and any other key does nothing. |
| Projects.FilterProjectsSpec | components/projects.tsx:55-60 | "Todos" shows every project. Any other filter shows, in order, exactly the projects of that category. |
| Projects.InDevelopmentIffNoButton | components/projects.tsx:141-166 | The "Proyecto en desarrollo" note shows exactly when neither the code button nor the demo button does. |
| Projects.CatalogButtons | components/projects.tsx:14-52 | In the catalog, projects 2 and 3 show the code button, 1 and 4 the demo button, and no card shows the note. |
| Projects.ColorIndex | components/projects.tsx:201 | A tag's colour index is always one of the six colours. |
| Projects.ColorCycle | components/projects.tsx:193-201 | The first six tags take the colours in order, and the colours then repeat every six tags. |
| Projects.TagColors | components/projects.tsx:191-201 | Each tag of a card gets a valid colour, and the first six get distinct ones in order. |
| BlogPage.FilteredIsSubsequence | app/blog/page.tsx:29-46 | The filtered posts are an order-preserving sub-list of the posts. |
| BlogPage.FilteredMembership | app/blog/page.tsx:29-46 | A post is shown exactly when it is in the active category (or the tab is "all") and, when the query is not blank, its lower-cased title, excerpt or category name contains the lower-cased untrimmed query. |
| BlogPage.FilteredCategory | app/blog/page.tsx:31-33 | Under a tab other than "all", every shown post has that category. |
| BlogPage.FilteredIdentity | app/blog/page.tsx:29-46 | The "all" tab with a blank query shows every post in order. |
| BlogPage.ShowAllShowsEverything | app/blog/page.tsx:281-284 | After the reset button, every post is shown again. |
| BlogPage.BlankQueryIgnored | app/blog/page.tsx:36 | A whitespace-only query filters exactly like an empty one. |
| BlogPage.SectionsPartition | app/blog/page.tsx:48-49 | The highlighted and regular sections are disjoint, order-preserving sub-lists of the filtered posts. Together they cover every filtered post whose `is_highlighted` is 1, 0 or absent, and a post with any other value is in neither. |
| BlogPage.EmptyStateIffNoRegular | app/blog/page.tsx:230 | The empty-state message shows exactly when no filtered post is regular. |
| BlogHome.CompareConsistent | components/blog.tsx:22-29 | The comparator is antisymmetric, and the order it induces is total and transitive. |
| BlogHome.SortedMeans | components/blog.tsx:22-29 | Being sorted means featured posts come before the others and, within each group, newer posts come first. |
| BlogHome.Insert | components/blog.tsx:22 | Insertion adds the element to the multiset of the list. |
| BlogHome.InsertSorted | components/blog.tsx:22-29 | Inserting into a sorted list keeps it sorted. |
| BlogHome.SortPosts | components/blog.tsx:22 | The sorted copy is a permutation of the fetched posts. |
| BlogHome.SortPostsSorted | components/blog.tsx:22-29 | The sorted copy is sorted. |
| BlogHome.SortPostsKeepsSorted | components/blog.tsx:22-29 | A list already in order is left unchanged. |
| BlogHome.LatestSpec | components/blog.tsx:22-32 | The shown posts number `min(3, fetched)`. They are sorted and drawn from the fetched posts, and every post left out sorts after every post shown. |
| BlogHome.BlogSection.constructor | components/blog.tsx:12-13 | No posts, and loading, before the fetch. |
| BlogHome.BlogSection.FetchPosts | components/blog.tsx:16-39 | Loading ends in both outcomes. On success the posts are the first three sorted; on failure there are none. |
| BlogController.BuildPostsQuery | controllers/blog.controller.ts:11-26 | The step-by-step build (appending text, pushing parameters, numbering `LIMIT` and `OFFSET` by the current parameter count) gives exactly `PostsQuery`. |
| BlogController.PostsQueryBindings | controllers/blog.controller.ts:18-26 | The placeholders are `$1…$k` in order, with `k` the parameter count: 2 without a category, 3 with one. `LIMIT` binds the limit, `OFFSET` the offset, and with a category the filter's `$1` binds it. |
| BlogController.FilterPiecesText | controllers/blog.controller.ts:21 | The category filter spells ` AND c.slug = $1`. |
| BlogController.PostsQueryText | controllers/blog.controller.ts:11-25 | The whole post-list query as literal text: the select, then ` ORDER BY p.published_at DESC LIMIT $1 OFFSET $2` without a category, or ` AND c.slug = $1 ORDER BY p.published_at DESC LIMIT $2 OFFSET $3` with one. |
| BlogController.PagingPiecesText | controllers/blog.controller.ts:25 | After `n` parameters, the paging clause spells `… LIMIT $(n+1) OFFSET $(n+2)`, the numbers printed as JavaScript prints them. |
| BlogController.RenderAppend | controllers/blog.controller.ts:11-25 | The text of appended pieces is the concatenation of their texts, so `+=` on pieces is `+=` on the SQL string. |
| BlogController.CountQuery | controllers/blog.controller.ts:31-34 | With a category, the count query has the subselect on `$1` and the parameters `[category]`; without one, no placeholder and `[]`. |
| BlogController.OffsetPages | controllers/blog.controller.ts:9 | The first page starts at row 0, and each further page starts `limit` rows later. |
| BlogController.TotalPages | controllers/blog.controller.ts:42 | `Math.ceil(count / limit)`: a limit of 0 gives a non-finite value. A positive limit gives the page count `p` with `(p-1)·limit < count ≤ p·limit`; a negative limit gives the corresponding bounds. |
| BlogController.TotalPagesFewest | controllers/blog.controller.ts:42 | With a positive limit, the page count is the fewest pages that hold every row, and no rows means no pages. |
| BlogController.GetPosts | controllers/blog.controller.ts:6-48 | With page and limit defaulting to 1 and 10: 500 with the fixed message when either query throws; otherwise 200 with the rows and `{total, page, per_page, total_pages}`. |
| BlogController.SlugQuery | controllers/blog.controller.ts:55-61 | The single-post query has one placeholder `$1` bound to the slug. |
| BlogController.GetPostBySlug | controllers/blog.controller.ts:51-71 | Status 500 exactly when the query throws, 404 exactly when it returns no row, and 200 exactly when it returns one, each with its body (the first row, "Post no encontrado", or the fixed error). |
| BlogController.GetCategories | controllers/blog.controller.ts:74-88 | Status 200 with every row exactly when the query succeeds, and 500 with the fixed message exactly when it throws. |
| Terminal.Dispatch | app/terminal/page.tsx:153-215 | Definition; its properties are in DispatchRoutes, DispatchProject and DispatchName. |
| Terminal.Select | app/terminal/page.tsx:158-214 | Definition; its properties are in SelectRoutes and SelectRecordsNonBlank. |
| Terminal.ProjectCommand | app/terminal/page.tsx:168-177 | Definition; its properties are in DispatchProject. |
| Terminal.Route | app/terminal/page.tsx:158-200 | Definition; its properties are in RouteDomain. |
| Terminal.Normalize | app/terminal/page.tsx:154 | Definition; its properties are in NormalizeNonBlank and LowercaseWord. |
| Terminal.FindProject | app/terminal/page.tsx:414 | Definition; its properties are in FindProjectById. |
| Terminal.MatchesIn | app/terminal/page.tsx:115 | Definition; its properties are in MatchesSpec. |
| TerminalState.Apply | app/terminal/page.tsx:138-151 | Definition; its properties are in ApplyKeepsConsistent. |
| TerminalState.Execute | app/terminal/page.tsx:153-215 | Definition; its properties are in SubmitAddsOneEntry and SubmitClear. |
| TerminalState.NavigateIn | app/terminal/page.tsx:85-97 | Definition; its properties are in Navigate, DownAfterUp, UpAfterDown and UpRepeated. |
| TerminalState.AutocompleteWith | app/terminal/page.tsx:114-141 | Definition; its properties are in AutocompleteUnique, AutocompleteAmbiguous and AutocompleteNoCandidate. |
| TerminalState.Autocomplete | app/terminal/page.tsx:99-141 | Definition; its properties are in AutocompleteAmbiguousRemembers. |
| Carousel.PositionClass | components/certifications.tsx:107-112 | Definition; its properties are in ActiveExactly and AdjacentAreNeighbours. |
| Carousel.XOffset | components/certifications.tsx:152-163 | Definition; its properties are in OffsetPlacement and NeighbourSides. |
| Carousel.ZIndex | components/certifications.tsx:164-165 | Definition; its properties are in ActiveOnTop. |
| Carousel.Footer | components/certifications.tsx:424-426 | Definition; its properties are in FooterUnlocked. |
| Carousel.CardBadge | components/certifications.tsx:285-317 | Definition; its properties are in ActiveBadgeMatchesFooter. |
| Projects.FilterProjects | components/projects.tsx:55-60 | Definition; its properties are in FilterProjectsSpec. |
| Projects.ShowsCode | components/projects.tsx:151 | Definition; its properties are in InDevelopmentIffNoButton and CatalogButtons. |
| Projects.ShowsDemo | components/projects.tsx:166 | Definition; its properties are in InDevelopmentIffNoButton and CatalogButtons. |
| Projects.InDevelopment | components/projects.tsx:141-146 | Definition; its properties are in InDevelopmentIffNoButton and CatalogButtons. |
| BlogPage.Keep | app/blog/page.tsx:29-46 | Definition; its properties are in FilteredMembership. |
| BlogPage.FilteredPosts | app/blog/page.tsx:29-46 | Definition; its properties are in FilteredIsSubsequence, FilteredMembership, FilteredCategory and FilteredIdentity. |
| BlogPage.FeaturedPosts | app/blog/page.tsx:48 | Definition; its properties are in SectionsPartition. |
| BlogPage.RegularPosts | app/blog/page.tsx:49 | Definition; its properties are in SectionsPartition and EmptyStateIffNoRegular. |
| BlogHome.Compare | components/blog.tsx:22-29 | Definition; its properties are in CompareConsistent and SortedMeans. |
| BlogHome.Latest | components/blog.tsx:22-32 | Definition; its properties are in LatestSpec. |
| BlogController.PostsQuery | controllers/blog.controller.ts:11-26 | Definition; its properties are in BuildPostsQuery, PostsQueryBindings and PostsQueryText. |
| BlogController.Offset | controllers/blog.controller.ts:9 | Definition; its properties are in OffsetPages. |
| BlogController.HasCategory | controllers/blog.controller.ts:20-23 | Definition; its properties are in PostsQueryBindings and CountQuery. |
| Js.Trim | app/terminal/page.tsx:154 | Definition; its properties are in TrimIsCore, TrimBlank and TrimIdempotent. |
| Js.Lower | app/terminal/page.tsx:154 | Definition; its properties are in LowerIdempotent and LowerOfTrimmedIsTrimmed. |
| Js.ParseInt | app/terminal/page.tsx:169 | Definition; its properties are in ParseIntToString and ParseIntStopsAtNonDigit. |
| Js.IntToString | app/terminal/page.tsx:418 | Definition; its properties are in ParseIntToString. |
| Js.StartsWith | app/terminal/page.tsx:115 | Definition; its properties are in MatchesSpec. |
| Js.Includes | app/blog/page.tsx:39-41 | Definition; its properties are in FilteredMembership. |

## Left out

- Rendering: JSX markup, Tailwind classes, Framer Motion animation values other than the horizontal offset and the stacking order, scrolling and focus effects. Every terminal output is an opaque tag.
- The carousel's autoplay timer (`setInterval`, and the restart after each arrow or dot) and its on/off button: these are timing only. One tick is `Next`, and `NextTimes` models any number of ticks.
- Registering and removing the window key listener. What the listener does with a key is modelled.
- Network and database I/O: `fetch`, the Lambda wrappers, and the `pg` pool. Each query is a function parameter and SQL semantics are not modelled; only the query text and parameters are.
- `Number(...)` on query-string values and the raw string form of `limit` pushed as a parameter: page and limit are modelled as integers.
- Date parsing: `published_at` is an integer timestamp.
- `toLowerCase` beyond ASCII letters.
- Js.ParseIntToString: holds for the model's unbounded integers. JavaScript numbers are doubles: integers are exact only below 2^53, and `${n}` prints them positionally only below 10^21. Above that it uses exponent form, which `parseInt` reads only as far as the mantissa (`parseInt("1e+21")` is 1). Neither rounding nor exponent form is modelled.
- The catalogs' display-only fields (descriptions, images, technologies and features in the terminal).
- The other terminal commands' content (skills, contact, social, experience, education, hobbies): each is an opaque output tag.
- BlogHome.SortPosts: is an insertion sort, which is stable. `Array.prototype.sort` is also stable, so the two give the same order, but that fact is not proved here.
- BlogHome.LatestSpec: states the result up to ties under the comparator, not the exact order `sort` gives among posts that compare equal.
- BlogController.TotalPages: models `Math.ceil` of the exact quotient; floating-point rounding of very large counts is left out.
- Carousel.CertificationCarousel.HandlePrev: does not model the autoplay restart it performs. The same holds for `HandleNext` and `HandleDotClick`.
