# Hotel Juan María — a verified model of the site's logic

This project models in Dafny the small deterministic pieces of the Hotel
Juan María website (a Next.js site over static JSON data) and proves
properties of them. It covers:

- **Data access** (`app/lib/data.ts`). This covers the flag filters
  (`getFeatured*`, `getAvailableRooms`), the find-by-id/slug lookups, the
  category filters, `searchBlogPosts`, `searchRooms`, `checkAvailability`,
  `getRelatedRooms`, `getUniqueAmenities` and `getRoomStats`. With the
  async delay removed, each is a pure function over a sequence of
  records. Module `Data`, file `data.dfy`.
- **Room catalogue** (`rooms.tsx`). The model has:
  - the seven-way filter;
  - the comparator chosen by the sort key, run by a stable sort;
  - the page state (filters, search term, sort key, compared and
    favourite rooms) with its toggle and clear handlers;
  - the amenity icon and image path helpers.

  Module `Rooms`.
- **History timeline** (`historyTimeline.tsx`). Scroll progress is a
  rational (pixels scrolled over scrollable pixels), clamped to [0, 1].
  From it the model derives the active index, the next index, the
  interpolation, the active/passed dot classification and the container
  height. Module `HistoryTimeline`, file `timeline.dfy`.
- **Blog post markdown** (`blogDetail.tsx`). The line classifier and the
  pending-list buffer of `renderMarkdown` are a class driven by a loop
  over the lines. It is proved equal to a pure grouping function `Group`,
  whose list items are exactly the list lines in input order. The file
  also holds the related-posts selector. Module `BlogDetail`, file
  `markdown.dfy`.
- **FAQ page** (`faq/page.tsx`). This covers the priority-ordered
  keyword classifier into five categories, the partition of the questions
  into the five cards, the non-empty-card filter, the question icon and
  the single-open accordion. Module `Faq`.
- **Carousels and galleries**:
  - `roomDetail.tsx`: hero and preview image indices, the preview flag and
    the keyboard dispatcher;
  - `blog.tsx`: category tabs, filter and featured slider;
  - `testimonials.tsx`: featured slider and star renderer;
  - `roomCarousel.tsx`: the fixed five-slide hero carousel.

  Modules `RoomDetail`, `Blog`, `Testimonials` and `RoomCarousel`. Their
  shared index arithmetic is in module `Cyclic`. It covers the
  `i === n - 1 ? 0 : i + 1` form and the `(i + 1) % n` form, the latter
  with JavaScript's sign-of-dividend remainder (`JsRem`).

General-purpose building blocks are shared by the modules above:

- `Seqs`: `Array.filter`, subsequence, `slice`, `find`, and the
  toggle-membership idiom.
- `Strings`: ASCII lower-casing, `includes`, `trim`, `split`, `join`,
  `replace`, `startsWith` and code-point ordering.
- `Sorting`: a stable insertion sort by a strict weak order, as a function
  and as an in-place array method. This is the behaviour `Array.prototype.sort`
  guarantees for a consistent comparator.

React state is modelled as the fields of a class. Each handler is a method
that states the new value of every field.

## Model

| member | source | states |
|---|---|---|
| Data.FeaturedRooms | app/lib/data.ts:91-94 | a room is in the result iff it is in the catalogue and featured; the result keeps catalogue order |
| Data.AvailableRooms | app/lib/data.ts:101-104 | a room is in the result iff it is in the catalogue and available; order is kept |
| Data.FeaturedServices | app/lib/data.ts:112-115 | exactly the featured services, in order |
| Data.FeaturedGalleryImages | app/lib/data.ts:128-131 | exactly the featured gallery images, in order |
| Data.FeaturedTestimonials | app/lib/data.ts:150-153 | exactly the featured testimonials, in order |
| Data.FeaturedBlogPosts | app/lib/data.ts:214-217 | exactly the featured posts, in order |
| Data.RoomById | app/lib/data.ts:96-99 | None iff no room has the id; otherwise the room at the first index with that id |
| Data.ServiceById | app/lib/data.ts:117-120 | None iff no service has the id; otherwise the first service with that id |
| Data.BlogPostBySlug | app/lib/data.ts:219-222 | None iff no post has the slug; otherwise the first post with that slug |
| Data.GalleryImagesByCategory | app/lib/data.ts:133-137 | "all" returns every image; any other category returns exactly the images whose category is equal to it, in order |
| Data.BlogPostsByCategory | app/lib/data.ts:224-227 | exactly the posts whose lower-cased category equals the lower-cased argument, in order |
| Data.SearchBlogPosts | app/lib/data.ts:258-269 | exactly the posts whose lower-cased title, excerpt, content or one of whose tags contains the lower-cased query, in order |
| Data.SearchEmptyQuery | app/lib/data.ts:258-269 | the empty query returns every post |
| Data.SearchRooms | app/lib/data.ts:271-292 | exactly the rooms meeting every truthy bound and containing every requested amenity (case-insensitive substring), in catalogue order |
| Data.SearchRoomsUnconstrained | app/lib/data.ts:277-292 | with no truthy bound and no amenities every room is returned |
| Data.SearchRoomsAgree | app/lib/data.ts:277-292 | two queries that accept the same rooms give the same result |
| Data.SearchRoomsZeroBound | app/lib/data.ts:278-283 | a bound of 0 is falsy and acts as an absent bound, for min price, max price and capacity |
| Data.CheckAvailability | app/lib/data.ts:345-355 | an unknown id gives unavailable with "Habitación no encontrada"; an unavailable room gives unavailable with "Habitación no disponible"; otherwise available with no message |
| Data.CloserToStrictWeakOrder | app/lib/data.ts:368-372 | the price-distance comparator is a strict weak order, so the sort is well defined |
| Data.RelatedCandidates | app/lib/data.ts:367 | exactly the available rooms other than the current one |
| Data.RelatedRooms | app/lib/data.ts:359-376 | an unknown id gives []; otherwise at most `limit` rooms, none the current room, all available, drawn from the candidates without repetition (multiset inclusion) |
| Data.RelatedRoomsStable | app/lib/data.ts:368-373 | rooms at equal distance from the current price keep catalogue order: the kept ones are the first ones of that distance among the candidates |
| Data.RelatedRoomsClosest | app/lib/data.ts:366-373 | the result is ordered by non-decreasing distance to the current price, has length min(limit, candidates), and any candidate strictly closer than a returned room is itself returned |
| Data.AllAmenities | app/lib/data.ts:381 | an amenity is listed iff some room has it |
| Data.Dedup | app/lib/data.ts:382 | `new Set`: no duplicates, same elements |
| Data.CharCodeStrictWeakOrder | app/lib/data.ts:382 | the default `sort()` order on strings is a strict weak order |
| Data.UniqueAmenitiesSpec | app/lib/data.ts:379-383 | the result is strictly ascending, duplicate-free, and holds exactly the amenities some room has |
| Data.Prices | app/lib/data.ts:396-397 | the price of each room, position by position |
| Data.Capacities | app/lib/data.ts:395 | the capacity of each room, position by position |
| Data.Max | app/lib/data.ts:395-397 | `Math.max` of a non-empty list is an element and bounds every element |
| Data.Min | app/lib/data.ts:396 | `Math.min` of a non-empty list is an element and is below every element |
| Data.Stats | app/lib/data.ts:386-397 | total is the count; available and featured are the sizes of the available and featured sub-lists (each ≤ total); a non-empty catalogue's average is the rounded mean of its prices; for a non-empty catalogue min price ≤ average ≤ max price, min/max price and max capacity are attained and bound every room; for an empty one the average and extremes are absent |
| Data.SumBounds | app/lib/data.ts:393 | a sum of n values in [lo, hi] lies in [n·lo, n·hi] |
| Data.RoundedMean | app/lib/data.ts:392 | `Math.round(sum / n)`: the integer m with m - 1/2 ≤ sum/n < m + 1/2, halves rounding up |
| Data.MeanBounds | app/lib/data.ts:392 | the rounded mean of such a sum lies in [lo, hi] |
| Rooms.FilterRooms | app/components/rooms/rooms.tsx:71-92 | a room is kept iff it matches the search term in title or description, meets each present bound, has every chosen amenity and satisfies the set flags; kept rooms are in catalogue order |
| Rooms.FilterRoomsOpen | app/components/rooms/rooms.tsx:72-91 | with an empty term and the cleared filter panel every room is kept |
| Rooms.FilterRoomsIdempotent | app/components/rooms/rooms.tsx:71-92 | filtering an already filtered list changes nothing |
| Rooms.RoomBeforeStrictWeakOrder | app/components/rooms/rooms.tsx:95-104 | each sort key's comparator is a strict weak order |
| Rooms.SortRoomsOrdered | app/components/rooms/rooms.tsx:95-104 | the sorted list is a permutation; price-asc non-decreasing price, price-desc non-increasing price, capacity non-increasing capacity, size non-increasing leading integer, name non-decreasing code-point order |
| Rooms.SortRoomsStable | app/components/rooms/rooms.tsx:95-104 | rooms that tie under the key keep their relative order |
| Rooms.AmenityIconOf | app/components/rooms/rooms.tsx:146-157 | a non-default icon's keywords occur in the lower-cased amenity, and no rule earlier in the chain matches it |
| Rooms.AmenityIconFirstMatch | app/components/rooms/rooms.tsx:146-157 | whenever some rule matches, the chosen icon is a rule at or before it, never the default |
| Rooms.AmenityIconSafeBeforeBar | app/components/rooms/rooms.tsx:151-153 | "caja" with "bar" (and no earlier keyword) picks the safe icon, not the minibar one |
| Rooms.ImagePath | app/components/rooms/rooms.tsx:159-161 | the path is returned unchanged |
| Rooms.RoomsPage.constructor | app/components/rooms/rooms.tsx:16-36 | initial state: empty term, price-asc, cleared filters, nothing compared or favourite |
| Rooms.RoomsPage.ApplyFiltersAndSort | app/components/rooms/rooms.tsx:70-107 | the visible list is the sorted filtered catalogue; every other field is unchanged |
| Rooms.RoomsPage.SetSearchTerm | app/components/rooms/rooms.tsx:488 | only the search term changes |
| Rooms.RoomsPage.SetSortBy | app/components/rooms/rooms.tsx:540 | only the sort key changes |
| Rooms.RoomsPage.ClearFilters | app/components/rooms/rooms.tsx:109-119 | all six filter fields and the term are reset; sort key, compared and favourite rooms are untouched |
| Rooms.RoomsPage.ToggleAmenityFilter | app/components/rooms/rooms.tsx:121-128 | the amenity list is toggled, stays duplicate-free, and nothing else changes |
| Rooms.RoomsPage.ToggleRoomSelection | app/components/rooms/rooms.tsx:130-136 | the compared list is toggled, stays duplicate-free, and nothing else changes |
| Rooms.RoomsPage.ToggleFavorite | app/components/rooms/rooms.tsx:138-144 | the favourite list is toggled, stays duplicate-free, and nothing else changes |
| Rooms.RoomsPage.ClearSelection | app/components/rooms/rooms.tsx:652 | the compared list is emptied; nothing else changes |
| Seqs.Filter | app/components/rooms/rooms.tsx:71 | `Array.filter`: membership iff the predicate holds, result an order-preserving subsequence |
| Seqs.FilterIdempotent | app/components/rooms/rooms.tsx:71 | filtering twice by the same predicate equals filtering once |
| Seqs.Toggle | app/components/rooms/rooms.tsx:130-136 | a present element is removed, leaving a subsequence of the list; an absent one is appended; other elements keep their membership |
| Seqs.ToggleRemoves | app/components/rooms/rooms.tsx:130-136 | removing a present id leaves a subsequence in which every other id keeps its count and no copy of the removed id remains |
| Seqs.ToggleNoDuplicates | app/components/rooms/rooms.tsx:130-136 | a duplicate-free list stays duplicate-free and other elements keep their membership |
| Seqs.ToggleTwice | app/components/rooms/rooms.tsx:130-136 | toggling the same id twice restores the original set of ids |
| Seqs.FindFirst | app/lib/data.ts:96-99 | `Array.find`: None iff nothing matches; otherwise the first matching index |
| Seqs.Take | app/lib/data.ts:373 | `slice(0, n)`: the first min(n, length) elements, a prefix of the input and contained in it as a multiset |
| Sorting.SortPermutes | app/components/rooms/rooms.tsx:95 | the sort returns a permutation of its input |
| Sorting.SortedResult | app/components/rooms/rooms.tsx:95 | under a strict weak order no later element sorts strictly before an earlier one |
| Sorting.SortStable | app/components/rooms/rooms.tsx:95 | elements tied with a given one keep their relative order |
| Sorting.SortInPlace | app/components/rooms/rooms.tsx:95 | the in-place sort leaves the array equal to the stable sort of its old contents |
| Strings.ReplaceSelf | app/components/rooms/rooms.tsx:160 | replacing a string by itself changes nothing |
| Strings.Lower | app/components/rooms/rooms.tsx:72 | `toLowerCase` on ASCII: same length, each capital letter lowered and every other character kept |
| Strings.ContainsLower | app/components/rooms/rooms.tsx:72-73 | a substring stays a substring once both strings are lower-cased |
| Strings.Trim | app/components/blog/blogDetail.tsx:69 | `trim`: the result is a slice of the input with only white space cut off before and after it, itself without white space at either end; empty iff the input is all white space |
| Strings.JoinSplit | app/components/blog/blogDetail.tsx:31 | joining the result of `split` by the same separator gives back the input |
| HistoryTimeline.Clamp | app/components/historyTimeline/historyTimeline.tsx:127 | the clamped value is in [0, 1] and equals the input when that is already in [0, 1] |
| HistoryTimeline.ScrollProgress | app/components/historyTimeline/historyTimeline.tsx:122-128 | while the section is pinned, progress is \|top\| / (height − window height), within [0, 1] |
| HistoryTimeline.ScrollProgressBelowOne | app/components/historyTimeline/historyTimeline.tsx:122-128 | while pinned, the clamp never binds and the progress is strictly below 1 |
| HistoryTimeline.Timeline.constructor | app/components/historyTimeline/historyTimeline.tsx:61 | progress starts at 0 |
| HistoryTimeline.Timeline.HandleScroll | app/components/historyTimeline/historyTimeline.tsx:114-128 | an empty timeline or an unpinned section leaves progress unchanged; otherwise progress becomes the pinned ratio; progress stays in [0, 1] |
| HistoryTimeline.ActiveIndex | app/components/historyTimeline/historyTimeline.tsx:182-183 | the active index lies in [0, n − 1] |
| HistoryTimeline.ActiveIndexEnds | app/components/historyTimeline/historyTimeline.tsx:182-183 | progress 0 gives index 0 and progress 1 gives index n − 1 |
| HistoryTimeline.ActiveIndexMonotone | app/components/historyTimeline/historyTimeline.tsx:182-183 | more progress never gives a smaller active index |
| HistoryTimeline.NextIndex | app/components/historyTimeline/historyTimeline.tsx:184 | active ≤ next ≤ n − 1; next equals active only at the last event, else it is active + 1 |
| HistoryTimeline.Interpolation | app/components/historyTimeline/historyTimeline.tsx:185 | the interpolation is in [0, 1] and equals 1 exactly when progress is 1 |
| HistoryTimeline.InterpolationRange | app/components/historyTimeline/historyTimeline.tsx:182-185 | exact progress lies between the active index and the active index + 1 |
| HistoryTimeline.DotsExclusive | app/components/historyTimeline/historyTimeline.tsx:284-286 | at most one dot is active, and an active dot is not passed |
| HistoryTimeline.PassedBeforeActive | app/components/historyTimeline/historyTimeline.tsx:284-286 | every dot before the active one is passed |
| HistoryTimeline.ContainerHeightVh | app/components/historyTimeline/historyTimeline.tsx:191 | the height is max(120·n, 500) vh: at least both, and equal to one of them |
| HistoryTimeline.ActiveEvent | app/components/historyTimeline/historyTimeline.tsx:187 | none iff the timeline is empty; otherwise the event at the active index, the first at progress 0 and the last at progress 1 |
| BlogDetail.RemoveDoubleStars | app/components/blog/blogDetail.tsx:110 | removing `**` never lengthens the text |
| BlogDetail.RemoveDoubleStarsClean | app/components/blog/blogDetail.tsx:110 | the result contains no `**` |
| BlogDetail.OrderedMarker | app/components/blog/blogDetail.tsx:124-129 | `/^\d+\.\s/` matches iff the line starts with a digit run, a dot and a white-space character; the result is the marker length |
| BlogDetail.Classify | app/components/blog/blogDetail.tsx:68-155 | a line is blank iff it is all white space; headings have level 1–4; a single line never yields a whole list |
| BlogDetail.ClassifyHeadings | app/components/blog/blogDetail.tsx:77-105 | "# " … "#### " give headings of level 1–4 with the prefix stripped |
| BlogDetail.BoldHeading | app/components/blog/blogDetail.tsx:107-113 | a line longer than 4 that starts and ends with `**` becomes a level-3 heading whose text is the trimmed line with every `**` removed, free of `**`, keeping every character other than `*` in order |
| BlogDetail.RemoveDoubleStarsKeeps | app/components/blog/blogDetail.tsx:111 | removing `**` keeps the sequence of characters other than `*` unchanged |
| BlogDetail.ClassifyItems | app/components/blog/blogDetail.tsx:116-130 | a line is an unordered item iff it starts with "- " or "* " (text after the marker), and an ordered item iff it has a digits-dot-space marker (text after the marker) |
| BlogDetail.ClassifyBlocks | app/components/blog/blogDetail.tsx:132-155 | a line is a rule iff it is "---" or "***", and a quote iff it starts with "> " (text after the marker) |
| BlogDetail.ClassifyParagraph | app/components/blog/blogDetail.tsx:148-155 | a line is a paragraph of its whole trimmed text iff it is non-empty and no earlier branch's marker applies |
| BlogDetail.Tokens | app/components/blog/blogDetail.tsx:68 | one classified line per input line |
| BlogDetail.RunLen | app/components/blog/blogDetail.tsx:116-130 | the length of the maximal leading run of items of one kind |
| BlogDetail.FlushGroup | app/components/blog/blogDetail.tsx:36-55 | a pending run of items followed by a non-item of that kind becomes one list block |
| BlogDetail.GroupFacts | app/components/blog/blogDetail.tsx:36-159 | the list items of the output are exactly the item lines in input order; no list is empty; each non-blank line gives exactly one block or one item |
| BlogDetail.Flush | app/components/blog/blogDetail.tsx:36-55 | an empty buffer changes nothing; otherwise one list of the pending kind is appended; the buffer is empty afterwards |
| BlogDetail.FlushMeaning | app/components/blog/blogDetail.tsx:36-55 | flushing before a line that does not continue the list does not change the final page |
| BlogDetail.StepMeaning | app/components/blog/blogDetail.tsx:68-155 | processing one line preserves the meaning of the renderer state |
| BlogDetail.RunMeaning | app/components/blog/blogDetail.tsx:68-158 | running the renderer over the lines and flushing yields the meaning of the start state |
| BlogDetail.RenderIsGroup | app/components/blog/blogDetail.tsx:30-161 | the renderer from its initial state produces exactly `Group` of the lines |
| BlogDetail.RenderedPage | app/components/blog/blogDetail.tsx:30-161 | for any content, the rendered lists hold exactly the list lines in order, no list is empty, and the block count equals the non-blank line count |
| BlogDetail.MarkdownRenderer.constructor | app/components/blog/blogDetail.tsx:32-34 | no elements, empty buffer, no list type |
| BlogDetail.MarkdownRenderer.FlushList | app/components/blog/blogDetail.tsx:36-55 | the state becomes `Flush` of the old state |
| BlogDetail.MarkdownRenderer.AddLine | app/components/blog/blogDetail.tsx:69-154 | the state becomes `Step` of the old state and the line |
| BlogDetail.RenderMarkdown | app/components/blog/blogDetail.tsx:30-161 | the elements are `Group` of the classified lines of the content |
| BlogDetail.RelatedPosts | app/components/blog/blogDetail.tsx:184-186 | the first min(3, k) of the k posts that are other than the current one and of its category, in post order |
| Faq.TitleInjective | app/faq/page.tsx:57-83 | distinct categories have distinct titles |
| Faq.CategoryOf | app/faq/page.tsx:39-54 | Reservas iff a reservation word occurs in the lower-cased question; each later category iff no earlier list matches and its own does; General iff none matches |
| Faq.CategoryIgnoresCase | app/faq/page.tsx:40 | a question and its lower-cased form get the same category |
| Faq.ReservationsFirst | app/faq/page.tsx:42 | a question mentioning "pago" is a reservation question whatever else it mentions |
| Faq.Bucket | app/faq/page.tsx:57-83 | a card holds exactly the questions of its category, in order |
| Faq.FaqCategories | app/faq/page.tsx:57-83 | five cards in the fixed order; no data gives five empty cards; otherwise each card is its bucket |
| Faq.BucketsPartition | app/faq/page.tsx:57-83 | the five buckets together are a permutation (multiset) of the questions |
| Faq.CardOfQuestion | app/faq/page.tsx:57-83 | a question is on card i iff i is its category's position |
| Faq.CategoriesWithQuestions | app/faq/page.tsx:131 | exactly the non-empty cards, in order, with the same number of questions |
| Faq.TotalQuestions | app/faq/page.tsx:130-131 | the card lengths sum to the number of questions, before and after dropping empty cards |
| Faq.IconOf | app/faq/page.tsx:85-98 | a non-default icon has one of its keywords in the question, and no earlier rule matches |
| Faq.IconFirstMatch | app/faq/page.tsx:85-98 | if a rule matches, the icon is that rule or an earlier one, and never the default |
| Faq.IconIsCaseSensitive | app/faq/page.tsx:85-98 | "WiFi" gets the wifi icon and "wifi" the default, though both are facility questions |
| Faq.Toggled | app/faq/page.tsx:100-104 | the id is open afterwards iff it was not open before; nothing else is open |
| Faq.ToggleEffect | app/faq/page.tsx:100-104 | toggling twice closes a newly opened question and reopens a closed one |
| Faq.FaqPage.constructor | app/faq/page.tsx:18 | no question is open |
| Faq.FaqPage.ToggleQuestion | app/faq/page.tsx:242-245 | the clicked answer flips, and every other answer is closed |
| Cyclic.WrapNext | app/components/roomDetail/roomDetail.tsx:42-43 | in range, the next index stays in range and is (i + 1) mod n |
| Cyclic.WrapPrev | app/components/roomDetail/roomDetail.tsx:50-51 | in range, the previous index stays in range and is (i − 1 + n) mod n |
| Cyclic.WrapInverse | app/components/roomDetail/roomDetail.tsx:39-53 | next and previous undo each other |
| Cyclic.WrapEmpty | app/components/roomDetail/roomDetail.tsx:39-53 | with no images the index leaves the range (1 and −1) |
| Cyclic.ForwardCycle | app/components/roomCarousel/roomCarousel.tsx:72-76 | k steps forward land on (i + k) mod n, so n steps return to the start |
| Cyclic.JsRem | app/components/blog/blog.tsx:57 | JavaScript `%`: the remainder has the dividend's sign and magnitude below n |
| Cyclic.ModNext | app/components/blog/blog.tsx:56-58 | in range, `(i + 1) % n` agrees with the wrap-around next index |
| Cyclic.ModPrev | app/components/blog/blog.tsx:60-62 | in range, `(i - 1 + n) % n` agrees with the wrap-around previous index |
| Cyclic.ModInverse | app/components/blog/blog.tsx:56-62 | the modulo next and previous undo each other |
| Cyclic.ModNextAboveRange | app/components/blog/blog.tsx:56-58 | from an index at or beyond n the modulo form returns into range while the comparison form does not |
| RoomDetail.RoomDetailView.constructor | app/components/roomDetail/roomDetail.tsx:8-13 | no room, no error, both indices 0, preview closed |
| RoomDetail.RoomDetailView.LoadRoom | app/components/roomDetail/roomDetail.tsx:15-37 | a found room is selected with no error; an unknown id sets "Habitación no encontrada"; indices and preview flag are untouched |
| RoomDetail.RoomDetailView.NextImage | app/components/roomDetail/roomDetail.tsx:39-45 | no room: no change; otherwise the hero index wraps forward; nothing else changes; indices stay in range |
| RoomDetail.RoomDetailView.PrevImage | app/components/roomDetail/roomDetail.tsx:47-53 | no room: no change; otherwise the hero index wraps back; nothing else changes |
| RoomDetail.RoomDetailView.NextPreviewImage | app/components/roomDetail/roomDetail.tsx:55-61 | the preview index wraps forward; the hero index and flag are untouched |
| RoomDetail.RoomDetailView.PrevPreviewImage | app/components/roomDetail/roomDetail.tsx:63-69 | the preview index wraps back; the hero index and flag are untouched |
| RoomDetail.RoomDetailView.OpenPreview | app/components/roomDetail/roomDetail.tsx:71-74 | the preview opens at the given index; the hero index is untouched |
| RoomDetail.RoomDetailView.ClosePreview | app/components/roomDetail/roomDetail.tsx:76-78 | only the preview flag is cleared |
| RoomDetail.RoomDetailView.SelectImage | app/components/roomDetail/roomDetail.tsx:337 | only the hero index changes, to the clicked thumbnail |
| RoomDetail.RoomDetailView.SelectPreviewImage | app/components/roomDetail/roomDetail.tsx:257 | only the preview index changes, to the clicked thumbnail |
| RoomDetail.RoomDetailView.HandleKeyDown | app/components/roomDetail/roomDetail.tsx:82-99 | with the preview open, Escape closes it and arrows move only the preview index; with it closed, arrows move only the hero index; Escape with the preview closed, other keys, and any key with no room loaded change neither index |
| Blog.PageCategories | app/components/blog/blog.tsx:33 | the "all" tab followed by the loaded categories |
| Blog.CategoryStatCountsLoaded | app/components/blog/blog.tsx:104 | the displayed count `categories.length - 1` is the number loaded |
| Blog.FilteredPosts | app/components/blog/blog.tsx:44-46 | "all" gives every post; an unknown id gives none; otherwise the posts whose category is the name of the first tab with that id, in order |
| Blog.TabShowsItsPosts | app/components/blog/blog.tsx:44-46 | with distinct ids, clicking a loaded tab shows exactly the posts of that category's name |
| Blog.BlogPage.constructor | app/components/blog/blog.tsx:18-33 | tabs are "all" plus the loaded categories; "all" selected; slide 0 |
| Blog.BlogPage.Shown | app/components/blog/blog.tsx:44-46 | the visible posts are a subsequence of all posts, all of them under "all" |
| Blog.BlogPage.SelectCategory | app/components/blog/blog.tsx:242 | only the selected tab changes |
| Blog.BlogPage.NextSlide | app/components/blog/blog.tsx:56-58 | the slide becomes `(i + 1) % n`; from a valid slide it stays valid and wraps the last to 0 |
| Blog.ControlsMoveSlide | app/components/blog/blog.tsx:197 | with the carousel shown, the arrows are shown exactly when a forward or backward step changes the slide |
| Blog.BlogPage.PrevSlide | app/components/blog/blog.tsx:60-62 | the slide becomes `(i - 1 + n) % n`; from a valid slide it stays valid and wraps 0 to the last |
| Blog.BlogPage.GoToSlide | app/components/blog/blog.tsx:217 | the clicked dot becomes the current slide |
| Testimonials.RenderStars | app/components/testimonials/testimonials.tsx:91-98 | five stars, star i filled iff i < rating |
| Testimonials.Clamped | app/components/testimonials/testimonials.tsx:91-98 | min(max(rating, 0), 5) |
| Testimonials.StarsShowRating | app/components/testimonials/testimonials.tsx:91-98 | the filled count is the clamped rating and filled stars come first |
| Testimonials.TestimonialCarousel.constructor | app/components/testimonials/testimonials.tsx:43-47 | the loaded testimonials, slide 0 |
| Testimonials.TestimonialCarousel.Current | app/components/testimonials/testimonials.tsx:195-205 | a testimonial is shown iff the slide is in range, and it is a featured one |
| Testimonials.TestimonialCarousel.CurrentStars | app/components/testimonials/testimonials.tsx:205-233 | with nothing shown, no star is filled |
| Testimonials.TestimonialCarousel.NextSlide | app/components/testimonials/testimonials.tsx:76-78 | `(i + 1) % n` over the featured list; from a valid slide it stays valid |
| Testimonials.TestimonialCarousel.PrevSlide | app/components/testimonials/testimonials.tsx:80-82 | `(i - 1 + n) % n` over the featured list; from a valid slide it stays valid |
| Testimonials.TestimonialCarousel.GoToSlide | app/components/testimonials/testimonials.tsx:260-263 | the clicked dot becomes the current slide |
| RoomCarousel.ShiftShowsOneSlide | app/components/roomCarousel/roomCarousel.tsx:96 | the track offset −100·i % is distinct for each slide and a whole slide width |
| RoomCarousel.Carousel.constructor | app/components/roomCarousel/roomCarousel.tsx:70 | the first slide is shown |
| RoomCarousel.Carousel.NextSlide | app/components/roomCarousel/roomCarousel.tsx:72-76 | the index wraps forward, stays in range, and the last slide goes to 0 |
| RoomCarousel.Carousel.PrevSlide | app/components/roomCarousel/roomCarousel.tsx:78-82 | the index wraps back, stays in range, and slide 0 goes to the last |
| RoomCarousel.Carousel.GoTo | app/components/roomCarousel/roomCarousel.tsx:158 | the clicked indicator becomes the only active one |

## Left out

- Async loading: `setTimeout` delays, `Promise.all`, loading/error flags and try/catch blocks are not modelled. Collections are parameters. `loadRoom`'s catch branch ("Error al cargar la habitación") cannot occur without I/O.
- `formatPrice` and `calculateNights` are left out, because they depend on `Intl.NumberFormat` and `Date`. The same goes for every `toLocaleDateString`.
- The date-based sorts (`getRecentBlogPosts`, the featured/recent ordering at `blog.tsx:32`) are left out, because they parse dates.
- Rooms.SortRoomsOrdered: the name sort uses code-point order instead of `localeCompare`, whose result depends on the locale.
- Strings.Lower: only ASCII letters are lowered. Accented capitals such as "Á" are left as they are, whereas `toLowerCase` would fold them.
- Rooms.FilterRooms: a non-empty filter field that `parseInt` cannot read (NaN, which rejects every room) is not modelled. A field is either absent or an integer.
- Rooms.SortRoomsOrdered: a room size without leading digits is read as 0. `parseInt` gives NaN there, which makes the comparator inconsistent.
- Data.UniqueAmenitiesSpec: strings are ordered by code point. JavaScript's default `sort()` compares UTF-16 code units; the two orders differ only for characters beyond U+FFFF, which a `char` here holds as one value.
- Rooms.SortRoomsOrdered: the size text is read as decimal. `parseInt` without a radix reads a "0x" prefix as hexadecimal, which the model reads as 0.
- Data.RelatedRooms: the limit is a natural number passed explicitly. The default of 3 is left to the caller, and a negative limit (where `slice(0, -k)` drops the last k rooms) is not modelled.
- Inline markdown (`renderInlineMarkdown`) and `dangerouslySetInnerHTML` are left out. Text is treated as opaque.
- Floating-point visuals (dot scale, sine offsets, opacity, parallax) and `Math.round` of the average testimonial rating are left out.
- DOM and browser interaction (observers, scroll and mouse listeners, navigation, clipboard, sharing, body overflow) is left out. A scroll event is a method call with the measured rectangle as integers.
- HistoryTimeline.HandleScroll: the container's `offsetHeight` is taken to be the measured rectangle's height. Under that assumption, progress written by the handler is always strictly below 1.
- The FAQ page's `loadFAQData` is defined but never called by its effect. The page data is a parameter (`None` while loading).
- Faq.ToggleQuestion: the question id string `${categoryIndex}-${questionIndex}` is modelled as a pair of indices. The string form would also collide for no pair of naturals.
- `createReservation` is left out. It returns a fixed success value with a clock-based id.
- Presentational components outside the files above are left out.
- Blog.BlogPage.NextSlide: it requires at least one featured post. With none, JavaScript's `% 0` yields NaN, and the controls are never rendered then (`blog.tsx:197`).
- Testimonials.TestimonialCarousel.NextSlide: it requires at least one featured testimonial. The reason is the same NaN for `% 0`, and the carousel is not rendered (`testimonials.tsx:195`).
- `getAmenityIcon` and `getImagePath` in `roomDetail.tsx:113-128` are the same as those in `rooms.tsx`: they choose the same icon and the same path, and only the presentational size class differs (`w-5 h-5` against `w-4 h-4`). They are modelled once, as `Rooms.AmenityIconOf` and `Rooms.ImagePath`.
- Testimonials.RenderStars: ratings are integers. A fractional rating r would fill the first ⌈r⌉ stars, which the model does not cover.
- Data.Stats: for an empty catalogue JavaScript yields NaN for the average and ±Infinity for the extremes. The model reports these as absent (`None`).
