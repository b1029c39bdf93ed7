# Blog admin panel: the client-side data layer and page logic

This project models the logic behind a small blog administration panel built with Next.js and React:

- **Three stores:** posts, comments and categories.
  - Each keeps an ordered list, newest first, and supports add, delete, update, status change and first-match lookup.
  - The comment and category stores load their list from a `localStorage` slot when they mount. They fall back to a seed list, and write the whole list back to the slot after every change.
  - The post store keeps its list in memory only.
- **New-category form:** the slug generator, the rule by which the slug follows the name, and the submit checks with the reset that follows.
- **Markdown editor:** caret-aware insertion and wrapping for the toolbar, the word and character counters, the category checklist, the SEO-title auto-fill and the submit checks.
- **Settings page:** a field-by-field editor with an unsaved-changes flag, saved to and loaded from `localStorage`, reset to defaults, or replaced by an imported file merged over the defaults.
- **Dashboard, listing pages and sidebar:**
  - status statistics;
  - the five most recent posts and comments;
  - the post-title fallback to "Unknown Post";
  - status filters and colours;
  - row actions;
  - the delete warning;
  - the sidebar's active item, count badges and footer totals.

## How the model is organised

There is one module per source file, plus four shared modules:

- `Lists`: JavaScript's `filter`, `find`, conditional `map` and sort-then-slice over `seq`.
- `Text`: the whitespace class shared by `\s` and `trim`, and `String(n)`.
- `Clock`: instants as integer milliseconds.
- `Storage`: a `localStorage` slot as a map from key to what `JSON.parse` makes of the stored text.

Clocks and storage are parameters. `now` is the value of `Date.now()`, and `hasWindow` says whether the code runs in a browser. A successful save is a parameter too.

Each store is a class. Its list is a `seq` field, and the category and comment stores also have a `slots` field that the mutators reassign. Each mutator is proved against a function on the list: `Added`, `Deleted`, `Updated`, `StatusSet`. The properties are stated on those functions. Each store mutator also runs the store's sync effect, and the predicate `Mirrored` states the effect's guarantee: the slot holds exactly the current list.

The new-category form, the editor and the settings page are classes over their React state. Their methods keep the state that the effects maintain: the editor's counters and SEO title, and the form's slug following the name.

## Model

| member | source | states |
|---|---|---|
| Storage.Load | src/context/CommentContext.tsx:89-102 | the seed when there is no window, no stored item, an empty string or a parse failure; otherwise the parsed list |
| Storage.Save | src/context/CommentContext.tsx:104-112 | with a window the key holds the whole value and every other key is untouched; without one nothing is written |
| Storage.LoadAfterSave | src/context/CategoryContext.tsx:95-118 | a load right after a save returns the saved list, whatever the seed |
| Clock.DayStart | src/context/PostContext.tsx:51 | the post date is midnight UTC of the current day: at most `now` and less than a day before it |
| Text.BlankIffAllSpace | src/app/admin/categories/new/page.tsx:46-54 | `!s.trim()` holds exactly when every character is whitespace |
| Text.DecimalRoundTrip | src/context/PostContext.tsx:50 | reading back the digits of `String(n)` gives `n` |
| Text.NatToStringInjective | src/context/CommentContext.tsx:124 | `String(a) == String(b)` exactly when `a == b`, so timestamp ids differ for different clock values |
| Posts.Added | src/context/PostContext.tsx:48-54 | one post prepended, the rest unchanged; id is the decimal of the new length, date is the current UTC day, title, author and status as given |
| Posts.Deleted | src/context/PostContext.tsx:57-59 | exactly the posts with another id remain, each as often as before and in order; an absent id leaves the list unchanged |
| Posts.Updated | src/context/PostContext.tsx:61-69 | same length; matching posts take title, author and status and keep id and date; all other posts unchanged |
| Posts.Lookup | src/context/PostContext.tsx:71-73 | none exactly when no post has the id, otherwise the first post in list order with it |
| Posts.StatusCountsPartition | src/context/PostContext.tsx:10 | published and draft counts add up to the number of posts |
| Posts.DeleteRemovesOne | src/context/PostContext.tsx:57-59 | with unique ids, deleting the id at position k removes exactly that post |
| Posts.UpdateKeepsIdsUnique | src/context/PostContext.tsx:61-69 | an update keeps unique ids unique |
| Posts.DeleteKeepsIdsUnique | src/context/PostContext.tsx:57-59 | a delete keeps unique ids unique |
| Posts.AddKeepsIdsUnique | src/context/PostContext.tsx:48-54 | an add keeps ids unique when the length-based id is not already taken |
| Posts.SeedIdsUnique | src/context/PostContext.tsx:24-46 | the three seed posts have distinct ids |
| Posts.SeedWithoutFirst | src/context/PostContext.tsx:24-46 | deleting "1" from the seed leaves its last two posts |
| Posts.PostIdCollision | src/context/PostContext.tsx:50 | from the seed, deleting "1" and adding a post gives two posts with id "3" |
| Posts.SeedScenarios | src/context/PostContext.tsx:24-59 | adding to the seed puts the new post first of four; deleting "2" leaves the first and the last seed post |
| Posts.PostStore.constructor | src/context/PostContext.tsx:24-46 | the store starts as the three-post seed and has no storage |
| Posts.PostStore.AddPost | src/context/PostContext.tsx:48-54 | the list becomes `Added` of the old list |
| Posts.PostStore.DeletePost | src/context/PostContext.tsx:57-59 | the list becomes `Deleted` of the old list |
| Posts.PostStore.UpdatePost | src/context/PostContext.tsx:61-69 | the list becomes `Updated` of the old list |
| Posts.PostStore.SortByDate | src/app/admin/dashboard/page.tsx:48-50 | the store's own list is sorted in place, newest first, and is a permutation of the old list |
| Comments.Added | src/context/CommentContext.tsx:122-129 | one comment prepended; id `String(now)`, created at `now`; post, author, content and status as given, with no default status |
| Comments.Deleted | src/context/CommentContext.tsx:131-133 | every comment with the id removed, each other comment kept as often as before and in order; an absent id changes nothing |
| Comments.Updated | src/context/CommentContext.tsx:135-143 | same length; matching comments take post, author, content and status and keep id and creation time; others unchanged |
| Comments.StatusSet | src/context/CommentContext.tsx:145-153 | only the status of the matching comments changes |
| Comments.Lookup | src/context/CommentContext.tsx:155-157 | none exactly when no comment has the id, otherwise the first match in list order |
| Comments.ByPost | src/context/CommentContext.tsx:159-161 | exactly the comments on that post, each as often as stored, in stored order |
| Comments.StatusCountsPartition | src/context/CommentContext.tsx:10 | pending, approved and rejected counts add up to the number of comments |
| Comments.ByPostAfterAdd | src/context/CommentContext.tsx:122-129 | a new comment heads its own post's list and leaves other posts' lists alone |
| Comments.SeedCommentsOnFirstPost | src/context/CommentContext.tsx:27-84 | on the seed, post "1" has exactly the comments with ids 1, 2 and 5, in that order |
| Comments.ByPostAfterDelete | src/context/CommentContext.tsx:131-161 | deleting then listing a post's comments equals listing then deleting |
| Comments.AddKeepsIdsUnique | src/context/CommentContext.tsx:122-129 | an add keeps ids unique exactly when the clock value is not already an id |
| Comments.DistinctClocksDistinctIds | src/context/CommentContext.tsx:124 | two comments added at different clock values get different ids |
| Comments.CommentStore.constructor | src/context/CommentContext.tsx:115-120 | the list is what `Load` gives, and the first run of the sync effect writes it to the slot |
| Comments.CommentStore.AddComment | src/context/CommentContext.tsx:118-129 | the list becomes `Added` of the old one and the slot mirrors it |
| Comments.CommentStore.DeleteComment | src/context/CommentContext.tsx:131-133 | the list becomes `Deleted` of the old one and the slot mirrors it |
| Comments.CommentStore.UpdateComment | src/context/CommentContext.tsx:135-143 | the list becomes `Updated` of the old one and the slot mirrors it |
| Comments.CommentStore.UpdateCommentStatus | src/context/CommentContext.tsx:145-153 | the list becomes `StatusSet` of the old one and the slot mirrors it |
| Comments.CommentStore.SortByCreated | src/app/admin/dashboard/page.tsx:52-54 | sorted in place newest first, a permutation; the slot keeps the old order because no state update runs the effect |
| Categories.Added | src/context/CategoryContext.tsx:128-136 | one category prepended; id `String(now)`, created at `now`, post count 0, all other fields as given |
| Categories.Deleted | src/context/CategoryContext.tsx:138-140 | every category with the id removed, the rest kept as often as before and in order; an absent id changes nothing |
| Categories.Updated | src/context/CategoryContext.tsx:142-150 | same length; matching categories take name, description, slug, colour and status and keep id, creation time and post count; others unchanged |
| Categories.StatusSet | src/context/CategoryContext.tsx:152-160 | only the status of the matching categories changes |
| Categories.Lookup | src/context/CategoryContext.tsx:162-164 | none exactly when no category has the id, otherwise the first match |
| Categories.BySlug | src/context/CategoryContext.tsx:166-168 | none exactly when no category has the slug, otherwise the first match; slugs are not required to be unique |
| Categories.StatusCountsPartition | src/context/CategoryContext.tsx:13 | active and inactive counts add up to the number of categories |
| Categories.LookupAfterStatusSet | src/context/CategoryContext.tsx:152-164 | after a status change, looking the id up finds the same category with the new status |
| Categories.BySlugFindsNewest | src/context/CategoryContext.tsx:128-168 | a new category shadows any older one with the same slug |
| Categories.AddKeepsIdsUnique | src/context/CategoryContext.tsx:128-136 | an add keeps ids unique exactly when the clock value is not already an id |
| Categories.CategoryStore.constructor | src/context/CategoryContext.tsx:120-126 | the list is what `Load` gives, and the first sync writes it to the slot |
| Categories.CategoryStore.AddCategory | src/context/CategoryContext.tsx:124-136 | the list becomes `Added` of the old one and the slot mirrors it |
| Categories.CategoryStore.DeleteCategory | src/context/CategoryContext.tsx:138-140 | the list becomes `Deleted` of the old one and the slot mirrors it |
| Categories.CategoryStore.UpdateCategory | src/context/CategoryContext.tsx:142-150 | the list becomes `Updated` of the old one and the slot mirrors it |
| Categories.CategoryStore.UpdateCategoryStatus | src/context/CategoryContext.tsx:152-160 | the list becomes `StatusSet` of the old one and the slot mirrors it |
| CategoryForm.Lower | src/app/admin/categories/new/page.tsx:37 | same length, each character lower-cased |
| CategoryForm.Strip | src/app/admin/categories/new/page.tsx:38 | keeps exactly the word, whitespace and hyphen characters, each as often as it occurs, in order |
| CategoryForm.Collapse | src/app/admin/categories/new/page.tsx:39 | no longer than the input, empty only for empty input, starts with a hyphen exactly when the input starts with a separator |
| CategoryForm.CollapseChars | src/app/admin/categories/new/page.tsx:39 | the output holds only hyphens and non-separator characters of the input |
| CategoryForm.CollapseNoDoubleHyphen | src/app/admin/categories/new/page.tsx:39 | a collapsed string never contains `--` |
| CategoryForm.CollapseRun | src/app/admin/categories/new/page.tsx:39 | a maximal run of separators becomes exactly one hyphen |
| CategoryForm.DropLeadingHyphens | src/app/admin/categories/new/page.tsx:40 | removes exactly the leading hyphens |
| CategoryForm.DropTrailingHyphens | src/app/admin/categories/new/page.tsx:40 | removes exactly the trailing hyphens |
| CategoryForm.SlugShape | src/app/admin/categories/new/page.tsx:35-41 | for any text, the slug holds only `[a-z0-9-]`, has no hyphen at either end and no `--` |
| CategoryForm.SlugIdempotent | src/app/admin/categories/new/page.tsx:35-41 | slugifying a generated slug gives the same slug |
| CategoryForm.SlugOfWords | src/app/admin/categories/new/page.tsx:36-40 | two alphanumeric words separated by any gap of separators and punctuation become the lower-cased words joined by one hyphen |
| CategoryForm.SlugOfCssAndStyling | src/app/admin/categories/new/page.tsx:36-40 | "CSS & Styling" becomes "css-styling" |
| CategoryForm.SlugOfWebDevelopment | src/app/admin/categories/new/page.tsx:36-40 | "Web Development" becomes "web-development" |
| CategoryForm.FollowedSlug | src/app/admin/categories/new/page.tsx:28-33 | the slug follows the new name while it is empty or equal to the slug of the previous name, and is kept otherwise |
| CategoryForm.Validate | src/app/admin/categories/new/page.tsx:46-54 | created exactly when neither name nor slug is blank; a blank name is reported first |
| CategoryForm.Form.constructor | src/app/admin/categories/new/page.tsx:20-25 | empty fields, the first colour option, status active; the slug follows the name |
| CategoryForm.Form.HandleNameChange | src/app/admin/categories/new/page.tsx:28-33 | the name is set and the slug follows by `FollowedSlug`; a slug that followed keeps following |
| CategoryForm.Form.SetSlug | src/app/admin/categories/new/page.tsx:109 | a hand edit sets only the slug |
| CategoryForm.Form.Reset | src/app/admin/categories/new/page.tsx:69-73 | empty fields, the first colour option, status active |
| CategoryForm.Form.Submit | src/app/admin/categories/new/page.tsx:43-83 | a blank name or slug changes nothing; otherwise the trimmed name, description and slug go to `addCategory` without re-slugifying, and the form is reset |
| Editor.InsertAtCursor | src/app/admin/editor/page.tsx:117-128 | the selection is replaced by the text with the rest kept, and the caret goes right after the text |
| Editor.UndoInsert | src/app/admin/editor/page.tsx:117-128 | putting back what an insertion replaced restores the content |
| Editor.WrapSelection | src/app/admin/editor/page.tsx:130-147 | the markers go around the selection; a non-empty selection spans the wrapped text, an empty one puts the caret after `before` |
| Editor.Unwrap | src/app/admin/editor/page.tsx:130-147 | cutting the markers out restores the content; the new selection is exactly the markers around the old selection |
| Editor.MarkdownCases | src/app/admin/editor/page.tsx:198-235 | exactly the twelve listed formats change the text; wrapping markers are non-empty; inserted text starts a new line |
| Editor.ParagraphIsNoOp | src/app/admin/editor/page.tsx:198-235 | `paragraph` has no markdown case and does nothing |
| Editor.FormatMarkdown | src/app/admin/editor/page.tsx:193-236 | each format wraps, inserts or leaves the content and selection unchanged, by the table |
| Editor.BoldWrapsSelection | src/app/admin/editor/page.tsx:199-201 | bold adds four characters and leaves the selection between two pairs of asterisks |
| Editor.SplitCountsRuns | src/app/admin/editor/page.tsx:82 | the non-empty pieces of `split(/\s+/)` are the maximal non-whitespace runs |
| Editor.WordCountIsRuns | src/app/admin/editor/page.tsx:79-86 | the word count is the number of maximal non-whitespace runs, and 0 exactly for blank text |
| Editor.Toggle | src/app/admin/editor/page.tsx:239-245 | the id's membership flips; an added id goes at the end; a removal keeps every other id as often as before and in order |
| Editor.ToggleTwice | src/app/admin/editor/page.tsx:239-245 | ticking then unticking an unselected category restores the list |
| Editor.SeoSync | src/app/admin/editor/page.tsx:72-76 | the effect as written: the title when the SEO title is empty or equal to the current title, otherwise the SEO title unchanged |
| Editor.SeoSyncSettles | src/app/admin/editor/page.tsx:72-76 | a second run of the effect changes nothing |
| Editor.SeoSyncStopsFollowing | src/app/admin/editor/page.tsx:72-76 | as written, typing "a" then "ab" leaves the SEO title at "a" |
| Editor.SeoSyncFrozen | src/app/admin/editor/page.tsx:72-76 | as written, a non-empty SEO title stays as it is through any sequence of title edits |
| Editor.SeoFollow | src/app/admin/editor/page.tsx:72-76 | the corrected rule: follow the title while the SEO title is empty or equal to the previous title, otherwise keep it |
| Editor.SeoFollowKeepsFollowing | src/app/admin/editor/page.tsx:72-76 | under the corrected rule, a following SEO title ends equal to the last title after any sequence of edits |
| Editor.Validate | src/app/admin/editor/page.tsx:256-268 | saved exactly when neither title nor content is blank; a blank title is reported first |
| Editor.Editor.constructor | src/app/admin/editor/page.tsx:45-60 | empty fields, status draft, counters zero |
| Editor.Editor.SetTitle | src/app/admin/editor/page.tsx:72-76 | sets the title and lets the SEO title follow by the corrected rule `SeoFollow` (see Findings); content and counters unchanged |
| Editor.Editor.SetSeoTitle | src/app/admin/editor/page.tsx:72-76 | a cleared SEO title takes the title again |
| Editor.Editor.SetContent | src/app/admin/editor/page.tsx:79-86 | the counters are recomputed: words by `WordCount`, characters by the untrimmed length |
| Editor.Editor.FormatText | src/app/admin/editor/page.tsx:117-236 | the content and returned selection are those of `FormatMarkdown`, and the counters follow |
| Editor.Editor.ToggleCategory | src/app/admin/editor/page.tsx:239-245 | the selection becomes `Toggle` of the old one |
| Editor.Editor.Submit | src/app/admin/editor/page.tsx:253-304 | a blank title or content changes nothing; otherwise a post with the trimmed title, author "Oussama" and the chosen status is added, and the form is cleared |
| Editor.Editor.Clear | src/app/admin/editor/page.tsx:283-291 | every field back to its initial value, status draft |
| Settings.Merged | src/app/admin/settings/page.tsx:155-156 | every imported field, plus the defaults for the fields the file lacks |
| Settings.ImportOfComplete | src/app/admin/settings/page.tsx:136-160 | importing a record that has every default field gives that record back |
| Settings.Loaded | src/app/admin/settings/page.tsx:99-109 | a stored, parsable record replaces the current one wholesale, with no merge; otherwise the current one stays |
| Settings.LoadAfterSave | src/app/admin/settings/page.tsx:99-128 | loading what a successful save wrote gives the saved record |
| Settings.DefaultsAllowModeration | src/app/admin/settings/page.tsx:70-90 | with the defaults, comments are allowed and the moderation switch is enabled |
| Settings.MissingAllowDisablesModeration | src/app/admin/settings/page.tsx:332 | a loaded record without `allowComments` disables the moderation switch |
| Settings.SettingsPanel.constructor | src/app/admin/settings/page.tsx:93-109 | the defaults, then the mount-time load; no unsaved changes |
| Settings.SettingsPanel.UpdateSetting | src/app/admin/settings/page.tsx:111-114 | exactly one field changes; the page has unsaved changes and Save is enabled |
| Settings.SettingsPanel.Toggle | src/app/admin/settings/page.tsx:330-331 | the field becomes the negation of its truthiness |
| Settings.SettingsPanel.SaveSettings | src/app/admin/settings/page.tsx:116-128 | a good write stores the whole record under `blogSettings` and clears the flag; a failed write keeps the flag; saving ends either way |
| Settings.SettingsPanel.ResetSettings | src/app/admin/settings/page.tsx:130-134 | the defaults, flagged as changed even when nothing differed |
| Settings.SettingsPanel.ImportSettings | src/app/admin/settings/page.tsx:148-164 | no file or a parse failure changes nothing; otherwise the defaults merged with the file, flagged as changed |
| Dashboard.ComputeStats | src/app/admin/dashboard/page.tsx:35-45 | each field is its own status count; published plus draft is the total, the three comment states add up to the total, active categories are at most the total |
| Dashboard.RecentPosts | src/app/admin/dashboard/page.tsx:48-50 | the store's list sorted in place; the result is the newest `min(5, n)` posts, sorted, drawn from the list |
| Dashboard.RecentComments | src/app/admin/dashboard/page.tsx:52-54 | the same by creation time; the slot is not rewritten |
| Lists.Newest | src/app/admin/dashboard/page.tsx:48-54 | `min(n, length)` elements, non-increasing, a sub-multiset, and nothing left out is newer than what is kept |
| Lists.SortDesc | src/app/admin/dashboard/page.tsx:49 | a permutation in non-increasing key order |
| Dashboard.PostTitle | src/app/admin/dashboard/page.tsx:88-91 | the title of the first post with that id; "Unknown Post" when there is none or its title is empty |
| Dashboard.ActiveChips | src/app/admin/dashboard/page.tsx:383-396 | at most six active categories, as a prefix of the active ones, plus "+N more" with N the rest exactly when there are more than six |
| CommentsPage.PostTitleMap | src/app/admin/comments/page.tsx:53-56 | the keys are the post ids; under each id is the title of the last post with it |
| CommentsPage.TitlesOfKeys | src/app/admin/comments/page.tsx:53-56 | the dictionary's keys are exactly the post ids |
| CommentsPage.TitlesOfLastWins | src/app/admin/comments/page.tsx:53-56 | a later post overwrites an earlier one with the same id |
| CommentsPage.DisplayTitle | src/app/admin/comments/page.tsx:108 | a missing id or an empty title shows "Unknown Post" |
| CommentsPage.TitlesAgree | src/app/admin/comments/page.tsx:200 | with unique ids the comments page and the dashboard show the same title |
| CommentsPage.Filtered | src/app/admin/comments/page.tsx:58-61 | "all" gives every comment; any other value gives exactly the comments with that status, in order |
| CommentsPage.FilteredMatchesCount | src/app/admin/comments/page.tsx:283-291 | filtering on a status shows as many rows as the header counts |
| CommentsPage.HeaderCountsAddUp | src/app/admin/comments/page.tsx:263 | the pending, approved and rejected counts add up to the total |
| CommentsPage.StatusColor | src/app/admin/comments/page.tsx:63-74 | gray exactly for a value other than the three statuses |
| CommentsPage.ColorsTellStatusesApart | src/app/admin/comments/page.tsx:63-74 | the three statuses get three different colours |
| CommentsPage.HandleStatusChange | src/app/admin/comments/page.tsx:76-79 | the row's own id goes to `updateCommentStatus` |
| CommentsPage.HandleDelete | src/app/admin/comments/page.tsx:81-84 | the row's own id goes to `deleteComment`, so the row is gone |
| CategoriesPage.Filtered | src/app/admin/categories/page.tsx:55-58 | "all" gives every category; any other value gives exactly those with that status, in order |
| CategoriesPage.FilteredMatchesCount | src/app/admin/categories/page.tsx:326-334 | filtering on a status shows as many rows as the page counts |
| CategoriesPage.CountsAddUp | src/app/admin/categories/page.tsx:326-334 | the active and inactive counts add up to the total |
| CategoriesPage.StatusColor | src/app/admin/categories/page.tsx:60-69 | green exactly for "active", gray otherwise |
| CategoriesPage.DeleteWarning | src/app/admin/categories/page.tsx:277-281 | the warning appears exactly when the post count is positive, and shows that count |
| CategoriesPage.NewCategoryNoWarning | src/app/admin/categories/page.tsx:277-281 | a category just added shows no warning |
| CategoriesPage.HandleStatusChange | src/app/admin/categories/page.tsx:71-74 | the row's own id goes to `updateCategoryStatus` |
| CategoriesPage.HandleDelete | src/app/admin/categories/page.tsx:76-79 | the row's own id goes to `deleteCategory`, so the row is gone |
| PostsPage.Filtered | src/app/admin/posts/page.tsx:52-55 | "all" gives every post; any other value gives exactly the posts with that status, in order |
| PostsPage.FilteredMatchesCount | src/app/admin/posts/page.tsx:52-55 | filtering on a status shows as many rows as that status counts |
| PostsPage.ViewsCoverAll | src/app/admin/posts/page.tsx:52-55 | the published and draft views together hold every post |
| PostsPage.BadgeColor | src/app/admin/posts/page.tsx:118-122 | green exactly for "Published", yellow otherwise |
| PostsPage.HandleDelete | src/app/admin/posts/page.tsx:139-142 | the row's id goes to `deletePost`, so the row is gone |
| AdminLayout.AtMostOneActive | src/app/admin/layout.tsx:92 | an exact path match highlights at most one item |
| AdminLayout.NewCategoryHighlightsNothing | src/app/admin/layout.tsx:92 | `/admin/categories/new` highlights no item, since there is no prefix match |
| AdminLayout.SidebarCounts | src/app/admin/layout.tsx:62-64 | the pending, draft and inactive counts, each positive exactly when such a record exists |
| AdminLayout.Badges | src/app/admin/layout.tsx:107-121 | exactly the positive counts an item is entitled to: pending comments via `showBadge`, drafts on "Posts", inactive on "Categories", and no other number |
| AdminLayout.OneBadgePerItem | src/app/admin/layout.tsx:22-54 | each navigation item carries at most one badge, and only Comments, Posts and Categories can carry one |
| AdminLayout.FooterTotals | src/app/admin/layout.tsx:132-141 | the three list lengths |
| AdminLayout.BadgesWithinTotals | src/app/admin/layout.tsx:62-141 | each badge count is at most the matching footer total |

## Findings

| source | as written | input that shows it | evidently intended | confidence | as-written member | corrected member |
|---|---|---|---|---|---|---|
| src/app/admin/editor/page.tsx:72-76 | the SEO title copies the title only while it is empty or already equal to the current title, so after the first keystroke it no longer equals the new title and stops following | type the title "a", then "ab": the SEO title stays "a" | the SEO title keeps following the title until the user edits it, i.e. it follows while it is empty or equal to the previous title | not executed | Editor.SeoSyncFrozen (with Editor.SeoSyncStopsFollowing, rule Editor.SeoSync) | Editor.SeoFollowKeepsFollowing (rule Editor.SeoFollow, used by Editor.Editor.SetTitle) |

## Where the code and the design differ

The model follows the code in each of these places:

- **Post ids.** A post id is `String(posts.length + 1)`, not a unique value. After a delete, an add can repeat an id (`Posts.PostIdCollision`).
- **Deleting by id.** A delete removes every record with the id. It removes exactly one record only while ids are unique (`Posts.DeleteRemovesOne`).
- **Comment and category ids.** These are the clock value, so they are unique only when every clock value is fresh (`Comments.AddKeepsIdsUnique`, `Categories.AddKeepsIdsUnique`).
- **Post storage and content.**
  - Posts are never written to `localStorage`.
  - The post type declares no `content` field, and no page reads one.
  - The editor's content therefore does not reach the model's post record. At run time the object spread would carry it along.

## Left out

- **Rich-text mode of the editor.** `document.execCommand`, `contentEditable`, the HTML-to-text conversion and the rich-mode word count are DOM calls. Only markdown mode is modelled.
- **Editor focus and caret.** The `setTimeout` that focuses the textarea is left out. Only the selection positions it would set are computed. The missing-textarea guard is left out: positions are assumed to lie within the content.
- **JSON.** The text encoding of JSON is left out. A slot holds the parsed value, an empty string, or text that fails to parse. A stored value that parses to something other than a list of records, or a settings file that parses to a non-object, is not modelled.
- **Settings values.** Numeric settings are integers. The export to a downloaded file and the `FileReader` callback are left out; an import is given as the parsed record or as nothing.
- **Clock reads in the stores.**
  - `addComment` and `addCategory` read the clock twice, once for the id and once for the timestamp. The model uses one value for both.
  - `addPost` reads the length from the rendered list while prepending to the latest list. The model takes them to be the same list.
- **Failed store writes.** A `setItem` that throws inside the comment or category sync effect (a full quota, say) is left out. A failed settings save is modelled.
- **Character classes.** `toLowerCase` is modelled on ASCII letters only. `\w` is ASCII. `\s` and `trim` use the ECMAScript whitespace set. Unicode case mapping is not modelled.
- **Dates.** A date is held as an integer millisecond instant. Date display (`toLocaleDateString`) and the ISO text form are left out.
- **Lists.SortDesc:** proved to give a permutation in non-increasing order, not that equal dates keep their relative order (the stability of `Array.prototype.sort`).
- **UI plumbing.** Toasts, router navigation, dialogs, `isSubmitting`, tabs and the table widgets are UI state and are left out.
- **Other pages.** `src/app/admin/posts/new/page.tsx` and `src/app/admin/posts/edit/[id]/page.tsx` are not part of this model.
- **Provider errors.** The `use…` hooks throw when called outside their provider; that check is left out.
- **Editor fields without logic.** The editor's `excerpt`, `tags`, `featuredImage` and `seoDescription` are held but have no logic beyond being cleared. `publishDate` (a clock reading that submit does not clear) is not held at all.
- Editor.Editor.SetTitle: applies the corrected SEO rule `SeoFollow` rather than the effect as written (`SeoSync`, which the page applies after each title keystroke). Under the page's rule the SEO title stops following after the first keystroke (`SeoSyncFrozen`). The editor class is built on the corrected rule (see Findings).
- **UTF-16 lengths.** JavaScript strings count UTF-16 code units. The editor's `characterCount` and the textarea's selection positions are therefore code-unit counts. The model's strings are sequences of Unicode characters. A character outside the Basic Multilingual Plane, such as an emoji, counts 2 on the page but 1 in `SetContent`, `InsertAtCursor` and `WrapSelection`.
- **Inherited object keys.** `postTitleMap` is a plain object. A post id such as `constructor` or `toString` reads an inherited function rather than "Unknown Post". The model's map has no inherited keys.
