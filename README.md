# this-week-in-open-source, modelled in Dafny

The tool collects the pull requests that a list of GitHub users opened since a given
date and writes them as a markdown report named `<date>.md`. It works in stages:

- The results of a GitHub search become `Item`s: number, title, URL, repository
  name and URL, author login and profile URL.
- Items from excluded repositories are dropped. The rest are sorted by repository.
- Each item goes under the first configured label (sorted by name) that lists its
  repository, or under `## Unknown`.
- The report is the header lines, then one section per label that has items, then
  an unknown section, then `BREAK_LINE`, then the sorted and deduplicated link
  definitions (`[@login]: url`, `[owner/repo]: url`).
- Without a readable configuration file, the report is the flat list of bullets,
  then the definitions.

The model covers the report-building core of `src/main.rs`, module by module:

- `Base`: `Option` and `Result`.
- `Model`: the `Item`, `RepoConfig` and `FileConfig` records.
- `Text`: `str::split` on one character, `join`, the empty-segment filter, and `u64::to_string`.
- `Order`: Rust's string order, a sorted set of strings, and the stable `sort_by_key`.
- `Format`: `format_item`, `format_label` and `format_items`.
- `Fetch`: turning search results into items (`get_user_items`, with the search as a parameter).
- `Links`: `extract_definitions`.
- `Labels`: `match_items_with_labels`, over an array of labels updated in place.
- `Document`: both branches of `main`, as the text written into the file.
- `Fixtures`: the repository's unit tests, stated as facts about the model.
- `FixtureLines`: the tests' expected strings, built from short concatenation steps.
  The longest, the Ember bullet, is written as two literals joined (its link, then the
  rest of the line), which is the same string.

The remote search is a parameter `search: string -> seq<seq<Issue>>`. It maps a query
to the pages of results in the order the API hands them out. Reading the
configuration file is a parameter too: `Option<FileConfig>` is `None` when the file
could not be read or parsed. A panic of `get_user_items` on a result URL whose path
has fewer than two segments is modelled as `Failure(MissingPathSegment(url))`.

Where the code's behaviour is easy to misread, the model follows the code:

- Definitions are deduplicated by the whole formatted line, not by login. A login
  seen with two profile URLs gets two lines (`Fixtures.TwoUrlsTwoLines`).
- Labels are sorted by name before matching. Both the first-match order and the
  order of the sections are therefore name order, not file order.
- The joined header is written directly before the joined content, with no line
  feed between them.
- The unknown section always opens with a blank line, even when no label section
  precedes it.
- Items already listed under a label in the configuration file are kept ahead of
  the matched ones.
- Those configuration-listed items bypass the exclusion list, because the filter
  only touches the fetched items. They get no definition lines either, because
  the definitions come from the fetched items alone.

## Model

| member | source | states |
|---|---|---|
| Text.Split | src/main.rs:101-105 | definition: `str::split` on one character: the pieces between the separators, empty pieces included, so there is always at least one. |
| Text.Join | src/main.rs:119 | definition: `join`: the pieces with the separator between each two. The same join writes the header, content and definitions (src/main.rs:247-250, 269-271). |
| Text.NonEmpty | src/main.rs:106 | definition: the filter on `x.len() > 0`: the non-empty pieces, in order. |
| Text.NatToString | src/main.rs:115 | definition: `u64::to_string`: the decimal numeral with no leading zero. |
| Text.SplitPieces | src/main.rs:101 | No piece of `s.split(c)` contains `c`. |
| Text.JoinSplit | src/main.rs:101-119 | Joining the `/`-split pieces of a URL with `/` gives the URL back. |
| Text.SplitJoin | src/main.rs:101-119 | Splitting a join of pieces without the separator gives the pieces back. |
| Text.NonEmptyMeaning | src/main.rs:105-106 | The filter keeps exactly the pieces of the path that are not empty. |
| Text.ParseNatToString | src/main.rs:115 | `number.to_string()` is a decimal numeral that reads back as the number. |
| Order.Less | src/main.rs:147-150 | definition: Rust's `Ord` on `String`: lexicographic, with a proper prefix before its extensions. It is the order of every sort (src/main.rs:209, 222). |
| Order.LessTotal | src/main.rs:147-150 | Two distinct strings are ordered one way or the other. |
| Order.LessTransitive | src/main.rs:147-150 | The string order is transitive. |
| Order.SortUnique | src/main.rs:146-150 | The result is strictly ascending and holds exactly the given strings. |
| Order.StrictlySortedUnique | src/main.rs:146-150 | Two strictly ascending sequences with the same elements are equal, so the sorted output does not depend on the set's iteration order. |
| Order.SortBy | src/main.rs:209 | The stable sort by key returns a permutation of its input, ordered by key. |
| Order.SortByElements | src/main.rs:222 | Sorting keeps the length and the elements. |
| Order.SortByStable | src/main.rs:222 | Among items with equal keys, the sorted output keeps the input order. |
| Format.FormatItem | src/main.rs:79-84 | definition: the bullet `- [<repository>] [#<number>](<url>) <title> ([@<login>])`, with the login passed apart from the item. |
| Format.FormatItemBullet | src/main.rs:79-84 | An item's line opens with `-`: it is a bullet and never a heading. |
| Format.FormatLabel | src/main.rs:86-88 | A label's line opens with `#`: it is a heading and never a bullet. |
| Format.FormatItems | src/main.rs:194-199 | One line per item. |
| Format.FormatItemsAt | src/main.rs:194-199 | Line `i` is `format_item` of item `i` by that item's own login. |
| Format.FormatItemsAppend | src/main.rs:194-199 | Formatting distributes over concatenation, so input order is kept. |
| Fetch.Pop | src/main.rs:109-110 | definition: `Vec::pop` with the popped value dropped: the last piece removed, and an empty vector left alone. |
| Fetch.Query | src/main.rs:67-74 | definition: the search query `is:pr author:<user> created:<date sign><date>`. |
| Fetch.PathSegments | src/main.rs:102-107 | definition: the non-empty `/`-separated segments of the URL's path. |
| Fetch.RepositoryUrl | src/main.rs:100-119 | definition: the URL split at `/`, with its last two pieces popped and the rest joined with `/`. |
| Fetch.ItemOf | src/main.rs:100-120 | definition: the item of one search result: author login and profile URL, the number in decimal, title, URL, `<owner>/<repo>` from the first two path segments, and the repository URL. It is `MissingPathSegment` when the path has fewer than two segments, where `path_parts[0]` or `path_parts[1]` panics. |
| Fetch.NormalizeFrom | src/main.rs:98-121 | definition: the items of a run of results, appended after those already collected, stopping at the first result that has no item. |
| Fetch.UserIssues | src/main.rs:93-128 | definition: the search results of every user, user after user and page after page. |
| Fetch.FetchItems | src/main.rs:90-132 | definition: `get_user_items`, the normalised results of all the users' searches. |
| Fetch.PullRequestPath | src/main.rs:102-107 | For a path `/<owner>/<repo>/<kind>/<number>`, the first two non-empty segments are owner and repo. |
| Fetch.PullRequestRepositoryUrl | src/main.rs:100-119 | Popping the last two `/`-pieces of `<repository>/<kind>/<number>` and re-joining gives `<repository>`. |
| Fetch.ItemOfPullRequest | src/main.rs:100-120 | A pull request URL of the usual shape yields the item named `owner/repo`. Its repository URL is `<base>/<owner>/<repo>`, and URL, title, author and number are carried over unchanged. |
| Fetch.ItemFromIssue | src/main.rs:100-120 | The innermost loop body (split, two pops, path segments, push) is `ItemOf`, panic included. |
| Fetch.NormalizeFromMeaning | src/main.rs:98-128 | Normalising succeeds exactly when every result has an item. On success the items are appended, one per result and in order, after those already collected. On failure the error is the first result that has no item. |
| Fetch.NormalizeFromAppend | src/main.rs:98-128 | Normalising two runs of results is normalising the first and continuing with the second, unless the first fails. |
| Fetch.AppendPage | src/main.rs:99-121 | The loop over one page appends that page's items, or stops at its first failing result. |
| Fetch.GetUserItems | src/main.rs:90-132 | The nested loops over users, pages and results return exactly `FetchItems`: every user's results, page after page, normalised. |
| Links.UserDefinition | src/main.rs:139 | definition: the user line `[@<login>]: <profile url>`. |
| Links.RepositoryDefinition | src/main.rs:140-143 | definition: the repository line `[<owner>/<repo>]: <repository url>`. |
| Links.UserBlock | src/main.rs:138-147 | The user lines are strictly ascending, and each is the `[@login]: url` line of some item, every item contributing its own. |
| Links.RepositoryBlock | src/main.rs:138-150 | The repository lines are strictly ascending, and each is the `[owner/repo]: url` line of some item, every item contributing its own. |
| Links.Definitions | src/main.rs:134-158 | A line is in the output exactly when it is the user line or the repository line of some input item. |
| Links.DefinitionsDependOnlyOnItemSet | src/main.rs:138-150 | The output depends only on the set of items: neither their order nor repeated items change it. |
| Links.DefinitionsLayout | src/main.rs:152-155 | Every user line comes before every repository line, and no line is repeated. |
| Links.SortedStrings | src/main.rs:146-150 | `Vec::from_iter` of a set followed by `sort()` gives the set's elements, strictly ascending. |
| Links.ExtractDefinitions | src/main.rs:134-158 | The loop that fills the two sets, followed by the sorts and appends, returns `Definitions(items)`. |
| Labels.FirstMatch | src/main.rs:179-181 | definition: the index of the first label whose `repos` lists the name, or none. The index is in range. |
| Labels.Bucket | src/main.rs:178-188 | definition: the input items, in order, whose first match is the given label (or none). |
| Labels.Unknown | src/main.rs:187 | definition: the input items, in order, whose repository no label lists. |
| Labels.Matched | src/main.rs:178-189 | definition: the labels after the loop: each keeps its name, its repos and its prior items, and gains its bucket at the end. |
| Labels.FirstMatchMeaning | src/main.rs:179-181 | The match is a label listing the repository with no earlier label listing it. There is no match exactly when no label lists the repository. |
| Labels.FirstMatchRepos | src/main.rs:179-181 | The match depends only on the labels' `repos`. |
| Labels.BucketMembership | src/main.rs:182-188 | An item is in a label's items (or the unknown list) exactly when it is an input item whose first match is that label (or none). |
| Labels.BucketAppend | src/main.rs:178-189 | Each bucket keeps input order: the bucket of a concatenation is the concatenation of the buckets. |
| Labels.CountIsMultiplicity | src/main.rs:178-189 | The occurrence count used below is the multiset multiplicity. |
| Labels.Conservation | src/main.rs:178-189 | Every item occurs as often in the input as in all the labels' added items and the unknown list together. |
| Labels.MatchedFirstMatch | src/main.rs:182-185 | Pushing items onto labels changes no label's `repos`, so no later item's match changes. |
| Labels.MatchedSnoc | src/main.rs:182-188 | One more item is pushed onto its first match and nothing else changes, or the labels stay as they are. |
| Labels.FindLabel | src/main.rs:179-181 | The search over the label array returns the first match. |
| Labels.MatchItemsWithLabels | src/main.rs:172-192 | In place: each label keeps its name, its repos and its prior items, and gains its bucket at the end. The returned list is the items that no label claims. |
| Document.BreakLine | src/main.rs:16-18 | definition: `BREAK_LINE`, two line feeds. |
| Document.LabelBlock | src/main.rs:235-237 | definition: the loop body for one label: its heading, a blank line, then its bullets. |
| Document.SortedLabels | src/main.rs:208-209 | definition: the configuration's labels, stably sorted by name. |
| Document.PreparedItems | src/main.rs:216-222 | definition: the fetched items outside the excluded repositories, stably sorted by repository name. |
| Document.Sections | src/main.rs:231-238 | definition: for each label, a blank line unless it is the first, its heading, a blank line and its bullets. |
| Document.UnknownSection | src/main.rs:240-245 | definition: a blank line, `## Unknown`, a blank line and the unknown items' bullets, or nothing when there are no unknown items. |
| Document.Content | src/main.rs:229-245 | definition: the sections of the labels that have items, then the unknown section. |
| Document.GroupedDocument | src/main.rs:208-250 | definition: the joined header, the joined content, `BREAK_LINE`, then the joined definitions. The content and definitions come from the prepared items and the sorted labels. |
| Document.FlatDocument | src/main.rs:258-271 | definition: the joined bullets of the fetched items sorted by repository, `BREAK_LINE`, then the joined definitions of those items. |
| Document.Retained | src/main.rs:217-220 | An item is kept exactly when it was fetched and its repository is not excluded. |
| Document.NonEmptyLabels | src/main.rs:231 | A label is rendered exactly when it has items. |
| Document.SectionsStep | src/main.rs:231-238 | A new non-empty label adds a blank line (unless it is the first rendered one), its heading, a blank line and its bullets. An empty label adds nothing. |
| Document.RenderContent | src/main.rs:229-245 | The content loop and the unknown section produce `Content`. |
| Document.SectionsHeadings | src/main.rs:231-238 | The headings of the sections are the labels' headings, in order. |
| Document.SectionsBullets | src/main.rs:231-238 | The bullets of the sections are the labels' items, label after label. |
| Document.GatheredNonEmpty | src/main.rs:231 | Skipping empty labels loses no item. |
| Document.UnknownSectionMarks | src/main.rs:240-245 | The unknown section has the `## Unknown` heading exactly when some item has no label, and its bullets are those items. |
| Document.ContentHeadings | src/main.rs:231-245 | The content's headings are one per label with items, in order, then `## Unknown` exactly when some item has no label. A label without items gets no heading. |
| Document.ContentBullets | src/main.rs:231-245 | The content's bullets are every label's items, then the unknown items, each once and in order. |
| Document.SpacedAppend | src/main.rs:231-245 | Joining two runs keeps every heading between blank lines, provided a heading opening the second run follows a blank line. |
| Document.SectionsLayout | src/main.rs:231-238 | In the sections every heading is followed by a blank line and preceded by one unless it opens the content, and the first line is the first label's heading. |
| Document.ContentLayout | src/main.rs:231-245 | Every heading of the whole content, `## Unknown` included, has a blank line after it and, unless it is the first line, before it. |
| Document.ExcludedRepositoriesAbsent | src/main.rs:217-227 | No fetched item from an excluded repository reaches the matcher, the items the matcher adds to the labels, the unknown list or the definitions. Every fetched item outside those repositories does reach the matcher. |
| Document.JoinAroundBreak | src/main.rs:248-250 | A blank line between two non-empty runs joins to `BREAK_LINE` between their joins. |
| Document.FlatDocumentLines | src/main.rs:258-271 | Read back line by line, the flat report is the sorted items' bullets, one blank line, and their definitions. |
| Document.RenderGrouped | src/main.rs:208-250 | The grouped branch (filter, sort, match, render, and write header, content, `BREAK_LINE`, definitions) produces `GroupedDocument`. |
| Document.RenderFlat | src/main.rs:258-271 | The fallback branch produces `FlatDocument`. |
| Document.ReportUsers | src/main.rs:211-215 | definition: the configuration's users, unless it lists none, in which case the command line's. |
| Document.Report | src/main.rs:202-276 | The file is `<date>.md`. With a configuration that lists users, the run succeeds exactly when fetching those users' items succeeds. With a configuration that lists none, or with no configuration, it succeeds exactly when fetching the command line's users' items succeeds. |
| Document.Run | src/main.rs:202-276 | `main` returns `Report`. |
| Fixtures.FormatsLabel | src/main.rs:313-315 | `it_formats_label`: the Ember label formats as `## Ember`. |
| Fixtures.FormatsItem | src/main.rs:317-322 | `it_formats_item`: the Atom item by `mansona` formats as the test's expected line, character for character. |
| Fixtures.FormatsEmberItem | src/main.rs:328 | The Ember item by `BobrImperator` formats as the second expected line of `it_formats_items`. |
| Fixtures.FormatsPair | src/main.rs:194-199 | Two items format as two lines, in order, each by its own author. |
| Fixtures.FormatsItems | src/main.rs:325-331 | `it_formats_items`: the two fixture items give exactly the test's two expected lines, in order. |
| Fixtures.BobrImperatorLine | src/main.rs:336 | The Ember item's user line is the test's first expected definition. |
| Fixtures.MansonaLine | src/main.rs:337 | The Atom item's user line is the test's second expected definition. |
| Fixtures.AtomRepositoryLine | src/main.rs:338 | The Atom item's repository line is the test's third expected definition. |
| Fixtures.EmberRepositoryLine | src/main.rs:339 | The Ember item's repository line is the test's fourth expected definition. |
| Fixtures.PairDefinitions | src/main.rs:134-158 | For two items whose user lines sort in one order and whose repository lines sort in the other, the definitions are the two user lines, then the two repository lines, each pair sorted. |
| Fixtures.ExtractsDefinitions | src/main.rs:334-342 | `it_extracts_definitions`: the definitions are exactly the test's four expected lines, in order: the `BobrImperator` line, the `mansona` line, then the `atom/keyboard-layout` and `ember-engines/ember-engines` lines. |
| Fixtures.MatchesItemsWithLabels | src/main.rs:345-362 | `it_matches_items_with_labels`: the Ember label gets the Ember item, and the Atom item is unknown. |
| Fixtures.TwoUrlsTwoLines | src/main.rs:138-147 | One login with two profile URLs gets two user lines, ordered by URL. |

## Left out

- The octocrab search, pagination, `async`/`tokio` and the `.unwrap()` panics on network errors (src/main.rs:61-77, 94-96, 122-127) are remote I/O. The search is the parameter `search`, and its pages are a finite sequence; only the query string of `get_prs` is modelled (`Fetch.Query`).
- `initialize_octocrab` reads `GITHUB_PERSONAL_TOKEN` from the process environment (src/main.rs:160-170). That is not modelled.
- `read_config_from_file` opens the file and parses JSON with serde (src/main.rs:52-59). Its outcome is the parameter `Option<FileConfig>`, with `None` for any error.
- `File::create` and the writes (src/main.rs:225, 247-250, 263-271) are modelled only as the file name and the text written. A failing `File::create` panic is not modelled. The two `println!` lines of the fallback branch (src/main.rs:253-257) are not modelled either.
- The `cli` module (src/main.rs:13-14) is not part of this model. `Args` holds only the users, the date and the date sign that the report uses.
- The `url` crate's parsing of `html_url.path()` (src/main.rs:102-107) is not modelled. Each `Issue` carries its path next to its serialised URL, and `Fetch.ItemOfPullRequest` relates the two for URLs of the usual shape.
- HashSet iteration order (src/main.rs:146-150) is a nondeterministic choice in `Links.SortedStrings`. The result does not depend on it.
- Vectors updated in place (`items`, `content`, `unknown_items`, the two sets) are local `seq` and `set` variables. A mutable reference to them is never shared.
- Labels.Conservation: stated per item as an equality of occurrence counts (turned into multiplicities by `Labels.CountIsMultiplicity`), not as one equality of multisets over all buckets.
- Links.DefinitionsLayout: requires that no repository name opens with `@`. GitHub owner names cannot, but the source does not check it.
- Document.FlatDocumentLines: requires at least one item and no line feed in any field. With none, or with a line feed in a title, the text does not split back into its lines.
- Fetch.ItemOfPullRequest: covers URLs of the form `<base>/<owner>/<repo>/<kind>/<number>`. Other URLs are handled by `Fetch.ItemOf` as the code does, but are characterised only by `Fetch.NormalizeFromMeaning`.
