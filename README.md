# Codegx portfolio: verified model of its decision logic

This project models, in Dafny, the parts of the Codegx Technology portfolio repository that make decisions rather than render pages, and proves what they promise.

- **CodeCrusher configuration resolver** (`main.py`):
  - `load_config` validates the keys of the parsed JSON configuration file and drops the invalid ones.
  - `merge_config_with_args` combines the surviving file values with the command-line flags under fixed precedence rules.
  - `main` chooses the configuration path.

  A Python dict is an association list whose keys are kept in insertion order, because the order is visible in the printed result. `load_config` and `merge_config_with_args` are methods that update the dict step by step, as the source does. Each method is proved equal to a declarative function, and the precedence rules, the key order and the value types are lemmas about that function.
- **The site's React pages and components:**
  - the three wizard forms (quote builder, quote form, simple quote form) with their step machines, step validity, list toggles, price sums and the service recommendation;
  - the quiz's vote count and stable top three;
  - the testimonial carousel's index arithmetic;
  - the feedback section's pagination and submission;
  - the tag lists and search filters of the services and blog listings, with the blog's newest-first sort and featured/regular split;
  - the agency projects' category buttons and filter;
  - the project card's description truncation;
  - the API URL helper and the page-title rule;
  - the desktop and keyboard-shortcut hooks.

  Component state that handlers update becomes a class whose methods state the whole new state. Expression-only logic becomes functions and lemmas.
- **The sitemap script** (`scripts/generate-sitemap.js`): the file-path to URL-path mapping, and the XML document built by a loop over the page list.
- **The Django helper** `Project.get_technologies_list` (`core/models.py`).

Shared helpers live in `Collections` (filter, first-occurrence de-duplication, counters, stable descending sort), `Text` (JavaScript `startsWith`/`includes`/`indexOf`/`replace`, and Python `split`/`strip`/`isspace`), `Steps` (the bounded next/previous step rules) and `Search` (the search box and tag filter shared by the services and blog pages).

Behaviour that follows the code where a reader might expect otherwise:

- **Precedence of `--provider`, `--model`, `--prompt` and `--tags`.** The docstring of `merge_config_with_args` (main.py:143-144) says command-line arguments take precedence over the file. The code assigns these four only when the flag value is truthy (main.py:172-175 and 184-187), so an empty string keeps the file value. The model follows the code.
- **The two cache switches.** `--no-cache` is assigned after `--use-cache` (main.py:180-183), so it wins when both are given.
- **JavaScript arithmetic is modelled as the language defines it.**
  - `%` truncates toward zero.
  - `x % 0` is NaN, which the carousel meets with an empty testimonial list.
  - `slice` bounds can be negative and are clipped.
  - The quiz tab number stops advancing once it reaches the number of questions.
- **The sitemap skips any path containing "param".** This includes a static page whose name merely contains the word (`Sitemap.ParamInNameNotListed`).
- **An "All" category.** A project filed under the category "All" makes the "All" button appear twice (`AgencyProjects.Categories`).

## Model

| member | source | states |
|---|---|---|
| CodeCrusher.ValidatedSpec | main.py:42-65 | after validation an invalid `provider`, `max_retries`, `timeout`, `use_cache` or `default_tags` is absent, every other key keeps its value, the entries keep their order and the keys stay distinct |
| CodeCrusher.PruneStep | main.py:43-62 | one `pop` of an invalid known key turns the entries surviving the earlier checks into those surviving one more check |
| CodeCrusher.CheckedKeysSuffice | main.py:42-62 | surviving the five checks, in the source's order, is exactly validation |
| CodeCrusher.LoadConfig | main.py:20-73 | a missing, malformed or unreadable file yields an empty dict and nothing is raised; a parsed object yields its validated entries |
| CodeCrusher.Set | main.py:153-187 | `d[k] = v` gives `k` the value `v`, keeps every other key, and appends `k` only when it is new |
| CodeCrusher.AssignIf | main.py:153-187 | a guarded assignment changes only `k`, and only when a value is given |
| CodeCrusher.StringFlag | main.py:172-175 | a string flag supplies a value exactly when it is truthy (given and not empty) |
| CodeCrusher.IntFlag | main.py:176-179 | an integer flag supplies a value whenever it is given, 0 included |
| CodeCrusher.SwitchFlag | main.py:180-183 | a cache switch supplies its fixed boolean exactly when it is on |
| CodeCrusher.ListFlag | main.py:184-187 | `--tags` supplies the list exactly when it is non-empty |
| CodeCrusher.MergeConfigWithArgs | main.py:141-189 | the dict built by the sequence of conditional assignments equals the declarative merge |
| CodeCrusher.FileValuesGet | main.py:153-169 | the file half copies five keys and renames `default_prompt_text` to `prompt` and `default_tags` to `tags` |
| CodeCrusher.FlagsGet | main.py:171-187 | the flag half overrides exactly the keys whose flags supply a value; `--no-cache` is applied after `--use-cache` |
| CodeCrusher.MergedValues | main.py:141-189 | the precedence of every merged key: truthy string flags over the file, given integer flags over the file, `--no-cache` over `--use-cache` over the file, otherwise the file value or absence |
| CodeCrusher.FileValuesKeys | main.py:153-169 | the file half appends the keys it assigns, in merge order |
| CodeCrusher.FlagsKeys | main.py:171-187 | the flag half appends the keys it assigns that are new, in merge order |
| CodeCrusher.FileKeyOrder | main.py:153-169 | the keys taken from the file come in the fixed order provider, model, max_retries, timeout, use_cache, prompt, tags |
| CodeCrusher.FlagKeysAfterFile | main.py:171-187 | after the file half, a flag appends its key only when the file did not supply it |
| CodeCrusher.MergedKeyOrder | main.py:141-189 | the merged keys are the file-supplied keys in fixed order, followed by the keys only a flag supplies, in the same order |
| CodeCrusher.MergedOnlyOutputKeys | main.py:141-189 | every merged key is one of the seven output keys; unknown file keys never reach the result |
| CodeCrusher.ConfigPath | main.py:196 | `--config` when truthy, otherwise `codecrusher.config.json` |
| CodeCrusher.MergedOutputOk | main.py:141-189 | merging validated file values with flags gives only output keys; `provider` is one of the valid providers, `max_retries`/`timeout` an integer (or boolean), `use_cache` a boolean and `tags` an array; `model`, `prompt` and the elements of `tags` are whatever the file or flags hold |
| CodeCrusher.MergedEmpty | main.py:141-189 | with no file values and no flags the merge is empty |
| CodeCrusher.ResolveConfiguration | main.py:191-215 | the result is the merge of the flags with the validated file at the chosen path (an empty file configuration when it is not usable); every resulting key is an output key, typed as `MergedOutputOk` states for `provider`, `max_retries`, `timeout`, `use_cache` and `tags` (`model`, `prompt` and tag elements unconstrained), and with no usable file and no flags the result is empty |
| Steps.Next | client/src/pages/quote-builder.tsx:151-156 | the step moves up by one exactly when below the last step, and stays within 1..last |
| Steps.Prev | client/src/pages/quote-builder.tsx:159-164 | the step moves down by one exactly when above 1, and stays at least 1 |
| Steps.PrevAfterNext | client/src/components/Forms/SimpleQuoteForm.tsx:64-75 | from a step below the last, next then previous returns to the same step |
| Steps.NextAfterPrev | client/src/components/Forms/QuoteForm.tsx:129-142 | from a step above the first, previous then next returns to the same step |
| Steps.NextReachesLast | client/src/pages/quote-builder.tsx:151-156 | `k` presses of next reach `step + k`, capped at the last step |
| QuoteBuilder.Toggle | client/src/pages/quote-builder.tsx:185-191 | a present id is removed with all its copies and the rest keeps its order and multiplicities; an absent id is appended at the end |
| QuoteBuilder.ToggleTwice | client/src/pages/quote-builder.tsx:185-191 | toggling an absent id twice gives back the original list |
| QuoteBuilder.PriceOf | client/src/pages/quote-builder.tsx:93-96 | the price of the first catalogue entry with the id, or 0 for an unknown id |
| QuoteBuilder.ServicesTotal | client/src/pages/quote-builder.tsx:93-96 | the sum of the base prices of the selected services, unknown ids adding 0 (`TotalKnownOnly`, `ServicesTotalSelect`) |
| QuoteBuilder.AddonsTotal | client/src/pages/quote-builder.tsx:105-108 | the sum of the prices of the selected add-ons, unknown ids adding 0 (`TotalKnownOnly`, `AddonsTotalSelect`) |
| QuoteBuilder.TotalKnownOnly | client/src/pages/quote-builder.tsx:93-96 | unknown ids add nothing: the total equals the total over the known ids |
| QuoteBuilder.TotalAppend | client/src/pages/quote-builder.tsx:93-96 | the total of two lists is the sum of their totals |
| QuoteBuilder.ServicesTotalSelect | client/src/pages/quote-builder.tsx:93-96 | appending a catalogue service raises `servicesTotal` by exactly its base price |
| QuoteBuilder.AddonsTotalSelect | client/src/pages/quote-builder.tsx:105-108 | appending a catalogue add-on raises `addonsTotal` by exactly its price |
| QuoteBuilder.StepValid | client/src/pages/quote-builder.tsx:167-182 | step 1 needs a selected service, step 2 a complexity, step 3 a timeline, step 4 nothing, step 5 a name and an e-mail; any other step is invalid |
| QuoteBuilder.ToggleStepOne | client/src/pages/quote-builder.tsx:167-182 | after adding a service (or toggling an id off a list that holds another), step 1 is valid |
| QuoteBuilder.Page.constructor | client/src/pages/quote-builder.tsx:78-91 | step 1, nothing selected, complexity "medium", timeline "standard", empty contact |
| QuoteBuilder.Page.HandleNextStep | client/src/pages/quote-builder.tsx:151-156 | the step advances only below 5; 1 ≤ step ≤ 5 is kept; nothing else changes |
| QuoteBuilder.Page.HandlePrevStep | client/src/pages/quote-builder.tsx:159-164 | the step goes back only above 1; 1 ≤ step ≤ 5 is kept; nothing else changes |
| QuoteBuilder.Page.ToggleService | client/src/pages/quote-builder.tsx:185-191 | the selected services are toggled; nothing else changes |
| QuoteBuilder.Page.ToggleAddon | client/src/pages/quote-builder.tsx:194-200 | the selected add-ons are toggled; nothing else changes |
| QuoteForm.Recommend | client/src/components/Forms/QuoteForm.tsx:185 | a goal's entry in the recommendation table, or "AI Strategy & Consulting" for a goal missing from it |
| QuoteForm.CountRecommendations | client/src/components/Forms/QuoteForm.tsx:183-188 | the counter lists each recommended service once, in first-occurrence order, with the number of goals recommending it |
| QuoteForm.FirstMaximum | client/src/components/Forms/QuoteForm.tsx:190-198 | the strict `>` scan returns an entry of maximal count that no earlier entry ties |
| QuoteForm.TopOfTally | client/src/components/Forms/QuoteForm.tsx:190-198 | the first entry of maximal count is the most recommended service, ties going to the one first encountered |
| QuoteForm.GetRecommendedService | client/src/components/Forms/QuoteForm.tsx:178-201 | no goals give "AI Strategy & Consulting"; otherwise the most recommended service, duplicates counting twice and ties going to the first encountered; always a table value or the default |
| QuoteForm.RecommendationInTable | client/src/components/Forms/QuoteForm.tsx:60-69 | every recommendation is a table value or "AI Strategy & Consulting" |
| QuoteForm.EstimatedRange | client/src/components/Forms/QuoteForm.tsx:204-219 | the budget's range from the table, the default "15,000 - 50,000" otherwise; it does not depend on the goals |
| QuoteForm.GoalChange | client/src/components/Forms/QuoteForm.tsx:163-175 | checking an absent goal appends it; unchecking a present goal removes every copy; the goal is present afterwards exactly when the box is checked; otherwise the list is unchanged |
| QuoteForm.GoalChangeIdempotent | client/src/components/Forms/QuoteForm.tsx:163-175 | repeating the same change changes nothing more |
| QuoteForm.UncheckThenCheck | client/src/components/Forms/QuoteForm.tsx:163-175 | unchecking and rechecking a goal moves it to the end of the list |
| QuoteForm.StepValid | client/src/components/Forms/QuoteForm.tsx:145-160 | step 1 needs a business type, step 2 a goal, step 3 a budget, step 4 an urgency, step 5 the form's own validation; any other step is invalid |
| QuoteForm.GoalChangeStepTwo | client/src/components/Forms/QuoteForm.tsx:145-175 | checking a goal makes step 2 valid; unchecking the only goal makes it invalid |
| QuoteForm.Form.constructor | client/src/components/Forms/QuoteForm.tsx:103-115 | step 1 with empty answers |
| QuoteForm.Form.HandleNextStep | client/src/components/Forms/QuoteForm.tsx:129-134 | the step advances only below 5; 1 ≤ step ≤ 5 is kept; the answers are unchanged |
| QuoteForm.Form.HandlePrevStep | client/src/components/Forms/QuoteForm.tsx:137-142 | the step goes back only above 1; 1 ≤ step ≤ 5 is kept; the answers are unchanged |
| QuoteForm.Form.HandleGoalChange | client/src/components/Forms/QuoteForm.tsx:163-175 | the goals become the checked or unchecked list; nothing else changes |
| SimpleQuoteForm.StepValid | client/src/components/Forms/SimpleQuoteForm.tsx:78-89 | each of the three steps needs both of its fields filled; any other step is invalid |
| SimpleQuoteForm.AfterNextClick | client/src/components/Forms/SimpleQuoteForm.tsx:142 | a click on the Next button advances at most one step, and only past a complete step |
| SimpleQuoteForm.SubmitNeedsContact | client/src/components/Forms/SimpleQuoteForm.tsx:250 | an enabled submit button on step 3 means name and e-mail are filled in |
| SimpleQuoteForm.TwoClicksReachLast | client/src/components/Forms/SimpleQuoteForm.tsx:78-89 | two Next clicks from step 1 reach step 3 exactly when steps 1 and 2 are complete |
| SimpleQuoteForm.Form.constructor | client/src/components/Forms/SimpleQuoteForm.tsx:34-40 | step 1 with every field undefined, so step 1 is not yet valid |
| SimpleQuoteForm.Form.HandleNextStep | client/src/components/Forms/SimpleQuoteForm.tsx:64-68 | the step advances only below 3, without consulting the fields |
| SimpleQuoteForm.Form.HandlePrevStep | client/src/components/Forms/SimpleQuoteForm.tsx:71-75 | the step goes back only above 1 |
| SimpleQuoteForm.Form.ClickNext | client/src/components/Forms/SimpleQuoteForm.tsx:195-196 | the enabled button runs `handleNextStep`; the disabled one does nothing |
| Quiz.FindOption | client/src/pages/quiz.tsx:136 | the first option with the answer's id, or none when no option has it |
| Quiz.Votes | client/src/pages/quiz.tsx:135-142 | the services of each answered question's chosen option, question by question in the order of the questions (ids "1" to "5", the order `Object.entries` lists them); unknown keys and unknown options cast no vote (`VotesIgnoreUnknown`, `NoAnswersNoVotes`) |
| Quiz.AddVotes | client/src/pages/quiz.tsx:139-141 | after the inner loop the counter is the tally of the earlier votes followed by the chosen option's services |
| Quiz.VotesIgnoreUnknown | client/src/pages/quiz.tsx:135-136 | an answer stored under a key that is no question id casts no vote |
| Quiz.NoAnswersNoVotes | client/src/pages/quiz.tsx:133-142 | with no answers there are no votes |
| Quiz.CountVotes | client/src/pages/quiz.tsx:133-142 | each voted service once, in first-vote order, with the number of chosen options listing it |
| Quiz.TopIds | client/src/pages/quiz.tsx:145-153 | at most three ids, and exactly three when at least three services were voted for |
| Quiz.Ranking | client/src/pages/quiz.tsx:145-147 | the ranking is a permutation of the counter in non-increasing count order, ties keep counter order, and the top ids are its first entries |
| Quiz.FindService | client/src/pages/quiz.tsx:152 | the first service with the id, or none when no service has it |
| Quiz.LookUp | client/src/pages/quiz.tsx:152-153 | no more services than ids; every service returned is one of the data's services and has one of the ids |
| Quiz.LookUpFound | client/src/pages/quiz.tsx:152-153 | the result is, in id order, the service found for each id that names one: a found id keeps its service and only missing ids are dropped |
| Quiz.LookUpAllFound | client/src/pages/quiz.tsx:152-153 | when every id names a service, nothing is dropped: one service per id, in id order |
| Quiz.QuizResults | client/src/pages/quiz.tsx:133-153 | the results are the services found for the (at most three) most voted ids of the vote tally over the five questions |
| Quiz.Page.constructor | client/src/pages/quiz.tsx:37-40 | question 1, no answers, no results |
| Quiz.Page.HandleAnswerSelect | client/src/pages/quiz.tsx:113-126 | the answer overwrites any earlier one; the answered count is the number of distinct question ids; the tab advances only below the number of questions |
| Quiz.Page.CalculateResults | client/src/pages/quiz.tsx:129-157 | without data nothing changes; otherwise the results are the found services among the top three ids and the results tab opens; the answers and the answered count are untouched |
| Quiz.Page.ResetQuiz | client/src/pages/quiz.tsx:160-165 | answers and results emptied, count 0, question 1 |
| Carousel.JsRem | client/src/components/testimonial-carousel.tsx:42 | JavaScript `%`: NaN for a zero length, otherwise the remainder truncated toward zero |
| Carousel.NextIndex | client/src/components/testimonial-carousel.tsx:59-63 | on a valid index of a non-empty list, the next index, wrapping from the last to 0 |
| Carousel.PrevIndex | client/src/components/testimonial-carousel.tsx:53-57 | on a valid index of a non-empty list, the previous index, wrapping from 0 to the last |
| Carousel.PrevNextInverse | client/src/components/testimonial-carousel.tsx:53-63 | previous undoes next and next undoes previous |
| Carousel.NextTimesWrap | client/src/components/testimonial-carousel.tsx:62 | `k ≤ n` presses of next move `k` places, wrapping once |
| Carousel.FullCycle | client/src/components/testimonial-carousel.tsx:42 | `n` steps of next (or of the autoplay tick) return to the start |
| Carousel.DotDirection | client/src/components/testimonial-carousel.tsx:94-97 | 1 exactly when the dot lies after the current index, otherwise -1, the current dot included |
| Carousel.Carousel.constructor | client/src/components/testimonial-carousel.tsx:32-33 | index 0, direction 0 |
| Carousel.Carousel.HandleNext | client/src/components/testimonial-carousel.tsx:40-43 | next index, direction 1, a valid index stays valid; also the autoplay tick |
| Carousel.Carousel.HandlePrev | client/src/components/testimonial-carousel.tsx:53-57 | previous index, direction -1, a valid index stays valid |
| Carousel.Carousel.ClickDot | client/src/components/testimonial-carousel.tsx:94-97 | the dot's index, direction by comparison with the old index |
| Feedback.TotalPages | client/src/components/sections/FeedbackSection.tsx:100 | the ceiling of length / 4 |
| Feedback.JsSlice | client/src/components/sections/FeedbackSection.tsx:105 | JavaScript `slice`, clipped to the list |
| Feedback.PageItems | client/src/components/sections/FeedbackSection.tsx:103-105 | at most 4 feedbacks per page, and none of the pages 1..total is empty |
| Feedback.PagesPrefix | client/src/components/sections/FeedbackSection.tsx:103-105 | the first `k` pages together are the first `4k` feedbacks |
| Feedback.AllPages | client/src/components/sections/FeedbackSection.tsx:100-105 | the pages 1..total concatenate to the whole list |
| Feedback.Decimal | client/src/components/sections/FeedbackSection.tsx:130 | `toString` of a natural number is a non-empty string of digits that denotes the number, without a leading zero |
| Feedback.ShowPrevious | client/src/components/sections/FeedbackSection.tsx:322 | the "Previous" control is shown only past page 1 |
| Feedback.ShowNext | client/src/components/sections/FeedbackSection.tsx:330 | the "Next" control is shown only before the last page |
| Feedback.Section.constructor | client/src/components/sections/FeedbackSection.tsx:86-96 | the sample list, an empty form with rating 5, page 1 |
| Feedback.Section.HandleRatingChange | client/src/components/sections/FeedbackSection.tsx:117-122 | only the form's rating changes |
| Feedback.Section.HandleSubmit | client/src/components/sections/FeedbackSection.tsx:125-149 | a feedback with id `length + 1` and the form's values is put in front of the unchanged list; form reset; page 1 |
| Feedback.Section.ClickPrevious | client/src/components/sections/FeedbackSection.tsx:322-324 | shown only past page 1; goes back one page |
| Feedback.Section.ClickNext | client/src/components/sections/FeedbackSection.tsx:330-332 | shown only before the last page; goes forward one page |
| Feedback.Section.ClickPage | client/src/components/sections/FeedbackSection.tsx:151-163 | a page link selects its page |
| Search.AllTags | client/src/pages/services.tsx:41-43 | every tag of every item, each exactly once |
| Search.AllTagsOrder | client/src/pages/blog.tsx:50-52 | the tags are listed in first-occurrence order |
| Search.ItemTags | client/src/pages/services.tsx:41-43 | no tags before the data arrives; then exactly the tags of the items, without repetition (the blog's `allTags`, blog.tsx lines 50-52, is the same computation over posts) |
| Search.TagClick | client/src/pages/services.tsx:104 | clicking the active tag clears it; any other tag becomes active |
| Search.TagClickTwice | client/src/pages/blog.tsx:123 | clicking the same badge twice clears the tag unless it was active before |
| Search.ClickTag | client/src/pages/blog.tsx:123 | a badge toggles the active tag and keeps the query |
| Search.MatchesSearch | client/src/pages/services.tsx:48-53 | an empty query, or the lower-cased query inside the lower-cased title, text or one of the tags (the blog's search, blog.tsx lines 57-62, is the same) |
| Search.MatchesTag | client/src/pages/services.tsx:48-53 | no active tag, or the item carries the active tag |
| Search.NoFiltersMatch | client/src/pages/services.tsx:48-53 | an empty query and no tag let every item pass |
| ServicesPage.FilteredServices | client/src/pages/services.tsx:46-57 | an order-preserving subsequence holding exactly the services that match the search and the tag, each as many times as in the data; none without data |
| ServicesPage.NoFiltersShowAll | client/src/pages/services.tsx:48-53 | with the initial filters every service is listed |
| ServicesPage.ClickAllServices | client/src/pages/services.tsx:91 | "All Services" clears the tag and keeps the query |
| ServicesPage.ClearFilters | client/src/pages/services.tsx:128-131 | empty query, no tag |
| Blog.FilteredPosts | client/src/pages/blog.tsx:55-66 | an order-preserving subsequence holding exactly the posts that match the search and the tag, each as many times as in the data |
| Blog.SortedPosts | client/src/pages/blog.tsx:69-71 | a permutation of the filtered posts in non-increasing date order |
| Blog.SortedPostsStable | client/src/pages/blog.tsx:69-71 | posts of equal date keep their filtered order |
| Blog.FeaturedPosts | client/src/pages/blog.tsx:74 | exactly the featured posts, in sorted order |
| Blog.RegularPosts | client/src/pages/blog.tsx:77 | exactly the other posts, in sorted order |
| Blog.FeaturedRegularPartition | client/src/pages/blog.tsx:69-77 | featured and regular posts partition the sorted posts, and both stay newest first |
| Blog.ClearFiltersShowAll | client/src/pages/blog.tsx:146-149 | after "Clear Filters" every post is listed |
| AgencyProjects.Categories | client/src/pages/agency/projects.tsx:111 | "All" first, then each project category exactly once |
| AgencyProjects.CategoriesOrder | client/src/pages/agency/projects.tsx:111 | the categories follow their first occurrence among the projects |
| AgencyProjects.SampleCategories | client/src/pages/agency/projects.tsx:28-111 | the six sample projects give the buttons All, AI & Machine Learning, Blockchain, Smart City, Web Development, Mobile Development |
| AgencyProjects.ProjectsIn | client/src/pages/agency/projects.tsx:116-120 | "All" shows every project; any other category shows exactly its projects, in order |
| AgencyProjects.Page.constructor | client/src/pages/agency/projects.tsx:106-108 | every project shown and "All" active |
| AgencyProjects.Page.FilterProjects | client/src/pages/agency/projects.tsx:114-121 | the active filter becomes the argument and the shown list is the one it selects |
| ProjectCard.Truncate | client/src/components/Projects/ProjectCard.tsx:42-44 | up to 150 characters unchanged; longer ones become their first 150 characters and "..."; never more than 153 characters; the result always starts with the description's first min(length, 150) characters |
| ProjectCard.TruncateIdempotent | client/src/components/Projects/ProjectCard.tsx:42-44 | truncating a truncated description changes nothing |
| Api.ApiBaseUrl | client/src/utils/api.ts:6-13 | the configured URL in production when set and not empty, the deployed default otherwise, the local server in development |
| Api.CreateApiUrl | client/src/utils/api.ts:18-21 | base, exactly one "/", then the path without its own leading slash |
| Api.CreateApiUrlCases | client/src/utils/api.ts:20 | a path starting with "/" is appended as it is; any other, "" included, after a "/" |
| Api.LeadingSlashOptional | client/src/utils/api.ts:20 | `p` and `"/" + p` give the same URL |
| Head.SiteTitle | client/src/components/head.tsx:16 | a title containing " - " is kept; any other gets " - Codegx Technology"; the result always contains " - " and starts with the title |
| Head.SiteTitleIdempotent | client/src/components/head.tsx:16 | the rule applied to its own result changes nothing |
| Head.DefaultTitleKept | client/src/components/head.tsx:11-16 | the default title is used unchanged |
| Desktop.DesktopState.constructor | client/src/hooks/use-desktop.ts:8 | not desktop before the first check |
| Desktop.DesktopState.CheckDesktop | client/src/hooks/use-desktop.ts:11-13 | desktop exactly when the width is at least 1024 |
| Desktop.KeyPress | client/src/hooks/use-desktop.ts:57-79 | no reaction off desktop; on desktop a case-insensitive key match with every requested modifier held prevents the default and runs the callback once, otherwise nothing |
| Desktop.ExtraModifiersIgnored | client/src/hooks/use-desktop.ts:65-67 | holding extra modifiers never prevents a match |
| Desktop.PlainShortcut | client/src/hooks/use-desktop.ts:63-74 | a shortcut without modifiers fires on its key whatever is held |
| Sitemap.SiteUrl | scripts/generate-sitemap.js:11 | the configured site URL when set and not empty, otherwise the default |
| Sitemap.CloseAt | scripts/generate-sitemap.js:39 | a bracket opens a segment only when a `]` follows after at least one other character |
| Sitemap.ReplaceBrackets | scripts/generate-sitemap.js:39 | a path without `[` is unchanged |
| Sitemap.BracketSegment | scripts/generate-sitemap.js:39 | every bracketed segment becomes "param" and the text around it is kept |
| Sitemap.DropExtension | scripts/generate-sitemap.js:35 | a trailing ".tsx" or ".jsx" is cut off; any other name is unchanged |
| Sitemap.IndexToSlash | scripts/generate-sitemap.js:36 | a trailing "/index" becomes "/"; any other path is unchanged |
| Sitemap.UrlPath | scripts/generate-sitemap.js:31-42 | the pages directory removed, then a trailing ".tsx"/".jsx", a trailing "/index" made "/", and every bracketed segment made "param" (`StaticPage`, `IndexPage`, `BracketSegment`) |
| Sitemap.StaticPage | scripts/generate-sitemap.js:31-42 | a page file maps to its route: the directory prefix and the ".tsx"/".jsx" extension removed |
| Sitemap.IndexPage | scripts/generate-sitemap.js:36 | an index file maps to its directory with a trailing "/" |
| Sitemap.ParamInNameNotListed | scripts/generate-sitemap.js:66 | a static page named "parameters" is skipped like a dynamic route |
| Sitemap.AppendPageEntries | scripts/generate-sitemap.js:62-76 | the loop appends one entry per page whose path lacks "param", in page order |
| Sitemap.SitemapDocument | scripts/generate-sitemap.js:45-82 | the header, the home entry, one entry per page whose URL path lacks "param" in page order, and the footer (`ListedPages`, `DocumentShape`) |
| Sitemap.GenerateSitemap | scripts/generate-sitemap.js:45-82 | the string built step by step is the header, the home entry, the page entries and the footer |
| Sitemap.DocumentShape | scripts/generate-sitemap.js:49-59 | the document opens with the XML declaration, the `urlset` element and the home entry (priority 1.0), and closes with `</urlset>` |
| Sitemap.ListedPages | scripts/generate-sitemap.js:62-76 | the listed paths are exactly the mapped paths without "param", in input order |
| Technologies.TechnologiesList | core/models.py:47-48 | one item more than there are commas, in order, each a stripped piece without commas and without surrounding whitespace |
| Technologies.EmptyField | core/models.py:48 | an empty field gives `[""]` |
| Technologies.JoinRestores | core/models.py:48 | when no piece has surrounding whitespace, joining with "," gives back the field |

## Left out

- `argparse` (main.py:75-139) is library behaviour. The parsed flags are an `Args` record holding what `argparse` guarantees: a provider among the choices, integer retries and timeout, and a non-empty tag list when given.
- File reading, `json.load`, logging and `print` in `load_config` and `main` are not modelled. The outcome of reading the file is a `FileOutcome`: missing, malformed, unreadable, or a parsed object. `main` reads through a function parameter.
- A configuration file whose top-level JSON value is not an object is not modelled.
- JSON floats are a separate `JFloat` value, which validation drops from `max_retries`/`timeout` as `isinstance(v, int)` does; their precision, NaN and Infinity are not modelled. Acceptance follows `isinstance(v, int)`, so JSON booleans are accepted.
- Floating-point arithmetic is not modelled: the quote builder's multipliers and ±15% range, every progress percentage, and currency formatting. The quiz keeps the answered count that its percentage is computed from.
- Dates are an abstract integer key: the blog date that `new Date(...).getTime()` gives, and the feedback's formatted date, which is a parameter.
- `toLowerCase` is an uninterpreted parameter `lower`.
- String lengths count characters. JavaScript counts UTF-16 code units, so `ProjectCard.Truncate` can differ from the source on text outside the Basic Multilingual Plane.
- JavaScript objects used as maps ignore inherited prototype keys such as "constructor": `serviceRecommendations[goal]` and `serviceCounts[id]` see only their own entries.
- Rendering, animation, timers and the `setInterval` plumbing are not modelled. Only the carousel's autoplay index step is.
- Contact and input field handlers are not modelled: `handleContactInfoChange` in the quote builder and the registered inputs of the forms. Their values are fields of the state.
- Form submission, `fetch`, the e-mail handlers and the server are not modelled.
- `apiFetch` and `apiCall` are network calls and are not modelled.
- `usePrefersReducedMotion` and `useHoverCapability` read media queries and hold no logic.
- The sitemap's `glob` file listing and file writing are not modelled. The page list is an input, and the pages directory and site URL are parameters.
- Django fields, views and forms are framework code and are not modelled.
- The duplicates of logic modelled here are not modelled: the agency project card's truncation, and the one-line category filters on other pages.
- The feedback section's sample list is a constructor argument.
- The agency page's sample projects leave out their descriptions, images, clients and links.
- `Carousel.Carousel.ClickDot` requires the dot to be a testimonial index, because only those dots are rendered.
- `Feedback.Section.ClickPrevious` and `Feedback.Section.ClickNext` require their control to be shown, because the control does not exist otherwise.
- `Feedback.Section.ClickPage` requires a rendered page number.
