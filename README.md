# Ivy-Intelligence core, modelled in Dafny

Ivy-Intelligence is a Django site for students. It scrapes events and
opportunities from university web pages and files them by domain with a
text classifier. It computes a student's InCoScore from their verified
achievements, and it tracks applications, profiles and a small community
(posts, likes, comments, domain groups with chat). This project models the
deterministic core of that system and proves what it promises:

- **InCoScore engine** (`Engine`, `Achievements`):
  - keeps only the verified achievements with a positive raw score;
  - takes the best score per category and sums the weighted terms;
  - caps the sum at 95, adds the CGPA bonus tier and clamps to 100;
  - also covers the score-history gate, the breakdown, the leaderboard and
    the score-tiered recommendations.
- **Scrape ingestion** (`Scraper`, `OpportunityModels`):
  - the ordered type rules;
  - each site's post-extraction filter over abstract event blocks and anchors;
  - the scraper registry;
  - `run_scraper` with its ScrapingLog state and the URL-keyed store that
    skips known URLs.
- **Domain classifier** (`Classifier`, `KeywordRules`):
  - the ordered keyword fallback;
  - the lazily loaded model cache, which never fails and falls back to the
    keyword rules;
  - training outcomes and confidence maps, with the learned predictor as an
    abstract partial function.
- **Record lifecycle**:
  - comma-separated tag and skill lists, with a join round trip (`Text`,
    `ProfileForms`);
  - profile completeness recomputed on every save (`Profiles`);
  - achievement add, delete and verify guards, and the nightly recalculation
    (`ScoreViews`, `ScoreTasks`);
  - the application duplicate guard, auto-fill field matching and withdrawal
    (`Applications`);
  - community toggles, guards and chat polling (`Community`).

Database tables are classes whose `rows` field (a sequence or a map) the
methods reassign. Records are datatypes. HTTP responses, parsed HTML, the
clock, the learned predictor and failures raised by code outside the model
are parameters. Scores are exact `real` numbers.

Where the code and its descriptions disagree, the model follows the code:

- "International Law Fellowship" is typed INTERNSHIP, not FELLOWSHIP, because
  the internship rule, which also matches the substring "intern", is tested
  first (`Scraper.InternationalFellowshipIsInternship`).
- The category weights add up to 1.20, although a comment next to them says
  1.0 (`Achievements.WeightsSumTo120`).
- `get_score_breakdown` keeps every verified achievement, including those
  with raw score 0; unlike `calculate_incoscore`, it does not require a
  positive raw score.

## Model

| member | source | states |
|---|---|---|
| Achievements.Weight | ivy_intelligence/apps/incoscore/models.py:18-27 | every weight lies in [0, 0.30]; a category without a weight gets 0 |
| Achievements.MaxPoints | ivy_intelligence/apps/incoscore/models.py:30-39 | the normalising maximum is 100 for every category |
| Achievements.WeightKeysAreCategories | ivy_intelligence/apps/incoscore/models.py:5-39 | the weight table and the max-points table have exactly the eight achievement categories as keys |
| Achievements.WeightsSumTo120 | ivy_intelligence/apps/incoscore/models.py:17-27 | the eight weights add up to 1.20 |
| Achievements.NewAchievement | ivy_intelligence/apps/incoscore/models.py:47-56 | a new achievement has raw score 10.0, is unverified, has an empty verifier and keeps the given fields |
| Achievements.ContributionIsWeighted | ivy_intelligence/apps/incoscore/models.py:65-69 | the contribution is raw · weight (raw/100 · weight · 100), and 0 for an unknown category |
| Achievements.ContributionBounds | ivy_intelligence/apps/incoscore/models.py:65-69 | for raw in [0, 100] the contribution lies in [0, weight · 100] |
| Achievements.ContributionMonotone | ivy_intelligence/apps/incoscore/models.py:65-69 | the contribution is monotone in the raw score |
| Achievements.ContributionToIncoscore | ivy_intelligence/apps/incoscore/models.py:65-69 | an achievement brings raw · weight of its category, which for raw in [0, 100] lies in [0, weight · 100] |
| Achievements.IndexOf | ivy_intelligence/apps/incoscore/tasks.py:38 | finds a row with the id, or proves that no row has it |
| Achievements.ScoreHistoryTable.constructor | ivy_intelligence/apps/incoscore/models.py:72-80 | the history starts empty |
| Achievements.ScoreHistoryTable.Record | ivy_intelligence/apps/incoscore/engine.py:109-113 | a history write appends exactly one entry |
| Achievements.AchievementTable.constructor | ivy_intelligence/apps/incoscore/models.py:42-60 | the table starts empty with ids from 1 |
| Achievements.AchievementTable.Create | ivy_intelligence/apps/incoscore/views.py:51-60 | appends the row under the next id; ids stay distinct |
| Achievements.AchievementTable.Update | ivy_intelligence/apps/incoscore/tasks.py:43-45 | replaces one row in place and keeps its id |
| Achievements.AchievementTable.Delete | ivy_intelligence/apps/incoscore/views.py:72 | removes exactly that row and keeps the order of the rest |
| Engine.EngineWeightsMatchModel | ivy_intelligence/apps/incoscore/engine.py:27-36 | the engine's weight table equals the model's table, in the category order, with distinct keys |
| Engine.EngineWeightIsWeight | ivy_intelligence/apps/incoscore/engine.py:74 | the engine's `.get(category, 0)` lookup is the model's weight |
| Engine.TermIsContribution | ivy_intelligence/apps/incoscore/engine.py:75 | the engine's per-category term equals the achievement's contribution |
| Engine.BestSnoc | ivy_intelligence/apps/incoscore/engine.py:65-69 | one more achievement replaces its category's best only when it scores strictly more, or the category is new |
| Engine.BestSpec | ivy_intelligence/apps/incoscore/engine.py:65-69 | every achievement's category is in the best map at a score at least its own, and every entry is the score of some achievement of that category |
| Engine.BestDependsOnElementsOnly | ivy_intelligence/apps/incoscore/engine.py:65-69 | the best map depends only on which achievements are present, not on their order |
| Engine.BestOfDominated | ivy_intelligence/apps/incoscore/engine.py:68 | an achievement that does not beat its category's best leaves the map unchanged |
| Engine.BestPerCategory | ivy_intelligence/apps/incoscore/engine.py:65-69 | the loop computes the best map, together with a duplicate-free list of exactly its keys (the dict's iteration order) |
| Engine.SumOverReorder | ivy_intelligence/apps/incoscore/engine.py:72-76 | summing the terms over two duplicate-free key lists gives the same total when they differ only by zero terms |
| Engine.KeyOrderSumIsBase | ivy_intelligence/apps/incoscore/engine.py:72-76 | summing in dict insertion order equals the base score summed in category order |
| Engine.SumOverNonNegative | ivy_intelligence/apps/incoscore/engine.py:72-76 | with non-negative best scores the weighted sum is non-negative |
| Engine.CgpaBonusMonotone | ivy_intelligence/apps/incoscore/engine.py:82-88 | the bonus is one of 0, 1, 3, 5, is monotone in the CGPA, and a missing CGPA gives 0 |
| Engine.CgpaBonus | ivy_intelligence/apps/incoscore/engine.py:82-88 | the bonus is 0, 1, 3 or 5, and positive exactly when a CGPA of at least 7.0 is given |
| Engine.Counted | ivy_intelligence/apps/incoscore/engine.py:54-58 | keeps exactly the student's verified achievements with raw score > 0 |
| Engine.IncoScore | ivy_intelligence/apps/incoscore/engine.py:39-91 | the score always lies in [0, 100] |
| Engine.IncoScoreCases | ivy_intelligence/apps/incoscore/engine.py:54-90 | with no eligible achievement the score is 0 whatever the CGPA; otherwise it is min(min(base, 95) + bonus, 100) |
| Engine.IncoScoreOrderIrrelevant | ivy_intelligence/apps/incoscore/engine.py:65-76 | the order of the achievements does not change the score |
| Engine.IncoScoreIgnoresDominated | ivy_intelligence/apps/incoscore/engine.py:65-69 | adding an achievement that is ineligible, or that is no better than an eligible one in its category, leaves the score unchanged |
| Engine.SingleResearchExample | ivy_intelligence/apps/incoscore/engine.py:27-36 | a single verified RESEARCH 100 scores 35 at CGPA 9.2 and 30 at CGPA 6.0 |
| Engine.CappedExample | ivy_intelligence/apps/incoscore/engine.py:79-90 | a base of at least 95 gives 100 at CGPA 9.5 and 98 at CGPA 8.0 |
| Engine.AllCategoriesAtHundred | ivy_intelligence/apps/incoscore/engine.py:72-79 | all eight categories at 100 give a base of 120, above the 95 cap |
| Engine.SumOverIsWeightSum | ivy_intelligence/apps/incoscore/engine.py:72-76 | with every category at 100 the sum is the weight sum times 100 |
| Engine.CalculateIncoscore | ivy_intelligence/apps/incoscore/engine.py:39-91 | the loops (filter, best per category, weighted sum, cap, bonus, clamp) compute IncoScore |
| Engine.UpdateStudentScore | ivy_intelligence/apps/incoscore/engine.py:94-116 | stores the new score in the profile and changes nothing else; appends one history row "reason (was old)" with the new score exactly when the score changed |
| Engine.UpdateTwice | ivy_intelligence/apps/incoscore/engine.py:101-113 | two consecutive updates on unchanged data append at most one history row |
| Engine.Shown | ivy_intelligence/apps/incoscore/engine.py:126 | the breakdown uses exactly the student's verified achievements |
| Engine.BreakdownShape | ivy_intelligence/apps/incoscore/engine.py:129-153 | nine entries: the eight categories in table order, then CGPA_BONUS with the bonus tier and max 5.0; each max is weight · 100; absent categories show raw 0 and contribution 0 |
| Engine.Breakdown | ivy_intelligence/apps/incoscore/engine.py:129-153 | one entry per achievement category, in the table's order, then the CGPA_BONUS entry carrying the CGPA bonus |
| Engine.BreakdownAddsUpToScore | ivy_intelligence/apps/incoscore/engine.py:119-155 | when every verified achievement has a positive raw score, capping the category contributions at 95, adding the bonus entry and clamping to 100 gives the score |
| Engine.ContributionSumIsSumOver | ivy_intelligence/apps/incoscore/engine.py:135-143 | the breakdown's contributions add up to the engine's weighted sum |
| Engine.GetScoreBreakdown | ivy_intelligence/apps/incoscore/engine.py:119-155 | the loops build exactly the Breakdown table |
| Engine.InsertSorted | ivy_intelligence/apps/incoscore/engine.py:163 | inserting into a descending list keeps it descending |
| Engine.InsertMultiset | ivy_intelligence/apps/incoscore/engine.py:163 | insertion adds exactly the one profile |
| Engine.SortByScore | ivy_intelligence/apps/incoscore/engine.py:163 | the result is sorted by descending score and is a permutation of the input |
| Engine.Ranked | ivy_intelligence/apps/incoscore/engine.py:161-162 | keeps exactly the profiles with a positive score |
| Engine.LeaderboardSpec | ivy_intelligence/apps/incoscore/engine.py:158-163 | exactly `limit` entries, or every positive profile when there are fewer; descending, all with a positive score, and as a multiset contained in the positive profiles, so no row is shown more often than it is stored; every left-out positive profile scores no more than every shown one; fewer than `limit` means all are shown |
| Engine.Leaderboard | ivy_intelligence/apps/incoscore/engine.py:158-163 | `limit` profiles, or all positive ones when fewer; a sub-multiset of the positive profiles, each one of the given profiles with a positive score |
| Engine.SortedPrefix | ivy_intelligence/apps/incoscore/engine.py:163 | a prefix of a descending list is descending and dominates the rest |
| Engine.TypesFor | ivy_intelligence/apps/incoscore/engine.py:180-186 | INTERNSHIP is offered from 40 up, FELLOWSHIP and SCHOLARSHIP only from 70 up, CONFERENCE only below 40, WORKSHOP and HACKATHON only below 70; COMPETITION and OTHER never, and every type is a known one |
| Engine.Matching | ivy_intelligence/apps/incoscore/engine.py:176-186 | keeps exactly the active opportunities in the student's domains (when there are any) whose type is allowed by the tier |
| Engine.Recommendations | ivy_intelligence/apps/incoscore/engine.py:166-188 | `limit` opportunities, or every match when fewer; a sub-multiset of the matches, so none is given more often than it is stored; all active, in the tier's types and in the student's domains when there are any; fewer than `limit` means every match is included |
| Profiles.DomainChoicesMatchOpportunities | ivy_intelligence/apps/profiles/models.py:7-16 | the profile domain choices are the opportunity domain codes and names, in the same order |
| Profiles.NewProfile | ivy_intelligence/apps/profiles/models.py:30-42 | a new profile has score 0.0, is incomplete and has empty fields |
| Profiles.IncompleteWithoutField | ivy_intelligence/apps/profiles/models.py:54-57 | a profile missing any of bio, university, domains or skills is incomplete, and so is every new profile |
| Profiles.CalculateProfileCompleteness | ivy_intelligence/apps/profiles/models.py:54-57 | a freshly created profile is never complete |
| Profiles.GetDomainNames | ivy_intelligence/apps/profiles/models.py:49-52 | keeps the length of the domain list |
| Profiles.DomainNameInSpec | ivy_intelligence/apps/profiles/models.py:51-52 | the lookup returns the code's display name, or the code itself when the code is unknown |
| Profiles.DomainName | ivy_intelligence/apps/profiles/models.py:49-52 | a known domain code gives its display name; an unknown code is passed through |
| Profiles.GetDomainNamesSpec | ivy_intelligence/apps/profiles/models.py:49-52 | position by position, known codes become display names and unknown codes pass through |
| Profiles.ProfileTable.constructor | ivy_intelligence/apps/profiles/models.py:28-44 | the table starts empty |
| Profiles.ProfileTable.Save | ivy_intelligence/apps/profiles/models.py:59-61 | saving stores the profile with profile_complete recomputed |
| Profiles.ProfileTable.SaveIncoscore | ivy_intelligence/apps/incoscore/engine.py:104-105 | a save of only the score column changes only that column |
| Profiles.ProfileTable.GetOrCreate | ivy_intelligence/apps/incoscore/views.py:10-13 | returns the stored profile, or creates and stores a new one exactly when there was none |
| Profiles.ProfileTable.UserSaved | ivy_intelligence/apps/profiles/models.py:64-75 | a created user gets a new profile; saving an existing user re-saves their profile, recomputing completeness |
| ProfileForms.InitialDomains | ivy_intelligence/apps/profiles/forms.py:38-40 | the domain box is prefilled exactly for a saved profile with domains, with those domains |
| ProfileForms.InitialSkills | ivy_intelligence/apps/profiles/forms.py:38-42 | the skills box is prefilled exactly for a saved profile with skills |
| ProfileForms.Edited | ivy_intelligence/apps/profiles/forms.py:44-48 | copies the edited fields, parses skills as a comma list of stripped non-empty items, sets the chosen domains and keeps the rest |
| ProfileForms.SkillsRoundTrip | ivy_intelligence/apps/profiles/forms.py:42-47 | parsing the prefilled ", "-joined text gives back the stored skills when each skill is non-empty, stripped and free of commas |
| ProfileForms.EmptySkillsBox | ivy_intelligence/apps/profiles/forms.py:46-47 | an empty skills box saves as no skills |
| ProfileForms.FormSave | ivy_intelligence/apps/profiles/forms.py:44-51 | with commit the edited profile is saved with completeness recomputed; without commit nothing is written |
| Text.Lower | ivy_intelligence/apps/opportunities/scraper.py:221 | lower-casing keeps the length and maps each character |
| Text.Strip | ivy_intelligence/apps/opportunities/models.py:63 | the result has no surrounding whitespace, is a contiguous piece of the input with only whitespace cut away, and is empty exactly for all-whitespace input |
| Text.StripStripped | ivy_intelligence/apps/opportunities/models.py:63 | stripping is idempotent |
| Text.Split | ivy_intelligence/apps/opportunities/models.py:63 | splitting gives one more piece than there are separators, and no piece contains the separator |
| Text.SplitAtSep | ivy_intelligence/apps/opportunities/models.py:63 | splitting at the first separator peels off the first piece |
| Text.CommaList | ivy_intelligence/apps/opportunities/models.py:62-63 | at most commas + 1 items, each non-empty, stripped and comma-free |
| Text.CommaListOnePiece | ivy_intelligence/apps/opportunities/models.py:62-63 | text without a comma gives its stripped form as the only item, or no item when it is blank |
| Text.CommaListAtComma | ivy_intelligence/apps/opportunities/models.py:62-63 | the piece before the first comma gives the first item (none when blank) and the rest of the text gives the rest, in order; with the one-piece case this fixes the list of every text |
| Text.CommaListOfBlanks | ivy_intelligence/apps/opportunities/models.py:62-63 | text of only whitespace and commas gives no items |
| Text.CommaListJoinRoundTrip | ivy_intelligence/apps/profiles/forms.py:42-47 | parsing the ", "-join of list items gives back the items |
| Text.Filter | ivy_intelligence/apps/incoscore/engine.py:54-58 | the kept elements are exactly those satisfying the test |
| Text.Prefix | ivy_intelligence/apps/incoscore/engine.py:163 | a slice `[:n]` is a prefix of length min(n, length) |
| OpportunityModels.NewOpportunity | ivy_intelligence/apps/opportunities/models.py:40-53 | a new opportunity has domain OTHER, type OTHER, is active and gets the default location |
| OpportunityModels.GetTagsList | ivy_intelligence/apps/opportunities/models.py:62-63 | at most commas + 1 tags, none empty, padded or holding a comma; which tags and in what order is fixed by `Text.CommaListOnePiece` and `Text.CommaListAtComma` |
| OpportunityModels.BlankTagsAreNoTags | ivy_intelligence/apps/opportunities/models.py:62-63 | a tags string of only whitespace and commas yields no tags |
| OpportunityModels.OpportunityTable.constructor | ivy_intelligence/apps/opportunities/models.py:40-57 | the store starts empty |
| OpportunityModels.OpportunityTable.HasUrl | ivy_intelligence/apps/opportunities/scraper.py:269 | the existence check holds exactly when a stored row has the URL |
| OpportunityModels.OpportunityTable.Create | ivy_intelligence/apps/opportunities/models.py:41-47 | appends the row under the next primary key; it is called only with an unseen source URL and a title of at most 300 characters, so stored URLs stay distinct |
| OpportunityModels.ScrapingLog.constructor | ivy_intelligence/apps/opportunities/models.py:66-75 | a log starts RUNNING with both counts 0, no finish time and no error |
| KeywordRules.AnyKeywordSome | ivy_intelligence/apps/opportunities/classifier.py:183 | `any(kw in t ...)` holds exactly when some keyword occurs in the text |
| KeywordRules.FirstMatch | ivy_intelligence/apps/opportunities/classifier.py:182-197 | an if-chain of keyword groups returns some group's code or the fallback |
| KeywordRules.FirstMatchIsEarliest | ivy_intelligence/apps/opportunities/classifier.py:182-197 | the result is the code of the first group that hits |
| KeywordRules.FirstMatchNoHit | ivy_intelligence/apps/opportunities/classifier.py:197 | with no hit the result is the fallback |
| Classifier.TrainingLabelsAreDomains | ivy_intelligence/apps/opportunities/classifier.py:28-81 | every training label is one of the eight domain codes |
| Classifier.TrainingLabels | ivy_intelligence/apps/opportunities/classifier.py:96 | the label set lies within the domain codes |
| Classifier.KeywordFallback | ivy_intelligence/apps/opportunities/classifier.py:177-197 | the result is always one of the eight domain codes |
| Classifier.KeywordFallbackOrder | ivy_intelligence/apps/opportunities/classifier.py:182-196 | the groups are tested in the order AI, LAW, BIO, ECE, CS, BUSINESS, ENV and the first hit wins |
| Classifier.KeywordFallbackOther | ivy_intelligence/apps/opportunities/classifier.py:197 | text with no keyword gives OTHER |
| Classifier.ShortTextIsOther | ivy_intelligence/apps/opportunities/classifier.py:183-197 | text shorter than every keyword gives OTHER |
| Classifier.NeuralNetworkIsAI | ivy_intelligence/apps/opportunities/classifier.py:183-184 | "neural network deep learning research" gives AI |
| Classifier.AiResearchIsAI | ivy_intelligence/apps/opportunities/classifier.py:183 | "ai research" gives AI through the keyword "ai " with its trailing space |
| Classifier.ClimatePolicyNotAI | ivy_intelligence/apps/opportunities/classifier.py:183 | "climate policy" hits no AI keyword |
| Classifier.ClimatePolicyIsLaw | ivy_intelligence/apps/opportunities/classifier.py:185-196 | "Climate Policy" gives LAW, because LAW is tested before ENV |
| Classifier.Classified | ivy_intelligence/apps/opportunities/classifier.py:161-174 | without both cached objects, or when prediction raises, the result is the keyword fallback; otherwise it is the predictor's label |
| Classifier.ClassifiedIsDomain | ivy_intelligence/apps/opportunities/classifier.py:149-174 | when the predictor only returns training labels, the domain is always one of the eight codes |
| Classifier.ClassifiedIsPossible | ivy_intelligence/apps/opportunities/classifier.py:161-174 | the domain is the predictor's label or the keyword fallback |
| Classifier.PercentMap | ivy_intelligence/apps/opportunities/classifier.py:216-217 | the confidence map has exactly the predictor's classes as keys |
| Classifier.DomainClassifier.constructor | ivy_intelligence/apps/opportunities/classifier.py:129-131 | the cache starts empty and the artifact files are as given |
| Classifier.DomainClassifier.TrainModel | ivy_intelligence/apps/opportunities/classifier.py:84-126 | returns True exactly when fitting and both dumps succeed; the files written before a failure stay written |
| Classifier.ReadyLoadsStoredFiles | ivy_intelligence/apps/opportunities/classifier.py:134-146 | before the cache is full, with both stored files loadable, the lazy load caches exactly those two files and leaves the files alone |
| Classifier.ReadyRetrainsMissingFiles | ivy_intelligence/apps/opportunities/classifier.py:84-146 | with a file missing and a fit whose two artifacts load, the lazy load writes both files and caches both objects |
| Classifier.ReadyKeepsCacheOnBadVectorizer | ivy_intelligence/apps/opportunities/classifier.py:139-143 | when the vectorizer file after any retrain is missing or does not load, both cached objects stay as they were |
| Classifier.ReadyFullIff | ivy_intelligence/apps/opportunities/classifier.py:134-146 | both objects are cached after the lazy load exactly when they already were, or the vectorizer file loads and either the model file loads or an earlier classifier is still cached |
| Classifier.FirstCallUsesStoredModel | ivy_intelligence/apps/opportunities/classifier.py:149-174 | when both stored files load, the first call labels a text the way the stored model does |
| Classifier.DomainClassifier.LoadModel | ivy_intelligence/apps/opportunities/classifier.py:134-146 | the new cache and files are `Loaded` of the old ones: with both files present it does not retrain, otherwise it trains and dumps as the fit outcome says; the vectorizer is loaded exactly when its file exists and loads, the classifier exactly when both do, and a load that raises leaves that cached object and the ones after it as they were |
| Classifier.DomainClassifier.ClassifyDomain | ivy_intelligence/apps/opportunities/classifier.py:149-174 | the new cache and files are `Ready` of the old ones: unchanged once cached, otherwise the state `_load_model` leaves; never fails and returns Classified on that cache; when both files exist and load the cache is set afterwards; a vectorizer that does not load leaves both cached objects as they were (an earlier vectorizer may remain), so the next call tries again |
| Classifier.DomainClassifier.GetConfidenceScores | ivy_intelligence/apps/opportunities/classifier.py:200-219 | the new cache and files are `Ready` of the old ones, as for ClassifyDomain; gives {} without a model after that or when prediction raises, otherwise the percentage map; no reload once cached |
| Scraper.ClassifyType | ivy_intelligence/apps/opportunities/scraper.py:216-236 | the type is always an opportunity-type code |
| Scraper.ClassifyTypeOrder | ivy_intelligence/apps/opportunities/scraper.py:221-235 | the rule groups are tested in their fixed order on the lower-cased title and the first hit wins |
| Scraper.ClassifyTypeOther | ivy_intelligence/apps/opportunities/scraper.py:236 | a title with no keyword gives OTHER |
| Scraper.InternshipIffIntern | ivy_intelligence/apps/opportunities/scraper.py:221-223 | the type is INTERNSHIP exactly when the lower-cased title contains "intern" |
| Scraper.GlobalHackathonIsHackathon | ivy_intelligence/apps/opportunities/scraper.py:224-225 | "Global Hackathon 2025" gives HACKATHON |
| Scraper.InternationalFellowshipIsInternship | ivy_intelligence/apps/opportunities/scraper.py:221-223 | "International Law Fellowship" gives INTERNSHIP |
| Scraper.AbsoluteStartsWithHttp | ivy_intelligence/apps/opportunities/scraper.py:75-76 | an href starting with "http" is kept; any other gets the origin prefixed; the result starts with "http" |
| Scraper.Harvest | ivy_intelligence/apps/opportunities/scraper.py:63-88 | the filter emits at most one candidate per input |
| Scraper.HarvestFrom | ivy_intelligence/apps/opportunities/scraper.py:63-88 | every emitted candidate comes from an input element |
| Scraper.HarvardItem | ivy_intelligence/apps/opportunities/scraper.py:64-88 | an event yields a candidate exactly when it has a title of length ≥ 5 and a link; the URL is made absolute; the description is never empty; the type is classified from the title |
| Scraper.HarvardPage | ivy_intelligence/apps/opportunities/scraper.py:63 | at most 20 candidates per page |
| Scraper.HarvardShape | ivy_intelligence/apps/opportunities/scraper.py:39-91 | at most 40 candidates over the two pages, each with a title of length ≥ 5, an http URL and a non-empty description |
| Scraper.ScrapeHarvard | ivy_intelligence/apps/opportunities/scraper.py:51-91 | the loop over both pages, skipping failed fetches, computes HarvardSpec |
| Scraper.ScrapeHarvardPage | ivy_intelligence/apps/opportunities/scraper.py:63-88 | the per-page loop computes HarvardPage |
| Scraper.MitScanSpec | ivy_intelligence/apps/opportunities/scraper.py:111-121 | kept links come from the page, have an /event/ or /events/ href (recorded in `seen`) and a title of length 5 to 300, and no href is kept twice; `seen` holds only event hrefs of the page |
| Scraper.MitCandidates | ivy_intelligence/apps/opportunities/scraper.py:123-131 | one candidate per kept link, in order |
| Scraper.MitShape | ivy_intelligence/apps/opportunities/scraper.py:94-134 | at most 30 candidates, from distinct hrefs, titles of length 5 to 300, http URLs |
| Scraper.ScrapeMit | ivy_intelligence/apps/opportunities/scraper.py:99-134 | the loop with its `seen` set computes MitSpec |
| Scraper.StanfordItem | ivy_intelligence/apps/opportunities/scraper.py:151-174 | an event yields a candidate exactly when it has a title of length ≥ 5; a missing link becomes "#"; a missing description becomes the title |
| Scraper.StanfordSpec | ivy_intelligence/apps/opportunities/scraper.py:151 | at most 25 candidates |
| Scraper.StanfordMissingLink | ivy_intelligence/apps/opportunities/scraper.py:160-162 | an event without a link points at "https://events.stanford.edu#" |
| Scraper.ScrapeStanford | ivy_intelligence/apps/opportunities/scraper.py:142-177 | the loop computes StanfordSpec |
| Scraper.YaleItem | ivy_intelligence/apps/opportunities/scraper.py:195-210 | a link yields a candidate exactly when its title has length ≥ 10 and contains one of the seven keywords |
| Scraper.YaleShape | ivy_intelligence/apps/opportunities/scraper.py:180-213 | at most 20 candidates, each from one of the first 50 links, with a long enough title that contains a keyword |
| Scraper.ScrapeYale | ivy_intelligence/apps/opportunities/scraper.py:185-213 | the loop computes YaleSpec |
| Scraper.RegistryKeys | ivy_intelligence/apps/opportunities/scraper.py:240-245 | the registry covers exactly HARVARD, MIT, STANFORD and YALE, all known universities |
| Scraper.RunSite | ivy_intelligence/apps/opportunities/scraper.py:264 | calling the registered scraper computes that site's specification |
| Scraper.Fresh | ivy_intelligence/apps/opportunities/scraper.py:267-270 | the candidates a run inserts are no more than those found |
| Scraper.FreshFrom | ivy_intelligence/apps/opportunities/scraper.py:267-270 | every inserted candidate was found and had an unstored URL |
| Scraper.FreshCovers | ivy_intelligence/apps/opportunities/scraper.py:267-285 | after the run the stored URLs are the old ones plus every found URL |
| Scraper.FreshDistinct | ivy_intelligence/apps/opportunities/scraper.py:267-285 | no URL is inserted twice, even when repeated in the candidate list |
| Scraper.FreshOfKnown | ivy_intelligence/apps/opportunities/scraper.py:269-270 | candidates whose URLs are all stored insert nothing |
| Scraper.RerunAddsNothing | ivy_intelligence/apps/opportunities/scraper.py:269-270 | re-running with the same candidates inserts nothing |
| Scraper.StoreCandidate | ivy_intelligence/apps/opportunities/scraper.py:267-285 | a known URL is skipped; otherwise one row is appended with the title cut to 300, active, type defaulting to OTHER, location to 'Remote', and as domain exactly the label the classifier gives description + ' ' + title with the cache it ends with; an already loaded classifier is not touched |
| Scraper.ProgressStep | ivy_intelligence/apps/opportunities/scraper.py:267-285 | one loop step keeps the rows equal to the old rows plus one inserted row per fresh candidate handled so far |
| Scraper.StoreCandidates | ivy_intelligence/apps/opportunities/scraper.py:267-285 | the insert loop, stopped where a store operation raises, counts and inserts exactly the fresh candidates it handled; earlier inserts remain; with the classifier already loaded, every inserted row carries exactly the label that classifier gives its candidate |
| Scraper.TryScrape | ivy_intelligence/apps/opportunities/scraper.py:259-295 | an unknown key or a raising scraper gives errors = 1 with its message and no inserts; otherwise found is the number of candidates and new the fresh ones stored, each labelled exactly by the classifier when it was already loaded |
| Scraper.RunScraper | ivy_intelligence/apps/opportunities/scraper.py:248-302 | the log is created RUNNING at the start time and always ends SUCCESS (with the counts) or FAILED (with the error text and zero counts), with a finish time no earlier than the start; an unknown key fails with "No scraper for university: <key>" |
| ScoreTasks.Succeeding | ivy_intelligence/apps/incoscore/tasks.py:18-23 | the number of non-failing updates never exceeds the number of profiles |
| ScoreTasks.Recalculated | ivy_intelligence/apps/incoscore/tasks.py:18-23 | the recalculation keeps the set of profiles |
| ScoreTasks.RecalculatedSpec | ivy_intelligence/apps/incoscore/tasks.py:16-26 | every profile whose update did not raise holds its computed score; every other profile is unchanged |
| ScoreTasks.RecalculationSettles | ivy_intelligence/apps/incoscore/tasks.py:16-26 | a second run on unchanged data without failures records no history |
| ScoreTasks.RecalculateAllScores | ivy_intelligence/apps/incoscore/tasks.py:8-26 | updates each profile once, in order; a failure skips that profile and the loop goes on; the count is exactly the number of updates that did not raise |
| ScoreTasks.VerifyAchievement | ivy_intelligence/apps/incoscore/tasks.py:29-48 | marks the achievement verified by "AutoVerify" exactly when it exists, has a proof link and the HEAD status is 200, and then updates the owner's score with reason "Achievement verified: <title>"; when that update raises the achievement stays verified and the profile and history are unchanged; otherwise nothing changes |
| ScoreViews.AddAchievement | ivy_intelligence/apps/incoscore/views.py:42-62 | the caller's profile is fetched or created and no other profile changes; nothing is created when the stripped title or the category is empty; otherwise a new unverified achievement of the caller, with raw score 10, is appended |
| ScoreViews.AddedIsUnverified | ivy_intelligence/apps/incoscore/views.py:51-60 | an added achievement belongs to the caller, is unverified and has a stripped title |
| ScoreViews.OwnIndex | ivy_intelligence/apps/incoscore/views.py:68 | finds only an achievement of the caller with that id |
| ScoreViews.DeleteAchievement | ivy_intelligence/apps/incoscore/views.py:65-74 | the caller's profile is fetched or created and no other profile changes; someone else's or a missing id gives not-found; a verified achievement is never deleted; an unverified one is removed |
| ScoreViews.DeleteKeepsVerified | ivy_intelligence/apps/incoscore/views.py:69-72 | a deletion keeps every verified achievement and every achievement of other students |
| ScoreViews.CountsPartition | ivy_intelligence/apps/incoscore/views.py:33-34 | verified count plus pending count is the number of the student's achievements |
| ScoreViews.CountVerified | ivy_intelligence/apps/incoscore/views.py:33-34 | the verified (or pending) count never exceeds the number of the student's achievements |
| ScoreViews.DashboardVisit | ivy_intelligence/apps/incoscore/views.py:22-25 | the breakdown and at most 5 recommendations for the stored profile, then its score recomputed and stored, with a "Dashboard visit" history row exactly when the score changed |
| ScoreViews.IncoscoreDashboard | ivy_intelligence/apps/incoscore/views.py:16-39 | the profile is fetched or created and every other profile is left alone; the counts are exactly the caller's verified and pending achievements; a visit shows the breakdown and the recommendations of the profile as fetched, stores its recomputed score and records a "Dashboard visit" history row exactly when the score changed; on a failure it shows {} and [] and writes only the created profile |
| Applications.NewApplication | ivy_intelligence/apps/applications/models.py:22-27 | a new application is PENDING and not auto-submitted |
| Applications.ApplicationTable.constructor | ivy_intelligence/apps/applications/models.py:17-34 | the table starts empty |
| Applications.ApplicationTable.Exists | ivy_intelligence/apps/applications/views.py:20 | holds exactly when the student already has an application for the opportunity |
| Applications.ApplicationTable.Create | ivy_intelligence/apps/applications/models.py:33 | inserting keeps each (student, opportunity) pair unique |
| Applications.ApplicationTable.Update | ivy_intelligence/apps/applications/views.py:41-42 | an update keeps the row's id, student and opportunity |
| Applications.AutoFillLogTable.constructor | ivy_intelligence/apps/applications/models.py:40-50 | the log table starts empty |
| Applications.AutoFillLogTable.Record | ivy_intelligence/apps/applications/views.py:91-97 | a log write appends one entry |
| Applications.FieldName | ivy_intelligence/apps/applications/views.py:74 | the field name is the input's name, or its id when the name is empty |
| Applications.DetectedIn | ivy_intelligence/apps/applications/views.py:73-76 | every detected name is non-empty and comes from an input of the form |
| Applications.Detected | ivy_intelligence/apps/applications/views.py:71-78 | every detected name is non-empty and comes from an input of some form |
| Applications.DetectedInComplete | ivy_intelligence/apps/applications/views.py:73-76 | every input with a non-empty name or id is detected |
| Applications.Filled | ivy_intelligence/apps/applications/views.py:81-88 | keeps exactly the detected names whose lower-case form is name, email, first_name, last_name or university |
| Applications.MatchingIgnoresCase | ivy_intelligence/apps/applications/views.py:88 | "Email" and "FIRST_NAME" match, "phone" does not |
| Applications.AttemptAutoFill | ivy_intelligence/apps/applications/views.py:57-105 | a raising fetch gives failure with the exception text; no form gives "No application form found on page"; otherwise detection, matching, success iff something was filled, and one log entry |
| Applications.FindActive | ivy_intelligence/apps/applications/views.py:18 | finds only an active opportunity with that id |
| Applications.Apply | ivy_intelligence/apps/applications/views.py:16-54 | a missing or inactive opportunity gives 404; an existing application blocks a second one; a GET shows the form; none of these writes an application or a log row; a POST appends one SUBMITTED application, auto-submitted exactly when auto-fill was requested and filled something, and one auto-fill log row exactly when auto-fill was requested and the page had a form |
| Applications.Submit | ivy_intelligence/apps/applications/views.py:26-47 | appends the SUBMITTED application under the next id, sets auto_submitted exactly when the requested auto-fill succeeded, and logs one auto-fill row with the detected and filled fields exactly when auto-fill was requested and the page had a form |
| Applications.OwnApplication | ivy_intelligence/apps/applications/views.py:130 | finds only an application of the caller with that id |
| Applications.WithdrawApplication | ivy_intelligence/apps/applications/views.py:128-137 | only the caller's application is found; PENDING or SUBMITTED becomes WITHDRAWN; any other status is left unchanged |
| Applications.CountsWithinTotal | ivy_intelligence/apps/applications/views.py:114-119 | submitted + shortlisted + selected never exceeds the total |
| Applications.MyApplicationCounts | ivy_intelligence/apps/applications/views.py:114-119 | the submitted, shortlisted and selected counts together never exceed the total |
| Community.Toggle | ivy_intelligence/apps/community/views.py:65-70 | toggling flips the user's membership, keeps everyone else and changes the size by one |
| Community.ToggleTwice | ivy_intelligence/apps/community/views.py:65-70 | two toggles restore the set |
| Community.FindPost | ivy_intelligence/apps/community/views.py:64 | finds only a post with the id that is active and by the author when that is required |
| Community.FindGroup | ivy_intelligence/apps/community/views.py:124 | finds only a group with that id |
| Community.Store.constructor | ivy_intelligence/apps/community/models.py:17-83 | the community starts with the given groups and no posts, comments or messages |
| Community.Store.Feed | ivy_intelligence/apps/community/views.py:21-31 | shows exactly the active posts whose tag is the filter, or else is in the user's domains or GENERAL when the user has domains, or else any tag |
| Community.FeedShows | ivy_intelligence/apps/community/views.py:24-29 | with no filter GENERAL posts and posts in the user's domains are shown; with a filter, only posts with that tag |
| Community.Store.CreatePost | ivy_intelligence/apps/community/views.py:40-58 | an empty stripped post creates nothing; otherwise one active post is appended, tagged GENERAL by default and attached to the group only if it exists |
| Community.Store.ToggleLike | ivy_intelligence/apps/community/views.py:61-71 | acts only on an active post, toggles the user's like and reports the new state and count |
| Community.Store.AddComment | ivy_intelligence/apps/community/views.py:74-83 | acts only on an active post and appends a comment only when the stripped content is non-empty |
| Community.Store.DeletePost | ivy_intelligence/apps/community/views.py:86-91 | finds only the author's own post and soft-deletes it |
| Community.Store.JoinGroup | ivy_intelligence/apps/community/views.py:122-131 | toggles membership of an existing group and reports join or leave |
| Community.Store.SendMessage | ivy_intelligence/apps/community/views.py:134-151 | 404 for a missing group, then 403 for a non-member before any content check, then 400 for an empty stripped message; otherwise one message is appended |
| Community.Store.GetMessages | ivy_intelligence/apps/community/views.py:154-159 | 404 exactly for a missing group; otherwise at most 50 of the group's messages newer than `after`, in order |
| Community.NewerMessages | ivy_intelligence/apps/community/views.py:159 | keeps exactly the group's messages with id > after |
| Community.FilterKeepsOrder | ivy_intelligence/apps/community/models.py:82-83 | the filtered messages keep ascending ids |
| Community.GetMessagesSpec | ivy_intelligence/apps/community/views.py:154-165 | the page holds at most 50 of the group's messages with id > after, in ascending order, and all of them when fewer than 50 |
| Community.LikeTwiceRestores | ivy_intelligence/apps/community/views.py:61-71 | liking twice restores the post |

## Left out

- HTTP fetching, BeautifulSoup searches and HTML parsing are not modelled. A fetched page is an abstract value: event blocks with an optional title, link and description, or anchors with text and href. A failed fetch is `None`.
- The TF-IDF vectoriser, the logistic regression and joblib persistence are not modelled. The predictor is an abstract partial function, and the two artifact files are optional blobs. Whether a stored blob loads (a corrupt file, another library version) is an abstract test of the library.
- Python `round(..., 2)`, `round(p * 100, 1)` and float formatting are not modelled. Scores, contributions and percentages are exact reals.
- `str.lower` is modelled on ASCII letters only; `str.strip` uses Python's whitespace characters.
- The Django ORM, templates, flash messages, redirects and `Paginator` are not modelled. In particular, the feed's newest-first ordering and its pages of 10, and the dashboard's last-10 history query, are left out. Status codes are outcome values.
- `groups_list`, `group_detail`, `api_my_score` and `global_leaderboard`: presentation queries only. The leaderboard itself is `Engine.Leaderboard`.
- The WebSocket consumer, Celery scheduling and retries, admin actions and seed data are left out: infrastructure, not core logic.
- Concurrency is left out. Scrapes and requests run one at a time, so check-then-insert races on `source_url` are not modelled.
- Non-numeric request parameters (`after`, `group_id`) that make Django raise are not modelled.
- Form field validation (max lengths, URL fields, file uploads) and the `proof_file`, `achieved_on`, `avatar`, `resume` and `image` fields are left out.
- Failures of `log.save()` in the `finally` block are not modelled.
- The transient RUNNING state of a ScrapingLog between creation and the end of the run is visible only through `OpportunityModels.ScrapingLog.constructor`.
- Engine.UpdateStudentScore: a failing update is modelled as raising before any write, because the code does not say where a database error would strike.
- ScoreTasks.RecalculateAllScores: the same assumption applies to a failing profile, which is skipped whole.
- Applications.Apply: the `get_or_create` of the caller's profile is not stated in its contract, because the profile does not affect an application's row.
- ScoreViews.IncoscoreDashboard: a failure is modelled as raising before the score update, so that it writes nothing beyond the profile `get_or_create` made.
- ScoreTasks.VerifyAchievement: a failing score update is modelled as raising before it writes anything, as for `Engine.UpdateStudentScore`.
- Engine.Recommendations: the opportunities are taken in the order given, which stands for the table's default ordering by `scraped_at`, newest first. Scrape times are not modelled, so the contract does not say that the recommendations are the newest matches.
- Scraper.StoreCandidates: when the classifier is not loaded at the start, the stored domains are stated only as possible labels, because the first classification may load the cache part-way through the loop. Each single insert still states its exact label (`Scraper.StoreCandidate`).
- Scraper.RunScraper: states each stored domain only as a possible label; the exact label with an already loaded classifier is stated by `Scraper.TryScrape`, which it calls.
- Community.Store.Feed: the `get_or_create` of the caller's profile inside `_get_domains` is not modelled; the user's domains are a parameter, and a failing lookup, which gives no domains, is that parameter being empty.
- OpportunityModels.OpportunityTable.Create: the IntegrityError for a duplicate `source_url` is not modelled. The only caller checks `HasUrl` first.
