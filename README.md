# Purdue dining-menu scraper: a Dafny model

This project models the data-gathering core of a nutrition-tracking app for
Purdue University dining courts.

- `purdue_api_scraper.py` builds a date string for each configured hall and
  fetches that hall's menu from the campus menus API. It walks
  meals → stations → items, fetches nutrition for every item marked
  `NutritionReady`, and reduces the Nutrition list to four numbers:
  calories, carbohydrates, protein and fat. It then folds the per-hall
  records into a nested `hall → food → [4 numbers]` dictionary and counts
  the totals for the saved envelope.
- `purdue_scraper.py` discovers the dining halls. It tries three sources in
  order:
  1. a fixed list of hall names, each probed under four candidate URLs;
  2. a list of API endpoints;
  3. the links of the main menu page, filtered and de-duplicated by name.

Modules:

- `Wrappers` (`wrappers.dfy`): `Option` and `Result`.
- `PyJson` (`py_json.dfy`): decoded JSON values, plus the Python operations
  the scripts apply to them. Each of these returns `Err` exactly where
  Python raises.
  - `in`, `[]`, `.get` and iteration;
  - truthiness;
  - hashability as a dictionary key.
- `ApiScraper` (`api_scraper.dfy`): the menu scraper.
- `HallScraper` (`hall_scraper.dfy`): the discovery script.

The network is an oracle parameter in every case:

- `fetchHall(url)` is the decoded menu, or the exception `get`/`raise_for_status`/`json` raised.
- `fetchItem(id)` is the decoded nutrition payload, or `None` for anything but a JSON 200.
- `probe(url)` is a status code, or `None` when the request raised.
- `fetch(endpoint)` is a response, or `None` when the request raised.
- `mainPage` is the page's `(stripped text, href)` links, or `None` when that path raised.

The thread pool is modelled as a sequential loop over `order`, the order in
which the workers complete. `order` is any permutation of the configured
halls. The lemmas prove that neither the nutrition dictionary nor the
envelope's counts depend on `order`.

Each Python loop becomes a Dafny method proved against a specification
function: a recursive fold for most loops, and the map comprehension `Kept`
for the inner loop of the dictionary builder. Lemmas then restate that function declaratively:

- which items end up in a hall's `food_items`, and when a hall scrape succeeds;
- which hall's record a dictionary entry comes from;
- which probe URL or endpoint is chosen;
- what the de-duplicated link list contains.

Repeated names follow Python's overwrite semantics:

- A food name that occurs twice in a hall's menu keeps the nutrition of its
  last item, because `food_items[food_name] = …` overwrites
  (purdue_api_scraper.py:51). `ContributionsLast` states this.
- A hall with two successful records keeps the last one, because
  `nutrition_dict[hall_name] = {}` resets the entry (purdue_api_scraper.py:152).
  `DictionaryLastSuccess` states this.

## Model

| member | source | states |
|---|---|---|
| PyJson.Lookup | purdue_api_scraper.py:87-91 | a dict lookup succeeds exactly when some field has the key, and returns a value stored under that key |
| PyJson.In | purdue_api_scraper.py:38-42 | `key in v`: for a dict, key presence; raises exactly for None, bool and number |
| PyJson.Index | purdue_api_scraper.py:39-48 | `v[key]` succeeds exactly when `v` is a dict holding the key, and yields that key's value |
| PyJson.Get | purdue_api_scraper.py:44 | `v.get(key, default)` succeeds exactly on a dict, and yields the key's value or the default |
| PyJson.Iterate | purdue_api_scraper.py:39-43 | iterating a list yields its elements, a dict its keys, a string its characters; raises exactly for None, bool and number |
| PyJson.Truthy | purdue_api_scraper.py:44 | `None` is false; a string, list or dict is true exactly when it is non-empty |
| PyJson.Children | purdue_api_scraper.py:38-43 | `if key in node: for c in node[key]` visits nothing when the key is absent and a list's elements when present |
| ApiScraper.Padded | purdue_api_scraper.py:21 | a zero-padded field has exactly the requested width and only digits |
| ApiScraper.PaddedValue | purdue_api_scraper.py:21 | a zero-padded field reads back as the number it encodes |
| ApiScraper.GetDateString | purdue_api_scraper.py:17-21 | `%m-%d-%Y` is ten characters, dashes at positions 2 and 5, digits elsewhere |
| ApiScraper.DateStringRoundTrip | purdue_api_scraper.py:17-21 | parsing the formatted string gives back the same month, day and year |
| ApiScraper.NutritionOf | purdue_api_scraper.py:83-101 | a parsed nutrition payload always has exactly four entries |
| ApiScraper.ItemStep | purdue_api_scraper.py:44-51 | one item changes no entry except the one under its own name, and adds no other name |
| ApiScraper.LastValueIsLastMatch | purdue_api_scraper.py:88-99 | each of the four fields is the `Value` of the last nutrient carrying its label |
| ApiScraper.LastValueNoMatch | purdue_api_scraper.py:83-86 | a label no nutrient carries stays at its initial 0 |
| ApiScraper.MissingNutritionIsZero | purdue_api_scraper.py:83-101 | a payload with no `Nutrition` key gives `[0, 0, 0, 0]`, not `None` |
| ApiScraper.GetNutritionData | purdue_api_scraper.py:71-105 | the loop returns what the nutrition specification gives for the fetched payload (`None` for any failure), always four values |
| ApiScraper.LastValueSnoc | purdue_api_scraper.py:88-99 | one more nutrient sets a field exactly when it carries that field's label |
| ApiScraper.ReadNutrients | purdue_api_scraper.py:87-101 | the loop over `Nutrition` yields the last value per label, or `None` when an entry is not a dict |
| ApiScraper.ScrapeHall | purdue_api_scraper.py:23-69 | the record names the hall and the date string; it is a success exactly when it has no error, and an error record has no food items |
| ApiScraper.AddStationItems | purdue_api_scraper.py:43-51 | the innermost loop computes the item-by-item specification, including the first exception |
| ApiScraper.AddMealStations | purdue_api_scraper.py:41-51 | the station loop computes the station-by-station specification |
| ApiScraper.ScrapeDiningHall | purdue_api_scraper.py:23-69 | the nested loops and the try/except produce the specified record |
| ApiScraper.ItemStepMeaning | purdue_api_scraper.py:44-51 | one item raises exactly when it is not a walkable item; otherwise it sets its name to its nutrition if ready and fetched, and else changes nothing |
| ApiScraper.ItemsFromOk | purdue_api_scraper.py:43-51 | a station's items go through without an exception exactly when every item is walkable |
| ApiScraper.ItemsFromValue | purdue_api_scraper.py:43-51 | walking a station adds precisely the contributions of its items to what was there |
| ApiScraper.ContributionsKeys | purdue_api_scraper.py:44-51 | a food name is present exactly when some contributing item carries it |
| ApiScraper.ContributionsLast | purdue_api_scraper.py:50-51 | a name's nutrition is that of the last contributing item with that name |
| ApiScraper.ItemsFromAppend | purdue_api_scraper.py:43-51 | walking two runs of items is walking the first, then the second from its result |
| ApiScraper.StationsFromFlat | purdue_api_scraper.py:41-51 | the station loop equals the item walk over all stations' items in order |
| ApiScraper.MealsFromFlat | purdue_api_scraper.py:39-51 | the meal loop equals the item walk over all meals' items in order |
| ApiScraper.MenuFromMeaning | purdue_api_scraper.py:38-51 | a menu is read without exception exactly when its item list exists and every item is walkable; the result is the contributions of that list |
| ApiScraper.ScrapeHallSuccess | purdue_api_scraper.py:23-69 | a hall succeeds exactly when the fetch, the walk and every item go through; then a name is a food item exactly when some contributing item carries it |
| ApiScraper.WorkerRecord | purdue_api_scraper.py:123-136 | a collected record names its hall; a worker that raised gives an error record with no date, no items and the exception's text |
| ApiScraper.WorkerResult | purdue_api_scraper.py:118-136 | one worker yields the hall's scraped record, or the error record of the exception that escaped it |
| ApiScraper.CollectedRecords | purdue_api_scraper.py:113-129 | one record is collected per completed worker |
| ApiScraper.ScrapeAllDiningHalls | purdue_api_scraper.py:107-143 | one result per configured hall, the k-th being the record of the k-th worker to complete |
| ApiScraper.CollectResults | purdue_api_scraper.py:123-136 | the `as_completed` loop appends one record per finished worker, in finishing order |
| ApiScraper.OneRecordPerHall | purdue_api_scraper.py:117-129 | the results name each configured hall exactly once, in whatever order the workers finish |
| ApiScraper.DictionaryStep | purdue_api_scraper.py:149-156 | a success record replaces its hall's entry with its non-empty items; an error record changes nothing |
| ApiScraper.Kept | purdue_api_scraper.py:154-156 | the kept foods are exactly those with non-empty nutrition, with their values unchanged |
| ApiScraper.NutritionDictionary | purdue_api_scraper.py:145-158 | one entry per hall with a success record; every stored nutrition list is non-empty; every food comes from that hall's last success record |
| ApiScraper.KeptOutsideStep | purdue_api_scraper.py:154-156 | the inner loop copies one food when its nutrition is non-empty and skips it otherwise |
| ApiScraper.StoreHall | purdue_api_scraper.py:151-156 | the hall's entry becomes exactly its non-empty items; other halls are untouched |
| ApiScraper.CreateNutritionDictionary | purdue_api_scraper.py:145-158 | the loop builds the dictionary specification: one entry per hall with a success, from its last success |
| ApiScraper.LastSuccessItemsIsLast | purdue_api_scraper.py:149-152 | a hall's items come from its last success record |
| ApiScraper.DictionaryLastSuccess | purdue_api_scraper.py:149-156 | a hall's entry exists, holds exactly the foods of its last success record with non-empty nutrition, and holds those values |
| ApiScraper.ErrorRecordsIgnored | purdue_api_scraper.py:150 | removing an error record anywhere leaves the dictionary unchanged |
| ApiScraper.LastSuccessIsAny | purdue_api_scraper.py:149-152 | when a hall has a single success record, its entry comes from it wherever it sits |
| ApiScraper.DictionaryOrderIndependent | purdue_api_scraper.py:145-158 | with at most one success per hall, reordering the records leaves the dictionary unchanged |
| ApiScraper.DictionaryIndependentOfCompletion | purdue_api_scraper.py:107-158 | the dictionary is the same for every order in which the workers complete |
| ApiScraper.ContributionsAreLists | purdue_api_scraper.py:48-51 | every stored food maps to a four-entry list (the `Value`s, passed through as JSON) |
| ApiScraper.ScrapedItemsAllKept | purdue_api_scraper.py:154-156 | the non-empty filter never drops a scraped item, because every stored nutrition list is non-empty |
| ApiScraper.SaveResults | purdue_api_scraper.py:160-178 | the envelope counts one hall per record and carries the dictionary and the records |
| ApiScraper.TotalFoodItems | purdue_api_scraper.py:162 | the food total is 0 exactly when every record has no food items |
| ApiScraper.TotalFoodItemsAppend | purdue_api_scraper.py:162 | the food total of two runs of records is the sum of their totals |
| ApiScraper.TotalFoodItemsRemove | purdue_api_scraper.py:162 | taking one record out of the sum lowers it by exactly that record's item count |
| ApiScraper.TotalFoodItemsPermutation | purdue_api_scraper.py:162 | the food total does not depend on the order of the records |
| ApiScraper.EnvelopeIndependentOfCompletion | purdue_api_scraper.py:107-178 | the hall count (five), the food total and the dictionary are the same for every completion order |
| ApiScraper.CollectedAppend | purdue_api_scraper.py:123-129 | collecting two runs of completions is collecting each and concatenating |
| ApiScraper.CollectedSnoc | purdue_api_scraper.py:123-129 | one more completion adds exactly its worker's record |
| ApiScraper.CollectedRemove | purdue_api_scraper.py:123-129 | taking one hall out of the completion order takes exactly its record out |
| ApiScraper.MappedPermutation | purdue_api_scraper.py:123-129 | permuting the completion order permutes the collected records |
| HallScraper.Slug | purdue_scraper.py:46-49 | `lower().replace(' ', sep)` keeps the name's length |
| HallScraper.SlugIsLowerAndSpaceless | purdue_scraper.py:46-49 | a slug has no spaces and no upper-case ASCII letters |
| HallScraper.SlugsDifferIffSpace | purdue_scraper.py:46-49 | the dash and underscore slugs differ exactly when the name has a space |
| HallScraper.CandidateUrls | purdue_scraper.py:45-50 | four candidate URLs per hall |
| HallScraper.CandidateUrlsDistinct | purdue_scraper.py:45-50 | the `menus/` and root candidates never coincide; the dash and underscore candidates coincide exactly when the name has no space |
| HallScraper.FirstWorking | purdue_scraper.py:52-63 | no URL is chosen exactly when none answers 200; otherwise the chosen one answers 200 and no earlier candidate does |
| HallScraper.ProbeHall | purdue_scraper.py:52-63 | a hall gives at most one entry, none exactly when no candidate answers 200, otherwise its name, `working` and its first 200 URL |
| HallScraper.ProbeCandidates | purdue_scraper.py:52-63 | the inner loop stops at the first candidate answering 200 and records it as `working` |
| HallScraper.ProbeHalls | purdue_scraper.py:43-64 | the outer loop collects each hall's entry in list order |
| HallScraper.GetKnownPurdueDiningHalls | purdue_scraper.py:6-66 | the nested loops with `break` give, hall by hall in list order, the first working candidate |
| HallScraper.ProbedAppend | purdue_scraper.py:43-64 | the entries for two runs of halls are those of each, in order |
| HallScraper.ProbedMeaning | purdue_scraper.py:43-64 | every entry is a listed hall, `working`, with its first 200 candidate; every hall with a 200 candidate has an entry; no more entries than halls |
| HallScraper.ProbedDistinctNames | purdue_scraper.py:43-64 | with distinct hall names, no two entries share a name, as the `break` gives each hall at most one |
| HallScraper.FirstApiData | purdue_scraper.py:89-111 | no data exactly when no endpoint answers 200; otherwise the first 200 endpoint's JSON, or its text when the body is not JSON |
| HallScraper.QueryEndpoints | purdue_scraper.py:89-111 | the loop returns the payload of the first endpoint answering 200, or nothing |
| HallScraper.TryApiEndpoints | purdue_scraper.py:68-111 | the loop returns the first answering endpoint's payload |
| HallScraper.ApiTruthy | purdue_scraper.py:128 | API data is truthy exactly when its Python value is: the decoded JSON, or the text as a string |
| HallScraper.FilterLinks | purdue_scraper.py:179-190 | the loop keeps the links the filter accepts, in page order |
| HallScraper.IsHallLink | purdue_scraper.py:185 | a link passes exactly when its text is longer than two characters and does not start with `http` (the non-empty test is implied) |
| HallScraper.HallLinks | purdue_scraper.py:179-190 | the kept links are page links that pass the filter, never more than the page has |
| HallScraper.HallLinksMeaning | purdue_scraper.py:179-190 | a link is kept exactly when it is on the page, its text is longer than two characters, and it does not start with `http` |
| HallScraper.NamesSnoc | purdue_scraper.py:192-197 | appending a link adds exactly its name to the names seen |
| HallScraper.FirstOccurrences | purdue_scraper.py:192-197 | the de-duplicated list is drawn from its input and is never longer |
| HallScraper.FirstOccurrencesNames | purdue_scraper.py:192-197 | de-duplication keeps every name |
| HallScraper.IsFirstIffNew | purdue_scraper.py:195 | a link is the first of its name exactly when its name is not yet in `seen` |
| HallScraper.IsFirstInPrefix | purdue_scraper.py:194-195 | whether a link is the first of its name depends only on the links before it |
| HallScraper.FirstOccurrencesSnoc | purdue_scraper.py:194-197 | one more link is kept exactly when its name is new, and its name joins `seen` |
| HallScraper.FirstOccurrencesDistinct | purdue_scraper.py:192-197 | the de-duplicated list has pairwise distinct names and is no longer than its input |
| HallScraper.FirstOccurrencesAreFirsts | purdue_scraper.py:192-197 | a link is kept exactly when it is the first of its name in the input |
| HallScraper.RemoveDuplicates | purdue_scraper.py:192-197 | the `seen`-set loop keeps exactly the first link of each name, in order |
| HallScraper.ScrapePurdueDiningHalls | purdue_scraper.py:113-215 | the probe result, if non-empty, without consulting the API or the page; else truthy API data; else the page's de-duplicated hall links, or `[]` when that path raised |
| HallScraper.MainPageLinks | purdue_scraper.py:144-215 | `[]` when the main-page path raised; otherwise only accepted links from the page |
| HallScraper.MainPageLinksMeaning | purdue_scraper.py:179-208 | the main-page result holds only accepted links from the page, with distinct names, one for every name of an accepted link |

## Left out

- Network I/O: the oracles stand in for `requests`. Headers, timeouts and sessions are not modelled.
- Concurrency: `ThreadPoolExecutor` becomes a completion order (`order`, any permutation of the halls). `max_workers` and timing are not modelled.
- ApiScraper.WorkerRecord: an exception that escapes `scrape_dining_hall` is a `fault(hall)` oracle. Such an exception can only come from code outside its try block: building the date string and URL (purdue_api_scraper.py:25-26) or the except handler itself (:62-68).
- The clock: `get_date_string(None)` uses today's date, so the model takes an explicit valid `Date`. With `date=None`, each worker reads the clock on its own, so workers running across midnight could use different dates; the model gives them all the same date. The save timestamp is a parameter.
- `%Y` is written as four zero-padded digits. Years outside 1..9999 are excluded, as `datetime` does.
- File output (`json.dump`, the saved scripts), every `print`, and `main` are not modelled.
- HTML parsing: BeautifulSoup and the script-tag scan of the main page are not modelled. The page is given as its link list.
- JSON decoding: payloads arrive already decoded. Ints and floats are both `real`, so Python's `True == 1` dictionary-key collision is not modelled.
- Repeated JSON keys: a `JObj` may list a key twice and `Lookup` takes the first, while `json.loads` keeps the last. Decoded payloads never repeat a key, and no proved property depends on this.
- Dict insertion order: `food_items` and `nutrition_dict` are Dafny maps, which have no order. The order only affects the saved JSON and the printed output.
- HallScraper.Lower: only ASCII letters are lower-cased; Unicode case mapping is not modelled.
- Exception messages: the `Err` strings are approximations of Python's texts. Only the exception's presence is proved.
- `app.py`, `DB.py`, `food_input.py`, `nutrition_calculations.py`, `start.py` and the frontend are not part of this model.
