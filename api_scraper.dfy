/**
 * The dining-menu API scraper: one `PurdueAPIScraper` whose fields are set
 * once at construction, so its state is the constants below and every
 * operation takes the network as an oracle.
 *
 *   - `fetchHall(url)`: the decoded menu payload of `GET url`, or the
 *     message of whatever `get`, `raise_for_status` or `json()` raised.
 *   - `fetchItem(id)`: the decoded payload of the item-nutrition endpoint
 *     when it answered 200 with JSON; `None` when the request raised, the
 *     status was not 200 or the body did not decode.
 */
module ApiScraper {
  import opened Wrappers
  import opened PyJson

  const BaseUrl := "https://api.hfs.purdue.edu/menus/v2/locations"
  const DiningHalls: seq<string> := ["Earhart", "Ford", "Hillenbrand", "Wiley", "Windsor"]

  const CaloriesLabel := "Calories"
  const CarbsLabel := "Total Carbohydrate"
  const ProteinLabel := "Protein"
  const FatLabel := "Total fat"

  /** The default `0` of a nutrient field. */
  const Zero := JNum(0.0)

  type HallFetch = string -> Result<Json>
  type ItemFetch = Json -> Option<Json>

  // ---------------------------------------------------------------------
  // get_date_string: strftime("%m-%d-%Y") of an explicit date
  // ---------------------------------------------------------------------

  datatype Date = Date(year: int, month: int, day: int)

  /** The range a Python `datetime` guarantees for its fields. */
  predicate ValidDate(d: Date) {
    1 <= d.year <= 9999 && 1 <= d.month <= 12 && 1 <= d.day <= 31
  }

  function DigitChar(n: int): char
    requires 0 <= n <= 9
  {
    ('0' as int + n) as char
  }

  predicate IsDigit(c: char) {
    '0' <= c <= '9'
  }

  function DigitValue(c: char): int {
    c as int - '0' as int
  }

  /** `n` in decimal, zero-padded on the left to `width` digits. */
  function Padded(n: nat, width: nat): (r: string)
    ensures |r| == width
    ensures forall i :: 0 <= i < |r| ==> IsDigit(r[i])
  {
    if width == 0 then []
    else Padded(n / 10, width - 1) + [DigitChar(n % 10)]
  }

  /** The number a string of decimal digits denotes. */
  function DecimalValue(s: string): int {
    if s == [] then 0 else 10 * DecimalValue(s[..|s| - 1]) + DigitValue(s[|s| - 1])
  }

  function Pow10(k: nat): (r: nat)
    ensures r > 0
  {
    if k == 0 then 1 else 10 * Pow10(k - 1)
  }

  lemma {:induction false} PaddedValue(n: nat, width: nat)
    requires n < Pow10(width)
    ensures DecimalValue(Padded(n, width)) == n
  {
    if width > 0 {
      var p := Padded(n, width);
      PaddedValue(n / 10, width - 1);
      assert p[..|p| - 1] == Padded(n / 10, width - 1);
      assert DigitValue(p[|p| - 1]) == n % 10;
    }
  }

  /** The `MM-DD-YYYY` string the menu API expects for `d`. */
  function GetDateString(d: Date): (s: string)
    requires ValidDate(d)
    ensures |s| == 10 && s[2] == '-' && s[5] == '-'
    ensures forall i :: 0 <= i < 10 && i != 2 && i != 5 ==> IsDigit(s[i])
  {
    Padded(d.month, 2) + "-" + Padded(d.day, 2) + "-" + Padded(d.year, 4)
  }

  /** Reads a `MM-DD-YYYY` string back into a date. */
  function ParseDateString(s: string): Option<Date> {
    if |s| == 10 && s[2] == '-' && s[5] == '-'
       && (forall i :: 0 <= i < 10 && i != 2 && i != 5 ==> IsDigit(s[i]))
    then Some(Date(DecimalValue(s[6..]), DecimalValue(s[..2]), DecimalValue(s[3..5])))
    else None
  }

  /** The date string determines the date: formatting loses nothing. */
  lemma DateStringRoundTrip(d: Date)
    requires ValidDate(d)
    ensures ParseDateString(GetDateString(d)) == Some(d)
  {
    var s := GetDateString(d);
    assert s[..2] == Padded(d.month, 2);
    assert s[3..5] == Padded(d.day, 2);
    assert s[6..] == Padded(d.year, 4);
    PaddedValue(d.month, 2);
    PaddedValue(d.day, 2);
    PaddedValue(d.year, 4);
  }

  // ---------------------------------------------------------------------
  // get_nutrition_data: the [calories, carbs, protein, fat] of one item
  // ---------------------------------------------------------------------

  type Nutrition = seq<Json>

  predicate NameIs(nutrient: Json, name: string) {
    FieldOr(nutrient, "Name", JStr("")) == JStr(name)
  }

  /** The `Value` (default 0) of the last entry whose `Name` is `name`, or 0 if none is. */
  function LastValue(ns: seq<Json>, name: string): Json {
    if ns == [] then Zero
    else if NameIs(ns[|ns| - 1], name) then FieldOr(ns[|ns| - 1], "Value", Zero)
    else LastValue(ns[..|ns| - 1], name)
  }

  predicate AllObjects(ns: seq<Json>) {
    forall i :: 0 <= i < |ns| ==> ns[i].JObj?
  }

  /**
   * What `get_nutrition_data` makes of a 200 JSON payload `p`: the four
   * labelled values, or `None` when walking `p` raises (a `Nutrition` that
   * cannot be searched or iterated, or an entry that is not a dict).
   */
  function NutritionOf(p: Json): (r: Option<Nutrition>)
    ensures r.Some? ==> |r.value| == 4
  {
    match Children(p, "Nutrition")
    case Err(_) => None
    case Ok(ns) =>
      if AllObjects(ns)
      then Some([LastValue(ns, CaloriesLabel), LastValue(ns, CarbsLabel),
                 LastValue(ns, ProteinLabel), LastValue(ns, FatLabel)])
      else None
  }

  /** `get_nutrition_data(item_id)` as a function of the item oracle. */
  function ItemNutrition(fetchItem: ItemFetch, id: Json): Option<Nutrition> {
    match fetchItem(id)
    case None => None
    case Some(p) => NutritionOf(p)
  }

  /** The field is the value of the last entry carrying its label. */
  lemma {:induction false} LastValueIsLastMatch(ns: seq<Json>, name: string, i: nat)
    requires i < |ns| && NameIs(ns[i], name)
    requires forall j :: i < j < |ns| ==> !NameIs(ns[j], name)
    ensures LastValue(ns, name) == FieldOr(ns[i], "Value", Zero)
  {
    if i < |ns| - 1 {
      LastValueIsLastMatch(ns[..|ns| - 1], name, i);
    }
  }

  /** A label that no entry carries reads as 0. */
  lemma {:induction false} LastValueNoMatch(ns: seq<Json>, name: string)
    requires forall j :: 0 <= j < |ns| ==> !NameIs(ns[j], name)
    ensures LastValue(ns, name) == Zero
  {
    if ns != [] {
      LastValueNoMatch(ns[..|ns| - 1], name);
    }
  }

  /** A payload without a `Nutrition` key yields four zeros. */
  lemma MissingNutritionIsZero(p: Json)
    requires p.JObj? && !HasKey(p, "Nutrition")
    ensures NutritionOf(p) == Some([Zero, Zero, Zero, Zero])
  {
  }

  /** One more nutrient: it sets the field when it carries the label, and leaves it otherwise. */
  lemma LastValueSnoc(ns: seq<Json>, i: nat, name: string)
    requires i < |ns|
    ensures LastValue(ns[..i + 1], name) ==
              if NameIs(ns[i], name) then FieldOr(ns[i], "Value", Zero) else LastValue(ns[..i], name)
  {
    assert ns[..i + 1][..i] == ns[..i];
  }

  /**
   * `get_nutrition_data`: never raises; `None` for a failed fetch or a
   * payload it cannot walk, otherwise `[calories, carbs, protein, fat]`.
   */
  method GetNutritionData(fetchItem: ItemFetch, itemId: Json) returns (r: Option<Nutrition>)
    ensures r == ItemNutrition(fetchItem, itemId)
    ensures r.Some? ==> |r.value| == 4
  {
    var response := fetchItem(itemId);
    if response.None? {
      return None;
    }
    var payload := response.value;
    var present := In("Nutrition", payload);
    if present.Err? {
      return None;
    }
    if !present.value {
      return Some([Zero, Zero, Zero, Zero]);
    }
    var list := Index(payload, "Nutrition");
    if list.Err? {
      return None;
    }
    var entries := Iterate(list.value);
    if entries.Err? {
      return None;
    }
    assert Children(payload, "Nutrition") == Ok(entries.value);
    r := ReadNutrients(entries.value);
  }

  /** The loop over `Nutrition`: the four labelled values, or `None` when an entry is not a dict. */
  method ReadNutrients(ns: seq<Json>) returns (r: Option<Nutrition>)
    ensures r == if AllObjects(ns)
                 then Some([LastValue(ns, CaloriesLabel), LastValue(ns, CarbsLabel),
                            LastValue(ns, ProteinLabel), LastValue(ns, FatLabel)])
                 else None
  {
    var calories, carbs, protein, fat := Zero, Zero, Zero, Zero;
    var i := 0;
    while i < |ns|
      invariant 0 <= i <= |ns|
      invariant AllObjects(ns[..i])
      invariant calories == LastValue(ns[..i], CaloriesLabel)
      invariant carbs == LastValue(ns[..i], CarbsLabel)
      invariant protein == LastValue(ns[..i], ProteinLabel)
      invariant fat == LastValue(ns[..i], FatLabel)
    {
      var nutrient := ns[i];
      var name := Get(nutrient, "Name", JStr(""));
      if name.Err? {
        assert !AllObjects(ns);
        return None;
      }
      var value := Get(nutrient, "Value", Zero);
      if name.value == JStr(CaloriesLabel) {
        calories := value.value;
      } else if name.value == JStr(CarbsLabel) {
        carbs := value.value;
      } else if name.value == JStr(ProteinLabel) {
        protein := value.value;
      } else if name.value == JStr(FatLabel) {
        fat := value.value;
      }
      LastValueSnoc(ns, i, CaloriesLabel);
      LastValueSnoc(ns, i, CarbsLabel);
      LastValueSnoc(ns, i, ProteinLabel);
      LastValueSnoc(ns, i, FatLabel);
      i := i + 1;
    }
    assert ns[..i] == ns;
    return Some([calories, carbs, protein, fat]);
  }

  // ---------------------------------------------------------------------
  // scrape_dining_hall: walk Meals -> Stations -> Items into food_items
  // ---------------------------------------------------------------------

  /** `food_items`: food name to its nutrition list. */
  type FoodItems = map<Json, Nutrition>

  datatype Status = Success | Error

  /** One per-hall record; `date` is absent only on a worker-failure record. */
  datatype HallRecord = HallRecord(
    diningHall: string,
    date: Option<string>,
    foodItems: FoodItems,
    status: Status,
    error: Option<string>)

  function HallUrl(hall: string, dateStr: string): string {
    BaseUrl + "/" + hall + "/" + dateStr + "/"
  }

  /** What one menu item does to `food_items`, or the exception it raises. */
  function ItemStep(fetchItem: ItemFetch, acc: FoodItems, item: Json): (r: Result<FoodItems>)
    ensures r.Ok? ==> forall k :: k in acc && k != NameOf(item) ==> k in r.value && r.value[k] == acc[k]
    ensures r.Ok? ==> forall k :: k in r.value ==> k in acc || k == NameOf(item)
  {
    match Get(item, "NutritionReady", JBool(false))
    case Err(e) => Err(e)
    case Ok(ready) =>
      if !Truthy(ready) then Ok(acc)
      else
        match Index(item, "Name")
        case Err(e) => Err(e)
        case Ok(name) =>
          match Index(item, "ID")
          case Err(e) => Err(e)
          case Ok(id) =>
            match ItemNutrition(fetchItem, id)
            case None => Ok(acc)
            case Some(n) =>
              if Hashable(name) then Ok(acc[name := n])
              else Err("unhashable type: '" + TypeName(name) + "'")
  }

  /** The items of one station, in order, as the innermost loop consumes them. */
  function ItemsFrom(fetchItem: ItemFetch, acc: FoodItems, items: seq<Json>): Result<FoodItems>
    decreases |items|
  {
    if items == [] then Ok(acc)
    else
      match ItemStep(fetchItem, acc, items[0])
      case Err(e) => Err(e)
      case Ok(m) => ItemsFrom(fetchItem, m, items[1..])
  }

  function StationFrom(fetchItem: ItemFetch, acc: FoodItems, station: Json): Result<FoodItems> {
    match Children(station, "Items")
    case Err(e) => Err(e)
    case Ok(items) => ItemsFrom(fetchItem, acc, items)
  }

  function StationsFrom(fetchItem: ItemFetch, acc: FoodItems, stations: seq<Json>): Result<FoodItems>
    decreases |stations|
  {
    if stations == [] then Ok(acc)
    else
      match StationFrom(fetchItem, acc, stations[0])
      case Err(e) => Err(e)
      case Ok(m) => StationsFrom(fetchItem, m, stations[1..])
  }

  function MealFrom(fetchItem: ItemFetch, acc: FoodItems, meal: Json): Result<FoodItems> {
    match Children(meal, "Stations")
    case Err(e) => Err(e)
    case Ok(stations) => StationsFrom(fetchItem, acc, stations)
  }

  function MealsFrom(fetchItem: ItemFetch, acc: FoodItems, meals: seq<Json>): Result<FoodItems>
    decreases |meals|
  {
    if meals == [] then Ok(acc)
    else
      match MealFrom(fetchItem, acc, meals[0])
      case Err(e) => Err(e)
      case Ok(m) => MealsFrom(fetchItem, m, meals[1..])
  }

  /** The `food_items` built from a decoded menu payload, or the exception raised on the way. */
  function MenuFrom(fetchItem: ItemFetch, data: Json): Result<FoodItems> {
    match Children(data, "Meals")
    case Err(e) => Err(e)
    case Ok(meals) => MealsFrom(fetchItem, map[], meals)
  }

  function SuccessRecord(hall: string, dateStr: string, items: FoodItems): HallRecord {
    HallRecord(hall, Some(dateStr), items, Success, None)
  }

  function ErrorRecord(hall: string, dateStr: string, e: string): HallRecord {
    HallRecord(hall, Some(dateStr), map[], Error, Some(e))
  }

  /** The record `scrape_dining_hall(hall, date)` returns; it never raises. */
  function ScrapeHall(fetchHall: HallFetch, fetchItem: ItemFetch, hall: string, date: Date): (r: HallRecord)
    requires ValidDate(date)
    ensures r.diningHall == hall && r.date == Some(GetDateString(date))
    ensures r.status == Success <==> r.error.None?
    ensures r.status == Error ==> r.foodItems == map[]
  {
    var dateStr := GetDateString(date);
    match fetchHall(HallUrl(hall, dateStr))
    case Err(e) => ErrorRecord(hall, dateStr, e)
    case Ok(data) =>
      match MenuFrom(fetchItem, data)
      case Err(e) => ErrorRecord(hall, dateStr, e)
      case Ok(items) => SuccessRecord(hall, dateStr, items)
  }

  /** The innermost loop of `scrape_dining_hall`: the items of one station. */
  method AddStationItems(fetchItem: ItemFetch, acc: FoodItems, items: seq<Json>) returns (r: Result<FoodItems>)
    ensures r == ItemsFrom(fetchItem, acc, items)
  {
    var foodItems := acc;
    var i := 0;
    while i < |items|
      invariant 0 <= i <= |items|
      invariant ItemsFrom(fetchItem, acc, items) == ItemsFrom(fetchItem, foodItems, items[i..])
    {
      var item := items[i];
      assert items[i..][0] == item && items[i..][1..] == items[i + 1..];
      var ready := Get(item, "NutritionReady", JBool(false));
      if ready.Err? {
        return Err(ready.error);
      }
      if Truthy(ready.value) {
        var name := Index(item, "Name");
        if name.Err? {
          return Err(name.error);
        }
        var id := Index(item, "ID");
        if id.Err? {
          return Err(id.error);
        }
        var nutrition := GetNutritionData(fetchItem, id.value);
        if nutrition.Some? {
          if !Hashable(name.value) {
            return Err("unhashable type: '" + TypeName(name.value) + "'");
          }
          foodItems := foodItems[name.value := nutrition.value];
        }
      }
      i := i + 1;
    }
    return Ok(foodItems);
  }

  /** The middle loop of `scrape_dining_hall`: the stations of one meal. */
  method AddMealStations(fetchItem: ItemFetch, acc: FoodItems, stations: seq<Json>) returns (r: Result<FoodItems>)
    ensures r == StationsFrom(fetchItem, acc, stations)
  {
    var foodItems := acc;
    var i := 0;
    while i < |stations|
      invariant 0 <= i <= |stations|
      invariant StationsFrom(fetchItem, acc, stations) == StationsFrom(fetchItem, foodItems, stations[i..])
    {
      var station := stations[i];
      assert stations[i..][0] == station && stations[i..][1..] == stations[i + 1..];
      var items := Children(station, "Items");
      if items.Err? {
        return Err(items.error);
      }
      var next := AddStationItems(fetchItem, foodItems, items.value);
      if next.Err? {
        return next;
      }
      foodItems := next.value;
      i := i + 1;
    }
    return Ok(foodItems);
  }

  /**
   * `scrape_dining_hall`: fetch the hall's menu for the date and walk it;
   * any exception becomes an error record.
   */
  method ScrapeDiningHall(fetchHall: HallFetch, fetchItem: ItemFetch, hall: string, date: Date)
    returns (record: HallRecord)
    requires ValidDate(date)
    ensures record == ScrapeHall(fetchHall, fetchItem, hall, date)
  {
    var dateStr := GetDateString(date);
    var url := HallUrl(hall, dateStr);
    var response := fetchHall(url);
    if response.Err? {
      return ErrorRecord(hall, dateStr, response.error);
    }
    var data := response.value;
    var meals := Children(data, "Meals");
    if meals.Err? {
      return ErrorRecord(hall, dateStr, meals.error);
    }
    var foodItems: FoodItems := map[];
    var i := 0;
    while i < |meals.value|
      invariant 0 <= i <= |meals.value|
      invariant MenuFrom(fetchItem, data) == MealsFrom(fetchItem, foodItems, meals.value[i..])
    {
      var meal := meals.value[i];
      assert meals.value[i..][0] == meal && meals.value[i..][1..] == meals.value[i + 1..];
      var stations := Children(meal, "Stations");
      if stations.Err? {
        return ErrorRecord(hall, dateStr, stations.error);
      }
      var next := AddMealStations(fetchItem, foodItems, stations.value);
      if next.Err? {
        return ErrorRecord(hall, dateStr, next.error);
      }
      foodItems := next.value;
      i := i + 1;
    }
    return SuccessRecord(hall, dateStr, foodItems);
  }

  // ---------------------------------------------------------------------
  // What the walk means: a flat list of items, and what each contributes
  // ---------------------------------------------------------------------

  function ReadyOf(item: Json): Json {
    FieldOr(item, "NutritionReady", JBool(false))
  }

  function NameOf(item: Json): Json {
    FieldOr(item, "Name", JNull)
  }

  function IdOf(item: Json): Json {
    FieldOr(item, "ID", JNull)
  }

  /** An item the walk gets past without an exception. */
  predicate ItemOk(fetchItem: ItemFetch, item: Json) {
    && item.JObj?
    && (Truthy(ReadyOf(item)) ==>
          && HasKey(item, "Name") && HasKey(item, "ID")
          && (ItemNutrition(fetchItem, IdOf(item)).Some? ==> Hashable(NameOf(item))))
  }

  /** An item that ends up in `food_items`: ready, named, with an ID whose lookup answered. */
  predicate Contributes(fetchItem: ItemFetch, item: Json) {
    && item.JObj? && Truthy(ReadyOf(item))
    && HasKey(item, "Name") && HasKey(item, "ID")
    && ItemNutrition(fetchItem, IdOf(item)).Some?
  }

  /** The entries a run of items writes, a later item overwriting an earlier one of the same name. */
  function Contributions(fetchItem: ItemFetch, items: seq<Json>): FoodItems
    decreases |items|
  {
    if items == [] then map[]
    else
      (if Contributes(fetchItem, items[0])
       then map[NameOf(items[0]) := ItemNutrition(fetchItem, IdOf(items[0])).value]
       else map[])
      + Contributions(fetchItem, items[1..])
  }

  /** The items of a list of stations, in walk order, or the structural exception. */
  function StationsItems(stations: seq<Json>): Result<seq<Json>>
    decreases |stations|
  {
    if stations == [] then Ok([])
    else
      match Children(stations[0], "Items")
      case Err(e) => Err(e)
      case Ok(items) =>
        match StationsItems(stations[1..])
        case Err(e) => Err(e)
        case Ok(rest) => Ok(items + rest)
  }

  function MealsItems(meals: seq<Json>): Result<seq<Json>>
    decreases |meals|
  {
    if meals == [] then Ok([])
    else
      match Children(meals[0], "Stations")
      case Err(e) => Err(e)
      case Ok(stations) =>
        match StationsItems(stations)
        case Err(e) => Err(e)
        case Ok(items) =>
          match MealsItems(meals[1..])
          case Err(e) => Err(e)
          case Ok(rest) => Ok(items + rest)
  }

  /** Every item of a menu payload, meal by meal and station by station. */
  function MenuItems(data: Json): Result<seq<Json>> {
    match Children(data, "Meals")
    case Err(e) => Err(e)
    case Ok(meals) => MealsItems(meals)
  }

  lemma ItemStepMeaning(fetchItem: ItemFetch, acc: FoodItems, item: Json)
    ensures ItemStep(fetchItem, acc, item).Ok? <==> ItemOk(fetchItem, item)
    ensures ItemOk(fetchItem, item) ==>
              ItemStep(fetchItem, acc, item).value ==
                if Contributes(fetchItem, item)
                then acc[NameOf(item) := ItemNutrition(fetchItem, IdOf(item)).value]
                else acc
  {
  }

  lemma MapUnionAssoc<K, V>(a: map<K, V>, b: map<K, V>, c: map<K, V>)
    ensures (a + b) + c == a + (b + c)
  {
  }

  /** A run of items succeeds exactly when each item does. */
  lemma {:induction false} ItemsFromOk(fetchItem: ItemFetch, acc: FoodItems, items: seq<Json>)
    ensures ItemsFrom(fetchItem, acc, items).Ok? <==>
              forall i :: 0 <= i < |items| ==> ItemOk(fetchItem, items[i])
    decreases |items|
  {
    if items != [] {
      ItemStepMeaning(fetchItem, acc, items[0]);
      var step := ItemStep(fetchItem, acc, items[0]);
      var rest := items[1..];
      if step.Ok? {
        ItemsFromOk(fetchItem, step.value, rest);
        assert (forall i :: 0 <= i < |items| ==> ItemOk(fetchItem, items[i])) <==>
               (forall i :: 0 <= i < |rest| ==> ItemOk(fetchItem, rest[i])) by {
          forall i | 0 < i < |items| ensures items[i] == rest[i - 1] { }
        }
      }
    }
  }

  /** A run of items that succeeds adds exactly its contributions, later ones winning. */
  lemma {:induction false} ItemsFromValue(fetchItem: ItemFetch, acc: FoodItems, items: seq<Json>)
    requires ItemsFrom(fetchItem, acc, items).Ok?
    ensures ItemsFrom(fetchItem, acc, items).value == acc + Contributions(fetchItem, items)
    decreases |items|
  {
    if items != [] {
      var item, rest := items[0], items[1..];
      var step := ItemStep(fetchItem, acc, item);
      assert step.Ok?;
      assert ItemsFrom(fetchItem, acc, items) == ItemsFrom(fetchItem, step.value, rest);
      ItemStepMeaning(fetchItem, acc, item);
      var x: FoodItems :=
        if Contributes(fetchItem, item)
        then map[NameOf(item) := ItemNutrition(fetchItem, IdOf(item)).value]
        else map[];
      assert step.value == acc + x;
      var c := Contributions(fetchItem, rest);
      assert Contributions(fetchItem, items) == x + c;
      ItemsFromValue(fetchItem, step.value, rest);
      MapUnionAssoc(acc, x, c);
    }
  }


  /** The keys written are exactly the names of the contributing items. */
  lemma {:induction false} ContributionsKeys(fetchItem: ItemFetch, items: seq<Json>, k: Json)
    ensures k in Contributions(fetchItem, items) <==>
              exists i :: 0 <= i < |items| && Contributes(fetchItem, items[i]) && NameOf(items[i]) == k
    decreases |items|
  {
    if items != [] {
      var item, rest := items[0], items[1..];
      var x: FoodItems := if Contributes(fetchItem, item)
                          then map[NameOf(item) := ItemNutrition(fetchItem, IdOf(item)).value]
                          else map[];
      assert Contributions(fetchItem, items) == x + Contributions(fetchItem, rest);
      ContributionsKeys(fetchItem, rest, k);
      assert forall i :: 0 < i < |items| ==> items[i] == rest[i - 1];
      if !(Contributes(fetchItem, item) && NameOf(item) == k) {
        assert k !in x;
      }
    }
  }


  /** A name keeps the nutrition of the last contributing item that carries it. */
  lemma {:induction false} ContributionsLast(fetchItem: ItemFetch, items: seq<Json>, i: nat)
    requires i < |items| && Contributes(fetchItem, items[i])
    requires forall j :: i < j < |items| && Contributes(fetchItem, items[j]) ==> NameOf(items[j]) != NameOf(items[i])
    ensures NameOf(items[i]) in Contributions(fetchItem, items)
    ensures Contributions(fetchItem, items)[NameOf(items[i])] == ItemNutrition(fetchItem, IdOf(items[i])).value
    decreases |items|
  {
    var k := NameOf(items[i]);
    var rest := items[1..];
    if i == 0 {
      ContributionsKeys(fetchItem, rest, k);
    } else {
      forall j | i - 1 < j < |rest| && Contributes(fetchItem, rest[j])
        ensures NameOf(rest[j]) != NameOf(rest[i - 1])
      {
        assert rest[j] == items[j + 1];
      }
      ContributionsLast(fetchItem, rest, i - 1);
    }
  }

  lemma {:induction false} ItemsFromAppend(fetchItem: ItemFetch, acc: FoodItems, a: seq<Json>, b: seq<Json>)
    ensures ItemsFrom(fetchItem, acc, a + b) ==
              match ItemsFrom(fetchItem, acc, a)
              case Err(e) => Err(e)
              case Ok(m) => ItemsFrom(fetchItem, m, b)
    decreases |a|
  {
    if a == [] {
      assert a + b == b;
    } else {
      assert (a + b)[0] == a[0] && (a + b)[1..] == a[1..] + b;
      var step := ItemStep(fetchItem, acc, a[0]);
      if step.Ok? {
        ItemsFromAppend(fetchItem, step.value, a[1..], b);
      }
    }
  }

  lemma {:induction false} StationsFromFlat(fetchItem: ItemFetch, acc: FoodItems, stations: seq<Json>)
    ensures StationsItems(stations).Ok? ==>
              StationsFrom(fetchItem, acc, stations) == ItemsFrom(fetchItem, acc, StationsItems(stations).value)
    ensures StationsItems(stations).Err? ==> StationsFrom(fetchItem, acc, stations).Err?
    decreases |stations|
  {
    if stations != [] {
      var items := Children(stations[0], "Items");
      if items.Ok? {
        var first := ItemsFrom(fetchItem, acc, items.value);
        if first.Ok? {
          StationsFromFlat(fetchItem, first.value, stations[1..]);
        }
        var rest := StationsItems(stations[1..]);
        if rest.Ok? {
          ItemsFromAppend(fetchItem, acc, items.value, rest.value);
        }
      }
    }
  }

  lemma {:induction false} MealsFromFlat(fetchItem: ItemFetch, acc: FoodItems, meals: seq<Json>)
    ensures MealsItems(meals).Ok? ==>
              MealsFrom(fetchItem, acc, meals) == ItemsFrom(fetchItem, acc, MealsItems(meals).value)
    ensures MealsItems(meals).Err? ==> MealsFrom(fetchItem, acc, meals).Err?
    decreases |meals|
  {
    if meals != [] {
      var stations := Children(meals[0], "Stations");
      if stations.Ok? {
        StationsFromFlat(fetchItem, acc, stations.value);
        var items := StationsItems(stations.value);
        var first := StationsFrom(fetchItem, acc, stations.value);
        if first.Ok? {
          MealsFromFlat(fetchItem, first.value, meals[1..]);
        }
        var rest := MealsItems(meals[1..]);
        if items.Ok? && rest.Ok? {
          ItemsFromAppend(fetchItem, acc, items.value, rest.value);
        }
      }
    }
  }

  /**
   * The walk of a payload succeeds exactly when its structure can be walked
   * and every item can be processed; `food_items` then holds one entry per
   * contributing name, with the nutrition of the last item of that name.
   */
  lemma MenuFromMeaning(fetchItem: ItemFetch, data: Json)
    ensures MenuFrom(fetchItem, data).Ok? <==>
              && MenuItems(data).Ok?
              && forall i :: 0 <= i < |MenuItems(data).value| ==> ItemOk(fetchItem, MenuItems(data).value[i])
    ensures MenuFrom(fetchItem, data).Ok? ==>
              MenuFrom(fetchItem, data).value == Contributions(fetchItem, MenuItems(data).value)
  {
    var meals := Children(data, "Meals");
    if meals.Ok? {
      var menu := MealsFrom(fetchItem, map[], meals.value);
      assert MenuFrom(fetchItem, data) == menu;
      MealsFromFlat(fetchItem, map[], meals.value);
      var items := MealsItems(meals.value);
      assert MenuItems(data) == items;
      if items.Ok? {
        assert menu == ItemsFrom(fetchItem, map[], items.value);
        ItemsFromOk(fetchItem, map[], items.value);
        if menu.Ok? {
          ItemsFromValue(fetchItem, map[], items.value);
          assert map[] + Contributions(fetchItem, items.value) == Contributions(fetchItem, items.value);
        }
      }
    }
  }

  /**
   * `scrape_dining_hall` reports success exactly when the menu fetch answered,
   * the Meals/Stations/Items structure could be walked and no ready item
   * lacked `Name` or `ID`; its keys are then exactly the names of ready items
   * whose nutrition lookup answered. An item whose lookup gave `None` is
   * skipped without failing the hall.
   */
  lemma ScrapeHallSuccess(fetchHall: HallFetch, fetchItem: ItemFetch, hall: string, date: Date, k: Json)
    requires ValidDate(date)
    ensures var r := ScrapeHall(fetchHall, fetchItem, hall, date);
            var response := fetchHall(HallUrl(hall, GetDateString(date)));
            r.status == Success <==>
              && response.Ok?
              && MenuItems(response.value).Ok?
              && forall i :: 0 <= i < |MenuItems(response.value).value| ==>
                   ItemOk(fetchItem, MenuItems(response.value).value[i])
    ensures var r := ScrapeHall(fetchHall, fetchItem, hall, date);
            var response := fetchHall(HallUrl(hall, GetDateString(date)));
            r.status == Success ==>
              (k in r.foodItems <==>
                 exists i :: 0 <= i < |MenuItems(response.value).value|
                   && Contributes(fetchItem, MenuItems(response.value).value[i])
                   && NameOf(MenuItems(response.value).value[i]) == k)
  {
    var response := fetchHall(HallUrl(hall, GetDateString(date)));
    if response.Ok? {
      MenuFromMeaning(fetchItem, response.value);
      if MenuItems(response.value).Ok? {
        ContributionsKeys(fetchItem, MenuItems(response.value).value, k);
      }
    }
  }

  // ---------------------------------------------------------------------
  // scrape_all_dining_halls: one record per configured hall
  // ---------------------------------------------------------------------

  /**
   * An exception that escapes `scrape_dining_hall` for a hall (raised
   * outside its own try block) and reaches the coordinator, if any.
   */
  type WorkerFault = string -> Option<string>

  /** The record the coordinator keeps for one worker. */
  function WorkerRecord(fetchHall: HallFetch, fetchItem: ItemFetch, fault: WorkerFault, hall: string, date: Date): (r: HallRecord)
    requires ValidDate(date)
    ensures r.diningHall == hall
    ensures fault(hall).Some? ==> r.status == Error && r.foodItems == map[] && r.date.None? && r.error == fault(hall)
  {
    match fault(hall)
    case Some(e) => HallRecord(hall, None, map[], Error, Some(e))
    case None => ScrapeHall(fetchHall, fetchItem, hall, date)
  }

  /** The records in completion order `order`. */
  function CollectedRecords(fetchHall: HallFetch, fetchItem: ItemFetch, fault: WorkerFault, date: Date, order: seq<string>): (rs: seq<HallRecord>)
    requires ValidDate(date)
    ensures |rs| == |order|
  {
    seq(|order|, k requires 0 <= k < |order| => WorkerRecord(fetchHall, fetchItem, fault, order[k], date))
  }

  function HallsOf(rs: seq<HallRecord>): seq<string> {
    seq(|rs|, k requires 0 <= k < |rs| => rs[k].diningHall)
  }

  /**
   * `scrape_all_dining_halls`: every configured hall's worker runs to
   * completion; `order`, the order in which the workers finish, is any
   * permutation of the configured halls.
   */
  method ScrapeAllDiningHalls(fetchHall: HallFetch, fetchItem: ItemFetch, fault: WorkerFault, date: Date, order: seq<string>)
    returns (results: seq<HallRecord>)
    requires ValidDate(date)
    requires multiset(order) == multiset(DiningHalls)
    ensures |results| == |DiningHalls|
    ensures forall k :: 0 <= k < |results| ==> results[k] == WorkerRecord(fetchHall, fetchItem, fault, order[k], date)
  {
    results := CollectResults(fetchHall, fetchItem, fault, date, order);
    PermutationLength(order, DiningHalls);
  }

  /** The `as_completed` loop: one record appended per finished worker, in finishing order. */
  method CollectResults(fetchHall: HallFetch, fetchItem: ItemFetch, fault: WorkerFault, date: Date, order: seq<string>)
    returns (results: seq<HallRecord>)
    requires ValidDate(date)
    ensures |results| == |order|
    ensures forall k :: 0 <= k < |results| ==> results[k] == WorkerRecord(fetchHall, fetchItem, fault, order[k], date)
  {
    results := [];
    var i := 0;
    while i < |order|
      invariant 0 <= i <= |order|
      invariant |results| == i
      invariant forall k :: 0 <= k < i ==> results[k] == WorkerRecord(fetchHall, fetchItem, fault, order[k], date)
    {
      var record := WorkerResult(fetchHall, fetchItem, fault, order[i], date);
      results := results + [record];
      i := i + 1;
    }
  }

  /** One worker, as the coordinator sees it: the hall's record, or the exception that escaped it. */
  method WorkerResult(fetchHall: HallFetch, fetchItem: ItemFetch, fault: WorkerFault, hall: string, date: Date)
    returns (record: HallRecord)
    requires ValidDate(date)
    ensures record == WorkerRecord(fetchHall, fetchItem, fault, hall, date)
  {
    var raised := fault(hall);
    if raised.Some? {
      record := HallRecord(hall, None, map[], Error, raised);
    } else {
      record := ScrapeDiningHall(fetchHall, fetchItem, hall, date);
    }
  }

  lemma PermutationLength<T>(a: seq<T>, b: seq<T>)
    requires multiset(a) == multiset(b)
    ensures |a| == |b|
  {
    assert |multiset(a)| == |a| && |multiset(b)| == |b|;
  }

  /** Exactly one record per configured hall, whatever fails and in whatever order. */
  lemma OneRecordPerHall(fetchHall: HallFetch, fetchItem: ItemFetch, fault: WorkerFault, date: Date,
                         halls: seq<string>, order: seq<string>)
    requires ValidDate(date)
    requires multiset(order) == multiset(halls)
    ensures multiset(HallsOf(CollectedRecords(fetchHall, fetchItem, fault, date, order))) == multiset(halls)
  {
    var rs := CollectedRecords(fetchHall, fetchItem, fault, date, order);
    assert HallsOf(rs) == order;
  }

  // ---------------------------------------------------------------------
  // create_nutrition_dictionary: hall -> food -> nutrition
  // ---------------------------------------------------------------------

  type NutritionDict = map<string, FoodItems>

  /** The halls of the success records. */
  function SuccessHalls(rs: seq<HallRecord>): set<string> {
    set i | 0 <= i < |rs| && rs[i].status == Success :: rs[i].diningHall
  }

  /** The food items of the last success record for `hall` (none if there is none). */
  function LastSuccessItems(rs: seq<HallRecord>, hall: string): FoodItems {
    if rs == [] then map[]
    else if rs[|rs| - 1].status == Success && rs[|rs| - 1].diningHall == hall then rs[|rs| - 1].foodItems
    else LastSuccessItems(rs[..|rs| - 1], hall)
  }

  /** The food items whose nutrition is truthy: a non-empty list. */
  function Kept(items: FoodItems): (r: FoodItems)
    ensures forall k :: k in r ==> k in items && r[k] == items[k] && |r[k]| > 0
    ensures forall k :: k in items && |items[k]| > 0 ==> k in r
  {
    map k | k in items && |items[k]| > 0 :: items[k]
  }

  /**
   * The nested dictionary: one entry per hall with a success record, holding
   * the kept items of the last such record (a later record for the same hall
   * replaces the earlier one).
   */
  function NutritionDictionary(rs: seq<HallRecord>): (d: NutritionDict)
    ensures d.Keys == SuccessHalls(rs)
    ensures forall h, food :: h in d && food in d[h] ==> |d[h][food]| > 0
    ensures forall h :: h in d ==> d[h].Keys <= LastSuccessItems(rs, h).Keys
  {
    map h | h in SuccessHalls(rs) :: Kept(LastSuccessItems(rs, h))
  }

  /** One iteration of the dictionary loop: a success resets its hall's entry, an error changes nothing. */
  lemma DictionaryStep(rs: seq<HallRecord>, r: HallRecord)
    ensures NutritionDictionary(rs + [r]) ==
              if r.status == Success then NutritionDictionary(rs)[r.diningHall := Kept(r.foodItems)]
              else NutritionDictionary(rs)
  {
    var rs' := rs + [r];
    assert rs'[..|rs'| - 1] == rs;
    if r.status == Success {
      assert SuccessHalls(rs') == SuccessHalls(rs) + {r.diningHall} by {
        forall h | h in SuccessHalls(rs) ensures h in SuccessHalls(rs') {
          var i :| 0 <= i < |rs| && rs[i].status == Success && rs[i].diningHall == h;
          assert rs'[i] == rs[i];
        }
        assert rs'[|rs|] == r;
      }
    } else {
      assert SuccessHalls(rs') == SuccessHalls(rs) by {
        forall h | h in SuccessHalls(rs) ensures h in SuccessHalls(rs') {
          var i :| 0 <= i < |rs| && rs[i].status == Success && rs[i].diningHall == h;
          assert rs'[i] == rs[i];
        }
        forall h | h in SuccessHalls(rs') ensures h in SuccessHalls(rs) {
          var i :| 0 <= i < |rs'| && rs'[i].status == Success && rs'[i].diningHall == h;
          assert i < |rs| && rs[i] == rs'[i];
        }
      }
    }
  }

  /** The kept items among those already visited (not in `pending`). */
  ghost function KeptOutside(items: FoodItems, pending: set<Json>): FoodItems {
    map k | k in items && k !in pending && |items[k]| > 0 :: items[k]
  }

  lemma KeptOutsideStep(items: FoodItems, pending: set<Json>, food: Json)
    requires food in pending && food in items
    ensures KeptOutside(items, pending - {food}) ==
              if |items[food]| > 0 then KeptOutside(items, pending)[food := items[food]]
              else KeptOutside(items, pending)
  {
  }

  /** The body of the dictionary loop for one success record: reset its hall, copy its kept items. */
  method StoreHall(d0: NutritionDict, hall: string, items: FoodItems) returns (d: NutritionDict)
    ensures d == d0[hall := Kept(items)]
  {
    d := d0[hall := map[]];
    var pending := items.Keys;
    while pending != {}
      invariant pending <= items.Keys
      invariant d == d0[hall := KeptOutside(items, pending)]
      decreases pending
    {
      var food :| food in pending;
      var nutrition := items[food];
      KeptOutsideStep(items, pending, food);
      if |nutrition| > 0 {
        d := d[hall := d[hall][food := nutrition]];
      }
      pending := pending - {food};
    }
    assert KeptOutside(items, {}) == Kept(items);
  }

  /** `create_nutrition_dictionary`. */
  method CreateNutritionDictionary(results: seq<HallRecord>) returns (d: NutritionDict)
    ensures d == NutritionDictionary(results)
  {
    d := map[];
    var i := 0;
    assert results[..0] == [];
    while i < |results|
      invariant 0 <= i <= |results|
      invariant d == NutritionDictionary(results[..i])
    {
      var result := results[i];
      assert results[..i + 1] == results[..i] + [result];
      DictionaryStep(results[..i], result);
      if result.status == Success {
        d := StoreHall(d, result.diningHall, result.foodItems);
      }
      i := i + 1;
    }
    assert results[..i] == results;
  }

  /** A hall's entry is the kept items of its last success record. */
  lemma {:induction false} LastSuccessItemsIsLast(rs: seq<HallRecord>, i: nat)
    requires i < |rs| && rs[i].status == Success
    requires forall j :: i < j < |rs| && rs[j].status == Success ==> rs[j].diningHall != rs[i].diningHall
    ensures LastSuccessItems(rs, rs[i].diningHall) == rs[i].foodItems
  {
    if i < |rs| - 1 {
      var prefix := rs[..|rs| - 1];
      assert prefix[i] == rs[i];
      LastSuccessItemsIsLast(prefix, i);
    }
  }

  /**
   * Every success record's hall has an entry, even when it found no food;
   * the entry holds the non-empty nutrition lists of the last success record
   * for that hall, so an all-zero list is kept and only an empty one dropped.
   */
  lemma DictionaryLastSuccess(rs: seq<HallRecord>, i: nat)
    requires i < |rs| && rs[i].status == Success
    requires forall j :: i < j < |rs| && rs[j].status == Success ==> rs[j].diningHall != rs[i].diningHall
    ensures rs[i].diningHall in NutritionDictionary(rs)
    ensures forall food :: food in NutritionDictionary(rs)[rs[i].diningHall] <==>
                             food in rs[i].foodItems && |rs[i].foodItems[food]| > 0
    ensures forall food :: food in NutritionDictionary(rs)[rs[i].diningHall] ==>
                             NutritionDictionary(rs)[rs[i].diningHall][food] == rs[i].foodItems[food]
  {
    LastSuccessItemsIsLast(rs, i);
  }

  /** Error records contribute nothing to the dictionary, wherever they stand. */
  lemma {:induction false} ErrorRecordsIgnored(a: seq<HallRecord>, r: HallRecord, b: seq<HallRecord>)
    requires r.status == Error
    ensures NutritionDictionary(a + [r] + b) == NutritionDictionary(a + b)
    decreases |b|
  {
    if b == [] {
      assert a + [r] + b == a + [r] && a + b == a;
      DictionaryStep(a, r);
    } else {
      var b' := b[..|b| - 1];
      var x := b[|b| - 1];
      ErrorRecordsIgnored(a, r, b');
      assert a + [r] + b == (a + [r] + b') + [x];
      assert a + b == (a + b') + [x];
      DictionaryStep(a + [r] + b', x);
      DictionaryStep(a + b', x);
    }
  }

  /** When all success records of a hall are equal, the last one is any one of them. */
  lemma {:induction false} LastSuccessIsAny(rs: seq<HallRecord>, r: HallRecord)
    requires r in rs && r.status == Success
    requires forall r' :: r' in rs && r'.status == Success && r'.diningHall == r.diningHall ==> r' == r
    ensures LastSuccessItems(rs, r.diningHall) == r.foodItems
  {
    var last := rs[|rs| - 1];
    if !(last.status == Success && last.diningHall == r.diningHall) {
      var prefix := rs[..|rs| - 1];
      assert rs == prefix + [last];
      assert r in prefix;
      forall r' | r' in prefix && r'.status == Success && r'.diningHall == r.diningHall
        ensures r' == r
      {
        assert r' in rs;
      }
      LastSuccessIsAny(prefix, r);
    }
  }

  /**
   * The dictionary depends only on which records there are, not on their
   * order, as long as all success records of one hall agree.
   */
  lemma DictionaryOrderIndependent(rs1: seq<HallRecord>, rs2: seq<HallRecord>)
    requires forall r :: r in rs1 <==> r in rs2
    requires forall r1, r2 ::
               (r1 in rs1 && r2 in rs1 && r1.status == Success && r2.status == Success
                && r1.diningHall == r2.diningHall) ==> r1 == r2
    ensures NutritionDictionary(rs1) == NutritionDictionary(rs2)
  {
    assert SuccessHalls(rs1) == SuccessHalls(rs2) by {
      forall h | h in SuccessHalls(rs1) ensures h in SuccessHalls(rs2) {
        var i :| 0 <= i < |rs1| && rs1[i].status == Success && rs1[i].diningHall == h;
        assert rs1[i] in rs2;
        var j :| 0 <= j < |rs2| && rs2[j] == rs1[i];
      }
      forall h | h in SuccessHalls(rs2) ensures h in SuccessHalls(rs1) {
        var j :| 0 <= j < |rs2| && rs2[j].status == Success && rs2[j].diningHall == h;
        assert rs2[j] in rs1;
        var i :| 0 <= i < |rs1| && rs1[i] == rs2[j];
      }
    }
    forall h | h in SuccessHalls(rs1)
      ensures LastSuccessItems(rs1, h) == LastSuccessItems(rs2, h)
    {
      var i :| 0 <= i < |rs1| && rs1[i].status == Success && rs1[i].diningHall == h;
      var r := rs1[i];
      LastSuccessIsAny(rs1, r);
      LastSuccessIsAny(rs2, r);
    }
  }

  /**
   * The dictionary does not depend on the order in which the workers
   * complete: any two completion orders of the same halls give the same one.
   */
  lemma DictionaryIndependentOfCompletion(fetchHall: HallFetch, fetchItem: ItemFetch, fault: WorkerFault, date: Date,
                                          order1: seq<string>, order2: seq<string>)
    requires ValidDate(date)
    requires multiset(order1) == multiset(order2)
    ensures NutritionDictionary(CollectedRecords(fetchHall, fetchItem, fault, date, order1))
         == NutritionDictionary(CollectedRecords(fetchHall, fetchItem, fault, date, order2))
  {
    var rs1 := CollectedRecords(fetchHall, fetchItem, fault, date, order1);
    var rs2 := CollectedRecords(fetchHall, fetchItem, fault, date, order2);
    forall r | r in rs1 ensures r in rs2 {
      var k :| 0 <= k < |rs1| && rs1[k] == r;
      assert order1[k] in multiset(order2);
      var j :| 0 <= j < |order2| && order2[j] == order1[k];
      assert rs2[j] == r;
    }
    forall r | r in rs2 ensures r in rs1 {
      var k :| 0 <= k < |rs2| && rs2[k] == r;
      assert order2[k] in multiset(order1);
      var j :| 0 <= j < |order1| && order1[j] == order2[k];
      assert rs1[j] == r;
    }
    forall r1, r2 | r1 in rs1 && r2 in rs1 && r1.diningHall == r2.diningHall
      ensures r1 == r2
    {
      var k1 :| 0 <= k1 < |rs1| && rs1[k1] == r1;
      var k2 :| 0 <= k2 < |rs1| && rs1[k2] == r2;
    }
    DictionaryOrderIndependent(rs1, rs2);
  }

  /** Every nutrition list `scrape_dining_hall` stores has the four fields. */
  lemma {:induction false} ContributionsAreLists(fetchItem: ItemFetch, items: seq<Json>)
    ensures forall k :: k in Contributions(fetchItem, items) ==> |Contributions(fetchItem, items)[k]| == 4
    decreases |items|
  {
    if items != [] {
      ContributionsAreLists(fetchItem, items[1..]);
    }
  }

  /** So the dictionary drops nothing from a record the scraper produced. */
  lemma ScrapedItemsAllKept(fetchHall: HallFetch, fetchItem: ItemFetch, fault: WorkerFault, hall: string, date: Date)
    requires ValidDate(date)
    ensures var r := WorkerRecord(fetchHall, fetchItem, fault, hall, date);
            Kept(r.foodItems) == r.foodItems
  {
    var r := WorkerRecord(fetchHall, fetchItem, fault, hall, date);
    if r.status == Success {
      var data := fetchHall(HallUrl(hall, GetDateString(date))).value;
      MenuFromMeaning(fetchItem, data);
      ContributionsAreLists(fetchItem, MenuItems(data).value);
    }
  }

  // ---------------------------------------------------------------------
  // save_results: the envelope counts
  // ---------------------------------------------------------------------

  datatype Envelope = Envelope(
    scrapeTimestamp: string,
    totalDiningHalls: nat,
    totalFoodItems: nat,
    nutritionDictionary: NutritionDict,
    detailedResults: seq<HallRecord>)

  /** `sum(len(result['food_items']) for result in results)`. */
  function TotalFoodItems(rs: seq<HallRecord>): (n: nat)
    ensures n == 0 <==> forall i :: 0 <= i < |rs| ==> rs[i].foodItems == map[]
  {
    if rs == [] then 0 else TotalFoodItems(rs[..|rs| - 1]) + |rs[|rs| - 1].foodItems|
  }

  /** The envelope `save_results` writes; the timestamp is supplied by the caller's clock. */
  function SaveResults(results: seq<HallRecord>, dict: NutritionDict, timestamp: string): (e: Envelope)
    ensures e.totalDiningHalls == |results|
    ensures e.nutritionDictionary == dict && e.detailedResults == results
  {
    Envelope(timestamp, |results|, TotalFoodItems(results), dict, results)
  }

  lemma {:induction false} TotalFoodItemsAppend(a: seq<HallRecord>, b: seq<HallRecord>)
    ensures TotalFoodItems(a + b) == TotalFoodItems(a) + TotalFoodItems(b)
    decreases |b|
  {
    if b == [] {
      assert a + b == a;
    } else {
      assert (a + b)[..|a + b| - 1] == a + b[..|b| - 1];
      TotalFoodItemsAppend(a, b[..|b| - 1]);
    }
  }

  /** Splitting a sequence around position `j`. */
  lemma RemoveAt<T>(b: seq<T>, j: nat)
    requires j < |b|
    ensures b == b[..j] + ([b[j]] + b[j + 1..])
    ensures multiset(b[..j] + b[j + 1..]) == multiset(b) - multiset{b[j]}
  {
    assert b == b[..j] + ([b[j]] + b[j + 1..]);
  }

  /** Taking one record out of the sum. */
  lemma TotalFoodItemsRemove(b: seq<HallRecord>, j: nat)
    requires j < |b|
    ensures TotalFoodItems(b) == TotalFoodItems(b[..j] + b[j + 1..]) + |b[j].foodItems|
  {
    var left, right := b[..j], b[j + 1..];
    RemoveAt(b, j);
    TotalFoodItemsAppend(left, [b[j]] + right);
    TotalFoodItemsAppend([b[j]], right);
    TotalFoodItemsAppend(left, right);
    assert TotalFoodItems([b[j]]) == |b[j].foodItems| by {
      assert [b[j]][..0] == [];
    }
  }

  /** The food-item total does not depend on the order of the records. */
  lemma {:induction false} TotalFoodItemsPermutation(a: seq<HallRecord>, b: seq<HallRecord>)
    requires multiset(a) == multiset(b)
    ensures TotalFoodItems(a) == TotalFoodItems(b)
    decreases |a|
  {
    if a == [] {
      assert |b| == |multiset(b)| == 0;
    } else {
      var x := a[|a| - 1];
      var a' := a[..|a| - 1];
      assert a == a' + [x];
      assert multiset(a') == multiset(a) - multiset{x};
      assert x in multiset(b);
      var j :| 0 <= j < |b| && b[j] == x;
      var b' := b[..j] + b[j + 1..];
      RemoveAt(b, j);
      assert multiset(a') == multiset(b');
      TotalFoodItemsPermutation(a', b');
      TotalFoodItemsRemove(b, j);
      assert TotalFoodItems(a) == TotalFoodItems(a') + |x.foodItems|;
    }
  }


  /**
   * For the scraper's own run: one hall counted per configured hall, and
   * both totals independent of the order in which the workers completed.
   */
  lemma EnvelopeIndependentOfCompletion(fetchHall: HallFetch, fetchItem: ItemFetch, fault: WorkerFault, date: Date,
                                        order1: seq<string>, order2: seq<string>, timestamp: string)
    requires ValidDate(date)
    requires multiset(order1) == multiset(DiningHalls) && multiset(order2) == multiset(DiningHalls)
    ensures var rs1 := CollectedRecords(fetchHall, fetchItem, fault, date, order1);
            var rs2 := CollectedRecords(fetchHall, fetchItem, fault, date, order2);
            var e1 := SaveResults(rs1, NutritionDictionary(rs1), timestamp);
            var e2 := SaveResults(rs2, NutritionDictionary(rs2), timestamp);
            && e1.totalDiningHalls == e2.totalDiningHalls == |DiningHalls|
            && e1.totalFoodItems == e2.totalFoodItems
            && e1.nutritionDictionary == e2.nutritionDictionary
  {
    var rs1 := CollectedRecords(fetchHall, fetchItem, fault, date, order1);
    var rs2 := CollectedRecords(fetchHall, fetchItem, fault, date, order2);
    assert |order1| == |multiset(order1)| == |multiset(DiningHalls)| == |DiningHalls|;
    assert |order2| == |multiset(order2)| == |DiningHalls|;
    DictionaryIndependentOfCompletion(fetchHall, fetchItem, fault, date, order1, order2);
    MappedPermutation(fetchHall, fetchItem, fault, date, order1, order2);
    TotalFoodItemsPermutation(rs1, rs2);
  }

  lemma CollectedAppend(fetchHall: HallFetch, fetchItem: ItemFetch, fault: WorkerFault, date: Date,
                        o1: seq<string>, o2: seq<string>)
    requires ValidDate(date)
    ensures CollectedRecords(fetchHall, fetchItem, fault, date, o1 + o2)
         == CollectedRecords(fetchHall, fetchItem, fault, date, o1) + CollectedRecords(fetchHall, fetchItem, fault, date, o2)
  {
  }

  /** Taking one hall out of the completion order takes its record out of the collected ones. */
  lemma CollectedRemove(fetchHall: HallFetch, fetchItem: ItemFetch, fault: WorkerFault, date: Date,
                        order: seq<string>, j: nat)
    requires ValidDate(date) && j < |order|
    ensures multiset(CollectedRecords(fetchHall, fetchItem, fault, date, order))
         == multiset(CollectedRecords(fetchHall, fetchItem, fault, date, order[..j] + order[j + 1..]))
            + multiset{WorkerRecord(fetchHall, fetchItem, fault, order[j], date)}
  {
    var left, right := order[..j], order[j + 1..];
    RemoveAt(order, j);
    var w := CollectedRecords(fetchHall, fetchItem, fault, date, [order[j]]);
    assert w == [WorkerRecord(fetchHall, fetchItem, fault, order[j], date)];
    CollectedAppend(fetchHall, fetchItem, fault, date, left, [order[j]] + right);
    CollectedAppend(fetchHall, fetchItem, fault, date, [order[j]], right);
    CollectedAppend(fetchHall, fetchItem, fault, date, left, right);
  }

  /** Permuting the completion order permutes the records. */
  lemma {:induction false} MappedPermutation(fetchHall: HallFetch, fetchItem: ItemFetch, fault: WorkerFault, date: Date,
                                             order1: seq<string>, order2: seq<string>)
    requires ValidDate(date)
    requires multiset(order1) == multiset(order2)
    ensures multiset(CollectedRecords(fetchHall, fetchItem, fault, date, order1))
         == multiset(CollectedRecords(fetchHall, fetchItem, fault, date, order2))
    decreases |order1|
  {
    if order1 == [] {
      assert |order2| == |multiset(order2)| == 0;
    } else {
      var n := |order1| - 1;
      var h := order1[n];
      var init := order1[..n];
      assert order1 == init + [h];
      assert multiset(init) == multiset(order1) - multiset{h};
      assert h in multiset(order2);
      var j :| 0 <= j < |order2| && order2[j] == h;
      var rest := order2[..j] + order2[j + 1..];
      RemoveAt(order2, j);
      assert multiset(init) == multiset(rest);
      MappedPermutation(fetchHall, fetchItem, fault, date, init, rest);
      var w := multiset{WorkerRecord(fetchHall, fetchItem, fault, h, date)};
      var ci := multiset(CollectedRecords(fetchHall, fetchItem, fault, date, init));
      var cr := multiset(CollectedRecords(fetchHall, fetchItem, fault, date, rest));
      CollectedRemove(fetchHall, fetchItem, fault, date, order2, j);
      assert multiset(CollectedRecords(fetchHall, fetchItem, fault, date, order2)) == cr + w;
      CollectedSnoc(fetchHall, fetchItem, fault, date, init, h);
      assert multiset(CollectedRecords(fetchHall, fetchItem, fault, date, order1)) == ci + w;
    }
  }

  lemma CollectedSnoc(fetchHall: HallFetch, fetchItem: ItemFetch, fault: WorkerFault, date: Date,
                      init: seq<string>, h: string)
    requires ValidDate(date)
    ensures multiset(CollectedRecords(fetchHall, fetchItem, fault, date, init + [h]))
         == multiset(CollectedRecords(fetchHall, fetchItem, fault, date, init))
            + multiset{WorkerRecord(fetchHall, fetchItem, fault, h, date)}
  {
    CollectedAppend(fetchHall, fetchItem, fault, date, init, [h]);
    assert CollectedRecords(fetchHall, fetchItem, fault, date, [h]) == [WorkerRecord(fetchHall, fetchItem, fault, h, date)];
  }


}
