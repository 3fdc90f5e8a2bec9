/**
 * The three record types of the service, the price validator attached to
 * the offering's `price` column, and the dictionary views the records are
 * serialized to.
 */
module Models {
  import opened Wrappers

  /** A row of `restaurants`. */
  datatype Restaurant = Restaurant(id: int, name: string, address: string)

  /** A row of `pizzas`. */
  datatype Pizza = Pizza(id: int, name: string, ingredients: string)

  /** A row of `restaurant_pizzas`: one restaurant offers one pizza at `price`. */
  datatype RestaurantPizza = RestaurantPizza(id: int, price: int, pizzaId: int, restaurantId: int)

  const MinPrice: int := 1
  const MaxPrice: int := 30
  const PriceError: string := "Price must be between 1 and 30."

  /**
   * The validator run on every assignment to an offering's price: it hands
   * the value back unchanged when it lies in [1, 30] and raises otherwise
   * (here: returns a Failure carrying the exception's message).
   */
  function ValidatePrice(value: int): (r: Result<int, string>)
    ensures r.Success? <==> MinPrice <= value <= MaxPrice
    ensures r.Success? ==> r.value == value
    ensures r.Failure? ==> r.error == PriceError
  {
    if value < 1 || value > 30 then Failure(PriceError) else Success(value)
  }

  /** The two boundaries on each side of the allowed range: 0 and 31 fail, 1 and 30 pass. */
  lemma ValidatePriceBoundaries()
    ensures ValidatePrice(0).Failure? && ValidatePrice(31).Failure?
    ensures ValidatePrice(1) == Success(1) && ValidatePrice(30) == Success(30)
  {
  }

  /** A JSON-shaped value, as a record's dictionary view holds it. */
  datatype Value =
    | Int(i: int)
    | Str(s: string)
    | Null
    | List(items: seq<Value>)
    | Obj(fields: map<string, Value>)

  type Dict = map<string, Value>

  /** The allow-list projection `to_dict(only=keys)`: the listed keys and no other. */
  function Only(d: Dict, keys: set<string>): (r: Dict)
    ensures r.Keys == d.Keys * keys
    ensures forall k :: k in r ==> r[k] == d[k]
  {
    map k | k in d && k in keys :: d[k]
  }

  const RestaurantColumnNames: set<string> := {"id", "name", "address"}
  const PizzaColumnNames: set<string> := {"id", "name", "ingredients"}
  const OfferingColumnNames: set<string> := {"id", "price", "pizza_id", "restaurant_id"}

  /** The table columns of a restaurant, by column name. */
  function RestaurantColumns(r: Restaurant): (d: Dict)
    ensures d.Keys == RestaurantColumnNames
  {
    map["id" := Int(r.id), "name" := Str(r.name), "address" := Str(r.address)]
  }

  /** The table columns of a pizza, by column name. */
  function PizzaColumns(p: Pizza): (d: Dict)
    ensures d.Keys == PizzaColumnNames
  {
    map["id" := Int(p.id), "name" := Str(p.name), "ingredients" := Str(p.ingredients)]
  }

  /**
   * The table columns of an offering: what the offering's own `to_dict`
   * produces when relationships are not requested.
   */
  function OfferingColumns(o: RestaurantPizza): (d: Dict)
    ensures d.Keys == OfferingColumnNames
  {
    map["id" := Int(o.id), "price" := Int(o.price),
        "pizza_id" := Int(o.pizzaId), "restaurant_id" := Int(o.restaurantId)]
  }

  /** `restaurant.to_dict(only=("id", "name", "address"))`. */
  function RestaurantSummary(r: Restaurant): (v: Value)
    ensures v == Obj(map["id" := Int(r.id), "name" := Str(r.name), "address" := Str(r.address)])
  {
    var d := Only(RestaurantColumns(r), {"id", "name", "address"});
    var m := map["id" := Int(r.id), "name" := Str(r.name), "address" := Str(r.address)];
    assert d.Keys == m.Keys;
    assert forall k :: k in m ==> d[k] == m[k];
    assert d == m;
    Obj(d)
  }

  /** `pizza.to_dict(only=("id", "name", "ingredients"))`. */
  function PizzaSummary(p: Pizza): (v: Value)
    ensures v == Obj(map["id" := Int(p.id), "name" := Str(p.name), "ingredients" := Str(p.ingredients)])
  {
    var d := Only(PizzaColumns(p), {"id", "name", "ingredients"});
    var m := map["id" := Int(p.id), "name" := Str(p.name), "ingredients" := Str(p.ingredients)];
    assert d.Keys == m.Keys;
    assert forall k :: k in m ==> d[k] == m[k];
    assert d == m;
    Obj(d)
  }

  /**
   * An offering as embedded in its parent's `restaurant_pizzas` list. The
   * serialization rules of both parents drop the nested offering's
   * `restaurant` and `pizza` relationships, so only its columns remain and
   * the parent is never embedded again.
   */
  function NestedOffering(o: RestaurantPizza): (v: Value)
    ensures v.Obj? && v.fields.Keys == OfferingColumnNames
    ensures "restaurant" !in v.fields && "pizza" !in v.fields && "restaurant_pizzas" !in v.fields
  {
    Obj(Only(OfferingColumns(o), OfferingColumnNames))
  }

  /** The `restaurant_pizzas` list of a parent holding the offerings `os`. */
  function NestedOfferings(os: seq<RestaurantPizza>): (v: Value)
    ensures v.List? && |v.items| == |os|
    ensures forall i :: 0 <= i < |os| ==> v.items[i] == NestedOffering(os[i])
  {
    List(seq(|os|, i requires 0 <= i < |os| => NestedOffering(os[i])))
  }

  /**
   * A restaurant serialized with its offerings: its columns plus the
   * `restaurant_pizzas` list.
   */
  function RestaurantWithOfferings(r: Restaurant, os: seq<RestaurantPizza>): (d: Dict)
    ensures d.Keys == RestaurantColumnNames + {"restaurant_pizzas"}
    ensures forall k :: k in RestaurantColumnNames ==> d[k] == RestaurantColumns(r)[k]
    ensures d["restaurant_pizzas"] == NestedOfferings(os)
  {
    RestaurantColumns(r)["restaurant_pizzas" := NestedOfferings(os)]
  }

  /** A pizza serialized with its offerings: its columns plus the `restaurant_pizzas` list. */
  function PizzaWithOfferings(p: Pizza, os: seq<RestaurantPizza>): (d: Dict)
    ensures d.Keys == PizzaColumnNames + {"restaurant_pizzas"}
    ensures forall k :: k in PizzaColumnNames ==> d[k] == PizzaColumns(p)[k]
    ensures d["restaurant_pizzas"] == NestedOfferings(os)
  {
    PizzaColumns(p)["restaurant_pizzas" := NestedOfferings(os)]
  }

  /**
   * The body of a successful create: the offering's columns, then its pizza
   * and its restaurant, each by its summary fields.
   */
  function CreatedOffering(o: RestaurantPizza, p: Pizza, r: Restaurant): (d: Dict)
    ensures d.Keys == OfferingColumnNames + {"pizza", "restaurant"}
    ensures forall k :: k in OfferingColumnNames ==> d[k] == OfferingColumns(o)[k]
    ensures d["pizza"] == PizzaSummary(p) && d["restaurant"] == RestaurantSummary(r)
  {
    OfferingColumns(o)["pizza" := PizzaSummary(p)]["restaurant" := RestaurantSummary(r)]
  }
}
