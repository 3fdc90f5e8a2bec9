/**
 * The request handlers of the service, as operations of an abstract store
 * holding the three tables. Responses are a status code and a body.
 */
module App {
  import opened Wrappers
  import opened Tables
  import opened Models

  /** A response body: a JSON value, or nothing at all (the 204 reply). */
  datatype Body = Json(v: Value) | Empty

  datatype Response = Response(status: int, body: Body)

  const MissingFields: string := "Missing required fields"
  const ValidationErrors: string := "validation errors"

  /** The 404 reply of the two per-restaurant routes. */
  const RestaurantNotFound: Response :=
    Response(404, Json(Obj(map["error" := Str("Restaurant not found")])))

  /** A 400 reply whose `errors` list holds the single message `msg`. */
  function Errors(msg: string): Response {
    Response(400, Json(Obj(map["errors" := List([Str(msg)])])))
  }

  /** The three fields read from the body of a create request; `None` when absent or null. */
  datatype Request = Request(price: Option<int>, pizzaId: Option<int>, restaurantId: Option<int>)

  /** Python's `not v` for an integer-or-absent field: true for an absent field and for 0. */
  predicate Falsy(v: Option<int>) {
    v.None? || v.value == 0
  }

  /** The presence check: both ids truthy and a price given, zero included. */
  predicate FieldsPresent(req: Request) {
    !Falsy(req.pizzaId) && !Falsy(req.restaurantId) && req.price.Some?
  }

  /**
   * What the create handler decides before it touches the store.
   * `ValidatorRaised` is the price validator raising while the record is
   * built, which happens before the handler's `try` block and so escapes
   * the handler instead of becoming a reply.
   */
  datatype Decision =
    | Missing
    | Invalid
    | ValidatorRaised
    | Accept(price: int, pizzaId: int, restaurantId: int)

  /**
   * The checks of the create handler in their order: presence, then range,
   * then the price validator that runs when the record is built.
   */
  function Decide(req: Request): (d: Decision)
    ensures d == Missing <==> !FieldsPresent(req)
    ensures d == Invalid <==> FieldsPresent(req) && !(MinPrice <= req.price.value <= MaxPrice)
    ensures d == ValidatorRaised ==>
      FieldsPresent(req) && ValidatePrice(req.price.value).Failure?
    ensures d.Accept? ==>
      && req == Request(Some(d.price), Some(d.pizzaId), Some(d.restaurantId))
      && d.pizzaId != 0 && d.restaurantId != 0
      && ValidatePrice(d.price) == Success(d.price)
  {
    if Falsy(req.pizzaId) || Falsy(req.restaurantId) || req.price.None? then Missing
    else if req.price.value < 1 || req.price.value > 30 then Invalid
    else match ValidatePrice(req.price.value)
      case Failure(_) => ValidatorRaised
      case Success(p) => Accept(p, req.pizzaId.value, req.restaurantId.value)
  }

  /**
   * The validator never raises when the record is built: the range check
   * before it already rejects every price the validator would, so a
   * request that passes both checks is accepted.
   */
  lemma ValidatorNeverRejectsCheckedPrice(req: Request)
    requires FieldsPresent(req) && !(req.price.value < 1 || req.price.value > 30)
    ensures ValidatePrice(req.price.value).Success?
    ensures Decide(req) == Accept(req.price.value, req.pizzaId.value, req.restaurantId.value)
  {
  }

  /** No request makes the validator raise inside the create handler. */
  lemma DecideNeverRaises(req: Request)
    ensures Decide(req) != ValidatorRaised
  {
  }

  /**
   * Prices 0 and 31 fail the range check while 1 and 30 pass it; a zero or
   * absent id, or an absent price, fails the presence check whatever the
   * price, so "missing" wins over a bad price.
   */
  lemma DecideExamples()
    ensures Decide(Request(Some(0), Some(1), Some(1))) == Invalid
    ensures Decide(Request(Some(31), Some(1), Some(1))) == Invalid
    ensures Decide(Request(Some(1), Some(1), Some(1))) == Accept(1, 1, 1)
    ensures Decide(Request(Some(30), Some(1), Some(1))) == Accept(30, 1, 1)
    ensures Decide(Request(Some(12), Some(0), Some(1))) == Missing
    ensures Decide(Request(Some(12), Some(1), None)) == Missing
    ensures Decide(Request(None, Some(1), Some(1))) == Missing
    ensures Decide(Request(Some(99), None, Some(1))) == Missing
  {
  }

  class Store {
    var restaurants: Table<Restaurant>
    var pizzas: Table<Pizza>
    var offerings: Table<RestaurantPizza>
    /** Above every offering id in use: the id the next stored offering receives. */
    var nextId: int

    /** Every restaurant and pizza is stored under its own id. */
    ghost predicate KeyedById()
      reads this
    {
      && (forall k :: k in restaurants.rows ==> restaurants.rows[k].id == k)
      && (forall k :: k in pizzas.rows ==> pizzas.rows[k].id == k)
      && (forall k :: k in offerings.rows ==> offerings.rows[k].id == k && k < nextId)
    }

    /** Every stored offering has a price in [1, 30]. */
    ghost predicate PricesInRange()
      reads this
    {
      forall k :: k in offerings.rows ==> MinPrice <= offerings.rows[k].price <= MaxPrice
    }

    /** Every stored offering refers to a stored restaurant and a stored pizza. */
    ghost predicate ReferencesResolve()
      reads this
    {
      forall k :: k in offerings.rows ==>
        offerings.rows[k].restaurantId in restaurants.rows && offerings.rows[k].pizzaId in pizzas.rows
    }

    ghost predicate Valid()
      reads this
    {
      && WellFormed(restaurants) && WellFormed(pizzas) && WellFormed(offerings)
      && KeyedById() && PricesInRange() && ReferencesResolve()
    }

    /** A store seeded with restaurants and pizzas and holding no offering yet. */
    constructor (seedRestaurants: Table<Restaurant>, seedPizzas: Table<Pizza>)
      requires WellFormed(seedRestaurants) && WellFormed(seedPizzas)
      requires forall k :: k in seedRestaurants.rows ==> seedRestaurants.rows[k].id == k
      requires forall k :: k in seedPizzas.rows ==> seedPizzas.rows[k].id == k
      ensures Valid()
      ensures restaurants == seedRestaurants && pizzas == seedPizzas
      ensures offerings.rows == map[]
    {
      restaurants := seedRestaurants;
      pizzas := seedPizzas;
      offerings := Table([], map[]);
      nextId := 1;
    }

    /** The keys of the offerings of restaurant `id`. */
    function OfferingKeysOfRestaurant(id: int): set<int>
      reads this
    {
      set k | k in offerings.rows && offerings.rows[k].restaurantId == id
    }

    /** The keys of the offerings of pizza `id`. */
    function OfferingKeysOfPizza(id: int): set<int>
      reads this
    {
      set k | k in offerings.rows && offerings.rows[k].pizzaId == id
    }

    /** The offerings of restaurant `id` (its `restaurant_pizzas` collection), in query order. */
    function RestaurantOfferings(id: int): (os: seq<RestaurantPizza>)
      reads this
      requires Valid()
      ensures forall i :: 0 <= i < |os| ==>
        os[i].id in offerings.rows && offerings.rows[os[i].id] == os[i] && os[i].restaurantId == id
      ensures forall k :: k in offerings.rows && offerings.rows[k].restaurantId == id ==>
        offerings.rows[k] in os
      ensures forall i, j :: 0 <= i < j < |os| ==> os[i].id != os[j].id
      ensures |os| == |Keep(offerings.order, OfferingKeysOfRestaurant(id))|
      ensures forall i :: 0 <= i < |os| ==> os[i].id == Keep(offerings.order, OfferingKeysOfRestaurant(id))[i]
    {
      Select(offerings, OfferingKeysOfRestaurant(id), (o: RestaurantPizza) => o.id)
    }

    /** The offerings of pizza `id` (its `restaurant_pizzas` collection), in query order. */
    function PizzaOfferings(id: int): (os: seq<RestaurantPizza>)
      reads this
      requires Valid()
      ensures forall i :: 0 <= i < |os| ==>
        os[i].id in offerings.rows && offerings.rows[os[i].id] == os[i] && os[i].pizzaId == id
      ensures forall k :: k in offerings.rows && offerings.rows[k].pizzaId == id ==>
        offerings.rows[k] in os
      ensures forall i, j :: 0 <= i < j < |os| ==> os[i].id != os[j].id
      ensures |os| == |Keep(offerings.order, OfferingKeysOfPizza(id))|
      ensures forall i :: 0 <= i < |os| ==> os[i].id == Keep(offerings.order, OfferingKeysOfPizza(id))[i]
    {
      Select(offerings, OfferingKeysOfPizza(id), (o: RestaurantPizza) => o.id)
    }

    /**
     * GET /restaurants: one entry per stored restaurant, in query order,
     * each with exactly its id, name and address.
     */
    function ListRestaurants(): (r: Response)
      reads this
      requires Valid()
      ensures r.status == 200 && r.body.Json? && r.body.v.List?
      ensures |r.body.v.items| == |restaurants.order|
      ensures forall i :: 0 <= i < |restaurants.order| ==>
        restaurants.order[i] in restaurants.rows &&
        var row := restaurants.rows[restaurants.order[i]];
        r.body.v.items[i] ==
          Obj(map["id" := Int(restaurants.order[i]), "name" := Str(row.name), "address" := Str(row.address)])
    {
      Response(200, Json(List(Project(restaurants, RestaurantSummary))))
    }

    /**
     * GET /pizzas: one entry per stored pizza, in query order, each with
     * exactly its id, name and ingredients.
     */
    function ListPizzas(): (r: Response)
      reads this
      requires Valid()
      ensures r.status == 200 && r.body.Json? && r.body.v.List?
      ensures |r.body.v.items| == |pizzas.order|
      ensures forall i :: 0 <= i < |pizzas.order| ==>
        pizzas.order[i] in pizzas.rows &&
        var row := pizzas.rows[pizzas.order[i]];
        r.body.v.items[i] ==
          Obj(map["id" := Int(pizzas.order[i]), "name" := Str(row.name), "ingredients" := Str(row.ingredients)])
    {
      Response(200, Json(List(Project(pizzas, PizzaSummary))))
    }

    /**
     * GET /restaurants/<id>: the restaurant's id, name and address and its
     * offerings, each offering shown by its columns alone; 404 when no
     * restaurant has that id.
     */
    function GetRestaurant(id: int): (r: Response)
      reads this
      requires Valid()
      ensures id !in restaurants.rows <==> r == RestaurantNotFound
      ensures id in restaurants.rows ==>
        && r.status == 200 && r.body.Json? && r.body.v.Obj?
        && r.body.v.fields.Keys == {"id", "name", "address", "restaurant_pizzas"}
        && r.body.v.fields["id"] == Int(id)
        && r.body.v.fields["name"] == Str(restaurants.rows[id].name)
        && r.body.v.fields["address"] == Str(restaurants.rows[id].address)
        && r.body.v.fields["restaurant_pizzas"] == NestedOfferings(RestaurantOfferings(id))
    {
      if id in restaurants.rows then
        var d := Only(RestaurantWithOfferings(restaurants.rows[id], RestaurantOfferings(id)),
                      {"id", "name", "address", "restaurant_pizzas"});
        Response(200, Json(Obj(d)))
      else
        RestaurantNotFound
    }

    /**
     * The offering's own `to_dict`: its columns, and with
     * `includeRelationships` also `pizza` and `restaurant`, each the related
     * record serialized with its offerings, or null when it is absent.
     */
    function OfferingToDict(o: RestaurantPizza, includeRelationships: bool): (d: Dict)
      reads this
      requires Valid()
      ensures !includeRelationships ==> d.Keys == OfferingColumnNames
      ensures includeRelationships ==> d.Keys == OfferingColumnNames + {"pizza", "restaurant"}
      ensures forall k :: k in OfferingColumnNames ==> d[k] == OfferingColumns(o)[k]
      ensures includeRelationships ==> (d["pizza"] == Null <==> o.pizzaId !in pizzas.rows)
      ensures includeRelationships ==> (d["restaurant"] == Null <==> o.restaurantId !in restaurants.rows)
      ensures includeRelationships && o.pizzaId in pizzas.rows ==>
        d["pizza"] == Obj(PizzaWithOfferings(pizzas.rows[o.pizzaId], PizzaOfferings(o.pizzaId)))
      ensures includeRelationships && o.restaurantId in restaurants.rows ==>
        d["restaurant"] ==
          Obj(RestaurantWithOfferings(restaurants.rows[o.restaurantId], RestaurantOfferings(o.restaurantId)))
    {
      var data := OfferingColumns(o);
      if includeRelationships then
        var pizza := if o.pizzaId in pizzas.rows
          then Obj(PizzaWithOfferings(pizzas.rows[o.pizzaId], PizzaOfferings(o.pizzaId)))
          else Null;
        var restaurant := if o.restaurantId in restaurants.rows
          then Obj(RestaurantWithOfferings(restaurants.rows[o.restaurantId], RestaurantOfferings(o.restaurantId)))
          else Null;
        data["pizza" := pizza]["restaurant" := restaurant]
      else
        data
    }

    /**
     * DELETE /restaurants/<id>: removes the restaurant and, by the cascade
     * on its `restaurant_pizzas`, exactly the offerings that refer to it;
     * 404 and no change when no restaurant has that id.
     */
    method DeleteRestaurant(id: int) returns (r: Response)
      requires Valid()
      modifies this
      ensures Valid()
      ensures pizzas == old(pizzas) && nextId == old(nextId)
      ensures id !in old(restaurants.rows) ==>
        r == RestaurantNotFound && restaurants == old(restaurants) && offerings == old(offerings)
      ensures id in old(restaurants.rows) ==>
        && r == Response(204, Empty)
        && restaurants == Restrict(old(restaurants), old(restaurants.rows.Keys) - {id})
        && offerings == Restrict(old(offerings), old(offerings.rows.Keys) - old(OfferingKeysOfRestaurant(id)))
      ensures restaurants.rows.Keys == old(restaurants.rows.Keys) - {id}
      ensures forall k :: k in offerings.rows <==>
        k in old(offerings.rows) && old(offerings.rows[k]).restaurantId != id
      ensures forall k :: k in offerings.rows ==> offerings.rows[k] == old(offerings.rows[k])
      ensures GetRestaurant(id) == RestaurantNotFound
    {
      if id in restaurants.rows {
        offerings := Restrict(offerings, offerings.rows.Keys - OfferingKeysOfRestaurant(id));
        restaurants := Restrict(restaurants, restaurants.rows.Keys - {id});
        r := Response(204, Empty);
      } else {
        r := RestaurantNotFound;
      }
    }

    /**
     * Deleting a pizza: the cascade on its `restaurant_pizzas` removes
     * exactly the offerings that refer to it. No route exposes this.
     */
    method DeletePizza(id: int)
      requires Valid()
      modifies this
      ensures Valid()
      ensures restaurants == old(restaurants) && nextId == old(nextId)
      ensures pizzas == Restrict(old(pizzas), old(pizzas.rows.Keys) - {id})
      ensures offerings == Restrict(old(offerings), old(offerings.rows.Keys) - old(OfferingKeysOfPizza(id)))
      ensures forall k :: k in offerings.rows <==>
        k in old(offerings.rows) && old(offerings.rows[k]).pizzaId != id
      ensures forall k :: k in offerings.rows ==> offerings.rows[k] == old(offerings.rows[k])
    {
      offerings := Restrict(offerings, offerings.rows.Keys - OfferingKeysOfPizza(id));
      pizzas := Restrict(pizzas, pizzas.rows.Keys - {id});
    }

    /**
     * POST /restaurant_pizzas. A missing field gives 400 "Missing required
     * fields" and a failed price check 400 "validation errors", both with
     * the store unchanged; otherwise exactly one offering is added and the
     * reply is 201 with its columns and the related pizza and restaurant.
     */
    method CreateOffering(req: Request) returns (r: Response)
      requires Valid()
      requires Decide(req).Accept? ==>
        Decide(req).pizzaId in pizzas.rows && Decide(req).restaurantId in restaurants.rows
      modifies this
      ensures Valid()
      ensures restaurants == old(restaurants) && pizzas == old(pizzas)
      ensures Decide(req) == Missing ==>
        r == Errors(MissingFields) && offerings == old(offerings) && nextId == old(nextId)
      ensures Decide(req) == Invalid ==>
        r == Errors(ValidationErrors) && offerings == old(offerings) && nextId == old(nextId)
      ensures Decide(req).Accept? ==>
        var o := RestaurantPizza(old(nextId), Decide(req).price, Decide(req).pizzaId, Decide(req).restaurantId);
        && o.id !in old(offerings.rows)
        && offerings == Insert(old(offerings), o.id, o)
        && r == Response(201, Json(Obj(CreatedOffering(o, pizzas.rows[o.pizzaId], restaurants.rows[o.restaurantId]))))
    {
      var decision := Decide(req);
      DecideNeverRaises(req);
      match decision {
        case Missing =>
          r := Errors(MissingFields);
        case Invalid =>
          r := Errors(ValidationErrors);
        case ValidatorRaised =>
          assert false;
        case Accept(price, pizzaId, restaurantId) =>
          var o := RestaurantPizza(nextId, price, pizzaId, restaurantId);
          offerings := Insert(offerings, o.id, o);
          nextId := nextId + 1;
          var response := OfferingToDict(o, false);
          response := response["pizza" := PizzaSummary(pizzas.rows[pizzaId])];
          response := response["restaurant" := RestaurantSummary(restaurants.rows[restaurantId])];
          assert response == CreatedOffering(o, pizzas.rows[pizzaId], restaurants.rows[restaurantId]);
          r := Response(201, Json(Obj(response)));
      }
    }
  }

  /**
   * A client of the store: seed one restaurant and one pizza, create an
   * offering for them, then delete the restaurant.
   */
  method DoughCoScenario() {
    var doughCo := Restaurant(1, "Dough Co", "1 Main St");
    var cheese := Pizza(1, "Cheese", "Dough, Tomato, Cheese");
    var store := new Store(Table([1], map[1 := doughCo]), Table([1], map[1 := cheese]));

    var r := store.CreateOffering(Request(Some(0), Some(1), Some(1)));
    assert r == Errors(ValidationErrors) && store.offerings.rows == map[];
    r := store.CreateOffering(Request(Some(12), None, Some(1)));
    assert r == Errors(MissingFields) && store.offerings.rows == map[];

    r := store.CreateOffering(Request(Some(12), Some(1), Some(1)));
    assert r.status == 201;
    assert r.body.v.fields["price"] == Int(12);
    assert r.body.v.fields["pizza"] ==
      Obj(map["id" := Int(1), "name" := Str("Cheese"), "ingredients" := Str("Dough, Tomato, Cheese")]);
    assert r.body.v.fields["restaurant"] ==
      Obj(map["id" := Int(1), "name" := Str("Dough Co"), "address" := Str("1 Main St")]);
    assert |store.offerings.rows| == 1;

  }

  /** Deleting a restaurant takes its offerings with it, and a second delete finds nothing. */
  method DeleteScenario() {
    var doughCo := Restaurant(1, "Dough Co", "1 Main St");
    var cheese := Pizza(1, "Cheese", "Dough, Tomato, Cheese");
    var store := new Store(Table([1], map[1 := doughCo]), Table([1], map[1 := cheese]));
    var r := store.CreateOffering(Request(Some(12), Some(1), Some(1)));
    assert Decide(Request(Some(12), Some(1), Some(1))) == Accept(12, 1, 1);
    assert forall k :: k in store.offerings.rows ==> store.offerings.rows[k].restaurantId == 1;
    assert |store.offerings.rows| == 1;

    r := store.DeleteRestaurant(1);
    assert r.status == 204;
    assert store.offerings.rows.Keys == {};
    assert store.GetRestaurant(1).status == 404;
    r := store.DeleteRestaurant(1);
    assert r == RestaurantNotFound;
  }
}
