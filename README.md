# Pizza restaurants service — a Dafny model

The service keeps three tables: `restaurants`, `pizzas`, and
`restaurant_pizzas`. The third table holds offerings. Each offering joins one
restaurant to one pizza at a price. Five HTTP handlers read and change these
tables:

- list all restaurants;
- show one restaurant with its offerings;
- delete a restaurant, and its offerings with it;
- list all pizzas;
- create an offering, after checking the request body.

The model is written in four modules:

- `Wrappers` (`wrappers.dfy`) holds `Option` and `Result`.
- `Tables` (`tables.dfy`) is a generic table. It keeps a map from primary key
  to row, plus the order in which a query returns the rows. It also has the
  operations the handlers need: insert, restrict to a set of keys (used by
  cascade delete), project and select.
- `Models` (`models.dfy`, for server/models.py):
  - the three record types;
  - the price validator `ValidatePrice`;
  - the dictionary views records are serialized to: the table columns, the
    `to_dict(only=...)` allow-list projections, and the nested views the
    `serialize_rules` declarations allow.
- `App` (`app.dfy`, for server/app.py) has the class `Store`. Its fields are the three tables and
  the id the next offering will get. The handlers are its members:
  - the read-only handlers are functions that read the store;
  - `DeleteRestaurant` and `CreateOffering` are methods that change it;
  - `DeletePizza` is the declared cascade from the pizza side. No route
    exposes it.

`Store.Valid()` is the class invariant. It holds:

- the tables are well formed;
- every row is stored under its own id;
- every stored offering has a price in [1, 30] (`PricesInRange`). This is
  the non-null `price` column (server/models.py:60) together with the
  validator that guards every assignment to it (server/models.py:74-78);
- every stored offering refers to a stored restaurant and a stored pizza
  (`ReferencesResolve`). These are the foreign keys `pizza_id` and
  `restaurant_id` (server/models.py:63-64).

Every method keeps the invariant. A response is a status code plus a body. The
body is either a JSON-shaped `Value` or `Empty` (the 204 reply).

Some members are plain definitions with no contract of their own:

- `Errors(msg)` is the 400 reply `{"errors": [msg]}` (server/app.py:64, :67).
- `Falsy` and `FieldsPresent` are the presence test at server/app.py:63.
  `Falsy` is Python's `not v`, which holds for an absent field and for 0.
  `FieldsPresent` applies it to both ids but uses `is None` for the price.
- `Store.OfferingKeysOfRestaurant` and `Store.OfferingKeysOfPizza` are the
  keys of the offerings whose `restaurant_id` or `pizza_id` is a given id
  (server/models.py:63-64).

The create handler's checks are the pure function `Decide`. It runs them in the
source's order:

1. A presence check. It uses Python truthiness for the two ids, so 0 counts as
   missing. It uses `is None` for the price, so price 0 gets past it.
2. A range check.
3. The validator, which runs when the record is built at server/app.py:70.
   That line is before the `try` at line 72, so a `ValueError` from the
   validator would escape the handler rather than become a reply. `Decide`
   gives this case its own outcome, `ValidatorRaised`.

The lemma `ValidatorNeverRejectsCheckedPrice` shows that step 3 cannot fail once
step 2 has passed. `DecideNeverRaises` concludes that no request reaches
`ValidatorRaised`.

The `except ValueError` at server/app.py:87-88 guards only lines 73-85. None of
the modelled steps in those lines raises a `ValueError`, so the model has no
path into that branch. See "Left out".

Two facts about the source shape the model:

- server/models.py:30 excludes `restaurant_pizzas.restaurant` and
  `restaurant_pizzas.pizza`. So a nested offering in the detail view shows only
  its four columns.
- server/app.py:73-83 commits the row before looking up the pizza and the
  restaurant. No foreign-key check happens before the insert. So an id that
  does not resolve leaves a dangling row, and the handler then fails at line
  82 or 83. See "Left out".

## Model

| member | source | states |
|---|---|---|
| `Models.ValidatePrice` | server/models.py:74-78 | succeeds exactly when 1 <= value <= 30, then returns the value unchanged; otherwise fails with the message "Price must be between 1 and 30." |
| `Models.ValidatePriceBoundaries` | server/models.py:75-78 | 0 and 31 are rejected; 1 and 30 are accepted unchanged |
| `Models.Only` | server/app.py:25 | the `to_dict(only=...)` allow-list: the result has exactly the listed keys that the record has, each with the record's value |
| `Models.RestaurantColumns` | server/models.py:19-21 | a restaurant's column view has exactly the keys id, name, address |
| `Models.PizzaColumns` | server/models.py:39-41 | a pizza's column view has exactly the keys id, name, ingredients |
| `Models.OfferingColumns` | server/models.py:84-86 | `to_dict()` without relationships yields exactly the column keys id, price, pizza_id, restaurant_id |
| `Models.RestaurantSummary` | server/app.py:25 | a listed restaurant is exactly {id, name, address} with the record's values |
| `Models.PizzaSummary` | server/app.py:51 | a listed pizza is exactly {id, name, ingredients} with the record's values |
| `Models.NestedOffering` | server/models.py:30 | an offering nested under its parent has exactly its column keys; it holds no `restaurant`, `pizza` or `restaurant_pizzas` key, so the parent is not embedded again and nesting stops there |
| `Models.NestedOfferings` | server/models.py:50 | a parent's `restaurant_pizzas` list holds one nested offering per offering, in order |
| `Models.RestaurantWithOfferings` | server/models.py:24-30 | a restaurant serialized with its offerings has its columns plus `restaurant_pizzas`, and nothing else; the list holds its offerings in column-only form |
| `Models.PizzaWithOfferings` | server/models.py:44-50 | a pizza serialized with its offerings has its columns plus `restaurant_pizzas`, and nothing else; the list holds its offerings in column-only form |
| `Models.CreatedOffering` | server/app.py:81-83 | the 201 body has exactly the offering's columns plus `pizza` = {id, name, ingredients} and `restaurant` = {id, name, address} |
| `Tables.Keep` | server/models.py:24 | the surviving keys after a delete: exactly the keys of the old order that are in the kept set, in their old relative order, still with no duplicates |
| `Tables.Insert` | server/app.py:73-74 | adding under an unused key keeps the table well formed, adds exactly that key with the new row, leaves every other row unchanged, and appends the key at the end of the query order |
| `Tables.Project` | server/app.py:24-25 | a comprehension over `query.all()`: one result per row, in query order, each the projection of that row |
| `Tables.Select` | server/models.py:24 | a relationship collection: each row whose key is selected appears exactly once and in query order, and no other row appears |
| `Tables.Restrict` | server/models.py:44 | a delete keeps exactly the rows whose keys are kept, with their values unchanged, and leaves the table well formed |
| `App.Decide` | server/app.py:63-70 | the reply is "missing" exactly when an id is falsy (absent or 0) or the price is absent; it is "invalid" exactly when the fields are present and the price is outside [1, 30]; `ValidatorRaised` only when the validator fails while the record is built; otherwise it accepts the request's own values, which the validator passes unchanged |
| `App.ValidatorNeverRejectsCheckedPrice` | server/app.py:66-70 | once the presence and range checks pass, the validator run at line 70 succeeds and the request is accepted |
| `App.DecideNeverRaises` | server/app.py:63-70 | no request makes the validator raise while the record is built |
| `App.DecideExamples` | server/app.py:63-67 | price 0 and 31 give a validation error and 1 and 30 are accepted; a zero or absent id, or an absent price, gives "missing" whatever the price is |
| `App.Store.constructor` | server/models.py:19 | the seeded initial state: restaurants and pizzas stored under their primary keys (server/models.py:19, :39) and no offerings; it satisfies the invariant |
| `App.Store.RestaurantOfferings` | server/models.py:24 | a restaurant's `restaurant_pizzas` lists each stored offering with that restaurant_id exactly once, in query order, and no other offering |
| `App.Store.PizzaOfferings` | server/models.py:44 | a pizza's `restaurant_pizzas` lists each stored offering with that pizza_id exactly once, in query order, and no other offering |
| `App.Store.ListRestaurants` | server/app.py:22-25 | 200 and one entry per stored restaurant, in query order, each exactly {id, name, address} of that row |
| `App.Store.ListPizzas` | server/app.py:48-51 | 200 and one entry per stored pizza, in query order, each exactly {id, name, ingredients} of that row |
| `App.Store.GetRestaurant` | server/app.py:28-34 | 404 {"error": "Restaurant not found"} exactly when the id is absent; otherwise 200 with exactly id, name, address of that row and `restaurant_pizzas` holding its offerings in column-only form |
| `App.Store.OfferingToDict` | server/models.py:84-93 | columns only without relationships; with relationships also `pizza` and `restaurant`, each null exactly when the related record is absent, and otherwise that record serialized with its own column-only offerings |
| `App.Store.DeleteRestaurant` | server/app.py:37-45 | an absent id gives 404 and changes nothing; otherwise gives 204, removes the restaurant, removes exactly the offerings with that restaurant_id, and leaves pizzas alone; afterwards the id gives 404; the invariant is kept |
| `App.Store.DeletePizza` | server/models.py:44 | removes the pizza and exactly the offerings with that pizza_id, leaves restaurants alone, and keeps the invariant |
| `App.Store.CreateOffering` | server/app.py:54-88 | "missing" gives 400 "Missing required fields" and "invalid" gives 400 "validation errors", both with the store unchanged; otherwise exactly one offering with the given price and ids is appended under a fresh id and the reply is 201 with the created body; the invariant (prices in range, references resolve) is kept |

`App.DoughCoScenario` and `App.DeleteScenario` are client methods with no
contract. They build a one-restaurant, one-pizza store and check the replies by
assertion: price 0 is rejected; a missing id is rejected; price 12 gives a 201
reply whose body holds the nested pizza and restaurant; deleting the restaurant
takes its offering with it, and the restaurant then gives 404.

## Left out

- Flask routing, `jsonify`, `make_response` and the HTTP plumbing. Statuses
  and bodies are datatypes, and a body is a `Value` tree, not JSON text. The
  root route and the application and database configuration are left out too.
- The `<int:id>` route converter, which sends negative ids to the framework's
  own 404 page. The handlers here accept any integer id.
- SQLAlchemy sessions, commits, transactions and migrations. Each mutating
  method is one atomic change of the store.
- Seeding restaurants and pizzas. The store's constructor takes the seeded
  tables as given.
- App.Store.CreateOffering: its success path requires that the referenced pizza
  and restaurant are stored. The source commits the row without a
  foreign-key check. If an id does not resolve, it then fails with an
  unhandled error while building the reply. That path and the dangling row it
  leaves are not modelled.
- App.Store.CreateOffering: the new offering's id is the store's `nextId`,
  which is above every id in use. The storage engine's own rowid choice is not
  modelled.
- The `except ValueError` at server/app.py:87-88. It guards only lines 73-85,
  and nothing the model does in those lines raises a `ValueError`. Errors the
  storage engine might raise during commit are not modelled.
- Malformed or non-JSON bodies, and non-integer field values. Each field is an
  integer or absent, and JSON `null` counts as absent, as `dict.get` reads it.
- App.Store.OfferingToDict: a related record is shown as its columns plus its
  `restaurant_pizzas`, the way that record's own rules allow (server/models.py:30, :50). The
  library may also emit association-proxy keys (`pizzas`, `restaurants`). Those
  are not modelled.
- The serializer library's general `only` and `rules` machinery. It is replaced
  by explicit views. The rules at server/models.py:71 never change what the
  modelled handlers emit, so they have no view of their own.
- The `__repr__` methods, and the association proxies
  (server/models.py:27, :47). They are read-only conveniences with no logic.
- Integer width. Ids and prices are unbounded integers. Python integers are
  unbounded too, and the database's 64-bit limit is not modelled.
- The nullability of the `pizza_id` and `restaurant_id` columns. Every offering
  in the model carries both ids, because the only way to create one is the
  create handler, which demands both.
