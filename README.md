# osih order ingestion and query rules, in Dafny

This project models the domain logic of the osih order service. The data layer
(`DataAccess`) reads two exports. System A is a JSON array and System B is a CSV
file. It maps every source record to one canonical `Order` and normalises the
source's raw status code to one of six canonical statuses: Pending, Processing,
Shipped, Completed, Cancelled and Unknown. It appends the records to its
`Orders` list, System A first. The orders API (`OrdersController`) answers two
queries over that list. One is a first-match lookup by id. The other is a search
that composes a case-insensitive status filter with an inclusive date-range
filter.

Files:

- `model.dfy` (module `OsihModel`): the `Order` record, `Option` for C# `null`,
  `Date` (a `DateTime` as a tick count) and `Amount` (a `double` carried as its
  bit pattern and never computed with).
- `linq.dfy` (module `Linq`): `Where` and `FirstOrDefault` over sequences. Beside
  them are the facts the queries rest on: the result is a subsequence, the
  multiplicity of each element, how two filters compose, and the first match.
- `data_access.dfy` (module `OsihData`): `NormalizeStatus` and its lookup tables.
  It also holds the source records `OrderA`/`OrderB`, the pure mapping
  `MapSystemA`/`MapSystemB`, the specification `Load`, and the class
  `DataAccess`. The class has a `seq<Order>` field, and its `ReadSystemA` and
  `ReadSystemB` methods append to that field in a loop.
- `orders_controller.dfy` (module `OsihApi`): `OrderDetails`,
  `OrdersStatusSearch`, ordinal case-insensitive equality, and the search
  lemmas.

Inputs that come from I/O are parameters. The reader methods take what the
file system and the parsers produce, as `SystemAFile` (missing, JSON `null`, or
a list of items) and `SystemBFile` (missing, or the CSV rows).
`DateTime.Parse` is a parameter `parseDate: string -> Date`. The model treats it
as succeeding on every record, because the code has no per-record fallback.

Two consequences of the code are worth stating:

- `DateTime.Parse` throws on a bad date, so no record is ever kept with a null
  date (`LoadInvariant`).
- The date filter applies only when both bounds are supplied; a single date
  bound is ignored (`SearchIgnoresSingleBound`).

## Model

| member | source | states |
|---|---|---|
| OsihData.NormalizeStatus | data/osih.data/DataAccess.cs:82-111 | Total, and the result is always one of the six canonical statuses |
| OsihData.NormalizeStatusIsTableLookup | data/osih.data/DataAccess.cs:86-110 | The normaliser is a lookup in one table per system. An unknown system, a null code or a code outside the table gives Unknown |
| OsihData.NormalizeStatusCodesAligned | data/osih.data/DataAccess.cs:88-107 | PEND, PROC, SHIP, COMP, CANC and "1".."5" map, position by position, to Pending, Processing, Shipped, Completed, Cancelled |
| OsihData.NormalizeStatusUnknownExactly | data/osih.data/DataAccess.cs:89-109 | Unknown is returned exactly when the (system, code) pair is not one of the ten recognised pairs (both directions) |
| OsihData.MapSystemA | data/osih.data/DataAccess.cs:35-48 | One record per item, in item order. Each record copies id, customer and amount, carries the parsed date, is tagged SystemA and has the SystemA-normalised status |
| OsihData.MapSystemB | data/osih.data/DataAccess.cs:62-76 | One record per row, in row order. Each record copies order number, client name and total, carries the parsed date, is tagged SystemB and has the SystemB-normalised status |
| OsihData.OrderFromA | data/osih.data/DataAccess.cs:38-46 | No contract of its own: the object initialiser for one System A item; its fields are stated by MapSystemA |
| OsihData.OrderFromB | data/osih.data/DataAccess.cs:65-74 | No contract of its own: the object initialiser for one System B row; its fields are stated by MapSystemB |
| OsihData.IngestA | data/osih.data/DataAccess.cs:28-49 | No contract of its own: what one System A read appends (nothing for a missing file or a JSON `null`); see ReadSystemA |
| OsihData.IngestB | data/osih.data/DataAccess.cs:55-78 | No contract of its own: what one System B read appends (nothing for a missing file); see ReadSystemB |
| OsihData.Load | data/osih.data/DataAccess.cs:18-19 | No contract of its own: System A's records followed by System B's; see LoadOrdering and LoadInvariant |
| OsihData.DataAccess.ReadSystemA | data/osih.data/DataAccess.cs:26-50 | A missing file or a JSON `null` leaves `orders` unchanged. Otherwise the mapped items are appended, and the old contents stay an untouched prefix |
| OsihData.DataAccess.ReadSystemB | data/osih.data/DataAccess.cs:53-79 | A missing file leaves `orders` unchanged. Otherwise the mapped rows are appended, and the old contents stay an untouched prefix |
| OsihData.DataAccess.constructor | data/osih.data/DataAccess.cs:11-20 | The list starts empty and is then filled by System A followed by System B: it equals `Load` |
| OsihData.LoadOrdering | data/osih.data/DataAccess.cs:18-19 | The loaded list is System A's records followed by System B's, each in source order. Every SystemA record precedes every SystemB record |
| OsihData.LoadInvariant | data/osih.data/DataAccess.cs:35-76 | Every loaded record has a canonical status and a non-null date |
| OsihData.LoadNothing | data/osih.data/DataAccess.cs:28-55 | With both files absent, loading yields an empty list |
| Linq.Where | backend/osih.api/Controllers/OrdersController.cs:40-45 | `Where` keeps only elements that satisfy the predicate and are in the source, keeps every satisfying source element, and never grows |
| Linq.WhereIsSubsequence | backend/osih.api/Controllers/OrdersController.cs:36-48 | A filter's result is an order-preserving subsequence of its source |
| Linq.WhereMultiplicity | backend/osih.api/Controllers/OrdersController.cs:40-45 | A filter keeps each satisfying element exactly as often as the source has it, and drops the others entirely |
| Linq.WhereWhere | backend/osih.api/Controllers/OrdersController.cs:38-45 | Two successive filters equal one filter by the conjunction |
| Linq.WhereHead | backend/osih.api/Controllers/OrdersController.cs:26 | The head of a non-empty filter result is the source element at the first index that satisfies the predicate |
| OsihApi.EqualsIgnoreCase | backend/osih.api/Controllers/OrdersController.cs:40 | Ordinal case-insensitive equality: equal lengths, and equal characters at every position after upper-casing |
| OsihApi.EqualsIgnoreCaseIsEquivalence | backend/osih.api/Controllers/OrdersController.cs:40 | Case-insensitive equality is reflexive, symmetric and transitive |
| OsihApi.CanonicalStatusesDistinctIgnoringCase | backend/osih.api/Controllers/OrdersController.cs:40 | Two canonical statuses are equal ignoring case exactly when they are the same status |
| OsihApi.OrderDetails | backend/osih.api/Controllers/OrdersController.cs:26 | No contract of its own: `Where` by id followed by `FirstOrDefault`; see OrderDetailsIsFirstMatch |
| OsihApi.OrderDetailsIsFirstMatch | backend/osih.api/Controllers/OrdersController.cs:26 | null exactly when no order has the id. Otherwise the result is the order at the first index whose id matches |
| OsihApi.OrdersStatusSearch | backend/osih.api/Controllers/OrdersController.cs:36-48 | Never longer than the list, and every returned order is in the list and meets every supplied filter; completeness and order in SearchIsOneFilter/SearchResult |
| OsihApi.SearchIsOneFilter | backend/osih.api/Controllers/OrdersController.cs:36-48 | The status filter followed by the date filter equals one filter by the combined search condition |
| OsihApi.SearchResult | backend/osih.api/Controllers/OrdersController.cs:36-48 | The result is an order-preserving subsequence of the list. It holds each order that meets every supplied filter exactly as often as the list does, and no other order |
| OsihApi.SearchWithoutFilters | backend/osih.api/Controllers/OrdersController.cs:38-48 | With a null or empty status and without both bounds, the list comes back unchanged |
| OsihApi.SearchIgnoresSingleBound | backend/osih.api/Controllers/OrdersController.cs:43 | With only one bound supplied, no date filtering happens |
| OsihApi.SearchByStatus | backend/osih.api/Controllers/OrdersController.cs:38-41 | With a status, every returned order's status equals it ignoring case; when the date filter is not active (not both bounds), every such order in the list is returned |
| OsihApi.SearchByDateRange | backend/osih.api/Controllers/OrdersController.cs:43-45 | With both bounds, an order is returned exactly when it has a date with start <= date <= end (inclusive at both ends) and it passes the status filter. Orders without a date are excluded |
| OsihApi.SearchByStatusSelectsOneStatus | backend/osih.api/Controllers/OrdersController.cs:40 | A status search never returns two different canonical statuses |

## Left out

- File existence checks, `File.ReadAllText`, `StreamReader` and the path built from `AppContext.BaseDirectory`: this is I/O. The readers take what it produces as a parameter.
- `JsonSerializer.Deserialize` and `CsvHelper`'s `GetRecords`: these are library parsers. Their exceptions on malformed input are not modelled, and neither is how the CSV header maps to fields.
- `DateTime.Parse`: it is abstracted as a total function parameter. Its culture-sensitive behaviour and the exception it throws on a bad or null string are not modelled.
- The `OrderA_DTO` and `OrderB_DTO` declarations are not modelled; their fields are inferred from their use at data/osih.data/DataAccess.cs:40-45 and 67-72, with the id, customer, amount and status fields taken as nullable.
- OsihData.DataAccess.ReadSystemA: does not model a JSON array holding a `null` element. Deserialising `[..., null, ...]` yields a null item, and the loop throws `NullReferenceException` at `item.orderID` after appending the items before it; `SystemAFile` cannot represent a null item.
- `TotalAmount` is floating point. It is carried as an opaque 64-bit pattern and never computed with.
- `Order.SourceSystem` and `Order.Status` are nullable in C#. They are plain strings here, because the data layer always sets them. The `NullReferenceException` that a null `Status` would raise in the status filter is not modelled.
- OsihApi.EqualsIgnoreCase: folds ASCII letters only. .NET's ordinal case-insensitive comparison also upper-cases non-ASCII letters, but all canonical statuses are ASCII.
- The `Orders` action returns the constructed list unchanged. Its model is the `DataAccess` constructor.
- The `ActionResult`/`Ok` wrapping, the routing attributes, the health endpoint and the web front end (`HomeController`, `HomeViewModel`) are HTTP and view glue. The front end's "Delivered" status option matches no normalised status.
- The controller builds a new `DataAccess` on every request. Each query takes the loaded list as a parameter instead.
