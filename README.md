# wst-grpc business rules in Dafny

wst-grpc is the gRPC back end of an import-process tracker. It keeps tables of users,
delivery places, operations (a country and an IMPORT/EXPORT type), route points, processes,
exporters, importers and materials. On top of these it keeps orders. An order is an import
process from an exporter to an importer, with item lines, a tracking event and an optional
route that is announced to a route service. Each service checks its request, looks up the
rows it refers to, refuses duplicates under the tables' unique constraints, and then
writes, rewrites or removes rows.

This project models those rules:

- Every table is a `map` from the row's id to the row. Entities that the source changes in
  place (Order, Material, User, Process, Exporter, Importer) are classes with `var` fields
  and mutator methods. The store classes hold the table and a `Valid()` invariant: ids
  match keys and the unique columns are unique. For exporters, importers, materials and
  orders it also says that every row meets the entity's constraints. For delivery places
  and points it says that every stored name passes @NotBlank, and for operations that
  every stored country does.
- Every service operation is a method that returns `Result<T>`. Its error is one of:
  - `NotFound`
  - `AlreadyExists`
  - `Invalid`, for an `IllegalArgumentException`
  - `ConstraintViolations`, for Bean Validation's set of violations
- Each method's contract fixes which error wins when several checks would fail. It gives
  the whole new table on success, and it keeps every table unchanged on failure.
- Order reads pick one of six closed filter variants and run its query.
- Blank has two meanings. @NotBlank trims, so a text is blank when every character is at
  most U+0020 (`Text.IsBlank`). Kotlin's `isBlank` and `isNullOrBlank`, which the services
  and endpoints call, ask `Char.isWhitespace` of every character (`Text.IsKotlinBlank`).
  The rows below say "Kotlin-blank" for the second.
- The Bean Validation constraints, the `@ValidUUID` pattern and the string converters
  `toLocalDate`, `toBigDecimal` and `toEnum` are total functions, with round-trip lemmas.

Modules, one file each:

| file | module | covers |
|---|---|---|
| `common.dfy` | `Common`, `Text`, `Tables` | ids, errors, addresses and pages; then blank text, digits and `contains`; then unique columns |
| `validation.dfy` | `Validation`, `ValidUuid` | the constraint builders; the UUID pattern and `UUID.fromString` |
| `string_utils.dfy` | `StringUtils` | ISO dates, plain decimals and the three converters |
| `users.dfy`, `delivery_places.dfy`, `operations.dfy`, `points.dfy`, `processes.dfy`, `exporters.dfy`, `importers.dfy`, `materials.dfy` | one module each | the tables and their services |
| `orders.dfy` | `Orders` | the order aggregate and its response |
| `order_requests.dfy` | `OrderRequests` | the order requests, `toModel` and `toUpdateRequest` |
| `order_services.dfy` | `OrderServices` | the order table, `OrderService` and `ManageOrderService` |
| `order_filter.dfy` | `OrderFilters` | the order `Filter` family, `toFilter` and the read endpoint |

Collaborators outside the program become parameters:

- a generated id is a `newId` argument that is not yet a key;
- the current date is a `today` argument;
- the Siscomex NCM search is a function `search: string -> seq<string>` (the `nomeExtenso`
  of each hit);
- the route service's `notify` calls are the returned sequence `sent` of the requests
  that were sent.

## Model

| member | source | states |
|---|---|---|
| Text.ContainsIffOccurs | src/main/kotlin/br/com/gn/material/MaterialRepository.kt:14 | a description "contains" a fragment exactly when the fragment occurs at some offset of it |
| Text.PrefixContained | src/test/kotlin/br/com/gn/material/MaterialEndpointTest.kt:155-166 | every prefix of a description is contained in it, which is what a search by its first seven characters relies on |
| Tables.StoreKeepsUnique | src/main/kotlin/br/com/gn/user/User.kt:14-19 | saving a row whose unique column no other row holds keeps the column unique |
| Tables.RemoveKeepsUnique | src/main/kotlin/br/com/gn/user/UserService.kt:68 | deleting a row keeps a unique column unique |
| Tables.RewriteKeepsUnique | src/main/kotlin/br/com/gn/material/MaterialService.kt:48-49 | rewriting a row without changing its unique column keeps the column unique |
| Validation.NotBlank | src/main/kotlin/br/com/gn/deliveryplace/DeliveryPlaceDtos.kt:6-13 | @NotBlank reports no violation exactly when the text is not blank, and otherwise reports "must not be blank" on its field |
| Validation.NotBlankOpt | src/main/kotlin/br/com/gn/order/OrderDtos.kt:36 | @NotBlank on a nullable text reports no violation exactly when the text is present and not blank, so null is refused as "must not be blank" |
| Text.BlanknessDiffers | src/main/kotlin/br/com/gn/user/UserService.kt:37 | the two blank tests differ: a no-break space is Kotlin-blank but not trimmed away, a control character is trimmed away but not Kotlin-blank; the empty text is blank for both, and a text that starts with a letter or digit for neither |
| Validation.Size | src/main/kotlin/br/com/gn/order/OrderDtos.kt:29 | @Size reports no violation exactly when the length is within the bounds, and otherwise reports the "size must be between" message |
| Validation.SizeOpt | src/main/kotlin/br/com/gn/order/OrderDtos.kt:36 | @Size on a nullable text reports no violation exactly when the text is null or its length is within the bounds |
| Validation.NotNull | src/main/kotlin/br/com/gn/order/OrderDtos.kt:33-35 | @NotNull reports no violation exactly when the value is present, and otherwise reports "must not be null" on its field |
| Validation.Email | src/main/kotlin/br/com/gn/user/UserDtos.kt:9 | @Email reports no violation exactly when the text, split at its last '@', has a dot-atom local part of at most 64 characters and a domain of dot-separated labels (atom characters with inner hyphens, at most 63 each, at most 255 in all); the empty text has no '@' and is refused |
| Validation.EmailHasOneAt | src/main/kotlin/br/com/gn/user/UserDtos.kt:9 | an accepted address has exactly one '@', with a non-empty local part before it and a non-empty domain after it |
| Validation.TestAddressAccepted | src/test/kotlin/br/com/gn/user/UserEndpointTest.kt:40 | the endpoint test's address email@email.com is accepted |
| Validation.MisplacedAtRefused | src/main/kotlin/br/com/gn/user/UserDtos.kt:9 | the empty text, "@@@" and "a@@b" are refused |
| Validation.MalformedPartsRefused | src/main/kotlin/br/com/gn/user/UserDtos.kt:9 | a space in the local part, two dots in a row and a domain ending in a dot are refused |
| Validation.AddressViolations | src/main/kotlin/br/com/gn/address/AddressRequest.kt:7-12 | an address is valid exactly when all four of its lines are filled in |
| Validation.PositiveOrZero | src/main/kotlin/br/com/gn/exporter/ExporterDtos.kt:19-22 | @PositiveOrZero reports no violation exactly when the value is not negative |
| ValidUuid.IsUuidIffGroups | src/test/kotlin/br/com/gn/order/manage/ManageOrderEndpointTest.kt:224 | the position-by-position reading of the id pattern agrees with its group-by-group form: 8, 4, a version 1-5 and 3, a variant 8/9/a/b and 3, then 12 lower-case hexadecimal digits |
| ValidUuid.UuidViolations | src/test/kotlin/br/com/gn/order/manage/ManageOrderEndpointTest.kt:222-225 | @ValidUUID reports no violation exactly when the text matches the pattern |
| ValidUuid.IdViolations | src/main/kotlin/br/com/gn/order/read/Filter.kt:32 | @NotBlank with @ValidUUID reports nothing exactly when the text matches the pattern |
| ValidUuid.ParseUuid | src/main/kotlin/br/com/gn/order/OrderService.kt:33 | UUID.fromString on the 36-character form: a text is accepted exactly when it is 36 characters with hyphens at offsets 8, 13, 18 and 23 and hexadecimal digits of either case elsewhere, that is exactly when its lower-cased text is canonical; the id is the lower-cased text, and every other text is refused with the text in the error |
| ValidUuid.ParseValidUuid | src/main/kotlin/br/com/gn/order/read/Filter.kt:32-34 | a text the pattern accepts is parsed to itself, so a validated id finds the row keyed by that text |
| ValidUuid.ParseUuidIdempotent | src/main/kotlin/br/com/gn/order/read/Filter.kt:34 | parsing the text of a parsed id gives the same id |
| ValidUuid.Version | src/test/kotlin/br/com/gn/order/manage/ManageOrderEndpointTest.kt:224 | an id the pattern accepts has a version from 1 to 5 (section 4.1.3 of RFC 4122) |
| ValidUuid.BlankIdHasTwoViolations | src/test/kotlin/br/com/gn/order/manage/ManageOrderEndpointTest.kt:219-228 | a blank id is never a match, so it reports both the blank and the pattern violation |
| ValidUuid.AnchoredAtEnd | src/test/kotlin/br/com/gn/order/manage/ManageOrderEndpointTest.kt:224 | the pattern is anchored at the end: a valid id followed by more text is rejected |
| ValidUuid.UpperCaseRejected | src/test/kotlin/br/com/gn/order/manage/ManageOrderEndpointTest.kt:224 | an upper-case hexadecimal digit fails the pattern |
| ValidUuid.RandomUuidAccepted | src/test/kotlin/br/com/gn/order/manage/ManageOrderEndpointTest.kt:224 | a random version-4 id as UUID.randomUUID prints it matches the pattern and has version 4 |
| StringUtils.FormatIsoDate | src/main/kotlin/br/com/gn/order/Order.kt:99 | a date prints as ten characters YYYY-MM-DD |
| StringUtils.ParseFormatIsoDate | src/main/kotlin/br/com/gn/order/Order.kt:99-103 | parsing the ISO text of a date gives the date back |
| StringUtils.FormatParseIsoDate | src/main/kotlin/br/com/gn/order/OrderDtos.kt:120-122 | printing a parsed date gives back the text it was parsed from |
| StringUtils.ToLocalDate | src/test/kotlin/br/com/gn/utils/StringUtilsKtTest.kt:13-30 | null exactly for a blank text; the date an ISO text denotes, which prints back as that text; otherwise "Could not parse date from text" |
| StringUtils.ToLocalDateOfIsoText | src/test/kotlin/br/com/gn/utils/StringUtilsKtTest.kt:18-21 | every date converts back from its ISO text |
| StringUtils.ToLocalDateExamples | src/test/kotlin/br/com/gn/utils/StringUtilsKtTest.kt:13-30 | "" gives null, "2020-05-02" gives 2020-05-02, and "text" gives the parse error |
| StringUtils.ParsePlainString | src/test/kotlin/br/com/gn/utils/StringUtilsKtTest.kt:37-40 | parsing the plain text of a decimal gives back its unscaled value and scale |
| StringUtils.ToBigDecimal | src/test/kotlin/br/com/gn/utils/StringUtilsKtTest.kt:32-49 | null exactly for a blank text; the decimal the text denotes exactly when it is one; a failure, "Could not parse BigDecimal from text", exactly for a non-blank text that is not a decimal |
| StringUtils.ToBigDecimalOfPlainString | src/test/kotlin/br/com/gn/utils/StringUtilsKtTest.kt:37-40 | every decimal converts back from its plain text |
| StringUtils.ToBigDecimalExamples | src/test/kotlin/br/com/gn/utils/StringUtilsKtTest.kt:32-49 | "" gives null, "20" gives 20, and "text" gives the parse error |
| StringUtils.ToEnum | src/test/kotlin/br/com/gn/utils/StringUtilsKtTest.kt:51-68 | null exactly for the UNKNOWN sentinel; the constant of that name; otherwise "Could not convert to Enum from text" |
| Users.User.constructor | src/main/kotlin/br/com/gn/user/User.kt:20-33 | a new user holds the given id, name and email |
| Users.User.Update | src/main/kotlin/br/com/gn/user/User.kt:35-37 | update sets the email |
| Users.NewUserViolations | src/main/kotlin/br/com/gn/user/UserDtos.kt:8-11 | a new-user request is valid exactly when the email is a non-blank address and the name is not blank |
| Users.UpdateViolations | src/main/kotlin/br/com/gn/user/UserService.kt:51 | update's arguments are valid exactly when the email is a non-blank address and the id matches the pattern |
| Users.EmptyUpdateViolations | src/test/kotlin/br/com/gn/user/UserEndpointTest.kt:232-240 | an empty update reports exactly the four violations the endpoint test lists |
| Users.Query | src/main/kotlin/br/com/gn/user/UserService.kt:33-48 | a Kotlin-blank email or name filter gives its own "must be informed" error; otherwise the result is exactly the rows whose email (or name) is equal, or every row when no filter is set |
| Users.QueryByEmailFindsAtMostOne | src/main/kotlin/br/com/gn/user/User.kt:14-19 | with unique emails, an email filter finds at most one user |
| Users.QueryNotSetReturnsAll | src/main/kotlin/br/com/gn/user/UserService.kt:46 | with no filter set, the whole table is returned |
| Users.UserService.constructor | src/main/kotlin/br/com/gn/user/UserService.kt:18-20 | the table starts empty and valid |
| Users.UserService.Create | src/main/kotlin/br/com/gn/user/UserService.kt:22-31 | violations first, then a used email gives "User already exists with email E"; otherwise exactly one new row with the request's name and email; a failure leaves the table unchanged |
| Users.UserService.Insert | src/main/kotlin/br/com/gn/user/UserService.kt:29 | save files the new user under its own id, changes no other row and keeps emails unique |
| Users.UserService.Update | src/main/kotlin/br/com/gn/user/UserService.kt:50-61 | violations, then the email check before the id lookup (so a user's own current email is refused), then NotFound; on success only that user's email changes |
| Users.UserService.Delete | src/main/kotlin/br/com/gn/user/UserService.kt:63-70 | violations, then "User not found with id X"; otherwise exactly that row is removed and returned |
| DeliveryPlaces.NewPlaceViolations | src/main/kotlin/br/com/gn/deliveryplace/DeliveryPlaceDtos.kt:6-13 | a new place request is valid exactly when the name is not blank |
| DeliveryPlaces.Responses | src/main/kotlin/br/com/gn/deliveryplace/DeliveryPlaceEndpoint.kt:36-46 | one response per stored place, with its id and name |
| DeliveryPlaces.DeliveryPlaceRepository.constructor | src/main/kotlin/br/com/gn/deliveryplace/DeliveryPlace.kt:13-21 | the table starts empty, and so its names are unique |
| DeliveryPlaces.DeliveryPlaceEndpoint.constructor | src/main/kotlin/br/com/gn/deliveryplace/DeliveryPlaceEndpoint.kt:17-20 | the endpoint works on the given repository |
| DeliveryPlaces.DeliveryPlaceEndpoint.Create | src/main/kotlin/br/com/gn/deliveryplace/DeliveryPlaceEndpoint.kt:22-33 | a Kotlin-blank name gives "Name must be informed" before the uniqueness check; a used name gives "Delivery place already exists with name N"; then a name that trims to empty is refused at save by the entity's @NotBlank on "name"; otherwise exactly one new row; a failure saves nothing, and every stored name passes @NotBlank |
| DeliveryPlaces.DeliveryPlaceEndpoint.Read | src/main/kotlin/br/com/gn/deliveryplace/DeliveryPlaceEndpoint.kt:36-46 | one response per stored place: as many as are stored, with their names |
| DeliveryPlaces.DeliveryPlaceEndpoint.Delete | src/main/kotlin/br/com/gn/deliveryplace/DeliveryPlaceEndpoint.kt:48-60 | an unparsable id is the conversion error; a missing one gives "Delivery place not found with id X"; otherwise exactly that row is removed and returned |
| DeliveryPlaces.DeliveryPlaceService.constructor | src/main/kotlin/br/com/gn/deliveryplace/DeliveryPlaceService.kt:17-26 | the service works on the given repository |
| DeliveryPlaces.DeliveryPlaceService.Create | src/main/kotlin/br/com/gn/deliveryplace/DeliveryPlaceService.kt:17-26 | violations, then "Delivery Place already exists with name N"; otherwise exactly one new row |
| DeliveryPlaces.DeliveryPlaceService.Read | src/main/kotlin/br/com/gn/deliveryplace/DeliveryPlaceService.kt:28-31 | the whole table, unfiltered |
| DeliveryPlaces.DeliveryPlaceService.Delete | src/main/kotlin/br/com/gn/deliveryplace/DeliveryPlaceService.kt:33-39 | an unparsable id is the conversion error; a missing one gives "Delivery Place not found with id X"; otherwise that row is removed |
| Operations.ToEnumOfTypeName | src/test/kotlin/br/com/gn/utils/StringUtilsKtTest.kt:56-59 | the name of each operation type converts back to that type |
| Operations.ToEnumOfGrpcNames | src/main/kotlin/br/com/gn/operation/OperationEndpoint.kt:26-27 | the gRPC type names convert as follows: UNKNOWN to null, IMPORT and EXPORT to themselves, UNRECOGNIZED to the conversion error |
| Operations.CreateRequestError | src/main/kotlin/br/com/gn/operation/OperationEndpoint.kt:23-27 | a Kotlin-blank country gives "Country must not be blank" before the type is looked at; the UNKNOWN type gives "Type must not be blank"; the request passes exactly for a country and an IMPORT or EXPORT type |
| Operations.RequestedType | src/main/kotlin/br/com/gn/operation/OperationEndpoint.kt:26 | the stored type has the name of the requested gRPC type |
| Operations.OperationRepository.constructor | src/main/kotlin/br/com/gn/operation/Operation.kt:16-21 | the table starts empty, and so its (country, type) pairs are unique |
| Operations.OperationEndpoint.constructor | src/main/kotlin/br/com/gn/operation/OperationEndpoint.kt:17-19 | the endpoint works on the given repository |
| Operations.OperationEndpoint.Create | src/main/kotlin/br/com/gn/operation/OperationEndpoint.kt:22-49 | the request errors first (a Kotlin-blank country, then the UNKNOWN type), then a used (country, type) pair gives AlreadyExists; then a country that trims to empty is refused at save by the entity's @NotBlank on "country"; otherwise exactly one new row that echoes the request; a failure saves nothing, and every stored country passes @NotBlank |
| Operations.OperationEndpoint.Read | src/main/kotlin/br/com/gn/operation/OperationEndpoint.kt:52-68 | one response per stored operation, possibly none |
| Operations.OperationEndpoint.Delete | src/main/kotlin/br/com/gn/operation/OperationEndpoint.kt:71-87 | a Kotlin-blank id gives "Id must not be blank"; an unparsable one, the conversion error; a missing one, "Operation not found with id X"; otherwise that row is removed and returned |
| Operations.SameCountryBothTypes | src/main/kotlin/br/com/gn/operation/Operation.kt:19 | one country may have both an IMPORT and an EXPORT operation |
| Operations.DuplicateMessageExample | src/main/kotlin/br/com/gn/operation/OperationEndpoint.kt:35 | the duplicate message names the country and the type |
| Points.PointTable.constructor | src/main/kotlin/br/com/gn/route/point/Point.kt:6-13 | the table starts empty, and so its names are unique |
| Points.PointEndpoint.constructor | src/main/kotlin/br/com/gn/route/point/PointEndpoint.kt:13-15 | the endpoint works on the given table |
| Points.PointEndpoint.Create | src/main/kotlin/br/com/gn/route/point/PointEndpoint.kt:18-37 | a Kotlin-blank name gives "Name must not be blank"; a used name gives "Point already exists with name N"; then a name that trims to empty is refused at persist by the entity's @NotBlank on "name"; otherwise exactly one new point with that name; a failure persists nothing, and every stored name passes @NotBlank |
| Points.PointEndpoint.Read | src/main/kotlin/br/com/gn/route/point/PointEndpoint.kt:40-56 | one response per stored point, with its name |
| Processes.Process.constructor | src/main/kotlin/br/com/gn/process/Process.kt:25-40 | a new process holds the given id, name, operation and responsible |
| Processes.Process.Update | src/main/kotlin/br/com/gn/process/Process.kt:42-44 | update sets the responsible |
| Processes.NewProcessViolations | src/main/kotlin/br/com/gn/process/ProcessDtos.kt:14-18 | a new-process request is valid exactly when its name is not blank (its ids are typed and never null) |
| Processes.ToModel | src/main/kotlin/br/com/gn/process/ProcessDtos.kt:19-30 | the responsible is looked up first ("Responsible not found with id X"), then the operation ("Operation not found with id X"); it succeeds exactly when both exist and carries the request's name and both keys |
| Processes.Responsible | src/main/kotlin/br/com/gn/process/ProcessDtos.kt:37-40 | the user with the requested key, or "Responsible not found with id X" |
| Processes.Query | src/main/kotlin/br/com/gn/process/ProcessService.kt:32-36 | every process for a null or Kotlin-blank name, otherwise exactly the processes with that name |
| Processes.QueryByNameFindsAtMostOne | src/main/kotlin/br/com/gn/process/Process.kt:19-24 | with unique names, a name filter finds at most one process |
| Processes.ProcessService.constructor | src/main/kotlin/br/com/gn/process/ProcessService.kt:16-19 | the table starts empty and valid, with the given user and operation tables |
| Processes.ProcessService.Create | src/main/kotlin/br/com/gn/process/ProcessService.kt:22-29 | violations, then a used name ("Process already exists with name N") before either lookup, then the toModel errors; otherwise exactly one new row; a failure changes nothing |
| Processes.ProcessService.Update | src/main/kotlin/br/com/gn/process/ProcessService.kt:39-45 | violations of the id, then "Process not found with id X" before the responsible lookup; on success only that process's responsible changes |
| Processes.ProcessService.Delete | src/main/kotlin/br/com/gn/process/ProcessService.kt:48-53 | violations of the id, then "Process not found with id X"; otherwise exactly that row is removed and returned |
| Exporters.ToModel | src/main/kotlin/br/com/gn/exporter/ExporterDtos.kt:24-37 | every field is copied from the request |
| Exporters.LeadTimeViolations | src/main/kotlin/br/com/gn/exporter/ExporterDtos.kt:19-22 | a lead time passes exactly when it is given and not negative |
| Exporters.NewExporterViolations | src/main/kotlin/br/com/gn/exporter/ExporterDtos.kt:11-23 | a new-exporter request is valid exactly when its enums and lead times are given and the exporter it builds meets the entity constraints |
| Exporters.UpdateViolations | src/main/kotlin/br/com/gn/exporter/ExporterDtos.kt:40-51 | an update request is valid exactly when its name, address and enums are given and its lead times are not negative |
| Exporters.UpdatedKeepsWellFormed | src/main/kotlin/br/com/gn/exporter/Exporter.kt:20-43 | a valid update keeps an exporter well formed and never changes its code or its four lead times |
| Exporters.Query | src/main/kotlin/br/com/gn/exporter/ExporterService.kt:25-33 | every exporter for a Kotlin-blank name, otherwise exactly those with that name |
| Exporters.Exporter.constructor | src/main/kotlin/br/com/gn/exporter/Exporter.kt:19-35 | a new exporter holds the given id and columns |
| Exporters.Exporter.Update | src/main/kotlin/br/com/gn/exporter/Exporter.kt:37-43 | update sets the address, name, payment terms, incoterm and currency; the other columns keep their values |
| Exporters.ExporterService.constructor | src/main/kotlin/br/com/gn/exporter/ExporterService.kt:13-15 | the table starts empty and valid |
| Exporters.ExporterService.Create | src/main/kotlin/br/com/gn/exporter/ExporterService.kt:18-22 | violations, then a used code is refused by the exporter_code_uk constraint; otherwise exactly one new row built by toModel |
| Exporters.ExporterService.Read | src/main/kotlin/br/com/gn/exporter/ExporterService.kt:25-33 | the query on the table; a Kotlin-blank name returns every row |
| Exporters.ExporterService.Update | src/main/kotlin/br/com/gn/exporter/ExporterService.kt:36-43 | violations, then an unparsable id, then "Exporter not found with id X"; on success only that exporter changes, as Exporter.update says |
| Exporters.ExporterService.Delete | src/main/kotlin/br/com/gn/exporter/ExporterService.kt:46-52 | an unparsable id, then "Exporter not found with id X"; otherwise exactly that row is removed and returned |
| Exporters.ExporterService.Insert | src/main/kotlin/br/com/gn/exporter/ExporterService.kt:20 | persist files the new exporter under its own id, changes no other row and keeps the table invariant |
| Exporters.StoreKeepsRowsValid | src/main/kotlin/br/com/gn/exporter/Exporter.kt:13-18 | a well-formed row with a free code stored under a new key keeps every row well formed and codes unique |
| Exporters.UpdateKeepsRowsValid | src/main/kotlin/br/com/gn/exporter/ExporterService.kt:40 | applying a valid update to a stored exporter keeps every row well formed and codes unique |
| Exporters.RemoveKeepsRowsValid | src/main/kotlin/br/com/gn/exporter/ExporterService.kt:50 | removing an exporter keeps every row well formed and codes unique |
| Importers.NewImporterViolations | src/main/kotlin/br/com/gn/importer/Importer.kt:20-23 | a new-importer request is valid exactly when the importer it builds has a plant of 1 to 4 characters, a non-blank fiscal name, a non-blank fiscal number of the CNPJ pattern and a full address |
| Importers.CnpjViolations | src/main/kotlin/br/com/gn/importer/Importer.kt:22 | @CNPJ reports its pattern message exactly when the text does not match ([0-9]{2}[.]?[0-9]{3}[.]?[0-9]{3}[/]?[0-9]{4}[-]?[0-9]{2}) |
| Importers.CnpjHasFourteenDigits | src/main/kotlin/br/com/gn/importer/Importer.kt:22 | a number the pattern accepts has exactly 14 digits and 14 to 18 characters |
| Importers.PlainCnpj | src/main/kotlin/br/com/gn/importer/Importer.kt:22 | every run of 14 digits without separators is accepted |
| Importers.CnpjExamples | src/test/kotlin/br/com/gn/importer/ImporterEndpointTest.kt:266 | the test's number is accepted plain and punctuated, and the empty text is refused |
| Importers.EmptyRequestViolations | src/test/kotlin/br/com/gn/importer/ImporterEndpointTest.kt:100-114 | an empty request reports exactly the eight violations the endpoint test lists, the fiscal number twice |
| Importers.UpdateViolations | src/main/kotlin/br/com/gn/importer/ImporterDtos.kt:24-27 | an update request is valid exactly when its address is complete |
| Importers.ToModel | src/main/kotlin/br/com/gn/importer/ImporterDtos.kt:16-21 | every field is copied from the request |
| Importers.Query | src/main/kotlin/br/com/gn/importer/ImporterService.kt:25-33 | every importer for a Kotlin-blank plant, otherwise exactly those with that plant |
| Importers.QueryByPlantFindsAtMostOne | src/main/kotlin/br/com/gn/importer/Importer.kt:14-18 | with unique plants, a plant filter finds at most one importer |
| Importers.Importer.constructor | src/main/kotlin/br/com/gn/importer/Importer.kt:19-28 | a new importer holds the given id and columns |
| Importers.Importer.Update | src/main/kotlin/br/com/gn/importer/Importer.kt:30-32 | update sets the address to the request's; plant, fiscal name and fiscal number keep their values |
| Importers.ImporterService.constructor | src/main/kotlin/br/com/gn/importer/ImporterService.kt:13-15 | the table starts empty and valid |
| Importers.ImporterService.Create | src/main/kotlin/br/com/gn/importer/ImporterService.kt:18-22 | violations, then a used plant is refused by the importer_plant_uk constraint; otherwise exactly one new row |
| Importers.ImporterService.Read | src/main/kotlin/br/com/gn/importer/ImporterService.kt:25-33 | the query on the table; a Kotlin-blank plant returns every row |
| Importers.ImporterService.Update | src/main/kotlin/br/com/gn/importer/ImporterService.kt:36-43 | violations, then an unparsable id, then "Importer not found with id X"; on success only that importer's address changes |
| Importers.ImporterService.Delete | src/main/kotlin/br/com/gn/importer/ImporterService.kt:46-52 | an unparsable id, then "Importer not found with id X"; otherwise exactly that row is removed and returned |
| Importers.ImporterService.Rewrite | src/main/kotlin/br/com/gn/importer/ImporterService.kt:40 | the found importer's address becomes the request's, no other row changes, and the table invariant is kept |
| Importers.ImporterService.Insert | src/main/kotlin/br/com/gn/importer/ImporterService.kt:20 | persist files the new importer under its own id, changes no other row and keeps the table invariant |
| Importers.StoreKeepsRowsValid | src/main/kotlin/br/com/gn/importer/Importer.kt:13-18 | a well-formed row with a free plant stored under a new key keeps every row well formed and plants unique |
| Importers.UpdateKeepsRowsValid | src/main/kotlin/br/com/gn/importer/ImporterService.kt:40 | setting a complete address on a stored importer keeps every row well formed and plants unique |
| Importers.RemoveKeepsRowsValid | src/main/kotlin/br/com/gn/importer/ImporterService.kt:50 | removing an importer keeps every row well formed and plants unique |
| Materials.NcmNotBlank | src/main/kotlin/br/com/gn/material/MaterialDtos.kt:20 | eight digits are never blank, so the NCM pattern implies @NotBlank |
| Materials.ToModel | src/main/kotlin/br/com/gn/material/MaterialDtos.kt:27-37 | the seven fields are copied, and the NCM description starts null |
| Materials.NcmViolations | src/main/kotlin/br/com/gn/material/MaterialDtos.kt:20 | the NCM passes exactly when it is eight digits |
| Materials.PositiveViolations | src/main/kotlin/br/com/gn/material/MaterialDtos.kt:21 | the unit price passes exactly when it is greater than zero |
| Materials.NewMaterialViolations | src/main/kotlin/br/com/gn/material/MaterialDtos.kt:16-25 | a new-material request is valid exactly when the material it builds is well formed |
| Materials.EntityViolations | src/main/kotlin/br/com/gn/material/Material.kt:39-71 | a row passes the entity's constraints exactly when it is well formed: a code, a description of at most 100 characters, an eight-digit NCM, a positive unit price and a planning |
| Materials.SampleMaterialWellFormed | src/main/kotlin/br/com/gn/material/Material.kt:24-32 | the constraints can be met: a sample material is well formed |
| Materials.UpdateMaterialViolations | src/main/kotlin/br/com/gn/material/MaterialDtos.kt:40-48 | an update request is valid exactly when it keeps every well-formed material well formed |
| Materials.EmptyRequestViolations | src/test/kotlin/br/com/gn/material/MaterialEndpointTest.kt:114-120 | an empty request reports exactly the six violations the endpoint test lists, and the material it builds breaks the entity's constraints in the same six ways |
| Materials.From | src/main/kotlin/br/com/gn/material/MaterialDtos.kt:66-78 | CODE, NCM and DESCRIPTION map to themselves; everything else, null included, maps to ELSE |
| Materials.NewReadRequest | src/main/kotlin/br/com/gn/material/MaterialDtos.kt:50-64 | the request exists exactly when the selected column's text is present and not Kotlin-blank; otherwise "NCM must be informed for a filter", whatever the filter; ELSE never fails |
| Materials.Search | src/main/kotlin/br/com/gn/material/MaterialService.kt:55-62 | CODE and NCM select equal values, DESCRIPTION selects the rows whose description contains the text, and ELSE selects all; the pageable is passed on unchanged |
| Materials.SearchByCodeFindsAtMostOne | src/main/kotlin/br/com/gn/material/Material.kt:19-23 | with unique codes, a code search finds at most one material |
| Materials.Material.constructor | src/main/kotlin/br/com/gn/material/Material.kt:24-73 | a new material is what toModel builds, with no NCM description |
| Materials.Material.Update | src/main/kotlin/br/com/gn/material/Material.kt:75-82 | update sets description, NCM, planning, the two flags and the unit price; code and NCM description keep their values |
| Materials.Material.UpdateNcmDescription | src/main/kotlin/br/com/gn/material/Material.kt:84-86 | only the NCM description changes |
| Materials.MaterialService.constructor | src/main/kotlin/br/com/gn/material/MaterialService.kt:18-21 | the table starts empty and valid |
| Materials.MaterialService.Create | src/main/kotlin/br/com/gn/material/MaterialService.kt:24-37 | a used code gives "Material with code X already exists" before the NCM search; no hit gives "Ncm N not found in Siscomex"; then a material the entity's constraints refuse gives those violations; otherwise one new row whose NCM description is the first hit; a failure saves nothing |
| Materials.MaterialService.Update | src/main/kotlin/br/com/gn/material/MaterialService.kt:40-52 | an unparsable id, then "Material not found for id X" before the NCM search, then the search error, then the violations of the updated material, which leave the row as it was; on success that row becomes the updated material with the first hit as its NCM description |
| Materials.MaterialService.Read | src/main/kotlin/br/com/gn/material/MaterialService.kt:55-62 | the search on the table; ELSE returns every row |
| Materials.MaterialService.Delete | src/main/kotlin/br/com/gn/material/MaterialService.kt:65-71 | an unparsable id, then "Material not found for id X"; otherwise exactly that row is removed and returned |
| Materials.MaterialService.Insert | src/main/kotlin/br/com/gn/material/MaterialService.kt:34 | save files the new material under its own id, changes no other row and keeps every row well formed and codes unique |
| Materials.StoreKeepsRowsValid | src/main/kotlin/br/com/gn/material/Material.kt:19-23 | a well-formed row with a free code stored under a new key keeps every row well formed and codes unique |
| Materials.RewriteKeepsRowsValid | src/main/kotlin/br/com/gn/material/MaterialService.kt:48-49 | rewriting a stored material with a well-formed row of the same code keeps every row well formed and codes unique |
| Materials.RemoveKeepsRowsValid | src/main/kotlin/br/com/gn/material/MaterialService.kt:69 | removing a material keeps every row well formed and codes unique |
| Orders.EmptyEvent | src/main/kotlin/br/com/gn/order/event/Event.kt:23-33 | the event refers to its order and has no milestone date set |
| Orders.Initial | src/main/kotlin/br/com/gn/order/Order.kt:56-79 | a new order is PENDING_APPROVAL, has no broker reference and no items yet, and owns an empty event |
| Orders.Updated | src/main/kotlin/br/com/gn/order/OrderService.kt:36-37 | an update sets the delivery place, modal, necessity, responsible and deadline, and leaves every other column as it was |
| Orders.DateText | src/main/kotlin/br/com/gn/order/Order.kt:109-115 | a set date prints as text that parses back to it |
| Orders.OrEmpty | src/main/kotlin/br/com/gn/order/Order.kt:104-105 | a null text becomes "" and any other text is kept |
| Orders.ItemLines | src/main/kotlin/br/com/gn/order/Order.kt:90-96 | one response line per item, in order, with its material's code and description and its quantity |
| Orders.Order.constructor | src/main/kotlin/br/com/gn/order/Order.kt:42-79 | a new order is the initial order of its draft |
| Orders.Order.IncludeItems | src/main/kotlin/br/com/gn/order/Order.kt:81-83 | the item list is replaced wholesale and nothing else changes |
| Orders.Order.Update | src/main/kotlin/br/com/gn/order/OrderService.kt:37 | the order becomes the updated order |
| Orders.Order.UpdateObservation | src/main/kotlin/br/com/gn/order/OrderService.kt:47 | only the observation changes |
| Orders.Order.UpdateReference | src/main/kotlin/br/com/gn/order/OrderService.kt:59 | only the broker reference changes |
| Orders.Order.Response | src/main/kotlin/br/com/gn/order/Order.kt:85-120 | the response echoes the id, origin, destination, number, exporter name, importer plant, responsible and modal; a null observation or delivery place becomes ""; the dates print as parseable ISO text; the item lines are in order; an empty event shows every milestone as "null" |
| OrderRequests.PositiveOpt | src/main/kotlin/br/com/gn/order/OrderDtos.kt:87 | a quantity passes exactly when it is null or positive |
| OrderRequests.PastOrPresent | src/main/kotlin/br/com/gn/order/OrderDtos.kt:31 | a date passes exactly when it is null or not after today |
| OrderRequests.UuidOpt | src/main/kotlin/br/com/gn/order/OrderDtos.kt:92 | a nullable id passes exactly when it is null or matches the pattern |
| OrderRequests.ItemViolations | src/main/kotlin/br/com/gn/order/OrderDtos.kt:85-88 | an item passes exactly when its material id matches the pattern and its quantity is given and positive |
| OrderRequests.ItemsViolations | src/main/kotlin/br/com/gn/order/OrderDtos.kt:28 | the list passes exactly when every item passes |
| OrderRequests.NewOrderViolations | src/main/kotlin/br/com/gn/order/OrderDtos.kt:24-39 | a request has no violations exactly when it meets every field constraint on the given day |
| OrderRequests.EmptyRequestViolations | src/test/kotlin/br/com/gn/order/manage/ManageOrderEndpointTest.kt:205-250 | an empty request reports exactly the sixteen violations the endpoint test lists |
| OrderRequests.EmptyRequestGroups | src/test/kotlin/br/com/gn/order/manage/ManageOrderEndpointTest.kt:218-247 | the same sixteen violations, grouped by constraint |
| OrderRequests.UpdateOrderViolations | src/main/kotlin/br/com/gn/order/OrderDtos.kt:91-97 | an update request has no violations exactly when it meets its field constraints |
| OrderRequests.EmptyUpdateViolations | src/test/kotlin/br/com/gn/order/manage/ManageOrderEndpointTest.kt:357-375 | an empty update with an empty id reports exactly the eight violations the endpoint test lists |
| OrderRequests.Find | src/main/kotlin/br/com/gn/order/OrderDtos.kt:41-42 | an unparsable id is the conversion error, a stored key gives its row, and any other key gives NotFound with the given message |
| OrderRequests.FindByValidId | src/main/kotlin/br/com/gn/order/OrderDtos.kt:41-48 | for an id the pattern accepts, the lookup succeeds exactly when the text is a key |
| OrderRequests.ResolveItems | src/main/kotlin/br/com/gn/order/OrderDtos.kt:72-76 | it succeeds exactly when every material is found, with one item per request, in order, with that request's quantity and material |
| OrderRequests.FirstMissingMaterial | src/main/kotlin/br/com/gn/order/OrderDtos.kt:72-76 | when every material before position i is found and the one at i is not, the resolution fails with the error of the material at i: the first missing material in list order decides the error |
| OrderRequests.ResolvePlace | src/main/kotlin/br/com/gn/order/OrderDtos.kt:50-53 | no delivery place for a null or Kotlin-blank id; otherwise the place the id finds, or its error |
| OrderRequests.Resolve | src/main/kotlin/br/com/gn/order/OrderDtos.kt:40-81 | on success the order copies origin, destination, number, date, modal, necessity, deadline, observation and route, and its items are the resolved lines |
| OrderRequests.ValidItemsResolve | src/main/kotlin/br/com/gn/order/OrderDtos.kt:72-76 | for valid items, resolution succeeds exactly when every material id is stored, and the first missing one is the error |
| OrderRequests.ValidRequestConvertible | src/main/kotlin/br/com/gn/order/OrderDtos.kt:62-75 | a valid request has every value that toModel dereferences with `!!` |
| OrderRequests.ReferenceResolutionOrder | src/main/kotlin/br/com/gn/order/OrderDtos.kt:41-53 | for a valid request, a missing exporter, then importer, then user, then delivery place is the error, each with its own message |
| OrderRequests.MaterialResolutionOrder | src/main/kotlin/br/com/gn/order/OrderDtos.kt:72-78 | once those references are found, the first missing material is the error; with every material found, toModel succeeds |
| OrderRequests.ToModel | src/main/kotlin/br/com/gn/order/OrderDtos.kt:40-81 | the lookups run step by step; a failure is the resolution's error, and a success is a fresh order holding the resolved order with its items included |
| OrderRequests.BuildItems | src/main/kotlin/br/com/gn/order/OrderDtos.kt:72-76 | the loop over the item requests gives exactly the resolution of the list |
| OrderRequests.PrefixFailure | src/main/kotlin/br/com/gn/order/OrderDtos.kt:72-76 | a failure on a prefix of the list is the failure of the whole list |
| OrderRequests.UpdateResolutionOrder | src/main/kotlin/br/com/gn/order/OrderDtos.kt:108-125 | for a valid update, a missing delivery place is reported before a missing user, and a bad date comes after both; on success the place, responsible and modal are the ones requested and the dates print back as the request's texts |
| OrderRequests.ToUpdateRequest | src/main/kotlin/br/com/gn/order/OrderDtos.kt:108-125 | a given delivery-place id that fails its lookup decides the error; a success carries the request's modal and route, a place exactly when an id is given, the user the responsible id finds, and the dates toLocalDate gives for the two texts; UpdateResolutionOrder fixes the order of the errors for a valid request |
| OrderServices.SetReferenceKeepsUnique | src/main/kotlin/br/com/gn/order/OrderService.kt:53-59 | giving an order a reference no order has keeps references unique |
| OrderServices.StoreKeepsRowsValid | src/main/kotlin/br/com/gn/order/OrderService.kt:23-27 | saving a new order with a free number and no reference keeps the table invariant |
| OrderServices.RewriteKeepsRowsValid | src/main/kotlin/br/com/gn/order/OrderService.kt:33-37 | rewriting an order in place, with its number and event kept and its reference kept or new, keeps the table invariant |
| OrderServices.RemoveKeepsRowsValid | src/main/kotlin/br/com/gn/order/OrderService.kt:66 | deleting an order keeps the table invariant |
| OrderServices.OrderRepository.constructor | src/main/kotlin/br/com/gn/order/OrderRepository.kt:9-17 | the table starts empty and valid |
| OrderServices.EntityManager.constructor | src/main/kotlin/br/com/gn/order/OrderService.kt:19 | the entity manager finds rows in the given tables |
| OrderServices.Built | src/main/kotlin/br/com/gn/order/OrderDtos.kt:56-78 | the built order has the resolved items, status PENDING_APPROVAL and no reference |
| OrderServices.UpdateViolations | src/main/kotlin/br/com/gn/order/OrderService.kt:32 | update's arguments are valid exactly when the request is valid and the id matches the pattern |
| OrderServices.ObservationViolations | src/main/kotlin/br/com/gn/order/OrderService.kt:43 | updateObservation's arguments are valid exactly when the observation is not blank and the id matches the pattern |
| OrderServices.ReferenceViolations | src/main/kotlin/br/com/gn/order/OrderService.kt:52 | updateReference's arguments are valid exactly when the reference is not blank, has at most 20 characters, and the id matches the pattern |
| OrderServices.EmptyObservationViolations | src/test/kotlin/br/com/gn/order/manage/ManageOrderEndpointTest.kt:424-431 | a blank observation with a blank id reports exactly the three violations the endpoint test lists |
| OrderServices.EmptyReferenceViolations | src/test/kotlin/br/com/gn/order/manage/ManageOrderEndpointTest.kt:506-513 | a blank reference with a blank id reports exactly the three violations the endpoint test lists |
| OrderServices.ValidRequestAdmissible | src/main/kotlin/br/com/gn/order/OrderDtos.kt:24-39 | a valid request has non-blank origin and destination, a number of at most ten characters, at least one item and every value toModel dereferences |
| OrderServices.BuiltIsStored | src/main/kotlin/br/com/gn/order/Order.kt:42-79 | the order built from a valid request meets the stored-order invariant and owns the empty event of its key |
| OrderServices.OrderService.constructor | src/main/kotlin/br/com/gn/order/OrderService.kt:17-20 | the service works on the given repository and entity manager |
| OrderServices.OrderService.Create | src/main/kotlin/br/com/gn/order/OrderService.kt:22-29 | violations, then "Order with number X already exists" before any lookup, then the first failing lookup; otherwise exactly one new row, the built order; a failure leaves the table unchanged |
| OrderServices.OrderService.Update | src/main/kotlin/br/com/gn/order/OrderService.kt:32-40 | violations, then "Order not found with id X" before the place and user lookups, then their errors; on success only that order's delivery place, modal, necessity, responsible and deadline change |
| OrderServices.OrderService.UpdateObservation | src/main/kotlin/br/com/gn/order/OrderService.kt:43-49 | violations, then NotFound; on success only that order's observation changes |
| OrderServices.OrderService.UpdateReference | src/main/kotlin/br/com/gn/order/OrderService.kt:52-61 | violations, then "Reference R already exists" for any order holding R (the target included) before the id lookup, then NotFound; on success only that order's reference changes |
| OrderServices.OrderService.Delete | src/main/kotlin/br/com/gn/order/OrderService.kt:63-68 | violations of the id, then NotFound; otherwise exactly that order is removed and returned |
| OrderServices.Admit | src/main/kotlin/br/com/gn/order/OrderService.kt:26-28 | toModel then save: a failed resolution changes nothing, and a success adds exactly the built order |
| OrderServices.AdmitNotifying | src/main/kotlin/br/com/gn/order/manage/ManageOrderService.kt:34-37 | the same, and the route notice of the built order is sent only after every lookup has succeeded |
| OrderServices.Store | src/main/kotlin/br/com/gn/order/OrderService.kt:27 | saving the built order adds exactly one row and keeps the invariant |
| OrderServices.Revise | src/main/kotlin/br/com/gn/order/OrderService.kt:35-38 | toUpdateRequest then update: a failed lookup changes nothing, and a success rewrites only that order |
| OrderServices.Save | src/main/kotlin/br/com/gn/order/OrderService.kt:27 | a new row is added under the order's id and nothing else changes |
| OrderServices.Change | src/main/kotlin/br/com/gn/order/OrderService.kt:37 | the order becomes its updated form and the invariant holds |
| OrderServices.Annotate | src/main/kotlin/br/com/gn/order/OrderService.kt:47 | only the observation of that order changes and the invariant holds |
| OrderServices.Refer | src/main/kotlin/br/com/gn/order/OrderService.kt:59 | only the reference of that order changes and the invariant holds |
| OrderServices.RouteNotices | src/main/kotlin/br/com/gn/order/manage/ManageOrderService.kt:81-91 | exactly one notice for a non-null, non-Kotlin-blank route, none otherwise; the notice carries the exporter code, the importer plant, the route name and IMPORT |
| OrderServices.ManageOrderService.constructor | src/main/kotlin/br/com/gn/order/manage/ManageOrderService.kt:24-28 | the service works on the given repository and entity manager |
| OrderServices.ManageOrderService.Create | src/main/kotlin/br/com/gn/order/manage/ManageOrderService.kt:30-39 | as OrderService.Create; besides, the built order's route notice is sent on success and nothing is sent on any failure |
| OrderServices.ManageOrderService.Update | src/main/kotlin/br/com/gn/order/manage/ManageOrderService.kt:42-51 | as OrderService.Update; once the order is found, its notice is computed from the stored order before the update and is sent even when the later lookups fail |
| OrderFilters.FilterViolations | src/main/kotlin/br/com/gn/order/read/Filter.kt:14-57 | each variant's own field constraint: a non-blank destination or origin, a pattern-matching exporter or importer id, a non-blank number of at least ten characters; Neutral never fails |
| OrderFilters.BlankIdFilterViolations | src/test/kotlin/br/com/gn/order/manage/ManageOrderEndpointTest.kt:219-228 | a blank exporter or importer id reports both the blank and the pattern violation |
| OrderFilters.Execute | src/main/kotlin/br/com/gn/order/read/Filter.kt:14-57 | a query returns exactly the stored orders its variant selects (an equal destination, origin or number, that exporter or importer, or every order for Neutral) and passes the pageable on unchanged |
| OrderFilters.ValidIdFilterSelects | src/main/kotlin/br/com/gn/order/read/Filter.kt:32-41 | a valid exporter or importer filter selects exactly the orders whose exporter or importer has that id |
| OrderFilters.ByNumberFindsAtMostOne | src/main/kotlin/br/com/gn/order/Order.kt:36-41 | with unique numbers, a number filter finds at most one order |
| OrderFilters.ByNumberFindsOnlyTenCharacters | src/main/kotlin/br/com/gn/order/read/Filter.kt:46 | a valid number filter can only find an order whose number has exactly ten characters |
| OrderFilters.Chosen | src/main/kotlin/br/com/gn/order/OrderExtensions.kt:44-51 | each request case builds its own variant from its own field, and every other case builds Neutral |
| OrderFilters.ToFilter | src/main/kotlin/br/com/gn/order/OrderExtensions.kt:43-58 | a chosen filter with violations gives those violations and no filter; otherwise exactly the chosen filter, which any query can run |
| OrderFilters.Read | src/main/kotlin/br/com/gn/order/read/ReadOrderEndpoint.kt:21-35 | the filter's error, or its query run with the request's pageable; a request with no case set returns every order |

## Left out

- gRPC transport: the endpoints' StreamObserver and protobuf marshalling are not modelled. This covers OrderEndpoint, ManageOrderEndpoint, ReadOrderEndpoint and the other endpoints that only delegate, and the ErrorHandler's status mapping. Errors are the `Error` datatype instead.
- Persistence: generated ids are a `newId` parameter. The "id is null before save" window, cascades and fetch modes are not modelled.
- Transactions: rollback is not modelled. Each method states that the tables are unchanged on failure.
- Concurrency is not modelled.
- The Siscomex client is an oracle parameter, and its HTTP call is not modelled.
- The route gRPC stub is modelled by the returned `sent` sequences, not called. The Kafka producer is not part of this model.
- The Order entity file has no `route`, `update`, `updateObservation` or `updateReference`, though the services call them. They are modelled as the services and the endpoint tests use them.
- Orders.Updated ignores the request's route: the intended update shown by the endpoint tests sets only place, modal, necessity, responsible and deadline.
- The `toRequestModel` converters in OrderExtensions.kt build order DTOs with fields OrderDtos.kt lacks. They are not modelled.
- The extension mappers that only copy fields are not modelled, and neither are the data-only Route, RoutePoint, Alert and Status files beyond the `Status` datatype.
- Entity-level annotations that only persistence checks are not modelled: the order's @FutureOrPresent necessity, observation column length 1000, and the @Valid cascade into referenced rows. The request-level constraints are modelled.
- Item ids, the event id and the Item.order back-reference are not modelled. An item is its quantity and material.
- Orders.Order.Response: the quantity is shown as the decimal value, not as its BigDecimal.toString text.
- Orders.Order.Response states the event texts only for an empty event. No operation sets a milestone.
- Violations are sets, so two items with the same fault report one violation, where Bean Validation reports one per property path.
- Pagination: a `Page` holds every match together with the pageable it was given. Slicing, sorting and totals are not modelled.
- OrderServices.ManageOrderService: updateObservation, updateReference and delete are line for line those of OrderService, so they are modelled once, by OrderService.UpdateObservation, UpdateReference and Delete.
- Exporters.ExporterService.Create and Importers.ImporterService.Create: a duplicate is refused by the unique constraint, and for importers also by @Unique on the request's plant (ImporterDtos.kt:13). Neither validator's message is part of this model, so the model reports a duplicate as `AlreadyExists` with a message of its own choosing.
- Exporters.ExporterService.Update and Delete report a missing row as `Invalid`, because the Kotlin code throws IllegalArgumentException there and not ObjectNotFoundException. The same holds for Importers.
- Importers.NewImporterRequest carries the fiscal name and number that the Importer constructor needs, though the Kotlin request type omits them. Their constraints are taken from the entity (Importer.kt:21-22), whose messages the endpoint test expects.
- Importers.CnpjViolations checks the pattern only. The check digits that @CNPJ also computes are not modelled, because the endpoint test expects the pattern message alone for an empty number.
- Materials.MaterialService.Update: the endpoint test expects request-level violations for an empty update, including an id violation and "must not be null" on the unit price. The service code has no @Valid on update, so the model checks only the entity's constraints when the row is written, and it reports them before any change.
- Processes.ProcessService.Update: @ExistsResource on the responsible id (ProcessDtos.kt:35) is not modelled, because its validator is not part of this model. A missing responsible gives "Responsible not found with id X", the message the endpoint test expects.
- ValidUuid.ParseUuid: Java's UUID.fromString also accepts shorter groups such as "1-1-1-1-1", reads them as zero-padded numbers, and refuses a text over 36 characters with "UUID string too large". Bad hexadecimal digits raise a NumberFormatException of their own. The model accepts only the 36-character form and reports every refusal as "Invalid UUID string: X". This matters wherever an id reaches UUID.fromString without the @ValidUUID pattern before it: in the material, operation, delivery-place, exporter and importer services, and for the order's item and delivery-place ids.
- Lengths are counted in characters (`|s|`, Unicode scalar values). Bean Validation's @Size and Kotlin's `length` count UTF-16 code units, so the two differ on any character outside the Basic Multilingual Plane, which counts twice in the source. This affects every length bound: Validation.Size and Validation.SizeOpt as used for the exporter code, the importer plant (1 to 4), the material description (at most 100) and the order number (at most 10); OrderFilters.FilterViolations (number of at least 10) and OrderFilters.ByNumberFindsOnlyTenCharacters; OrderServices.ReferenceViolations (at most 20); and the 64-character local part in Validation.IsEmail.
- Materials.Search: DESCRIPTION is a case-sensitive literal substring match (`Text.Contains`). The source delegates to the repository's `findByDescriptionContains` (MaterialRepository.kt:14), a database LIKE query. Its case sensitivity, collation and treatment of `%` and `_` in the text depend on the database and are not modelled.
- Validation.Email: quoted local parts, bracketed IP-literal domains and the IDN conversion of non-ASCII domains are not modelled. Non-ASCII atom characters are accepted as they stand.
- StringUtils.ToLocalDate and StringUtils.ToBigDecimal take a blank text to be one that trims to empty (`Text.IsBlank`). StringUtils.kt is not part of this model, and it may use Kotlin's isBlank instead, which differs only on texts that mix Unicode spaces and control characters.
- Materials.MaterialService.Create and Update take the NCM description as the first hit of the search. The NCM search request and its other response fields are not modelled.
- The PaymentTerms, Incoterm, Currency and Modal enums are not part of this model. Their constants are names (`string`).
- Dates are limited to years 0000-9999, the dates the four-digit ISO form writes.
- BigDecimal has no exponent notation: `toBigDecimal` accepts a sign, digits and at most one point.
- `toEnum` treats exactly "UNKNOWN" as null. Its Kotlin source is not part of this model, and the tests fix only that text.
- OrderFilters.ByNumberFindsOnlyTenCharacters: the number filter needs at least ten characters while a stored number has at most ten, so a number read only finds ten-character numbers. This is modelled as written.
- OrderRequests.ToUpdateRequest looks a delivery-place id up whenever it is non-null, even when blank, as the code does. OrderRequests.ResolvePlace skips a blank one, as toModel does.
- OrderFilters.Chosen builds ByExporter from the request's `exporterCode` field, as the code does.
- ManageOrderService.update sends its notice before toUpdateRequest runs, so a notice is sent even when a later lookup fails. This is modelled as written in OrderServices.ManageOrderService.Update.
