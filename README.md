# Onyx record store, modelled in Dafny

Onyx is a web service that stores test results of devices under test (DUTs)
in MongoDB. Each record has a store identity (a 12-byte ObjectId), a DUT
header and a list of test steps. There are two families of records,
acoustic and process.

This project models the record store and the logic around it:

- the query engine and CRUD adapter `MongoDbService`: filter, sort and page
  building, get-one, create, update and delete on a named collection;
- the acoustic repository, which resolves an id-or-serial string and turns
  a rejected insert into null;
- the older generation: `MDBProcessDataService` and
  `MongoProcessDataRepository`, kept as a separate model (its filter has no
  date window and its update is keyed by serial number);
- the header validator of the older generation and the acoustic header
  validators;
- the decision branches of the two controllers, with the SignalR group
  broadcasts recorded in an outbox.

Layout, one module per file:

| file | module | models |
|---|---|---|
| wrappers.dfy | Wrappers | Option and Result |
| bson.dfy | Bson | ObjectId parse and format; BSON values and the store's sort order on them |
| strings.dfy | Strings | StartsWith, the whitespace test behind NotEmpty, Int32.ToString |
| driver.dfy | Driver | filter, Find, Sort, Skip/Limit, first match and removal, as the driver applies them |
| models.dfy | Models | records, the New and Short forms, the field-path view of a record |
| query_params.dfy | QueryParameters | QueryParams and its defaults |
| mongo_db_service.dfy | MongoDbServiceModel | DbContext/MongoDbService.cs |
| resolution.dfy | Resolution | the id-then-serial lookup both repositories use |
| acoustic_repository.dfy | AcousticRepository | Repositories/MongoAcousticDataRepository.cs |
| process_data_service.dfy | ProcessDataServiceModel | Services/MDBProcessDataService.cs |
| process_repository.dfy | ProcessRepository | Repositories/MongoProcessDataRepository.cs |
| header_validator.dfy | HeaderValidation | Services/Validators/DUTHeaderModelValidator.cs |
| acoustic_validator.dfy | AcousticValidation | the acoustic DUT and record validators |
| notifications.dfy | Notifications | the hub context as an outbox; group names |
| action_results.dfy | ActionResults | HTTP answers and the decisions both controllers share |
| process_controller.dfy | ProcessController | Controllers/ProcessDataController.cs |
| acoustic_controller.dfy | AcousticController | Controllers/AcousticDataController.cs |

The store is a class. It holds a map from (database, collection) names to
the sequence of records in collection order. The driver reads a record
through a field-path view: `"_id"` is the identity, and `"DUT.<name>"` is
the header element stored under that BSON name. A unique index on the
serial number is a property of the store class: an insert or update that
would duplicate an identity or a serial number fails with a write error and
changes nothing. The repositories do no check of their own.

A sort is a stable insertion sort on the store's order of BSON values:
first by type, then by value. Records with equal keys keep their collection
order. Paging is slicing that sorted sequence.

## Model

| member | source | states |
|---|---|---|
| Bson.ParseObjectId | Repositories/MongoAcousticDataRepository.cs:39 | ObjectId.Parse succeeds exactly on strings of 24 hexadecimal digits, in either case |
| Bson.ParseFormattedId | Repositories/MongoAcousticDataRepository.cs:39 | parsing the string form of an identity gives that identity back |
| Bson.FormatParsedId | Repositories/MongoAcousticDataRepository.cs:39 | every string that parses, written in lower case, is the string form of its identity; a lower-case one is exactly that form |
| Bson.KeyLeqTotal | DbContext/MongoDbService.cs:49 | any two field values are comparable in the sort order |
| Bson.KeyLeqTransitive | DbContext/MongoDbService.cs:49 | the sort order is transitive |
| Driver.EqualityFilterMeaning | DbContext/MongoDbService.cs:139-142 | the conjunction of Eq filters matches exactly the records whose fields all hold their values |
| Driver.Find | DbContext/MongoDbService.cs:48 | Find keeps exactly the records the filter matches |
| Driver.SortDocsSorted | DbContext/MongoDbService.cs:49 | Sort returns a permutation of its input ordered by the sort definition |
| Driver.SortDocsDistinct | DbContext/MongoDbService.cs:49 | sorting neither duplicates nor loses a record |
| Driver.PageIsSlice | DbContext/MongoDbService.cs:50-51 | a page is the slice [(page-1)*size, page*size) cut at the end |
| Driver.PagesDisjoint | DbContext/MongoDbService.cs:50-51 | different pages of a sequence without repeats share no record |
| Driver.FirstPagesArePrefix | DbContext/MongoDbService.cs:50-51 | pages 1 to k together are the first k*size records, in order |
| Driver.TwentyFiveInPagesOfTen | DbContext/MongoDbService.cs:50-51 | 25 records fill pages of 10, 10 and 5 and nothing is lost |
| Driver.FirstIndexWith | DbContext/MongoDbService.cs:69-70 | the first position whose key equals the value, or none when no record has it |
| Driver.FirstWithUnique | DbContext/MongoDbService.cs:69-70 | when keys are unique, looking up a record's key finds that record |
| Driver.RemoveAt | DbContext/MongoDbService.cs:122-123 | removing one record removes exactly one occurrence of it |
| Models.FromNew | Repositories/MongoAcousticDataRepository.cs:51 | the New-to-full mapping copies DUT and Steps and leaves the identity empty |
| Models.ToShort | Repositories/MongoProcessDataRepository.cs:62 | the short projection keeps identity and header; null maps to null |
| QueryParameters.DefaultQueryParams | Models/QueryParams.cs:11-36 | no filter lists, no sort field, IsAscending false, page 1 of 10 |
| QueryParameters.WrapInt32 | DbContext/MongoDbService.cs:50 | unchecked int arithmetic: the result is an int, equal to the exact value modulo 2^32, and is that value when it is an int |
| QueryParameters.OffsetWithoutWrap | DbContext/MongoDbService.cs:50 | while (Page-1)*PageSize fits in an int, the skip is that product |
| QueryParameters.WrappedOffsetRepeatsEarlyRecords | DbContext/MongoDbService.cs:50 | page 429496731 of 10 skips only 4 records, because the product wraps |
| QueryParameters.WrappedOffsetNegative | DbContext/MongoDbService.cs:50 | page 214748366 of 10 wraps to a negative skip, which the server refuses |
| MongoDbServiceModel.FieldFilterMeaning | DbContext/MongoDbService.cs:137-143 | a record matches iff each FilterField[i] holds FilterValue[i]; extra values are ignored |
| MongoDbServiceModel.DateBoundMeaning | DbContext/MongoDbService.cs:147-151 | Gte and Lte on a date hold for dates on or after, on or before the bound |
| MongoDbServiceModel.FilterFromQueryMeaning | DbContext/MongoDbService.cs:135-154 | the filter matches iff the field equalities hold and, when both dates are set, the creation date lies in the closed window |
| MongoDbServiceModel.NoCriteriaMatchesAll | DbContext/MongoDbService.cs:135-154 | with no filter fields and no complete window every record matches |
| MongoDbServiceModel.SingleDateBoundIgnored | DbContext/MongoDbService.cs:145-152 | a single date bound selects what no date bound selects |
| MongoDbServiceModel.BuildFilterFromQuery | DbContext/MongoDbService.cs:133-155 | the loop builds the filter whose meaning FilterFromQueryMeaning states |
| MongoDbServiceModel.SortingFromQuery | DbContext/MongoDbService.cs:164-176 | no sort field sorts ascending on "DUT.Serial"; otherwise on the field, ascending iff IsAscending |
| MongoDbServiceModel.SortByWithoutDirectionDescends | Models/QueryParams.cs:26 | a sort field given without a direction sorts descending |
| MongoDbServiceModel.ApplyUpdate | Repositories/MongoAcousticDataRepository.cs:64-66 | $set replaces the header and the steps it names and never the identity |
| MongoDbServiceModel.MongoDbService.QueryResultSound | DbContext/MongoDbService.cs:41-54 | every record of a page is stored and selected by the query; a page is sorted and at most PageSize long |
| MongoDbServiceModel.MongoDbService.QueryResultIsPage | DbContext/MongoDbService.cs:47-53 | while (Page-1)*PageSize fits in an int, a query returns page Page of its sorted matches |
| MongoDbServiceModel.MongoDbService.QueryPagesDisjoint | DbContext/MongoDbService.cs:47-53 | two pages of the same query share no record, while the later page's skip fits in an int |
| MongoDbServiceModel.MongoDbService.QueryPagesCover | DbContext/MongoDbService.cs:47-53 | pages 1 to k of a query are its first k*PageSize sorted matches, while page k's skip fits in an int |
| MongoDbServiceModel.MongoDbService.DefaultQueryResult | DbContext/MongoDbService.cs:41-54 | a request without parameters gets the first ten records sorted ascending on "DUT.Serial" |
| MongoDbServiceModel.MongoDbService.GetManyAsync | DbContext/MongoDbService.cs:41-54 | Find, Sort, Skip((Page-1)*PageSize) with the product in unchecked int arithmetic, Limit(PageSize) |
| MongoDbServiceModel.MongoDbService.GetOneAsync | DbContext/MongoDbService.cs:66-71 | the first record whose field equals the value, or null; nothing changes |
| MongoDbServiceModel.MongoDbService.CreateAsync | DbContext/MongoDbService.cs:81-87 | the inserted object itself is returned and appended; a duplicate is a write error that changes nothing |
| MongoDbServiceModel.MongoDbService.UpdateAsync | DbContext/MongoDbService.cs:98-107 | true iff a record matched and was modified; a no-op update is false; a miss changes nothing |
| MongoDbServiceModel.MongoDbService.DeleteAsync | DbContext/MongoDbService.cs:119-124 | the first matching record is removed and returned, or null and nothing changes |
| Resolution.ResolveIndex | Repositories/MongoAcousticDataRepository.cs:37-45 | a parsing string is looked up by identity only, any other string by serial number only |
| Resolution.Resolve | Repositories/MongoAcousticDataRepository.cs:34-47 | the resolved record is stored and has the parsed identity, or the serial number given |
| Resolution.ResolveFormattedId | Repositories/MongoAcousticDataRepository.cs:37-40 | a stored record's identity string resolves to that record |
| Resolution.IdShapedMissIsNull | Repositories/MongoAcousticDataRepository.cs:37-40 | an identity miss is null, with no serial fallback |
| Resolution.ResolveSerial | Repositories/MongoAcousticDataRepository.cs:42-45 | a serial number that cannot parse resolves to the record that carries it |
| Resolution.DeletedResolvesToNull | Repositories/MongoAcousticDataRepository.cs:72-85 | after the record a string resolves to is deleted, the same string resolves to null |
| Resolution.UnknownSerialIsNull | Repositories/MongoAcousticDataRepository.cs:42-45 | an unknown serial number resolves to null |
| AcousticRepository.AcousticStoreKeyed | Repositories/MongoAcousticDataRepository.cs:54-59 | in the acoustic store identities and serial numbers are unique |
| AcousticRepository.MongoAcousticDataRepository.Configure | Repositories/MongoAcousticDataRepository.cs:23-27 | later calls use the names given last |
| AcousticRepository.MongoAcousticDataRepository.GetManyAsync | Repositories/MongoAcousticDataRepository.cs:29-32 | the query runs unchanged against the configured collection |
| AcousticRepository.MongoAcousticDataRepository.GetOneAsync | Repositories/MongoAcousticDataRepository.cs:34-47 | the record the id-then-serial resolution designates |
| AcousticRepository.MongoAcousticDataRepository.CreateAsync | Repositories/MongoAcousticDataRepository.cs:49-60 | null on a write error, else the inserted record |
| AcousticRepository.MongoAcousticDataRepository.UpdateResult | Repositories/MongoAcousticDataRepository.cs:62-70 | true only when a record with the same identity existed and differed |
| AcousticRepository.MongoAcousticDataRepository.UpdateAsync | Repositories/MongoAcousticDataRepository.cs:62-70 | DUT and Steps of the record with the same identity are replaced; the identity is kept |
| AcousticRepository.MongoAcousticDataRepository.DeleteAsync | Repositories/MongoAcousticDataRepository.cs:72-85 | true iff the resolved record was removed; afterwards the same string resolves to null |
| ProcessDataServiceModel.FilterFromListsMeaning | Services/MDBProcessDataService.cs:72-85 | a record matches iff each filter field holds its value; no date window |
| ProcessDataServiceModel.EmptyListsMatchAll | Services/MDBProcessDataService.cs:76-77 | null or empty filter lists match every record |
| ProcessDataServiceModel.GenerationsAgreeWithoutWindow | Services/MDBProcessDataService.cs:72-85 | without a complete date window both generations select the same records |
| ProcessDataServiceModel.BuildFilterFromQuery | Services/MDBProcessDataService.cs:72-85 | the early return, then the loop of Eq filters |
| ProcessDataServiceModel.SortingFromQuery | Services/MDBProcessDataService.cs:87-99 | default ascending on "DUT.Serial", else on SortBy in the requested direction |
| ProcessDataServiceModel.SortingAgrees | Services/MDBProcessDataService.cs:87-99 | both generations build the same sort |
| ProcessDataServiceModel.MDBProcessDataService.QueryResultSound | Services/MDBProcessDataService.cs:20-32 | a page holds stored matching records, sorted, at most PageSize of them |
| ProcessDataServiceModel.MDBProcessDataService.QueryResultIsPage | Services/MDBProcessDataService.cs:25-29 | while (Page-1)*PageSize fits in an int, GetAllAsync returns page Page of the sorted matches |
| ProcessDataServiceModel.MDBProcessDataService.GetAllAsync | Services/MDBProcessDataService.cs:20-32 | Find, Sort, Skip((Page-1)*PageSize) with the product in unchecked int arithmetic, Limit(PageSize) |
| ProcessDataServiceModel.MDBProcessDataService.CreateAsync | Services/MDBProcessDataService.cs:34-38 | the inserted record, or a write error that changes nothing |
| ProcessDataServiceModel.MDBProcessDataService.GetOneAsync | Services/MDBProcessDataService.cs:40-44 | the first record whose field equals the value, or null |
| ProcessDataServiceModel.MDBProcessDataService.UpdateAsync | Services/MDBProcessDataService.cs:46-64 | null and no change without a record of that serial; else that record gets the new DUT and Steps under its own identity |
| ProcessDataServiceModel.MDBProcessDataService.DeleteAsync | Services/MDBProcessDataService.cs:66-70 | the first matching record is removed and returned, or null |
| ProcessRepository.MongoProcessDataRepository.constructor | Repositories/MongoProcessDataRepository.cs:18-23 | the hub is stored |
| ProcessRepository.MongoProcessDataRepository.GetManyAsync | Repositories/MongoProcessDataRepository.cs:25-28 | the query goes unchanged to GetAllAsync |
| ProcessRepository.MongoProcessDataRepository.GetOneAsync | Repositories/MongoProcessDataRepository.cs:30-43 | id-then-serial resolution |
| ProcessRepository.MongoProcessDataRepository.CreateAsync | Repositories/MongoProcessDataRepository.cs:45-56 | null on a write error, else the inserted record; nothing is broadcast |
| ProcessRepository.MongoProcessDataRepository.UpdateAsync | Repositories/MongoProcessDataRepository.cs:58-62 | the short projection of the serial-keyed update; nothing is broadcast |
| ProcessRepository.MongoProcessDataRepository.DeleteAsync | Repositories/MongoProcessDataRepository.cs:64-77 | the short projection of the resolved and removed record, or null |
| HeaderValidation.SuffixRuleMeaning | Services/Validators/DUTHeaderModelValidator.cs:26-35 | the suffix rule compares the last two characters with the digits of Track and Press |
| HeaderValidation.HeaderFailuresIffInvalid | Services/Validators/DUTHeaderModelValidator.cs:8-43 | no failure iff serial of 15 non-blank characters, TypeID, SystemType, Line non-blank, Track and Press in {1, 2}, WpcNumber set, and the serial ends in Track's then Press's digit |
| HeaderValidation.ValidSerialSuffix | Services/Validators/DUTHeaderModelValidator.cs:18-35 | a valid serial ends in two characters from {'1', '2'} |
| HeaderValidation.MissingTrackOrPressSkipsSuffix | Services/Validators/DUTHeaderModelValidator.cs:18-26 | without Track or Press only the range rule fails, never the suffix rule |
| HeaderValidation.EmptySerialFailsBothRules | Services/Validators/DUTHeaderModelValidator.cs:10-12 | an empty serial fails NotEmpty and Length |
| AcousticValidation.ProcessRuleFailuresIffInvalid | Services/Validators/AcousticData/AcousticDutModelValidator.cs:10-31 | no failure iff serial of 15 non-blank characters ending in '1'/'2' twice, non-blank TypeID, TypeName, TestSystem, WorkOrder, non-zero RunningNr, DutTime set |
| AcousticValidation.HeaderSerialPassesSuffixRule | Services/Validators/AcousticData/AcousticDutModelValidator.cs:24-30 | a serial valid for the process header passes the acoustic suffix rule |
| AcousticValidation.AcousticDutFailures | Services/Validators/AcousticData/AcousticDutModelValidator.cs:6-33 | the outer validator declares no rule and accepts every header |
| AcousticValidation.AcousticDataValidIffId | Services/Validators/AcousticData/AcousticDataValidator.cs:8-12 | a record is accepted iff its identity is set |
| AcousticValidation.NestedRulesNotApplied | Services/Validators/AcousticData/AcousticDataValidator.cs:11 | a header failing all nested rules is still accepted |
| Notifications.GroupOf | Controllers/AcousticDataController.cs:93 | the group is "G-" followed by the type identifier |
| Notifications.SameGroupIffSameType | Controllers/AcousticDataController.cs:93 | two type identifiers share a group iff they are equal |
| Notifications.SameGroupIffSameNumericType | Controllers/ProcessDataController.cs:109 | two numeric type identifiers share a group iff they are equal |
| Notifications.HubContext.SendToGroup | Controllers/ProcessDataController.cs:112 | a group send appends one broadcast |
| ActionResults.GetOneResult | Controllers/ProcessDataController.cs:64-69 | 404 naming the argument on null, else 200 with the record |
| ProcessController.ProcessDataController.constructor | Controllers/ProcessDataController.cs:20-28 | the repository is configured for "process_data" |
| ProcessController.ProcessDataController.GetMany | Controllers/ProcessDataController.cs:41-45 | 200 with the repository's page |
| ProcessController.ProcessDataController.GetOne | Controllers/ProcessDataController.cs:62-70 | 404 on null, else 200 |
| ProcessController.ProcessDataController.Subscribe | Controllers/ProcessDataController.cs:83-89 | 200 iff the client id starts with "IE50", else 401 |
| ProcessController.ProcessDataController.Create | Controllers/ProcessDataController.cs:102-115 | 409 naming the serial and no broadcast on null; else one broadcast to "G-" + TypeID and 201 |
| ProcessController.ProcessDataController.Update | Controllers/ProcessDataController.cs:128-132 | 200 with the repository's answer |
| ProcessController.ProcessDataController.Delete | Controllers/ProcessDataController.cs:146-155 | lookup first; 400 and no delete call when absent, else delete and 204 |
| ProcessController.CreateGroupsSeparateTypes | Controllers/ProcessDataController.cs:109 | records of different types go to different groups |
| AcousticController.AcousticDataController.constructor | Controllers/AcousticDataController.cs:22-30 | the repository is configured for "acoustic_data" |
| AcousticController.AcousticDataController.GetMany | Controllers/AcousticDataController.cs:40-44 | 200 with the query engine's page |
| AcousticController.AcousticDataController.GetOne | Controllers/AcousticDataController.cs:54-62 | 404 when the resolution finds nothing, else 200 |
| AcousticController.AcousticDataController.Subscribe | Controllers/AcousticDataController.cs:71-77 | 200 iff the client id starts with "IE50", else 401 |
| AcousticController.AcousticDataController.Create | Controllers/AcousticDataController.cs:86-99 | 409 and no broadcast on a rejected insert; else one broadcast to "G-" + TypeID and 201 |
| AcousticController.AcousticDataController.Update | Controllers/AcousticDataController.cs:108-112 | 200 with the repository's boolean; a store write error becomes 500 |
| AcousticController.AcousticDataController.Delete | Controllers/AcousticDataController.cs:122-131 | 400 and nothing removed when the lookup misses; else the resolved record is removed and 204 |

## Left out

- The MongoDB client, database and collection acquisition (DbContext/MongoDbService.cs:15-31, Services/MDBProcessDataService.cs:13-18) are replaced by in-memory collections. Operations are atomic; asynchrony and concurrent writers are not modelled.
- The identity InsertOne generates is a parameter (`generatedId`) of the create operations.
- The unique index on the serial number is an assumption of the store classes; the source does not show where it is created.
- Paging requires PageSize >= 1 and a skip that is not negative after the unchecked int product. The code checks neither: the server refuses a negative skip with an exception, which the model makes a precondition, and the driver's `Limit(0)` meaning "no limit" and negative limits are not modelled.
- MongoDbServiceModel.MongoDbService.QueryPagesDisjoint: holds only while the later page's skip fits in an int. Past 2^31-1 the skip wraps (QueryParameters.WrappedOffsetRepeatsEarlyRecords) and a page can repeat records of an earlier page.
- MongoDbServiceModel.MongoDbService.QueryPagesCover: holds only for pages whose skip fits in an int, for the same reason.
- Mongo does not fix the order of records with equal sort keys. The model keeps them in collection order, so the paging properties hold for that one fixed order.
- The literal paths "DUT.Serial" and "DUT.CreatedAt" are not element names of either header (the serial is stored as "serialnr" or "serial_nr"). In the acoustic store no record has a value there: the default sort keeps collection order and a complete date window selects nothing. The older generation's field view is a parameter of MDBProcessDataService, so there the model leaves open whether "DUT.Serial" has a value. No property claims an order by serial number.
- Models.Element: reads only "_id" and "DUT.<element name>". The driver also translates C# member names into element names ("DUT.SerialNr" into "DUT.serialnr", "Id" into "_id") and matches a path into the steps array ("Steps.stepname") when any step holds the value. With such paths MongoDbServiceModel.FieldFilterMeaning and ProcessDataServiceModel.FilterFromListsMeaning select no record and a sort on them keeps collection order, where the program selects and orders records.
- Bson.Rank: floats and decimals are opaque values ranked after strings. BSON sorts them with the integers by numeric value, so a sort on a field that holds an int in one record and a float in another orders them differently in the model.
- FromDate and ToDate are not declared in Models/QueryParams.cs:6-38; only DbContext/MongoDbService.cs:145-151 reads them. The model adds them as optional ticks so that the date window can be modelled.
- Eq compares BSON values, so a string filter value never matches an int field. The model keeps that typing; range bounds compare values of the same BSON type only.
- Resolution.ResolveIndex: ObjectId.Parse is modelled as accepting exactly 24 hexadecimal digits; other behaviour of the driver's parser is not modelled.
- MongoDbServiceModel.MongoDbService.UpdateAsync: only the $set of the whole header and step list that the repositories build is modelled, not arbitrary update definitions.
- AcousticValidation.ProcessRuleFailures: omits the ExecutionTime NotEmpty rule, because ExecutionTime is a float and is kept opaque.
- Floating-point and decimal values (ExecutionTime, step measurements and limits) are opaque scalars.
- String lengths count characters, not UTF-16 code units. `StartsWith("IE50")` is compared ordinally, not with the culture-sensitive comparison .NET uses by default.
- Exceptions the code does not catch are preconditions: FilterValue shorter than FilterField, a null FilterField with a non-empty FilterValue in the older filter builder, a serial number shorter than two characters in the validators, a null client id, and a repository used before Configure.
- DUTHeaderModel is not part of this model. Its fields are taken from its validator; TypeID, SystemType and Line are taken to be strings.
- No implementation of IMongoProcessDataRepository is part of this model. ProcessDataController therefore takes the repository's answers as parameters and records the calls it makes.
- JSON serialisation of a broadcast payload is a function parameter of the controllers.
- SignalR/DutUpdateHub.cs, authentication and authorization (Repositories/UserAuthRepository.cs, Controllers/AuthController.cs, DbContext/UserIdentitiesContext.cs), startup and wiring (Program.cs, Startup/ServicesConfiguration.cs, Data/MongoDBContext.cs) and HTTP attributes are transport or configuration with no logic to model.
- The AutoMapper profiles (Mappers/*.cs) are library configuration. New to full copies DUT and Steps; full to short keeps Id and DUT.
- The one-line validator wrappers (Services/Validators/*ProcessDataModelValidator.cs, NewAcousticDataModelValidator.cs) only delegate.
