# sheltertech-go in Dafny

A model of three parts of the sheltertech-go server, with proofs of what they promise.

**The Rails parameter reader** (`internal/news_articles`). Rack's bracketed keys build a tree of insertion-ordered
hashes and growing arrays, in place, on the heap. `ParamTree` is the pure ordered tree, `RackKeys` the key patterns
written as scanners, `RackInsert` the pure insertion of one pair, and `RackParams` the classes `ParamHash` and
`ParamArray` with an ownership set, whose methods refine it. `RackInsertLaws` says what one insertion does and does
not change, `RackNames` says what a name means by its parts, without scanning it, `RackRoundTrip` and `RackTrees`
write trees as pairs and read them back, `NilRemoval` drops nils from arrays, and `RequestParams` combines the sources
of a request. `RubyFloat`, `RubyInteger`, `RubyInspect` and `CastString` are the casts, each set against an
independent reader. `DateTokens`, `TimeOfDay`, `ZoneOffset` and `Calendar` turn captured date groups into an instant;
`DateReadings` and `CastReadings` say what each kind of text reads as.

**The search index** (`internal/searchindex` and the handlers). `OpenTimes` rounds opening hours to half-hour slots and
`IndexRecords` builds the records. `SiteTables` holds the rows and the two queries; the class `SearchIndex.Site` holds
rows and index, and `RecordContents` says when two records are equal. `SiteUpdates` are the commits of the handlers,
`SiteFrames` and `SiteSteps` say which records a commit can change. `SiteHandlers`, `AddressChanges`, `RowChanges`,
`RowRequests` and `DayRequests` are the handlers: together every request that writes a row shown by some record.
`SiteEffects` states the effect of each and `SiteRuns` puts them in sequence. `RecordMembers` says what each member of a
record reads, `CommittedRows` what each commit leaves in the rows, and `SiteStatuses` what runs show by statuses alone.

Two things matter: the index *mirrors* the rows when every approved row has its current record and nothing else is
there, and it is *visible* when exactly the approved rows have an object. Visibility holds through every run. The mirror
does not. Eight kinds of request leave approved records behind, and for each the exact condition is proved: unlinking,
editing or removing an address (services that show it outside the refreshed resource), deleting a note (its owner) or a
phone (its resource and that resource's services), creating or changing an instruction (its service), and renaming an
eligibility (the services that have it). Through whole runs each record is the one built right after the last request
that refreshed its object; so the index is in step exactly when the objects left behind since then still look the same.
A schedule day can be named by any text: the refresh after such a change fails exactly when an approved record shows a
day with a slot that is no weekday, and runs are stated for days that are weekdays.

**Change requests** (`internal/changerequest`, `internal/db`). `SqlStatements` reads the text of UPDATE and INSERT
statements and runs them on tables; `SqlTexts` proves that the written texts read back; `QueryBuilders` are the builders,
walking maps in an unknown order. `FieldOrder` is the stable order of the audit answer, `ServicePayload` splits a
payload, and `ServiceChange` and `ChangeRequests` are the transactions, in which any statement may fail.
`PayloadMeaning` says what a request means from its members to the committed row. `Users` is the saving of the signed-in
user, and `SavedUsers` whose row it writes.

Where the source changes state, the model does: classes, fields and loops, each method proved against a pure
specification, and the promised properties proved of that specification. Handlers run one at a time and one query is
one snapshot. The current time, the letter-case folding of emails, the printable characters, the compact JSON text and
the reformatting of stored timestamps are parameters.

The round trip of the Rack reader holds only under a condition: two neighbouring records of an array run together
unless the first leaf of the later one stands under fields that the earlier one has. `RackTrees.TreeRoundTrip` proves it
exactly then, at every depth.

Check the project with `dafny verify dfyconfig.toml`.

## Model

| member | source | states |
|---|---|---|
| RackKeys.SplitOf | internal/news_articles/rails_params.go:283-297 | Leading brackets, a bracket-free key and its closing brackets are cut off a name, and the rest is handed on, for every name of that form |
| RackKeys.ShapeOfArrayEnd | internal/news_articles/rails_params.go:310-315 | A name whose rest is "[]" appends to the array under its key |
| RackKeys.ShapeOfRecord | internal/news_articles/rails_params.go:284-322 | A name whose rest is "[][field]" stores in an element of the array under its key |
| RackKeys.ShapeOfField | internal/news_articles/rails_params.go:341-353 | A name whose rest is "[field]..." stores in the hash under its key |
| RackKeys.ShapeOf | internal/news_articles/rails_params.go:292-353 | Every name below a key is strictly shorter than the name, so reading a name ends |
| ParamTree.PutLaws | internal/news_articles/rails_params.go:56-71 | Setting a key stores it, leaves every other key alone, keeps an old key in its place, puts a new one last, and never repeats a key |
| RackParams.ParamHash.Set | internal/news_articles/rails_params.go:66-71 | On the heap, set changes the hash as an ordered map changes, and keys still lists the domain of values once each |
| RackParams.ParamArray.Append | internal/news_articles/rails_params.go:315 | Appending adds one item after the others; nothing is shared |
| RackParams.RackArray | internal/news_articles/rails_params.go:357-369 | The growing array under a key is found, or created when nothing is there, or refused when something else is; other keys stay |
| RackParams.RackHashHasKey | internal/news_articles/rails_params.go:378-394 | The loop over the pieces of a child name answers whether that path of hashes exists |
| RackParams.NormalizeRackParams | internal/news_articles/rails_params.go:292-355 | In-place insertion refines the pure insertion: same entries, same returned value, same refusals; the heap stays an unshared tree, and a refused name changes nothing |
| RackParams.ParseRackPairs | internal/news_articles/rails_params.go:222-250 | Reading decoded pairs in order builds exactly the tree of the pure insertion, or refuses exactly when that does |
| RackInsertLaws.RefusedIffClash | internal/news_articles/rails_params.go:305-353 | A name is refused exactly when a slot on its way holds a non-nil value of the wrong container kind |
| RackInsertLaws.FreshNeverRefuses | internal/news_articles/rails_params.go:333 | An empty hash accepts every name, so a new array element is always built |
| RackInsertLaws.OnlyTheTrailChanges | internal/news_articles/rails_params.go:292-355 | After a successful insertion every subtree off the written path is unchanged |
| RackInsertLaws.ReadBack | internal/news_articles/rails_params.go:305-353 | The value is found at the end of the written path |
| RackInsertLaws.KeylessStoresNothing | internal/news_articles/rails_params.go:298-303 | A name of brackets alone stores nothing; only "[]" with a value hands back a one-item list |
| RackInsertLaws.InsertWellKeyed | internal/news_articles/rails_params.go:66-71 | No hash anywhere in the tree ever repeats a key |
| RackInsertLaws.ParsedTreeBounds | internal/news_articles/rails_params.go:222-355 | After any list of pairs the tree is at most max(1, longest key) containers deep |
| RackRoundTrip.ReadTop | internal/news_articles/rails_params.go:222-355 | Reading back the pairs written for any writable tree gives the tree with its array records regrouped, in the same order, at every level |
| RackRoundTrip.RoundTrip | internal/news_articles/rails_params.go:222-355 | The round trip gives the same tree exactly when each record of an array starts with a key of the record before it |
| RackRoundTrip.SharedKeysSeparate | internal/news_articles/rails_params.go:327-338 | Records that share one key sequence always meet that condition |
| RackRoundTrip.RunTogetherExample | internal/news_articles/rails_params.go:327-338 | Two records without a common key run together into one |
| RackNames.StoredByName | internal/news_articles/rails_params.go:284-353 | For every tree, a key followed by fields in brackets and empty brackets is stored as its parts say, without scanning any text: in the hash or the array that each part asks for; below an array in the last record when that is a hash without the path, else in a new item; refused where another kind stands |
| RackNames.LooseBrackets | internal/news_articles/rails_params.go:285-297 | Brackets before the key and closing brackets after it change nothing |
| RackNames.OpenEnd | internal/news_articles/rails_params.go:308-309 | A lone opening bracket at the end stays part of the key |
| RackNames.Lands | internal/news_articles/rails_params.go:305-353 | The value is read again along the parts of the name: a field of a hash for each field, and for empty brackets the last item or one new after it |
| RackNames.RecordField | internal/news_articles/rails_params.go:317-340 | "k[][f][g]" puts its value at f, g of the last record of the array under k: it joins the last record exactly when that has no g below f, and is refused exactly where k holds no array or the joined f no hash |
| RackTrees.StoringGrows | internal/news_articles/rails_params.go:327-338 | Storing a leaf where its path did not lead only adds to the tree |
| RackTrees.ReadItem | internal/news_articles/rails_params.go:317-340 | A record written after right items is read back as itself, or spoils itself or the record that it joins for good |
| RackTrees.TreeRoundTrip | internal/news_articles/rails_params.go:222-355 | Trees of any depth, with hashes, lists and arrays of records inside records: reading back what was written gives the same tree exactly when in every array the first leaf of each record stands under fields that the record before it has |
| RackParams.NormalizeParam | internal/news_articles/rails_params.go:398-418 | Nil removal, read from the heap, is the pure nil removal |
| NilRemoval.NormalizeIsClean | internal/news_articles/rails_params.go:398-418 | No nil stays inside any array at any depth, and no builder array is left |
| NilRemoval.OutlineKept | internal/news_articles/rails_params.go:398-418 | Survivors keep their order, and every hash key, even with a nil value, keeps its place |
| NilRemoval.NormalizeCharacterised | internal/news_articles/rails_params.go:398-418 | Those two facts determine the result; it changes nothing exactly on clean trees, and is idempotent |
| RequestParams.MergedReads | internal/news_articles/rails_params.go:92-98 | Merging one hash into another: the second wins, and no key is repeated |
| RequestParams.WrappedReads | internal/news_articles/rails_params.go:99-107 | The wrapped hash holds exactly the attributes that the body has |
| RequestParams.ReadRequest | internal/news_articles/rails_params.go:82-114 | The loops that combine query, body, wrapper and path build the combined hash, nils removed |
| RequestParams.Precedence | internal/news_articles/rails_params.go:92-114 | Path over wrapped attributes over body over query, for every key; no nil inside any array |
| RubyFloat.PrintedValue | internal/news_articles/rails_cast.go:120-156 | Read as a decimal number, the printed float equals sign times digits times ten to exponent + 1 - number of digits, in every layout |
| RubyFloat.NotationChoice | internal/news_articles/rails_cast.go:133-155 | Fixed notation is used exactly when the decimal point position is in (-4, 15] |
| RubyFloat.FloatOfLayout | internal/news_articles/rails_cast.go:133-155 | The digits and the exponent are read back from the layout |
| RubyInspect.RubyStringInspect | internal/news_articles/rails_cast.go:227-249 | The loop over the characters builds the quoted and escaped string |
| RubyInspectReader.StringReads | internal/news_articles/rails_cast.go:227-249 | A reader recovers every string from its escaped form, whatever the printable characters are |
| RubyInspectReader.FloatReads | internal/news_articles/rails_cast.go:108-156 | A reader recovers every float, with infinities and not-a-number, from its printed form |
| RubyInspectReader.IntegerReads | internal/news_articles/rails_cast.go:108-115 | A reader recovers every integer from its printed form |
| RubyInspectReader.InspectReads | internal/news_articles/rails_cast.go:196-220 | A reader recovers every nesting of nil, booleans, numbers, strings, arrays and ordered hashes, and leaves the text after it |
| RubyInspectReader.InspectInjective | internal/news_articles/rails_cast.go:196-220 | Distinct values never print alike |
| CastString.NormalizedNumbers | internal/news_articles/rails_cast.go:24-42 | Whatever survives nil removal can be printed |
| CastString.CastsApart | internal/news_articles/rails_cast.go:24-42 | Two surviving parameters of one kind cast to one string only when they are equal |
| CastReadings.KindsPrint | internal/news_articles/rails_cast.go:23-43 | nil stays nil, strings are kept, booleans are t and f, and integers their decimal digits |
| CastReadings.ShortEscapes | internal/news_articles/rails_cast.go:227-249 | The ten characters with a letter of their own are written with a backslash and that letter |
| RubyInteger.RubyStringToI | internal/news_articles/rails_cast.go:161-192 | The one-pass loop reads the integer that the pure reading denotes |
| RubyInteger.ReadBack | internal/news_articles/rails_cast.go:161-192 | White space, a sign, digit groups with single underscores and a harmless tail read as the signed number |
| RubyInteger.PrefixIgnored | internal/news_articles/rails_cast.go:161-192 | A "0d" prefix changes nothing |
| RubyInteger.PrintedReadsBack | internal/news_articles/rails_cast.go:161-192 | Every printed integer reads as itself |
| RubyInteger.PrintedCasts | internal/news_articles/rails_cast.go:46-79 | castInteger returns every 32-bit value and errors beyond; castID (manager.go:271-302) returns every 64-bit value and nil beyond |
| CastReadings.KindsCast | internal/news_articles/rails_cast.go:47-82 | Booleans cast to one and zero, JSON numbers to themselves, infinite floats, nil, arrays and hashes to nil; a column too small errs or gives nil |
| CastReadings.TextCasts | internal/news_articles/rails_cast.go:55-59 | A text of Unicode white space casts to nil, any other text to the number that Ruby reads at its front |
| DateTokens.OrderTokens | internal/news_articles/rails_time.go:227-283 | The swaps on three variables give the ordered tokens |
| DateTokens.S3e | internal/news_articles/rails_time.go:227-283 | Each field is written from its token when there is one, and otherwise kept |
| DateTokens.TokensConserved | internal/news_articles/rails_time.go:227-283 | Year, month and day come from different input tokens; none is lost or used twice |
| DateTokens.LongNumberIsYear | internal/news_articles/rails_time.go:227-283 | Of three numbers the only one with more than two digits is the year wherever it stands |
| DateTokens.YearFirstAgreesWithYearLast | internal/news_articles/rails_time.go:227-283 | Y-M-D and D-M-Y name the same day |
| DateReadings.YearReads | internal/news_articles/rails_time.go:256-272 | A year token is its first number with the first of its signs, held at 64 bits, and counted back from 1 before Christ |
| DateReadings.NumberReads | internal/news_articles/rails_time.go:293-300 | A month or day token is its first number, and refused beyond 64 bits |
| DateReadings.YearTokenIsYear | internal/news_articles/rails_time.go:227-254 | Of three tokens the only long or quoted one is the year wherever it stands, as long as nothing follows its number |
| DateReadings.ClockReads | internal/news_articles/rails_time.go:112-132 | The hour is as written, or on the twelve-hour clock of its half of the day; minute and second are read when they are there |
| TimeOfDay.TwelveHourClock | internal/news_articles/rails_time.go:112-124 | Every hour of the day reads back from its twelve-hour form |
| TimeOfDay.NanosOfFraction | internal/news_articles/rails_time.go:133-136 | The nanoseconds are the fraction of a second, cut after nine digits |
| Calendar.CountsDays | internal/news_articles/rails_time.go:329 | The day count is the proleptic Gregorian calendar: it starts at the epoch and goes up by one a day |
| Calendar.DateUnique | internal/news_articles/rails_time.go:329 | Two dates with one day count are the same date |
| Calendar.ShownFieldsNameInstant | internal/news_articles/rails_time.go:306-331 | The fields that an instant shows at an offset name that instant again |
| Calendar.NamedInstantShowsFields | internal/news_articles/rails_time.go:306-331 | The fields of a real date and time are shown again at the instant they name |
| Calendar.DayOverflow | internal/news_articles/rails_time.go:306-331 | A day past the end of its month counts on into the next month |
| Calendar.HourTwentyFour | internal/news_articles/rails_time.go:324-329 | Hour 24 is one hour after hour 23, and is allowed only on the hour |
| Calendar.SecondSixty | internal/news_articles/rails_time.go:324-329 | Second 60 is one second after second 59; after hour 24 it is refused |
| DateReadings.PartsName | internal/news_articles/rails_time.go:306-331 | Missing dates come from today, but for a first of the month once a year or month is given, and missing times are zero; the fields name a time exactly when they are in range, so many seconds after the first of the month |
| ZoneOffset.SignNegates | internal/news_articles/rails_time.go:379-409 | The sign negates the offset, for every way of writing it |
| ZoneOffset.ColonIsOptional | internal/news_articles/rails_time.go:384-399 | The "+hh:mm" spelling (section 5.6 of RFC 3339) and the "+hhmm" spelling (section 3.3 of RFC 5322) give one offset |
| DateReadings.NumericReads | internal/news_articles/rails_time.go:354-409 | A numeric offset is given exactly by a sign and packed digits, digits between colons, or decimal hours cut to whole seconds, with the value they spell |
| DateReadings.NumericZone | internal/news_articles/rails_time.go:374-378 | A numeric offset may follow a name of Greenwich time |
| DateReadings.NamedZone | internal/news_articles/rails_time.go:358-372 | A named zone is its hours east of Greenwich, and one more in daylight time |
| DateReadings.LetterZones | internal/news_articles/rails_time.go:349-351 | The military letters count east from a and west from n, without j |
| DateReadings.DaylightZones | internal/news_articles/rails_time.go:344 | A daylight zone is an hour ahead of its standard zone |
| OpenTimes.OpenTimesOf | internal/searchindex/service.go:170-188 | The loops over days and minutes append the labels of the pure slots, or stop at the first day that is no weekday |
| OpenTimes.SlotCover | internal/searchindex/service.go:176-178 | Every open minute lies in exactly one emitted half-hour slot, and every emitted slot meets the opening hours |
| OpenTimes.LabelReads | internal/searchindex/service.go:183 | Each label gives back its weekday and its start minute |
| OpenTimes.LabelsDistinct | internal/searchindex/service.go:183 | Labels of different slots are different |
| OpenTimes.OpenTimesMeaning | internal/searchindex/service.go:170-188 | A slot of a weekday is listed exactly when it meets the hours of some entry for that day |
| OpenTimes.RefusedExactly | internal/searchindex/service.go:176-182 | The labels are refused exactly when some day has a slot and is no weekday |
| OpenTimes.LabelText | internal/searchindex/service.go:183 | A label is the day, the hour and two digits of minutes, on the hour or at half past |
| OpenTimes.Weekdays | internal/searchindex/service.go:171 | Exactly the seven weekdays have an abbreviation, their first one or two letters |
| IndexRecords.FillServiceRecord | internal/searchindex/service.go:72-161 | Filling the map member by member gives the service record, or an error when a timestamp or a day is bad |
| IndexRecords.FillResourceRecord | internal/searchindex/resource.go:46-96 | The same for the resource record |
| IndexRecords.HoursShown | internal/searchindex/service.go:107-160 | A service's own days win; without any it shows its resource's hours and says so; addresses is null exactly when there are none |
| RecordMembers.ServiceColumnsRead | internal/searchindex/service.go:72-106 | A service record has every column as stored, but for reformatted timestamps and the name of its attribution, its seven lists and an approved status, and no other member than those set |
| RecordMembers.ServiceOwner | internal/searchindex/service.go:94-95 | service_id and service_of read the id and the name of the resource |
| RecordMembers.ServiceKinds | internal/searchindex/service.go:96-105 | The categories are listed, and is_mohcd_funded says whether one of them is that |
| RecordMembers.ServiceAddresses | internal/searchindex/service.go:107-120 | The addresses are its own, or else those of its resource, item by item, or null |
| RecordMembers.ServicePlaces | internal/searchindex/service.go:121-137 | Each own address with both coordinates has its lat and lng, and null without; else the first address of the resource, else the origin |
| RecordMembers.ServiceHours | internal/searchindex/service.go:139-160 | The i-th item of the schedule has the day, opens_at and closes_at of the i-th shown day; the labels are those of the days that count |
| RecordMembers.ResourceColumnsRead | internal/searchindex/resource.go:46-75 | The same for a resource |
| RecordMembers.ResourcePlaces | internal/searchindex/resource.go:76-85 | A resource lists its addresses, and is placed at the first with zero for a missing coordinate |
| RecordMembers.ResourceHours | internal/searchindex/resource.go:86-94 | The i-th item of the schedule of a resource has its i-th day |
| RecordMembers.ServiceRows | internal/searchindex/service.go:189-223 | The record of a service reads its own row, the name of its resource and the names of its categories |
| RecordMembers.ServiceListRows | internal/searchindex/service.go:203-222 | Notes, documents, instructions, eligibilities and the boosted category are the service's own rows, phones and sites those of its resource |
| RecordMembers.ResourceRows | internal/searchindex/resource.go:98-116 | The record of a resource reads its own row and lists |
| RecordMembers.ServicesListed | internal/searchindex/resource.go:111 | The services of a resource are listed by name, in the order that the query gives |
| RecordContents.RecordTells | internal/searchindex/service.go:107-137 | A service's record is the same exactly when its addresses look alike on it |
| RecordContents.ListsTell | internal/searchindex/service.go:97-106 | A service's record is the same exactly when its categories and each of its seven lists are |
| RecordContents.ResourceTells | internal/searchindex/resource.go:46-96 | Two resources with the same columns have one record exactly when addresses as shown, days, categories and lists are the same; a missing coordinate and zero look alike |
| SiteTables.ObjectIdsDistinct | internal/searchindex/indexer.go:87-93 | Object ids of different rows are different, and no resource shares one with a service |
| SearchIndex.Site.RebuildResource | internal/searchindex/resource.go:12-32 | The object becomes the record built from the rows when the resource is approved and is missing otherwise; nothing else changes; an error leaves the index alone |
| SearchIndex.Site.RebuildService | internal/searchindex/service.go:14-34 | The same for a service |
| SearchIndex.Site.RebuildServices | internal/searchindex/resource_services.go:34-38 | All listed services are refreshed, or the loop stops having touched only those |
| SearchIndex.Site.RebuildResourceAndServices | internal/searchindex/resource_services.go:9-40 | The resource and each of its services are refreshed and no other entry changes |
| SearchIndex.Restored | internal/searchindex/resource_services.go:9-40 | An index that mirrors the rows mirrors the changed rows once the changed objects are refreshed |
| SearchIndex.InStepIff | internal/searchindex/resource_services.go:9-40 | After a refresh the index is in step exactly when no record outside the refreshed objects was left behind |
| SearchIndex.StillVisible | internal/searchindex/resource_services.go:9-40 | The same for showing exactly the approved rows |
| SearchIndex.MirrorsVisible | internal/searchindex/resource_services.go:9-40 | A mirror shows exactly the approved rows |
| SiteFrames.ResourceRowChanges | internal/searchindex/resource_services.go:9-10 | A changed resource row shows on its own record, and on those of its services only when its name changes |
| SiteFrames.ServiceRowChanges | internal/searchindex/service.go:192-222 | A changed service row shows on its own record, and on its resource's only when its name changes |
| SiteFrames.PartsLeave | internal/searchindex/service.go:189-223 | Changed addresses, schedules and attached rows show on the records of their owners, and those of a resource on its services, and nowhere else |
| SiteFrames.ListLeftBehind | internal/searchindex/service.go:189-223 | A changed list of notes, phones or instructions is left behind exactly on the approved records that show it |
| SiteFrames.NameLeftBehind | internal/searchindex/service.go:211-212 | A renamed eligibility is left behind exactly on the approved services that have it |
| SiteSteps.SoundBuilds | internal/searchindex/service.go:82-90 | From rows with parsable timestamps, weekday names and existing resources every record can be built |
| SiteSteps.DeactivateResourceLeaves | internal/db/resources.go:102-141 | Deactivation changes the records of the resource and of its approved services, and no other |
| SiteSteps.NoApprovedServiceLeft | internal/db/resources.go:102-141 | The resource and exactly its approved services become inactive; every other row stays |
| SiteSteps.CreatedApproved | internal/db/services.go:293-372 | Exactly the created services are new; they are approved and belong to the resource |
| SiteSteps.DeactivateServiceLeaves | internal/db/services.go:141-182 | Deactivation of a service changes its own record and its resource's |
| SiteSteps.CreateServicesLeaves | internal/db/services.go:293-372 | Created services change the record of their resource and get new ids |
| SiteSteps.EditResourceLeaves | internal/db/resources.go:143-201 | An edit of a resource changes only the records that are then refreshed |
| SiteSteps.EditServiceLeaves | internal/db/service_change_requests.go:49-139 | An edit of a service changes its own record and its resource's |
| CommittedRows.EditedResource | internal/db/resources.go:143-201 | An edit writes the status and the name that it gives and keeps those that it does not; named columns have their requested values, updated_at is now, every other column and row stays |
| CommittedRows.CertifiedResource | internal/db/resources.go:244-256 | Certified, its time and updated_at are written, and nothing else |
| CommittedRows.DeactivatedResource | internal/db/resources.go:102-141 | The resource and exactly its approved services become inactive with a new updated_at |
| CommittedRows.DeactivatedService | internal/db/services.go:141-182 | The service becomes inactive and its resource is touched |
| CommittedRows.EditedService | internal/db/service_change_requests.go:141-156 | Named columns and the name have their requested values, the rest stays, and the resource is touched |
| CommittedRows.EditedLists | internal/db/service_change_requests.go:78-106 | Categories and eligibilities read back as the supplied lists; a list that is not supplied, and every other list, stays |
| CommittedRows.CreatedServices | internal/db/services.go:293-372 | Each created service is approved with its name, columns, timestamps, associations, notes, instructions and schedule under its own number; everything else stays |
| CommittedRows.ChangedRow | internal/db/notes.go:103-172 | A changed row changes one value of its own list and no other |
| CommittedRows.DroppedRow | internal/db/notes.go:54-66 | A deleted row takes one value out of its own list and nothing else |
| CommittedRows.EditedAddressRow | internal/db/addresses.go:223-269 | An edited address changes its own look and touches its resource |
| CommittedRows.RemovedAddressRow | internal/db/addresses.go:271-315 | A removed address takes out its row and its links |
| CommittedRows.EditedDayRow | internal/db/schedules.go:111-163 | The day with the id goes or has the parts that are given, in its place; the resource behind it is touched |
| CommittedRows.AddedDayRow | internal/db/schedules.go:165-230 | A new day stands last in its schedule with the parts that are given |
| SiteHandlers.DeleteResource | internal/resources/manager.go:92-134 | Answers, rows and index: an index in step stays in step; refusals change nothing |
| SiteHandlers.DeleteService | internal/services/manager.go:411-459 | The same, with the parent rebuilt before the object is deleted |
| SiteHandlers.InsertOne | internal/db/services.go:303-363 | One service: the loops over categories, eligibilities, notes, instructions and schedule days add exactly its rows |
| SiteHandlers.InsertCreated | internal/db/services.go:293-372 | The loop over the services gives consecutive ids and the touched resource |
| SiteHandlers.CreateServices | internal/services/manager.go:543-618 | Created services are in the index, their resource is refreshed; a missing resource rolls back |
| SiteHandlers.Certify | internal/resources/manager.go:193-218 | A certified resource is refreshed |
| SiteHandlers.CreateResourceNote | internal/resources/manager.go:140-178 | A note touches and refreshes its resource |
| SiteHandlers.CreateServiceNote | internal/services/manager.go:470-515 | A note of a service refreshes the service and does not touch its resource |
| SiteHandlers.AddAddress | internal/services/manager.go:175-210 | A new link refreshes the service; an old one changes nothing |
| SiteHandlers.FinishChangeRequest | internal/changerequest/parity.go:17-32 | The resource of a change request is touched and refreshed with its services, and fails exactly when one of their records cannot be built; without a resource nothing happens |
| SiteHandlers.EditResource | internal/changerequest/manager.go:119-127 | An edited resource leaves the index in step, and is in the index exactly when the status that the edit gives, or else the old one, is approved; a missing one is refused |
| SiteHandlers.EditService | internal/changerequest/service_change_request.go:71-88 | An edited service leaves the index in step, with or without a resource |
| AddressChanges.RemoveServiceAddress | internal/services/manager.go:358-390 | The service is not refreshed: the index stays in step exactly when the service is not approved or did not have the address |
| AddressChanges.EditAddress | internal/db/addresses.go:223-269 | In step exactly when no approved service outside the refreshed ones is linked to the address, or it looks as before |
| AddressChanges.RemoveAddress | internal/db/addresses.go:271-315 | In step exactly when no approved service outside the refreshed ones is linked to the address |
| RowChanges.DeleteRow | internal/notes/manager.go:30-50 | A deleted note, or phone (internal/phones/manager.go:32-57), refreshes nothing: in step exactly when no approved record shows the row; a note shows on its owner, a phone on its resource and its services |
| RowChanges.CreateInstruction | internal/instructions/manager.go:44-65 | A new instruction refreshes nothing: in step exactly when its service is not approved |
| RowChanges.UpdateInstruction | internal/instructions/manager.go:95-126 | A changed instruction refreshes nothing: in step exactly when its service is not approved or the text is the same |
| RowChanges.UpdateEligibility | internal/eligibilities/manager.go:128-174 | A renamed eligibility refreshes nothing: in step exactly when no approved service has it or the name is the same; a taken name is refused |
| RowChanges.RenamesUnique | internal/eligibilities/manager.go:128-174 | A rename is refused exactly when unique names would not stay unique |
| RowRequests.EditNote | internal/db/notes.go:103-172 | An edited note refreshes the resource that it reaches, with its services, and leaves the index in step |
| RowRequests.EditPhone | internal/db/phones.go:87-157 | The same for an edited phone |
| RowRequests.CreatePhone | internal/db/phones.go:36-85 | The same for a new phone |
| RowRequests.CreateAddress | internal/db/addresses.go:391-436 | The same for a new address, whose number no service is linked to |
| DayRequests.FinishRefused | internal/searchindex/service.go:176-182 | With sound columns the refresh after a change request fails exactly when an approved record of the resource shows a day with a slot that is no weekday |
| DayRequests.EditScheduleDay | internal/changerequest/manager.go:572-612 | A changed day leaves the index in step unless the refresh fails, and says exactly when; the rows are committed either way |
| DayRequests.CreateScheduleDay | internal/changerequest/manager.go:614-650 | The same for a new day |
| DayRequests.ScheduleReaches | internal/db/schedules.go:118-122 | A change of a day reaches the resource of its schedule, or else of the service of its schedule |
| SiteEffects.EffectBehind | internal/searchindex/resource_services.go:9-40 | Whatever the request, outside the objects it refreshes exactly the stated records are left behind |
| SiteRuns.Handle | internal/changerequest/parity.go:17-32 | For each of the twenty-three requests that write indexed rows, from sound rows: no failure after the commit, the rows of its effect, exactly its objects refreshed, approved rows still visible, and in step exactly when nothing is left behind |
| SiteRuns.Serve | internal/resources/manager.go:92-218 | Through every run a resource or service is in the index exactly when its row is approved; each record is the one built right after the last request that refreshed its object; the index is in step exactly when the objects left behind since then still look the same |
| SiteStatuses.Simulates | internal/changerequest/manager.go:119-127 | Each of the twenty-three requests moves the statuses of the rows as a machine over statuses alone says: only removals, creations and edits that give a status move it |
| SiteStatuses.ShownAfter | internal/resources/manager.go:92-218 | After every run the index shows exactly the resources and services that the machine ends with as approved |
| SiteRuns.InStepAfter | internal/searchindex/resource_services.go:9-40 | An index that follows a run is in step exactly when the late objects have the record of the rows they were last built from |
| SiteRuns.LeftBehindIsStale | internal/searchindex/resource_services.go:9-40 | A record that a request leaves behind is stale right after it, unless it was late before |
| SiteRuns.ChangedBack | internal/instructions/manager.go:95-126 | A text changed and changed back leaves its service late although the rows are as before, so being late is not being stale |
| SiteRuns.StaleExample | internal/services/manager.go:358-390 | A concrete index in step that is stale after an address is unlinked |
| SqlTexts.UpdateReads | internal/db/utils.go:10-32 | The text of every update, with or without spaces around the equals signs, reads back as that update |
| SqlTexts.InsertReads | internal/db/utils.go:36-62 | The text of every insert reads back as that insert |
| QueryBuilders.UpdateWrites | internal/db/utils.go:22-31 | Run with its arguments on any database, the update writes exactly its values and updated_at to exactly its row, each placeholder once; it is refused when updated_at is named twice |
| QueryBuilders.BuildUpdateQuery | internal/db/utils.go:10-32 | For every walk of the map, the statement writes exactly the requested allowed columns of exactly that id |
| QueryBuilders.BuildInsertQuery | internal/db/utils.go:36-62 | For every walk of the map, columns, placeholders and arguments line up: the new row holds exactly the requested allowed columns and both timestamps |
| QueryBuilders.BuildAddressUpdateQuery | internal/db/addresses.go:366-389 | The same for the editable columns of an address |
| QueryBuilders.BuildScheduleDayUpdate | internal/db/schedules.go:237-266 | The same for the provided columns of a schedule day; no column gives no statement |
| QueryBuilders.BuildServiceUpdate | internal/db/service_change_requests.go:141-156 | The same for the named fields of a service; a repeated name is refused |
| FieldOrder.FieldPositions | internal/changerequest/parity.go:35-64 | The positions are the places of the member names, in the nested field changes when they are there |
| FieldOrder.ComparatorsAgree | internal/changerequest/parity.go:67-77 | The two comparators are one order |
| FieldOrder.SortFields | internal/changerequest/parity.go:65-78 | The in-place sort gives the stable order: rank by rank, each group in its old order |
| FieldOrder.RequestOrder | internal/changerequest/service_change_request.go:130-140 | Named fields come in the order of the request, then the others in their old order |
| FieldOrder.NamedPartFixed | internal/changerequest/service_change_request.go:130-140 | The named part does not depend on the order the fields start in |
| ServicePayload.ReadItems | internal/changerequest/service_change_request.go:244-309 | Every item of a list becomes an association or refuses the request |
| ServicePayload.ParsePayload | internal/changerequest/service_change_request.go:104-142 | The loops and sorts split the payload as its meaning says |
| ServicePayload.AuditCovers | internal/changerequest/service_change_request.go:144-215 | The audit keeps exactly the column writes, each name once, and one entry for each replaced list |
| ServicePayload.AnswerMatchesAudit | internal/changerequest/service_change_request.go:130-140 | The answer names the same fields in the same order as the audit rows |
| PayloadMeaning.RequestSays | internal/changerequest/service_change_request.go:104-239 | From the members of the request alone: each scalar that it has is one column, one audit field and one answer field with the value it says, each list one audit and one answer field, and there is no other |
| PayloadMeaning.TextSays | internal/changerequest/service_change_request.go:230-233 | A text is stored, audited and answered as the text itself |
| PayloadMeaning.RequestLists | internal/changerequest/service_change_request.go:244-289 | A request is accepted exactly when it asks with an object and its lists can be read; its associations are what the lists say |
| PayloadMeaning.ItemSays | internal/changerequest/service_change_request.go:287-309 | An item is a number, a number in quotes, an object with a non-zero id, or null for zero, and nothing else |
| PayloadMeaning.AtoiExactly | internal/changerequest/service_change_request.go:300-306 | A number in quotes is exactly a sign, zeros and the decimal digits of a 64-bit number |
| ServiceChange.AssociationsReplaced | internal/db/service_change_requests.go:78-106 | A supplied list replaces exactly the rows of that service; other services keep theirs |
| ServiceChange.ChangeStore.UpdateServiceChangeRequest | internal/db/service_change_requests.go:49-139 | All or nothing, whichever statement fails; a commit makes exactly the stated changes |
| ServiceChange.AuditReplays | internal/db/service_change_requests.go:70-133 | Replaying the stored scalar fields on the old row gives the committed row |
| PayloadMeaning.CommitSays | internal/db/service_change_requests.go:55-76 | The committed row has each scalar that the request says, as it is stored, and the time; its other columns and every other row stay |
| PayloadMeaning.CommitLists | internal/db/service_change_requests.go:78-120 | The association rows are the supplied lists, and one pending request row names the service and its resource |
| ServiceChange.UpdateService | internal/changerequest/service_change_request.go:50-102 | From payload to commit: refused before anything is written, committed as it reads, or not at all |
| ChangeRequests.StatusNames | internal/changerequest/manager.go:144-157 | The audit keeps the status name that the request used, for exactly the four known codes |
| ChangeRequests.AuditSays | internal/db/resources.go:185-199 | Each change is audited once, a status under its name and any other value as it is |
| ChangeRequests.DayBelongs | internal/db/schedules.go:118-122 | The resource of a day is that of its schedule, or else of the service of its schedule |
| ChangeRequests.NewDaySays | internal/db/schedules.go:179-203 | A new day has its name, the given times, its schedule and both timestamps |
| ChangeRequests.ResourceStore.UpdateResource | internal/db/resources.go:143-201 | All or nothing; a commit needs the resource, writes the allowed columns and one audit row for each change, in any order |
| ChangeRequests.ChangeScheduleDay | internal/db/schedules.go:124-137 | The row is deleted, updated or left as the provided columns say |
| ChangeRequests.DayWritten | internal/db/schedules.go:237-266 | The row that is written holds the changed day |
| ChangeRequests.DayStore.UpdateScheduleDay | internal/db/schedules.go:111-163 | All or nothing; without a failing statement it commits exactly when the resource behind the day is known, with one request row and its audit |
| ChangeRequests.DayStore.InsertScheduleDay | internal/db/schedules.go:165-230 | The same for a new day, which needs a name unless both times are null |
| ChangeRequests.DayKept | internal/db/schedules.go:232-235 | The row goes exactly when both times are given as null; unnamed columns and other rows stay |
| Users.UserStore.UpdateUser | internal/db/users.go:103-126 | An update that does not hit exactly one row, or whose email another row holds, is rolled back |
| Users.UserStore.SaveUser | internal/users/manager.go:38-128 | Lookup, reconciliation and creation change the rows and answer as the pure call does |
| SavedUsers.SavesCaller | internal/users/manager.go:38-141 | A successful call writes exactly the caller's row, found by identity, else as the only one with the email, else new: its identity, its stripped email, and the name and organization that are given and not blank; every other row stays |
| SavedUsers.TrimStrips | internal/users/manager.go:47 | Trimming leaves what stands between the white space at both ends |
| SavedUsers.StripsOnce | internal/users/manager.go:130-141 | There is one way to strip a string |
| Users.SavedKeepsUnique | internal/users/manager.go:38-128 | A call keeps external ids, emails and row ids unique |
| Users.FailsExactly | internal/users/manager.go:38-128 | A call fails exactly when the caller's row would change and another row holds the email, or no row is the caller's and several have the email but for case |
| Users.UserStore.SaveAll | internal/users/manager.go:38-128 | So does every sequence of calls |
| Users.SavingTwice | internal/users/manager.go:113-128 | Repeating a successful call changes nothing and succeeds |

## Left out

- Routing, headers, ETags, logging, metrics, authentication, translation, PDF, text messages and the Algolia client: plumbing and foreign calls.
- The regular expressions of the date parser: their captured groups are inputs. The key patterns of Rack are scanners.
- The JSON tokenizer, percent-decoding, multipart reading, phone numbers and the shortest float digits: the model starts from decoded pairs, members and digit strings.
- The select queries, column types and triggers of PostgreSQL: a query is one function of the tables. Foreign keys and unique indexes are those that a handler can meet: the resource of a new service, phone, address or change request, the service of an instruction, the name of an eligibility and the email of a user. Join tables have none.
- RackParams.NormalizeParam: gives a value tree instead of new hash objects; nothing changes them afterwards.
- RequestParams.ReadRequest: combines value trees; in the source the combined hash shares its subtrees with query and body, which are not used again.
- ZoneOffset.SignNegates: the model reads "+5.5" exactly, where the source goes through a 64-bit float, and has no limit on the number of digits.
- RubyInteger.PrintedCasts: float literals are cut to an integer by a parameter, as their binary rounding is not modelled.
- FieldOrder.SortFields: is the insertion sort, which is all that the library's stable sort does up to twenty fields; the stated order is the only one a stable sort can give.
- ServicePayload.ParsePayload: needs distinct member names in the ordering object (section 4 of RFC 8259); member names are matched exactly, where the JSON decoder also ignores letter case inside items.
- AddressChanges.EditAddress: takes the new look of the address as one value; its change-request and audit rows are those of the builders. The same holds for the new phone of RowRequests.EditPhone.
- RowRequests.EditNote: a note, phone or schedule has one owner; rows that name both a resource and a service are not modelled.
- Failing index calls: the handlers that only log a failed deletion are modelled with deletions that succeed.
- Indexing switched off (`NoopIndexer`): the index then stays empty.
- QueryBuilders.BuildUpdateQuery: states what is written when the id column is called id, which is what every caller passes.
- SqlStatements.Execute: updates and inserts in the shape of the builders, addressed by the column id; a column that is itself called id is not renamed in the key.
- Rows that no request writes (names of categories, keywords, sites, documents) are as they are found.
- Folders, bookmarks, reads of categories and eligibilities, datathon and the copies between row and answer types: thin reads and writes that would add only easy members.
