# Dragon Copilot extension samples and partner tooling, modelled in Dafny

This project models the decision logic of the Dragon Copilot extension samples and of the partner tooling around them. Each model states and proves what that logic promises.

- **Python sample extension** (module `SampleExtension`). `ProcessingService.process` takes a Dragon Standard Payload and returns three responses:
  - the clinical entities found in each note resource by case-insensitive keyword groups for blood pressure, diabetes and medication;
  - an adaptive card listing those entities;
  - a composite plugin result holding a medication summary card and a timeline card.
  The service is a class. Its uuid generator and UTC clock are counters over a clock function, and its keyword table is a field.
- **Manifest helpers of the command-line tools**:
  - connector note-section normalisation (`NoteSections`);
  - the partner integration description builder (`IntegrationDescription`);
  - the text rewrites applied after YAML dumping (`ManifestYaml`);
  - the business rules and result combining of the manifest schema validator, its field-schema walk and its field display names (`SchemaValidator`, over the JavaScript values of `Json`);
  - the context-item catalog and its default item list (`ContextItems`);
  - the answer validators, integration-name normaliser, list reader and manifest field builder of the partner CLI prompts (`Prompts`, `PromptInputTypes`).
- **Browser manifest builder**:
  - the ordering of note sections (`WebNoteSections`);
  - the manual note-section editor, a class holding the available keys and the section structure (`ManualNotes.ManualNoteState`), with a proof that every key stays in exactly one place, and the reading of note sections off the editor.
- **Backend simulator**. An encounter goes from Created to Completed or Failed from the outcome of its extension call (`EncounterService`). The HTTP outcome is an input.
- **Sample extension web host**:
  - the public routes (`KnownRoutes`);
  - license-key authorization (`Authorization`, `LicenseKeyAuthorization`, `AuthorizationServiceModel`).
- **Shared text operations** (`Text`). These follow JavaScript's `trim`, ASCII case mapping, `split`/`join`, substring search and the regular-expression run replacement the helpers use.

## Model

Functions that only compute a value have no row of their own when their properties are stated by lemmas or methods; the rows of those lemmas and methods name them.

| member | source | states |
|---|---|---|
| Text.TrimStart | tools/partner-integration-cli/src/shared/prompts.ts:61 | the longest suffix that does not start with white space; everything removed is white space |
| Text.TrimEnd | tools/partner-integration-cli/src/shared/prompts.ts:61 | the longest prefix that does not end with white space; everything removed is white space |
| Text.TrimShape | tools/partner-integration-cli/src/shared/prompts.ts:61 | `Trim` gives a slice of the input with only white space around it, and is empty or has no white space at either end |
| Text.TrimIdempotent | tools/partner-integration-cli/src/shared/prompts.ts:61 | trimming twice is trimming once |
| Text.BlankIffAllWhitespace | tools/partner-integration-cli/src/shared/prompts.ts:135 | `!input.trim()` holds exactly when the input is made of white space only |
| Text.Upper | samples/DragonCopilot/Workflow/pythonSampleExtension/app/service.py:56 | same length, every character upper-cased |
| Text.Lower | tools/partner-integration-cli/src/shared/prompts.ts:71 | same length, every character lower-cased |
| Text.LowerOfNoUpper | tools/partner-integration-cli/src/shared/prompts.ts:71 | lower-casing a text without upper-case letters changes nothing |
| Text.Split | tools/partner-integration-cli/src/shared/prompts.ts:60 | at least one piece, none holding the separator |
| Text.JoinSplit | tools/partner-integration-cli/src/shared/prompts.ts:60 | joining (`Join`) the pieces of a split with the separator gives back the text |
| Text.ReplaceRuns | tools/partner-integration-cli/src/shared/prompts.ts:72-73 | the result holds only the replacement and characters of the input outside the class, and is empty iff the input is; the characters it keeps, in order, are stated by ReplaceRunsKeeps |
| Text.KeepAppend | tools/partner-integration-cli/src/shared/prompts.ts:72-73 | the characters a filter (`Keep`) keeps from a concatenation are those it keeps from each part, in order |
| Text.KeepTrim | tools/partner-integration-cli/src/shared/prompts.ts:70 | trimming drops no character that is not white space: a filter that rejects white space keeps the same characters, in the same order, from the trimmed and the untrimmed text |
| Text.ReplaceRunsKeeps | tools/partner-integration-cli/src/shared/prompts.ts:72-73 | replacing runs keeps every character outside the class, in order and with none added: a filter rejecting the class and the replacement keeps the same characters from the result as from the input |
| Text.ReplaceRunsPlainPrefix | tools/partner-integration-cli/src/shared/prompts.ts:72-73 | a prefix without class characters passes through the replacement unchanged |
| Text.ReplaceRunsOneSeparator | tools/partner-integration-cli/src/shared/prompts.ts:72-73 | two words without class characters joined by one class character come out joined by the replacement |
| Text.ReplaceRunsCollapses | tools/partner-integration-cli/src/shared/prompts.ts:72-73 | after the runs of a class are replaced by a member of that class, every class character left is the replacement and is followed by no class character |
| Text.ReplaceRunsOfCollapsed | tools/partner-integration-cli/src/shared/prompts.ts:73 | replacing runs in a text whose runs are already single changes nothing |
| Text.NatToString | samples/DragonCopilot/Workflow/pythonSampleExtension/app/service.py:131 | a non-empty string of decimal digits whose value is the number |
| Text.NatToStringInjective | samples/DragonCopilot/Workflow/pythonSampleExtension/app/service.py:131 | different numbers have different decimal texts |
| Json.Prop | tools/dragon-copilot-cli/src/shared/schema-validator.ts:146 | `value?.key` is defined iff the value is an object holding the key, and is then that field |
| Json.Truthy | tools/dragon-copilot-cli/src/shared/schema-validator.ts:167 | `Boolean(value)` is false exactly for null, false, 0 and the empty string; every array and object is truthy |
| Json.Render | tools/dragon-copilot-cli/src/shared/schema-validator.ts:212 | `${value}` of a string is the string itself; a number renders as non-empty text that starts with '-' iff it is negative |
| Authorization.FirstHeaderValue | samples/DragonCopilot/Workflow/SampleExtension.Web/Services/LicenseKeyAuthorizationService.cs:46 | the first value sent under the header name, and none when the header is absent or has no values |
| Authorization.Success | samples/DragonCopilot/Workflow/SampleExtension.Web/Services/AuthorizationResult.cs:25 | a success result is authorized and carries no failure reason |
| Authorization.Failure | samples/DragonCopilot/Workflow/SampleExtension.Web/Services/AuthorizationResult.cs:32 | a failure result is not authorized and carries exactly the given reason |
| Authorization.MissingHeaderReasonsDistinct | samples/DragonCopilot/Workflow/SampleExtension.Web/Services/LicenseKeyAuthorizationService.cs:51-59 | the missing-header reason names the header (different headers give different reasons) and never equals "Invalid license key" |
| LicenseKeyAuthorization.Authorize | samples/DragonCopilot/Workflow/SampleExtension.Web/Services/LicenseKeyAuthorizationService.cs:36-64 | throws exactly for a null request; every result is well formed; authorized iff checking is disabled or the first header value equals the valid key exactly |
| LicenseKeyAuthorization.DisabledAlwaysSucceeds | samples/DragonCopilot/Workflow/SampleExtension.Web/Services/LicenseKeyAuthorizationService.cs:40-44 | with checking disabled the result is Success whatever the headers |
| LicenseKeyAuthorization.MissingKeyFails | samples/DragonCopilot/Workflow/SampleExtension.Web/Services/LicenseKeyAuthorizationService.cs:46-52 | a missing or empty first value gives Failure "Missing required header: {header}" |
| LicenseKeyAuthorization.ExactKeySucceeds | samples/DragonCopilot/Workflow/SampleExtension.Web/Services/LicenseKeyAuthorizationService.cs:54-63 | a first value equal (ordinal) to the valid key gives Success |
| LicenseKeyAuthorization.OtherKeyFails | samples/DragonCopilot/Workflow/SampleExtension.Web/Services/LicenseKeyAuthorizationService.cs:54-60 | any other non-empty key gives Failure "Invalid license key" |
| LicenseKeyAuthorization.OnlyFirstValueCounts | samples/DragonCopilot/Workflow/SampleExtension.Web/Services/LicenseKeyAuthorizationService.cs:46 | a valid key sent as the second value of the header does not help: only the first value is read |
| LicenseKeyAuthorization.DefaultOptionsExamples | samples/DragonCopilot/Workflow/SampleExtension.Web/Configuration/AuthorizationOptions.cs:19-29 | with the default options "valid" is accepted, "VALID" is refused as invalid and a request without the header is refused as missing |
| AuthorizationServiceModel.IsAuthorized | samples/DragonCopilot/Workflow/SampleExtension.Web/Services/AuthorizationService.cs:35-65 | throws exactly for a null request; true iff checking is disabled or the first header value is non-empty and equals the valid key |
| AuthorizationServiceModel.FailureReason | samples/DragonCopilot/Workflow/SampleExtension.Web/Services/AuthorizationService.cs:68-86 | throws exactly for a null request; a reason is returned only when checking is on, and it is the missing-header or the invalid-key message |
| AuthorizationServiceModel.AuthorizedIffNoReason | samples/DragonCopilot/Workflow/SampleExtension.Web/Services/AuthorizationService.cs:35-86 | for the same options and request, authorized iff the failure reason is null |
| AuthorizationServiceModel.DisabledAuthorized | samples/DragonCopilot/Workflow/SampleExtension.Web/Services/AuthorizationService.cs:39-75 | with checking disabled: authorized and no reason |
| AuthorizationServiceModel.MissingKeyRefused | samples/DragonCopilot/Workflow/SampleExtension.Web/Services/AuthorizationService.cs:45-82 | a missing key: not authorized, reason "Missing required header: {header}" |
| AuthorizationServiceModel.MismatchRefused | samples/DragonCopilot/Workflow/SampleExtension.Web/Services/AuthorizationService.cs:53-85 | a mismatched key: not authorized, reason "Invalid license key" |
| AuthorizationServiceModel.AgreesWithLicenseKeyService | samples/DragonCopilot/Workflow/SampleExtension.Web/Services/AuthorizationService.cs:35-86 | the two services decide alike: the same authorization and the same failure reason on every request |
| KnownRoutes.AnyRouteMatches | samples/DragonCopilot/Workflow/SampleExtension.Web/Configuration/KnownRoutes.cs:33-34 | true iff some route in the list is a prefix of the path, ignoring case |
| KnownRoutes.IsPublicRoute | samples/DragonCopilot/Workflow/SampleExtension.Web/Configuration/KnownRoutes.cs:31-35 | a path is public iff it starts, ignoring case, with one of the three public routes |
| KnownRoutes.ThreeRoutes | samples/DragonCopilot/Workflow/SampleExtension.Web/Configuration/KnownRoutes.cs:24-34 | on a three-route list, a match iff one of the three routes is a case-insensitive prefix |
| KnownRoutes.IgnoreCaseOfLowerRoute | samples/DragonCopilot/Workflow/SampleExtension.Web/Configuration/KnownRoutes.cs:34 | for a lower-case route, the case-insensitive prefix test is a plain prefix test on the lower-cased path |
| KnownRoutes.PublicIff | samples/DragonCopilot/Workflow/SampleExtension.Web/Configuration/KnownRoutes.cs:17-35 | a path is public iff its lower-cased form starts with "/health", "/v1/health" or "/index.html" |
| KnownRoutes.CaseIgnored | samples/DragonCopilot/Workflow/SampleExtension.Web/Configuration/KnownRoutes.cs:34 | upper- or lower-casing a path does not change whether it is public |
| KnownRoutes.ExtensionPublic | samples/DragonCopilot/Workflow/SampleExtension.Web/Configuration/KnownRoutes.cs:33-34 | anything appended to a public path is public |
| KnownRoutes.EmptyNotPublic | samples/DragonCopilot/Workflow/SampleExtension.Web/Configuration/KnownRoutes.cs:31-35 | the empty path is not public |
| KnownRoutes.HealthzPublic | samples/DragonCopilot/Workflow/SampleExtension.Web/Configuration/KnownRoutes.cs:17-34 | "/healthz" is public |
| KnownRoutes.UpperCasePublic | samples/DragonCopilot/Workflow/SampleExtension.Web/Configuration/KnownRoutes.cs:19-34 | "/INDEX.HTML" is public |
| KnownRoutes.ProcessNotPublic | samples/DragonCopilot/Workflow/SampleExtension.Web/Configuration/KnownRoutes.cs:17-35 | "/v1/process" is not public |
| EncounterService.NoteContent | DragonBackendSimulator/DragonBackendSimulator.Web/Services/EncounterService.cs:91-92 | the note text is "Encounter: {Name}", followed by " - {Description}" exactly when the description is present and non-empty |
| EncounterService.BuildPayload | DragonBackendSimulator/DragonBackendSimulator.Web/Services/EncounterService.cs:64-101 | the payload carries the encounter id as correlation and legacy id, the creation time as session start, the name as title and the note text as content |
| EncounterService.Settle | DragonBackendSimulator/DragonBackendSimulator.Web/Services/EncounterService.cs:111-152 | the outcome of the exchange leaves the encounter Completed or Failed, with an error message iff Failed |
| EncounterService.CompletedIff | DragonBackendSimulator/DragonBackendSimulator.Web/Services/EncounterService.cs:111-135 | the call completes iff a success status came back, its body was read, and the body does not parse to a response with Success=false |
| EncounterService.ReportedFailure | DragonBackendSimulator/DragonBackendSimulator.Web/Services/EncounterService.cs:111-130 | a success status whose parsed body says Success=false gives Failed with Message, or "Extension processing failed" when Message is null; the status code and body are kept |
| EncounterService.UnparsedBodyCompletes | DragonBackendSimulator/DragonBackendSimulator.Web/Services/EncounterService.cs:111-134 | a success status whose body does not parse (or parses to null) stays Completed with the code and body and no error message |
| EncounterService.ErrorStatusFails | DragonBackendSimulator/DragonBackendSimulator.Web/Services/EncounterService.cs:136-143 | a non-success status gives Failed, the status code and "Extension API call failed with status {S}: {R}", whatever the body |
| EncounterService.ExceptionFails | DragonBackendSimulator/DragonBackendSimulator.Web/Services/EncounterService.cs:146-152 | an exception gives Failed with the exception's message and no status code or response |
| EncounterService.StatusCodeRecorded | DragonBackendSimulator/DragonBackendSimulator.Web/Services/EncounterService.cs:116-139 | a status code is recorded exactly when a response came back (and, for a success status, its body was read), and it is that response's code |
| EncounterService.Encounter.constructor | DragonBackendSimulator/DragonBackendSimulator.Web/Services/EncounterService.cs:52-59 | a new encounter has the request's name and description, the creation time, no completion time and status Created |
| EncounterService.CallExtension | DragonBackendSimulator/DragonBackendSimulator.Web/Services/EncounterService.cs:45-156 | throws for a null request; otherwise sends the payload built from the request and returns a fresh encounter whose outcome is the settled outcome of the HTTP call and whose completion time is set |
| EncounterService.ContentWithDescription | DragonBackendSimulator/DragonBackendSimulator.UnitTests/Services/EncounterServiceTests.cs:327 | "Test Encounter" with "Test Description" gives "Encounter: Test Encounter - Test Description" |
| EncounterService.ContentWithoutDescription | DragonBackendSimulator/DragonBackendSimulator.UnitTests/Services/EncounterServiceTests.cs:346 | a missing description gives "Encounter: Test Encounter" |
| EncounterService.ContentWithEmptyDescription | DragonBackendSimulator/DragonBackendSimulator.Web/Services/EncounterService.cs:92 | an empty description gives "Encounter: Test Encounter" as a missing one does |
| EncounterService.BadRequestMessage | DragonBackendSimulator/DragonBackendSimulator.UnitTests/Services/EncounterServiceTests.cs:183-194 | a 400 response with reason "Bad Request" gives "Extension API call failed with status BadRequest: Bad Request" |
| IntegrationDescription.EnsureIntegrationSuffix | tools/partner-integration-cli/src/shared/integration-description.ts:17-22 | the result ends with " INTEGRATION"; a name that already ends with it is returned unchanged, any other gets it appended |
| IntegrationDescription.SanitizeName | tools/partner-integration-cli/src/shared/integration-description.ts:4-15 | the name is never empty, and a missing or blank name gives "PARTNER INTEGRATION"; its full shape is stated by SanitizeNameShape and its content by SanitizeNameContent |
| IntegrationDescription.BuildIntegrationDescription | tools/partner-integration-cli/src/shared/integration-description.ts:24-28 | the description is the sanitized name, suffixed with " INTEGRATION" when it lacks it, followed by " for Dragon Copilot healthcare data processing."; it ends with that tail, and what stands before the tail ends with " INTEGRATION" |
| IntegrationDescription.BlankNameDescription | tools/partner-integration-cli/src/shared/integration-description.ts:1-28 | a missing or blank name yields "PARTNER INTEGRATION for Dragon Copilot healthcare data processing." |
| IntegrationDescription.EndsWithAppend | tools/partner-integration-cli/src/shared/integration-description.ts:26-27 | appending the same text to a string and to its suffix keeps the suffix relation |
| IntegrationDescription.DescriptionTail | tools/partner-integration-cli/src/shared/integration-description.ts:24-28 | every description ends with " INTEGRATION for Dragon Copilot healthcare data processing." |
| IntegrationDescription.CollapsedShape | tools/partner-integration-cli/src/shared/integration-description.ts:9-11 | after the two replacements no '-' or '_' is left and every white space run is a single ' ' |
| IntegrationDescription.TrimmedShape | tools/partner-integration-cli/src/shared/integration-description.ts:12 | trimming keeps that shape and leaves ends that are not white space |
| IntegrationDescription.UpperShape | tools/partner-integration-cli/src/shared/integration-description.ts:14 | upper-casing a trimmed, collapsed name gives the sanitized shape |
| IntegrationDescription.SpacedShape | tools/partner-integration-cli/src/shared/integration-description.ts:9-14 | whenever the spaced name is not empty, its upper-cased form has the sanitized shape |
| IntegrationDescription.FallbackSanitized | tools/partner-integration-cli/src/shared/integration-description.ts:1 | "PARTNER INTEGRATION" itself has the sanitized shape |
| IntegrationDescription.SanitizeNameShape | tools/partner-integration-cli/src/shared/integration-description.ts:4-15 | every sanitized name is non-empty, upper case, trimmed, free of '-' and '_', with single spaces between words |
| IntegrationDescription.SeparatorsOnlyFallBack | tools/partner-integration-cli/src/shared/integration-description.ts:5-14 | a name made only of '-', '_' and white space falls back to "PARTNER INTEGRATION" |
| IntegrationDescription.SanitizedIsFixed | tools/partner-integration-cli/src/shared/integration-description.ts:4-15 | a name that already has the sanitized shape is returned unchanged |
| IntegrationDescription.UpperOfUpper | tools/partner-integration-cli/src/shared/integration-description.ts:14 | upper-casing a string without lower-case letters changes nothing |
| IntegrationDescription.SanitizeNameIdempotent | tools/partner-integration-cli/src/shared/integration-description.ts:4-15 | sanitizing a sanitized name gives the same name |
| IntegrationDescription.UpperKeep | tools/partner-integration-cli/src/shared/integration-description.ts:14 | upper-casing keeps the word characters (neither '-', '_' nor white space) of a text, upper-cased, in order |
| IntegrationDescription.SanitizeNameContent | tools/partner-integration-cli/src/shared/integration-description.ts:4-15 | a name without word characters (all '-', '_' and white space) gives "PARTNER INTEGRATION" (the converse of SeparatorsOnlyFallBack); any other name keeps exactly its word characters, upper-cased and in order |
| IntegrationDescription.SanitizeSpaced | tools/partner-integration-cli/src/shared/integration-description.ts:5-14 | a name with no white space at its ends whose replaced form has none either sanitizes to that form upper-cased |
| IntegrationDescription.DashedWords | tools/partner-integration-cli/src/shared/integration-description.ts:4-15 | two words of word characters joined by '-' sanitize to the upper-cased words joined by one space |
| IntegrationDescription.SanitizeNameExample | tools/partner-integration-cli/src/shared/integration-description.ts:4-15 | "my-app" sanitizes to "MY APP" |
| ContextItems.Names | tools/dragon-copilot-cli/src/domains/partner/shared/context-items.ts:69-71 | the names of a catalog, one per entry, in catalog order |
| ContextItems.CatalogMap | tools/dragon-copilot-cli/src/domains/partner/shared/context-items.ts:67 | the name-keyed map holds exactly the catalog's names, each mapped to an entry of that name |
| ContextItems.CatalogMapOfDistinct | tools/dragon-copilot-cli/src/domains/partner/shared/context-items.ts:67 | with distinct names, each entry is what the map holds under its own name |
| ContextItems.GetContextItemDefinition | tools/dragon-copilot-cli/src/domains/partner/shared/context-items.ts:73-75 | a definition is found iff the name is in the catalog, and it is a catalog entry of that name |
| ContextItems.CloneContextItem | tools/dragon-copilot-cli/src/domains/partner/shared/context-items.ts:77-89 | undefined iff the name is not in the catalog; otherwise the clone of the entry of that name |
| ContextItems.Clone | tools/dragon-copilot-cli/src/domains/partner/shared/context-items.ts:83-88 | a clone copies name, type and description and sets required to the entry's default requirement |
| ContextItems.Included | tools/dragon-copilot-cli/src/domains/partner/shared/context-items.ts:69-70 | exactly the catalog entries included by default |
| ContextItems.DefaultContextItems | tools/dragon-copilot-cli/src/domains/partner/shared/context-items.ts:91-95 | at most one item per required name |
| ContextItems.DefaultItemsOnePerName | tools/dragon-copilot-cli/src/domains/partner/shared/context-items.ts:91-95 | when every name is in the catalog nothing is filtered out: one item per name, in order, each the clone of that name |
| ContextItems.DefaultItemsOfCatalog | tools/dragon-copilot-cli/src/domains/partner/shared/context-items.ts:69-95 | the default items are the clones of the entries included by default, in catalog order and count |
| ContextItems.CatalogShape | tools/dragon-copilot-cli/src/domains/partner/shared/context-items.ts:11-61 | the catalog has 7 entries with distinct names, each included by default |
| ContextItems.RequiredNamesAreAllNames | tools/dragon-copilot-cli/src/domains/partner/shared/context-items.ts:69-71 | the required names are all seven catalog names in catalog order |
| ContextItems.AllIncluded | tools/dragon-copilot-cli/src/domains/partner/shared/context-items.ts:69-70 | a catalog whose entries are all included by default filters to itself |
| ContextItems.DefaultItemsAreCatalogClones | tools/dragon-copilot-cli/src/domains/partner/shared/context-items.ts:91-95 | the default items are the seven catalog entries cloned, in order |
| ContextItems.UnknownNameNotCloned | tools/dragon-copilot-cli/src/domains/partner/shared/context-items.ts:73-81 | a name outside the catalog has no definition and no clone |
| NoteSections.DefaultsCoverOrder | tools/dragon-copilot-cli/src/domains/connector/shared/note-sections.ts:3-44 | the default table has exactly the ten section keys |
| NoteSections.CleanseValue | tools/dragon-copilot-cli/src/domains/connector/shared/note-sections.ts:49-64 | the placeholder comes out iff the value is missing, null, blank, the placeholder, or an array with no non-empty string; any other string comes out trimmed and non-empty; arrays are kept as given; null never comes out |
| NoteSections.NormalizedValue | tools/dragon-copilot-cli/src/domains/connector/shared/note-sections.ts:49-79 | a section keeps the array the caller gives when it holds a non-empty string, and keeps a string that is neither blank nor the placeholder, trimmed |
| NoteSections.NormalizeNoteSections | tools/dragon-copilot-cli/src/domains/connector/shared/note-sections.ts:66-82 | exactly the ten section keys in order, each holding its normalized value; keys outside the order are dropped |
| NoteSections.AsRecord | tools/dragon-copilot-cli/src/domains/connector/shared/note-sections.ts:69-77 | the record built from the entries has exactly their keys |
| NoteSections.NormalizedValueCases | tools/dragon-copilot-cli/src/domains/connector/shared/note-sections.ts:49-79 | a section holds its default exactly for a missing, null, blank, placeholder or all-empty value; otherwise the trimmed string or the caller's array |
| NoteSections.NormalizedValueWellFormed | tools/dragon-copilot-cli/src/domains/connector/shared/note-sections.ts:49-79 | a normalized value is never null, a string is trimmed and non-empty, an array has a non-empty element |
| NoteSections.DefaultsTrimmed | tools/dragon-copilot-cli/src/domains/connector/shared/note-sections.ts:33-44 | every default string is trimmed and non-empty |
| NoteSections.NormalizedValueStable | tools/dragon-copilot-cli/src/domains/connector/shared/note-sections.ts:49-79 | a well-formed stored value, the placeholder only where that is the default, is normalized to itself |
| NoteSections.NormalizedPlaceholderIsDefault | tools/dragon-copilot-cli/src/domains/connector/shared/note-sections.ts:56-74 | the placeholder string is stored only where it is the section's default |
| NoteSections.AsRecordLookup | tools/dragon-copilot-cli/src/domains/connector/shared/note-sections.ts:69-80 | with distinct keys, each entry is what the record holds under its key |
| NoteSections.SectionOrderDistinct | tools/dragon-copilot-cli/src/domains/connector/shared/note-sections.ts:3-14 | the ten section keys are distinct |
| NoteSections.NormalizeIdempotent | tools/dragon-copilot-cli/src/domains/connector/shared/note-sections.ts:66-82 | normalizing an already normalized record gives the same entries |
| NoteSections.RenormalizeOne | tools/dragon-copilot-cli/src/domains/connector/shared/note-sections.ts:66-82 | one normalized value normalizes to itself |
| NoteSections.DefaultsNormalized | tools/dragon-copilot-cli/src/domains/connector/shared/note-sections.ts:33-85 | the default table is already normalized |
| NoteSections.GetDefaultNoteSections | tools/dragon-copilot-cli/src/domains/connector/shared/note-sections.ts:84-85 | every section holds its default, in section order |
| WebNoteSections.Lookup | tools/partner-integration-cli/web/app.js:90 | the value the record holds under the key, absent when there is no record or no such key |
| WebNoteSections.PlaceholderTrimmed | tools/partner-integration-cli/web/app.js:80 | the placeholder is a trimmed, non-empty string |
| WebNoteSections.OrderValue | tools/partner-integration-cli/web/app.js:90-109 | an array comes out as the same array and only arrays come out as arrays; the placeholder comes out iff the value is absent, null, blank or trims to the placeholder; any other string comes out trimmed; null never comes out |
| WebNoteSections.OrderNoteSections | tools/partner-integration-cli/web/app.js:88-110 | exactly the ten section keys, in section order |
| WebNoteSections.OrderValueStable | tools/partner-integration-cli/web/app.js:90-109 | ordering an ordered value again gives the same value |
| WebNoteSections.OrderIdempotent | tools/partner-integration-cli/web/app.js:88-110 | ordering the ordered record again gives the same record |
| WebNoteSections.OrderedValuesFixed | tools/partner-integration-cli/web/app.js:88-110 | every value of an ordered record is in ordered form |
| WebNoteSections.OrderedValueFixedAt | tools/partner-integration-cli/web/app.js:88-110 | the value of one ordered section is in ordered form |
| WebNoteSections.ReorderFixed | tools/partner-integration-cli/web/app.js:88-110 | entries in section order whose values are in ordered form are read back unchanged |
| WebNoteSections.ReorderAt | tools/partner-integration-cli/web/app.js:88-110 | the same, one section at a time |
| WebNoteSections.OrderIgnoresOtherKeys | tools/partner-integration-cli/web/app.js:88-90 | record keys outside the ten sections have no effect on the result |
| WebNoteSections.EmptyListKept | tools/partner-integration-cli/web/app.js:91-93 | ordering keeps an empty array, whereas the command-line cleansing turns it into the placeholder |
| WebNoteSections.CreateEmptyNoteSections | tools/partner-integration-cli/web/app.js:82-86 | exactly the ten sections, each holding the placeholder |
| WebNoteSections.DefaultSourceIsDefaults | tools/partner-integration-cli/web/app.js:112-121 | the record the browser defaults are built from equals the command-line default table |
| WebNoteSections.WebDefaultsAgree | tools/partner-integration-cli/web/app.js:112-121 | the browser default table holds each section's command-line default, in section order |
| WebNoteSections.DefaultsAllOrdered | tools/partner-integration-cli/web/app.js:112-121 | every default value is already in ordered form |
| WebNoteSections.DefaultOrdered | tools/partner-integration-cli/web/app.js:112-121 | one default value is already in ordered form |
| WebNoteSections.OrderValueOfOrdered | tools/partner-integration-cli/web/app.js:91-103 | a non-null value whose string, if any, is trimmed and non-empty is kept |
| WebNoteSections.OptionalAllEmpty | tools/partner-integration-cli/web/app.js:123 | the optional table holds the placeholder in every section |
| ManualNotes.NoteKeysDistinct | tools/partner-integration-cli/web/app.js:228-240 | the editor's eleven note keys are distinct |
| ManualNotes.IndexOf | tools/partner-integration-cli/web/app.js:297 | `indexOf`: -1 iff the key is absent, otherwise the index of its first occurrence |
| ManualNotes.RankOfNoteKey | tools/partner-integration-cli/web/app.js:297 | the sort rank of the i-th note key is i |
| ManualNotes.Remove | tools/partner-integration-cli/web/app.js:306-308 | filtering out a key removes every occurrence of it and keeps every other element and its count |
| ManualNotes.Dedup | tools/partner-integration-cli/web/app.js:311-313 | keeping first occurrences gives a duplicate-free list with the same elements |
| ManualNotes.DedupDistinct | tools/partner-integration-cli/web/app.js:311-313 | a list without duplicates is kept as it is |
| ManualNotes.SortPermutes | tools/partner-integration-cli/web/app.js:296-298 | sorting by note-key order (`SortByNoteOrder`) is a permutation |
| ManualNotes.SortSorts | tools/partner-integration-cli/web/app.js:296-298 | the sorted list is ordered by note-key position |
| ManualNotes.UnrankedCount | tools/partner-integration-cli/web/app.js:296-298 | keys that are not note keys keep their counts, and no note key is among them |
| ManualNotes.GroupedCount | tools/partner-integration-cli/web/app.js:296-298 | the part of the sort from the i-th note key on holds each of those keys as often as the input did |
| ManualNotes.SortEveryKeyOnce | tools/partner-integration-cli/web/app.js:300-304 | sorting a list holding each note key exactly once gives the note keys in order |
| ManualNotes.SortNoteKeys | tools/partner-integration-cli/web/app.js:301-303 | sorting the note keys leaves them in place |
| ManualNotes.PlacedConcat | tools/partner-integration-cli/web/app.js:319-320 | the placed keys of two structures put together are the placed keys of each |
| ManualNotes.KeyInStructureIffPlaced | tools/partner-integration-cli/web/app.js:319-320 | `keyInStructure` holds iff the key is a main key or a child of some node |
| ManualNotes.FindMain | tools/partner-integration-cli/web/app.js:317 | the index of the first node with the key, absent iff no node has it |
| ManualNotes.AddKeys | tools/partner-integration-cli/web/app.js:310-315 | the new available list is duplicate-free, sorted by note-key order, and holds exactly the old keys and the added ones |
| ManualNotes.SortDistinct | tools/partner-integration-cli/web/app.js:314 | sorting a duplicate-free list keeps it duplicate-free and keeps its elements |
| ManualNotes.RemoveSorted | tools/partner-integration-cli/web/app.js:307 | removing a key keeps a sorted list sorted |
| ManualNotes.PlacedUpdate | tools/partner-integration-cli/web/app.js:340-359 | replacing one node changes the placed keys by exactly the keys of the old and the new node |
| ManualNotes.PlacedRemoveAt | tools/partner-integration-cli/web/app.js:349 | splicing out one node removes exactly its keys from the placed keys |
| ManualNotes.AddKeysFresh | tools/partner-integration-cli/web/app.js:310-315 | adding keys that are held nowhere else adds each of them once |
| ManualNotes.AddMainKeeps | tools/partner-integration-cli/web/app.js:322-329 | adding a main section keeps every key between the available list and the structure exactly once |
| ManualNotes.AddSubKeeps | tools/partner-integration-cli/web/app.js:331-342 | adding a child keeps every key held exactly once |
| ManualNotes.AddSubPlaced | tools/partner-integration-cli/web/app.js:340 | appending a child to a node adds exactly that key to the structure |
| ManualNotes.RemoveMainKeeps | tools/partner-integration-cli/web/app.js:344-352 | removing a main section keeps every key held exactly once |
| ManualNotes.RemoveChildKeeps | tools/partner-integration-cli/web/app.js:354-362 | removing a real child keeps every key held exactly once |
| ManualNotes.RemoveChildPlaced | tools/partner-integration-cli/web/app.js:359 | filtering a real child out of its parent removes exactly that key from the structure |
| ManualNotes.ChildOnce | tools/partner-integration-cli/web/app.js:359 | a child of a node is held there exactly once |
| ManualNotes.NoteKeysSorted | tools/partner-integration-cli/web/app.js:228-240 | the note keys are sorted by their own order |
| ManualNotes.AllAvailableValid | tools/partner-integration-cli/web/app.js:300-304 | the reset state (every key available, nothing placed) satisfies the editor invariant |
| ManualNotes.AddMainPreserves | tools/partner-integration-cli/web/app.js:322-329 | `addMainSection` preserves the invariant: available keys sorted, every note key in exactly one place |
| ManualNotes.AddSubPreserves | tools/partner-integration-cli/web/app.js:331-342 | `addSubSection` preserves the invariant |
| ManualNotes.RemoveMainPreserves | tools/partner-integration-cli/web/app.js:344-352 | `removeMainSection` preserves the invariant |
| ManualNotes.RemoveChildPreserves | tools/partner-integration-cli/web/app.js:354-362 | `removeChildSection` preserves the invariant when called with a real child of an existing parent |
| ManualNotes.ValidPartition | tools/partner-integration-cli/web/app.js:319-362 | under the invariant `Valid` a key is a note key iff it is available or placed, and never both |
| ManualNotes.HeldApart | tools/partner-integration-cli/web/app.js:319-320 | a key held once is available or placed, never both |
| ManualNotes.AddMainMoves | tools/partner-integration-cli/web/app.js:322-329 | adding an available key as a main section appends a childless node for it and takes it, and only it, off the available list |
| ManualNotes.AddSubMoves | tools/partner-integration-cli/web/app.js:331-342 | adding an available child under an existing parent appends it to that parent's children, leaves the other nodes alone and takes only it off the available list |
| ManualNotes.RemoveMainReturns | tools/partner-integration-cli/web/app.js:344-352 | removing a main section returns its key and all its children to the available list and leaves none of them in the structure |
| ManualNotes.RemoveChildReturns | tools/partner-integration-cli/web/app.js:354-362 | removing a child returns it to the available list and out of the structure |
| ManualNotes.AddOneKey | tools/partner-integration-cli/web/app.js:360 | adding one key gives exactly the old keys and it |
| ManualNotes.AvailableNotPlaced | tools/partner-integration-cli/web/app.js:323-332 | under the invariant an available key is not in the structure, so the add guards reduce to availability |
| ManualNotes.MainKeysDistinct | tools/partner-integration-cli/web/app.js:317-345 | under the invariant no two main sections have the same key |
| ManualNotes.NodeValue | tools/partner-integration-cli/web/app.js:1295-1299 | a childless node gives its own key, a node with children gives [key, ...children] |
| ManualNotes.NodesRecord | tools/partner-integration-cli/web/app.js:1294-1300 | the first pass writes exactly the nodes' keys |
| ManualNotes.NodesRecordLookup | tools/partner-integration-cli/web/app.js:1294-1300 | with distinct main keys, each node's key holds that node's value |
| ManualNotes.FillPlaceholders | tools/partner-integration-cli/web/app.js:1302-1307 | every listed key without a truthy value gets the placeholder, every other entry is kept, and no other key is added |
| ManualNotes.EmptyManualSections | tools/partner-integration-cli/web/app.js:1280-1286 | with nothing placed, every note key (with "plan") holds the placeholder, in note-key order |
| ManualNotes.GatherNoneIff | tools/partner-integration-cli/web/app.js:1268-1310 | gathering gives nothing exactly when the strategy is not "all", "optional" or "manual" |
| ManualNotes.ManualGatherSome | tools/partner-integration-cli/web/app.js:1302-1309 | the manual branch (`ManualGather`) always gives a table, since the record (`ManualRecord`) always holds the note keys |
| ManualNotes.GatherAll | tools/partner-integration-cli/web/app.js:1270-1272 | the "all" strategy gives the default table |
| ManualNotes.GatherOptional | tools/partner-integration-cli/web/app.js:1273-1275 | the "optional" strategy gives the optional table |
| ManualNotes.NoteKeyShape | tools/partner-integration-cli/web/app.js:228-240 | every note key is trimmed, non-empty and not the placeholder |
| ManualNotes.ManualGatherMain | tools/partner-integration-cli/web/app.js:1294-1309 | a section that is a main node's key holds that node's value: its key when childless, otherwise [key, ...children] |
| ManualNotes.ManualRecordAtMain | tools/partner-integration-cli/web/app.js:1294-1307 | the manual record holds each node's value under its key, and that value is in ordered form |
| ManualNotes.FilledMain | tools/partner-integration-cli/web/app.js:1302-1307 | filling placeholders keeps a node's truthy value |
| ManualNotes.MainKeyIsNoteKey | tools/partner-integration-cli/web/app.js:322-329 | under the invariant every main key is a note key |
| ManualNotes.ManualGatherOther | tools/partner-integration-cli/web/app.js:1302-1309 | a section that is no main node's key holds the placeholder, even when it is placed as a child |
| ManualNotes.SectionKeyIsNoteKey | tools/partner-integration-cli/web/app.js:228-240 | every section key is a note key |
| ManualNotes.ManualNoteState.constructor | tools/partner-integration-cli/web/app.js:289-292 | the state starts with no available keys and an empty structure |
| ManualNotes.ManualNoteState.SortAvailableKeys | tools/partner-integration-cli/web/app.js:296-298 | the available keys are sorted by note-key order, the structure unchanged |
| ManualNotes.ManualNoteState.ResetManualNoteState | tools/partner-integration-cli/web/app.js:300-304 | every note key available in order, nothing placed, and the invariant holds |
| ManualNotes.ManualNoteState.RemoveKeyFromAvailable | tools/partner-integration-cli/web/app.js:306-308 | the key is filtered out of the available list, the structure unchanged |
| ManualNotes.ManualNoteState.AddKeysToAvailable | tools/partner-integration-cli/web/app.js:310-315 | the available list becomes the deduplicated, sorted union, the structure unchanged |
| ManualNotes.ManualNoteState.AddMainSection | tools/partner-integration-cli/web/app.js:322-329 | the new state is the add-main transition (`AfterAddMain`) of the old one, and the invariant is kept |
| ManualNotes.ManualNoteState.AddSubSection | tools/partner-integration-cli/web/app.js:331-342 | the new state is the add-child transition (`AfterAddSub`) of the old one, and the invariant is kept |
| ManualNotes.ManualNoteState.RemoveMainSection | tools/partner-integration-cli/web/app.js:344-352 | the new state is the remove-main transition (`AfterRemoveMain`) of the old one, and the invariant is kept |
| ManualNotes.ManualNoteState.RemoveChildSection | tools/partner-integration-cli/web/app.js:354-362 | the new state is the remove-child transition (`AfterRemoveChild`) of the old one, and the invariant is kept when the child is a real child of an existing parent |
| ManualNotes.ManualNoteState.GatherNoteSections | tools/partner-integration-cli/web/app.js:1268-1310 | returns what the gathering specification gives for the strategy and the current state |
| ManualNotes.ManualNoteState.EmptyManualMap | tools/partner-integration-cli/web/app.js:1280-1286 | the loop over the note keys builds the all-placeholder table |
| ManualNotes.ManualNoteState.ManualMap | tools/partner-integration-cli/web/app.js:1288-1307 | the two loops build the manual record of the structure |
| ManualNotes.WriteNodes | tools/partner-integration-cli/web/app.js:1294-1300 | the first loop writes each node's value under its key |
| ManualNotes.FillMissing | tools/partner-integration-cli/web/app.js:1302-1307 | the second loop fills the placeholders |
| ManifestYaml.GapLength | tools/dragon-copilot-cli/src/domains/partner/shared/yaml.ts:6-7 | the greedy run of gap characters never extends past the text |
| ManifestYaml.MatchAt | tools/dragon-copilot-cli/src/domains/partner/shared/yaml.ts:6-12 | a match starts with the pattern's lead, consumes a non-empty prefix of the text and is replaced by text no longer than it |
| ManifestYaml.TailMatch | tools/dragon-copilot-cli/src/domains/partner/shared/yaml.ts:6-12 | a tail match consumes the lead and gap and at most the rest of the text, and its replacement is no longer than what it consumes |
| ManifestYaml.ReplaceAll | tools/dragon-copilot-cli/src/domains/partner/shared/yaml.ts:16-21 | a global replacement never lengthens the text, since every replacement keeps only part of its match |
| ManifestYaml.ReplaceAllNoMatch | tools/dragon-copilot-cli/src/domains/partner/shared/yaml.ts:16-21 | text in which the pattern matches nowhere is returned unchanged |
| ManifestYaml.NoLeadNoMatch | tools/dragon-copilot-cli/src/domains/partner/shared/yaml.ts:6-12 | text without the lead's first character holds no match |
| ManifestYaml.NoLeadUnchanged | tools/dragon-copilot-cli/src/domains/partner/shared/yaml.ts:16-21 | such text is returned unchanged |
| ManifestYaml.Sanitize | tools/dragon-copilot-cli/src/domains/partner/shared/yaml.ts:14-21 | the six replacements in the source's order never lengthen the text |
| ManifestYaml.SanitizeYamlTextAsWritten | tools/dragon-copilot-cli/src/domains/partner/shared/yaml.ts:14-21 | `sanitizeYamlText` as written (list gap = runs of the letter s) never lengthens the text |
| ManifestYaml.SanitizeYamlText | tools/dragon-copilot-cli/src/domains/partner/shared/yaml.ts:14-21 | `sanitizeYamlText` with the list gap read as white space never lengthens the text |
| ManifestYaml.MatchShrinks | tools/dragon-copilot-cli/src/domains/partner/shared/yaml.ts:6-12 | every match is replaced by strictly shorter text |
| ManifestYaml.ReplaceAllKeepsLength | tools/dragon-copilot-cli/src/domains/partner/shared/yaml.ts:16-21 | one global replacement keeps the length exactly when its pattern matches nowhere in the text |
| ManifestYaml.SanitizedIffUnmatched | tools/dragon-copilot-cli/src/domains/partner/shared/yaml.ts:14-21 | the six steps return the text unchanged if and only if none of the six patterns matches anywhere in it |
| ManifestYaml.SanitizeUnchanged | tools/dragon-copilot-cli/src/domains/partner/shared/yaml.ts:14-21 | `sanitizeYamlText`, as written and as corrected, returns its text unchanged if and only if none of its patterns matches anywhere |
| ManifestYaml.InGapOfAll | tools/dragon-copilot-cli/src/domains/partner/shared/yaml.ts:6-7 | a run of gap characters is a gap |
| ManifestYaml.SkipGap | tools/dragon-copilot-cli/src/domains/partner/shared/yaml.ts:6-7 | the greedy gap stops exactly after a gap run followed by a non-gap character |
| ManifestYaml.LeadGapSplit | tools/dragon-copilot-cli/src/domains/partner/shared/yaml.ts:6-12 | matching at lead + gap + rest is matching the tail on what follows the gap |
| ManifestYaml.ReplaceAllStep | tools/dragon-copilot-cli/src/domains/partner/shared/yaml.ts:16-21 | a match at the front contributes its replacement and the replacement goes on after it |
| ManifestYaml.TailYesNo | tools/dragon-copilot-cli/src/domains/partner/shared/yaml.ts:6-7 | a quoted yes or no between matching quotes is a tail match replaced by the word |
| ManifestYaml.StepUnquotesYesNo | tools/dragon-copilot-cli/src/domains/partner/shared/yaml.ts:16-17 | one yes/no step: lead + gap + a quoted yes or no in matching quotes becomes lead + gap + the word, and the scan goes on behind it |
| ManifestYaml.StepKeepsMismatched | tools/dragon-copilot-cli/src/domains/partner/shared/yaml.ts:6-7 | one yes/no step does not match a yes or no between two different quotes |
| ManifestYaml.TailMismatch | tools/dragon-copilot-cli/src/domains/partner/shared/yaml.ts:6-7 | the tail alone does not match mismatched quotes |
| ManifestYaml.TailPlaceholder | tools/dragon-copilot-cli/src/domains/partner/shared/yaml.ts:9-12 | a quoted (either quote on either side) or bare placeholder is a tail match replaced by what precedes it |
| ManifestYaml.StepRemovesWord | tools/dragon-copilot-cli/src/domains/partner/shared/yaml.ts:18-21 | one placeholder step: lead + gap + the word, quoted or bare, becomes lead + gap, and the scan goes on behind it |
| ManifestYaml.PlaceholderChars | tools/dragon-copilot-cli/src/domains/partner/shared/yaml.ts:2 | the placeholder starts with '_' and holds only '_' and capitals, so no quote, colon, dash or white space |
| ManifestYaml.DashItemNoQuotedMatch | tools/dragon-copilot-cli/src/domains/partner/shared/yaml.ts:7-11 | a dash item that is not quoted gives no quoted match anywhere |
| ManifestYaml.NoMatchInDashItem | tools/dragon-copilot-cli/src/domains/partner/shared/yaml.ts:7-11 | no quoted pattern matches at any position of such an item |
| ManifestYaml.NotLeadAt | tools/dragon-copilot-cli/src/domains/partner/shared/yaml.ts:7-12 | a dash pattern cannot match at a character other than '-' |
| ManifestYaml.ListPlaceholderRemoved | tools/dragon-copilot-cli/src/domains/partner/shared/yaml.ts:12-21 | with the list gap read as white space, "-" + white space + placeholder becomes "-" + that white space |
| ManifestYaml.ListItemRemoved | tools/dragon-copilot-cli/src/domains/partner/shared/yaml.ts:11-21 | the six steps with a white space list gap remove a plain word after "-" and white space |
| ManifestYaml.ListPlaceholderKeptAsWritten | tools/dragon-copilot-cli/src/domains/partner/shared/yaml.ts:11-21 | as written, "- " + placeholder is left unchanged: the list patterns only match '-' followed by 's' characters |
| ManifestYaml.DashSpaceItemKept | tools/dragon-copilot-cli/src/domains/partner/shared/yaml.ts:11-21 | as written, "- " + a plain word is left unchanged by all six steps |
| ManifestYaml.DashGapNotS | tools/dragon-copilot-cli/src/domains/partner/shared/yaml.ts:11-12 | a list pattern whose gap excludes ' ' does not match "- " + word |
| ManifestYaml.DashOnlyAtStart | tools/dragon-copilot-cli/src/domains/partner/shared/yaml.ts:7-12 | text with one leading '-' and no tail match after it is unchanged |
| ManifestYaml.CopyFirst | tools/dragon-copilot-cli/src/domains/partner/shared/yaml.ts:16-21 | where no match starts, the scan copies the first character |
| ManifestYaml.PrefixKept | tools/dragon-copilot-cli/src/domains/partner/shared/yaml.ts:16-21 | a prefix at none of whose positions a match starts is copied, and the scan goes on behind it |
| ManifestYaml.LeadFree | tools/dragon-copilot-cli/src/domains/partner/shared/yaml.ts:16-21 | text without the first character of the lead is copied, whatever follows it |
| ManifestYaml.FirstOnlyLead | tools/dragon-copilot-cli/src/domains/partner/shared/yaml.ts:16-21 | text whose only lead character is its first, where the pattern does not match, is copied |
| ManifestYaml.KeyKept | tools/dragon-copilot-cli/src/domains/partner/shared/yaml.ts:14-21 | a key holding neither ':' nor '-' in front of a text is kept by all six steps, which clean the rest as if it stood alone |
| ManifestYaml.ReplaceAllFirst | tools/dragon-copilot-cli/src/domains/partner/shared/yaml.ts:16-21 | a replacement keeps the first character of the text |
| ManifestYaml.ColonNoPlaceholder | tools/dragon-copilot-cli/src/domains/partner/shared/yaml.ts:9-10 | after ':' and white space, a value that starts with no white space, underscore or quote-then-underscore matches neither colon placeholder pattern |
| ManifestYaml.GapStops | tools/dragon-copilot-cli/src/domains/partner/shared/yaml.ts:11-12 | the greedy gap covers a run of gap characters and stops at the first one outside the class |
| ManifestYaml.TailNoWord | tools/dragon-copilot-cli/src/domains/partner/shared/yaml.ts:9-12 | text that starts with neither an underscore nor a quote followed by one holds neither the quoted nor the bare placeholder |
| ManifestYaml.TailNoYesNo | tools/dragon-copilot-cli/src/domains/partner/shared/yaml.ts:6-7 | text that starts with no quote followed by y or n holds no quoted yes or no |
| ManifestYaml.DashNoPlaceholder | tools/dragon-copilot-cli/src/domains/partner/shared/yaml.ts:11-12 | after '-' and white space, a value outside the gap with no underscore or quote-then-underscore at its start matches neither list placeholder pattern |
| ManifestYaml.NoYesNoBefore | tools/dragon-copilot-cli/src/domains/partner/shared/yaml.ts:6-7 | behind lead and gap, a value that is not a quote followed by y or n gives no yes/no match |
| ManifestYaml.ColonKept | tools/dragon-copilot-cli/src/domains/partner/shared/yaml.ts:18-19 | both colon placeholder steps copy ':' + white space + such a value and go on behind it |
| ManifestYaml.DashKept | tools/dragon-copilot-cli/src/domains/partner/shared/yaml.ts:20-21 | both list placeholder steps copy '-' + white space + such a value and go on behind it |
| ManifestYaml.SanitizeMaps | tools/dragon-copilot-cli/src/domains/partner/shared/yaml.ts:14-21 | when each of the six steps turns the front of the text into the next front, the whole clean-up turns the first front into the last and cleans the rest on its own |
| ManifestYaml.KeyStep | tools/dragon-copilot-cli/src/domains/partner/shared/yaml.ts:16-21 | a key without the lead's first character in front does not change what one step does to the text behind it |
| ManifestYaml.KeyMaps | tools/dragon-copilot-cli/src/domains/partner/shared/yaml.ts:16-21 | the same for every text behind the front |
| ManifestYaml.LeadFreeMaps | tools/dragon-copilot-cli/src/domains/partner/shared/yaml.ts:16-21 | a front without the lead character is copied by a step, whatever follows |
| ManifestYaml.UnquoteMaps | tools/dragon-copilot-cli/src/domains/partner/shared/yaml.ts:16-17 | a yes/no step turns the front lead + gap + quoted yes or no into lead + gap + the word, whatever follows |
| ManifestYaml.MismatchMaps | tools/dragon-copilot-cli/src/domains/partner/shared/yaml.ts:16-17 | a yes/no step copies lead + white space + a yes or no between different quotes, whatever follows |
| ManifestYaml.ColonKeptMaps | tools/dragon-copilot-cli/src/domains/partner/shared/yaml.ts:18-19 | both colon placeholder steps copy ':' + white space + a value fit for ColonNoPlaceholder, whatever follows |
| ManifestYaml.DashKeptMaps | tools/dragon-copilot-cli/src/domains/partner/shared/yaml.ts:20-21 | both list placeholder steps copy '-' + white space + a value fit for DashNoPlaceholder, whatever follows |
| ManifestYaml.ColonYesNoSanitized | tools/dragon-copilot-cli/src/domains/partner/shared/yaml.ts:14-21 | the six steps turn key + ':' + white space + a quoted yes or no into key + ':' + white space + the word, and clean what follows as if it stood alone |
| ManifestYaml.DashYesNoSanitized | tools/dragon-copilot-cli/src/domains/partner/shared/yaml.ts:14-21 | the same after '-' for a word outside the list gap |
| ManifestYaml.UnquotesYesNo | tools/dragon-copilot-cli/src/domains/partner/shared/yaml.ts:14-21 | `sanitizeYamlText`, as written and as corrected, unquotes a yes or no after a key and a colon and after an indentation and a list dash, e.g. "key: 'yes'" becomes "key: yes", and cleans the rest of the text as if it stood alone |
| ManifestYaml.ColonMismatchSanitized | tools/dragon-copilot-cli/src/domains/partner/shared/yaml.ts:14-21 | the six steps keep key + ':' + white space + a yes or no between different quotes and clean what follows on its own |
| ManifestYaml.DashMismatchSanitized | tools/dragon-copilot-cli/src/domains/partner/shared/yaml.ts:14-21 | the same after '-' |
| ManifestYaml.MismatchedQuotesKept | tools/dragon-copilot-cli/src/domains/partner/shared/yaml.ts:14-21 | `sanitizeYamlText` keeps a yes or no opened by one quote and closed by the other, in either order, after a colon and after a list dash, because of the backreference, and cleans the rest on its own |
| ManifestYaml.MismatchedQuotesKeptAsWritten | tools/dragon-copilot-cli/src/domains/partner/shared/yaml.ts:14-21 | the same for `sanitizeYamlText` as written |
| ManifestYaml.ColonNoYesNo | tools/dragon-copilot-cli/src/domains/partner/shared/yaml.ts:6 | after ": ", a value that starts with no white space and no quote followed by y or n gives no yes/no match |
| ManifestYaml.ColonNoWord | tools/dragon-copilot-cli/src/domains/partner/shared/yaml.ts:10 | after ": ", text that does not start with an underscore does not match the bare placeholder pattern |
| ManifestYaml.ColonFrontKept | tools/dragon-copilot-cli/src/domains/partner/shared/yaml.ts:16-19 | a colon step copies ": " + a value holding no ':' or '-' where it does not match |
| ManifestYaml.QuotedColonKeepsYesNo | tools/dragon-copilot-cli/src/domains/partner/shared/yaml.ts:16 | the colon yes/no step copies ": " + the quoted placeholder |
| ManifestYaml.QuotedColonRemoves | tools/dragon-copilot-cli/src/domains/partner/shared/yaml.ts:18 | the quoted colon placeholder step turns ": " + the quoted placeholder into ": " |
| ManifestYaml.QuotedColonMaps | tools/dragon-copilot-cli/src/domains/partner/shared/yaml.ts:16-18 | the same two facts for every text behind it |
| ManifestYaml.BareColonKeepsYesNo | tools/dragon-copilot-cli/src/domains/partner/shared/yaml.ts:16 | the colon yes/no step copies ": " + the bare placeholder |
| ManifestYaml.BareColonKeepsQuoted | tools/dragon-copilot-cli/src/domains/partner/shared/yaml.ts:18 | the quoted colon placeholder step copies ": " + the bare placeholder |
| ManifestYaml.BareColonRemoves | tools/dragon-copilot-cli/src/domains/partner/shared/yaml.ts:19 | the bare colon placeholder step turns ": " + the placeholder into ": " |
| ManifestYaml.BareColonMaps | tools/dragon-copilot-cli/src/domains/partner/shared/yaml.ts:16-19 | the same three facts for every text behind it |
| ManifestYaml.ColonBareWordSanitized | tools/dragon-copilot-cli/src/domains/partner/shared/yaml.ts:14-21 | the six steps turn key + ": " + the bare word into key + ": " and clean what follows on its own |
| ManifestYaml.BareColonKept | tools/dragon-copilot-cli/src/domains/partner/shared/yaml.ts:19 | the bare colon placeholder step copies key + ": " when what follows does not start with an underscore |
| ManifestYaml.ColonQuotedWordSanitized | tools/dragon-copilot-cli/src/domains/partner/shared/yaml.ts:14-21 | the six steps turn key + ": " + the quoted word into key + ": " and clean what follows on its own, when it does not start with an underscore |
| ManifestYaml.RemovesPlaceholder | tools/dragon-copilot-cli/src/domains/partner/shared/yaml.ts:14-21 | `sanitizeYamlText`, as written and as corrected, turns "key: '__NOTE_EMPTY__'" (any two quotes) and "key: __NOTE_EMPTY__" into "key: " and cleans the rest of the text on its own |
| SchemaValidator.OrDefault | tools/dragon-copilot-cli/src/shared/schema-validator.ts:229-233 | `x \|\| d`: the value when it is a non-empty string, the default otherwise |
| SchemaValidator.ConvertEngineError | tools/dragon-copilot-cli/src/shared/schema-validator.ts:227-236 | every converted error has a non-empty keyword ("unknown" when missing), the engine's params and data, and the engine's message when there is one |
| SchemaValidator.SchemaResult | tools/dragon-copilot-cli/src/shared/schema-validator.ts:117-123 | valid iff the engine passed; a valid result has no errors; an invalid one has the engine's errors converted one for one (none when the engine gave no list) |
| SchemaValidator.ListAt | tools/dragon-copilot-cli/src/shared/schema-validator.ts:143-185 | the array under the key, and the empty list when it is missing or not an array |
| SchemaValidator.NameValues | tools/dragon-copilot-cli/src/shared/schema-validator.ts:146 | at most one name per item, and only truthy names |
| SchemaValidator.Duplicates | tools/dragon-copilot-cli/src/shared/schema-validator.ts:147 | every duplicate is a primitive name that occurs in the list |
| SchemaValidator.DuplicatesMembers | tools/dragon-copilot-cli/src/shared/schema-validator.ts:147 | a name is among the duplicates iff it occurs at two positions of the list |
| SchemaValidator.RepeatedSplit | tools/dragon-copilot-cli/src/shared/schema-validator.ts:147 | a repeated name is repeated in the list without its last element or occurs there and as the last element |
| SchemaValidator.RepeatedGrows | tools/dragon-copilot-cli/src/shared/schema-validator.ts:147 | a name repeated in a prefix is repeated in the whole list |
| SchemaValidator.Unique | tools/dragon-copilot-cli/src/shared/schema-validator.ts:150 | `[...new Set(xs)]`: the same members, with no value twice |
| SchemaValidator.UniqueNameErrors | tools/dragon-copilot-cli/src/shared/schema-validator.ts:145-160 | at most one error per list, with the rule's keyword and instance path |
| SchemaValidator.UniqueNameErrorIff | tools/dragon-copilot-cli/src/shared/schema-validator.ts:145-160 | the rule fires iff some truthy name repeats (which needs more than one item) |
| SchemaValidator.DuplicatesListedOnce | tools/dragon-copilot-cli/src/shared/schema-validator.ts:150-157 | the error (`DuplicateError`) lists each repeated name exactly once and lists nothing else |
| SchemaValidator.MissingTriggers | tools/dragon-copilot-cli/src/shared/schema-validator.ts:207-208 | holds exactly the triggers (as a set of members) whose non-empty scriptName matches no script name; order and multiplicity are stated by MissingTriggersAppend and MissingTriggersCounts |
| SchemaValidator.MissingTriggersSingle | tools/dragon-copilot-cli/src/shared/schema-validator.ts:207-208 | a single trigger is kept iff it names a missing script |
| SchemaValidator.MissingTriggersAppend | tools/dragon-copilot-cli/src/shared/schema-validator.ts:207-208 | the filter distributes over concatenation, so the kept triggers keep their relative order |
| SchemaValidator.MissingTriggersCounts | tools/dragon-copilot-cli/src/shared/schema-validator.ts:207-208 | every trigger that names a missing script occurs as often in the result as in the input, and no other occurs at all |
| SchemaValidator.TriggerLabelCases | tools/dragon-copilot-cli/src/shared/schema-validator.ts:212 | `trigger?.name ?? 'unknown'` (`TriggerLabel`): a missing or null name gives "unknown", a string name, even an empty one, is used as it is |
| SchemaValidator.MissingScriptErrors | tools/dragon-copilot-cli/src/shared/schema-validator.ts:204-222 | the reference rule never reports more errors than there are triggers |
| SchemaValidator.MissingScriptErrorsPerTrigger | tools/dragon-copilot-cli/src/shared/schema-validator.ts:204-222 | one missingAutomationScript error per such trigger, in trigger order |
| SchemaValidator.BusinessRuleErrors | tools/dragon-copilot-cli/src/shared/schema-validator.ts:141-225 | at most one error for each of the three uniqueness rules, plus at most one per event trigger |
| SchemaValidator.ValidateBusinessRules | tools/dragon-copilot-cli/src/shared/schema-validator.ts:141-225 | the method's pushes build the business-rule errors of the manifest |
| SchemaValidator.CheckScriptReferences | tools/dragon-copilot-cli/src/shared/schema-validator.ts:204-222 | the forEach builds one error per trigger that names a missing script |
| SchemaValidator.NoListsNoErrors | tools/dragon-copilot-cli/src/shared/schema-validator.ts:143-185 | a manifest without tools, scripts or triggers arrays breaks no rule |
| SchemaValidator.SameRuleForEachList | tools/dragon-copilot-cli/src/shared/schema-validator.ts:145-202 | the errors start with the tool, script and trigger uniqueness errors, each computed from its own list by the same rule |
| SchemaValidator.ValidateManifest | tools/dragon-copilot-cli/src/shared/schema-validator.ts:93-111 | the errors are the schema errors followed by the business-rule errors |
| SchemaValidator.ValidIffPassedAndNoRuleErrors | tools/dragon-copilot-cli/src/shared/schema-validator.ts:97-99 | valid iff the schema passes and no business rule is broken; a valid result has no errors |
| SchemaValidator.InvalidWithoutErrors | tools/dragon-copilot-cli/src/shared/schema-validator.ts:121 | an invalid result can carry no error when the engine gives no error list |
| SchemaValidator.DuplicateToolExample | tools/dragon-copilot-cli/src/shared/schema-validator.ts:145-158 | two tools with the same name give one uniqueToolNames error, "Duplicate tool names found: {name}" |
| SchemaValidator.ToolMessagePrefix | tools/dragon-copilot-cli/src/shared/schema-validator.ts:154 | the tool rule's message prefix is "Duplicate tool names found: " |
| SchemaValidator.NamesOfPair | tools/dragon-copilot-cli/src/shared/schema-validator.ts:146 | two copies of a named tool give that name twice |
| SchemaValidator.DuplicatesOfPair | tools/dragon-copilot-cli/src/shared/schema-validator.ts:147-150 | a name twice gives that name once as duplicate |
| SchemaValidator.Step | tools/dragon-copilot-cli/src/shared/schema-validator.ts:271-294 | one step of the walk only moves to a truthy part of the schema |
| SchemaValidator.ExtractFieldSchema | tools/dragon-copilot-cli/src/shared/schema-validator.ts:266-298 | the loop computes the walk (`Walk`) of the dotted path's parts |
| SchemaValidator.WalkAppend | tools/dragon-copilot-cli/src/shared/schema-validator.ts:270-295 | walking two paths one after the other is walking the first, then the second from where it ended, and nothing once a part is missing |
| SchemaValidator.StopsAtMissingPart | tools/dragon-copilot-cli/src/shared/schema-validator.ts:292-294 | the result is null as soon as one part is not found, whatever follows |
| SchemaValidator.WalkEndsTruthy | tools/dragon-copilot-cli/src/shared/schema-validator.ts:270-297 | a found field schema for a non-empty path is truthy |
| SchemaValidator.PropertiesPathExample | tools/dragon-copilot-cli/src/shared/schema-validator.ts:276-287 | "properties.name" finds the schema of the name property |
| SchemaValidator.FieldDisplayNameAsWritten | tools/dragon-copilot-cli/src/shared/schema-validator.ts:300-315 | as written: the ten known keys map to their labels, a member inherited by every object (such as "constructor") is returned in place of a string, and any other path is returned unchanged |
| SchemaValidator.ConstructorIsNotAName | tools/dragon-copilot-cli/src/shared/schema-validator.ts:314 | as written, "constructor" does not give a string |
| SchemaValidator.FieldDisplayName | tools/dragon-copilot-cli/src/shared/schema-validator.ts:300-315 | the ten known keys map to their labels and every other path is returned unchanged |
| SchemaValidator.DisplayNameAgrees | tools/dragon-copilot-cli/src/shared/schema-validator.ts:300-315 | where the function as written gives a string it agrees with the corrected one; it gives no string exactly for inherited members that are not field names |
| SchemaValidator.DisplayNameOfKnown | tools/dragon-copilot-cli/src/shared/schema-validator.ts:301-312 | a known key's label is non-empty and differs from the key |
| Prompts.ValidateIntegrationName | tools/partner-integration-cli/src/shared/prompts.ts:134-142 | an accepted name has 3 to 50 characters and starts and ends with an ASCII letter or digit; every rejection carries one of the four messages |
| Prompts.IntegrationNameAccepted | tools/partner-integration-cli/src/shared/prompts.ts:134-142 | a name is accepted iff it has 3 to 50 characters and matches the name pattern; a non-blank name of the right length that misses the pattern is refused for its edges |
| Prompts.NameMessagesDistinct | tools/partner-integration-cli/src/shared/prompts.ts:135-139 | the four rejection messages are pairwise different, so a message tells which check failed |
| Prompts.TestNamesMatch | tools/partner-integration-cli/src/__tests__/validation.test.ts:6-10 | "my-integration", "EHR_Sync_Tool" and "Healthcare Integration" match the name pattern |
| Prompts.TestNamesAccepted | tools/partner-integration-cli/src/__tests__/validation.test.ts:6-10 | the three names of the test are accepted |
| Prompts.ShortNamesRejected | tools/partner-integration-cli/src/__tests__/validation.test.ts:13-14 | "" is refused as required and "ab" as too short |
| Prompts.DashEdgedNamesRejected | tools/partner-integration-cli/src/__tests__/validation.test.ts:15-16 | "-invalid" and "invalid-" are refused for their edges |
| Prompts.DashEdgeRejected | tools/partner-integration-cli/src/shared/prompts.ts:138-140 | every name of allowed length that starts or ends with a dash is refused for its edges |
| Prompts.LeadingDigits | tools/partner-integration-cli/src/shared/prompts.ts:146 | the length of the longest prefix of digits (`\d+` matching greedily): all characters before it are digits and the one at it is not |
| Prompts.LeadingDigitsOf | tools/partner-integration-cli/src/shared/prompts.ts:146 | digits followed by a non-digit: the digit run is exactly the digits |
| Prompts.VersionPatternSound | tools/partner-integration-cli/src/shared/prompts.ts:146 | a string matching `^\d+\.\d+\.\d+$` is three digit strings joined by dots |
| Prompts.VersionPatternComplete | tools/partner-integration-cli/src/shared/prompts.ts:146 | any three non-empty digit strings joined by dots match the pattern |
| Prompts.VersionPatternIff | tools/partner-integration-cli/src/shared/prompts.ts:146 | the pattern matches exactly the dotted triples of numbers |
| Prompts.ValidateVersion | tools/partner-integration-cli/src/shared/prompts.ts:144-148 | accepted iff the version pattern matches; refused as required when blank, as badly formatted otherwise |
| Prompts.VersionAcceptedIff | tools/partner-integration-cli/src/shared/prompts.ts:144-148 | a version is accepted iff it is three numbers joined by dots |
| Prompts.SimpleVersionAccepted | tools/partner-integration-cli/src/__tests__/validation.test.ts:22 | "1.0.0" is accepted |
| Prompts.WideVersionAccepted | tools/partner-integration-cli/src/__tests__/validation.test.ts:24 | "10.20.30" is accepted |
| Prompts.VersionsRejected | tools/partner-integration-cli/src/__tests__/validation.test.ts:28-30 | "" is refused as required; "1.0" and "v1.0.0" as badly formatted |
| Prompts.SuffixedVersionRejected | tools/partner-integration-cli/src/__tests__/validation.test.ts:31 | "1.0.0-beta" is refused as badly formatted |
| Prompts.ValidateEmail | tools/partner-integration-cli/src/shared/prompts.ts:160-164 | accepted iff the address pattern matches: a non-empty local part, one '@', and a domain with a dot inside; refused as required when blank, as invalid otherwise |
| Prompts.EmailShape | tools/partner-integration-cli/src/shared/prompts.ts:162 | an accepted address has exactly one '@', not at the start, and a dotted domain after it |
| Prompts.AtOnlyAt | tools/partner-integration-cli/src/shared/prompts.ts:162 | when neither side of position p holds '@' or white space, p is the only '@' |
| Prompts.EmailOf | tools/partner-integration-cli/src/shared/prompts.ts:162 | every non-empty local part without '@' or white space joined by '@' to a dotted domain is accepted |
| Prompts.SimpleAddressAccepted | tools/partner-integration-cli/src/__tests__/validation.test.ts:51 | "user@example.com" is accepted |
| Prompts.AddressWithoutAtRejected | tools/partner-integration-cli/src/__tests__/validation.test.ts:57 | "invalid-email" is refused as invalid |
| Prompts.AddressWithoutLocalPartRejected | tools/partner-integration-cli/src/__tests__/validation.test.ts:58 | "@example.com" is refused as invalid |
| Prompts.AddressWithoutDomainRejected | tools/partner-integration-cli/src/__tests__/validation.test.ts:59 | "user@" is refused as invalid |
| Prompts.ValidatePublisherId | tools/partner-integration-cli/src/shared/prompts.ts:166-172 | an accepted ID matches the publisher pattern; refused as required when blank, with the format message otherwise |
| Prompts.PublisherIdAcceptedIff | tools/partner-integration-cli/src/shared/prompts.ts:166-172 | accepted iff the publisher pattern matches; a one-character ID is always refused |
| Prompts.ValidatePartnerId | tools/partner-integration-cli/src/shared/prompts.ts:174-181 | an accepted ID matches the partner pattern; every rejection carries one of the three messages |
| Prompts.PartnerIdAcceptedIff | tools/partner-integration-cli/src/shared/prompts.ts:174-181 | accepted iff the partner pattern matches (the lower-case test adds no further refusal) |
| Prompts.UppercasePartnerIdRejected | tools/partner-integration-cli/src/shared/prompts.ts:176 | an ID holding an upper-case letter is refused as not lower case |
| Prompts.PublisherIdIsPartnerId | tools/partner-integration-cli/src/shared/prompts.ts:166-181 | every accepted publisher ID is an accepted partner ID |
| Prompts.SingleCharacterPartnerId | tools/partner-integration-cli/src/shared/prompts.ts:166-181 | a single lower-case letter or digit is a valid partner ID but not a valid publisher ID |
| Prompts.ValidateGuid | tools/partner-integration-cli/src/shared/prompts.ts:183-191 | accepted iff the trimmed input is 8-4-4-4-12 hex digits of either case; refused as required when blank, with the format message otherwise (the tenant-ID check is the same function) |
| Prompts.PaddedGuidAccepted | tools/partner-integration-cli/src/shared/prompts.ts:186 | a GUID with white space around it is accepted |
| Prompts.TrimOfPadded | tools/partner-integration-cli/src/shared/prompts.ts:186 | trimming removes exactly the surrounding white space from a padded GUID |
| Prompts.TestGuidsMatch | tools/partner-integration-cli/src/__tests__/validation.test.ts:65-66 | the lower-case and upper-case GUIDs of the test match the pattern |
| Prompts.LowerGuidMatches | tools/partner-integration-cli/src/__tests__/validation.test.ts:65 | "12345678-1234-1234-1234-123456789abc" matches the pattern |
| Prompts.UpperGuidMatches | tools/partner-integration-cli/src/__tests__/validation.test.ts:66 | "ABCDEF12-3456-7890-ABCD-EF1234567890" matches the pattern |
| Prompts.TestGuidsAccepted | tools/partner-integration-cli/src/__tests__/validation.test.ts:65-66 | both GUIDs of the test are accepted |
| Prompts.GuidAccepted | tools/partner-integration-cli/src/shared/prompts.ts:183-187 | every string matching the GUID pattern is accepted as it is |
| Prompts.TestGuidsRejected | tools/partner-integration-cli/src/__tests__/validation.test.ts:72-74 | "not-a-guid", a GUID one group short and one with two extra digits are refused with the format message |
| Prompts.WrongLengthGuidRejected | tools/partner-integration-cli/src/shared/prompts.ts:186 | a non-blank input with no white space at its ends and a length other than 36 is refused with the format message |
| Prompts.ValidateIdentityClaim | tools/partner-integration-cli/src/shared/prompts.ts:193-196 | accepted iff the trimmed input is exactly three ASCII letters; refused as required when blank, with the format message otherwise |
| Prompts.KnownClaimsAccepted | tools/partner-integration-cli/src/shared/prompts.ts:193-196 | "azp" and "oid" are accepted |
| Prompts.ValidateToolName | tools/partner-integration-cli/src/shared/prompts.ts:198-208 | an accepted name is lower-case letters, digits and dashes and is not the name of an existing tool; every rejection carries one of the three messages |
| Prompts.ToolNameAcceptedIff | tools/partner-integration-cli/src/shared/prompts.ts:198-208 | accepted iff the tool-name pattern matches and no existing tool has the name; a well-formed name already used is refused as already existing |
| Prompts.StripEdgeDashes | tools/partner-integration-cli/src/shared/prompts.ts:74 | removing one dash at either end never lengthens the text |
| Prompts.DropLeadingDash | tools/partner-integration-cli/src/shared/prompts.ts:74 | the text unchanged, or the text without its first character when that is a dash |
| Prompts.DropTrailingDash | tools/partner-integration-cli/src/shared/prompts.ts:74 | the text unchanged, or the text without its last character when that is a dash |
| Prompts.CollapsedIsSlugBody | tools/partner-integration-cli/src/shared/prompts.ts:72 | after each run of characters other than a-z and 0-9 becomes one dash, only slug characters are left and no two dashes are adjacent |
| Prompts.DashRunsOfSlugBody | tools/partner-integration-cli/src/shared/prompts.ts:73 | collapsing runs of dashes changes nothing once no two dashes are adjacent |
| Prompts.SlugBodySlice | tools/partner-integration-cli/src/shared/prompts.ts:72-74 | every slice of slug characters without adjacent dashes is again so |
| Prompts.DropLeadingOfSlugBody | tools/partner-integration-cli/src/shared/prompts.ts:74 | after the leading dash goes, the text does not start with a dash |
| Prompts.DropTrailingOfSlugBody | tools/partner-integration-cli/src/shared/prompts.ts:74 | after the trailing dash goes as well, the text is empty or a slug |
| Prompts.StripSlugBody | tools/partner-integration-cli/src/shared/prompts.ts:74 | removing the edge dashes leaves nothing or a slug |
| Prompts.StrippedIsSlug | tools/partner-integration-cli/src/shared/prompts.ts:69-74 | the three replacements applied to any lower-cased text give nothing or a slug |
| Prompts.DefaultIsSlug | tools/partner-integration-cli/src/shared/prompts.ts:66 | "partner-integration" is a slug |
| Prompts.NormalizeIntegrationName | tools/partner-integration-cli/src/shared/prompts.ts:64-77 | the result is always a slug: non-empty lower-case letters, digits and single dashes, with no dash at either end; its content is stated by NormalizeContent |
| Prompts.LowerTrimKeeps | tools/partner-integration-cli/src/shared/prompts.ts:70-71 | trimming before lower-casing loses no letter or digit |
| Prompts.StripKeeps | tools/partner-integration-cli/src/shared/prompts.ts:74 | removing the edge dashes loses no letter or digit |
| Prompts.SlugStepsKeep | tools/partner-integration-cli/src/shared/prompts.ts:72-74 | the three replacements keep the lower-case letters and digits of the text, in order, and add none |
| Prompts.NormalizeContent | tools/partner-integration-cli/src/shared/prompts.ts:64-77 | a name without ASCII letters or digits gives "partner-integration"; any other keeps exactly its letters and digits, lower-cased and in order |
| Prompts.NormalizeUntrimmed | tools/partner-integration-cli/src/shared/prompts.ts:64-77 | a name with no white space at its ends and a non-empty slug normalises to that slug |
| Prompts.SpacedWordsNormalize | tools/partner-integration-cli/src/shared/prompts.ts:64-77 | two words of ASCII letters and digits joined by a space normalise to the lower-cased words joined by '-' |
| Prompts.NormalizeExample | tools/partner-integration-cli/src/shared/prompts.ts:64-77 | "My App" normalises to "my-app" |
| Prompts.NormalizeSlug | tools/partner-integration-cli/src/shared/prompts.ts:64-77 | a slug normalises to itself |
| Prompts.NormalizeIdempotent | tools/partner-integration-cli/src/shared/prompts.ts:64-77 | normalising twice gives the same as normalising once |
| Prompts.NoAlphanumericGivesDefault | tools/partner-integration-cli/src/shared/prompts.ts:65-76 | a name without any ASCII letter or digit normalises to "partner-integration" |
| Prompts.NormalizedIsToolName | tools/partner-integration-cli/src/shared/prompts.ts:64-77 | every normalised name matches the tool-name pattern |
| Prompts.NonEmptyTrimmed | tools/partner-integration-cli/src/shared/prompts.ts:61-62 | the kept pieces are at most as many as the pieces, and each is non-empty and has nothing to trim |
| Prompts.TrimmedLacks | tools/partner-integration-cli/src/shared/prompts.ts:61 | trimming never adds a character |
| Prompts.NonEmptyTrimmedLacks | tools/partner-integration-cli/src/shared/prompts.ts:61-62 | a character that no piece holds is in none of the kept pieces |
| Prompts.SanitizeListInput | tools/partner-integration-cli/src/shared/prompts.ts:58-62 | every item is non-empty, has nothing to trim and holds no comma |
| Prompts.SplitWithoutSeparator | tools/partner-integration-cli/src/shared/prompts.ts:60 | text without the separator splits into itself alone |
| Prompts.SplitAtFirst | tools/partner-integration-cli/src/shared/prompts.ts:60 | splitting at the first separator gives the text before it followed by the split of the rest |
| Prompts.SanitizeJoined | tools/partner-integration-cli/src/shared/prompts.ts:58-62 | items joined with ", " read back as the same items, when each is non-empty, has no white space at its ends and holds no comma |
| Prompts.SanitizeJoinedAfter | tools/partner-integration-cli/src/shared/prompts.ts:58-62 | the same holds with white space in front of the joined text |
| Prompts.SanitizeStep | tools/partner-integration-cli/src/shared/prompts.ts:58-62 | reading back the first item and then the rest gives all the items |
| Prompts.PaddedItem | tools/partner-integration-cli/src/shared/prompts.ts:61 | a clean item with white space before it trims back to itself |
| Prompts.SingleTrimmed | tools/partner-integration-cli/src/shared/prompts.ts:61-62 | one piece that trims to a non-empty text is kept as that text |
| Prompts.NonEmptyTrimmedCons | tools/partner-integration-cli/src/shared/prompts.ts:61-62 | a first piece that is not blank is kept, trimmed, in front of the rest |
| Prompts.BuildManifestField | tools/partner-integration-cli/src/shared/prompts.ts:87-104 | type, description and required are kept; a default value is stored iff one is given and it is not blank |
| Prompts.StoredDefaultIsClean | tools/partner-integration-cli/src/shared/prompts.ts:99-100 | a stored default is the trimmed given value and is not blank, and building a field again from its own parts gives the same field |
| Prompts.BlankDefaultOmitted | tools/partner-integration-cli/src/shared/prompts.ts:99 | a default made only of white space is not stored |
| PromptInputTypes.GetInputDescription | tools/partner-integration-cli/src/shared/prompts.ts:460-483 | the table's description for a listed data type, "Data input for processing" for any other |
| PromptInputTypes.EveryChoiceDescribed | tools/partner-integration-cli/src/shared/prompts.ts:461-480 | every input type the prompt offers has a description, and the table describes no other type |
| SampleExtension.AnyKeywordIff | samples/DragonCopilot/Workflow/pythonSampleExtension/app/service.py:57 | `any(k in upper for k in keywords)` holds iff some keyword of the list occurs in the text |
| SampleExtension.KeywordGroups | samples/DragonCopilot/Workflow/pythonSampleExtension/app/service.py:9-60 | the blood-pressure group matches iff "BLOOD PRESSURE" or "BP" occurs; the diabetes group iff "DIABETES" or "DIABETIC" occurs |
| SampleExtension.MedicationGroup | samples/DragonCopilot/Workflow/pythonSampleExtension/app/service.py:12-61 | the medication group matches iff "MEDICATION", "PRESCRIBED", "TAKING" or "METFORMIN" occurs |
| SampleExtension.KindsFor | samples/DragonCopilot/Workflow/pythonSampleExtension/app/service.py:53-62 | a resource yields at most three entities, and none when its content is missing or empty |
| SampleExtension.KindsForIff | samples/DragonCopilot/Workflow/pythonSampleExtension/app/service.py:53-62 | a vital sign, a medical code and an observation concept are produced each iff its group has a keyword in the upper-cased content, and always in that order |
| SampleExtension.UpperIdempotent | samples/DragonCopilot/Workflow/pythonSampleExtension/app/service.py:56 | upper-casing twice is upper-casing once |
| SampleExtension.KindsIgnoreCase | samples/DragonCopilot/Workflow/pythonSampleExtension/app/service.py:56 | the entities of a resource do not depend on the case of its content |
| SampleExtension.KindsAppendOne | samples/DragonCopilot/Workflow/pythonSampleExtension/app/service.py:51-62 | one more resource adds exactly its own entities at the end |
| SampleExtension.KindsBound | samples/DragonCopilot/Workflow/pythonSampleExtension/app/service.py:51-62 | a note yields at most three entities per resource |
| SampleExtension.KindsAppend | samples/DragonCopilot/Workflow/pythonSampleExtension/app/service.py:51-62 | the entities of two runs of resources are those of the first followed by those of the second |
| SampleExtension.EmptyResourceAddsNothing | samples/DragonCopilot/Workflow/pythonSampleExtension/app/service.py:54-55 | a resource with no content changes nothing wherever it is |
| SampleExtension.KindCountAppend | samples/DragonCopilot/Workflow/pythonSampleExtension/app/service.py:254-256 | counting one kind over two lists adds the two counts |
| SampleExtension.GroupsCount | samples/DragonCopilot/Workflow/pythonSampleExtension/app/service.py:57-62 | each kind appears at most once per resource, exactly when its group matched |
| SampleExtension.KindCountIsMatchingResources | samples/DragonCopilot/Workflow/pythonSampleExtension/app/service.py:51-62 | the number of entities of a kind is the number of resources whose content matches that kind's keywords |
| SampleExtension.UuidTextInjective | samples/DragonCopilot/Workflow/pythonSampleExtension/app/service.py:90 | different uuids have different texts |
| SampleExtension.TypeNameInjective | samples/DragonCopilot/Workflow/pythonSampleExtension/app/models.py:27-39 | the three entity type names are pairwise different |
| SampleExtension.BuiltEntities | samples/DragonCopilot/Workflow/pythonSampleExtension/app/service.py:88-117 | the vital sign is 145.0 mmHg of high priority; the code is E11.9 in ICD-10-CM with its FHIR system URL and medium priority; the concept is "medication-concept-001" of medium priority; each entity carries its own uuid, and different groups give different entity types |
| SampleExtension.Build | samples/DragonCopilot/Workflow/pythonSampleExtension/app/service.py:88-117 | an entity carries the uuid it is given and the type of its kind |
| SampleExtension.EntitiesOf | samples/DragonCopilot/Workflow/pythonSampleExtension/app/service.py:58-90 | one entity per kind, the i-th with the i-th uuid drawn |
| SampleExtension.EntityIdsDistinct | samples/DragonCopilot/Workflow/pythonSampleExtension/app/service.py:90-113 | no two entities of a note share an id |
| SampleExtension.EntitiesOfSnoc | samples/DragonCopilot/Workflow/pythonSampleExtension/app/service.py:52-62 | appending a kind appends its entity with the next uuid |
| SampleExtension.EntitiesOfAppend | samples/DragonCopilot/Workflow/pythonSampleExtension/app/service.py:52-62 | the entities of two lists of kinds are those of the first then those of the second, numbered on |
| SampleExtension.EntitiesStep | samples/DragonCopilot/Workflow/pythonSampleExtension/app/service.py:52-62 | one turn of the loop adds the current resource's entities after those already built |
| SampleExtension.CountsSum | samples/DragonCopilot/Workflow/pythonSampleExtension/app/service.py:254-256 | the three type counts add up to the number of entities |
| SampleExtension.CountTypeOfKinds | samples/DragonCopilot/Workflow/pythonSampleExtension/app/service.py:254-256 | the entities of a type are as many as the kinds that build it |
| SampleExtension.SummaryCountsAreMatchingResources | samples/DragonCopilot/Workflow/pythonSampleExtension/app/service.py:51-62 | the vital, condition and medication counts of the summary are the numbers of resources matching the blood-pressure, diabetes and medication keywords |
| SampleExtension.EntityBlocks | samples/DragonCopilot/Workflow/pythonSampleExtension/app/service.py:138-149 | one block per entity, each the block of that entity |
| SampleExtension.CardBodyShape | samples/DragonCopilot/Workflow/pythonSampleExtension/app/service.py:121-164 | the header, the found-count line, one block per entity or the no-entities block, then the processed-at line |
| SampleExtension.AdaptiveCardOf | samples/DragonCopilot/Workflow/pythonSampleExtension/app/service.py:119-239 | the entity card under the given uuid and source uuid, with a version 1.3 payload of four blocks when there are no entities and of one block per entity plus three otherwise |
| SampleExtension.EntityBlockTexts | samples/DragonCopilot/Workflow/pythonSampleExtension/app/service.py:146-147 | an entity block shows the bold type name and then the uuid |
| SampleExtension.FoundTextNumber | samples/DragonCopilot/Workflow/pythonSampleExtension/app/service.py:131-160 | "Found 1 clinical entity …" for one entity, "Found n clinical entities …" otherwise; "Processed at" followed by the clock reading |
| SampleExtension.EntityListBlocks | samples/DragonCopilot/Workflow/pythonSampleExtension/app/service.py:137-157 | the loop builds the entity blocks in order, or the no-entities block when there are none |
| SampleExtension.AdaptiveCardFields | samples/DragonCopilot/Workflow/pythonSampleExtension/app/service.py:211-239 | the entity card has its own id, subtype "note", title "Dragon Predict", the Accept, Copy and Reject actions, one payload source with its uuid and the fixed copy text, and no logo |
| SampleExtension.SummaryFacts | samples/DragonCopilot/Workflow/pythonSampleExtension/app/service.py:253-263 | three facts, medications, conditions and vitals, counting the concepts, codes and vital signs; together they count every entity |
| SampleExtension.MedicationSummaryOf | samples/DragonCopilot/Workflow/pythonSampleExtension/app/service.py:241-284 | the summary card under the given uuids, stamped with the clock reading; its payload has two blocks, the second a fact set of three counts adding up to the number of entities |
| SampleExtension.TimelineCount | samples/DragonCopilot/Workflow/pythonSampleExtension/app/service.py:293 | the timeline names the number of entities |
| SampleExtension.TimelineOf | samples/DragonCopilot/Workflow/pythonSampleExtension/app/service.py:286-314 | the timeline card under the given uuids, stamped with the clock reading; its version 1.3 payload is one container whose second text counts all entities |
| SampleExtension.SummaryCardAsTested | samples/DragonCopilot/Workflow/pythonSampleExtension/app/tests/test_adaptive_card.py:42-65 | the summary card's title names "Medication"; it has actions and a version 1.3 payload; its copy data holds "demo:1" and ends with the clock reading |
| SampleExtension.TimelineCardAsTested | samples/DragonCopilot/Workflow/pythonSampleExtension/app/tests/test_adaptive_card.py:43-65 | the timeline card's title names "Timeline"; it has actions and a version 1.3 payload; its copy data holds "demo:1" and ends with the clock reading |
| SampleExtension.StoredAsDeclared | samples/DragonCopilot/Workflow/pythonSampleExtension/app/models.py:43-52 | a stored card has no actions and keeps its payload only when passed under the declared name; id, builder, sources and copy data are kept |
| SampleExtension.CardsAsWritten | samples/DragonCopilot/Workflow/pythonSampleExtension/app/service.py:211-314 | as written, the summary and timeline cards keep neither payload nor actions, and the entity card keeps its payload but no actions |
| SampleExtension.ResultAsWritten | samples/DragonCopilot/Workflow/pythonSampleExtension/app/models.py:43-52 | the result as stored (`NoteResultAsWritten`) has the same entities and documents as the intended one; the entity card keeps its payload but loses its actions; both composite cards keep kind, uuid and copy data but lose actions and payload, so the two results differ |
| SampleExtension.ResultAsIntended | samples/DragonCopilot/Workflow/pythonSampleExtension/app/tests/test_adaptive_card.py:42-65 | in the intended result every card, the composite ones too, keeps at least one action and a version 1.3 payload |
| SampleExtension.AsResources | samples/DragonCopilot/Workflow/pythonSampleExtension/app/service.py:64-68 | the entity response lists every entity, in order |
| SampleExtension.CompositeDocumentCases | samples/DragonCopilot/Workflow/pythonSampleExtension/app/service.py:80-83 | without a document the plugin result's document is the fixed title and type; with one, its title and type are copied, and a missing title becomes null |
| SampleExtension.CompositeDocument | samples/DragonCopilot/Workflow/pythonSampleExtension/app/service.py:80-83 | the plugin result's document has exactly the keys "title" and "type" |
| SampleExtension.NoteResultOf | samples/DragonCopilot/Workflow/pythonSampleExtension/app/service.py:48-86 | one entity resource per entity found, one card in the card response and two in the plugin result, whose document is the composite document |
| SampleExtension.ProcessResult | samples/DragonCopilot/Workflow/pythonSampleExtension/app/service.py:21-46 | always a success with the fixed message, with a payload iff the request has a note |
| SampleExtension.ProcessingService.constructor | samples/DragonCopilot/Workflow/pythonSampleExtension/app/service.py:9-13 | a new service uses the keyword table and has drawn no uuid and read no clock |
| SampleExtension.ProcessingService.NextUuid | samples/DragonCopilot/Workflow/pythonSampleExtension/app/service.py:90 | returns the next uuid and draws one more |
| SampleExtension.ProcessingService.Now | samples/DragonCopilot/Workflow/pythonSampleExtension/app/service.py:160 | returns the next clock reading and reads the clock once more |
| SampleExtension.ProcessingService.Process | samples/DragonCopilot/Workflow/pythonSampleExtension/app/service.py:21-46 | the response is the processing result, cards as built (see Findings), of the payload from the service's current uuid and clock counters |
| SampleExtension.ProcessingService.ProcessNote | samples/DragonCopilot/Workflow/pythonSampleExtension/app/service.py:48-86 | the three responses of the note, its cards as built (see Findings); one uuid per entity plus six and three clock readings are used |
| SampleExtension.ProcessingService.ExtractEntities | samples/DragonCopilot/Workflow/pythonSampleExtension/app/service.py:49-62 | the entities of the note's resources, numbered from the next uuid; no clock is read |
| SampleExtension.ProcessingService.ResourceEntities | samples/DragonCopilot/Workflow/pythonSampleExtension/app/service.py:53-62 | the entities of one resource's content, numbered from the next uuid |
| SampleExtension.ProcessingService.AdaptiveCard | samples/DragonCopilot/Workflow/pythonSampleExtension/app/service.py:119-239 | the entity card built from the next two uuids and the next clock reading |
| SampleExtension.ProcessingService.MedicationSummary | samples/DragonCopilot/Workflow/pythonSampleExtension/app/service.py:241-284 | the summary card built from the next two uuids and the next clock reading |
| SampleExtension.ProcessingService.Timeline | samples/DragonCopilot/Workflow/pythonSampleExtension/app/service.py:286-314 | the timeline card built from the next two uuids and the next clock reading |
| SampleExtension.ProcessResultShape | samples/DragonCopilot/Workflow/pythonSampleExtension/app/service.py:21-46 | always a success with the fixed message; a payload iff there is a note, and then the note's three responses |
| SampleExtension.NoteResultShape | samples/DragonCopilot/Workflow/pythonSampleExtension/app/service.py:48-86 | the entity response lists at most three entities per resource; the card response has the entity card; the plugin result has the summary card then the timeline card; the first two carry the note's document |
| SampleExtension.NoteResultUuids | samples/DragonCopilot/Workflow/pythonSampleExtension/app/service.py:48-86 | the entities take the first uuids in order and the three cards and their sources the next six, so all are different |
| SampleExtension.EmptyNoteCard | samples/DragonCopilot/Workflow/pythonSampleExtension/app/service.py:137-157 | with no entity the entity response is empty and the card has four blocks, the third the no-entities block |

## Left out

- Logging, HTTP transport, request routing, the web host set-up, the interactive prompt flows (`collectWithReview` and the `gather*` functions other than the manual note-section branch) and all DOM code are I/O or UI plumbing without decisions of their own.
- uuid4 and `Guid.NewGuid` are modelled as the number of the draw, and `datetime.now`/`DateTime.UtcNow` as a clock function of the reading's number. Their actual values are not modelled.
- KnownRoutes.StartsWithIgnoreCase: the culture-sensitive `StartsWith(route, StringComparison.InvariantCultureIgnoreCase)` is modelled as a same-length prefix test with case folded on ASCII letters. The invariant culture also skips ignorable code points such as the soft hyphen U+00AD, the zero-width space U+200B and U+0000, so it can match a prefix of a different length (`/he\u00ADalth` is public in the service). The model does not capture this. IsPublicRoute, PublicIff, CaseIgnored and ExtensionPublic describe the narrower test.
- Upper- and lower-casing (Python `upper`, JavaScript `toUpperCase`/`toLowerCase`, C# `InvariantCultureIgnoreCase`) are modelled on ASCII letters only. Other letters are left as they are.
- JavaScript string lengths count UTF-16 code units; here a string is a sequence of characters. The two agree on text without characters outside the Basic Multilingual Plane.
- `validateUrl` is not modelled, because it relies on the WHATWG URL parser.
- JSON-schema compilation and checking (AJV) is a library; its outcome is an input to `SchemaValidator.SchemaResult`. The js-yaml `dump` is a library too; only the text rewrites applied to its output are modelled.
- JSON and pydantic serialisation of responses are not modelled; results are Dafny values.
- Json numbers are integers; floating-point values do not occur in the rules modelled. Arrays and objects compare by identity in JavaScript, and two values from different places of a parsed document are never `===`: `Json.StrictEquals` holds only for equal primitives.
- The vital-sign value 145.0 is a Dafny `real`; no floating-point behaviour is modelled.
- SampleExtension.Build: the `context` argument the entity builders pass is not a declared field of the pydantic models, so the entities do not carry it.
- SampleExtension.AdaptiveCardOf: card texts are kept as labelled templates (`RenderText` gives their text); the emoji of the header and fallback texts are not spelled out.
- SampleExtension.ProcessingService.Process: returns the response with the cards as the code builds them, keeping the actions and payloads the builders pass. As stored, `VisualizationResource` drops them (see Findings); the stored result is `NoteResultAsWritten`, and ResultAsWritten states how it differs.
- SampleExtension.ProcessingService.ProcessNote: the same; its three responses carry the cards with the actions and payloads the builders pass, not the stored cards.
- SampleExtension.ProcessingService.AdaptiveCard: the entity card keeps its actions here; as stored it loses them (ResultAsWritten).
- SampleExtension.ProcessingService.MedicationSummary: the summary card keeps its actions and payload here; as stored it loses both (ResultAsWritten, CardsAsWritten).
- SampleExtension.ProcessingService.Timeline: the timeline card keeps its actions and payload here; as stored it loses both (ResultAsWritten, CardsAsWritten).
- SampleExtension.AdaptiveCardFields: states the actions the builder passes; the stored entity card has none (ResultAsWritten).
- SampleExtension.NoteResultOf: the cards as built, with actions and payloads; ProcessResult, AdaptiveCardOf, MedicationSummaryOf and TimelineOf likewise describe the cards as built, not as stored.
- Authorization.Request: header names are taken as already normalised to one spelling, so the case-insensitive header lookup of ASP.NET is not modelled.
- Text.ReplaceRuns: its own contract states which characters may occur in the result, not their order; the in-order content is stated by the lemma ReplaceRunsKeeps.
- ManifestYaml.Sanitize: its own contract only bounds the length. What the six steps do is stated by `SanitizeUnchanged` and by the entry lemmas `UnquotesYesNo`, `MismatchedQuotesKept`, `MismatchedQuotesKeptAsWritten` and `RemovesPlaceholder`. Each entry lemma covers one entry at the front of a text, followed by any text; longer texts follow entry by entry.
- ManifestYaml.UnquotesYesNo: the key in front must hold neither ':' nor '-'. A key that holds one, such as a URL, is not covered.
- ManifestYaml.MismatchedQuotesKept: the same restriction on the key, and the same for `MismatchedQuotesKeptAsWritten`.
- ManifestYaml.RemovesPlaceholder: the same restriction on the key. After a quoted placeholder, the text must not start with '_'. Otherwise the bare step could also remove a placeholder written right behind it, and that case is not stated.
- ManifestYaml.ListPlaceholderRemoved: states a text that is exactly "-", white space and the placeholder, not a list item inside a longer text.
- SchemaValidator.ValidateBusinessRules: requires a non-null manifest, because the source throws a `TypeError` on `null`; that exception is not modelled. The same holds for SchemaValidator.ValidateManifest and SchemaValidator.ValidIffPassedAndNoRuleErrors.
- SchemaValidator.ExtractFieldSchema: requires a non-null schema, because the source throws on the first property access of `null`.
- SchemaValidator.Step: `currentSchema[part]` is read as an own property of an object. Inherited members such as `constructor`, and the `length` and index properties of strings and arrays, are not found.
- PromptInputTypes.GetInputDescription: the object-literal lookup also finds inherited members such as `constructor`, as in `getFieldDisplayName`. Only the own-property lookup is modelled; the discrepancy is shown once, for `getFieldDisplayName`, under Findings.
- ManualNotes.ManualNoteState.RemoveChildSection: the key-conservation invariant is kept only when the child really is a child of the parent. The source calls it only so, from its own buttons.
- The near-duplicate editor in the connector CLI's web builder, the compiled `dist` copies and the connector copy of the description builder are not modelled separately.

## Findings

| source | as written | input that shows it | evidently intended | confidence | as-written member | corrected member |
|---|---|---|---|---|---|---|
| tools/dragon-copilot-cli/src/domains/partner/shared/yaml.ts:11-12 | the list-placeholder patterns are built from template literals, where `\s` is just `s`; they match a dash followed by letters s, not by white space | "- __NOTE_EMPTY__" keeps its placeholder | a dash followed by white space and the placeholder loses the placeholder, like ": __NOTE_EMPTY__" | not executed | ManifestYaml.ListPlaceholderKeptAsWritten | ManifestYaml.ListPlaceholderRemoved |
| tools/dragon-copilot-cli/src/shared/schema-validator.ts:300-315 | `fieldNames[path] \|\| path` also finds the members an object literal inherits | getFieldDisplayName("constructor") returns the Object constructor function, not a string | the display name of a known field, the path itself for any other path | not executed | SchemaValidator.ConstructorIsNotAName | SchemaValidator.FieldDisplayName |
| samples/DragonCopilot/Workflow/pythonSampleExtension/app/models.py:43-52 | `VisualizationResource` declares neither `actions` nor `adaptiveCardPayload`, so the summary and timeline cards built with them keep neither | any note: the plugin result's cards have no actions and no payload | each composite card keeps its actions and its version 1.3 payload, as the plugin-result test expects | not executed | SampleExtension.ResultAsWritten | SampleExtension.ResultAsIntended |
