# locnos rental and logistics core, in Dafny

This project models the core of locnos, a system for equipment rental and
delivery logistics, and proves properties of the model.

The centre is the rental-contract engine of the Python back-end, which covers:

- the contract and contract-item records;
- the request schemas that validate what a client sends;
- the router handlers that create, list, read, edit, move through the workflow and soft-delete contracts;
- the contract-number generator;
- the price calculation;
- the equipment-availability query.

Around it are the read-only properties and small in-place updates of the logistics records:

- persons, users, orders, routes, delivery receipts, vehicles and carriers;
- the person and registration schemas;
- the CORS setting parser.

Also modelled are the Node back-end's contract, equipment and payment documents, with their pre-save hooks and methods.

Modules follow the source files:

| file | models |
|---|---|
| `contract_models.dfy` | `app/models/contract.py`: statuses, records, guards, item subtotal |
| `contract_schemas.dfy` | `app/schemas/contract.py`: create, update, item-update, status and filter validation |
| `contract_workflow.dfy` | the transition table and the status change with its history note |
| `contract_numbers.dfy` | `generate_contract_number` |
| `contract_pricing.dfy` | `calculate_contract_totals` (a method with a loop) |
| `contract_availability.dfy` | `check_equipment_availability` and the reservation property |
| `contract_listing.dfy` | `list_contracts`: filters, order, paging |
| `contract_store.dfy` | the handlers, as methods of a `ContractStore` class |
| `legacy_contract.dfy`, `legacy_equipment.dfy`, `payment.dfy` | the Node models, as classes whose hooks update fields |
| `equipment.dfy` | `app/models/equipment.py` |
| `person.dfy` | `app/models/person.py` |
| `person_schema.dfy` | `app/schemas/person.py` |
| `user.dfy` | `app/models/user.py` |
| `auth_schema.dfy` | `app/schemas/auth.py` |
| `config.dfy` | `app/core/config.py` |
| `rota.dfy` | `app/models/rota.py`, as a `Route` class |
| `pedido.dfy` | `app/models/pedido.py` |
| `comprovante.dfy` | `app/models/comprovante_entrega.py`, as a class |
| `veiculo.dfy` | `app/models/veiculo.py` |
| `transportadora.dfy` | `app/models/transportadora.py` |
| `addresses.dfy`, `documents.dfy`, `text.dfy`, `wrappers.dfy` | shared pieces: address lines, CPF/CNPJ layouts, Python string operations, `Option`/`Result` |

Modelling conventions:

- **Numbers.** Money is exact (integer cents). Python dates are day numbers. JavaScript dates are millisecond counts. Other instants are integers.
- **Parameters.** The clock, the current year, the acting user and the rendered timestamp are parameters.
- **Null columns.** A nullable column is an `Option`. A null boolean reads as false, which is how Python and JavaScript treat it.
- **Errors.** Error paths are `Result` values that carry the HTTP error or the validation failures.

## Model

P = `locnos/backend-python/app`, J = `locnos/backend/models` (written out in full in the source column).

| member | source | states |
|---|---|---|
| ContractModels.NewContract | locnos/backend-python/app/api/v1/contracts.py:268-276 | a new contract has the given customer, dates and notes, status RASCUNHO, zero totals, no items and no workflow stamps |
| ContractModels.SubtotalNonNegative | locnos/backend-python/app/models/contract.py:137-147 | `daily_rate * quantity * total_days` is never negative for a non-negative rate, a positive quantity and a non-negative day count |
| ContractSchemas.ItemErrors | locnos/backend-python/app/schemas/contract.py:16-21 | an item is reported exactly when its quantity is below 1 or its rate is negative, with its position in the list |
| ContractSchemas.ContractCreateErrors | locnos/backend-python/app/schemas/contract.py:53-79 | a create request fails exactly when the end date is not after the start date, there are no items, or some item is out of bounds |
| ContractSchemas.AcceptedCreateBounds | locnos/backend-python/app/schemas/contract.py:60-79 | an accepted request has an inclusive day count of at least 2, at least one item, and only non-negative subtotals |
| ContractSchemas.ContractUpdateErrors | locnos/backend-python/app/schemas/contract.py:82-95 | an update request fails only when both dates are sent and the end date is not after the start date |
| ContractSchemas.LoneEndDateAccepted | locnos/backend-python/app/schemas/contract.py:88-95 | an end date sent without a start date is always accepted |
| ContractSchemas.ItemUpdateErrors | locnos/backend-python/app/schemas/contract.py:29-33 | the item bounds apply only to the fields that are present |
| ContractSchemas.FiltersErrors | locnos/backend-python/app/schemas/contract.py:173-181 | filters fail exactly when `page < 1` or `page_size` is outside 1..100 |
| ContractWorkflow.TableMatchesDocumentedFlow | locnos/backend-python/app/api/v1/contracts.py:120-140 | the transition table equals the documented flow, except that a cancelled contract cannot be cancelled again |
| ContractWorkflow.NoSelfLoopsAndFinalStates | locnos/backend-python/app/api/v1/contracts.py:131-138 | no status moves to itself; FINALIZADO and CANCELADO have no way out |
| ContractWorkflow.GuardsAgreeWithTable | locnos/backend-python/app/models/contract.py:77-100 | `can_be_approved`, `can_be_activated` and `can_be_cancelled` hold exactly when the table allows that move |
| ContractWorkflow.ActiveContractRules | locnos/backend-python/app/models/contract.py:72-100 | an active contract (`is_active`) cannot be edited, approved or activated but can be cancelled; its only moves are to finished or cancelled; only an approved contract becomes active; a deleted one is never active |
| ContractWorkflow.TransitionRaisesStage | locnos/backend-python/app/api/v1/contracts.py:131-140 | every allowed move keeps or raises the stage, and keeps it only inside the editing stage |
| ContractWorkflow.OnlyEditableStatusesRepeat | locnos/backend-python/app/api/v1/contracts.py:131-140 | along any run of allowed moves, only draft and waiting can recur, so each later timestamp is written at most once |
| ContractWorkflow.EditingEndsForGood | locnos/backend-python/app/api/v1/contracts.py:131-140 | once a run leaves the editable statuses, it never becomes editable again |
| ContractWorkflow.ApplyStatusChange | locnos/backend-python/app/api/v1/contracts.py:412-427 | the new status is set, with the target status's stamp; approval also records the approver, cancellation the reason; nothing else changes |
| ContractWorkflow.AppendStatusNote | locnos/backend-python/app/api/v1/contracts.py:429-434 | a non-empty note is appended as `[stamp] note` after a blank line, or replaces empty notes; an empty note changes nothing |
| ContractWorkflow.OneStatusNote | locnos/backend-python/app/api/v1/contracts.py:429-434 | one note gives exactly `notes + "\n\n[stamp] note"`, or `[stamp] note` when there are no notes |
| ContractWorkflow.NotesAccumulate | locnos/backend-python/app/api/v1/contracts.py:429-434 | after two status notes, the old notes and both entries appear in order |
| ContractNumbers.LastWithPrefix | locnos/backend-python/app/api/v1/contracts.py:43-46 | the number found has the year's prefix and no number of the year follows it in string order; none exactly when the year has no number |
| ContractNumbers.LastWithPrefixIsGreatest | locnos/backend-python/app/api/v1/contracts.py:43-46 | the number found is the string-order maximum of the year |
| ContractNumbers.ParseInt | locnos/backend-python/app/api/v1/contracts.py:50 | on the digit strings the generator stores: `int(s)` succeeds on a non-empty run of ASCII digits and gives its value; anything else is refused |
| ContractNumbers.GenerateContractNumber | locnos/backend-python/app/api/v1/contracts.py:35-55 | the result is `CON-YYYY-` and a zero-padded number, or the parse error of the last segment |
| ContractNumbers.GenerateFromLast | locnos/backend-python/app/api/v1/contracts.py:48-55 | with a last number, the next is its last `-` segment plus one |
| ContractNumbers.SuffixOrder | locnos/backend-python/app/api/v1/contracts.py:44-46 | among four-digit suffixes, string order is numeric order |
| ContractNumbers.FirstOfTheYear | locnos/backend-python/app/api/v1/contracts.py:52-55 | the first number of a year ends in `0001` |
| ContractNumbers.NewNumberIsFresh | locnos/backend-python/app/api/v1/contracts.py:35-55 | while every number of the year has four digits, the new number is unused and its suffix exceeds every existing one |
| ContractNumbers.DuplicateAfter9999 | locnos/backend-python/app/api/v1/contracts.py:46-55 | after `9999`, the five-digit number is handed out again, so it duplicates a stored one |
| ContractPricing.Priced | locnos/backend-python/app/api/v1/contracts.py:68-71 | each item's subtotal is `daily_rate * quantity * days`, with every other field kept |
| ContractPricing.SumOfPriced | locnos/backend-python/app/api/v1/contracts.py:68-73 | the sum of priced subtotals is the day count times the daily amount |
| ContractPricing.CalculateContractTotals | locnos/backend-python/app/api/v1/contracts.py:58-73 | returns the inclusive day count and the priced items; the total is both the sum of the subtotals and days times the daily amount |
| ContractPricing.PricingIdempotent | locnos/backend-python/app/api/v1/contracts.py:58-73 | pricing twice for the same day count changes nothing |
| ContractPricing.DailyAmountNonNegative | locnos/backend-python/app/schemas/contract.py:19-20 | items within their bounds have a non-negative daily amount |
| ContractPricing.ConsistentTotal | locnos/backend-python/app/api/v1/contracts.py:65-73 | a consistently priced contract with valid items and ordered dates has a non-negative total |
| ContractAvailability.SharedDayIsCaught | locnos/backend-python/app/api/v1/contracts.py:102-109 | every stored range that shares a day with the request meets one of the three conditions |
| ContractAvailability.ClauseOverlapExact | locnos/backend-python/app/api/v1/contracts.py:102-109 | for well-formed ranges, the three conditions hold exactly when the ranges share a day |
| ContractAvailability.QueryBoundaryCases | locnos/backend-python/app/api/v1/contracts.py:102-109 | an inverted stored range still conflicts; ranges meeting on the hand-over day conflict |
| ContractAvailability.MatchingItems | locnos/backend-python/app/api/v1/contracts.py:97-99 | a contract's joined rows for the equipment are its items for that equipment |
| ContractAvailability.ConflictCountZero | locnos/backend-python/app/api/v1/contracts.py:97-116 | the count is zero exactly when no contract among those counted conflicts |
| ContractAvailability.AvailabilityMeansNoConflict | locnos/backend-python/app/api/v1/contracts.py:76-117 | available exactly when no approved or active, undeleted, non-excluded contract holds the equipment on a shared day |
| ContractAvailability.ActiveContractBlocks | locnos/backend-python/app/models/contract.py:72-75 | the contracts the availability query counts are exactly the active ones (`is_active`) and the approved, undeleted ones |
| ContractAvailability.ReplacementKeepsNoDoubleBooking | locnos/backend-python/app/api/v1/contracts.py:97-101 | replacing a contract by one that blocks nothing, or blocks the same dates and items, keeps the store free of double bookings |
| ContractAvailability.TransitionKeepsNoDoubleBooking | locnos/backend-python/app/api/v1/contracts.py:131-140 | every allowed move other than approval keeps the store free of double bookings |
| ContractAvailability.ApprovalAfterCheckKeepsNoDoubleBooking | locnos/backend-python/app/api/v1/contracts.py:76-117 | approval keeps it when every item passes the availability check with the contract itself excluded |
| ContractAvailability.ApprovalWithoutCheckCanDoubleBook | locnos/backend-python/app/api/v1/contracts.py:259-265 | two pending contracts for the same equipment and days both pass creation and both can be approved, double-booking the equipment |
| ContractListing.MatchingIds | locnos/backend-python/app/api/v1/contracts.py:168-182 | the ids of the contracts that pass the status, customer and start-date filters are existing positions |
| ContractListing.MatchingIdsSound | locnos/backend-python/app/api/v1/contracts.py:168-182 | every listed id is an undeleted contract that passes the status, customer and start-date filters |
| ContractListing.MatchingIdsComplete | locnos/backend-python/app/api/v1/contracts.py:168-182 | every undeleted contract that passes those filters is listed |
| ContractListing.MatchingIdsDescending | locnos/backend-python/app/api/v1/contracts.py:191-193 | the listed ids strictly decrease: newest first, none twice |
| ContractListing.MatchingIdsExact | locnos/backend-python/app/api/v1/contracts.py:168-199 | without a search, the listed ids are exactly the matching contracts, each once, newest first |
| ContractListing.MatchingIdsIgnorePaging | locnos/backend-python/app/api/v1/contracts.py:191-199 | page number and page size do not change which contracts match |
| ContractListing.Window | locnos/backend-python/app/api/v1/contracts.py:195-199 | `.offset(lo).limit(len)` gives the entries from `lo`, at most `len` of them, clamped to the list |
| ContractListing.TotalPagesIsCeiling | locnos/backend-python/app/api/v1/contracts.py:218 | `(total + size - 1) // size` is the least page count that holds every result |
| ContractListing.ListContracts | locnos/backend-python/app/api/v1/contracts.py:147-226 | out-of-range paging is rejected (422); a truthy search always fails (500), because the `Person.name` filter of lines 184-190 names an attribute `Person` does not have; otherwise the page holds the right slice of the newest-first matches, with their total and page count |
| ContractListing.ListedPageAt | locnos/backend-python/app/api/v1/contracts.py:192-226 | the page returned is the window of the matches at the page's offset |
| ContractListing.PageOfPosition | locnos/backend-python/app/api/v1/contracts.py:195-218 | result `k` is on page `k / size + 1`, at entry `k % size`, and that page is counted |
| ContractListing.MatchOnPage | locnos/backend-python/app/api/v1/contracts.py:195-218 | entry `m` of page `p` is result `(p - 1) * size + m`, and page `p` is counted |
| ContractListing.ListedContractsMatch | locnos/backend-python/app/api/v1/contracts.py:168-199 | every listed contract passes the status, customer and start-date filters; soft-deleted contracts are never listed |
| ContractStore.GetContract | locnos/backend-python/app/api/v1/contracts.py:307-330 | a contract is found exactly when its id exists and it is not soft-deleted; otherwise 404 |
| ContractStore.NoItemProblem | locnos/backend-python/app/api/v1/contracts.py:250-265 | no item is refused exactly when every item's equipment exists and is available |
| ContractStore.CheckItems | locnos/backend-python/app/api/v1/contracts.py:250-265 | the loop reports the first missing or unavailable equipment, in item order, or none |
| ContractStore.BuildItems | locnos/backend-python/app/api/v1/contracts.py:278-289 | one unpriced item per request item, in order, with its equipment, quantity, rate and notes |
| ContractStore.CreatedFromTotals | locnos/backend-python/app/api/v1/contracts.py:289-296 | the contract built from the computed totals is the specified created contract |
| ContractStore.CreatedContractWellKept | locnos/backend-python/app/api/v1/contracts.py:229-304 | a created contract is a stamp-free draft with valid items, at least two days and a total of days times daily amount |
| ContractStore.CreateKeepsNoDoubleBooking | locnos/backend-python/app/api/v1/contracts.py:268-276 | creation stores a draft and never creates a double booking |
| ContractStore.CreateKeepsNumbersDistinct | locnos/backend-python/app/api/v1/contracts.py:268-300 | a contract that passes every check, the unique number included, gets a number no stored contract has, so the `unique=True` constraint of locnos/backend-python/app/models/contract.py:34 keeps holding |
| ContractStore.ReplaceKeepsNumbersDistinct | locnos/backend-python/app/api/v1/contracts.py:360-376 | an edit, status change or soft delete keeps the contract's number, so the numbers stay distinct |
| ContractStore.CreateAfter9999Refused | locnos/backend-python/app/api/v1/contracts.py:268-300 | once `CON-YYYY-9999` and `CON-YYYY-10000` are stored, every later creation of the year fails at the commit with the duplicate number |
| ContractStore.ApplyEdit | locnos/backend-python/app/api/v1/contracts.py:360-374 | dates and notes given are applied (notes also when empty); with a date given, days, subtotals and total are recomputed; nothing else changes |
| ContractStore.EditKeepsWellKept | locnos/backend-python/app/api/v1/contracts.py:333-379 | an edit keeps the contract well kept and editable, with the same status and items, and a total of days times daily amount |
| ContractStore.LoneEndDateCanInvertDates | locnos/backend-python/app/api/v1/contracts.py:361-374 | an end date sent alone can leave the end before the start, with a day count below one |
| ContractStore.EditKeepsNoDoubleBooking | locnos/backend-python/app/api/v1/contracts.py:354-358 | edits apply only to editable contracts and never create a double booking |
| ContractStore.StatusChangeKeepsWellKept | locnos/backend-python/app/api/v1/contracts.py:382-439 | every allowed status change keeps a live contract well kept |
| ContractStore.StatusChangeKeepsNoDoubleBooking | locnos/backend-python/app/api/v1/contracts.py:405-427 | a status change other than approval never creates a double booking |
| ContractStore.DeletedIsGone | locnos/backend-python/app/api/v1/contracts.py:442-473 | a soft-deleted contract is no longer found, edited, moved or deleted, but its number still counts |
| ContractStore.DeleteKeepsNoDoubleBooking | locnos/backend-python/app/api/v1/contracts.py:464-470 | only drafts are deleted, so deleting never creates a double booking |
| ContractStore.ContractStore.CreateContract | locnos/backend-python/app/api/v1/contracts.py:229-304 | on success, appends exactly the created contract and returns its id; a generated number that is already stored fails at the commit; on any error the store is unchanged; stored numbers stay distinct |
| ContractStore.ContractStore.UpdateContract | locnos/backend-python/app/api/v1/contracts.py:333-379 | on success, replaces only that contract by its edit; on any error the store is unchanged; the store stays valid |
| ContractStore.ContractStore.UpdateContractStatus | locnos/backend-python/app/api/v1/contracts.py:382-439 | on success, replaces only that contract by the changed one with its note; on any error the store is unchanged |
| ContractStore.ContractStore.DeleteContract | locnos/backend-python/app/api/v1/contracts.py:442-473 | on success, marks only that draft as deleted; on any error the store is unchanged |
| LegacyContract.ExclusiveDayCount | locnos/backend/models/Contract.model.js:313-318 | a rental of exactly `k` days counts `k` days, where the Python back-end counts `k + 1` |
| LegacyContract.DayCountRoundsUp | locnos/backend/models/Contract.model.js:313-318 | any part of a day counts as a whole day; ordered dates give at least one day |
| LegacyContract.LastFour | locnos/backend/models/Contract.model.js:306 | `slice(-4)` is the last four characters, or the whole text when shorter |
| LegacyContract.LeadingDigits | locnos/backend/models/Contract.model.js:306 | the digits `parseInt` reads: a digit prefix followed by a non-digit or the end |
| LegacyContract.ParseIntOfDigits | locnos/backend/models/Contract.model.js:306 | `parseInt` of a digit string is its value |
| LegacyContract.MonthPrefix | locnos/backend/models/Contract.model.js:295-296 | the prefix is a digit string of at least three characters |
| LegacyContract.MonthPrefixShape | locnos/backend/models/Contract.model.js:295-296 | for a month from 1 to 12, the prefix is the year's digits followed by exactly two digits that read as the month |
| LegacyContract.SequenceTextOfNat | locnos/backend/models/Contract.model.js:310 | a sequence number renders zero-padded to four digits |
| LegacyContract.FirstOfTheMonth | locnos/backend/models/Contract.model.js:304-310 | the first number of a month ends in `0001` |
| LegacyContract.LegacyNumberIsFresh | locnos/backend/models/Contract.model.js:293-311 | while every number of the month has four digits, the next is unused and above every sequence of the month |
| LegacyContract.LegacyDuplicateAfter9999 | locnos/backend/models/Contract.model.js:298-310 | after `9999`, the hook hands out a number that is already stored |
| LegacyContract.ExtraDaysOnlyWhenLate | locnos/backend/models/Contract.model.js:320-328 | extra days are overwritten exactly when the actual end is after the planned end |
| LegacyContract.LegacyContractDoc.constructor | locnos/backend/models/Contract.model.js:19-32 | a new document is a numberless quotation with zero extra days and nothing paid |
| LegacyContract.LegacyContractDoc.PreSave | locnos/backend/models/Contract.model.js:293-334 | a number only when there is none, rental days when both dates are set, extra days only after a late return, balance = total − paid; other fields unchanged |
| LegacyContract.LateFeeOnlyWhenOverdue | locnos/backend/models/Contract.model.js:336-354 | no fee unless overdue; otherwise every started day past the end times the daily fee, at least one day |
| LegacyEquipment.FirstPrimary | locnos/backend/models/Equipment.model.js:270 | the position found is the first image flagged primary, or none |
| LegacyEquipment.LegacyEquipmentDoc.constructor | locnos/backend/models/Equipment.model.js:124-157 | a new document is available, with one unit in total and available, and none rented, reserved or in maintenance |
| LegacyEquipment.LegacyEquipmentDoc.PrimaryImage | locnos/backend/models/Equipment.model.js:269-272 | the first primary image's url, else the first image's, else null |
| LegacyEquipment.LegacyEquipmentDoc.PreSave | locnos/backend/models/Equipment.model.js:302-312 | the total becomes the sum of the four counts, which are unchanged |
| LegacyEquipment.AvailableForOne | locnos/backend/models/Equipment.model.js:275-277 | one unit is available exactly when the status is available and a unit is free |
| LegacyEquipment.PriceTiers | locnos/backend/models/Equipment.model.js:280-299 | the tier chosen; a monthly or weekly price covers the rental with the fewest whole months or weeks |
| LegacyEquipment.InvertedDatesPriceNegative | locnos/backend/models/Equipment.model.js:280-299 | an end before the start with a daily rate gives a negative price |
| EquipmentModel.AvailabilityAgreesWithLegacy | locnos/backend-python/app/models/equipment.py:155-158 | for one unit, the Python and Node availability agree |
| EquipmentModel.FirstPrimaryEntry | locnos/backend-python/app/models/equipment.py:163-166 | the entry found is the first object entry with a truthy `isPrimary` |
| EquipmentModel.PrimaryImage | locnos/backend-python/app/models/equipment.py:160-168 | the url of the first primary entry, else of the first entry, else None; None for a null, empty or non-list column |
| EquipmentModel.PrimaryEntryWins | locnos/backend-python/app/models/equipment.py:163-166 | a primary entry's url is returned whatever follows it |
| Documents.CpfFormatKeepsDigits | locnos/backend-python/app/models/person.py:212-215 | the CPF layout only adds punctuation: its digits are the stored text's digits |
| Documents.CnpjFormatKeepsDigits | locnos/backend-python/app/models/person.py:216-219 | the same for the CNPJ layout |
| Documents.CpfLayout | locnos/backend-python/app/models/person.py:213-215 | an 11-character CPF gives `ddd.ddd.ddd-dd`: 14 characters, punctuation at 3, 7, 11 |
| Documents.CnpjLayout | locnos/backend-python/app/models/person.py:217-219 | a 14-character CNPJ gives `dd.ddd.ddd/dddd-dd`: 18 characters, punctuation at 2, 6, 10, 15 |
| AuthSchemas.ValidateDocument | locnos/backend-python/app/schemas/auth.py:39-53 | the result is the digits of the input, rejected exactly when the seen type is CPF without 11 digits or CNPJ without 14 |
| AuthSchemas.RegisterErrors | locnos/backend-python/app/schemas/auth.py:30-53 | each field is reported exactly when its own rule fails, in declaration order |
| AuthSchemas.RegisterAccepted | locnos/backend-python/app/schemas/auth.py:30-53 | a body is accepted exactly when name, password, type and number meet their rules; the stored number is the digits |
| AuthSchemas.FormattedCpfRegisters | locnos/backend-python/app/schemas/auth.py:36-53 | a punctuated CPF registers as its 11 bare digits |
| AuthSchemas.FormattedCnpjRegisters | locnos/backend-python/app/schemas/auth.py:36-53 | a punctuated CNPJ (18 characters, the upper bound) registers as its 14 digits |
| AuthSchemas.RegisterIdempotent | locnos/backend-python/app/schemas/auth.py:39-53 | validating an accepted registration again gives it back unchanged |
| AuthSchemas.BadTypeSkipsDigitCount | locnos/backend-python/app/schemas/auth.py:46-51 | with a type other than CPF or CNPJ, only the type is reported, never the number |
| AuthSchemas.RegisteredPasswordAccepted | locnos/backend-python/app/schemas/auth.py:27-34 | every registered password meets the six-character bound of login, reset and change |
| Config.Unbracket | locnos/backend-python/app/core/config.py:48-50 | a bracketed text loses exactly its first and last character; any other is unchanged |
| Config.CleanPieces | locnos/backend-python/app/core/config.py:52 | one origin per non-blank piece, at most one per piece |
| Config.CleanPiecesSound | locnos/backend-python/app/core/config.py:52 | every origin is the cleaned form of a non-blank piece |
| Config.CleanPiecesComplete | locnos/backend-python/app/core/config.py:52 | every non-blank piece contributes its cleaned origin |
| Config.CorsOrigins | locnos/backend-python/app/core/config.py:44-55 | text: origins are exactly the cleaned non-blank comma pieces and hold no comma; a list passes through; anything else gives none |
| Config.SingleOrigin | locnos/backend-python/app/core/config.py:46-52 | a comma-free text gives one origin, or none when blank |
| Config.QuotedEmptyPieceSurvives | locnos/backend-python/app/core/config.py:52 | a piece `""` is kept, as an empty origin |
| Addresses.AddressOutcomes | locnos/backend-python/app/models/person.py:223-242 | no object gives "not registered"; no usable part gives "incomplete"; otherwise one part per usable slot, joined by ", " |
| Addresses.CompleteAddressLine | locnos/backend-python/app/models/person.py:228-242 | with every field filled, the line lists them all in the fixed order |
| Addresses.CityNeedsState | locnos/backend-python/app/models/person.py:237-238 | a city without a state, or a state without a city, adds nothing |
| Addresses.PersonAndPedidoAgree | locnos/backend-python/app/models/pedido.py:275-296 | the person and order formatters agree for the same values under their key names |
| PersonModel.RolesFromTypes | locnos/backend-python/app/models/person.py:181-199 | each role flag holds exactly when its type is in the list; no list, no role |
| PersonModel.DisplayNameChoice | locnos/backend-python/app/models/person.py:201-207 | a CPF shows the full name, a CNPJ the trade name, then the company name, else "Sem nome"; never empty |
| PersonModel.FormattedDocumentShape | locnos/backend-python/app/models/person.py:209-220 | the document of the person's kind keeps its digits and has the expected length; otherwise "Sem documento" |
| PersonModel.FullAddressLine | locnos/backend-python/app/models/person.py:222-242 | the three outcomes of the person's address line, and the full line when everything is filled |
| PersonSchemas.CompleteReferences | locnos/backend-python/app/schemas/person.py:151 | counts the references with name, phone and relationship all non-empty |
| PersonSchemas.PersonErrors | locnos/backend-python/app/schemas/person.py:123-161 | each field is reported exactly when its rule fails, in declaration order |
| PersonSchemas.BoundedReferencesComplete | locnos/backend-python/app/schemas/person.py:13-19 | references within their length bounds are all complete |
| PersonSchemas.PersonAccepted | locnos/backend-python/app/schemas/person.py:81-161 | a body is accepted exactly when all the type, name, document, phone, reference and driver rules hold |
| PersonSchemas.InvalidTypesHideRoleRules | locnos/backend-python/app/schemas/person.py:146-161 | with an unknown type, a client without references or a driver without data is reported only for its types |
| RouteModel.AddId | locnos/backend-python/app/models/rota.py:304-306 | an absent id is appended at the end; a present one changes nothing |
| RouteModel.RemoveFirst | locnos/backend-python/app/models/rota.py:315-317 | the first occurrence is removed and the rest keep their order |
| RouteModel.AddKeepsDistinct | locnos/backend-python/app/models/rota.py:304-306 | adding keeps a list without duplicates, and adding twice is adding once |
| RouteModel.RemoveFromDistinct | locnos/backend-python/app/models/rota.py:315-317 | in a list without duplicates, removal leaves no trace of the id and keeps the others |
| RouteModel.RemoveUndoesAdd | locnos/backend-python/app/models/rota.py:293-317 | removing a just-added id gives the list back |
| RouteModel.Route.constructor | locnos/backend-python/app/models/rota.py:96-111 | a new route is planned, with an empty list and zero counters |
| RouteModel.Route.AdicionarPedido | locnos/backend-python/app/models/rota.py:293-306 | a non-list becomes empty; an absent id is appended and the counter set to the length; consistency is kept |
| RouteModel.Route.RemoverPedido | locnos/backend-python/app/models/rota.py:308-317 | with the id in a list, its first occurrence is removed and the counter set to the length; otherwise nothing changes |
| RouteModel.StatusPhases | locnos/backend-python/app/models/rota.py:240-248 | editable and in progress overlap only while loading; finished and cancelled are neither |
| RouteModel.CompletionFollowsCounts | locnos/backend-python/app/models/rota.py:250-257 | no orders means not complete; otherwise complete once concluded plus failed reach the order count, and it stays so |
| RouteModel.AddThenRemove | locnos/backend-python/app/models/rota.py:293-317 | adding then removing an order restores a consistent route's list and counter |
| PedidoModel.OneStepAtATime | locnos/backend-python/app/models/pedido.py:233-246 | at most one warehouse step is open, and none after shipping |
| PedidoModel.LatenessRules | locnos/backend-python/app/models/pedido.py:248-260 | late exactly when there is a forecast, the order is open, and the clock is past the forecast; lateness persists |
| PedidoModel.DeliveryAddressLine | locnos/backend-python/app/models/pedido.py:274-296 | the three outcomes of the delivery address, and the full line when everything is filled |
| UserModel.StreetPart | locnos/backend-python/app/models/user.py:130 | a set street opens the line with `street, number`, or "None" for a missing number |
| UserModel.CityPart | locnos/backend-python/app/models/user.py:133 | a set city gives `city/state`, or "None" for a missing state |
| UserModel.DependentParts | locnos/backend-python/app/models/user.py:129-136 | without a street the number is ignored; without a city the state is ignored |
| UserModel.CompleteUserAddress | locnos/backend-python/app/models/user.py:126-136 | with every column set, all five parts appear in order, joined by " - " |
| UserModel.NoAddress | locnos/backend-python/app/models/user.py:126-136 | with no address column set, the line is empty |
| UserModel.AccountFlags | locnos/backend-python/app/models/user.py:117-124 | active exactly when the status is ACTIVE; admin exactly when the role is ADMIN or SUPER_ADMIN; each flag ignores the other column |
| ComprovanteModel.ComprovanteEntrega.constructor | locnos/backend-python/app/models/comprovante_entrega.py:101-159 | a new receipt has the column defaults: successful, nothing captured, empty lists |
| ComprovanteModel.ComprovanteEntrega.AdicionarOcorrencia | locnos/backend-python/app/models/comprovante_entrega.py:293-314 | one unresolved incident is appended after the existing ones and the flag set; nothing else changes |
| ComprovanteModel.ComprovanteEntrega.AdicionarFotoAdicional | locnos/backend-python/app/models/comprovante_entrega.py:316-337 | one photo entry is appended after the existing ones; nothing else changes |
| ComprovanteModel.CompletenessRules | locnos/backend-python/app/models/comprovante_entrega.py:242-254 | a failed delivery needs a note; a successful one needs receiver, signature or photo, and geolocation |
| ComprovanteModel.TwoIncidents | locnos/backend-python/app/models/comprovante_entrega.py:293-314 | two incidents land at the end in arrival order, both unresolved |
| VeiculoModel.NormalizePlate | locnos/backend-python/app/models/veiculo.py:261 | the normalised plate holds no dash or space and is no longer than the input |
| VeiculoModel.RouteReadiness | locnos/backend-python/app/models/veiculo.py:216-224 | a vehicle fit for a route is available in status and flag, and not in maintenance |
| VeiculoModel.MaintenanceByMileage | locnos/backend-python/app/models/veiculo.py:226-239 | with both mileages set, the alert is `km left <= 500`; a zero mileage falls back on the date; with neither, no alert |
| VeiculoModel.LoadCheck | locnos/backend-python/app/models/veiculo.py:294-312 | refused exactly when too heavy, or when both volumes are given and it is too bulky; a lighter load also fits |
| VeiculoModel.DashDropped | locnos/backend-python/app/models/veiculo.py:261 | a dash between two normalised parts is dropped |
| VeiculoModel.PlateFormatIdempotent | locnos/backend-python/app/models/veiculo.py:255-268 | the formatted plate normalises back to the same characters, and formatting it again changes nothing |
| VeiculoModel.PlateLayouts | locnos/backend-python/app/models/veiculo.py:255-268 | seven characters are returned as they are; other lengths get a dash after the third |
| VeiculoModel.OldPlateLosesDash | locnos/backend-python/app/models/veiculo.py:261-265 | "ABC-1234" is shown as "ABC1234" |
| CarrierModel.ScanFindsMatch | locnos/backend-python/app/models/transportadora.py:271-282 | the early-return loop finds a match exactly when some entry matches |
| CarrierModel.Availability | locnos/backend-python/app/models/transportadora.py:198-201 | available exactly when active and not blocked |
| CarrierModel.CnpjShape | locnos/backend-python/app/models/transportadora.py:211-218 | empty without a CNPJ; otherwise the CNPJ's digits, and 18 punctuated characters for 14 |
| CarrierModel.RegionRules | locnos/backend-python/app/models/transportadora.py:257-282 | an empty list serves nowhere; with a state, some object entry must match city and state; without, the city |
| CarrierModel.RegionQueryInsensitive | locnos/backend-python/app/models/transportadora.py:271-282 | the answer ignores the query's case, and non-object entries never change it |
| PaymentModel.Payment.constructor | locnos/backend/models/Payment.model.js:40-45 | a new payment is pending, with no payment date |
| PaymentModel.Payment.PreSave | locnos/backend/models/Payment.model.js:125-130 | the status becomes paid exactly when `paidAt` was set by this save on a pending payment; nothing else changes |
| PaymentModel.SaveStatusRules | locnos/backend/models/Payment.model.js:125-130 | the hook only moves pending to paid, only with a newly set date, and saving again adds nothing |
| PaymentModel.OverdueRules | locnos/backend/models/Payment.model.js:133-138 | paid or undated is never overdue; otherwise overdue exactly after the due date, and it stays so |
| PaymentModel.DescriptionRules | locnos/backend/models/Payment.model.js:141-154 | a non-empty description wins, else the type's label, else "Pagamento"; never empty |
| PaymentModel.PayAndSave | locnos/backend/models/Payment.model.js:124-138 | setting the date of a pending payment and saving makes it paid and never overdue |

## Left out

- Response building is not modelled. `_build_contract_response` (locnos/backend-python/app/api/v1/contracts.py:480-486) and the list items (line 206) read `contract.customer.name`. `Person` has no `name`, so in the source every get, create, update and status response, and every non-empty list page, ends in a server error, for the mutating handlers after their commit. The Ok results of ContractStore.GetContract, ListContracts and the store methods stand for the contract found or listed and for the committed state, not for a response the client receives.
- ContractNumbers.ParseInt: Python's `int` also accepts surrounding whitespace, a sign, underscores between digits and non-ASCII digits; the model refuses them. Stored numbers are only ever generated, so the generator never meets such text.
- LegacyContract.LegacyContractDoc.PreSave: the hook is modelled on its own. In a mongoose `save()`, validation runs before `pre('save')` hooks and `contractNumber` is required (locnos/backend/models/Contract.model.js:5-8), so a validated save of a document without a number fails before the numbering branch runs. That validation error is not modelled.
- Database, ORM and HTTP plumbing are not modelled. This covers sessions, commits, joins and relationship loading, response building (`_build_contract_response`), authentication and permission dependencies, and pydantic's error texts. A handler's error is a value naming the HTTP error.
- Concurrency is not modelled: two requests that generate the same contract number, or pass the same availability check, at the same time.
- Real-valued arithmetic is exact. `Decimal` money is integer cents. Python and JavaScript floats (`pode_carregar`'s `float(...)`, JavaScript `Number`) are unbounded integers.
- Some floating-point members are left out entirely: `calcular_frete`, `taxa_entrega_no_prazo`, `progresso_percentual`, `calcular_eficiencia`, `calcular_custo_rota`, `coordenadas_formatadas` and `link_google_maps`.
- The clock is a parameter. Members that only read it are left out: `duracao_real_minutos`, `esta_atrasada`, `dias_desde_faturamento`, `tempo_desde_entrega` and `documentacao_em_dia`.
- Timezones and `datetime` arithmetic are integer instants.
- `precisa_manutencao` compares seconds with seven days of 86400 seconds.
- String case mapping, whitespace and digit classes are ASCII only. Python's Unicode `upper`/`lower`/`strip`/`\D` and SQL collation are not modelled.
- ContractListing.ListContracts: the search on contract number and customer name that the handler intends is not modelled. The handler filters on `Person.name`, which the `Person` model (locnos/backend-python/app/models/person.py:62-68) does not declare, so a truthy search is modelled as the server error it raises.
- `ORDER BY created_at DESC` is the reverse of insertion order.
- JSON columns hold text values only. An address, image or served-city object with a non-text value, a `None` value or a nested value is not modelled. A non-object entry is kept as a distinct case.
- The persistence of in-place JSON list mutation (SQLAlchemy change tracking) is not modelled. The route and receipt methods update the field directly.
- ContractStore.ContractStore.CreateContract: the customer and equipment tables are sets of existing ids, and the contract id is the store position. UUIDs are not modelled.
- `EmailStr` validation, `rg`, trade-name and registration bounds, and the address, document and role-data sub-schemas are not modelled. Only their presence is. The `PersonUpdate` schema is not modelled either.
- VeiculoModel.PlateLayouts: a plate shorter than three characters after normalisation is not stated separately. The function covers it through Python's clamped slices.
- A route's null counters (`quantidade_*` columns without a value) are taken as integers. `sequencia_entregas` and the other route JSON columns are not updated by the modelled methods and are left out.
- The Node contract's `isOverdue`/`calculateLateFee` read the clock, which is the parameter `now`. Mongoose's `isModified` is the parameter `paidAtModified`.
