# ZeroPerda core, modelled in Dafny

ZeroPerda is a small stock-expiry app. A user keeps **sections** (shelves),
**products** inside sections, and **batches** (lots) of a product. Each batch
has a quantity, an expiration date and a status: active, consumed or
discarded. The dashboard lists the active batches, grouped by section and
then by product, so the first batch to expire comes first. Batches that
expire within three days are flagged as critical. A bulk-import page reads
`SECTION<TAB>PRODUCT` rows pasted from a spreadsheet and registers them.

This project models the sequential logic of that app and proves what each
piece promises:

- `wrappers.dfy`: `Option`, `Result` and `Outcome`.
- `text.dfy` (`Text`): the JavaScript string operations the app relies on.
  These are `trim`, character-wise `toUpperCase`, `split` and `join` on a
  single character, `reverse`, case-insensitive equality (the `ilike` match)
  and code-point order.
- `decimal.dfy` (`Decimal`): integers to and from decimal text, and the
  zero-padded two-digit day.
- `database_types.dfy` (`DatabaseTypes`): the `Section`, `Product` and
  `Batch` rows, with the status as an enumeration.
- `batch_service.dfy` (`BatchService`): the data-access layer.
  - The days-remaining and date-label calculations.
  - The remote tables as a class `Store` with sequence fields: find-or-create
    for `createBatch` and the `importProducts` loop, the active-batch query,
    the status update, the quick add and the product deletion.
- `import_page.dfy` (`ImportPage`): the TSV parser and its first-error
  semantics.
- `app.dfy` (`Dashboard`): the critical filter, the grouping loops by
  section and by product, the sorted section keys and the distinct-product
  count.
- `quantity_input.dfy` (`QuantityInput`): the clamped step buttons and the
  text shown for a value.
- `product_group_card.dfy` (`ProductGroupCard`): the stock total, the lot
  label, the expiry markers and the quick-add form as a class.
- `add_batch.dfy` (`AddBatch`): the batch form as a class, with its step
  buttons, product suggestions and submit handler.
- `batch_action_modal.dfy` (`BatchActionModal`): the date reformat and the
  two-step delete confirmation.

Modelling conventions:

- **Instants** are integer milliseconds. A batch carries both its
  `expirationDate` text and its instant `expiresAt`.
- **Row identifiers** are natural numbers, drawn from a counter in the store.
- **The signed-in account** is the store's `owner`. The row-level security
  of the data store is the class invariant that every section and product
  belongs to `owner`.
- **Name lookups** (`ilike`) compare the upper-cased names for equality.
  In `Store.Valid()` no two sections match each other this way, and no two
  products of one section do. In the source this is kept only by looking up
  before inserting.

## Model

| member | source | states |
|---|---|---|
| BatchService.DaysRemaining | src/services/batchService.ts:40-45 | the result is the ceiling of the difference in days: the difference lies in ((d−1) days, d days] |
| BatchService.DaysRemainingUnique | src/services/batchService.ts:40-45 | any integer with that property is the result, so the result is exactly the ceiling |
| BatchService.DaysRemainingExamples | src/services/batchService.ts:40-45 | the same instant gives 0, 1 ms ahead gives 1, one day behind gives −1, exactly three days gives 3 and 1 ms more gives 4 |
| BatchService.DaysRemainingMonotone | src/services/batchService.ts:40-45 | for a fixed now, a later expiration never has fewer days remaining |
| BatchService.ExpiresSoonWithinThreeDays | src/App.tsx:148 | the "at most 3 days" threshold holds exactly when expiry is at most three days of milliseconds away |
| BatchService.FormatDate | src/services/batchService.ts:48-54 | six characters: two digits whose value is the day, '/', and the month's entry of the 12-entry table |
| BatchService.FormatDateInjective | src/services/batchService.ts:48-54 | different (day, month) pairs give different labels |
| BatchService.FindSection | src/services/batchService.ts:64-68 | the first section whose name matches case-insensitively; None exactly when no section matches |
| BatchService.FindProduct | src/services/batchService.ts:85-91 | the first product of the given section whose name matches case-insensitively; None exactly when none does |
| BatchService.FindSectionExtend | src/services/batchService.ts:169-174 | appending rows does not change a lookup that already succeeds |
| BatchService.FindProductExtend | src/services/batchService.ts:189-195 | appending rows does not change a product lookup that already succeeds |
| BatchService.FindSectionAppended | src/services/batchService.ts:74-80 | after inserting a missing section, the lookup finds the new row |
| BatchService.FindProductAppended | src/services/batchService.ts:97-107 | after inserting a missing product, the lookup finds the new row |
| BatchService.SectionMatchIsFound | src/services/batchService.ts:64-68 | with unique names, any matching row is the one the lookup returns |
| BatchService.ProductMatchIsFound | src/services/batchService.ts:85-91 | with unique names per section, any matching product is the one the lookup returns |
| BatchService.ProductsIn | src/services/batchService.ts:212-216 | holds exactly the products whose section is the given one |
| BatchService.ProductById | src/services/batchService.ts:13 | the product row with that id, None exactly when there is none |
| BatchService.SectionById | src/services/batchService.ts:13 | the section row with that id, None exactly when there is none |
| BatchService.Joined | src/services/batchService.ts:13 | the join changes only the embedded product, present exactly when the product row exists, and with the batch's product id |
| BatchService.ExpiresSoon | src/App.tsx:148 | the threshold `getDaysRemaining(date) <= 3`, shared by the dashboard and the product cards (see ExpiresSoonWithinThreeDays) |
| BatchService.Store.Valid | src/services/batchService.ts:56-124 | the class invariant: every section and product belongs to the owner, ids come from the counter, names are unique up to case, and batch ids are distinct |
| BatchService.ActiveView | src/services/batchService.ts:11-15 | every row of the joined view is active |
| BatchService.ActiveViewMembers | src/services/batchService.ts:14-15 | a table row is in the view (joined) exactly when its status is active |
| BatchService.ActiveViewFrom | src/services/batchService.ts:11-15 | every row of the view is the join of an active table row |
| BatchService.InsertByExpiry | src/services/batchService.ts:16 | inserting into an expiry-sorted list keeps it sorted and adds exactly that batch |
| BatchService.SortByExpiry | src/services/batchService.ts:16 | the result is ascending by expiration and a permutation of the input |
| BatchService.WithStatus | src/services/batchService.ts:126-130 | the batches table keeps its length |
| BatchService.WithStatusChangesOnlyStatus | src/services/batchService.ts:126-130 | only the status field changes, and only in rows with the given id, which get the new status |
| BatchService.WithStatusHidesBatch | src/services/batchService.ts:126-130 | after marking consumed or discarded, the batch leaves the active view and every other active row stays |
| BatchService.WithoutProduct | src/services/batchService.ts:148-153 | a product stays exactly when its id is not the deleted one |
| BatchService.WithoutProductUnique | src/services/batchService.ts:148-153 | deleting a product keeps the per-section uniqueness of product names |
| BatchService.RegisteredExtend | src/services/batchService.ts:163-208 | an item that is registered stays registered as rows are appended |
| BatchService.ImportedProductExtend | src/services/batchService.ts:197-206 | a product row imported for an item keeps that shape as sections are appended |
| BatchService.RegisteredUpToStep | src/services/batchService.ts:163-208 | registering item i keeps items 0..i−1 registered |
| BatchService.SectionsImportedStep | src/services/batchService.ts:176-186 | sections added while registering item i carry that item's normalized section name |
| BatchService.ProductsImportedStep | src/services/batchService.ts:197-208 | products added for item i have the imported shape for that item |
| BatchService.ImportProgressStep | src/services/batchService.ts:163-208 | the loop invariant of the import advances by one item |
| BatchService.OneNewSection | src/services/batchService.ts:163-186 | items whose section names differ only in case or surrounding whitespace add at most one section to a table of unique names |
| BatchService.OneNewProduct | src/services/batchService.ts:163-208 | items differing only in case or whitespace add at most one product |
| BatchService.Store.InsertSection | src/services/batchService.ts:74-80 | appends one section of the owner with a fresh id and the given name; nothing else changes; uniqueness is kept |
| BatchService.Store.InsertProduct | src/services/batchService.ts:97-107 | appends one product with section, name, category, no image and minimum stock 5; nothing else changes |
| BatchService.Store.InsertBatch | src/services/batchService.ts:114-121 | appends one active batch with the given fields and a fresh id; nothing else changes |
| BatchService.Store.GetAllBatches | src/services/batchService.ts:6-23 | without a session: "User not authenticated"; otherwise the active rows, joined, as an expiry-ascending permutation |
| BatchService.Store.GetSections | src/services/batchService.ts:26-37 | without a session: no rows; otherwise all sections ascending by name, as a permutation of the table |
| BatchService.Store.GetProductsBySection | src/services/batchService.ts:212-221 | ascending by name, and a permutation of the products of that section |
| BatchService.Store.CreateBatch | src/services/batchService.ts:56-124 | without a session: the error, nothing changed; otherwise the section is found or inserted under the exact given name, then the product within that section likewise (category = section name, minimum stock 5), then exactly one active batch of that product is appended |
| BatchService.Store.UpdateBatchStatus | src/services/batchService.ts:126-133 | the batches table becomes the status update of the old one; sections and products are unchanged |
| BatchService.Store.AddBatchToProduct | src/services/batchService.ts:135-146 | exactly one active batch of the product is appended with the given quantity and date; nothing else changes |
| BatchService.Store.DeleteProduct | src/services/batchService.ts:148-156 | exactly the product rows with that id disappear; sections and batches are unchanged |
| BatchService.Store.RegisterItem | src/services/batchService.ts:164-208 | afterwards the item is registered, any new rows carry its trimmed upper-cased names (category = section name, minimum stock 5), an already registered item adds nothing, and batches are untouched |
| BatchService.Store.ImportProducts | src/services/batchService.ts:158-210 | without a session: the error and no change; otherwise every item is registered, every new row was made for some item, batches are untouched, and if every item was already registered nothing is inserted |
| BatchService.ImportTwice | src/services/batchService.ts:158-210 | importing the same items a second time inserts no rows |
| BatchService.ImportVariants | src/services/batchService.ts:158-210 | importing items that differ only in case or surrounding whitespace creates at most one section and one product |
| Text.TrimStart | src/services/batchService.ts:164 | removes exactly the leading white space: the result is a suffix, starts with a non-space, and everything dropped is space |
| Text.TrimEnd | src/services/batchService.ts:164 | removes exactly the trailing white space |
| Text.Trim | src/pages/ImportPage.tsx:19 | the text with a white-space prefix and a white-space suffix cut off; empty exactly when the text is all white space, otherwise starting and ending with a non-space |
| Text.TrimSlice | src/pages/ImportPage.tsx:19 | a suffix of a suffix kept by the two passes is a slice of the text with only white space on either side |
| Text.TrimOfTrimmed | src/pages/ImportPage.tsx:33 | trimming trimmed text changes nothing |
| Text.Upper | src/services/batchService.ts:164-165 | upper-casing keeps the length |
| Text.UpperAt | src/services/batchService.ts:164-165 | upper-casing works character by character |
| Text.UpperIdempotent | src/services/batchService.ts:164-165 | upper-casing twice is upper-casing once |
| Text.TrimUpper | src/pages/ImportPage.tsx:38-39 | trimming and upper-casing commute |
| Text.NormalizeIsNormal | src/services/batchService.ts:164-165 | a trimmed, upper-cased name is trimmed and upper case |
| Text.NormalizeNormal | src/services/batchService.ts:164-165 | normalizing an already normal name changes nothing, so the import stores the previewed names unchanged |
| Text.CiEqNormalized | src/services/batchService.ts:173 | matching a normalized name case-insensitively means upper-casing to it |
| Text.Split | src/pages/ImportPage.tsx:24 | at least one piece, and no piece holds the separator |
| Text.JoinSplit | src/components/batches/BatchActionModal.tsx:44 | joining the pieces with the separator gives the text back |
| Text.SplitCount | src/pages/ImportPage.tsx:24-27 | one piece more than there are separators |
| Text.CountZero | src/pages/ImportPage.tsx:24-27 | no separators exactly when the character is absent |
| Text.SplitWithoutSeparator | src/pages/ImportPage.tsx:24-29 | text without the separator is one piece |
| Text.SplitWithSeparator | src/pages/ImportPage.tsx:24-27 | text with the separator splits into at least two pieces |
| Text.SplitAfter | src/pages/ImportPage.tsx:24 | a first field without the separator is the first piece |
| Text.SplitAppend | src/pages/ImportPage.tsx:21 | splitting around one separator concatenates the splits of the two sides |
| Text.JoinLength | src/components/batches/BatchActionModal.tsx:44 | the joined length is the pieces' lengths plus one per gap |
| Text.JoinAvoids | src/components/batches/BatchActionModal.tsx:44 | a character in no piece and not the separator is not in the join |
| Text.PieceInJoin | src/components/batches/BatchActionModal.tsx:44 | every character of a piece is in the join |
| Text.SplitJoin | src/components/batches/BatchActionModal.tsx:44 | splitting a join of separator-free pieces gives the pieces back |
| Text.Reverse | src/components/batches/BatchActionModal.tsx:44 | reversing keeps the length |
| Text.ReverseAt | src/components/batches/BatchActionModal.tsx:44 | position k of the reversal holds position n−1−k |
| Text.SumLengthReverse | src/components/batches/BatchActionModal.tsx:44 | reversing keeps the total length of the pieces |
| Text.LexIrreflexive | src/App.tsx:161 | no key sorts before itself |
| Text.LexTransitive | src/App.tsx:161 | the code-point order is transitive |
| Text.LexTotal | src/App.tsx:161 | any two different keys are ordered |
| Text.LexLeqTransitive | src/App.tsx:161 | the non-strict order is transitive |
| Text.InsertSorted | src/App.tsx:161 | inserting into a sorted list keeps it sorted and adds exactly that key |
| Text.SortStrings | src/App.tsx:161 | the result is sorted and a permutation of the input |
| Text.SortDistinct | src/App.tsx:161 | sorting distinct keys gives a strictly ascending list of the same keys |
| Text.InsertByKey | src/services/batchService.ts:33 | inserting into a list sorted by a key keeps it sorted and adds exactly that row |
| Text.SortByKey | src/services/batchService.ts:33 | the result is sorted by the key and a permutation of the input |
| Decimal.NatToString | src/pages/ImportPage.tsx:28 | digits only, no leading zero, one digit exactly below ten |
| Decimal.DigitsOfNat | src/pages/ImportPage.tsx:28 | reading back the digits of a number gives the number |
| Decimal.IntTextRoundTrip | src/pages/AddBatch.tsx:191-192 | `toString` of an integer is integer text, and `parseInt` of it gives the integer back |
| Decimal.TwoDigits | src/services/batchService.ts:50 | two digits whose value is the number |
| ImportPage.Message | src/pages/ImportPage.tsx:28 | each message starts with "Linha " and the line number; the texts of lines 28 and 34 |
| ImportPage.Lines | src/pages/ImportPage.tsx:21 | the lines that are not blank, in order (see NonBlankMembers) |
| ImportPage.ParseLine | src/pages/ImportPage.tsx:24-40 | one line's outcome (see NoTabLine, TwoColumns and ParsedLineNormal) |
| ImportPage.Parse | src/pages/ImportPage.tsx:21-41 | the records of all lines, or the first rejection (see ParseOkIff, ParseOkValues and ParseErrFacts) |
| ImportPage.HandleParse | src/pages/ImportPage.tsx:17-49 | the state after "Processar" (see BlankIsNoOp, ParseSuccess and ParseFailure) |
| ImportPage.NonBlankMembers | src/pages/ImportPage.tsx:21 | the kept lines are exactly the lines that are not blank after trimming |
| ImportPage.NonBlankAppend | src/pages/ImportPage.tsx:21 | the filter works line by line over concatenations |
| ImportPage.Collect | src/pages/ImportPage.tsx:22-41 | succeeds exactly when every outcome is a record, giving them in order; otherwise the first failing line, numbered from 1, with every earlier line valid |
| ImportPage.Outcomes | src/pages/ImportPage.tsx:22 | one outcome per non-blank line |
| ImportPage.ParseOkIff | src/pages/ImportPage.tsx:21-41 | the parse succeeds exactly when every non-blank line is valid |
| ImportPage.ParseOkValues | src/pages/ImportPage.tsx:22-41 | a successful parse has one record per non-blank line, each that line's record |
| ImportPage.ParseErrFacts | src/pages/ImportPage.tsx:22-35 | a failed parse names a line that is invalid, every earlier line being valid |
| ImportPage.LineOutcomes | src/pages/ImportPage.tsx:21-41 | the parse in terms of the individual lines, both directions and both outcomes |
| ImportPage.NoTabLine | src/pages/ImportPage.tsx:24-29 | a line is the format error exactly when it holds no tab |
| ImportPage.TwoColumns | src/pages/ImportPage.tsx:31-40 | columns after the second are ignored; a blank first or second column is the empty-field error, otherwise the record holds both columns trimmed and upper-cased |
| ImportPage.TwoColumnsSplit | src/pages/ImportPage.tsx:24-31 | the first two tab-separated columns are the first two fields |
| ImportPage.ParsedLineNormal | src/pages/ImportPage.tsx:37-40 | every record holds non-empty names that are already trimmed and upper case |
| ImportPage.BlankIsNoOp | src/pages/ImportPage.tsx:19 | blank input leaves preview and error as they were |
| ImportPage.ParseSuccess | src/pages/ImportPage.tsx:43-44 | the error is cleared exactly when every non-blank line is valid, and the preview then holds one record per non-blank line in order |
| ImportPage.ParseFailure | src/pages/ImportPage.tsx:45-47 | on a bad line the preview is emptied and the message names the first invalid non-blank line |
| ImportPage.BlankLineDropped | src/pages/ImportPage.tsx:21-28 | inserting a blank line does not change the parse, so line numbers count only non-blank lines |
| ImportPage.BlankLineLines | src/pages/ImportPage.tsx:21 | inserting a blank line does not change the kept lines |
| Dashboard.Filter | src/App.tsx:148 | the kept batches are exactly those that satisfy the test |
| Dashboard.FilterEmpty | src/App.tsx:148 | nothing is kept when no batch qualifies |
| Dashboard.FilterAppend | src/App.tsx:148 | the filter works batch by batch, in order |
| Dashboard.FilterSorted | src/App.tsx:148 | filtering an expiry-ascending list keeps it ascending |
| Dashboard.Critical | src/App.tsx:148 | the batches with at most 3 days left, in order (see CriticalIsExpiring) |
| Dashboard.InSection | src/App.tsx:151-157 | one section's group: the batches of that key, in order (see OneSectionEach) |
| Dashboard.CriticalIsExpiring | src/App.tsx:148 | the critical list holds exactly the batches with at most 3 days remaining, in their order |
| Dashboard.SectionKey | src/App.tsx:153 | a group key is never empty: the section name or 'Sem Sessão' |
| Dashboard.SectionGroupsKnown | src/App.tsx:154-157 | pushing onto the existing group of the batch's key keeps the groups correct |
| Dashboard.SectionGroupsNew | src/App.tsx:154-157 | a batch with an unseen key starts a new group and a new key |
| Dashboard.SectionGroupsDone | src/App.tsx:151-158 | the finished loop has one non-empty group per key holding that key's batches, and the sizes add up to the number of batches |
| Dashboard.GroupBySection | src/App.tsx:151-158 | the intended grouping, with own keys only: each group holds exactly its key's batches in input order, every batch has a group, keys are distinct, and group sizes add up to the batch count |
| Dashboard.OneSectionEach | src/App.tsx:151-158 | every batch lands in the group of its own key and in no other |
| Dashboard.SectionPartition | src/App.tsx:151-158 | over distinct keys covering every batch, the group sizes add up to the batch count |
| Dashboard.NoSections | src/App.tsx:151-158 | an empty list has groups of total size zero |
| Dashboard.SectionSizesStep | src/App.tsx:157 | a new batch adds one to its own group and nothing to the others |
| Dashboard.GroupBySectionAsWritten | src/App.tsx:151-158 | the loop over a plain object throws exactly when some batch's key names an inherited `Object.prototype` member; otherwise it builds the intended groups |
| Dashboard.ConstructorSectionThrows | src/App.tsx:153-157 | a section named "constructor" gives such a key |
| Dashboard.SortedSections | src/App.tsx:161 | sorting distinct keys gives every key once, strictly ascending |
| Dashboard.SectionList | src/App.tsx:151-161 | the section list is strictly ascending and holds exactly the keys of the loaded batches |
| Dashboard.ProductName | src/App.tsx:39 | a group name is never empty: the product name or 'Item sem nome' |
| Dashboard.ProductIdsAppend | src/App.tsx:164 | the product ids of a longer list add the new batch's id |
| Dashboard.FirstIndex | src/App.tsx:36-41 | the position of the product's first batch, or the length if there is none |
| Dashboard.ProductOrder | src/App.tsx:50 | the product ids of the section, each once |
| Dashboard.FirstIndexAppend | src/App.tsx:37 | a product's first batch does not move when batches are appended |
| Dashboard.ProductOrderByFirstBatch | src/App.tsx:36-50 | products come in the order of their first batches |
| Dashboard.Group | src/App.tsx:37-43 | one product's group: named after its first batch, holding its batches in order (see ProductGroupNamed and GroupByProduct) |
| Dashboard.GroupKept | src/App.tsx:43 | a known product keeps its name; only its own group grows |
| Dashboard.GroupNew | src/App.tsx:37-41 | a new product's group is named after the batch that introduced it and holds just that batch |
| Dashboard.ProductGroupsKnown | src/App.tsx:43 | pushing onto an existing product group keeps the groups correct |
| Dashboard.ProductGroupsNew | src/App.tsx:37-43 | creating the group of a new product keeps the groups correct |
| Dashboard.ProductOrderStep | src/App.tsx:37-50 | the key order grows by a batch's product only when that product is new |
| Dashboard.GroupByProduct | src/App.tsx:33-50 | keys in order of first batch; each group named after its product's first batch, holding exactly that product's batches in input order |
| Dashboard.SectionGroup | src/App.tsx:30-50 | nothing for an empty section; otherwise one group per product, in order of first batch |
| Dashboard.ProductGroupNamed | src/App.tsx:37-43 | a product group is never empty and its first batch names it |
| Dashboard.FirstOfFilter | src/App.tsx:37-43 | the first batch of a product is the head of its group |
| Dashboard.GroupsSorted | src/App.tsx:35-48 | groups of an expiry-ascending list are expiry-ascending, with no re-sorting |
| Dashboard.TotalProducts | src/App.tsx:164-165 | the number of distinct product ids (see TotalProductsCount) |
| Dashboard.TotalProductsCount | src/App.tsx:164-165 | the count is the number of product groups and at most the number of batches |
| QuantityInput.HandleAdd | src/components/ui/QuantityInput.tsx:11-13 | never negative; exactly value + amount when that is not negative, else 0 |
| QuantityInput.StepAmountsAre | src/components/ui/QuantityInput.tsx:30-59 | the four buttons step by −6, +6, −12 and +12, each with its opposite |
| QuantityInput.StepUpThenDown | src/components/ui/QuantityInput.tsx:12 | for a value that is not negative, +k then −k restores it |
| QuantityInput.StepDownThenUp | src/components/ui/QuantityInput.tsx:12 | −k then +k restores the value only if it was at least k, otherwise gives k |
| QuantityInput.DisplayValue | src/components/ui/QuantityInput.tsx:20 | the field's text (see DisplayRoundTrip) |
| QuantityInput.ParseTyped | src/components/ui/QuantityInput.tsx:21 | what typed text is read as (see DisplayRoundTrip and TypedNotClamped) |
| QuantityInput.DisplayRoundTrip | src/components/ui/QuantityInput.tsx:20-21 | the field is empty exactly for 0, and reading back what it shows gives the value |
| QuantityInput.TypedNotClamped | src/components/ui/QuantityInput.tsx:21 | typed integer text is read as that integer, negative ones included |
| ProductGroupCard.TotalQuantity | src/components/batches/ProductGroupCard.tsx:16 | the sum of the quantities (see TotalQuantityAppend and TotalQuantityBounds) |
| ProductGroupCard.TotalQuantityAppend | src/components/batches/ProductGroupCard.tsx:16 | the total of two lists end to end is the sum of their totals |
| ProductGroupCard.TotalQuantityBounds | src/components/batches/ProductGroupCard.tsx:16 | with no negative quantities the total is not negative and at least each batch's quantity |
| ProductGroupCard.LotLabel | src/components/batches/ProductGroupCard.tsx:53 | 'Lote' exactly for one batch, 'Lotes' otherwise |
| ProductGroupCard.Markers | src/components/batches/ProductGroupCard.tsx:116-124 | one marker per batch, none dropped |
| ProductGroupCard.MarkersAgreeWithDashboard | src/components/batches/ProductGroupCard.tsx:124 | a batch is marked red exactly when it has at most 3 days left, exactly when the dashboard lists it as critical |
| ProductGroupCard.QuickAdd.constructor | src/components/batches/ProductGroupCard.tsx:18-21 | the form starts closed, with quantity 0, no date and not loading |
| ProductGroupCard.QuickAdd.CanSave | src/components/batches/ProductGroupCard.tsx:24 | the save guard: a positive quantity and a date (see HandleSave) |
| ProductGroupCard.QuickAdd.ConfirmDisabled | src/components/batches/ProductGroupCard.tsx:105 | the Confirm button's `disabled` (see ConfirmMatchesGuard) |
| ProductGroupCard.QuickAdd.ConfirmMatchesGuard | src/components/batches/ProductGroupCard.tsx:105 | Confirm is disabled exactly when loading or when the save guard would refuse |
| ProductGroupCard.QuickAdd.Toggle | src/components/batches/ProductGroupCard.tsx:66 | flips the form open or closed and keeps what was typed |
| ProductGroupCard.QuickAdd.Cancel | src/components/batches/ProductGroupCard.tsx:98 | closes the form and keeps what was typed |
| ProductGroupCard.QuickAdd.HandleSave | src/components/batches/ProductGroupCard.tsx:23-38 | a refused guard changes nothing and requests nothing; otherwise one request with the typed values, loading ends false, success resets the form and failure keeps it |
| AddBatch.StepDown | src/pages/AddBatch.tsx:191-192 | the text a −6 or −12 press leaves (see StepDownValue) |
| AddBatch.StepUp | src/pages/AddBatch.tsx:201-202 | the text a +6 or +12 press leaves (see StepUpValue) |
| AddBatch.StepDownValue | src/pages/AddBatch.tsx:190-215 | the −6/−12 buttons leave integer text worth max(0, current − k) |
| AddBatch.StepUpValue | src/pages/AddBatch.tsx:200-225 | the +6/+12 buttons leave integer text worth current + k |
| AddBatch.EmptyStepsAsZero | src/pages/AddBatch.tsx:191-223 | an empty quantity steps exactly as "0" does |
| AddBatch.FindExact | src/pages/AddBatch.tsx:33 | the first section whose name is exactly the text, case included, every earlier one named otherwise; None exactly when there is none |
| AddBatch.AddBatchForm.constructor | src/pages/AddBatch.tsx:11-20 | all fields empty, not loading, no error |
| AddBatch.AddBatchForm.LoadSections | src/pages/AddBatch.tsx:22-24 | the known sections become the sorted section list of the store; nothing else changes |
| AddBatch.AddBatchForm.SectionChanged | src/pages/AddBatch.tsx:27-39 | an empty section clears the suggestions; an exact name match loads that section's products, sorted and each once; otherwise the suggestions stay |
| AddBatch.AddBatchForm.HandleSubmit | src/pages/AddBatch.tsx:41-60 | any empty field sets "Preencha todos os campos" and touches nothing else; otherwise `createBatch` runs on the names exactly as typed, loading ends false, and it navigates on success or sets "Erro ao salvar. Tente novamente." |
| BatchActionModal.ReformatDate | src/components/batches/BatchActionModal.tsx:44 | the date line's text (see ReformatLength, ReformatNoDash, ReformatPieces and ReformatExample) |
| BatchActionModal.ReformatLength | src/components/batches/BatchActionModal.tsx:44 | the displayed date has the input's length |
| BatchActionModal.ReformatNoDash | src/components/batches/BatchActionModal.tsx:44 | the displayed date contains no '-' |
| BatchActionModal.ReverseAvoids | src/components/batches/BatchActionModal.tsx:44 | reversing the pieces brings in no new character |
| BatchActionModal.SplitPiecesAvoid | src/components/batches/BatchActionModal.tsx:44 | splitting brings in no new character |
| BatchActionModal.ReformatWithoutDash | src/components/batches/BatchActionModal.tsx:44 | text without '-' is shown unchanged |
| BatchActionModal.ReformatPieces | src/components/batches/BatchActionModal.tsx:44 | the '/'-separated fields shown are the '-'-separated fields of the input, reversed |
| BatchActionModal.ReformatThreeFields | src/components/batches/BatchActionModal.tsx:44 | `Y-M-D` is shown as `D/M/Y` |
| BatchActionModal.ReformatExample | src/components/batches/BatchActionModal.tsx:44 | "2024-03-15" is shown as "15/03/2024" |
| BatchActionModal.Shown | src/components/batches/BatchActionModal.tsx:48-106 | the confirmation box replaces the three action buttons while the flag is set |
| BatchActionModal.Disabled | src/components/batches/BatchActionModal.tsx:65-100 | the buttons carrying `disabled={loading}` |
| BatchActionModal.React | src/components/batches/BatchActionModal.tsx:15-106 | one press: the new flag and the emitted event (see NothingWithoutBatch, DeleteOnlyWhileConfirming, StatusOnlyWhenNotConfirming, WhileLoading and FlagChanges) |
| BatchActionModal.NothingWithoutBatch | src/components/batches/BatchActionModal.tsx:15 | without a batch no press has any effect |
| BatchActionModal.DeleteOnlyWhileConfirming | src/components/batches/BatchActionModal.tsx:48-66 | 'delete_product' is emitted exactly by Confirm, while confirming and not loading |
| BatchActionModal.StatusOnlyWhenNotConfirming | src/components/batches/BatchActionModal.tsx:73-95 | 'consumed' and 'discarded' are emitted exactly by their buttons, outside confirmation and not loading |
| BatchActionModal.WhileLoading | src/components/batches/BatchActionModal.tsx:65-100 | while loading no action is emitted; closing and Cancel still work |
| BatchActionModal.FlagChanges | src/components/batches/BatchActionModal.tsx:59-101 | the flag is set only by "Excluir Produto" and cleared only by Cancel |
| BatchActionModal.StaleConfirmation | src/components/batches/BatchActionModal.tsx:13-48 | as written: ask to delete, close, and the first Confirm on another batch deletes that batch's product |
| BatchActionModal.ResetOnNewBatch | src/components/batches/BatchActionModal.tsx:13 | the corrected flag is cleared whenever the shown batch changes, otherwise kept |
| BatchActionModal.FreshBatchAsksFirst | src/components/batches/BatchActionModal.tsx:13-106 | with the reset, a newly shown batch opens on the normal view and its first press cannot delete |
| BatchActionModal.ActionModal.constructor | src/components/batches/BatchActionModal.tsx:13 | the flag starts false |
| BatchActionModal.ActionModal.Press | src/components/batches/BatchActionModal.tsx:48-106 | the new flag and the emitted event are those of the button table |
| BatchActionModal.ActionModal.BatchChanged | src/components/batches/BatchActionModal.tsx:13 | the corrected flag after the shown batch changes |

## Left out

- Supabase transport and authentication: the session is the store's `signedIn` flag. A remote failure other than "User not authenticated" is not modelled, so every insert succeeds.
- BatchService.Store.GetProductsBySection: it does not check the session, like the source. The model does not capture that row-level security shows an anonymous caller no rows.
- Row-level security is the invariant that every section and product belongs to the owner. The cascade of a product's batches when it is deleted belongs to the data store, so `DeleteProduct` removes only the product row.
- `ilike` wildcards (`%`, `_`) are not modelled: names are compared as plain text, upper-cased.
- Unicode upper-casing is modelled for ASCII and Latin-1 letters only, character by character. `ß` becoming `SS`, and other length-changing mappings, are left out.
- `createBatch` uses `.single()`, which errors on duplicate rows. The model keeps the table unique instead, as the lookups before inserting keep it.
- Date parsing, time zones and floating point: `DaysRemaining` takes integer milliseconds. `FormatDate` takes an already extracted day and month index. Parsing `expirationDate` into `expiresAt` is not modelled.
- `parseInt` on text that is not an integer (NaN): the quantity field holds only empty or integer text.
- AddBatch.AddBatchForm.HandleSubmit: like the source, it accepts "0" and negative quantities.
- Row identifiers are natural numbers from a counter, not UUIDs. Product-group keys therefore keep insertion order, as `Object.keys` does for UUID strings.
- Sorting is by code point. The data store's collation and JavaScript's UTF-16 order are not modelled.
- Asynchronous glue that only sequences calls is not modelled: `loadData`, `handleBatchAction`, `handleQuickAdd` and the focus refresh in `src/App.tsx:101-145`, and `handleImport` in `src/pages/ImportPage.tsx:51-67`. Races between find-or-create calls are not modelled either.
- Presentation is not modelled: JSX markup, the collapsible section toggle, routing, and setters that only copy input into state.
- The textarea's change handler on the import page is not modelled. The parse itself is `ImportPage.HandleParse`.
- BatchService.Store.UpdateBatchStatus: it does not check the session, like the source. With row-level security an anonymous caller's update affects no rows; the model applies it.
- BatchService.Store.AddBatchToProduct: it does not check the session, like the source. With row-level security an anonymous caller's insert is refused; the model appends the batch.
- BatchService.Store.DeleteProduct: it does not check the session, like the source. With row-level security an anonymous caller's delete affects no rows; the model removes the product.
- Dashboard.Critical: one `now` is taken for the whole render, while the source calls `new Date()` inside `getDaysRemaining` for each batch. Batches compared across a clock tick or midnight are not modelled.
- BatchService.DaysRemaining: takes `now` as a parameter; the clock read of `src/services/batchService.ts:41` is left to the caller.

## Findings

| source | as written | input that shows it | evidently intended | confidence | as-written member | corrected member |
|---|---|---|---|---|---|---|
| src/components/batches/BatchActionModal.tsx:13-48 | `confirmDelete` is component state that is never reset. The dashboard keeps the sheet mounted (src/App.tsx:229-234), and closing it only sets `batch` to null, so the flag survives into the next batch shown. | Press "Excluir Produto do Sistema" on batch A, close the sheet, then open batch B: the confirmation box is already up, and one press of "Confirmar Exclusão" deletes B's product. | The confirmation applies to the batch it was asked for. Showing a different batch, or none, clears it. | medium, not executed | BatchActionModal.StaleConfirmation | BatchActionModal.FreshBatchAsksFirst |
| src/App.tsx:151-157 | `groupedBatches` is a plain object, so `groupedBatches[name]` also finds the members it inherits from `Object.prototype`. For such a name `!groupedBatches[name]` is false, no group is made, and `.push` on the inherited member throws a TypeError. | Create a batch in a section named "constructor" (or "toString", "valueOf", "__proto__"): the dashboard throws while rendering instead of showing that section. | Every section name gets its own group; a `Map`, `Object.create(null)` or `Object.hasOwn` would do it. | high, not executed | Dashboard.GroupBySectionAsWritten | Dashboard.GroupBySection |
