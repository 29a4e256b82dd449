# Cordyceps packaging calculator — verified model

This project models the core of a small sales tool for graded cordyceps. It covers:

- the catalog of size grades and their bottle rules;
- the calculator, which forces the packaging to fit the container, picks a default box size and prices an order;
- the order queue and its totals;
- submitting the queue as a batch into the order history;
- importing a history backup and exporting the history as CSV;
- the text of the printed label, and the label rebuilt from a stored line item;
- the settings screen's catalog edits;
- the application state that ties these together.

Each core file becomes one module:

| module | file | models |
|---|---|---|
| `Catalog` | catalog.dfy | product specs, bottle rules, colour tiers, the default catalog (constants.ts) |
| `Selection` | selection.dfy | the calculator's selection state and its correction effect (Calculator.tsx) |
| `Pricing` | pricing.dfy | weight, average, tier, totals, descriptions, the line item (Calculator.tsx) |
| `Records` | records.dfy | line items, batches, roles and price visibility |
| `Ledger` | queue.dfy | queue totals and the queue bar (Queue.tsx) |
| `History` | history.dfy | import-merge, CSV export, label extraction (History.tsx) |
| `Labels` | labels.dfy | date line, batch id, barcode payload, spec and quantity text (LabelModal.tsx) |
| `Settings` | settings.dfy | copy-on-write field edits and the low-margin warning (Settings.tsx) |
| `App` | session.dfy | `class Session`: the App component's state and handlers (App.tsx) |
| `LabelRecovery` | recovery.dfy | what the history label recovers from the calculator's description |
| `Num`, `Strings`, `Wrappers` | num.dfy, strings.dfy, wrappers.dfy | exact decimals and `${x}` printing; numerals and the two regular expressions; `Option` |

Numbers that the program both computes with and prints are exact decimals, `Num.Decimal(m, e)` = m / 10^e. `Num.Text` prints them as JavaScript's `${x}` does for such values. Math.round is `floor(x + 1/2)`.

The React effect in Calculator.tsx is modelled as follows:

- `Selection.Correct` is one run of the effect.
- `Selection.Settle` runs it again while the previous run changed the packaging.
- `Selection.Step` fires the effect only when the spec, the container or the packaging changed.

The App component's handlers are methods of `App.Session`. Storage, the network, `confirm` dialogs and the clock are method parameters.

The model keeps two behaviours of the code a reader might not expect. The configuration check accepts an empty `specs` array, because `[]` is truthy in JavaScript (App.tsx:51). The history label counts one box, not the whole order (components/History.tsx:158).

## Model

| member | source | states |
|---|---|---|
| Catalog.FindSpec | components/Calculator.tsx:46 | the first spec with the id; None exactly when no spec has it |
| Catalog.FindRule | components/Calculator.tsx:47 | the first rule for the id; None exactly when no rule has it |
| Catalog.TierNamesDistinct | constants.ts:32-66 | the three colour names are distinct, so the stored name identifies the tier |
| Catalog.RuleOfSpec | constants.ts:68-91 | in a well-formed catalog each spec finds itself and the rule at its own index |
| Catalog.DefaultIdsDistinct | constants.ts:70-78 | the default spec ids are pairwise distinct |
| Catalog.DefaultRulesAligned | constants.ts:70-89 | one rule per default spec, in the same order, with matching specId |
| Catalog.DefaultSpecsOk | constants.ts:70-78 | every default spec has min ≤ max roots per gram and nagqu ≤ channel ≤ retail |
| Catalog.DefaultRulesOk | constants.ts:81-89 | every default rule has positive capacities and three non-empty, strictly increasing option lists |
| Catalog.DefaultDataWellFormed | constants.ts:68-91 | the default catalog is well formed |
| Selection.ValidPackaging | components/Calculator.tsx:61-79 | the result is allowed for the container: kept when already allowed, else the container's fallback |
| Selection.DefaultBoxIsSmallestOption | components/Calculator.tsx:88-104 | for a well-formed rule the default box size is one of the offered options and the smallest |
| Selection.Correct | components/Calculator.tsx:57-110 | no rule: nothing changes; packaging not allowed: only packaging changes, to the fallback; else the box becomes the default |
| Selection.SettleIsFixedPoint | components/Calculator.tsx:82-110 | after at most two runs a further run changes nothing, packaging is allowed and the box is its default |
| Selection.SettleWithoutRule | components/Calculator.tsx:58 | without a bottle rule the effect never changes packaging or box |
| Selection.CurrentWeight | components/Calculator.tsx:114 | preset weight when the custom text is empty, else the parsed text, 0 when it does not parse |
| Selection.SettledConsistent | components/Calculator.tsx:57-110 | after the effect settles the selection is consistent (quantity at least 1; whenever the spec has a bottle rule, the packaging is one that rule allows for the container) |
| Selection.MountConsistent | components/Calculator.tsx:19-31 | the selection after mount is consistent |
| Selection.StepPreservesConsistent | components/Calculator.tsx:57-110 | every user action followed by the effect keeps the selection consistent |
| Selection.MountDefault | components/Calculator.tsx:19-31 | on the default catalog the mounted selection is grade 900, small single bottle, exquisite box of 10, quantity 1, 50 g |
| Selection.ChooseBoxKept | components/Calculator.tsx:615 | choosing a box size keeps it: the box size is not a dependency of the effect |
| Selection.QuantityControls | components/Calculator.tsx:694-696 | minus stops at 1, plus adds 1, typed text is clamped to at least 1 with unparseable text giving 1 |
| Selection.WeightControls | components/Calculator.tsx:657-672 | a preset sets the weight and clears the text; typing then clearing the text leaves weight 0 |
| Records.VisibilityNested | components/Calculator.tsx:50-51 | whoever sees nagqu prices sees channel prices; only guests see no channel prices |
| Num.Plus | components/Queue.tsx:13-15 | exact addition of two decimals |
| Num.Times | components/Calculator.tsx:150-152 | exact product of an integer count and a unit price |
| Num.RoundHalfUp | components/Calculator.tsx:174 | the result is within half of x, halves rounded up |
| Num.TextCanonical | components/Calculator.tsx:117-119 | the printed text depends only on the value |
| Num.TextInjective | components/Calculator.tsx:117-119 | conversely, equal printed texts mean equal values |
| Num.TextParts | components/Calculator.tsx:179 | a non-negative number prints as whole digits, then "." and fraction digits when there are any; parsing the two parts gives the number back |
| Strings.NatTextRoundTrip | components/History.tsx:136 | parseInt of a printed natural number gives it back |
| Strings.FirstCapture | components/History.tsx:134 | `match(/pre(\d+)suf/)`: a non-empty digit capture exactly when some position matches |
| Strings.CaptureOf | components/History.tsx:142 | with no match before position n and digits then suf after pre at n, the capture is those digits |
| Pricing.RootsPerGramTextDash | components/Calculator.tsx:117-119 | for non-negative ranges the text has a dash exactly when min ≠ max, and is the single number otherwise |
| Pricing.Avg | components/Calculator.tsx:121 | the midpoint of the roots-per-gram range |
| Pricing.TierOf | components/Calculator.tsx:124-128 | gold iff ≤ 1500 roots per jin, green iff in (1500, 2200], red iff > 2200 |
| Pricing.DefaultTiers | constants.ts:70-78 | default grades 900–1500 are gold, 1600-1800 and 2000-2200 green, 2200-2500 and 2500-3000 red |
| Pricing.RootsPerBox | components/Calculator.tsx:174 | roots per round box is the nearest integer to weight × average roots per gram |
| Pricing.Calculate | components/Calculator.tsx:139-180 | bottle mode: quantity × box × roots per bottle; round mode: roots per box × quantity; each price total is total roots × its unit price |
| Pricing.DoubleQuantity | components/Calculator.tsx:141-178 | doubling the quantity doubles total roots and all three price totals, in both modes |
| Pricing.PriceTotalsOrdered | components/Calculator.tsx:150-152 | with ordered unit prices and non-negative roots, nagqu ≤ channel ≤ retail totals |
| Pricing.Compute | components/Calculator.tsx:112 | no result exactly when the spec or its rule is missing; otherwise the calculation |
| Pricing.MakeItem | components/Calculator.tsx:211-255 | type is box iff round; bottle count q × box or 0; totals and description copied; tier name, spec name and roots-per-gram text stored |
| Pricing.CalculatorLabel | components/Calculator.tsx:449-455 | the calculator's label data: box mode iff round, count quantity (round) or quantity × box (bottles), the current weight |
| Ledger.TotalIsSum | components/Queue.tsx:13-15 | each displayed total is the sum of that field over the items; the empty sum is 0 |
| Ledger.TotalAppend | components/Queue.tsx:13-15 | appending an item adds its field to the total |
| Ledger.TotalConcat | components/Queue.tsx:13-15 | the total of a concatenation is the sum of the totals |
| Ledger.QueueView | components/Queue.tsx:13-20 | nothing shown exactly when the queue is empty; otherwise the count, nagqu iff zwz, channel iff zwz or admin, retail always, each the sum |
| History.NewBatches | components/History.tsx:100-101 | exactly the imported batches whose id is not in history, duplicate imports kept |
| History.NewBatchesOne | components/History.tsx:100-101 | one imported batch is kept exactly when its id is not in history |
| History.NewBatchesConcat | components/History.tsx:100-101 | filtering distributes over concatenation of the import, so kept batches stay in import order |
| History.NumberOfNowId | App.tsx:93 | `Number` of a batch id made from the clock gives the clock value back |
| History.SortByIdDesc | components/History.tsx:104 | the sort is a permutation |
| History.SortByIdDescSorted | components/History.tsx:104 | with ids that are plain digit strings the result is ordered by `Number(id)`, descending |
| History.ImportMerge | components/History.tsx:95-116 | parse failure, non-array and cancel are told apart; nothing new exactly when no imported id is new; a merge adds their number and is the multiset union |
| History.MergeKeepsHistory | components/History.tsx:104 | after a merge every existing batch is still present |
| History.MergeSorted | components/History.tsx:104 | with ids that are plain digit strings a merged history is ordered by id, descending |
| History.ReimportAddsNothing | components/History.tsx:100-103 | importing the current history again reports nothing new |
| History.UndoubleDouble | components/History.tsx:45-46 | undoubling the quote-doubled text gives it back |
| History.QuoteRoundTrip | components/History.tsx:45-46 | unquoting a quoted field (section 2, rule 7 of RFC 4180) recovers the text |
| History.HeaderVisibility | components/History.tsx:30-33 | the nagqu column appears iff zwz, the channel column iff zwz or admin |
| History.ColumnsAlign | components/History.tsx:30-52 | every row has one field per header column and each value sits under its own header |
| History.BatchLines | components/History.tsx:36-53 | one row per item of the batch, in order |
| History.LinesCount | components/History.tsx:35-54 | the export has one row per item across all batches |
| History.ExportCsv | components/History.tsx:26-54 | no file for an empty history; otherwise the BOM-prefixed header and then every row, built by appending in loop order |
| History.ExtractLabel | components/History.tsx:125-161 | box mode iff a box item; box items count 1 and weight 0 without a match; bottle items count 1 without a match |
| Labels.FormatDateInjective | components/LabelModal.tsx:25-27 | different valid dates give different date lines |
| Labels.BatchDatePartLayout | components/LabelModal.tsx:33-36 | for 4-digit years the date part is 8 digits with year, month and day readable at fixed positions |
| Labels.BarcodeValue | components/LabelModal.tsx:37-39 | the payload is "NQDCXC" then the batch id, which ends in the suffix |
| Labels.DefaultBarcodeLength | components/LabelModal.tsx:22-39 | with the default suffix "01" the payload has 16 characters, all digits after the prefix |
| Labels.SpecString | components/LabelModal.tsx:62 | the name unchanged iff it contains "规格", else name + "根/斤" |
| Labels.QuantityString | components/LabelModal.tsx:64-72 | box mode: "{w}克/盒", extended by the count exactly when the count is not 1 |
| Labels.BoxQuantityInjective | components/LabelModal.tsx:64-72 | box mode: the text determines the box count and the value of the weight per box |
| Labels.BottleQuantityInjective | components/LabelModal.tsx:75 | bottle mode: the text determines roots per bottle and the bottle count |
| Settings.WithSpecField | components/Settings.tsx:12 | only the named field takes the new value |
| Settings.WithRuleField | components/Settings.tsx:19 | only the named capacity takes the new value |
| Settings.UpdateSpec | components/Settings.tsx:10-14 | entry i gets the new field value; other specs, the length and all rules unchanged |
| Settings.UpdateRule | components/Settings.tsx:16-21 | rule i gets the new capacity; other rules, the length and all specs unchanged |
| Settings.UpdateSpecUndo | components/Settings.tsx:10-14 | typing the old value back restores the catalog |
| Settings.UpdateRuleUndo | components/Settings.tsx:16-21 | typing the old value back restores the catalog |
| Settings.UpdateSpecKeepsWellFormed | components/Settings.tsx:10-14 | an edit that leaves the spec ordered keeps the catalog well formed |
| Settings.UpdateRuleKeepsWellFormed | components/Settings.tsx:16-21 | a capacity edit to a positive count keeps the catalog well formed |
| Settings.DefaultHasNoLowMargin | components/Settings.tsx:64 | every default minimum price is exactly 80% of retail, so no warning |
| Settings.DefaultMarginIsTight | components/Settings.tsx:64 | lowering any default minimum price raises the warning, and the edit is still applied |
| LabelRecovery.BottleDetailsMentionBoxConfig | components/Calculator.tsx:167-171 | a boxed bottle item's description contains "每盒{box}瓶" |
| LabelRecovery.BottleCountRecovered | components/History.tsx:142-145 | the history label of a boxed bottle item shows the box configuration it was made with, when the grade name has no '每' |
| LabelRecovery.WholeWeightRecovered | components/History.tsx:134-137 | the history label of a round item with a whole-gram weight shows that weight, when the grade name has no '克' |
| LabelRecovery.FractionalWeightMisread | components/History.tsx:134-137 | a 37.5 g round item is relabelled as 5 g |
| LabelRecovery.CorrectedWeight | components/History.tsx:134-137 | weight read with its fraction: 0 without a match, non-negative otherwise |
| LabelRecovery.CorrectedLabel | components/History.tsx:155-161 | as the history label, with the corrected weight for box items |
| LabelRecovery.CorrectedWeightRecovered | components/History.tsx:134-137 | the corrected label shows every non-negative weight the round item was made with, when the grade name has no '克' |
| LabelRecovery.CalculatorLabelCountsOrder | components/Calculator.tsx:455-461 | two boxes of ten: the calculator label shows 20 bottles, the history label 10 |
| LabelRecovery.UnitCalculatorLabel | components/Calculator.tsx:455-461 | the calculator label counting the bottles of one box |
| LabelRecovery.UnitLabelsAgree | components/History.tsx:155-161 | with the per-box count, calculator and history labels agree on grade, mode, roots per bottle and count |
| App.Without | App.tsx:86-88 | the items whose id differs, none added; an absent id leaves the queue unchanged |
| App.WithoutConcat | App.tsx:87 | the filter keeps order: it distributes over concatenation |
| App.WithoutIdempotent | App.tsx:87 | removing the same id again changes nothing |
| App.RemoveUndoesAdd | App.tsx:82-88 | removing a just-added item with a new id restores the queue |
| App.NewBatch | App.tsx:92-100 | id is the clock as digits, items are the queue, count is its length, each total is the sum of its field |
| App.QueueTotalsBecomeBatchTotals | App.tsx:96-98 | the totals the queue bar shows are the submitted batch's totals |
| App.StoredRole | App.tsx:24-27 | only "admin" and "zwz" are adopted, never guest |
| App.AcceptedConfig | App.tsx:51-54 | accepted iff specs is an array (an empty one too) and bottleRules present, and then taken as is |
| App.Session.constructor | App.tsx:13-20 | a guest, the default catalog, empty queue and history |
| App.Session.RestoreRole | App.tsx:23-28 | the stored role when known, else unchanged; nothing else changes |
| App.Session.LoadConfig | App.tsx:43-63 | the server catalog when accepted, else the old one; nothing else changes |
| App.Session.RestoreHistory | App.tsx:31-40 | the saved history when it parses, else unchanged |
| App.Session.Login | App.tsx:65-69 | the role becomes the signed-in role |
| App.Session.Logout | App.tsx:71-75 | the role becomes guest |
| App.Session.AddItem | App.tsx:82-84 | the item is appended at the end |
| App.Session.RemoveItem | App.tsx:86-88 | the queue becomes its filter by id |
| App.Session.Submit | App.tsx:90-107 | refused for an empty queue or no confirmation; else the new batch goes in front of the unchanged history and the queue empties |
| App.Session.ClearHistory | App.tsx:109-111 | after the confirmation the history screen asks for, the history is empty; else unchanged |
| App.Session.ImportHistory | components/History.tsx:97-110 | the outcome of the merge; history replaced only by a merge |
| App.Session.EditSpec | App.tsx:129-131 | applied iff signed in; then the catalog is the spec edit |
| App.Session.EditRule | App.tsx:129-131 | applied iff signed in; then the catalog is the rule edit |

## Left out

- Rendering, layout, the gallery, the lightbox, swipe handling and navigation: presentational.
- fetch, localStorage, JSON parsing and serialising, Blob download, FileReader, the clipboard and printing are I/O. Their results are method parameters, and persistence is identity.
- JsBarcode symbol rendering is a foreign library; only the payload string is modelled.
- `Date.now`, `Math.random()` item ids and `new Date()` / `toLocaleString` are nondeterministic; they are parameters.
- The e-commerce title (components/Calculator.tsx:183) is display text formatted with `toFixed(1)`, floating-point formatting; it is not modelled. `Pricing.EcommerceSpec` has no contract of its own; `Pricing.MakeItem` states that it is stored on the item.
- Floating point: decimals are exact. `${x}` is modelled for plain notation only, without exponent notation or rounding error. The binary rounding of products such as 0.1 × 3 is not modelled.
- `parseFloat` and `parseInt` of typed text are inputs: an `Option` for the parsed value, with None for NaN. Settings stores what `parseFloat` gives; a NaN price is not representable.
- Settings.WithRuleField: a capacity is an `int`, so a fractional count typed into the bottle table is not modelled.
- History.SortByIdDesc: order is proved only for ids that are plain digit strings. Ids other than plain digit strings (signed, decimal, blank-padded, exponent or hexadecimal forms, which JavaScript `Number` parses) are read as NaN by the model, and how the sort places those batches is not modelled.
- History.ImportMerge: imported JSON array elements without an `id` are kept by the source (components/History.tsx:97-104, since the set of existing ids never holds `undefined`), but the imported records are a sequence of batches here, so such elements cannot be represented.
- App.AcceptedConfig: a truthy `bottleRules` that is not an array is accepted by the source but cannot be represented here.
- App.Session.RestoreHistory: saved JSON that parses to something other than an array of batches is not representable.
- App.Session.EditSpec and App.Session.EditRule: the index comes from the rendered row, so it is a precondition.
- Selection.Step: the effect's dependency on `bottleRule` is modelled as an explicit `RuleReloaded` event rather than object identity.
- components/Login.tsx, the credential check, is not part of this model; `App.Session.Login` takes the role it yields.
- History.AppendRows is a generic loop over already formatted lines, so the CSV string is built by appending row texts rather than fields.
- Session.Logout switching back to the calculator tab, and other tab state, are presentational.
- App.Session.Submit: it refuses an empty queue, which the handler at App.tsx:90-107 does not check itself. The submit button is part of the queue bar, and the bar is not rendered for an empty queue (components/Queue.tsx:20).
- History.ExtractLabel: the `散装` test at components/History.tsx:147-151 gives 1 on both arms, so it is one case.
- History.RowFields: items always carry every field, so the `|| 0` fallbacks for old records (components/History.tsx:39-40, 157) are identity. The `|| '-'` fallbacks are modelled, for empty text.
- LabelRecovery.BottleCountRecovered, LabelRecovery.WholeWeightRecovered and LabelRecovery.CorrectedWeightRecovered: they require a grade name with no '每' or '克'. Such a character could start an earlier match; the default names have none.
- components/Layout.tsx is presentational and not part of this model.

## Findings

| source | as written | input that shows it | evidently intended | confidence | as-written member | corrected member |
|---|---|---|---|---|---|---|
| components/History.tsx:134-137 | the weight is read with `(\d+)克/盒`, only the digits right before the unit | a round box with custom weight 37.5 g, stored as "37.5克/盒" | the label shows the weight the item was made with (37.5 g) | high, not executed | LabelRecovery.FractionalWeightMisread | LabelRecovery.CorrectedWeightRecovered |
| components/Calculator.tsx:455 | the calculator's label counts quantity × box bottles | two boxes of ten bottles: the label says 20 bottles | the bottles of one box, as the comment at 458-461 and History.tsx:158 say | medium, not executed | LabelRecovery.CalculatorLabelCountsOrder | LabelRecovery.UnitLabelsAgree |
