# Inventory admin: stock, category and form rules

This project models the core of a small inventory administration app. The app has an Express and Mongoose server and a React client. The model covers:

- **Products and categories (server).**
  - The Product and Category schemas: required fields, unique keys, defaults and the status enum.
  - The stock route `PATCH /products/:id/stock`, with its add, subtract and set operations.
  - The product listing: its filters and pagination arithmetic, plus product lookup, creation and deletion.
  - The category routes: role gates, create, update, soft delete, the three subcategory edits, the active-only listing and the per-category statistics.
- **The client pages.**
  - The stock badge and caption of the product list.
  - The add-product wizard: form state, the dotted-name change handler, the automatic status effect, the required-field gate, submit normalisation, the step machine and the subcategory choices.
  - The categories page: search and status filters, statistics lookup, the delete button, the status toggle and the subcategory chips.
  - The add and edit subcategory dialogs, with their chip lists, Enter key, submit gate, request and reset.
- **Where server and client meet.** The `Consistency` module relates the two sides: the low-stock boundary, the delete button against the delete guard, a request after the parent select changed, the status filter against the active-only listing, and the dialog gates against the server validators.

Layout:

- **Database state.** A `Db.Database` object holds the two MongoDB collections as sequences. Route handlers are methods that modify it, and they keep the unique indexes as `Valid()`.
- **Replies.** A route answers `Http.Reply`: either `Sent(body)` or `Fail(status, error)`.
- **Client state.** Each page and dialog that holds React state is a class whose methods are the event handlers.
- **Pure logic.** Classifiers, validators, filters and list edits are functions. Lemmas state their properties.
- **JavaScript semantics.** `JsText` and `JsValues` model the JavaScript the client relies on: `trim`, `toLowerCase`, `includes`, `split('.')`, truthiness, the `<=` operator and `parseInt`.

Where the code's behaviour may surprise a reader, the model follows the code:

- **The low-stock count in the summary.** It uses `quantity < minStock` on active products (backend/routes/categories.js:255-259). An active product with quantity 0 and minStock 10 is counted as low stock as well as out of stock. Three Valves products (active with quantity 0, active with 5, discontinued with 20, all with minimum 10) give low stock 2, not 1 (`CategoryRoutes.ValvesSummary`).
- **Name matches.** Every join between a product and a category compares names exactly, with case.
- **The delete guard.** It counts products of every status (backend/routes/categories.js:139-141). The client disables its delete button only when there are active products.
- **Deleting a missing category id.** This answers 500. Line 140 reads `.name` of a null lookup, so the 404 branch is never reached.
- **The add-product status.** On the first render the status becomes `out_of_stock`, because the status effect also runs on mount and the initial quantity is 0.
- **The add-product stock fields.** Number inputs deliver strings. Once both stock fields have been typed in, `quantity <= minStock` compares them as text: "5" against "10" reads In Stock (`AddProductPage.TypedValuesCompareAsText`).
- **The categories page status filter.** The status select is not rendered, so the filter stays `'active'`. The page also receives only active categories from `GET /categories`, so a deactivated category disappears under every filter.

## Model

| member | source | states |
|---|---|---|
| ProductModel.ParseStatusExact | backend/models/Product.js:62-66 | a status string is accepted exactly when it is one of 'active', 'discontinued', 'out_of_stock' |
| ProductModel.ValidateAcceptsIff | backend/models/Product.js:3-66 | a product body is accepted iff name (after trimming), sku, category, subCategory and description are non-empty and the status, when given, is in the enum |
| ProductModel.ValidateReportsFailures | backend/models/Product.js:3-66 | a rejection names each failing path, and only failing paths |
| ProductModel.ReportedPath | backend/models/Product.js:3-66 | a path is among the failures exactly when it is the path of a rule that fails |
| ProductModel.ValidateDefaults | backend/models/Product.js:34-66 | an accepted body gets quantity 0, minStock 10, unit 'pcs', currency 'INR' and status active when absent; given values are kept; the name is stored trimmed |
| ProductModel.NegativeStockAccepted | backend/models/Product.js:35-42 | negative quantity and minStock pass validation unchanged |
| ProductModel.AppendKeepsUniqueSkus | backend/models/Product.js:9-13 | inserting a product whose sku is not taken keeps skus unique |
| Sequences.FirstIndex | backend/routes/categories.js:202 | the position of the first element satisfying the test, or the length when none does; every id lookup (`findById`, `subCategories.id`, `indexOf`) is this search |
| ProductModel.IndexOfProduct | backend/routes/products.js:105 | the lookup finds the first product with the id, or reports that none has it |
| ProductModel.CountWherePositive | backend/routes/categories.js:139-143 | a document count is positive iff some document satisfies the filter |
| CategoryModel.ValidateSubcategoriesIff | backend/models/Category.js:14-27 | the embedded list is accepted iff every entry has a name that is non-empty after trimming; entries keep their ids and get trimmed names |
| CategoryModel.ValidateCategoryIff | backend/models/Category.js:4-40 | a category body is accepted iff its trimmed name, description and creator are present and every subcategory entry is named |
| CategoryModel.ValidateCategoryDefaults | backend/models/Category.js:4-40 | an accepted category has a trimmed non-empty name, image '' and isActive true by default, and the given creator |
| CategoryModel.IndexOfCategory | backend/routes/categories.js:174 | `findById`: the first category with the id, or none |
| CategoryModel.RenameOrphans | backend/models/Category.js:49-54 | after a rename the name join counts none of the category's old products |
| CategoryModel.IndexOfSub | backend/routes/categories.js:202 | `subCategories.id(subId)`: the first entry with the id, or none |
| CategoryModel.MergeSubcategoryFields | backend/routes/categories.js:207-208 | the merge keeps the entry's id, overwrites exactly the fields the body carries, and fails only when the name becomes blank |
| CategoryModel.PullSubcategoryContents | backend/routes/categories.js:230 | after `pull` no entry has the id, and every other entry survives |
| CategoryModel.PullAbsent | backend/routes/categories.js:230 | pulling an id that no entry has changes nothing |
| CategoryModel.PullIdempotent | backend/routes/categories.js:225-231 | removing a subcategory twice is the same as once |
| CategoryModel.PullKeepsOrder | backend/routes/categories.js:230 | the surviving entries keep their order |
| ProductRoutes.AddIsSum | backend/routes/products.js:112-114 | `add` sets quantity to old + amount, with no bound |
| ProductRoutes.SubtractFloorsAtZero | backend/routes/products.js:115-117 | `subtract` gives max(0, old - amount), never negative |
| ProductRoutes.SetIsVerbatim | backend/routes/products.js:118-120 | `set` stores the amount as given, negative included |
| ProductRoutes.OperationAcceptedIff | backend/routes/products.js:111-123 | only 'add', 'subtract' and 'set' are accepted |
| ProductRoutes.NegativeOnlyThroughAddOrSet | backend/routes/products.js:111-120 | a negative result comes only from a negative `set` amount or an `add` that goes below zero |
| ProductRoutes.WithQuantity | backend/routes/products.js:113-119 | the stock operation changes `stock.quantity` and no other field |
| ProductRoutes.UpdateStock | backend/routes/products.js:102-130 | a missing id answers 404 and an unknown operation 400 "Invalid operation", both with nothing changed; otherwise only that product's quantity is replaced |
| ProductRoutes.ReplaceKeepsUnique | backend/routes/products.js:125 | saving a product with the same id and sku keeps the indexes unique |
| ProductRoutes.GetProduct | backend/routes/products.js:48-58 | the product with the id, found iff one exists, else 404 "Product not found" |
| ProductRoutes.CreateProduct | backend/routes/products.js:61-69 | a validation failure or a duplicate sku answers 400 and stores nothing; otherwise the validated product is appended |
| ProductRoutes.AppendKeepsUniqueIds | backend/routes/products.js:63-64 | inserting under a fresh id keeps ids unique |
| ProductRoutes.DeleteProduct | backend/routes/products.js:89-99 | a missing id answers 404 with nothing removed; otherwise exactly that product is removed |
| ProductRoutes.RemoveKeepsUnique | backend/routes/products.js:91 | removing a product keeps both indexes unique |
| ProductRoutes.BuildFilter | backend/routes/products.js:18-27 | the assembled filter matches a product iff category and status (when non-empty) match exactly, the text relation holds (when searching) and, for lowStock 'true' only, quantity < minStock |
| ProductRoutes.LowStockExcludesBoundary | backend/routes/products.js:25-27 | a product with quantity == minStock is not low stock for the server |
| ProductRoutes.EmptyQuerySelectsAll | backend/routes/products.js:18-27 | without parameters every product is selected |
| ProductRoutes.FilterProductsContents | backend/routes/products.js:29 | `find(filter)` returns exactly the matching documents |
| ProductRoutes.FilterAgrees | backend/routes/products.js:29-34 | the documents found are exactly the intended selection, in collection order |
| ProductRoutes.TotalPagesIsCeiling | backend/routes/products.js:38 | for a positive limit, totalPages is the least page count that holds every record |
| ProductRoutes.WindowBounds | backend/routes/products.js:31-32 | a page returns at most `limit` records, which are the records from position skip on, in order |
| ProductRoutes.EveryRecordHasAPage | backend/routes/products.js:31-38 | record i appears on page i / limit + 1, which is within totalPages |
| ProductRoutes.ListProducts | backend/routes/products.js:7-45 | the reply is the window at (page - 1) * limit of the selection sorted newest first, with totalPages and a total that counts the whole selection; page defaults to 1 and limit to 10 |
| ProductRoutes.DefaultPaging | backend/routes/products.js:13-14 | with no page or limit given, the ten newest selected records are returned, newest first |
| ProductRoutes.SelectedAppend | backend/routes/products.js:29 | inserting a document extends the selection at its end exactly when the query selects it |
| ProductRoutes.CreatedProductListedFirst | backend/routes/products.js:29-32 | a product just created that the query selects is the first record of the first page |
| CategoryRoutes.DeleteGateNarrower | backend/routes/categories.js:132-136 | every role allowed to delete may also manage; a manager may manage but not delete |
| CategoryRoutes.ReplaceKeepsUnique | backend/routes/categories.js:110-114 | an update whose name no other category uses keeps names and ids unique |
| CategoryRoutes.ReplaceSameName | backend/routes/categories.js:149-153 | an in-place edit that keeps the name keeps the indexes unique |
| CategoryRoutes.CreateCategory | backend/routes/categories.js:73-99 | roles other than admin/manager get 403; the body with the caller as creator is validated (400) and a name clash answers 400 "Category name already exists"; otherwise the category is appended |
| CategoryRoutes.AppendKeepsUnique | backend/routes/categories.js:87-88 | inserting a category with an unused name and id keeps both unique |
| CategoryRoutes.ValidatePatchIff | backend/routes/categories.js:110-114 | the update validators accept exactly the patches whose set paths are valid |
| CategoryRoutes.ApplyPatch | backend/routes/categories.js:110-114 | the update keeps the id and every field the body leaves out; a `createdBy` in the body replaces the creator |
| CategoryRoutes.PatchReassignsCreator | backend/routes/categories.js:110-114 | a body carrying only `createdBy` passes the update validators and hands the category to that user, leaving the rest as it was |
| CategoryRoutes.EmptyPatchIsIdentity | backend/routes/categories.js:110-114 | an empty update leaves the document unchanged |
| CategoryRoutes.UpdateCategory | backend/routes/categories.js:102-127 | 403, then a validation 400, then 404 for a missing id, then 400 for a name clash; only an accepted update replaces the one document |
| CategoryRoutes.DeleteCategory | backend/routes/categories.js:130-163 | non-admins get 403; a missing id answers 500; a category that any product names answers 400 with nothing changed; otherwise only `isActive` is cleared; the 404 branch is never taken |
| CategoryRoutes.DeleteGuardIff | backend/routes/categories.js:139-147 | the guard refuses iff some product of any status carries the category's name |
| CategoryRoutes.AddSubcategory | backend/routes/categories.js:166-186 | 403, then 404 for a missing category, 400 for an unnamed entry; otherwise the entry is appended and earlier entries stay as they were |
| CategoryRoutes.UpdateSubcategory | backend/routes/categories.js:189-214 | 403, 404 "Category not found", 404 "Subcategory not found", 400 for a blank merged name; otherwise only that entry is replaced by the merge |
| CategoryRoutes.RemoveSubcategory | backend/routes/categories.js:217-237 | 403, 404 for a missing category; otherwise every entry with the id is pulled and an absent id is no error |
| CategoryRoutes.ActiveCategoriesSelect | backend/routes/categories.js:10 | `find({ isActive: true })` selects exactly the active categories, as an order-preserving subsequence of the collection |
| CategoryRoutes.InsertByNameContents | backend/routes/categories.js:12 | inserting by name adds the category once and keeps every other entry |
| CategoryRoutes.InsertByNameSorted | backend/routes/categories.js:12 | inserting into a name-sorted list keeps it sorted |
| CategoryRoutes.SortByNameSortsAndPermutes | backend/routes/categories.js:12 | `.sort({ name: 1 })` orders the list by name and is a permutation of it |
| CategoryRoutes.ListedCategoriesSelect | backend/routes/categories.js:10-12 | `GET /` lists exactly the active categories, each as often as stored, in ascending name order |
| CategoryRoutes.ListingCountAtMostVirtual | backend/routes/categories.js:15-26 | each listed category is active and stored, and its active-only count never exceeds the all-status count |
| CategoryRoutes.ListingIgnoresDiscontinued | backend/routes/categories.js:17-20 | a discontinued product counts for the virtual but not for the listing |
| CategoryRoutes.StatBounds | backend/routes/categories.js:246-274 | a summary entry has the category's name and subcategory count, and low ≤ active, out ≤ active, active ≤ total ≤ number of products |
| CategoryRoutes.StatsOnePerActive | backend/routes/categories.js:242-276 | one summary entry per active category, and each entry is that of an active category |
| CategoryRoutes.ZeroStockCountedTwice | backend/routes/categories.js:255-265 | an active product with quantity 0 and positive minStock counts as both low and out of stock |
| CategoryRoutes.ValvesSummary | backend/routes/categories.js:246-265 | three Valves products (0 and 5 active, 20 discontinued, minimum 10) give total 3, active 2, low 2, out 1 |
| ProductsPage.BadgeOf | frontend/src/pages/Products.jsx:102-125 | the badge's caption and colour are those of the stock level; the description is "No stock available", "Only n left" or "Good stock level" |
| ProductsPage.ClassifyRegions | frontend/src/pages/Products.jsx:102-125 | Out of Stock iff quantity == 0, Low Stock iff quantity ≠ 0 and ≤ minStock, In Stock iff quantity ≠ 0 and > minStock |
| ProductsPage.ZeroIsOutEvenWithZeroMinimum | frontend/src/pages/Products.jsx:106-111 | quantity 0 with minimum 0 is Out of Stock |
| ProductsPage.LowBoundaryInclusive | frontend/src/pages/Products.jsx:112-117 | a quantity equal to a non-zero minimum is Low Stock |
| ProductsPage.NegativeIsLow | frontend/src/pages/Products.jsx:106-117 | a negative quantity at or below the minimum is Low Stock, not Out of Stock |
| ProductsPage.CaptionMatchesBadge | frontend/src/pages/Products.jsx:394-398 | the caption is shown iff quantity ≤ minStock, repeats the badge, and reads "Out of Stock" iff quantity is 0 |
| ProductsPage.BadgeWithoutCaption | frontend/src/pages/Products.jsx:394-398 | with a negative minimum an empty product shows the Out of Stock badge but no caption |
| AddProductPage.ChangeFieldOnlyTarget | frontend/src/pages/AddProduct.jsx:100-118 | a change writes its target entry (or its dotted child) and leaves every other entry and sibling child as it was |
| AddProductPage.ChildChange | frontend/src/pages/AddProduct.jsx:103-111 | an input named parent.child (no further dots) writes exactly that child of that parent |
| AddProductPage.AutoStatusOnNumbers | frontend/src/pages/AddProduct.jsx:121-136 | on numbers: quantity ≤ 0 forces 'out_of_stock'; 0 < quantity ≤ minStock turns 'out_of_stock' into 'active' and keeps other statuses; otherwise the status stays |
| AddProductPage.AutoStatusIdempotent | frontend/src/pages/AddProduct.jsx:121-136 | running the effect again with the same stock values changes nothing |
| AddProductPage.AutoStatusPositive | frontend/src/pages/AddProduct.jsx:127-135 | within the low band the effect never leaves 'out_of_stock' |
| AddProductPage.FormAgreesWithListWhenNonNegative | frontend/src/pages/AddProduct.jsx:138-149 | on integers the form's badge equals the product list's for quantity ≥ 0 |
| AddProductPage.FormDiffersFromListWhenNegative | frontend/src/pages/AddProduct.jsx:138-149 | for a negative quantity the form says Out of Stock and the list does not |
| AddProductPage.TypedValuesCompareAsText | frontend/src/pages/AddProduct.jsx:138-149 | typed "5" against typed "10" reads In Stock and leaves 'out_of_stock' alone, where 5 and 10 read Low Stock |
| AddProductPage.TypedQuantityAgainstDefaultMinimum | frontend/src/pages/AddProduct.jsx:138-149 | a typed quantity against the numeric default minimum compares numerically |
| AddProductPage.RequiredFilledText | frontend/src/pages/AddProduct.jsx:172-177 | the gate passes iff name, sku, category and subCategory are non-empty; description is not checked |
| AddProductPage.InitialFormBlocked | frontend/src/pages/AddProduct.jsx:44-78 | a fresh form does not pass the gate |
| AddProductPage.SubmitNormalisesStock | frontend/src/pages/AddProduct.jsx:187-191 | the body's `stock` carries `parseInt(quantity) \|\| 0` and `parseInt(minStock) \|\| 10`, and `unit` and every other stock child as typed |
| AddProductPage.SubmitNormalisesPricing | frontend/src/pages/AddProduct.jsx:182-186 | the body's `pricing` carries `parseFloat(cost) \|\| 0` and `parseFloat(sellingPrice) \|\| 0`, and `currency` and every other pricing child as typed |
| AddProductPage.SubmitKeepsOtherEntries | frontend/src/pages/AddProduct.jsx:180-181 | the body has the form's entries plus `stock` and `pricing`, and every entry other than those two is sent as it was |
| AddProductPage.InitialFormValues | frontend/src/pages/AddProduct.jsx:44-78 | a fresh form has quantity 0, minimum 10, unit "pcs", empty prices and currency "INR" |
| AddProductPage.SubmitInitialForm | frontend/src/pages/AddProduct.jsx:180-192 | the body the payload builds from an untouched form has quantity 0, minimum 10, unit "pcs", currency "INR" and 0 for both empty prices (the browser does not let that form through: `InitialFormHeldBack`) |
| AddProductPage.SubmitUntouchedStockAndPricing | frontend/src/pages/AddProduct.jsx:180-192 | any form whose stock and pricing children are a fresh form's is sent with quantity 0, minimum 10, unit "pcs", currency "INR" and 0 for both prices |
| AddProductPage.SubmitFalsyDefaults | frontend/src/pages/AddProduct.jsx:187-191 | the payload turns an entered minimum of 0, or an emptied one, into 10, and an emptied quantity into 0 |
| AddProductPage.StepTwoValid | frontend/src/pages/AddProduct.jsx:470-539 | the browser's check before submit: quantity and minimum are required whole numbers ≥ 0, both prices required numbers ≥ 0 in steps of 0.01, the unit select required |
| AddProductPage.InitialFormHeldBack | frontend/src/pages/AddProduct.jsx:44-78 | an untouched form's stock values pass the browser's check, but its empty prices do not, so it cannot be submitted |
| AddProductPage.EmptyPriceHeldBack | frontend/src/pages/AddProduct.jsx:517-526 | a form with an empty cost never gets past the browser's check |
| AddProductPage.TypedZeroMinimumSentAsTen | frontend/src/pages/AddProduct.jsx:482-490 | a minimum typed as 0 passes the browser's check and is sent as 10; an emptied minimum or quantity blocks the submit |
| AddProductPage.SentStockAndPricesNonNegative | frontend/src/pages/AddProduct.jsx:180-192 | a body the browser lets through carries quantity ≥ 0, minimum ≥ 1 and both prices ≥ 0 |
| NumberInput.RenderRead | frontend/src/pages/AddProduct.jsx:471-479 | a number text that is read back is well formed and renders to the text it came from |
| NumberInput.ReadRender | frontend/src/pages/AddProduct.jsx:471-479 | reading a rendered well-formed number gives it back |
| NumberInput.AcceptsIntegers | frontend/src/pages/AddProduct.jsx:478 | a number value passes `required` and `min: 0` iff it is at least 0, on any step |
| NumberInput.AcceptsDigits | frontend/src/pages/AddProduct.jsx:471-479 | typed digits pass; an empty value fails `required` |
| NumberInput.StepOfOneAndAHalf | frontend/src/pages/AddProduct.jsx:526 | "1.5" is off the default whole-number step and on the 0.01 step |
| NumberInput.StepOfThreeDecimals | frontend/src/pages/AddProduct.jsx:526 | "0.015" is off the 0.01 step |
| NumberInput.ParseIntOfRendered | frontend/src/pages/AddProduct.jsx:189-190 | `parseInt` of a number text is its signed whole part, NaN without one |
| NumberInput.AcceptedParsesNonNegative | frontend/src/pages/AddProduct.jsx:189-190 | `parseInt` of a value that passes `min: 0` is NaN or at least 0 |
| AddProductPage.SubmitKeepsTypedNumber | frontend/src/pages/AddProduct.jsx:189 | a typed non-zero integer is sent as that integer |
| AddProductPage.SubCategoriesFor | frontend/src/pages/AddProduct.jsx:259-262 | the choices are empty unless some category has exactly the selected name |
| AddProductPage.SubCategoriesForFirst | frontend/src/pages/AddProduct.jsx:259-262 | the choices are the subcategories of the first category with exactly that name |
| AddProductPage.AddProductForm.constructor | frontend/src/pages/AddProduct.jsx:44-78 | the initial form, with the status already 'out_of_stock' from the mount effect, at step 0 |
| AddProductPage.AddProductForm.HandleChange | frontend/src/pages/AddProduct.jsx:100-136 | the change is written, then the effect runs iff a stock value changed |
| AddProductPage.AddProductForm.Next | frontend/src/pages/AddProduct.jsx:243-253 | from step 0 with a required field empty the step stays and the error is set; otherwise the step increments and the error clears |
| AddProductPage.AddProductForm.Back | frontend/src/pages/AddProduct.jsx:255-257 | the step decrements; Back is unavailable on step 0 |
| AddProductPage.AddProductForm.HandleSubmit | frontend/src/pages/AddProduct.jsx:166-192 | `handleSubmit`: a request is sent iff the required fields are filled, and it is the normalised body; otherwise the error is set; the success message is cleared either way |
| AddProductPage.AddProductForm.Submit | frontend/src/pages/AddProduct.jsx:166-192 | a request is sent iff the browser's check of the step-2 inputs passes and the required fields are filled, and it is the normalised body; a failed browser check changes nothing, a failed field gate sets the error |
| AddProductPage.AddProductForm.Created | frontend/src/pages/AddProduct.jsx:196-201 | success message, the form reset to its initial values, with the status effect rerun iff the stock values changed, and step 0 |
| AddProductPage.AddProductForm.Failed | frontend/src/pages/AddProduct.jsx:203-204 | the server's message becomes the error, or 'Failed to save product' when the response carries no message or an empty one; the error is never empty |
| AddProductPage.WizardReachesSubmit | frontend/src/pages/AddProduct.jsx:631 | two Nexts from step 0 with the required fields filled reach the step that shows submit |
| JsValues.ParseIntOfNumber | frontend/src/pages/AddProduct.jsx:189-190 | `parseInt` of an untouched numeric field gives back the number |
| JsValues.ParseIntOr | frontend/src/pages/AddProduct.jsx:189-190 | `parseInt(v) \|\| d` is the parsed value, or d when that is NaN or 0 |
| JsValues.ParseIntFalsyTexts | frontend/src/pages/AddProduct.jsx:189-190 | `parseInt("")` is NaN and `parseInt("0")` is 0, so both give the default under `\|\| d` |
| JsText.MessageOr | frontend/src/pages/AddProduct.jsx:204 | `message \|\| fallback` on a possibly missing message: the message when it is non-empty, else the fallback, and never empty when the fallback is not |
| JsText.TrimEmptyIffBlank | frontend/src/pages/AddSubcategory.jsx:362 | `s.trim()` is falsy iff s is all whitespace |
| TagList.AddTagGrows | frontend/src/pages/AddSubcategory.jsx:80-91 | an add keeps the old list as a prefix and appends the trimmed input iff it is non-empty and not listed, clearing the input exactly then |
| TagList.AddTagKeepsClean | frontend/src/pages/AddSubcategory.jsx:80-91 | a list without duplicates or empty entries stays so after an add |
| TagList.RejectedAddKeepsInput | frontend/src/pages/AddSubcategory.jsx:80-91 | a rejected add changes neither the list nor the input |
| TagList.RemoveTagContents | frontend/src/pages/AddSubcategory.jsx:93-101 | a remove keeps exactly the entries that differ from the tag, in order |
| TagList.RemoveTagKeepsClean | frontend/src/pages/AddSubcategory.jsx:93-101 | a clean list stays clean after a remove |
| TagList.RemoveAbsentTag | frontend/src/pages/AddSubcategory.jsx:93-101 | removing an unlisted tag changes nothing |
| TagList.RemoveUndoesAdd | frontend/src/pages/AddSubcategory.jsx:80-101 | removing the chip an add just created restores the list |
| TagList.AddTagKeepsDuplicates | frontend/src/pages/EditSubcategory.jsx:97-108 | an add never removes a duplicate already in the list |
| AddSubcategoryDialog.GatedBodyIsAccepted | frontend/src/pages/AddSubcategory.jsx:362 | a body the submit gate lets through passes the server's entry validation, and is stored with the trimmed name |
| AddSubcategoryDialog.Dialog.constructor | frontend/src/pages/AddSubcategory.jsx:24-40 | empty form, empty lists and inputs, not loading |
| AddSubcategoryDialog.Dialog.Change | frontend/src/pages/AddSubcategory.jsx:60-78 | the named text field, or the temperature range, gets the value and nothing else changes |
| AddSubcategoryDialog.Dialog.SetSizeInput | frontend/src/pages/AddSubcategory.jsx:39 | typing sets the size input only |
| AddSubcategoryDialog.Dialog.SetPressureInput | frontend/src/pages/AddSubcategory.jsx:40 | typing sets the pressure input only |
| AddSubcategoryDialog.Dialog.AddSize | frontend/src/pages/AddSubcategory.jsx:80-91 | the sizes list and input become the add's result; the lists stay clean |
| AddSubcategoryDialog.Dialog.RemoveSize | frontend/src/pages/AddSubcategory.jsx:93-101 | the sizes list loses every equal entry |
| AddSubcategoryDialog.Dialog.AddPressure | frontend/src/pages/AddSubcategory.jsx:103-114 | the pressure list and input become the add's result |
| AddSubcategoryDialog.Dialog.RemovePressure | frontend/src/pages/AddSubcategory.jsx:116-124 | the pressure list loses every equal entry |
| AddSubcategoryDialog.Dialog.KeyPress | frontend/src/pages/AddSubcategory.jsx:126-135 | Enter adds for size and pressure only; anything else changes nothing; materials stay [] |
| AddSubcategoryDialog.Dialog.Submit | frontend/src/pages/AddSubcategory.jsx:137-147 | the request targets the selected category with the form's body, and sets loading |
| AddSubcategoryDialog.Dialog.Close | frontend/src/pages/AddSubcategory.jsx:157-173 | every field and input is back to its initial value |
| AddSubcategoryDialog.Dialog.Settled | frontend/src/pages/AddSubcategory.jsx:148-154 | success closes the dialog; failure shows the server's message, or 'Failed to create subcategory' when there is none, and keeps the form; loading clears either way |
| EditSubcategoryDialog.WithList | frontend/src/pages/EditSubcategory.jsx:97-164 | an edit of one list leaves the other two lists and the range unchanged |
| EditSubcategoryDialog.Dialog.constructor | frontend/src/pages/EditSubcategory.jsx:24-41 | empty form and inputs, not loading |
| EditSubcategoryDialog.Dialog.Load | frontend/src/pages/EditSubcategory.jsx:49-63 | the subcategory's fields are copied, a missing description becomes '', and the category is the one it was opened from |
| EditSubcategoryDialog.Dialog.Change | frontend/src/pages/EditSubcategory.jsx:77-95 | the named text field, the category select or the range gets the value and nothing else changes |
| EditSubcategoryDialog.Dialog.SetInput | frontend/src/pages/EditSubcategory.jsx:39-41 | typing sets one chip input only |
| EditSubcategoryDialog.Dialog.Add | frontend/src/pages/EditSubcategory.jsx:97-154 | the chosen list and its input become the add's result; the other inputs stay |
| EditSubcategoryDialog.Dialog.Remove | frontend/src/pages/EditSubcategory.jsx:110-164 | the chosen list loses every equal entry |
| EditSubcategoryDialog.Dialog.KeyPress | frontend/src/pages/EditSubcategory.jsx:166-177 | Enter adds to the size, material or pressure list; anything else changes nothing |
| EditSubcategoryDialog.Dialog.Submit | frontend/src/pages/EditSubcategory.jsx:179-193 | the request targets the form's current category and the loaded subcategory's id |
| EditSubcategoryDialog.Dialog.Settled | frontend/src/pages/EditSubcategory.jsx:194-200 | success closes the dialog; failure shows the server's message, or 'Failed to update subcategory' when there is none, and keeps the form; loading clears either way |
| EditSubcategoryDialog.Dialog.Close | frontend/src/pages/EditSubcategory.jsx:203-220 | the form and the three inputs are reset |
| EditSubcategoryDialog.AddTouchesOneList | frontend/src/pages/EditSubcategory.jsx:97-154 | an add to one list never touches another |
| EditSubcategoryDialog.LoadedDuplicatesSurvive | frontend/src/pages/EditSubcategory.jsx:56-58 | a duplicate in a loaded list survives any add |
| CategoriesPage.VisibleSelect | frontend/src/pages/Categories.jsx:78-97 | the page shows exactly the fetched categories that pass both filters, as an order-preserving subsequence |
| CategoriesPage.SearchIgnoresQueryCase | frontend/src/pages/Categories.jsx:81-89 | the search result does not depend on the case of the query |
| CategoriesPage.VerbatimMatchKept | frontend/src/pages/Categories.jsx:81-89 | a category whose name or description contains the query is kept |
| CategoriesPage.SubcategoryMatchKept | frontend/src/pages/Categories.jsx:85-87 | a match on a subcategory name alone keeps the category |
| CategoriesPage.EmptySearchKeepsAll | frontend/src/pages/Categories.jsx:81 | an empty query would keep every category |
| CategoriesPage.InitialFiltersShowActive | frontend/src/pages/Categories.jsx:62-65 | under the initial filters exactly the active fetched categories are shown |
| CategoriesPage.CategoryStatsFor | frontend/src/pages/Categories.jsx:208-210 | the lookup gives a record with exactly that name, and none iff no record has it |
| CategoriesPage.CategoryStatsForFirst | frontend/src/pages/Categories.jsx:208-210 | the lookup gives the first record with the name |
| CategoriesPage.ShownCountsDefault | frontend/src/pages/Categories.jsx:453-477 | missing counts show as 0; a record shows its own counts |
| CategoriesPage.DeleteEnabledIff | frontend/src/pages/Categories.jsx:503 | delete is enabled iff no record has the name or the first one has no active products |
| CategoriesPage.StoredEntriesRoundTrip | frontend/src/pages/Categories.jsx:214-217 | stored subcategories sent back validate to themselves |
| CategoriesPage.ToggleFlipsOnlyActive | frontend/src/pages/Categories.jsx:212-217 | the toggle's request passes the update validators and changes only `isActive`, to its negation |
| CategoriesPage.ChipsCover | frontend/src/pages/Categories.jsx:395-421 | the first min(4, n) subcategories as chips, and a "+(n-4) more" chip iff n > 4 |
| CategoriesPage.Page.constructor | frontend/src/pages/Categories.jsx:62-65 | nothing loaded, filters search '' and status 'active' |
| CategoriesPage.Page.LoadCategories | frontend/src/pages/Categories.jsx:74-97 | the two successive filters leave exactly the visible categories |
| CategoriesPage.Page.LoadStats | frontend/src/pages/Categories.jsx:106-113 | the records as fetched |
| CategoriesPage.Page.LoadFailed | frontend/src/pages/Categories.jsx:98-100 | the error is set and the shown list is kept |
| CategoriesPage.Page.ChangeSearch | frontend/src/pages/Categories.jsx:115-117 | only the search filter changes |
| Consistency.BoundaryLowOnlyOnClient | frontend/src/pages/Products.jsx:112-117 | at quantity == minStock > 0 the badge says Low Stock while the server's lowStock listing and the summary leave the product out |
| Consistency.LowAgreesOffBoundary | frontend/src/pages/Products.jsx:112 | away from zero and from the boundary, client Low Stock and server low stock agree |
| Consistency.SummaryRecordFor | frontend/src/pages/Categories.jsx:208-210 | a record found in the server's summary is the stats of an active category with that name |
| Consistency.DisabledDeleteIsRefused | frontend/src/pages/Categories.jsx:503 | when the button is disabled, the server's guard would refuse the delete too |
| Consistency.EnabledDeleteCanBeRefused | frontend/src/pages/Categories.jsx:574 | with one discontinued product the button is enabled and the server refuses |
| Consistency.SubmitAfterParentChange | frontend/src/pages/EditSubcategory.jsx:185-193 | after the parent select names another existing category, the request answers 404 "Subcategory not found" and changes nothing |
| Consistency.Received | backend/routes/categories.js:8-28 | the page receives the categories of the listing, in order |
| Consistency.InactiveFilterShowsNothing | frontend/src/pages/Categories.jsx:91-95 | any status other than 'active' shows no category, since only active ones are received |
| Consistency.DeactivatedLeavesPage | frontend/src/pages/Categories.jsx:212-218 | a toggled-off category is shown under no filter |
| Consistency.GatedPatchIsAccepted | frontend/src/pages/EditSubcategory.jsx:448 | a body the edit dialog lets through merges into any stored entry without a validation error |

## Left out

- backend/server.js, the axios services, the auth middleware and the build configuration are wiring. The caller's role is a parameter of each route method.
- Sidebar.jsx, Navbar.jsx, Dashboard.jsx, AddCategory.jsx and EditCategory.jsx are not part of this model. The two category dialogs have the same trim-and-non-empty gate as `AddSubcategoryDialog.SubmitGate`.
- Floating point: profit, margin and the progress bar. On the server, prices are carried as optional reals and never computed on.
- AddProductPage.SubmitPayload: reads the two prices as integers. `parseFloat` keeps a fractional part or an exponent ("12.5" and "1e3" give 12.5 and 1000). `ParseFloatOr` stops at the first non-digit, as `parseInt` does, and gives 12 and 1.
- Full-text `$text` search is an opaque relation `textMatch(search, product)` passed to the listing.
- Sort orders:
  - A collection is a sequence in insertion order, and a create appends to it.
  - Creation timestamps are taken to grow strictly with insertion, so `.sort({ createdAt: -1 })` is the reverse of collection order (`ProductRoutes.NewestFirst`). Two documents created in the same millisecond are not modelled.
  - `.sort({ name: 1 })` is an insertion sort on names (`CategoryRoutes.SortByName`).
  - Queries without a sort, such as the statistics, return collection order.
- `populate`, timestamps and ObjectId casting are left out. Ids are strings, and new ids are parameters of the create methods.
- Uniqueness is enforced when the insert happens, and a clash is reported as "rejected". MongoDB error details beyond that are not modelled.
- Concurrency: `Promise.all` and the read-modify-write race on stock. Each request is one sequential step.
- `PUT /products/:id` and `GET /categories/:id` are not part of this model. They are outside the stock, listing and category-lifecycle rules modelled here.
- ProductRoutes.UpdateStock: the amount is an integer. A string amount would concatenate under `+=` ("10" + "5" is "105", cast to 105 on save). A missing one gives NaN and a 400 cast error. Neither is modelled.
- ProductRoutes.ListProducts: `page` and `limit` arrive already parsed as integers. Non-numeric or fractional query strings, and `currentPage` echoing the raw string, are not modelled.
- NumberInput.ReadNumber: exponent notation ("1e3") is read as no number, so the model's browser check refuses it where a browser would accept it.
- JsValues.StrLess: compares code points, which is MongoDB's string order. JavaScript's `<` on strings compares UTF-16 code units, and the two differ when a character outside the Basic Multilingual Plane meets one in U+E000-U+FFFF. `LooseLessEq` uses code-point order for the form's typed stock values.
- JsValues.StringToNumber: numbers are integers only. Decimal points, exponents and hexadecimal forms of `Number(s)` are not modelled.
- JsText.ToLower: lower-cases only the Latin letters A-Z, not the whole Unicode case mapping.
- CategoriesPage.TogglePayload: sends the schema fields, `createdBy` included (the populated creator casts back to its id). The `_id`, timestamps and `productCount` that the request also carries are not modelled. The update casts or ignores them.
- CategoryRoutes.ApplyPatch: body keys outside the schema, and the timestamps, are not modelled. A malformed `createdBy` that fails the ObjectId cast is not modelled either.
- The add-product page's edit mode (`editingProduct`), its category fetch and its `loading` flag are not modelled. Only the create path is.
- The categories page's delete, dialogs and navigation handlers are not modelled. They only call the routes modelled in `CategoryRoutes`.
