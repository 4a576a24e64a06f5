# ShopComp front end — a Dafny model

ShopComp is a web front end for comparing grocery shopping: shoppers keep
receipts and shopping lists, administrators manage store chains and read a
sales report. This project models the parts of its React pages that decide
what the user sees and what gets sent to the server:

- the shared **searchable list** widget: search, a single selection that
  locks the input, and the optional delete button (`Searchable`);
- the **receipts** page: the receipt search, and the create-receipt popup
  with its store-chain and location autocompletes. These report an id
  upward, or -1, and the popup refuses to submit while an id is -1
  (`Receipts`);
- the **shopping-lists** page: the list search, the create-list form and
  its category autocomplete (defaults merged with the fetched types), and
  the popup that adds and removes the items of a list (`ShoppingLists`);
- the **stores** page: its own chain list with `addChain` and `addStore`
  (`StoresPage`), and the chain panel and store panel (`StoresPanels`);
- the **search-list demonstration** page (`SearchListDemo`);
- the **login** page: the login form, the registration form and the switch
  between them (`Login`);
- the administrator's **sales report** table (`AdminReport`).

The JavaScript string operations these pages rely on are written out in
`Strings`:
- `toLowerCase` and `includes`;
- `trim`;
- `String(n)` for integer ids, and `parseInt`;
- the default `sort` order.

Generic sequence facts (`filter`, subsequences, lookup of a unique match,
`new Set`) are in `Seqs`. The address and store records shared by several
pages are in `Addresses`.

Components whose state changes as the user acts are classes. Their fields
are the component's `useState` values and refs. Each method is one user
event or one effect. An effect with dependencies runs only when a
dependency's value changes. An event on a control that is disabled or not
rendered changes nothing. Calls to the server are not modelled; their
outcomes are method parameters, and the requests sent are recorded in
sequence fields. Each method is specified against the pure functions
(`SearchMatches`, `ChainIdSent`, `MergeCategories`, `RemoveItem`, …).
Lemmas state what those functions guarantee.

In these places the code behaves in ways a reader may not expect; the model
follows the code:
- the searchable list's `items` effect clears neither the query nor the
  selection (`Searchable.SearchableList.ItemsChanged`);
- the widget's search does not trim the query (`Searchable.SearchDoesNotTrim`);
- the create-list guard refuses only empty strings, so white space passes
  (`ShoppingLists.CreateListRejected`);
- a chain query padded with white space reports -1 even when it names a
  chain, because only the chain names are trimmed
  (`Receipts.ChainIdSentPaddedQuery`);
- the create-list form takes no `displayed` prop, although the shopping-lists
  page passes one: it is shown from page load and never hidden, and its
  close button and a successful submit only write the page's flag
  (`ShoppingLists.CreateShoppingListForm.Close`);
- `addStore` checks the trimmed store name twice, and the second check is
  the first again (`Strings.TrimIdempotent`).

The two places where the code evidently differs from what its authors meant
are listed under "## Findings". There too the classes do what the code does:
the item popup shows items marked deleted and posts a `NaN` quantity. The
intended behaviour is stated and proved beside them (`VisibleItemsSpec`,
`AddItemGuardsCompared`).

## Model

| member | source | states |
|---|---|---|
| Searchable.SearchMatchesExact | src/app/searchableList.tsx:39-45 | the search results are a subsequence of the items; each matching item is kept as often as it occurs, and no other item is kept |
| Searchable.SearchKeepsMatching | src/app/searchableList.tsx:39-45 | every item whose content holds the query, case ignored, appears among the results |
| Searchable.SearchEmptyQuery | src/app/searchableList.tsx:64 | the empty query shows the whole list, in order |
| Searchable.SearchIdempotent | src/app/searchableList.tsx:41-42 | searching the results again with the same query changes nothing |
| Searchable.SearchDoesNotTrim | src/app/searchableList.tsx:42 | the widget does not trim: " a" finds nothing in a list that "a" finds whole |
| Searchable.DeleteButtonOnSelectedRowOnly | src/app/searchableList.tsx:194-199 | with distinct ids, the delete button is shown on at most one row; that row is the selected one, and only when the list is deletable |
| Searchable.SearchableList.constructor | src/app/searchableList.tsx:35-36 | on mounting, the list is unlocked with nothing selected, an empty query, and every item shown |
| Searchable.SearchableList.HandleSearch | src/app/searchableList.tsx:39-45 | the results become the items matching the query |
| Searchable.SearchableList.ItemsChanged | src/app/searchableList.tsx:64 | a new item list is shown in full; the query, the lock and the selection are kept |
| Searchable.SearchableList.Type | src/app/searchableList.tsx:105-109 | typing while unlocked sets the query and searches with it; while locked (the input is disabled) nothing changes |
| Searchable.SearchableList.Submit | src/app/searchableList.tsx:99-102 | the search button searches with the current query, unless locked |
| Searchable.SearchableList.HandleSelect | src/app/searchableList.tsx:48-55 | a selection locks the input and is reported to `onSelect`; clearing the selection only unlocks |
| Searchable.SearchableList.Click | src/app/searchableList.tsx:142-154 | clicking the selected row deselects and unlocks; clicking any other row selects, locks and reports it |
| Searchable.SearchableList.PressDelete | src/app/searchableList.tsx:58-61 | where the delete button is shown, pressing it unlocks and reports the item to `onDelete`, keeping the selection; elsewhere nothing changes |
| Receipts.ReceiptToString | src/app/receipts/boundary.tsx:23-25 | a receipt's text starts with the store name and has the length of its three fields plus the separators |
| Receipts.ReceiptFilterSpec | src/app/receipts/boundary.tsx:43-45 | the receipts shown are a subsequence; a receipt is kept exactly when its text holds the trimmed query, case ignored, and then as often as it occurs, so no other receipt is kept; a blank query keeps them all |
| Receipts.ReceiptFoundByStoreOrDate | src/app/receipts/boundary.tsx:44 | a query found in a receipt's store name or date finds the receipt |
| Receipts.StringToChainIdSpec | src/app/receipts/boundary.tsx:113-117 | the lookup gives the id of the one chain whose trimmed name is the string, and -1 when no chain or several chains have it |
| Receipts.ChainIdSentSpec | src/app/receipts/boundary.tsx:136-140 | the chain id reported after a query change is -1, or the non-negative id of the one chain the query names |
| Receipts.ChainIdSentPaddedQuery | src/app/receipts/boundary.tsx:114 | a query with white space at either end reports -1 |
| Receipts.ChainFilterSpec | src/app/receipts/boundary.tsx:136 | the chains listed are exactly those whose name holds the trimmed query, in order, each as often as in the input, and no others; a blank query lists all; a chain's own name finds it |
| Receipts.StoreToString | src/app/receipts/boundary.tsx:217-225 | a store's text starts with its house number and holds five address fields; the country is left out |
| Receipts.StoreToStringIgnoresCountry | src/app/receipts/boundary.tsx:217-225 | two stores that differ only in country have the same text |
| Receipts.StringToStoreIdSpec | src/app/receipts/boundary.tsx:227-231 | the lookup gives the id of the one store whose text is the string, untrimmed, and -1 when none or several have it |
| Receipts.StoreIdSentSpec | src/app/receipts/boundary.tsx:253-255 | the store id reported after a query change is -1, or the non-negative id of the one store the query names |
| Receipts.StoreFilterSpec | src/app/receipts/boundary.tsx:251 | the stores listed are exactly those whose text holds the trimmed query, in order, each as often as in the input, and no others; a blank query lists all; a store's own text finds it |
| Receipts.DecodeButtonIdRoundTrip | src/app/receipts/boundary.tsx:159 | `parseInt` of a result button's id, after the "button-" prefix, gives back the entry's id |
| Receipts.StoreChainInput.constructor | src/app/receipts/boundary.tsx:120-125 | on mounting, nothing is loaded, the query is empty and -1 is reported |
| Receipts.StoreChainInput.Loaded | src/app/receipts/boundary.tsx:144-156 | the fetched chains are kept and all listed |
| Receipts.StoreChainInput.QueryChanged | src/app/receipts/boundary.tsx:135-141 | the listed chains become the filter of the loaded chains, and the reported id becomes the lookup of the query |
| Receipts.StoreChainInput.Type | src/app/receipts/boundary.tsx:173 | a new value re-filters and re-reports; the same value changes nothing |
| Receipts.StoreChainInput.Press | src/app/receipts/boundary.tsx:158-163 | pressing a listed chain makes its name the query and reports its id; when the query changes, the effect then replaces the results and the id |
| Receipts.LocationInput.constructor | src/app/receipts/boundary.tsx:234-247 | on mounting, stores are fetched only for a usable chain id, and -1 is reported |
| Receipts.LocationInput.ChainIdChanged | src/app/receipts/boundary.tsx:244-247 | a new chain id starts a fetch when it is defined, non-zero and not negative; otherwise the results are cleared |
| Receipts.LocationInput.Loaded | src/app/receipts/boundary.tsx:267-279 | the fetched stores are kept and all listed |
| Receipts.LocationInput.QueryChanged | src/app/receipts/boundary.tsx:250-256 | the listed stores become the filter of the loaded stores, and the reported id becomes the lookup of the query |
| Receipts.LocationInput.Type | src/app/receipts/boundary.tsx:296 | a new value re-filters and re-reports; the same value changes nothing |
| Receipts.LocationInput.Press | src/app/receipts/boundary.tsx:281-286 | pressing a listed store makes its text the query and reports its id; when the query changes, the effect then replaces the results and the id |
| Receipts.PressedStoreReported | src/app/receipts/boundary.tsx:227-231 | a store whose text no other store shares, and whose id is not negative, is reported by its own id |
| Receipts.UnmatchedChainRejected | src/app/receipts/boundary.tsx:329 | a chain query that names no single chain makes the popup refuse to submit |
| Receipts.UnmatchedStoreRejected | src/app/receipts/boundary.tsx:329 | a store query that names no single store makes the popup refuse to submit |
| Receipts.CreateReceiptForm.constructor | src/app/receipts/boundary.tsx:321-322 | both ids start undefined and nothing is posted |
| Receipts.CreateReceiptForm.SetChainId | src/app/receipts/boundary.tsx:321 | the popup holds the chain id last reported |
| Receipts.CreateReceiptForm.SetStoreId | src/app/receipts/boundary.tsx:322 | the popup holds the store id last reported |
| Receipts.CreateReceiptForm.Close | src/app/receipts/boundary.tsx:351 | the close button hides the popup |
| Receipts.CreateReceiptForm.Submit | src/app/receipts/boundary.tsx:324-345 | an id of -1 or an empty date posts nothing; otherwise exactly one request with both ids and the date is posted, and the popup closes when it succeeds |
| ShoppingLists.ListSearchFindsNameAndType | src/app/shopping-lists/boundary.tsx:147-151 | every list is offered with its own id and record; a query in its name or in its type finds it |
| ShoppingLists.MergeCategoriesSpec | src/app/shopping-lists/boundary.tsx:386-394 | the merged categories are sorted, hold no duplicates, and are exactly the default categories and the fetched types |
| ShoppingLists.FallbackUnsorted | src/app/shopping-lists/boundary.tsx:399-402 | the fallback after a failed fetch is not sorted, so it differs from what an empty successful fetch shows (the same categories, sorted) |
| ShoppingLists.CategoryResultsSpec | src/app/shopping-lists/boundary.tsx:368-378 | the blank-query branch equals the filter; the categories shown are exactly those holding the trimmed query, in order |
| ShoppingLists.CategoryInput.constructor | src/app/shopping-lists/boundary.tsx:344-347 | on mounting, nothing is loaded, the query is empty and the dropdown is closed |
| ShoppingLists.CategoryInput.FetchSucceeded | src/app/shopping-lists/boundary.tsx:380-398 | the categories become the merge of the defaults and the fetched types, all shown |
| ShoppingLists.CategoryInput.FetchFailed | src/app/shopping-lists/boundary.tsx:399-402 | the categories become the defaults in their declared order, all shown |
| ShoppingLists.CategoryInput.QueryChanged | src/app/shopping-lists/boundary.tsx:368-378 | the categories shown become those matching the query |
| ShoppingLists.CategoryInput.Focus | src/app/shopping-lists/boundary.tsx:426 | focusing opens the dropdown |
| ShoppingLists.CategoryInput.Change | src/app/shopping-lists/boundary.tsx:406-410 | the query and the category reported upward both become the typed value, and a new value re-filters |
| ShoppingLists.CategoryInput.Select | src/app/shopping-lists/boundary.tsx:412-416 | choosing a listed category in the open dropdown makes it the query and the reported category, and closes the dropdown |
| ShoppingLists.CreateShoppingListForm.constructor | src/app/shopping-lists/boundary.tsx:278-286 | the form starts with both fields empty, with or without the optional `onCreateShoppingList` callback, and with the owner's flag as the owner set it (the shopping-lists page starts it false); the form is rendered either way |
| ShoppingLists.CreateShoppingListForm.SetName | src/app/shopping-lists/boundary.tsx:331 | typing sets the name |
| ShoppingLists.CreateShoppingListForm.SetCategory | src/app/shopping-lists/boundary.tsx:333 | the category input sets the category |
| ShoppingLists.CreateShoppingListForm.Close | src/app/shopping-lists/boundary.tsx:334 | the close button sets the owner's flag to false through `setDisplayed`; the form itself stays on screen, since it never reads the flag |
| ShoppingLists.CreateShoppingListForm.Submit | src/app/shopping-lists/boundary.tsx:288-320 | an empty name or category posts nothing; otherwise one request is posted; on success the new list is reported only when the owner passed the optional callback (the shopping-lists page passes none), `setDisplayed(false)` is called (the form stays on screen) and the fields are cleared; on failure the fields are kept |
| ShoppingLists.DeletedItemShownAsWritten | src/app/shopping-lists/boundary.tsx:475-476 | driving the popup with one fetched item marked deleted shows that item, while the intended list is empty |
| ShoppingLists.VisibleItemsSpec | src/app/shopping-lists/boundary.tsx:474-476 | the intended list keeps, in order, every item not marked deleted, as often as fetched, and no other item |
| ShoppingLists.NaNQuantityAcceptedAsWritten | src/app/shopping-lists/boundary.tsx:491 | a cleared quantity field (`parseInt("")` is `NaN`) passes the guard as written but not the intended one |
| ShoppingLists.NaNQuantityPostedAsWritten | src/app/shopping-lists/boundary.tsx:491-496 | driving the popup with name "Milk", category "Groceries" and a cleared quantity field posts one request whose quantity is `NaN` |
| ShoppingLists.AddItemGuardsCompared | src/app/shopping-lists/boundary.tsx:491 | for a numeric quantity the two guards agree; the intended guard never accepts `NaN` |
| ShoppingLists.RemoveItemSpec | src/app/shopping-lists/boundary.tsx:516-518 | deleting removes every entry with the id and keeps every other entry, as often as before and in order; an unknown id changes nothing |
| ShoppingLists.EditShoppingList.constructor | src/app/shopping-lists/boundary.tsx:456-460 | the popup starts loading, with no items, empty fields and quantity 0 |
| ShoppingLists.EditShoppingList.ItemsFetched | src/app/shopping-lists/boundary.tsx:468-485 | loading ends; a successful fetch shows every fetched item, those marked deleted included, because the filtered copy is never used; a failed one keeps the list |
| ShoppingLists.EditShoppingList.SetItemName | src/app/shopping-lists/boundary.tsx:541 | typing sets the item name once loaded |
| ShoppingLists.EditShoppingList.SetItemCategory | src/app/shopping-lists/boundary.tsx:549 | typing sets the item category once loaded |
| ShoppingLists.EditShoppingList.SetItemQuantity | src/app/shopping-lists/boundary.tsx:557 | the quantity becomes `parseInt` of the field's text once loaded |
| ShoppingLists.EditShoppingList.AddItem | src/app/shopping-lists/boundary.tsx:488-508 | the guard as written: an empty name or category, or a quantity that is a number at most 0, posts nothing; otherwise one request is posted, with a `NaN` quantity too (a number posted is positive); on success the created item is appended and the fields reset |
| ShoppingLists.EditShoppingList.DeleteItem | src/app/shopping-lists/boundary.tsx:510-523 | the deletion is requested, and when the server answers every entry with that id leaves the list |
| StoresPage.MaxId | src/app/stores/page.tsx:28 | the result is an id of the list that no other id exceeds |
| StoresPage.NextId | src/app/stores/page.tsx:28 | the new id exceeds every id already in the list |
| StoresPage.AddChainSpec | src/app/stores/page.tsx:24-31 | a blank name changes nothing; otherwise exactly one chain is appended, with a fresh id, the trimmed name and no stores; distinct ids stay distinct |
| StoresPage.FirstAddedChainId | src/app/stores/page.tsx:15-19 | the first chain added to the initial list gets id 4 |
| StoresPage.AddStoreSpec | src/app/stores/page.tsx:34-41 | ids, names, order and length are kept; chains with the id gain the trimmed store name at the end; every other chain is unchanged; a blank name or an unknown id changes nothing |
| StoresPage.AddStoreToNewChain | src/app/stores/page.tsx:24-41 | a store added under a new chain's id lands in that chain alone |
| Strings.TrimIdempotent | src/app/stores/page.tsx:35-36 | trimming a trimmed name changes nothing |
| StoresPanels.FilteredChainsSpec | src/app/stores/boundary.tsx:16 | the chains listed are exactly those whose name holds the trimmed query, in order, each as often as in the input, and no others; a blank query lists all |
| StoresPanels.ToggleExpanded | src/app/stores/boundary.tsx:57-59 | clicking a row expands that chain exactly when it was not the expanded one; otherwise nothing is expanded |
| StoresPanels.ToggleTwice | src/app/stores/boundary.tsx:59 | starting collapsed, or with this row expanded, two clicks on the same row return to where it started (from another row expanded, they end collapsed) |
| StoresPanels.ChainsPanel.constructor | src/app/stores/boundary.tsx:11-13 | the panel starts with an empty query and the popup closed |
| StoresPanels.ChainsPanel.TypeQuery | src/app/stores/boundary.tsx:22 | typing sets the chain query |
| StoresPanels.ChainsPanel.OpenAddChain | src/app/stores/boundary.tsx:24 | the popup button opens the add-chain popup |
| StoresPanels.ChainsPanel.TypeNewName | src/app/stores/boundary.tsx:30 | typing sets the new chain name while the popup is open |
| StoresPanels.ChainsPanel.PressAdd | src/app/stores/boundary.tsx:31-40 | when enabled, the trimmed name is handed to `onAddChain`, and the popup closes and clears; every name handed over is non-empty and trimmed |
| StoresPanels.ChainsPanel.PressClose | src/app/stores/boundary.tsx:42 | closing hides the popup and clears the name |
| StoresPanels.PanelNameAddedVerbatim | src/app/stores/boundary.tsx:33-34 | a name the panel hands over is appended as it is, with the next id |
| StoresPanels.GetStoreAddressExtendsStoreText | src/app/stores/boundary.tsx:148-150 | the store panel's address is the receipt popup's store text followed by the country |
| StoresPanels.FilteredStoresSpec | src/app/stores/boundary.tsx:160 | the stores listed are exactly those whose full address holds the trimmed query, in order, each as often as in the input, and no others; a query that would find a store in the receipt popup, or in its country, lists it |
| StoresPanels.FindChain | src/app/stores/boundary.tsx:156 | the result is the first chain with the id, or none exactly when no chain has it |
| StoresPanels.StoresPanelViewSpec | src/app/stores/boundary.tsx:152-160 | the panel renders exactly when an expanded id belongs to some chain; it is titled with the first such chain's name and lists the filtered stores' addresses in order |
| SearchListDemo.DemoItemsSpec | src/app/search-list/page.tsx:18-30 | the mapping keeps order, ids and records; each text starts with the name, and the id read back from it is the chain's id |
| SearchListDemo.DemoContentReadsBack | src/app/search-list/page.tsx:28 | a demo text holds the name, then ": ID ", then digits that parse back to the id |
| SearchListDemo.DemoContentFound | src/app/search-list/page.tsx:28 | a demo text is found both by the chain's name and by its id in decimal |
| SearchListDemo.DemoItemsFound | src/app/search-list/page.tsx:18-30 | searching the demo list by a chain's name, or by its id, keeps that chain's item |
| SearchListDemo.DeleteByIdSpec | src/app/search-list/page.tsx:44-51 | deleting removes every item with the selection's id and keeps all others, as often as before and in order |
| SearchListDemo.DeleteDistinct | src/app/search-list/page.tsx:50 | with distinct ids, deleting the item at a position cuts out exactly that item |
| SearchListDemo.DemoDeleteShortensByOne | src/app/search-list/page.tsx:18-24 | the demo ids are distinct, so one delete shortens the demo list by exactly one |
| Login.LoginError | src/app/login/page.tsx:32-43 | the login error is either cleared or the login message |
| Login.LoginErrorSpec | src/app/login/page.tsx:36-43 | login is refused exactly when the username or the password is all white space |
| Login.RegisterError | src/app/login/page.tsx:133-144 | the registration error is either cleared or the registration message |
| Login.RegisterErrorSpec | src/app/login/page.tsx:137-144 | registration is refused exactly when one of its three fields is all white space |
| Login.ConfirmError | src/app/login/page.tsx:151-159 | the confirmation error is either cleared or the confirmation message |
| Login.ConfirmErrorSpec | src/app/login/page.tsx:155-159 | a code is refused exactly when it is all white space |
| Login.ErrorsIgnorePadding | src/app/login/page.tsx:36-37 | white space typed before or after any field, padded independently per field and per side, never changes a verdict |
| Login.LoginForm.constructor | src/app/login/page.tsx:27-30 | the form starts empty, with the shopper role and no error |
| Login.LoginForm.SetUsername | src/app/login/page.tsx:61 | typing sets the username |
| Login.LoginForm.SetPassword | src/app/login/page.tsx:72 | typing sets the password |
| Login.LoginForm.SetRole | src/app/login/page.tsx:78-96 | the radio buttons set the role |
| Login.LoginForm.HandleLogin | src/app/login/page.tsx:32-48 | afterwards the error is empty exactly when neither trimmed field is empty |
| Login.RegisterForm.constructor | src/app/login/page.tsx:126-131 | the form starts empty, with no code sent |
| Login.RegisterForm.SetUsername | src/app/login/page.tsx:174-176 | typing sets the username until the code is sent, when the field is disabled |
| Login.RegisterForm.SetEmail | src/app/login/page.tsx:186-188 | typing sets the email until the code is sent |
| Login.RegisterForm.SetPassword | src/app/login/page.tsx:198-200 | typing sets the password until the code is sent |
| Login.RegisterForm.SetConfirmationCode | src/app/login/page.tsx:232-238 | the code field exists, and takes input, only after the code is sent |
| Login.RegisterForm.HandleRegister | src/app/login/page.tsx:133-149 | the code is sent exactly when no trimmed field is empty, and the message is shown otherwise |
| Login.RegisterForm.HandleConfirm | src/app/login/page.tsx:151-162 | once the code was sent, the error is the message exactly when the trimmed code is empty |
| Login.LoginPage.constructor | src/app/login/page.tsx:6-23 | the page opens on a fresh login form |
| Login.LoginPage.PressCreateAccount | src/app/login/page.tsx:106-114 | with the shopper role, the page switches to a fresh registration form; otherwise nothing changes |
| Login.LoginPage.PressBackToLogin | src/app/login/page.tsx:214-222 | before the code is sent, the page switches back to a fresh login form |
| AdminReport.AddressToStringAgreesWithStorePanel | src/app/admin/boundary.tsx:102-111 | the report writes a store's address exactly as the store panel does |
| AdminReport.BuildChainRows | src/app/admin/boundary.tsx:146-165 | the loop builds exactly the chain's group of rows, or nothing for a chain without stores |
| AdminReport.ChainGroupSpec | src/app/admin/boundary.tsx:146-165 | a chain with n stores gives n rows in store order, keyed by chain and store id; only the first row holds the name and total cells, each spanning n rows |
| AdminReport.RowKeysDistinct | src/app/admin/boundary.tsx:156 | within a chain, stores with different ids get different row keys |
| AdminReport.RenderedIgnoresFilter | src/app/admin/boundary.tsx:167 | dropping the chains without rows, as the discarded filter would, renders the same table body |
| AdminReport.ReportRowCount | src/app/admin/boundary.tsx:137-166 | the table has exactly one row per store in the report |
| Strings.ParseIntOfIntToString | src/app/receipts/boundary.tsx:282 | `parseInt` reads back every integer written in decimal |
| Strings.SortDistinct | src/app/shopping-lists/boundary.tsx:394 | sorting distinct strings gives a strictly increasing list with the same strings |
| Seqs.Dedup | src/app/shopping-lists/boundary.tsx:386-388 | `new Set` keeps each value once and loses none |

## Left out

- Server calls (axios and the mock adapters) are not modelled. Their outcomes are method parameters, and the requests are recorded as values.
- Loading and error flags are left out, except the item popup's `loading`. This covers the list search's loading and error lines and the sales report's loading line.
- Concurrency is not modelled: responses that settle out of order, and stale fetches after the chain id changes.
- The report's money is kept as opaque text: `Number`, the `reduce` into the chain total, and `toFixed`. The receipt's `totalAmount` is also text. The "$" in front of amounts is not modelled.
- The Geoapify address search and the store panel's `handleAddStore` (its `Date.now()` ids) are not modelled. `fetchStores` is left out; the panel's stores are a parameter.
- Focus handling is left out: the `setTimeout` blur delay, and the `focused` flags of the receipt inputs (the category dropdown's flag is modelled).
- Routing, the header, the dashboard's statistics, and the purchases page are not part of this model.
- The receipt search's `handlePress` is not modelled.
- Strings.LowerChar: lowers ASCII letters only, because Unicode case mapping is out of scope.
- Strings.IsSpace: lists the common white-space characters, not Unicode's whole space-separator category.
- Strings.Below: compares whole characters, not UTF-16 code units.
- Strings.IntToString: does not model the exponent form JavaScript uses for very large numbers.
- Login.LoginForm.HandleLogin: leaves out the `!roleValue` test, which can never hold because a role is always selected.
- StoresPage.AddStore: `storeName?.trim()` on an undefined name is not modelled; names are strings.
- StoresPage.AddStore: the store panel receives `addStore` as `onAddStore` but never calls it (its own `handleAddStore` adds the new store to the panel's local list), so no user action reaches this function; it is modelled as written.
- `console.log` output is left out, and so is the demo page's `handleSelect`, which only logs.
- The demo page passes no `onDelete` (its line 59 is commented out), so its widget is not deletable. `SearchListDemo.DeleteById` models the `handleDelete` the page defines.

## Findings

| source | as written | input that shows it | evidently intended | confidence | as-written member | corrected member |
|---|---|---|---|---|---|---|
| src/app/shopping-lists/boundary.tsx:491 | the add-item guard refuses `itemQuantity <= 0`, where the quantity is `parseInt` of the number field | clear the quantity field (so `parseInt("")` is `NaN`), with name "Milk" and category "Groceries": `NaN <= 0` is false and the item is posted | refuse any quantity that is not a positive number | not executed | ShoppingLists.NaNQuantityPostedAsWritten | ShoppingLists.AddItemGuardsCompared |
| src/app/shopping-lists/boundary.tsx:475-476 | the items without the deleted flag are filtered into `filteredItems`, but the unfiltered `items` are stored | a fetched item with `isDeleted` 1 | show only the items not marked deleted | not executed | ShoppingLists.DeletedItemShownAsWritten | ShoppingLists.VisibleItemsSpec |
