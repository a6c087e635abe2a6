# Second Brain: a verified model of the content-store logic

The application is a single-page "second brain": a list of saved content
items (tweets, articles, videos, audio, bookmarks) that can be filtered by
type, deleted and shared as text. All of its logic sits in one component
(`src/App.tsx`). This project models that logic as Dafny datatypes and
functions and proves what the component promises:

- the data model: the closed set of five content types, the item record
  with its optional `url` and `author`, and the total type-to-label table;
- the six-item seed store;
- the visible list for a selection, which is the whole store under "all"
  and otherwise the items of the selected type;
- deletion by id, which hands the state holder a filtered copy of the
  store;
- the text handed to the platform share or to the clipboard, for one item
  and for the whole store;
- the data-dependent parts of the view: the header title, the
  "N item(s) saved" line and the empty-state choice;
- the application state and the user events that change it.

Files, one module each: `seqs.dfy` (`Seqs`: `filter` and `join` on
sequences, with their laws), `content.dfy` (`Content`: data model, labels,
seed), `store.dfy` (`Store`: visible list and deletion), `share.dfy`
(`Share`: share texts and share actions), `view.dfy` (`View`),
`app.dfy` (`App`: state and events), `wrappers.dfy` (`Option`).

The item field `type` is called `kind`, because `type` is a Dafny keyword.
A filter selection is the datatype `Selection = All | Only(kind)`, standing
for the source's `ContentType | "all"` string union.

Two facts about the code shape the model:

- `Store.Delete` removes every item with the id, not only the first; with
  unique ids, as in the seed store, that is exactly one item
  (`Store.DeleteUnique`).
- Nothing calls the main component's `setSelectedType`: the sidebar keeps
  and updates its own selection, so sidebar clicks move the highlight but
  never change the visible list. See "Findings".

## Model

| member | source | states |
|---|---|---|
| Content.Label | src/App.tsx:43-49 | every one of the five content types has a non-empty label beginning with a capital letter |
| Content.LabelInjective | src/App.tsx:43-49 | no two content types share a label |
| Content.MockContentIds | src/App.tsx:51-115 | the seed store's ids are "1" to "6", in that order |
| Content.MockContentDistinct | src/App.tsx:51-115 | the seed store's ids are pairwise distinct |
| Content.MockContentKinds | src/App.tsx:51-115 | the seed store has six items whose types are article, tweet, video, audio, bookmark, article; every type occurs |
| Seqs.Filter | src/App.tsx:223 | `filter` returns at most as many elements, each one from the input and satisfying the predicate, and every input element satisfying it is returned |
| Seqs.FilterIsSubsequence | src/App.tsx:223 | `filter` keeps the survivors in their original relative order |
| Seqs.FilterMultiplicity | src/App.tsx:223 | `filter` keeps each satisfying element exactly as often as it occurs and drops every other |
| Seqs.FilterKeepsAll | src/App.tsx:226 | when every element satisfies the predicate, `filter` returns the input unchanged |
| Seqs.FilterIdempotent | src/App.tsx:223 | filtering twice by one predicate equals filtering once |
| Seqs.FilterCommutes | src/App.tsx:223 | two filters can be applied in either order |
| Seqs.FilterAppend | src/App.tsx:223 | filtering distributes over concatenation |
| Seqs.FilterPartition | src/App.tsx:226 | a predicate and its negation split the input: the two results' lengths add up to the input's |
| Store.DeleteSplit | src/App.tsx:226 | the items a delete keeps and the items carrying the id together account for the whole store |
| Seqs.Join | src/App.tsx:246 | `join` of no parts is the empty string, and a joined text is never shorter than its parts together |
| Seqs.JoinLength | src/App.tsx:246 | n >= 1 joined parts are as long as the parts' total plus n - 1 separators |
| Seqs.JoinLayout | src/App.tsx:246 | the joined text is tiled exactly by part 0, separator, part 1, ..., separator, part n-1, with the last part ending the text |
| Seqs.JoinSnoc | src/App.tsx:246 | appending a part to a non-empty list appends one separator and that part |
| Store.Visible | src/App.tsx:223 | under "all" the visible list is the store itself; otherwise every visible item is a stored item of the selected type and every stored item of that type is visible |
| Store.VisibleExact | src/App.tsx:223 | the visible list is an order-preserving subsequence of the store holding each selected item exactly as often as the store does, and nothing else |
| Store.VisibleIdempotent | src/App.tsx:223 | applying the same selection to the visible list changes nothing |
| Store.Delete | src/App.tsx:226 | after deleting an id no item carries it, and every item with another id is kept |
| Store.DeleteExact | src/App.tsx:226 | deletion shortens the store by the number of items with that id, keeps the survivors in order, and drops only items with that id |
| Store.DeleteAbsent | src/App.tsx:226 | deleting an id no item carries leaves the store identical |
| Store.DeleteIdempotent | src/App.tsx:226 | deleting the same id twice equals deleting it once |
| Store.DeleteUnique | src/App.tsx:226 | in a store with unique ids, deleting item i's id removes exactly item i: the store shrinks by one and the rest keep their order |
| Store.DeleteKeepsDistinct | src/App.tsx:226 | deletion keeps ids unique |
| Store.VisibleAfterDelete | src/App.tsx:223-226 | filtering after a delete equals deleting from the visible list |
| Store.SeedArticles | src/App.tsx:223 | selecting "article" on the seed store shows exactly ids "1" and "6", in that order |
| Store.SeedDeleteThree | src/App.tsx:226 | deleting id "3" from the seed store leaves seed items 1, 2, 4, 5, 6, in order |
| Share.ItemTextLayout | src/App.tsx:238 | the single-item text is title, blank line, content, blank line, then the url if present and nothing otherwise; without a url it ends in the blank line |
| Share.Block | src/App.tsx:245 | an item's block starts with its type's label and ": ", and ends with a newline |
| Share.Blocks | src/App.tsx:245 | one block per stored item |
| Share.BlocksAt | src/App.tsx:245 | block i is the block of item i, so blocks keep store order |
| Share.BrainTextEmpty | src/App.tsx:244-246 | the whole-store text is empty exactly when the store is empty |
| Share.BrainTextLayout | src/App.tsx:244-246 | in the whole-store text block i sits at its offset and is followed by exactly one "\n---\n\n" and then block i+1, or ends the text if it is the last |
| Share.BrainTextLength | src/App.tsx:244-246 | a store of n >= 1 items gives the blocks' total length plus n - 1 separators |
| Share.BrainTextSingle | src/App.tsx:244-246 | a one-item store is shared as that item's block, with no separator |
| Share.BrainTextSnoc | src/App.tsx:244-246 | adding an item to a non-empty store adds one separator and the item's block |
| Share.HandleShare | src/App.tsx:229-241 | native share exactly when available, carrying title, content and the item's url or else the page address; otherwise the single-item text goes to the clipboard |
| Share.HandleShareBrain | src/App.tsx:243-257 | native share exactly when available; both routes carry the whole-store text |
| View.Decimal | src/App.tsx:296 | a count renders as decimal digits with no leading zero |
| View.DecimalRoundTrip | src/App.tsx:296 | reading the rendered digits back gives the count |
| View.CountLabelSpec | src/App.tsx:296 | the count line starts with the visible count and says "item" exactly when one item is visible, "items" otherwise |
| View.EmptyStateExactly | src/App.tsx:300 | the empty-state panel is shown exactly when no stored item is selected; under "all", exactly when the store is empty |
| View.HeaderTitle | src/App.tsx:293 | the heading is "All Content" exactly under "all", otherwise the selected type's label |
| App.Init | src/App.tsx:220-221 | start-up state: the six-item seed store with unique ids, "all" in both selections |
| App.Step | src/App.tsx:118-262 | a delete replaces the store by its filtered copy and nothing else changes the store; a sidebar click sets only the sidebar's highlight and no other event changes it; no event changes the main selection |
| App.SelectionNeverChanges | src/App.tsx:221 | no event sequence changes the main selection, so from "all" the visible list is always the whole store |
| App.RunKeepsDistinctIds | src/App.tsx:226 | no event sequence breaks unique ids |
| App.SidebarClickLeavesFilter | src/App.tsx:118-140 | clicking "Articles" highlights it but the view still shows all six items, not the two articles |
| App.StepShared | src/App.tsx:140 | with one shared selection, a sidebar click sets both the highlight and the filter; other events act as before |
| App.RunSharedInSync | src/App.tsx:221-223 | with a shared selection, highlight and filter stay in sync, so the shown cards are the store filtered by the highlighted entry |
| App.SidebarClickFiltersShared | src/App.tsx:223 | with a shared selection, clicking "Articles" on start-up shows ids "1" and "6" |

## Left out

- Rendering: JSX, the icon table `contentTypeIcons`, UI library components, CSS classes, line clamping of the content, the author line, the "View Source" link and the tag badges. Only the text that depends on data is modelled.
- The side effects of sharing: `navigator.share` and `navigator.clipboard.writeText` are asynchronous platform calls whose outcome the code ignores. The model returns the action with the exact text it would hand over, together with the message the synchronous `alert` shows on the clipboard route (`notice`); whether the platform supports sharing and the page's own address are parameters.
- Date formatting: `toLocaleDateString` depends on locale; `dateAdded` is kept as the stored string.
- The React hook mechanics: each state update is modelled as replacing a value in `AppState`.
- `handleAddContent` only raises an alert; it appears as the `AddContent` event, which changes no state.
- `src/components/hooks/use-mobile.tsx` (a viewport-width listener) and `tailwind.config.js` (styling configuration) have no logic to model.
- String lengths in the lemmas (`Share.ItemTextLayout`, `Share.BrainTextLength`, `Seqs.JoinLength`) count characters (Unicode scalar values), not JavaScript's UTF-16 code units; seed item 2's emoji counts once here and twice in JavaScript. The code never reads a string's length, so no behaviour depends on it.
- The sidebar's plural entry labels ("All Content", "Tweets", ...) are rendering only; the model keeps the sidebar's selection, not its labels.

## Findings

| source | as written | input that shows it | evidently intended | confidence | as-written member | corrected member |
|---|---|---|---|---|---|---|
| src/App.tsx:118-140 | the sidebar keeps its own `selectedType` state; the main component's `setSelectedType` (line 221) is never called, so clicking a sidebar entry only moves the highlight | on start-up, click "Articles": the sidebar highlights Articles, the view still lists all six items | one selection shared by the sidebar and the main view, so the view lists the two articles | not executed; high (nothing in the file calls the main setter) | App.SidebarClickLeavesFilter | App.RunSharedInSync |
