# Mosaic design system, modelled in Dafny

Mosaic is a design system for WordPress admin pages. Its PHP side is a set of
fluent builders (`Mosaic_Tabs`, `Mosaic_Table`, `Mosaic_Data_Table`,
`Mosaic_Form`, `Mosaic_Card`, `Mosaic_Accordion`) and the static helpers of the
`Mosaic` class. Each builder collects ordered or keyed state and then prints it
as an HTML string. Its JavaScript side is a set of small controllers on the
`Mosaic` namespace: the tag editor, category filter and text search, tabs,
dropdown menus, toasts, dialogs, themes, and the utilities of `mosaic.js`.

The project has one module per source file and three shared modules:

- `Strings` holds the JavaScript string operations the scripts use: trim,
  toLowerCase, split, join, integer toString and parseInt.
- `Php` holds PHP values, truthiness, ordered string-keyed arrays,
  `array_merge` and `wp_parse_args`.
- `Html` holds a markup tree. `Serialize` prints a tree as exactly the text the
  builders' `sprintf` templates produce.

WordPress's escaping and form-state functions (`esc_html`, `esc_attr`,
`esc_url`, `esc_textarea`, `wp_kses_post`, `checked`, `selected`,
`wp_nonce_field`) are uninterpreted. They stay symbolic pieces of the tree and
become text through a record of functions passed as a parameter. Every property
proved about the markup therefore holds whatever those functions do.

Each builder is a `class` whose methods update the same fields as the PHP
setters. Each render method is a loop that builds the string piece by piece,
and it is proved equal to the serialisation of a markup tree. The properties
(one cell per column, attribute omission, active-tab defaulting, `{id}`
substitution and so on) are lemmas about that tree.

Each JavaScript controller is a `class` too. Its fields hold the script's state
(tags, highlighted index, current tab, the open flags, the toast container).
A pure datatype and transition functions state what each event does, and each
method is proved to follow them. The DOM is a plain record. Callbacks are
recorded as a list of the calls made. The tag editor's callbacks whose
results matter (`validate`, `onBeforeAdd`, `filterSuggestions`) are
function-valued options.

## Model

| member | source | states |
|---|---|---|
| TagEditor.InitialConsistent | assets/js/modules/tags.js:68-71 | The initial state (tags copied from the options, no highlight, empty filtered list) satisfies the editor's state invariant. |
| TagEditor.CheckIsFirstFailure | assets/js/modules/tags.js:172-221 | addTag's validation reports the first failing condition in source order (blank, read-only, too long, at maxTags, duplicate, not among suggestions, validate, onBeforeAdd) and accepts exactly when none fails. |
| TagEditor.AddGuarantees | assets/js/modules/tags.js:172-232 | A rejected add changes nothing; an accepted add appends the normalised value verbatim, needs it non-blank and the editor editable, introduces no duplicate when duplicates are disallowed, never exceeds maxTags or maxLength, and keeps to the suggestion list when free text is off. |
| TagEditor.RemoveFirstOccurrence | assets/js/modules/tags.js:234-238 | removeTag's indexOf/splice takes out the first occurrence of the tag and only it (one fewer of that value, the others in order); an absent tag leaves the list unchanged. |
| TagEditor.RemoveLastAsWrittenDropsEarlierDuplicate | assets/js/modules/tags.js:248-252 | With tags ["a","b","a"], Backspace as written removes the first "a", giving ["b","a"]. |
| TagEditor.RemoveLastDropsLast | assets/js/modules/tags.js:248-252 | The corrected Backspace removes exactly the last tag, and agrees with the script whenever the tags are distinct. |
| TagEditor.DefaultFilterSpec | assets/js/modules/tags.js:257-269 | The default filter keeps exactly the suggestions that match the lower-cased query (or all with showAll or an empty query) and are not current tags (unless duplicates are allowed), in their original order. |
| TagEditor.DefaultFilterShowsAll | assets/js/modules/tags.js:265-267 | An empty query or showAll keeps every suggestion that is not already a tag. |
| TagEditor.AddConsistent | assets/js/modules/tags.js:172-232 | addTag preserves the state invariant. |
| TagEditor.AddAllConsistent | assets/js/modules/tags.js:386-392 | Adding a list of values one after the other preserves the state invariant. |
| TagEditor.StepConsistent | assets/js/modules/tags.js:254-419 | Every event (keys, input, paste, focus, hover, clicks, API calls) keeps the invariant: the highlight is -1 or an index of the rendered items, an open dropdown shows exactly the non-empty filtered list, and a read-only editor has no dropdown. |
| TagEditor.ShowConsistent | assets/js/modules/tags.js:254-299 | showSuggestions preserves the invariant and resets the highlight. |
| TagEditor.KeyDownConsistent | assets/js/modules/tags.js:348-378 | The keydown handler preserves the invariant, Backspace included, which removes the first tag equal to the last one as the script does. |
| TagEditor.InputConsistent | assets/js/modules/tags.js:380-403 | The input handler preserves the invariant. |
| TagEditor.KeyboardHighlight | assets/js/modules/tags.js:351-377 | While the list is open, ArrowDown moves the highlight to min(h+1, n-1) and ArrowUp to max(h-1, 0): clamped at both ends, with no wraparound. |
| TagEditor.HiddenFieldEncodesTags | assets/js/modules/tags.js:109-111 | Splitting the hidden field's value at commas gives the tags back when there is at least one tag and no tag contains a comma. |
| TagEditor.Editor.constructor | assets/js/modules/tags.js:37-71 | The editor starts from the configured tags, and its hidden field is named by data-name or 'tags'. |
| TagEditor.Editor.Render | assets/js/modules/tags.js:146-170 | Rendering shows one pill per tag, sets the max-reached class when editable, and writes the hidden field; the logical state is unchanged. |
| TagEditor.Editor.AddTag | assets/js/modules/tags.js:172-232 | The result and the new state are those of the addTag specification. |
| TagEditor.Editor.Passes | assets/js/modules/tags.js:176-221 | The checks run in source order and let the tag through exactly when the validation chain accepts it. |
| TagEditor.Editor.Commit | assets/js/modules/tags.js:223-231 | An accepted tag is pushed, rendered, the input cleared and the dropdown closed. |
| TagEditor.Editor.RemoveTag | assets/js/modules/tags.js:234-246 | The result and the new state are those of the removeTag specification, including the TypeError in read-only mode after the tag is removed. |
| TagEditor.Editor.RemoveLastTag | assets/js/modules/tags.js:248-252 | Backspace on an empty input calls removeTag with the last tag's value, so the first tag equal to it goes; the state is RemoveLastAsWritten's. |
| TagEditor.Editor.ShowSuggestions | assets/js/modules/tags.js:254-299 | The new state is the showSuggestions specification: open with the filtered list, or closed when it is empty. |
| TagEditor.Editor.CloseSuggestions | assets/js/modules/tags.js:305-311 | The dropdown closes, the highlight is -1 and the filtered list empty; pills and hidden field are unchanged. |
| TagEditor.Editor.SetHighlighted | assets/js/modules/tags.js:313-323 | Only an index of a rendered item becomes the highlight. |
| TagEditor.Editor.SelectHighlightedItem | assets/js/modules/tags.js:325-331 | With a valid highlight the highlighted suggestion is added and true returned; otherwise false and no change. |
| TagEditor.Editor.OnKeyDown | assets/js/modules/tags.js:348-378 | The new state is the keydown specification: a read-only editor ignores keys; a confirm key adds the highlighted suggestion or the typed text; Backspace on an empty box removes the first tag equal to the last one; Escape closes; ArrowDown moves the highlight or opens the list; ArrowUp moves it back. |
| TagEditor.Editor.AddEach | assets/js/modules/tags.js:386-392 | Adds every value in order, as addTag would one at a time. |
| TagEditor.Editor.OnInput | assets/js/modules/tags.js:380-403 | The new state is the input specification: comma-separated text adds all segments but the last, which stays in the input. |
| TagEditor.Editor.AddSegments | assets/js/modules/tags.js:384-394 | Each segment before the last comma is added in turn; the last one becomes the text box's value. |
| TagEditor.Editor.OnPaste | assets/js/modules/tags.js:412-419 | Pasted text with a comma adds every segment; other text is left to the input handler. |
| TagEditor.Editor.OnFocus | assets/js/modules/tags.js:341-346 | With showAllOnFocus and suggestions, focus opens every suggestion. |
| TagEditor.Editor.RemoveAll | assets/js/modules/tags.js:448-452 | The tag list becomes empty without validation. |
| TagEditor.Editor.GetTags | assets/js/modules/tags.js:458-460 | Returns the current tags. |
| TagEditor.Editor.SetTagList | assets/js/modules/tags.js:466-470 | The tag list is replaced as given, without validation. |
| TagEditor.Editor.HasTag | assets/js/modules/tags.js:477-479 | True exactly when the tag is present (case-sensitive). |
| TagEditor.Editor.SetSuggestions | assets/js/modules/tags.js:485-487 | Only the suggestion list changes. |
| TagEditor.Editor.Disable | assets/js/modules/tags.js:499-502 | Only the disabled flag becomes true. |
| TagEditor.Editor.Enable | assets/js/modules/tags.js:507-510 | Only the disabled flag becomes false. |
| TagEditor.Editor.SetVariant | assets/js/modules/tags.js:516-519 | Only the variant changes, and the pills are re-rendered with it. |
| TagEditor.Editor.IsReadOnly | assets/js/modules/tags.js:525-527 | Returns the readOnly option. |
| TagEditor.Editor.GetSuggestions | assets/js/modules/tags.js:540-542 | Returns the current suggestion list. |
| TagEditor.NonEmpty | assets/js/modules/tags.js:575 | filter(Boolean) keeps exactly the non-empty pieces, in order. |
| TagEditor.DatasetTags | assets/js/modules/tags.js:574-576 | Every initial tag read from data-tags is non-empty and trimmed. |
| TagEditor.DatasetSuggestions | assets/js/modules/tags.js:577-579 | data-suggestions yields one suggestion per comma-separated piece: empty pieces are kept. |
| TagEditor.DatasetLimits | assets/js/modules/tags.js:583-588 | A limit written as an integer is read back exactly by parseInt; text without leading digits leaves the limit unbounded. |
| TagEditor.DatasetFlags | assets/js/modules/tags.js:592-603 | The flags change only on the exact text 'true' (or 'false' for allowFreeText). |
| TagEditor.Page.InitTagEditors | assets/js/modules/tags.js:568-608 | Every [data-mosaic-tags] container without an editor gets one configured from its data attributes; containers that have one are left alone. |
| TagEditor.DefaultsPermissive | assets/js/modules/tags.js:45-66 | The default options are permissive: editable, trimming, no duplicates, no length or count limit, free text, no validate or onBeforeAdd hook. |
| TagEditor.PermissiveAddsFresh | assets/js/modules/tags.js:172-232 | Under permissive options any value whose trimmed text is non-empty and not yet a tag is accepted, and the trimmed text is appended. |
| TagEditor.PermissiveAddsAllFresh | assets/js/modules/tags.js:172-232 | Under permissive options values whose trimmed texts are non-empty, distinct and not yet tags are all added, trimmed, in order. |
| TagEditor.PasteAddsAllSegments | assets/js/modules/tags.js:412-419 | Under permissive options, pasted text with a comma whose segments trim to distinct non-empty texts not yet tags adds every segment, trimmed and in order, the last one included (so "foo, bar" adds foo and bar). |
| TagEditor.TypingAddsAllButLast | assets/js/modules/tags.js:384-394 | Under permissive options, typed text with a comma adds every segment but the last, trimmed and in order, when those trim to distinct non-empty texts not yet tags; the last segment stays in the input as typed. |
| TagEditor.PasteScenario | assets/js/modules/tags.js:412-419 | Pasting "x,y,z" into an empty editor with the defaults adds the three tags x, y and z. |
| TagEditor.TypingScenario | assets/js/modules/tags.js:384-394 | Typing "x,y,z" into an empty editor with the defaults adds x and y and leaves "z" in the input. |
| Filters.CountShown | assets/js/modules/filters.js:63-78 | The visible count never exceeds the number of items. |
| Filters.SelectPartition | assets/js/modules/filters.js:111-117 | getVisibleItems and getHiddenItems together hold every item exactly once. |
| Filters.SelectCountShown | assets/js/modules/filters.js:65-78 | After a filter pass, getVisibleItems returns as many items as the pass counted. |
| Filters.CountShownAll | assets/js/modules/filters.js:67 | Filter value 'all' shows every item. |
| Filters.FindAll | assets/js/modules/filters.js:108 | Array.find for the 'all' button: the first button whose data-filter is exactly 'all', and none exactly when no button has it. |
| Filters.MosaicFilter.constructor | assets/js/modules/filters.js:16-59 | An initialised filter starts with currentFilter 'all' and no reports. |
| Filters.MosaicFilter.Filter | assets/js/modules/filters.js:61-95 | Each item is hidden exactly when it does not match the value ('all' or one of its trimmed tokens); the count returned and reported is the number of matching items; the buttons are untouched. |
| Filters.MosaicFilter.UpdateButtons | assets/js/modules/filters.js:97-104 | Exactly the given button carries the active class afterwards (none when no button is given); nothing else changes. |
| Filters.MosaicFilter.ClickButton | assets/js/modules/filters.js:52-57 | A click filters by the button's data-filter (or 'all' when empty) and makes exactly that button active. |
| Filters.MosaicFilter.Reset | assets/js/modules/filters.js:106-109 | reset shows every item and makes exactly the first 'all' button active (none without one). |
| Filters.MosaicFilter.GetVisibleItems | assets/js/modules/filters.js:111-113 | Returns the items without the hidden class, in page order. |
| Filters.MosaicFilter.GetHiddenItems | assets/js/modules/filters.js:115-117 | Returns the items with the hidden class, in page order. |
| Filters.FilterPartition | assets/js/modules/filters.js:61-117 | After filter(v), the visible items are as many as filter returned, the hidden ones are the rest, and together they are exactly the items. |
| Filters.CountMatches | assets/js/modules/filters.js:183-212 | The search count never exceeds the number of items. |
| Filters.CountMatchesAll | assets/js/modules/filters.js:185-193 | When every item matches, the count is the number of items. |
| Filters.MosaicSearch.constructor | assets/js/modules/filters.js:124-179 | An initialised search starts with an empty input and no reports. |
| Filters.MosaicSearch.Search | assets/js/modules/filters.js:181-229 | Each item is hidden exactly when the lower-cased, trimmed term reaches minChars and the item's search text does not contain it; the count returned and reported is the number of visible items. |
| Filters.MosaicSearch.OnInputElapsed | assets/js/modules/filters.js:166-171 | Once the debounce delay has passed, the input's current value is searched: an item is hidden exactly when it does not match, and the onSearch report (term, count, total) is appended. |
| Filters.MosaicSearch.Clear | assets/js/modules/filters.js:261-264 | clear empties the input and shows every item. |
| Filters.MosaicSearch.GetValue | assets/js/modules/filters.js:266-268 | Returns the input's value. |
| Filters.ClearShowsAll | assets/js/modules/filters.js:185-197 | Searching for '' shows every item whatever minChars is. |
| Filters.ShortTermShowsAll | assets/js/modules/filters.js:185-193 | A term shorter than minChars shows every item. |
| Filters.ShowsTokens | assets/js/modules/filters.js:66-67 | A value matches an item exactly when it is 'all' or equals one of its trimmed tokens; with no comma in data-filter, exactly when it equals the trimmed attribute. |
| TabsScript.FindTab | assets/js/modules/tabs.js:81 | Array.find over the tabs: a tab with this id, and none exactly when no tab has it. |
| TabsScript.FirstMarked | assets/js/modules/tabs.js:84 | The first tab carrying the active class, and none exactly when no tab carries it. |
| TabsScript.InitialTabPrecedence | assets/js/modules/tabs.js:78-90 | The initial tab is the one named by the hash (with hash navigation), else the first marked active, else the first tab; none only when there are no tabs. |
| TabsScript.PrefixGrows | assets/js/modules/tabs.js:255-256 | The running width grows by at least the 4-pixel gap per tab. |
| TabsScript.OverflowIsSuffix | assets/js/modules/tabs.js:255-261 | Once a tab overflows, every later tab overflows too: the menu holds a suffix of the strip. |
| TabsScript.OverflowWhenTooWide | assets/js/modules/tabs.js:244-261 | Nothing overflows when the strip fits; the menu is non-empty exactly when there are tabs and the strip does not fit. |
| TabsScript.OverflowIndices | assets/js/modules/tabs.js:252-261 | The overflowing indices among the first k tabs are all below k. |
| TabsScript.OverflowIndicesSpec | assets/js/modules/tabs.js:252-261 | overflowTabs holds exactly the tabs whose running width passes wrapperWidth - 100. |
| TabsScript.NoOverflowIndices | assets/js/modules/tabs.js:244-247 | When the strip fits, no tab is listed. |
| TabsScript.ItemsFor | assets/js/modules/tabs.js:267-280 | One menu item per overflowing tab, carrying its id and copying its active class. |
| TabsScript.MarkTabs | assets/js/modules/tabs.js:106-112 | After activate(id) exactly the tabs with that id carry the active class. |
| TabsScript.MarkContents | assets/js/modules/tabs.js:115-121 | Exactly the panels whose data-tab is the id carry the active class; a panel without data-tab never does. |
| TabsScript.MarkItems | assets/js/modules/tabs.js:129-138 | The overflow items are kept, each active exactly when it names the id. |
| TabsScript.TotalWidth | assets/js/modules/tabs.js:238-241 | The first pass sums the tab widths and gaps. |
| TabsScript.SplitOverflow | assets/js/modules/tabs.js:250-261 | On a strip that does not fit, the second pass lists exactly the overflowing tabs, in order, and hides exactly those. |
| TabsScript.BuildItems | assets/js/modules/tabs.js:264-281 | The menu items are built one per listed tab, in order. |
| TabsScript.ItemsForSynced | assets/js/modules/tabs.js:272-274 | Items copied from tabs active for id are themselves active exactly for id. |
| TabsScript.MosaicTabs.constructor | assets/js/modules/tabs.js:16-97 | The instance activates the initial tab (reporting one change) and then hides exactly the overflowing tabs. |
| TabsScript.MosaicTabs.Activate | assets/js/modules/tabs.js:99-154 | Activating the current tab changes nothing; otherwise exactly the tabs, panels and menu items of the id become active, the select and hash follow when present, and one change (current, previous) is reported; visibility and menu state are kept. |
| TabsScript.MosaicTabs.MarkActive | assets/js/modules/tabs.js:106-138 | Exactly the tabs, panels and overflow menu items of the id carry the active class afterwards; every other field is kept. |
| TabsScript.MosaicTabs.OnHashChange | assets/js/modules/tabs.js:156-166 | A hash naming an existing tab has activate's whole effect (marks, select, hash, change report); any other hash leaves every field as it was. |
| TabsScript.MosaicTabs.CheckOverflow | assets/js/modules/tabs.js:223-282 | Exactly the overflowing tabs are hidden and listed as items that copy their active class; the More button shows exactly when the list is non-empty; the active tab is untouched. |
| TabsScript.MosaicTabs.ClickOverflowItem | assets/js/modules/tabs.js:275-278 | A menu item click has activate's whole effect for its tab, then the menu is closed; tab visibility and the More button are kept. |
| TabsScript.MosaicTabs.ToggleMenu | assets/js/modules/tabs.js:200-211 | The More button flips this menu open or closed; the current tab, every mark, the select, the hash, the change reports and tab visibility are kept. |
| TabsScript.MosaicTabs.ClickOutside | assets/js/modules/tabs.js:214-218 | A click outside closes the menu; the current tab, every mark, the select, the hash, the change reports and tab visibility are kept. |
| TabsScript.MosaicTabs.ClickTab | assets/js/modules/tabs.js:55-60 | A tab click (or choosing it in the mobile select) has activate's whole effect for that tab, so exactly its tab, panels and menu items end up active. |
| TabsBuilder.EffectiveActive | includes/class-mosaic-tabs.php:120-122 | An active tab that PHP's empty() rejects ('' or '0') is replaced by the first key; any other active tab is kept. |
| TabsBuilder.ContainerAttrsAssigned | includes/class-mosaic-tabs.php:134-145 | The container attributes are the class and data-mosaic-tabs, then data-mosaic-tabs-hash and id assigned in turn when their options are truthy. |
| TabsBuilder.RenderDefaultsActive | includes/class-mosaic-tabs.php:114-122 | No tabs print ''; otherwise an empty active tab prints as if the first key were active. |
| TabsBuilder.RenderAgainSame | includes/class-mosaic-tabs.php:120-122 | Storing the active key render chose does not change what the next render prints. |
| TabsBuilder.MarkedIffActive | includes/class-mosaic-tabs.php:175-180 | A tab's button, panel and select option are each marked active exactly when its key is the active key (strict ===). |
| TabsBuilder.ButtonMarkedIffActive | includes/class-mosaic-tabs.php:175-180 | A button carries mosaic-tab-active exactly when its key is the active key. |
| TabsBuilder.PanelMarkedIffActive | includes/class-mosaic-tabs.php:256-261 | A panel carries mosaic-tab-content-active exactly when its key is the active key. |
| TabsBuilder.ExactlyActiveTabMarked | includes/class-mosaic-tabs.php:174-272 | In the navigation, the panels and the select, exactly one tab is marked when the active key names a tab, and none otherwise. |
| TabsBuilder.CountBadgeIffCount | includes/class-mosaic-tabs.php:201-206 | The count badge is printed exactly when the count is not null, so a count of 0 still shows. |
| TabsBuilder.HashAttrIffHashNavigation | includes/class-mosaic-tabs.php:139-141 | data-mosaic-tabs-hash is present, as 'true', exactly when hash_navigation is truthy. |
| TabsBuilder.Tabs.constructor | includes/class-mosaic-tabs.php:46-55 | Caller options override the defaults; there are no tabs and no active tab. |
| TabsBuilder.Tabs.AddTab | includes/class-mosaic-tabs.php:66-80 | The tab's settings are stored under its key (a new key goes last, an existing key keeps its place, other keys are untouched); a truthy 'active' option makes it the active tab. |
| TabsBuilder.Tabs.SetActive | includes/class-mosaic-tabs.php:88-92 | Only the active tab changes. |
| TabsBuilder.Tabs.SetContent | includes/class-mosaic-tabs.php:101-107 | An existing tab gets the new content and keeps its place; an unknown key changes nothing. |
| TabsBuilder.Tabs.RenderEach | includes/class-mosaic-tabs.php:174-209 | The shared foreach prints one node per tab, in insertion order. |
| TabsBuilder.Tabs.RenderNavigation | includes/class-mosaic-tabs.php:170-221 | Prints the wrapper, one button per tab, and the overflow box when overflow_menu is truthy. |
| TabsBuilder.Tabs.RenderMobileSelect | includes/class-mosaic-tabs.php:228-245 | Prints the select with one option per tab. |
| TabsBuilder.Tabs.RenderContent | includes/class-mosaic-tabs.php:252-272 | Prints one panel per tab, each with its content as given. |
| TabsBuilder.Tabs.RenderContainer | includes/class-mosaic-tabs.php:147-162 | Prints the container with the mobile select (when enabled), the navigation and the panels, in that order. |
| TabsBuilder.Tabs.Render | includes/class-mosaic-tabs.php:114-163 | No tabs: '' and no change. Otherwise an empty active tab becomes the first key and is kept, and the output is the container for that active tab. |
| TabsBuilder.Tabs.RenderNavOnly | includes/class-mosaic-tabs.php:279-285 | Defaults the active tab as render does, then prints only the navigation. |
| TableBuilder.TableAttrsAssigned | includes/class-mosaic-table.php:221-227 | The table attributes are the class entry, with id assigned after it when the id option is truthy. |
| TableBuilder.DefaultTableClasses | includes/class-mosaic-table.php:190-218 | With no options the table is striped, hovers and has a sticky header: exactly those classes, in that order. |
| TableBuilder.DefaultFlags | includes/class-mosaic-table.php:60-71 | The defaults turn striped, hover and sticky_header on and responsive, compact, bordered and the custom class off. |
| TableBuilder.FlagClasses | includes/class-mosaic-table.php:190-218 | Those flag values give exactly the three default classes after mosaic-table. |
| TableBuilder.CustomClassLast | includes/class-mosaic-table.php:190-218 | mosaic-table comes first and the custom class last, after every flag class. |
| TableBuilder.ColumnsAddedGet | includes/class-mosaic-table.php:99-110 | Every entry set_columns is given ends up under its key, with the label rule applied. |
| TableBuilder.ColumnLabel | includes/class-mosaic-table.php:81-107 | A string column is labelled by its string with the default align and sortable; an array column by its 'label' when present (null included) and otherwise by its key. |
| TableBuilder.OneCellPerColumn | includes/class-mosaic-table.php:348-365 | Each row prints exactly one td per column, in column order, with the column's data-label and the raw cell value; a key the row does not set prints ''. |
| TableBuilder.OneHeaderCellPerColumn | includes/class-mosaic-table.php:255-290 | The header has one th per column, naming the column's key, in column order. |
| TableBuilder.HeaderClassRules | includes/class-mosaic-table.php:259-271 | A column has an alignment class exactly when align is not 'left' (then mosaic-text-ALIGN), and the sortable class exactly when sortable is truthy. |
| TableBuilder.EmptyStateRowIff | includes/class-mosaic-table.php:297-317 | The body shows the empty-state row exactly when there are no rows and an empty state was set, spanning count(columns) columns; otherwise every row, in insertion order. |
| TableBuilder.FooterIff | includes/class-mosaic-table.php:232-245 | The table holds thead, tbody and, exactly when the footer is truthy, a tfoot whose single cell spans all columns and prints the footer as given. |
| TableBuilder.RowStatusClass | includes/class-mosaic-table.php:329-337 | The mosaic-row-STATUS class comes from the 'status' option alone, first in the row's classes. |
| TableBuilder.UnreadRowOption | includes/class-mosaic-table.php:325-346 | An option render_row does not read leaves the row's markup unchanged. |
| TableBuilder.Table.constructor | includes/class-mosaic-table.php:60-71 | Caller options override the defaults; no columns, rows, footer or empty state. |
| TableBuilder.Table.AddColumn | includes/class-mosaic-table.php:81-91 | The column is stored under its key: a new key goes last, an existing key is redefined in place; nothing else changes. |
| TableBuilder.Table.SetColumns | includes/class-mosaic-table.php:99-110 | Each entry is added as a column, in order. |
| TableBuilder.Table.AddRow | includes/class-mosaic-table.php:119-131 | The row is appended with its options after the defaults; nothing else changes. |
| TableBuilder.Table.SetRows | includes/class-mosaic-table.php:139-149 | Each entry is appended as a row, in order: an entry with 'data' supplies data and options, any other entry is the data. |
| TableBuilder.Table.SetFooter | includes/class-mosaic-table.php:157-161 | Only the footer changes. |
| TableBuilder.Table.SetEmptyState | includes/class-mosaic-table.php:172-181 | Only the empty state changes, to the four given parts. |
| TableBuilder.Table.RenderHeader | includes/class-mosaic-table.php:255-290 | Prints the header row, one cell per column. |
| TableBuilder.Table.RenderRowWith | includes/class-mosaic-table.php:346-369 | Prints a row's start tag, one cell per column, and its end tag. |
| TableBuilder.Table.RenderRow | includes/class-mosaic-table.php:325-370 | Prints the row with its computed attributes. |
| TableBuilder.Table.RenderEmptyState | includes/class-mosaic-table.php:392-423 | Prints the empty-state block with each non-empty part. |
| TableBuilder.Table.RenderRows | includes/class-mosaic-table.php:309-311 | Prints every row, in order. |
| TableBuilder.Table.RenderBody | includes/class-mosaic-table.php:297-317 | Prints tbody with the empty-state row or the rows. |
| TableBuilder.Table.RenderFooter | includes/class-mosaic-table.php:377-385 | Prints the footer row spanning all columns. |
| TableBuilder.Table.RenderTableWith | includes/class-mosaic-table.php:232-247 | Prints the table around header, body and, when set, footer. |
| TableBuilder.Table.Render | includes/class-mosaic-table.php:188-248 | Prints the whole table. |
| DataTableBuilder.ActionsCellRule | includes/class-mosaic-data-table.php:133-140 | add_row adds the actions cell exactly when an action is enabled and the row does not set 'actions'; every other cell is kept, and with no action the data is unchanged. |
| DataTableBuilder.PatternIdReplaced | includes/class-mosaic-data-table.php:189-196 | Every {id} in a URL pattern is replaced by the row's id, which is '' when the row has no value under the id key. |
| DataTableBuilder.PatternWithoutPlaceholder | includes/class-mosaic-data-table.php:195 | A pattern without {id} is used as it is. |
| DataTableBuilder.EditButtonHref | includes/class-mosaic-data-table.php:153-159 | The Edit button links to the escaped resolved URL; an empty URL gives a plain button; a callable's result is taken as it is. |
| DataTableBuilder.DeleteButtonConfirms | includes/class-mosaic-data-table.php:162-172 | The Delete button carries the confirmation prompt, the confirm-delete class and the danger-outline variant. |
| DataTableBuilder.ActionsOrder | includes/class-mosaic-data-table.php:148-179 | The actions markup lists Edit before Delete, each only when enabled, and is '' exactly when neither is enabled. |
| DataTableBuilder.ActionsColumnOnce | includes/class-mosaic-data-table.php:203-207 | Adding the actions column again changes nothing, so repeated renders never duplicate it; a new actions column goes last. |
| DataTableBuilder.DataTable.constructor | includes/class-mosaic-data-table.php:25-53 | A data table starts as an empty table with no actions, the labels Edit and Delete, and id key 'id'. |
| DataTableBuilder.DataTable.SetTitle | includes/class-mosaic-data-table.php:61-64 | Only the stored title changes. |
| DataTableBuilder.DataTable.SetAddButton | includes/class-mosaic-data-table.php:74-84 | The header actions become a primary plus-alt button linking to href, the caller's options winning. |
| DataTableBuilder.DataTable.EnableEdit | includes/class-mosaic-data-table.php:93-98 | Only the edit action and label change. |
| DataTableBuilder.DataTable.EnableDelete | includes/class-mosaic-data-table.php:107-112 | Only the delete action and label change. |
| DataTableBuilder.DataTable.SetIdKey | includes/class-mosaic-data-table.php:120-124 | Only the id key changes. |
| DataTableBuilder.DataTable.RenderRowActions | includes/class-mosaic-data-table.php:148-179 | Builds the row's actions markup from the current settings. |
| DataTableBuilder.DataTable.RowButtons | includes/class-mosaic-data-table.php:149-172 | The buttons array holds at most two buttons: the printed Edit button, then the printed Delete button, each only when its action is enabled. |
| DataTableBuilder.DataTable.EditButtonHtml | includes/class-mosaic-data-table.php:153-159 | The Edit button is a primary button linking to the resolved edit URL. |
| DataTableBuilder.DataTable.DeleteButtonHtml | includes/class-mosaic-data-table.php:162-172 | The Delete button is a danger-outline confirm-delete button linking to the resolved delete URL. |
| DataTableBuilder.ActionsJoined | includes/class-mosaic-data-table.php:178 | Imploding the printed buttons with '' gives the same text as printing the button nodes one after another. |
| DataTableBuilder.DataTable.AddRow | includes/class-mosaic-data-table.php:133-140 | The row is appended after the actions-cell rule is applied; nothing else of the table changes. |
| DataTableBuilder.DataTable.SetRows | includes/class-mosaic-table.php:139-149 | set_rows on a data table appends one row per entry, in order, each passed through the overriding add_row and so through the actions rule; nothing else of the table changes. |
| DataTableBuilder.BulkRowsGetActions | includes/class-mosaic-data-table.php:133-140 | A data table's bulk rows are the plain table's bulk rows with the same options and the same cells other than 'actions'; every one has an 'actions' cell when an action is enabled, and they are exactly the plain rows when none is. |
| DataTableBuilder.DataTable.Render | includes/class-mosaic-data-table.php:203-210 | With an action enabled the actions column is set (an existing key keeps its place); then the table prints. |
| FormBuilder.SanitizeKey | includes/class-mosaic-form.php:434 | sanitize_key keeps only lower-case letters, digits, '_' and '-' (after lower-casing) and never lengthens the text. |
| FormBuilder.SanitizeKeyIdempotent | includes/class-mosaic-form.php:434 | Sanitizing twice is sanitizing once. |
| FormBuilder.KeyCharsFixed | includes/class-mosaic-form.php:434 | A key that is already sanitized is left as it is. |
| FormBuilder.FieldOptions | includes/class-mosaic-form.php:199-221 | Each caller option overrides the add_* default for that key; every other key keeps its default. |
| FormBuilder.FieldDefaultIdAndType | includes/class-mosaic-form.php:200-204 | Without id or type options the id is the field's name and the type the add_* kind. |
| FormBuilder.DefaultIdAndType | includes/class-mosaic-form.php:200-204 | The field defaults carry the given type and the name as id. |
| FormBuilder.FieldsInOrder | includes/class-mosaic-form.php:258-273 | The form holds the nonce field, if any, then one block per field in insertion order. |
| FormBuilder.HtmlFieldVerbatim | includes/class-mosaic-form.php:181-188 | An html field prints its markup as given. |
| FormBuilder.FormAttrRules | includes/class-mosaic-form.php:239-256 | The attribute array always holds method, with its option's value (build_attrs then drops it when that value is '', false or null); it holds id, action and enctype exactly when their options are truthy. |
| FormBuilder.LabelRule | includes/class-mosaic-form.php:300-308 | The label is printed exactly for fields that are not checkboxes or toggles and have a truthy label, and ends with the required marker exactly when the field is required. |
| FormBuilder.GroupLayout | includes/class-mosaic-form.php:297-331 | A field that is neither html nor hidden prints the label, the input, then the help text and the error, each escaped and each only when set. |
| FormBuilder.ErrorClassRule | includes/class-mosaic-form.php:341-353 | An error adds mosaic-input-error to the input class; without an error it is absent (unless size or class spell it). |
| FormBuilder.PlainInputClass | includes/class-mosaic-form.php:451-458 | A plain input's class attribute is the computed class list. |
| FormBuilder.AttrsOverride | includes/class-mosaic-form.php:355-363 | The caller's attrs override name, id and the flag attributes, and on a plain input every key but type, class, value and placeholder. |
| FormBuilder.CheckedFromValue | includes/class-mosaic-form.php:391-424 | A checkbox's or toggle's checked state comes from checked(value, true) and nothing else. |
| FormBuilder.CheckedOptionIgnored | includes/class-mosaic-form.php:391-424 | A 'checked' option has no effect on a checkbox's or toggle's input. |
| FormBuilder.CheckInputPlace | includes/class-mosaic-form.php:391-424 | The input is the second child of a checkbox's or toggle's label, with the class of its kind. |
| FormBuilder.FormAttrsArePairs | includes/class-mosaic-form.php:520-530 | build_attrs prints only key/value pairs and bare keys. |
| FormBuilder.NonceRule | includes/class-mosaic-form.php:259-266 | The nonce field is printed exactly when nonce or nonce_action is set, falling back to 'mosaic_form' and '_mosaic_nonce'. |
| FormBuilder.ActionsAlign | includes/class-mosaic-form.php:483-487 | align 'left' adds no modifier class; any other align adds mosaic-form-actions-ALIGN. |
| FormBuilder.ActionsDefaultAlign | includes/class-mosaic-form.php:474-487 | Without an align option the bar is right-aligned. |
| FormBuilder.AlignDefault | includes/class-mosaic-form.php:474-481 | A missing align option is 'right'. |
| FormBuilder.CancelIff | includes/class-mosaic-form.php:491-497 | The cancel link is printed exactly when both cancel_label and cancel_url are truthy. |
| FormBuilder.ActionsDefaultValues | includes/class-mosaic-form.php:473-479 | Without a submit label the button reads 'Save Changes' and is the only child of the bar; the defaults have no cancel link, align right and are not loading. |
| FormBuilder.ActionsLayout | includes/class-mosaic-form.php:489-509 | The submit button comes last, after at most one cancel link. |
| FormBuilder.Form.constructor | includes/class-mosaic-form.php:39-50 | Caller options override the defaults; no fields. |
| FormBuilder.Form.AddField | includes/class-mosaic-form.php:199-221 | Appends the field built from the caller's options over the defaults for its kind, name and label. |
| FormBuilder.Form.AddText | includes/class-mosaic-form.php:60-62 | Appends a text field. |
| FormBuilder.Form.AddEmail | includes/class-mosaic-form.php:72-74 | Appends an email field. |
| FormBuilder.Form.AddPassword | includes/class-mosaic-form.php:84-86 | Appends a password field. |
| FormBuilder.Form.AddNumber | includes/class-mosaic-form.php:96-98 | Appends a number field. |
| FormBuilder.Form.AddTextarea | includes/class-mosaic-form.php:108-110 | Appends a textarea field. |
| FormBuilder.Form.AddCheckbox | includes/class-mosaic-form.php:134-136 | Appends a checkbox field. |
| FormBuilder.Form.AddToggle | includes/class-mosaic-form.php:146-148 | Appends a toggle field. |
| FormBuilder.Form.AddSelect | includes/class-mosaic-form.php:121-124 | Appends a select whose choices argument replaces any 'choices' option. |
| FormBuilder.Form.AddRadio | includes/class-mosaic-form.php:159-162 | Appends a radio group whose choices argument replaces any 'choices' option. |
| FormBuilder.Form.AddHidden | includes/class-mosaic-form.php:171-173 | Appends a hidden field with the value. |
| FormBuilder.Form.AddHtml | includes/class-mosaic-form.php:181-188 | Appends an html field holding the markup. |
| FormBuilder.Form.RenderChoices | includes/class-mosaic-form.php:378-386 | Prints one option or radio per choice, in order. |
| FormBuilder.Form.RenderInput | includes/class-mosaic-form.php:340-460 | Prints the input for the field's type. |
| FormBuilder.Form.RenderTextarea | includes/class-mosaic-form.php:365-373 | Prints the textarea element with the form attributes and the value escaped for a textarea. |
| FormBuilder.Form.RenderSelect | includes/class-mosaic-form.php:375-388 | Prints the select element holding one option per choice in order. |
| FormBuilder.Form.RenderRadioGroup | includes/class-mosaic-form.php:426-448 | Prints the radio group, inline when asked, holding one radio per choice in order. |
| FormBuilder.Form.RenderField | includes/class-mosaic-form.php:284-332 | Prints the field block: html as given, hidden as one input, otherwise the group. |
| FormBuilder.Form.RenderFields | includes/class-mosaic-form.php:269-273 | Prints every field, in order. |
| FormBuilder.Form.Render | includes/class-mosaic-form.php:228-276 | Prints the form tag, the nonce field, every field in order and the closing tag. |
| FormBuilder.Actions | includes/class-mosaic-form.php:473-512 | actions() prints the bar: the optional cancel link and the submit button. |
| Mosaic.Config | includes/class-mosaic.php:88-91 | config() gives the stored value when it is set (present and not null), otherwise the default. |
| Mosaic.ConfigLookup | includes/class-mosaic.php:88-91 | A key present in the configuration wins over any default unless its value is null. |
| Mosaic.DefaultPaths | includes/class-mosaic.php:70-109 | Without a properties file css() and js() give the shipped asset paths. |
| Mosaic.Tag | includes/class-mosaic.php:534-545 | tag prints the start tag with true as a bare key, false and null left out, the content as given, and the end tag. |
| Mosaic.TagKeepsEmptyString | includes/class-mosaic.php:536-542 | tag keeps '' as key="", where the builders' build_attrs drop it; true prints the bare key and false/null nothing. |
| Mosaic.ButtonContentText | includes/class-mosaic.php:196-203 | The button content is the icon html and the escaped label, ordered by icon_pos. |
| Mosaic.Button | includes/class-mosaic.php:152-215 | button prints the element its options select: a link or a button with the computed attributes and content. |
| Mosaic.ButtonTagged | includes/class-mosaic.php:201-213 | Printing the content string first and passing it to tag gives the same html as the element with those children. |
| Mosaic.ButtonLinkIffHref | includes/class-mosaic.php:186-214 | A button is an `a` exactly when href is truthy; the link gets the escaped href and, when set, the target; a plain button gets the type option. |
| Mosaic.ButtonClassOrder | includes/class-mosaic.php:170-182 | The classes open with mosaic-btn and mosaic-btn-VARIANT; the size class comes before mosaic-btn-loading and the custom class is last; one entry per truthy option; mosaic-btn-loading is present exactly when loading is truthy, unless the variant or the size is 'loading' or the custom class is mosaic-btn-loading. |
| Mosaic.CallerAttrsOverride | includes/class-mosaic.php:184-194 | Caller 'attrs' override the computed class, id and disabled attributes (array_merge). |
| Mosaic.ButtonIconPosition | includes/class-mosaic.php:196-203 | With an icon, it precedes the label exactly when icon_pos is 'left' and follows it otherwise. |
| Mosaic.Badge | includes/class-mosaic.php:225-251 | badge is a span holding two children when an icon is set, the dashicon of that icon first, and one otherwise; the escaped label is always last. |
| Mosaic.BadgeClassRules | includes/class-mosaic.php:233-241 | The span has one class attribute; its classes open with mosaic-badge and mosaic-badge-VARIANT, then mosaic-badge-solid, the custom class last; one entry per truthy option; mosaic-badge-solid is present exactly when solid is truthy, unless the variant is 'solid' or the custom class is mosaic-badge-solid. |
| Mosaic.HealthBadgeResolution | includes/class-mosaic.php:260-285 | Unknown statuses get the 'minus' icon; a truthy label is used as given; otherwise the mapped label, or ucfirst of the status outside the map. |
| Mosaic.Clamp | includes/class-mosaic.php:377 | The progress value is clamped into 0..100 and kept when already in range. |
| Mosaic.ProgressShape | includes/class-mosaic.php:377-403 | The output is the bar alone unless label or show_value is truthy, in which case a wrapper holds the header and then the bar. |
| Mosaic.Icon | includes/class-mosaic.php:412-436 | icon is a span whose classes start with dashicons, dashicons-NAME and mosaic-icon (the full rules are IconClassRules). |
| Mosaic.IconClassRules | includes/class-mosaic.php:412-436 | The span has one class attribute and no children; its classes open with dashicons, dashicons-NAME, mosaic-icon, then mosaic-icon-SIZE before mosaic-icon-COLOR; each of those two is present exactly when its option is truthy (when no other class equals it); the custom class is last when truthy, and the list has one entry per truthy option beyond the three fixed ones. |
| Mosaic.AlertIconIffKnownType | includes/class-mosaic.php:447-480 | The alert icon appears exactly when the icon option is truthy and the type is info, success, warning or error. |
| Mosaic.PageStart | includes/class-mosaic.php:488-511 | page_start opens the wrap div and prints the header and separator exactly when the title is truthy. |
| Mosaic.PageActionsIffSet | includes/class-mosaic.php:499-502 | The page header holds the actions block exactly when the actions option is truthy. |
| CardBuilder.CardLayout | includes/class-mosaic-card.php:109-165 | The card holds header, body and footer in that order: the header exactly when set_header was called, body and footer exactly when truthy, both printed as given. |
| CardBuilder.CardClassOrder | includes/class-mosaic-card.php:110-126 | The card's classes open with mosaic-card, then the variant class before mosaic-card-active, the custom class last; one entry per truthy option; mosaic-card-active is present exactly when active is truthy, unless the variant is 'active' or the custom class is mosaic-card-active. |
| CardBuilder.HeaderPrinted | includes/class-mosaic-card.php:135-150 | A header stored by set_header is always printed, and its title line ends with the escaped title. |
| CardBuilder.StatClassOverrides | includes/class-mosaic-card.php:211-213 | The computed class overrides any class in the caller's attrs. |
| CardBuilder.StatDataFilter | includes/class-mosaic-card.php:211-221 | data-filter is the filter option when it is truthy, otherwise whatever the caller's attrs carry. |
| CardBuilder.StatClassRules | includes/class-mosaic-card.php:197-209 | A stat card's classes start with the base class and its variant; the clickable class comes before the active class and the custom class is last; one entry per truthy option; clickable and active are each present exactly when truthy, unless the variant or the custom class spells the same class. |
| CardBuilder.StatVariantDefault | includes/class-mosaic-card.php:183-195 | Without a variant option the variant is 'primary'. |
| CardBuilder.StatMetaRule | includes/class-mosaic-card.php:225-252 | The stat card holds the label and the value, then the escaped meta block exactly when meta is truthy. |
| CardBuilder.StatusIconRule | includes/class-mosaic-card.php:272-280 | healthy, warning and critical have their own icons; every other status shows 'info'. |
| CardBuilder.MetricUnitRule | includes/class-mosaic-card.php:345-353 | The metric value is escaped and followed by the unit span exactly when the unit is truthy. |
| CardBuilder.StatsInOrder | includes/class-mosaic-card.php:365-379 | The grid holds one stat card per entry, in input order. |
| CardBuilder.StatsGrid | includes/class-mosaic-card.php:365-379 | stats_grid prints the grid tag, one stat card per entry and the closing tag. |
| CardBuilder.Card.constructor | includes/class-mosaic-card.php:53-60 | Caller options override the defaults; no header, body or footer. |
| CardBuilder.Card.SetHeader | includes/class-mosaic-card.php:70-78 | Only the header changes, to the title, actions and icon given. |
| CardBuilder.Card.SetBody | includes/class-mosaic-card.php:86-90 | Only the body changes. |
| CardBuilder.Card.SetFooter | includes/class-mosaic-card.php:98-102 | Only the footer changes. |
| CardBuilder.Card.Render | includes/class-mosaic-card.php:109-165 | Prints the card tag, header, body and footer, and the closing tag. |
| AccordionBuilder.ItemsInOrder | includes/class-mosaic-accordion.php:101-131 | The container holds one block per item, in insertion order, each printing its content as given. |
| AccordionBuilder.OpenClassIff | includes/class-mosaic-accordion.php:102-105 | An item carries the open class exactly when its 'open' option is truthy. |
| AccordionBuilder.ContainerFlags | includes/class-mosaic-accordion.php:79-97 | data-multiple is printed, as 'true', exactly when multiple is truthy; when the custom class is not itself mosaic-accordion-flush, the flush class is present exactly when flush is truthy. |
| AccordionBuilder.ItemOptionsOverride | includes/class-mosaic-accordion.php:56-65 | A title in the caller's item options overrides the title argument. |
| AccordionBuilder.TitleText | includes/class-mosaic-accordion.php:112-120 | The title line prints the icon before the escaped title exactly when the icon is set. |
| AccordionBuilder.Accordion.constructor | includes/class-mosaic-accordion.php:39-46 | Caller options override the defaults; no items. |
| AccordionBuilder.Accordion.AddItem | includes/class-mosaic-accordion.php:56-65 | Appends the item, its options over the defaults; the accordion options are kept. |
| AccordionBuilder.Accordion.RenderItem | includes/class-mosaic-accordion.php:101-131 | Prints one item block: header with title and toggle icon, then the content. |
| AccordionBuilder.Accordion.RenderHeader | includes/class-mosaic-accordion.php:110-121 | Prints the header: the dashicon when the item has an icon, then the escaped title, then the toggle icon. |
| AccordionBuilder.Accordion.RenderContent | includes/class-mosaic-accordion.php:124-128 | Prints the item's content unescaped inside the body and content wrappers. |
| AccordionBuilder.Accordion.RenderItems | includes/class-mosaic-accordion.php:101-131 | The items loop prints every item, in order. |
| AccordionBuilder.Accordion.RenderWith | includes/class-mosaic-accordion.php:99-135 | Prints the container around the item blocks. |
| AccordionBuilder.Accordion.Render | includes/class-mosaic-accordion.php:72-136 | render prints '' without items, otherwise the container with one block per item. |
| MosaicScript.BreakInDigits | assets/js/mosaic.js:109 | In a run of digits the pattern matches exactly at the inner positions a multiple of three from the end. |
| MosaicScript.GroupTextDigits | assets/js/mosaic.js:109 | On a run of digits the replacement joins the groups of three with commas. |
| MosaicScript.GroupsShape | assets/js/mosaic.js:109 | The groups of a digit run: the first holds one to three digits, every later one exactly three, and together they spell the run. |
| MosaicScript.FormatNumberGroups | assets/js/mosaic.js:108-110 | formatNumber on a non-negative integer: the comma-separated pieces are the first group of one to three digits and then groups of three, and removing the commas gives the plain decimal text back. |
| MosaicScript.FormatSmall | assets/js/mosaic.js:108-110 | Below one thousand nothing is inserted. |
| MosaicScript.FormatNegative | assets/js/mosaic.js:108-110 | A negative number gets the minus sign and then the magnitude grouped the same way (no comma after the sign). |
| MosaicScript.FractionGroupedAsWritten | assets/js/mosaic.js:109 | As written, the pattern also groups the digits after a decimal point: every d.dddd, "1.2345" among them, becomes d.d,ddd. |
| MosaicScript.GroupDecimalKeepsFraction | assets/js/mosaic.js:109 | The corrected grouping groups the integer part by threes and leaves the digits after the point as they are. |
| MosaicScript.GroupDecimalOnIntegers | assets/js/mosaic.js:108-110 | On integers the corrected grouping and formatNumber agree. |
| MosaicScript.JustNow | assets/js/mosaic.js:127-136 | Under a minute ago, and any date in the future, reads "just now". |
| MosaicScript.RelativeBuckets | assets/js/mosaic.js:127-141 | From one minute up to an hour: whole minutes (1 to 59); then whole hours (1 to 23) up to a day; then whole days (1 to 29) up to thirty days; from then on the locale's date. |
| MosaicScript.DivDiv | assets/js/mosaic.js:131-134 | The cascade of Math.floor divisions equals a single floor division by the product. |
| MosaicScript.CountPlural | assets/js/mosaic.js:137-139 | The unit takes the plural 's' exactly when the count is not one, and the count is printed first. |
| MosaicScript.PendingMembers | assets/js/mosaic.js:50-71 | A pass starts exactly the matching elements not yet marked initialised. |
| MosaicScript.NothingPending | assets/js/mosaic.js:51 | Once every matching element is marked, a pass starts nothing. |
| MosaicScript.Page.constructor | assets/js/mosaic.js:42-47 | The page starts with the given attributes and initialised flags, and nothing started. |
| MosaicScript.Page.StartPass | assets/js/mosaic.js:50-71 | One forEach pass starts each matching, unmarked element in order and marks it; the other flags are kept. |
| MosaicScript.Page.Init | assets/js/mosaic.js:42-72 | Mosaic.init does nothing when the container is not found; otherwise it runs the tabs pass, then the filter pass, each skipping elements already marked. |
| MosaicScript.InitIdempotent | assets/js/mosaic.js:42-72 | A second Mosaic.init starts nothing and changes no flag; an element carrying both attributes is started by the tabs pass only. |
| DropdownWidget.MakeOptions | assets/js/modules/dropdown.js:35-36 | closeOnSelect and closeOnOutside are on unless the caller passed exactly false. |
| DropdownWidget.EnabledMembers | assets/js/modules/dropdown.js:120-126 | The `:not(:disabled)` items are exactly the items not disabled, listed in ascending document order. |
| DropdownWidget.Wraparound | assets/js/modules/dropdown.js:130-138 | ArrowDown from the last item goes to the first and ArrowUp from the first to the last; from outside the list ArrowDown goes to the first and ArrowUp to the last; inside the list the two moves undo each other. |
| DropdownWidget.OpenExclusive | assets/js/modules/dropdown.js:38-45 | After open() the container is open and no other .mosaic-dropdown container is; containers without that class keep their state. |
| DropdownWidget.SelectValueRule | assets/js/modules/dropdown.js:89 | onSelect receives data-value when it is non-empty, otherwise the item's text without surrounding white space. |
| DropdownWidget.Page.constructor | assets/js/modules/dropdown.js:152-159 | The page starts with the given containers and flags, no aria-expanded values, focus elsewhere, no callbacks and nothing attached. |
| DropdownWidget.Page.CloseOthers | assets/js/modules/dropdown.js:40-42 | The sweep removes mosaic-open from every other open .mosaic-dropdown container and touches nothing else. |
| DropdownWidget.Page.InitDropdowns | assets/js/modules/dropdown.js:152-159 | Each declared container without the init flag is marked initialized and passed to Mosaic.dropdown, in document order (which gives it a controller only when it has a trigger and a menu, see Attach); nothing else changes. |
| DropdownWidget.InitDropdownsOnce | assets/js/modules/dropdown.js:152-159 | A second initDropdowns attaches nothing and changes no flag. |
| DropdownWidget.Dropdown.constructor | assets/js/modules/dropdown.js:23-36 | A controller is bound to its container, items and options. |
| DropdownWidget.Dropdown.Open | assets/js/modules/dropdown.js:38-50 | open() closes the others, opens this container, sets aria-expanded to 'true', then calls onOpen when given. |
| DropdownWidget.Dropdown.Close | assets/js/modules/dropdown.js:52-59 | close() closes this container only, sets aria-expanded to 'false', then calls onClose when given. |
| DropdownWidget.Dropdown.Toggle | assets/js/modules/dropdown.js:61-78 | toggle() (and a trigger click) closes an open dropdown, calling onClose when given, and opens a closed one as open() does, calling onOpen when given. |
| DropdownWidget.Dropdown.ClickItem | assets/js/modules/dropdown.js:81-96 | A click on a disabled item (attribute or mosaic-disabled class) does nothing; otherwise onSelect gets the item's value, then close() runs unless closeOnSelect is off. |
| DropdownWidget.Dropdown.ClickDocument | assets/js/modules/dropdown.js:99-105 | With closeOnOutside, a click outside an open container closes it; any other click changes nothing. |
| DropdownWidget.Dropdown.DocumentKey | assets/js/modules/dropdown.js:108-113 | Escape closes an open dropdown and focuses its trigger; any other key, or a closed dropdown, changes nothing. |
| DropdownWidget.Dropdown.TriggerKey | assets/js/modules/dropdown.js:116-123 | ArrowDown, Enter or Space on the trigger opens the menu and focuses the first enabled item when there is one; other keys change nothing. |
| DropdownWidget.Dropdown.FocusPos | assets/js/modules/dropdown.js:126-128 | indexOf of the focused element among the enabled items, -1 when it is not one of them. |
| DropdownWidget.Dropdown.MenuKey | assets/js/modules/dropdown.js:125-139 | ArrowDown and ArrowUp move the focus to the next or previous enabled item, wrapping round; other keys, or a menu with no enabled item, change nothing. |
| DropdownWidget.Attach | assets/js/modules/dropdown.js:23-33 | Mosaic.dropdown returns null exactly when the container, its trigger or its menu is missing; otherwise a fresh controller for them, the page left as it was. |
| ToastWidget.ActionButtons | assets/js/modules/toast.js:100-107 | One button per action, numbered by its index, in order, labelled with the action's text. |
| ToastWidget.ToastDefaults | assets/js/modules/toast.js:54-60 | Type 'default', duration 4000 only when it is absent (0 and negative values kept), closable unless exactly false, variant 'dark'. |
| ToastWidget.IconPrecedence | assets/js/modules/toast.js:63-69 | The explicit icon, else the type's icon, else none; only success, error, warning and info have a type icon. |
| ToastWidget.ClassRules | assets/js/modules/toast.js:73-87 | mosaic-toast comes first; the type class is present unless the type is 'default'; the light class with the light variant; the progress class exactly when progress is on and the duration positive. |
| ToastWidget.MarkupRules | assets/js/modules/toast.js:89-129 | The markup holds the close button exactly when closable, the progress bar with the duration exactly when progress shows, the title exactly when non-empty, the message, and one numbered button per action. |
| ToastWidget.Without | assets/js/modules/toast.js:147 | Removing a toast leaves every other toast in the container. |
| ToastWidget.ToastHost.constructor | assets/js/modules/toast.js:12-13 | The module starts at position 'top-right' with no container and no toasts. |
| ToastWidget.ToastHost.SetPosition | assets/js/modules/toast.js:31-36 | Later toasts use the new position; an existing container is restyled for it. |
| ToastWidget.ToastHost.DetachContainer | assets/js/modules/toast.js:19 | Only the container's presence in the body changes. |
| ToastWidget.ToastHost.GetContainer | assets/js/modules/toast.js:18-25 | A container in the body is reused; otherwise a new empty one is styled for the current position and appended. |
| ToastWidget.ToastHost.Show | assets/js/modules/toast.js:53-200 | The earlier toasts are kept and the new one, with id the old count, is appended, built from the resolved settings with its auto-close timer set exactly when the duration is positive; it goes first in the container for bottom positions and last otherwise; a container already in the page is reused with its class, otherwise a fresh one with the position class replaces the order; the position and the recorded calls are kept. |
| ToastWidget.ToastHost.Close | assets/js/modules/toast.js:143-157 | close() clears the pending timer and adds mosaic-toast-out; nothing else changes yet. |
| ToastWidget.ToastHost.Removed | assets/js/modules/toast.js:146-151 | After the 200 ms delay the toast leaves the container and onClose runs when given. |
| ToastWidget.ToastHost.ClickAction | assets/js/modules/toast.js:160-170 | An action button without onClick does nothing; otherwise onClick runs and the toast closes unless closeOnClick is exactly false; the order, the position and the container (its presence, attachment and class) are kept. |
| ToastWidget.ToastHost.MouseEnter | assets/js/modules/toast.js:178-187 | Entering the toast clears its auto-close timer and changes nothing else: order, calls, position and the container are kept. |
| ToastWidget.ToastHost.MouseLeave | assets/js/modules/toast.js:189-197 | Leaving sets a timer again exactly when the duration is positive and none is pending, and changes nothing else: order, calls, position and the container are kept. |
| ToastWidget.ToastHost.Clear | assets/js/modules/toast.js:233-237 | clearToasts empties the container when there is one. |
| ToastWidget.ToastHost.ShowTyped | assets/js/modules/toast.js:205-228 | toastSuccess, toastError, toastWarning and toastInfo have the whole effect of show with the type replaced: earlier toasts kept, the new toast appended at the old count and placed first or last by position, the container reused or created as show does, position and calls kept; the toast carries that type's class and, without an explicit icon, that type's icon. |
| DialogWidget.RenderButtons | assets/js/modules/dialog.js:47-51 | One footer button per option button, in order. |
| DialogWidget.Actions | assets/js/modules/dialog.js:37-51 | The data-action elements are the close button (when closable) followed by every footer button. |
| DialogWidget.MarkupRules | assets/js/modules/dialog.js:29-77 | The header is printed exactly when there is a title, an icon or a close button and holds exactly those; the input exactly when asked; one button per option button, each with its own class, action and label. |
| DialogWidget.ClassRules | assets/js/modules/dialog.js:30-48 | The icon has a type class exactly when a type is given; a button without a class is secondary, one with a class carries it after mosaic-btn. |
| DialogWidget.ResultRules | assets/js/modules/dialog.js:115-141 | confirm gives the input's text or true; cancel and close give null (with an input) or false, as a dismissal does; any other action gives its own name; true or false only ever come without an input and true only from confirm. |
| DialogWidget.Dialog.constructor | assets/js/modules/dialog.js:82-92 | showDialog builds and shows the markup; the input holds its initial value, the Escape listener is attached and nothing has been requested yet. |
| DialogWidget.Dialog.Type | assets/js/modules/dialog.js:91 | Typing changes only the input's text. |
| DialogWidget.Dialog.ClickButton | assets/js/modules/dialog.js:114-125 | A click on a data-action element requests the result of its action; a dialog already settled keeps its first result. |
| DialogWidget.Dialog.ClickOverlay | assets/js/modules/dialog.js:128-134 | A click on the overlay itself dismisses; one inside the modal does nothing. |
| DialogWidget.Dialog.DocumentKey | assets/js/modules/dialog.js:137-145 | The first Escape dismisses and detaches the listener; any other key, or a later Escape, changes nothing. |
| DialogWidget.Dialog.InputKey | assets/js/modules/dialog.js:148-154 | Enter in the input closes with its current text; other keys do nothing. |
| DialogWidget.AlertShape | assets/js/modules/dialog.js:163-218 | alert, success, warning and error: one OK button confirming, no type, no icon, no input; a string argument is the title and never closable; the header shows exactly with a title or when closable; the last action is confirm. |
| DialogWidget.ConfirmShape | assets/js/modules/dialog.js:223-246 | confirm and confirmDanger have confirm then cancel, giving true and false; confirmDanger's confirm is a Delete danger button; the header shows exactly with a title. |
| DialogWidget.PromptShape | assets/js/modules/dialog.js:251-263 | prompt shows an input holding the default value with no placeholder; OK gives what was typed, Cancel gives null. |
| DialogWidget.DialogDefaults | assets/js/modules/dialog.js:268-282 | dialog() uses a single OK confirm button when no buttons are given and the given buttons otherwise; the header rule and the message carry over. |
| DialogWidget.ConfirmThenCancel | assets/js/modules/dialog.js:104-111 | A confirm dialog whose OK is clicked before its Cancel settles with true. |
| Theme.ToggleTwice | assets/js/modules/theme.js:49-54 | Toggling changes light to dark and back, so twice returns to where it began; from any other theme it goes to dark and then light. |
| Theme.InitialPrecedence | assets/js/modules/theme.js:62-84 | A non-empty saved theme wins; failing that a system dark preference gives dark when respected and detectable; otherwise the default, light when none is given; the result is never empty. |
| Theme.Document.constructor | assets/js/modules/theme.js:12-13 | The page starts with its theme attribute and stored value as given and no change events. |
| Theme.Document.GetTheme | assets/js/modules/theme.js:19-21 | The attribute's value when it is non-empty, and never the empty string. |
| Theme.Document.SetTheme | assets/js/modules/theme.js:28-43 | light removes the attribute and any other theme sets it; the theme is stored only when persisting; one change event carries the theme; getTheme then returns it (light for the empty string). |
| Theme.Document.ToggleTheme | assets/js/modules/theme.js:49-54 | The new theme is the toggle of the current one; it is applied, stored, announced and returned. |
| Theme.Document.InitTheme | assets/js/modules/theme.js:62-84 | The theme applied follows the saved-system-default precedence, respectSystem being off only when exactly false; nothing is stored; one change event. |
| Theme.ReloadKeepsTheme | assets/js/modules/theme.js:28-43 | A theme set with storage is the one the next initTheme applies, whatever the system prefers. |
| Strings.TrimCutsOnlySpace | assets/js/modules/tags.js:173 | String.prototype.trim removes only whitespace, from both ends, and leaves no whitespace at either end. |
| Strings.TrimIdempotent | assets/js/modules/tags.js:173 | Trimming a trimmed string changes nothing. |
| Strings.Lower | assets/js/modules/filters.js:182 | toLowerCase on ASCII letters: the length is kept and each character is replaced by its lower-case ASCII form, every other character left as it is. |
| Strings.Split | assets/js/modules/tags.js:385 | split(',') gives at least one piece and no piece holds the separator. |
| Strings.JoinSplit | assets/js/modules/tags.js:385 | Joining the pieces of a split with the separator gives the text back. |
| Strings.SplitJoin | assets/js/modules/tags.js:385 | Splitting the join of separator-free pieces gives the pieces back. |
| Strings.SplitCount | assets/js/modules/tags.js:385 | A split gives one more piece than the text has separators. |
| Strings.NatToString | assets/js/mosaic.js:109 | The decimal text of a number is digits only and starts with 0 only for zero. |
| Strings.DigitsValueOfNatToString | assets/js/mosaic.js:109 | Reading the decimal text back gives the number. |
| Strings.ParseIntIntToString | assets/js/modules/tags.js:584-587 | Parsing the printed form of any integer gives it back. |
| Strings.UcFirst | includes/class-mosaic.php:276 | ucfirst keeps the length and everything after the first character. |
| Strings.ReplaceAbsent | includes/class-mosaic-data-table.php:195 | Replacing in text without the pattern changes nothing. |
| Strings.ReplaceJoin | includes/class-mosaic-data-table.php:195 | Replacing the separator in a join of pieces that do not hold its first character is joining them with the replacement. |
| Strings.IndexOf | assets/js/modules/tags.js:235 | indexOf gives -1 exactly when the value is absent, and otherwise its first position. |
| Php.GetAbsent | includes/class-mosaic-accordion.php:91-92 | Reading a key the array does not hold gives null. |
| Php.GetFirst | includes/class-mosaic-accordion.php:91-92 | Reading a key gives the value at its first position in the array. |
| Php.GetFound | includes/class-mosaic-accordion.php:91-92 | In an array without duplicate keys, reading a key gives the value stored at the key's position. |
| Php.Set | includes/class-mosaic.php:187-212 | Assigning to an existing key keeps its position and the key order; a new key goes last. |
| Php.SetGet | includes/class-mosaic.php:187-212 | After an assignment the key reads back the new value and every other key is unchanged. |
| Php.SetSetSame | includes/class-mosaic.php:187-212 | Assigning the same value twice is assigning it once. |
| Php.MergeGet | includes/class-mosaic.php:194 | With array_merge the second array's keys win and other keys keep the first's value. |
| Php.MergeWellFormed | includes/class-mosaic.php:194 | array_merge never introduces duplicate keys. |
| Php.ParseArgsGet | includes/class-mosaic-accordion.php:40 | wp_parse_args: keys the caller gives override the defaults and the rest keep their default. |
| Html.AttrListCount | includes/class-mosaic-tabs.php:300-308 | The printed attributes are exactly the entries build_attrs keeps. |
| Html.BuildAttrs | includes/class-mosaic-tabs.php:300-308 | The build_attrs loop prints, in order, one escaped key="value" pair per entry that is neither '' nor null. |

## Left out

- `Mosaic::load`, `Mosaic::version`, the path helpers and the asset enqueueing: they read `mosaic.properties` with `parse_ini_file` and query the file system. `Mosaic.ConfigLookup` takes the loaded configuration as a value.
- `Mosaic::status_dot`, `Mosaic::spinner` and `display()`/`echo` on every builder: output only, and not among the operations modelled.
- PHP's array-key normalisation: keys are strings throughout, so a numeric-string key is not turned into an integer and `array_merge` does not renumber integer keys.
- A non-array value where a builder expects an array (for example `attrs` given as a string): it is modelled as an empty array, where PHP would raise a warning or a type error.
- `intval` in `Mosaic::progress`: the value arrives as an integer, so intval's reading of strings and floats is not modelled; only the clamping into 0..100 is.
- `is_callable` on a string: in `Mosaic_Data_Table` every string action is a URL pattern and every callable is a closure, so the name of a global function given as a string is not called.
- `Mosaic_Data_Table` extends `Mosaic_Table`; the model composes a `Table` inside a `DataTable` instead. The two calls the override reaches, `add_row` and the `add_row` calls of `set_rows`, are methods of `DataTable` (`AddRow`, `SetRows`); the table's other methods are called on `table` directly. PHP's dynamic dispatch is not modelled otherwise.
- The loose `switch` on a form field's `type`: type names are compared as strings, so PHP's loose comparison of non-string types is not modelled.
- `sanitize_key` is modelled concretely (lower-case, keep `a-z`, `0-9`, `_` and `-`) because its output is concatenated before escaping; the other WordPress functions stay uninterpreted.
- The template white space of the toast and dialog markup: the spaces and line breaks between the pieces are not kept.
- ToastWidget.Markup: the toast's icon, content and actions wrapper divs are not represented; the icon, title, message, action buttons, close button and progress bar are one flat list of parts in document order.
- `ajax.js`, `clipboard.js`, `media.js` and `tooltip.js`: network, clipboard, media-library and layout geometry.
- `debounce`, `throttle`, `uniqueId`, `formatBytes`, `escapeHtml` and `initCopyButtons` of `mosaic.js`: timers, randomness, floating point and the DOM serialiser.
- `formatRelativeTime` from thirty days on calls `toLocaleDateString`; the model takes that text as a parameter, and the current time and the difference in milliseconds are parameters too.
- Timers: toast auto-close, the 200 ms removal delay and the one-second restart after mouseleave, the dialog's 100 ms focus and 150 ms close delay, the search debounce and the tabs resize debounce are events the caller sends; the model records only whether a timer is pending.
- Animations, focus, `scrollIntoView`, and ARIA attributes other than a dropdown trigger's `aria-expanded`.
- Toast and dialog markup is built with `innerHTML` from unescaped option text; the model keeps the text as it is and does not model how the browser parses injected HTML.
- `options.x !== false` tests: each such option is true, false or absent in the model; non-boolean values, which the script treats like true, are not represented.
- A toast type that names a member of `Object.prototype` (such as `constructor`) would find an inherited icon; types are plain strings here with icons only for success, error, warning and info. A `duration` of `null` is not represented.
- `createThemeToggle`: it builds a button and wires it to `toggleTheme`; the `mosaic-theme-change` event carries only the theme.
- `MosaicTabs.destroy` and the text and selected state of the mobile select's options: the model keeps the select's value only.
- `MosaicSearch.highlightMatches` and `removeHighlights`, and the style element that `filters.js` injects: DOM tree walking with a regular expression built from the raw term.
- The console warnings of `MosaicFilter`, `MosaicSearch` and `MosaicTabs` when their elements are missing.
- DropdownWidget.Dropdown.Open: as in the script, the sweep removes `mosaic-open` from the other dropdowns without resetting their triggers' `aria-expanded`.
- DropdownWidget.Dropdown.MenuKey: with no enabled item the script throws a TypeError; the model leaves the state unchanged.
- DropdownWidget.Dropdown.ClickDocument: whether the click target lies inside the container is a parameter, not computed from a DOM tree.
- TagEditor.Consistent: the invariant bounds the highlighted index by the rendered items, not the filtered list, because closing the dropdown leaves the rendered items in place.
- TagEditor.DatasetSuggestions: states the number of suggestions read from `data-suggestions` and that empty pieces are kept, not the text of each.
- TagEditor.Editor.RemoveTag: in read-only mode the script removes the tag, renders and calls the callbacks before the TypeError from the missing input; the model returns `RemovedThenThrew` and does not model the exception's further effects.
- The tag editor's blur delay and its error flash on a rejected tag: timers and CSS only.
- The tag editor's `focus()`, `destroy()` and `getElement()`: focus handling, DOM teardown and a DOM handle, none of which changes the tag state.
- Clicks and mouse hover on a suggestion item of the tag editor (tags.js wires both to select and highlight the item): the model reaches the same states through `SelectHighlightedItem` and `SetHighlighted`, but has no event member for them.
- Filters.MosaicSearch: the text of the search box changes only through `OnInputElapsed` and `Clear`; typing without the debounced search running is not represented.
- TabsScript.MosaicTabs.ClickTab: the click also bubbles to the document listener, which closes an open overflow menu; the model keeps `menuOpen`, and the caller sends `ClickOutside` for that second listener.
- TabsScript.MosaicTabs.OnHashChange: the script registers it only with hash navigation on; the model lets it be called on any instance.
- TabsScript.MosaicTabs.ToggleMenu: opening one tab set's overflow menu also closes the open menus of the other tab sets on the page; the model holds one tab set, so that sweep is not represented.
- MosaicScript.RelativeTime: an invalid date gives a NaN difference in the script, whose comparisons all fail; the model takes the difference as an integer, so that path is not represented.
- Strings.Lower: lowers the ASCII letters A-Z only, where JavaScript's toLowerCase lowers every Unicode letter and can change the length of the string (such as İ to i plus a combining dot); the filter and tag matching are exact only for ASCII text.
- TagEditor/Filters length limits: `maxLength` of a tag and the search box's `minChars` are compared with the number of characters of the model's strings, where the script counts UTF-16 code units, so the two differ for characters outside the Basic Multilingual Plane.
- MosaicScript.FormatNumber: the number is an exact integer, and GroupDecimal takes a decimal as its digit text; JavaScript's toString gives exponent notation such as `1e+21` from 10^21 on and loses precision above 2^53, neither of which the model represents.

## Findings

| source | as written | input that shows it | evidently intended | confidence | as-written member | corrected member |
|---|---|---|---|---|---|---|
| assets/js/mosaic.js:109 | The grouping pattern also matches inside the digits after a decimal point. | `formatNumber(1.2345)` gives `1.2,345`. | Only the integer part is grouped: `1.2345`. | not executed | MosaicScript.FractionGroupedAsWritten | MosaicScript.GroupDecimalKeepsFraction |
| assets/js/modules/tags.js:248-252 | `removeLastTag` calls `removeTag` with the last tag's value, and removeTag takes out the first occurrence of that value. | Tags `["a","b","a"]` and Backspace on an empty input give `["b","a"]`. | The last tag goes: `["a","b"]`. | not executed | TagEditor.RemoveLastAsWrittenDropsEarlierDuplicate | TagEditor.RemoveLastDropsLast |
