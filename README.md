# Tree-view web part: a verified model

This project models the core of a SharePoint Framework web part. The web part
shows the document libraries of a site as an expandable tree of folders and
files. Configuration happens in a property pane: the user picks a library and
up to three metadata columns. The model covers:

- **Tree component** (`tree_view.dfy`, module `TreeView`). This covers the
  tree node record and the three immutable tree transforms: toggle expansion
  by key, attach children by key, and find the first node with a key. It also
  covers the file-icon table, the node lists built from fetched library and
  folder records, and the state machine of a click on a node.
- **Property pane** (`web_part.dfy`, module `WebPart`). This covers the
  library options and the column options. The column options come from the
  allowed field types, with the `0` / `_0` suffix of lookup names corrected.
  It also covers the column-type map, the four dropdowns with their
  enable/disable rules, and the reset applied when the selected library
  changes.
- **Interface language** (`translations.dfy`, module `I18n`). The first
  browser language whose primary subtag is `pt` or `es` chooses the string
  bundle, and Portuguese is the fallback.
- **Stylesheet injection** (`css_injector.dfy`, module `CssInjector`). A
  page-wide flag dictionary makes each key load at most once. A relative
  stylesheet path is resolved against the page origin and the web's
  server-relative URL.
- **Shared helpers.** `text.dfy` holds the JavaScript string operations used:
  `toLowerCase`, `split(..)[0]`, `split(..).pop()`, `startsWith`/`endsWith`,
  and the trailing-slash strip. `wrappers.dfy` holds `Option` and JavaScript
  truthiness of optional strings.

Modelling devices:

- An optional property (`icon?`, `isExpanded?`, `serverRelativeUrl?`) is an
  `Option`.
- `children?` is `Children`, which is `Absent` or `Present(nodes)`. This
  keeps an empty, defined list apart from an undefined one, exactly as
  `updatedNode.children && updatedNode.children.length === 0` does.
- `!node.isExpanded` on an undefined value gives `true`, so a node whose
  expansion was undefined becomes expanded the first time it is toggled.
- The site requests, the folder request and the browser's language list are
  parameters. A rejected request is `None`.
- The loader calls of the stylesheet functions go into a log kept on
  `CssHost`, and `window.open` becomes the URL returned by
  `HandleNodeClick`.
- Lower-casing maps the ASCII letters only.

## Model

| member | source | states |
|---|---|---|
| TreeView.Expanded | src/webparts/treeView/components/TreeView.tsx:161 | definition of `node.isExpanded` read as a condition, undefined counting as false; ToggleNodeExpansion and NeedsChildren are stated through it |
| TreeView.ToggleNodeExpansion | src/webparts/treeView/components/TreeView.tsx:178-188 | same length. Every node of the list keeps key, label, icon, url, folder flag and URL. A node with the key has its expansion flipped (undefined counts as false) and keeps its children exactly. Any other node keeps its expansion and the shape of its children; what happens below is stated by ToggleChangesOnlyReached and ToggleFlipsReached. |
| TreeView.ToggleNode | src/webparts/treeView/components/TreeView.tsx:179-187 | the per-node case: the fields other than expansion and children are kept. A matching node is flipped and keeps its children list exactly. Any other node keeps its expansion and the shape of its children. |
| TreeView.AddChildrenToNode | src/webparts/treeView/components/TreeView.tsx:191-201 | same length, and every node of the list keeps its other fields and its expansion. A node with the key gets exactly the new children. Any other node keeps the shape of its children; what happens below is stated by AddChildrenChangesOnlyReached and AddChildrenSetsReached. |
| TreeView.AddChildrenTo | src/webparts/treeView/components/TreeView.tsx:192-200 | the per-node case: other fields and expansion are kept. A matching node gets exactly the new children, and any other node keeps the shape of its children. |
| TreeView.FindNodeInTree | src/webparts/treeView/components/TreeView.tsx:204-215 | a found node has the key searched for |
| TreeView.FindInNode | src/webparts/treeView/components/TreeView.tsx:206-212 | a node, or else its subtree, yields only a node with the key |
| TreeView.FirstWithKey | src/webparts/treeView/components/TreeView.tsx:204-215 | reference search over a flat sequence: None exactly when no element has the key, otherwise an element with the key |
| TreeView.FirstWithKeyAppend | src/webparts/treeView/components/TreeView.tsx:205-213 | first match in a concatenation: the first part's match, else the second part's |
| TreeView.FindIsFirstInPreorder | src/webparts/treeView/components/TreeView.tsx:204-215 | the depth-first search returns the first node with the key in the pre-order listing of the forest |
| TreeView.FindInNodeIsFirstInPreorder | src/webparts/treeView/components/TreeView.tsx:206-212 | the same for one node and its subtree |
| TreeView.FindNoneIffAbsent | src/webparts/treeView/components/TreeView.tsx:214 | the search returns undefined exactly when no node of the tree has the key |
| TreeView.PreorderSplit | src/webparts/treeView/components/TreeView.tsx:205-213 | the pre-order listing of a forest is its first tree's listing followed by the rest's |
| TreeView.ChildrenInPreorder | src/webparts/treeView/components/TreeView.tsx:209-211 | a node and everything below its children appear in its own pre-order listing |
| TreeView.ToggleChangesOnlyReached | src/webparts/treeView/components/TreeView.tsx:178-188 | with the expansion of the reached nodes blanked out, the toggled forest equals the original: no other node and no other field changes, at any depth. A reached node has the key and no node with the key above it. |
| TreeView.ToggleNodeChangesOnlyReached | src/webparts/treeView/components/TreeView.tsx:179-187 | the same for one subtree |
| TreeView.ToggleFlipsReached | src/webparts/treeView/components/TreeView.tsx:178-188 | the reached nodes of the result are the reached nodes of the input, in the same order, each with its expansion flipped |
| TreeView.ToggleNodeFlipsReached | src/webparts/treeView/components/TreeView.tsx:179-187 | the same for one subtree |
| TreeView.FlippedAppend | src/webparts/treeView/components/TreeView.tsx:178-188 | flipping a concatenation of node lists flips each part |
| TreeView.AddChildrenChangesOnlyReached | src/webparts/treeView/components/TreeView.tsx:191-201 | with the children lists of the reached nodes blanked out, the result equals the original: no other node and no other field changes, at any depth |
| TreeView.AddChildrenToChangesOnlyReached | src/webparts/treeView/components/TreeView.tsx:192-200 | the same for one subtree |
| TreeView.AddChildrenSetsReached | src/webparts/treeView/components/TreeView.tsx:191-201 | the reached nodes of the result are the reached nodes of the input, in order, each with exactly the new children |
| TreeView.AddChildrenToSetsReached | src/webparts/treeView/components/TreeView.tsx:192-200 | the same for one subtree |
| TreeView.WithChildrenAppend | src/webparts/treeView/components/TreeView.tsx:191-201 | setting the children on a concatenation of node lists sets them on each part |
| TreeView.ToggleAbsentKey | src/webparts/treeView/components/TreeView.tsx:178-188 | toggling a key that no node carries returns the forest unchanged |
| TreeView.ToggleNodeAbsentKey | src/webparts/treeView/components/TreeView.tsx:179-187 | toggling a key absent from a subtree returns the subtree unchanged |
| TreeView.AddChildrenAbsentKey | src/webparts/treeView/components/TreeView.tsx:191-201 | attaching under a key that no node carries returns the forest unchanged |
| TreeView.AddChildrenToAbsentKey | src/webparts/treeView/components/TreeView.tsx:192-200 | the same for one subtree |
| TreeView.ToggleTwiceRestores | src/webparts/treeView/components/TreeView.tsx:178-188 | when every node with the key has its expansion defined, toggling twice gives back the same forest, children lists included |
| TreeView.ToggleNodeTwiceRestores | src/webparts/treeView/components/TreeView.tsx:179-187 | the same for one subtree |
| TreeView.ToggleTwiceRestoresView | src/webparts/treeView/components/TreeView.tsx:178-188 | with no precondition, toggling twice restores every node's expanded/collapsed state and all other fields of the tree (undefined and false are both collapsed) |
| TreeView.ToggleNodeTwiceRestoresView | src/webparts/treeView/components/TreeView.tsx:179-187 | the same for one subtree |
| TreeView.FindAfterToggle | src/webparts/treeView/components/TreeView.tsx:155-159 | looking up the toggled key after the toggle finds the node found before, with its expansion flipped |
| TreeView.FindInNodeAfterToggle | src/webparts/treeView/components/TreeView.tsx:155-159 | the same for one subtree |
| TreeView.FindAfterAddChildren | src/webparts/treeView/components/TreeView.tsx:165 | looking up the parent key after attaching finds the node found before, now with the new children |
| TreeView.FindInNodeAfterAddChildren | src/webparts/treeView/components/TreeView.tsx:165 | the same for one subtree |
| TreeView.ToggleKeepsPreorderKeys | src/webparts/treeView/components/TreeView.tsx:178-188 | toggling keeps the pre-order listing's length and the key at every position |
| TreeView.ToggleNodeKeepsPreorderKeys | src/webparts/treeView/components/TreeView.tsx:179-187 | the same for one subtree |
| TreeView.Extension | src/webparts/treeView/components/TreeView.tsx:131 | definition: the lower-cased text after the last `.`; its laws are GetFileIconIgnoresCase and GetFileIconUsesLastDot |
| TreeView.GetFileIcon | src/webparts/treeView/components/TreeView.tsx:130-148 | definition: the table applied to the extension; its laws are IconForExtension, DocumentIsTheFallback and the two lemmas below |
| TreeView.DocumentIsTheFallback | src/webparts/treeView/components/TreeView.tsx:146 | `Document` is returned exactly for the extensions outside the thirteen listed cases |
| TreeView.IconForExtension | src/webparts/treeView/components/TreeView.tsx:132-147 | the icon is from the fixed set, and for each icon the result is that icon exactly when the extension is one of its cases; anything else gives `Document` |
| TreeView.GetFileIconIgnoresCase | src/webparts/treeView/components/TreeView.tsx:131 | the icon of a file name does not depend on letter case |
| TreeView.GetFileIconUsesLastDot | src/webparts/treeView/components/TreeView.tsx:131 | only the text after the last dot decides the icon (`a.b.pdf` is a PDF) |
| TreeView.IsDocumentLibrary | src/webparts/treeView/components/TreeView.tsx:64 | definition of the client-side test `BaseTemplate === 101 && !Hidden`; LibraryNodes states that exactly the lists passing it become nodes, in order |
| TreeView.LibraryNode | src/webparts/treeView/components/TreeView.tsx:67-75 | definition of the pushed library node; its contents are stated by LibraryNodes |
| TreeView.LibraryNodes | src/webparts/treeView/components/TreeView.tsx:60-78 | every built node is a collapsed folder with an empty children list and the library icon, built from a list that is a visible document library (template 101), and every such list yields its node |
| TreeView.LibraryNodesAppend | src/webparts/treeView/components/TreeView.tsx:63-77 | the filter keeps the lists' order: building over a concatenation is the concatenation of the builds |
| TreeView.BuildLibraryNodes | src/webparts/treeView/components/TreeView.tsx:60-78 | the `for`/`push` loop returns the library-node list of the fetched lists |
| TreeView.FolderNode | src/webparts/treeView/components/TreeView.tsx:99-107 | definition of a subfolder node; FolderNodesLayout states that it is a collapsed folder with an empty children list |
| TreeView.FileNode | src/webparts/treeView/components/TreeView.tsx:112-119 | definition of a file node; FolderNodesLayout states that it opens at its server-relative URL and has no children list |
| TreeView.SubfolderNodes | src/webparts/treeView/components/TreeView.tsx:98-108 | the first loop: one folder node per subfolder, in order; FolderNodes and FolderNodesLayout place them first |
| TreeView.FileNodes | src/webparts/treeView/components/TreeView.tsx:111-120 | the second loop: one file node per file, in order; FolderNodes and FolderNodesLayout place them after the folders |
| TreeView.FolderNodes | src/webparts/treeView/components/TreeView.tsx:98-120 | one node per subfolder then one per file. A node is a folder exactly when it comes from the subfolders, and each node is built from its record. |
| TreeView.FolderNodesLayout | src/webparts/treeView/components/TreeView.tsx:98-120 | no folder follows a file. Subfolders are collapsed with empty children, and files open at their server-relative URL and have no children list. |
| TreeView.FetchedNodes | src/webparts/treeView/components/TreeView.tsx:89-127 | definition of the returned list: the folder nodes of the contents, or nothing when the request fails |
| TreeView.GetFolderContents | src/webparts/treeView/components/TreeView.tsx:89-127 | the two loops return the folder nodes of the fetched contents, and a failed request returns the empty list |
| TreeView.NeedsChildren | src/webparts/treeView/components/TreeView.tsx:161 | definition of the fetch condition; CollapseKeepsChildren and ExpandLoadsChildren state its effect |
| TreeView.CollapseKeepsChildren | src/webparts/treeView/components/TreeView.tsx:155-161 | clicking an expanded folder collapses it, keeps its children and fetches nothing |
| TreeView.ExpandLoadsChildren | src/webparts/treeView/components/TreeView.tsx:155-167 | clicking a collapsed, never-loaded folder with a URL triggers the fetch, and the node ends expanded with exactly the fetched children |
| TreeView.TreeViewComponent.constructor | src/webparts/treeView/components/TreeView.tsx:33-42 | the initial state: empty tree, loading, no error |
| TreeView.TreeViewComponent.LoadDocumentLibraries | src/webparts/treeView/components/TreeView.tsx:50-85 | loading ends false. On success the tree is the library nodes and the error is empty. On failure the tree is kept and the error is the fixed message. |
| TreeView.TreeViewComponent.HandleNodeClick | src/webparts/treeView/components/TreeView.tsx:151-174 | a file click changes no state and returns its URL when set. A folder click toggles, then looks the key up again; when the node is now expanded with an empty children list and a URL, the fetched nodes are attached and loading ends false; otherwise the tree is the toggled tree. |
| WebPart.LibraryOptions | src/webparts/treeView/TreeViewWebPart.ts:81-98 | one option per library keyed by its root folder URL with its title; a failed request gives the single `error` option |
| WebPart.FindOptionText | src/webparts/treeView/TreeViewWebPart.ts:198-205 | undefined exactly when no option has the key, otherwise the text of the first option that has it |
| WebPart.SelectedLibraryTitle | src/webparts/treeView/TreeViewWebPart.ts:197-205 | choosing a library URL stores the title of the first library with that root folder, and undefined when none has it |
| WebPart.AllowedFields | src/webparts/treeView/TreeViewWebPart.ts:132-133 | definition of the filter; its laws are AllowedFieldsMembers and AllowedFieldsPrefix |
| WebPart.AllowedFieldsMembers | src/webparts/treeView/TreeViewWebPart.ts:118-133 | the kept fields are exactly the fetched fields whose type is one of the eleven allowed types, and there are no more of them than fetched fields |
| WebPart.AllowedFieldsPrefix | src/webparts/treeView/TreeViewWebPart.ts:133 | filtering one more field appends it exactly when its type is allowed |
| WebPart.SuffixTests | src/webparts/treeView/TreeViewWebPart.ts:137-146 | the character tests used for the suffixes agree with `endsWith("0")` and `endsWith("_0")` |
| WebPart.CorrectInternalName | src/webparts/treeView/TreeViewWebPart.ts:135-152 | reference definition of the corrected name; its cases are CorrectInternalNameCases and CorrectName proves the statements compute it |
| WebPart.CorrectInternalNameCases | src/webparts/treeView/TreeViewWebPart.ts:135-152 | names of other types, or not ending in `0`, are unchanged. A Lookup or ManagedMetadata name loses its `_0` suffix, or else its trailing `0`. |
| WebPart.CorrectName | src/webparts/treeView/TreeViewWebPart.ts:135-152 | the statements that overwrite `correctedInternalName` compute the corrected name |
| WebPart.ColumnEntry | src/webparts/treeView/TreeViewWebPart.ts:154-157 | definition of the stored value: the type and `LookupField || "Title"` |
| WebPart.ColumnOption | src/webparts/treeView/TreeViewWebPart.ts:159-162 | definition of the option built per field: the corrected name as key and the title as text; ColumnOptionsOfFields and OptionKeysAreMapKeys state its laws |
| WebPart.ColumnOptions | src/webparts/treeView/TreeViewWebPart.ts:159-162 | definition of the options, one per allowed field; ColumnOptionsOfFields and OptionKeysAreMapKeys state their laws |
| WebPart.ColumnTypesMap | src/webparts/treeView/TreeViewWebPart.ts:131-157 | definition of the map as the writes in order; ColumnTypesMapKeys and ColumnTypesMapLastWins state its laws |
| WebPart.ColumnTypesMapKeys | src/webparts/treeView/TreeViewWebPart.ts:131-157 | the map's keys are exactly the corrected names of the allowed fields |
| WebPart.ColumnTypesMapLastWins | src/webparts/treeView/TreeViewWebPart.ts:154-157 | a corrected name maps to the type and lookup field (`Title` when empty) of the last field with that name |
| WebPart.BuildColumnOptions | src/webparts/treeView/TreeViewWebPart.ts:131-163 | the filter-then-map pass with its step-by-step name correction yields the options and the type map of the allowed fields |
| WebPart.ColumnOptionsSnoc | src/webparts/treeView/TreeViewWebPart.ts:134-163 | one more allowed field appends its option and overwrites its corrected name in the type map |
| WebPart.OptionKeysAreMapKeys | src/webparts/treeView/TreeViewWebPart.ts:154-162 | every option key is a key of the type map, and every map key is some option's key |
| WebPart.ColumnOptionsOfFields | src/webparts/treeView/TreeViewWebPart.ts:133-163 | every column option is the option of one of the allowed fields |
| WebPart.OfferedColumnsAreAllowedFields | src/webparts/treeView/TreeViewWebPart.ts:165-168 | after the placeholder is put first and the safe filter applied, every offered option is the option of a fetched field of an allowed type |
| WebPart.ColumnTypesOfDistinctKeys | src/webparts/treeView/TreeViewWebPart.ts:154-157 | with distinct corrected names, each option's key maps to its own field's type and lookup field |
| WebPart.SafeColumnKey | src/webparts/treeView/TreeViewWebPart.ts:272-275 | definition of the filter's test |
| WebPart.SafeColumnOptions | src/webparts/treeView/TreeViewWebPart.ts:271-276 | an option is kept exactly when its key is not `error`, not empty and not the not-found message |
| WebPart.SafeColumnOptionsAppend | src/webparts/treeView/TreeViewWebPart.ts:271-276 | the filter keeps order and repeats: filtering a concatenation is the concatenation of the filtered parts |
| WebPart.SafeColumnOptionsSingle | src/webparts/treeView/TreeViewWebPart.ts:271-276 | one option is kept exactly when its key is safe; with the append law this fixes the filtered list |
| WebPart.DisableColumnDropdowns | src/webparts/treeView/TreeViewWebPart.ts:265-269 | definition of `disableColumnDropdowns` |
| WebPart.GetPropertyPaneConfiguration | src/webparts/treeView/TreeViewWebPart.ts:264-321 | the library dropdown is disabled exactly when there are no library options. Column 1 is enabled exactly when a library is selected and the options are more than a lone placeholder. Columns 2 and 3 also need columns 1 and 2 to be set. All three share the safe options as choices. Each dropdown writes its own property (`selectedLibraryUrl`, `metadataColumn1` to `metadataColumn3`) and carries its translated label. |
| WebPart.ListFound | src/webparts/treeView/TreeViewWebPart.ts:111 | definition of `currentList && currentList.Id`; OnPropertyPaneConfigurationStart states what each outcome of the test does |
| WebPart.RenderPaths | src/webparts/treeView/TreeViewWebPart.ts:214-220 | definition of the five paths that re-render; OnPropertyPaneFieldChanged ensures the re-render happens exactly for them |
| WebPart.TreeViewWebPart.constructor | src/webparts/treeView/TreeViewWebPart.ts:43-47 | the option fields and the type map start empty |
| WebPart.TreeViewWebPart.OnPropertyPaneConfigurationStart | src/webparts/treeView/TreeViewWebPart.ts:81-187 | library options as above. No selection gives the select-first placeholder. A failed lookup or field request gives the `error` option. A missing list or `Id` gives the not-found placeholder. Otherwise it gives the no-column placeholder followed by the column options, with the type map rebuilt. The map is untouched on every other path. |
| WebPart.TreeViewWebPart.OnPropertyPaneFieldChanged | src/webparts/treeView/TreeViewWebPart.ts:190-223 | a changed library stores the matching title, clears the three columns and asks for an options reload, which leaves columns 2 and 3 disabled; no other change touches the properties; exactly the five listed paths re-render |
| I18n.IsLang | src/utils/getTranslations.ts:8-10 | definition of `isLang` |
| I18n.SourceList | src/utils/getTranslations.ts:14 | definition of the list the candidates come from |
| I18n.FirstLang | src/utils/getTranslations.ts:20-23 | definition of the `for` loop over the candidates; FirstLangOfCandidates ties it to the reference |
| I18n.BaseTag | src/utils/getTranslations.ts:21 | definition of `split("-")[0]` as BeforeFirst with `-`; BeforeFirstIsPrefix, BeforeFirstOfPrefix and LowerBeforeFirst state its laws, and GetUserLanguageFirstSupported states the chosen language as the base tag of the first supported candidate |
| I18n.ToLang | src/utils/getTranslations.ts:8-10 | a code that passes `isLang` names a language with that code |
| I18n.IsLangExactly | src/utils/getTranslations.ts:4-10 | `isLang` holds exactly for the codes of the table's languages |
| I18n.Candidates | src/utils/getTranslations.ts:13-17 | no candidate is empty |
| I18n.FirstSelectedNone | src/utils/getTranslations.ts:19-25 | the reference search finds no language exactly when no tag's lower-cased primary subtag is supported |
| I18n.FirstSelectedIsFirst | src/utils/getTranslations.ts:19-23 | otherwise it finds the language of the first tag whose subtag is supported |
| I18n.FirstLangOfCandidates | src/utils/getTranslations.ts:13-23 | dropping empty entries and lower-casing before the loop selects the same language as the reference |
| I18n.GetUserLanguage | src/utils/getTranslations.ts:12-26 | definition of `getUserLanguage`; its law is GetUserLanguageFirstSupported |
| I18n.GetUserLanguageFirstSupported | src/utils/getTranslations.ts:12-26 | over `languages` when non-empty, else `[language]`: the first tag whose primary subtag is `pt` or `es` (any case) decides, and Portuguese otherwise |
| I18n.NoCandidateFallsBackToPt | src/utils/getTranslations.ts:25 | no matching tag, or no language at all, gives Portuguese |
| I18n.BrowserOrderDecides | src/utils/getTranslations.ts:19-23 | worked example: `ES-mx` before `pt-BR` selects Spanish |
| I18n.UnsupportedTagIsSkipped | src/utils/getTranslations.ts:20-23 | worked example: `en-US, pt-BR, es` skips English and selects Portuguese |
| I18n.SingleLanguageFallback | src/utils/getTranslations.ts:14 | worked example: an empty list falls back to `navigator.language`: `es-AR` selects Spanish |
| I18n.GetTranslations | src/utils/getTranslations.ts:28-30 | the result is one of the two bundles |
| I18n.TranslationTable.Bundle | src/utils/getTranslations.ts:29 | definition of the `TRANSLATIONS[lang]` lookup; GetTranslationsSelectsBundle states which bundle is returned |
| I18n.GetTranslationsSelectsBundle | src/utils/getTranslations.ts:28-30 | the result is the bundle of the selected language, with the Portuguese bundle as the fallback |
| CssInjector.IsAbsoluteUrl | src/utils/localCssInjector.ts:17 | definition of the `/^https?:\/\//i` test over the lower-cased path |
| CssInjector.RootPath | src/utils/localCssInjector.ts:21 | definition of `startsWith("/")` as a test of the first character; RootPathIsStartsWith states that the two agree |
| CssInjector.RootPathIsStartsWith | src/utils/localCssInjector.ts:21-27 | the first-character test agrees with `startsWith("/")` |
| CssInjector.RootRelative | src/utils/localCssInjector.ts:27 | the result begins with `/`, adding one only when the path lacks it |
| CssInjector.JoinWebPath | src/utils/localCssInjector.ts:21-25 | definition of the joined path; JoinedUnderWeb states where the web's URL and the path sit in it, and ResolveCssUrlCases how it enters the final URL |
| CssInjector.JoinedUnderWeb | src/utils/localCssInjector.ts:24 | a path not at the root joins the web: the web's URL starts the result, `/` + path ends it, and exactly one `/` lies between the web's URL without its trailing `/` and the path |
| CssInjector.ResolveCssUrl | src/utils/localCssInjector.ts:16-28 | definition of `finalUrl`; its laws are ResolveCssUrlCases, ResolveStep and the lemmas below |
| CssInjector.ResolveCssUrlCases | src/utils/localCssInjector.ts:16-28 | an `http(s)://` URL (any case) is unchanged. A root path goes right after the origin with its trailing `/` removed. Any other path goes after the origin and the root-relative web path. Every relative result starts with origin + `/`. |
| CssInjector.PrefixThenSlash | src/utils/localCssInjector.ts:27 | a root-relative tail after the origin makes the URL start with origin + `/` |
| CssInjector.ResolveStep | src/utils/localCssInjector.ts:18-28 | the reassignments of `finalUrl` compute the resolved URL |
| CssInjector.ResolveEndsWithPath | src/utils/localCssInjector.ts:24-27 | a path not starting with `/` ends the resolved URL, after `/` |
| CssInjector.ResolveUnderWeb | src/utils/localCssInjector.ts:19-27 | under a root-relative or empty web URL the path follows origin + web + `/`. Under any other web URL one `/` is put before the web. |
| CssInjector.LowerPrefix | src/utils/localCssInjector.ts:17 | lower-casing a concatenation lower-cases each part, so the case-blind scheme test sees the origin's scheme |
| CssInjector.ResolveIsIdempotent | src/utils/localCssInjector.ts:17-28 | with an absolute origin the resolved URL is absolute, so resolving it again changes nothing |
| CssInjector.AbsoluteExamples | src/utils/localCssInjector.ts:17 | worked example, not a law: `HTTPS://…` is absolute and `/sites/…` is not |
| Text.ToLower | src/utils/getTranslations.ts:17 | `toLowerCase` keeps the length and lower-cases each character |
| Text.BeforeFirst | src/utils/getTranslations.ts:21 | definition of `split(c)[0]`; its laws are BeforeFirstIsPrefix and BeforeFirstOfPrefix |
| Text.AfterLast | src/webparts/treeView/components/TreeView.tsx:131 | definition of `split(c).pop()`; its laws are AfterLastIsSuffix and AfterLastOfSuffix |
| Text.BeforeFirstIsPrefix | src/utils/getTranslations.ts:21 | `split("-")[0]` is a prefix without `-`, and is followed by `-` unless it is the whole tag |
| Text.BeforeFirstOfPrefix | src/utils/getTranslations.ts:21 | the text before the first `-` of `x-y` is `x` when `x` has no `-` |
| Text.LowerBeforeFirst | src/utils/getTranslations.ts:17-21 | lower-casing before or after cutting at `-` gives the same primary subtag |
| Text.AfterLastIsSuffix | src/webparts/treeView/components/TreeView.tsx:131 | `split('.').pop()` is a suffix without `.`, and is preceded by `.` unless it is the whole name |
| Text.AfterLastOfSuffix | src/webparts/treeView/components/TreeView.tsx:131 | the text after the last `.` of `x.y` is `y` when `y` has no `.` |
| Text.AfterLastWithoutSeparator | src/webparts/treeView/components/TreeView.tsx:131 | a name without `.` is its own extension |
| Text.LowerAfterLast | src/webparts/treeView/components/TreeView.tsx:131 | lower-casing before or after cutting at `.` gives the same extension |
| Text.ToLowerIdempotent | src/webparts/treeView/components/TreeView.tsx:131 | lower-casing twice is lower-casing once |
| Text.StripTrailingSlash | src/utils/localCssInjector.ts:24-26 | the input loses its last character exactly when that character is `/`, and is otherwise unchanged |
| CssInjector.CssHost.Flagged | src/utils/localCssInjector.ts:14 | definition: `w.__cssFlags[key]` is truthy |
| CssInjector.CssHost.Valid | src/utils/localCssInjector.ts:13-55 | definition of the kept invariant: no key loads twice and every loaded key is flagged |
| CssInjector.CssHost.constructor | src/utils/localCssInjector.ts:13 | an empty flag dictionary and no loads, in a valid state |
| CssInjector.CssHost.InjectCssOnce | src/utils/localCssInjector.ts:6-40 | an empty path or a flagged key changes nothing. Otherwise the key is flagged. A URL already linked loads nothing, and any other URL is loaded once. The key defaults to `treeview_css_injected`. The invariant "no key loads twice, every loaded key is flagged" is kept. |
| CssInjector.CssHost.InjectCssStringOnce | src/utils/localCssInjector.ts:43-56 | empty text or a flagged key changes nothing. Otherwise the text is loaded and the key flagged, and the same invariant is kept. The key defaults to `treeview_css_string_injected`. |
| CssInjector.LoadsOncePerKey | src/utils/localCssInjector.ts:13-55 | Valid restated as a count: under the invariant, at most one loader call carries any given key |

## Left out

- Rendering. `render`, `renderTreeNodes`, JSX, styles, icon initialisation and the loading/error display are UI code.
- `onInit`, `onThemeChanged`, `onDispose`, `dataVersion` and the commented-out environment message. These are framework wiring.
- `IframePreview`, `PropertyPaneAsyncButton`, `ITreeViewProps` and the configuration service. They are outside the modelled core.
- The JSON contents of the `pt` and `es` bundles are not part of this model. `GetTranslations` takes the table as a parameter.
- The `console.log` lines at module load in `getTranslations.ts`. They are console output.
- Network calls. The library list, folder contents, list lookup and field request are inputs. A rejected promise is `None`. The OData filters applied on the server are assumed to have been applied to these inputs: `BaseTemplate eq 101 and Hidden eq false` on the web part's library request (src/webparts/treeView/TreeViewWebPart.ts:84), the `RootFolder/ServerRelativeUrl` match on the list lookup (:105) and `Hidden eq false and ReadOnlyField eq false` on the field request (:114). The tree component's library request has no server filter, and its client-side filter (`BaseTemplate === 101 && !Hidden`) is modelled.
- TreeView.TreeViewComponent.HandleNodeClick: runs the click as one atomic step. `setState` batching, and state changes from other events during the `await`, are not modelled. The intermediate `loading: true` is set and then cleared inside the method, so only the final state is visible.
- TreeView.TreeViewComponent.LoadDocumentLibraries: the brief `loading: true, error: ""` before the request is likewise only visible mid-call.
- `window.open(url, '_blank')` is an output, the URL returned by `HandleNodeClick`.
- WebPart.TreeViewWebPart.OnPropertyPaneFieldChanged: the framework writes the new value into the property before the handler runs, and that write is not modelled. The reload call is returned as a flag, and its asynchronous completion is a separate call of `OnPropertyPaneConfigurationStart`.
- WebPart.TreeViewWebPart.OnPropertyPaneConfigurationStart: `propertyPane.refresh()` is not modelled. Nor is a failure that could happen between requests, other than the requests themselves.
- `render` passes `_columnTypesMap` to the component. Since rendering is out, so is that hand-off. The persisted `metadataColumnTypes` property is never written by the source and is not modelled.
- Lower-casing. `toLowerCase` is modelled on ASCII letters only. Non-ASCII letters in language tags or file extensions are outside the model.
- The `label` field of a node and of a dropdown is named `caption`, because `label` is a reserved word in Dafny.
- CssInjector.CssHost: `w.__cssFlags || {}` is modelled as a dictionary that always exists. A value other than `true` put there by other code is read by truthiness (`Flagged`) but never written. The `_spPageContextInfo` lookup is an input string that is empty when missing. The document's stylesheet `href`s are an input sequence of already-resolved URLs.
- Keys that name members of `Object.prototype` are not modelled. In the source, `w.__cssFlags["toString"]` on an empty object is an inherited function and therefore truthy, and writing `_columnTypesMap["__proto__"]` replaces the prototype instead of adding an entry. `CssHost.Flagged` and `ColumnTypesMap` treat every key as an ordinary dictionary key.
- The `key` recorded with each entry of the `CssHost` load log is a modelling device for stating "at most once per key". The loaders themselves receive only the URL or the text.
