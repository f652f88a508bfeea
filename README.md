# AI UI builder: session, views and component props, in Dafny

This project models the front end of a UI builder. The user describes an interface
in the chat. A generation backend returns markup written with a fixed set of
components. The preview panel renders that markup live or shows its source. Every
generation is kept in a version list, and the user can roll back to any earlier version.

The model covers:

- **The session** (`session.dfy`, module `Session`). It holds four cells: the chat
  messages, the versions, the current-version index and the loading flag. `App` is a
  class, and its methods are the submit, rollback and clear handlers. A submit awaits
  the generation call, so it is split in two. `BeginSubmit` appends the user's message,
  sets loading and returns a `Snapshot` of what the handler's closure captured: the
  version count and the request. `CompleteSubmit(snap, outcome)` applies the response
  or the failure. Rollback and clear can run between the two halves, because the UI
  allows it. The class invariant `Valid()` holds in every case: the index is -1 exactly
  when there are no versions, and otherwise it is in range.
- **The chat panel** (`chat_panel.dfy`, module `Chat`): the input state with the submit
  guard, the send-button rule and the message list.
- **The version list** (`version_history.dfy`, module `History`): its rows, its labels,
  the Active mark and the rollback buttons.
- **The preview panel** (`preview_panel.dfy`, module `Preview`): the tab and
  "copied" state, the source handed to the live renderer, the scope it resolves names
  against, and the source view.
- **The component registry** (`ui_registry.dfy`): the closed set of ten names.
- **Prop resolution** for each component (`ui_*.dfy`): defaults, lookup tables, the
  fallbacks for unrecognised enum values, Grid's column clamp and Table's placeholder
  `colSpan`. Enum props are datatypes with a name and a parse function. Class names
  are constants. The properties say which table entry or branch is chosen.
- **Records** (`types.dfy`): messages, versions, requests and responses. Helpers
  (`strings.dfy`) model JavaScript's `trim`, the rendering of a number in a template
  literal, and `join`.

Identifiers and timestamps (`crypto.randomUUID`, `Date.now`) are passed in as `Stamp`
parameters. The generation call is an abstract `GenerateOutcome`: a response, or a
thrown value with or without a message.

### Behaviour of the code worth knowing

- Neither trimming nor the single-flight guard is done by the submit handler. Both are
  done by its only caller, the chat panel (`ChatPanel.tsx:26-27`). So
  `Session.App.BeginSubmit` requires `!isLoading`, and `Session.SubmitFromChat` shows
  that the chat panel's guard meets this requirement. The index update trusts the
  version count captured when the submit began. Without the guard, two overlapping
  submits would complete with a stale count. If nothing else happened in between,
  the later one leaves the index on the earlier one's version instead of its own
  (`Session.StaleCountMissesNewVersion`). If a clear ran in between, the index can
  end up past the end (`Session.StaleCountLeavesIndexOutOfRange`).
- Nothing discards a response that arrives after a clear. Clearing does not reset
  loading, so the late response is appended to the emptied history and becomes
  version 0 (`Session.ClearWhilePendingScenario`).
- After a generation, the new index is not computed as "length minus one". It is the
  captured count if the index is set, else 0 (`App.tsx:66-71`).
  `Session.NextIndexIsNewLast` shows that this is the new last index whenever the
  class invariant holds.
- The code has no markup interpreter and no diagnostics of its own. It hands the
  source and the scope to a foreign JSX compiler.

## Model

| member | source | states |
|---|---|---|
| `Strings.TrimStart` | src/components/ChatPanel.tsx:26 | the result is a suffix of the input, all it drops is white space, and it does not start with white space |
| `Strings.TrimEnd` | src/components/ChatPanel.tsx:26 | the result is a prefix of the input, all it drops is white space, and it does not end with white space |
| `Strings.Trim` | src/components/ChatPanel.tsx:26 | the result is no longer than the input and has no white space at either end |
| `Strings.TrimIsCentralSlice` | src/components/ChatPanel.tsx:26 | `trim` returns a slice of the input, with only white space cut from either side and none left at either end |
| `Strings.TrimEmptyIffAllSpace` | src/components/ChatPanel.tsx:26-27 | the trimmed input is empty exactly when the input is all white space |
| `Strings.TrimOfTrimmed` | src/components/ChatPanel.tsx:26 | trimming a string with no white space at its ends leaves it unchanged |
| `Strings.TrimIdempotent` | src/components/ChatPanel.tsx:26 | trimming twice is trimming once |
| `Strings.NatToString` | src/components/VersionHistory.tsx:51 | a number renders as a non-empty string of digits with no leading zero |
| `Strings.NatToStringRoundTrip` | src/components/VersionHistory.tsx:51 | the rendered digits read back as the same number |
| `Strings.NatToStringInjective` | src/components/VersionHistory.tsx:51 | different version numbers render differently |
| `Strings.Join` | src/App.tsx:87 | joining no parts gives "", and joining one part gives that part |
| `Strings.JoinSnoc` | src/App.tsx:87 | joining one more part appends the separator and then that part, so the parts appear in order, each pair separated by the separator |
| `Session.IndexOk` | src/App.tsx:20-31 | the index is valid exactly when it names a current version, or it is -1 on an empty history; under it, there is no current version exactly when the history is empty |
| `Session.CurrentVersion` | src/App.tsx:28-31 | there is a current version exactly when 0 <= index < the version count, and it is `versions[index]` |
| `Session.PreviewCode` | src/App.tsx:150 | the preview gets the current version's code, or "" when there is none |
| `Session.RequestFor` | src/App.tsx:46-50 | the request carries the prompt; the code is null when there is no version or its code is empty; the blueprint is null when there is no version or it has none |
| `Session.NextIndex` | src/App.tsx:66-71 | after a success the index is the version count captured when the submit began if the index read at completion is set, otherwise 0; it is never derived from the history's current length |
| `Session.NextIndexIsNewLast` | src/App.tsx:66-71 | if the captured count is still the history length, or the index was reset to -1 on an empty history, the index update points at the appended version |
| `Session.StaleCountLeavesIndexOutOfRange` | src/App.tsx:66-71 | for any captured count larger than the history, with the index set, the update leaves the index past the end of the extended history |
| `Session.StaleCountMissesNewVersion` | src/App.tsx:66-71 | for any captured count smaller than the history, with the index in range, the update stays in range but does not point at the appended version |
| `Session.ErrorText` | src/App.tsx:96 | the failure notice is the fixed prefix followed by the error's message, or by the fixed fallback text when the thrown value has no message |
| `Session.SafetyText` | src/App.tsx:87 | the safety notice is the fixed prefix followed by the violations joined by single spaces |
| `Session.RollbackText` | src/App.tsx:115 | the rollback notice is the fixed prefix, then decimal digits with no leading zero that read as index+1, then `: "` followed by the prompt and a closing quote |
| `Session.RollbackTextInjective` | src/App.tsx:115 | rolling back to different versions with the same prompt gives different notices |
| `Session.ReplyMessages` | src/App.tsx:73-91 | a success adds an assistant message with the explanation, plus a system safety notice exactly when the violations are non-empty |
| `Session.App.constructor` | src/App.tsx:12-26 | the three stored cells start at `[]`, `[]` and -1, loading starts false, and the invariant holds |
| `Session.App.ValidPendingLandsOnNewVersion` | src/App.tsx:62-71 | under the class invariant `Valid()` (a valid index, a pending submit exactly while loading, and its captured count still the history length unless a clear reset the index to -1), a pending submit completing now puts the index on the version it appends |
| `Session.App.BeginSubmit` | src/App.tsx:33-50 | appends exactly one user message with the content, sets loading, leaves versions and index alone, and captures the version count and the request built from the current version |
| `Session.App.CompleteSubmit` | src/App.tsx:52-102 | on success: appends one version at the physical end, with code, blueprint and explanation from the response and the submitted prompt, leaving earlier versions unchanged; the index becomes that last position, so the preview shows the response's code. On failure: appends only the error notice, and versions and index are unchanged. Loading is false either way, and the invariant is kept |
| `Session.App.Rollback` | src/App.tsx:107-121 | sets the index to the given in-range index, leaves versions untouched, makes the preview show that version's code, and appends one system notice whose text is `Session.RollbackText(index, prompt)`; allowed while a request is pending |
| `Session.App.ClearHistory` | src/App.tsx:123-127 | empties messages and versions and sets the index to -1, leaving the loading flag (and any pending request) as it was |
| `Session.SubmitFromChat` | src/App.tsx:134-138 | a chat submit that passes the panel's guard begins a generation with the trimmed, non-empty prompt; any other submit changes neither the chat nor the session |
| `Chat.SendDisabled` | src/components/ChatPanel.tsx:120 | the send button is disabled exactly when loading or when the input is all white space |
| `Chat.ChatPanel.constructor` | src/components/ChatPanel.tsx:16 | the input starts empty |
| `Chat.ChatPanel.Change` | src/components/ChatPanel.tsx:113 | typing replaces the input text |
| `Chat.ChatPanel.HandleSubmit` | src/components/ChatPanel.tsx:24-30 | nothing is sent, and the input is unchanged, exactly when the button would be disabled; otherwise the trimmed, non-empty text is sent once and the input is cleared |
| `Chat.RenderMessage` | src/components/ChatPanel.tsx:59-86 | user messages sit on the right with the user icon; assistant and system messages sit on the left with the bot icon; each has its own bubble style |
| `Chat.Render` | src/components/ChatPanel.tsx:45-98 | the empty-state hint shows exactly when there are no messages; there is one row per message in list order; the loading row shows, and the input is disabled, exactly while loading |
| `History.Label` | src/components/VersionHistory.tsx:51 | the row label is "v" followed by digits with no leading zero that read as idx+1, which fixes it to the decimal rendering |
| `History.LabelsDistinct` | src/components/VersionHistory.tsx:51 | different rows have different labels |
| `History.Row` | src/components/VersionHistory.tsx:38-70 | a row is Active exactly when idx equals the current index, offers rollback exactly when it is not Active, and shows its version's prompt |
| `History.Render` | src/components/VersionHistory.tsx:17-51 | renders nothing when there are no versions; otherwise the header count is the version count and there is one row per version, in order |
| `History.AtMostOneActive` | src/components/VersionHistory.tsx:39 | any two Active rows are the same row, at the current index, so no row is Active when the index is -1 |
| `History.ActiveRowIsCurrent` | src/components/VersionHistory.tsx:39 | under the session invariant, a non-empty list has its current row Active |
| `History.RollbackRequestsAreValid` | src/components/VersionHistory.tsx:62-64 | every rollback button passes an in-range index that is not the current one, which meets the precondition of `Session.App.Rollback` |
| `Preview.WrappedCode` | src/components/PreviewPanel.tsx:23 | empty code becomes the placeholder; non-empty code gets five more characters, opening with `<>` and closing with `</>` |
| `Preview.WrapRoundTrip` | src/components/PreviewPanel.tsx:23 | non-empty code is wrapped in a fragment and can be unwrapped back; empty code gives the placeholder, which is not a fragment |
| `Preview.WrappedCodeInjective` | src/components/PreviewPanel.tsx:23 | different code is never handed to the renderer as the same source |
| `Preview.Scope` | src/components/PreviewPanel.tsx:20 | the renderer's scope holds exactly the registry's names plus `React`, and none of the stack components |
| `Preview.PreviewPanel.constructor` | src/components/PreviewPanel.tsx:11-12 | the panel opens on the preview tab, with nothing copied |
| `Preview.PreviewPanel.SelectTab` | src/components/PreviewPanel.tsx:31-42 | a tab click sets only the active tab; the result depends on nothing but the tab clicked, so repeating the click changes nothing |
| `Preview.PreviewPanel.Copy` | src/components/PreviewPanel.tsx:14-16 | the clipboard receives the code unchanged exactly when the write is accepted, and then `copied` becomes true; a rejected write leaves `copied` as it was; the tab is kept either way |
| `Preview.PreviewPanel.CopyTimeout` | src/components/PreviewPanel.tsx:17 | the timer turns `copied` back to false |
| `Preview.PreviewPanel.Render` | src/components/PreviewPanel.tsx:54-79 | the copy button shows exactly on the code tab with non-empty code, labelled by `copied`; the preview tab renders the wrapped source with the scope; the code tab shows the code verbatim, or the fixed comment when there is none |
| `UiRegistry.Find` | src/components/ui/index.ts:35 | a lookup result is one of the given entries and has the name asked for; no result means no entry has that name |
| `UiRegistry.Lookup` | src/components/ui/index.ts:35-46 | a found component is registered and has the name asked for; nothing is found only when no registered component has that name |
| `UiRegistry.Keys` | src/components/ui/index.ts:35-46 | the keys are exactly the strings that resolve |
| `UiRegistry.IsRegistered` | src/components/ui/index.ts:35-46 | every component kind is in the registry |
| `UiRegistry.NameInjective` | src/components/ui/index.ts:35-46 | no two components share a key |
| `UiRegistry.LookupName` | src/components/ui/index.ts:35-46 | looking up a component's key returns that component |
| `UiRegistry.LookupSound` | src/components/ui/index.ts:35 | a string resolves exactly when it is some component's key, and it resolves to that component |
| `UiRegistry.LookupClosed` | src/components/ui/index.ts:35-46 | a string resolves exactly when it is one of the ten names Navbar, Sidebar, Container, Grid, Button, Input, Table, Card, Modal and Chart |
| `UiRegistry.ExportsMatchRegistry` | src/components/ui/index.ts:21-46 | the registry lists ten distinct components, and the re-export list names the same ten |
| `UiRegistry.StacksNotRegistered` | src/components/ui/index.ts:9-46 | HStack, VStack and Spacer do not resolve |
| `UiButton.ParseVariant` | src/components/ui/Button.tsx:10-21 | a string is a variant key exactly when it is one of the five variant names |
| `UiButton.ParseSize` | src/components/ui/Button.tsx:23-27 | a string is a size key exactly when it is one of the three size names |
| `UiButton.ResolveVariant` | src/components/ui/Button.tsx:30-38 | a named variant is used as given; an absent or unrecognised variant uses primary's classes |
| `UiButton.ResolveSize` | src/components/ui/Button.tsx:31-38 | a named size is used as given; an absent or unrecognised size uses md's classes |
| `UiButton.Render` | src/components/ui/Button.tsx:29-42 | the button uses the resolved variant and size; absent children become the text "Button" |
| `UiButton.ClassName` | src/components/ui/Button.tsx:38 | the class attribute is the base classes, then the variant's entry, then the size's entry, separated by single spaces |
| `UiButton.EntriesDistinct` | src/components/ui/Button.tsx:10-27 | each of the five variants and three sizes has its own class entry |
| `UiGrid.ParseGap` | src/components/ui/Grid.tsx:9-14 | a string is a gap key exactly when it is one of the four gap names |
| `UiGrid.Clamp` | src/components/ui/Grid.tsx:21 | the column count is always within 1..6: counts in range are kept, lower ones become 1, higher ones 6 |
| `UiGrid.ClampIdempotent` | src/components/ui/Grid.tsx:21 | clamping twice is clamping once |
| `UiGrid.ClampedHasClass` | src/components/ui/Grid.tsx:21-29 | every clamped count has a column class |
| `UiGrid.ResolveGap` | src/components/ui/Grid.tsx:18-32 | a named gap uses its entry; an absent gap means md; an unrecognised gap falls back to "gap-4", which is md's entry |
| `UiGrid.Render` | src/components/ui/Grid.tsx:16-35 | columns default to 2, are clamped into 1..6 and get that count's class; the gap is resolved as above |
| `UiContainer.ParseMaxWidth` | src/components/ui/Container.tsx:10-16 | a string is a width key exactly when it is one of the five width names |
| `UiContainer.ParsePadding` | src/components/ui/Container.tsx:18-23 | a string is a padding key exactly when it is one of the four padding names |
| `UiContainer.ResolveMaxWidth` | src/components/ui/Container.tsx:26-33 | a named width uses its entry; an absent width means lg; an unrecognised width falls back to "max-w-5xl", which is lg's entry |
| `UiContainer.ResolvePadding` | src/components/ui/Container.tsx:27-33 | a named padding uses its entry; an absent padding means md; an unrecognised padding falls back to "p-6", which is md's entry |
| `UiContainer.Render` | src/components/ui/Container.tsx:25-37 | "flex-1" is present exactly when `grow` is true (the default is false); width and padding are resolved as above |
| `UiCard.ParseVariant` | src/components/ui/Card.tsx:9-13 | a string is a variant key exactly when it is one of the three variant names |
| `UiCard.ResolveVariant` | src/components/ui/Card.tsx:17-21 | a named variant is used as given; an absent or unrecognised variant uses the default classes |
| `UiCard.Render` | src/components/ui/Card.tsx:15-28 | every card has "p-6"; the title heading appears exactly when the title is non-empty; the children go in the body |
| `UiCard.ClassName` | src/components/ui/Card.tsx:21 | the class attribute is the variant's entry, a space, then the padding |
| `UiTable.RowCells` | src/components/ui/Table.tsx:33-40 | a body row has one cell per entry, in order |
| `UiTable.Render` | src/components/ui/Table.tsx:6-57 | columns and data default to empty; the header row appears exactly when there are columns, one cell per column; there is one body row per data row; the "No data available" row appears exactly when there is no data, and its colSpan is the column count, or 1 when there are no columns |
| `UiSidebar.CompactText` | src/components/ui/Sidebar.tsx:26-29 | a compact entry shows the icon if it is non-empty, else the label's first character |
| `UiSidebar.DefaultText` | src/components/ui/Sidebar.tsx:31-34 | a default entry ends with the label and starts with the icon and a space exactly when the icon is non-empty |
| `UiSidebar.Render` | src/components/ui/Sidebar.tsx:11-40 | the width is "w-16" exactly when the variant is "compact", otherwise "w-60"; there is one entry per item, in order, using the layout's text |
| `UiNavbar.Render` | src/components/ui/Navbar.tsx:6-22 | the title defaults to "App" and is always rendered; the bar is dark exactly when the variant is "dark" |
| `UiNavbar.ClassName` | src/components/ui/Navbar.tsx:10-18 | the base classes always come first |
| `UiModal.Render` | src/components/ui/Modal.tsx:9-29 | nothing renders exactly when `open` is false (the default is true); otherwise the header shows the title (default "Modal") and the body holds the children |
| `UiInput.Render` | src/components/ui/Input.tsx:8-27 | type defaults to "text" and placeholder to "", and both are passed through unchanged; the label element appears exactly when the label is non-empty; the value becomes the initial value |
| `UiStack.ParseGap` | src/components/ui/Stack.tsx:11-16 | a string is a gap key exactly when it is one of the four gap names |
| `UiStack.ParseAlign` | src/components/ui/Stack.tsx:18-23 | a string is an align key exactly when it is one of the four align names |
| `UiStack.ParseJustify` | src/components/ui/Stack.tsx:25-30 | a string is a justify key exactly when it is one of the four justify names |
| `UiStack.Entries` | src/components/ui/Stack.tsx:34-36 | gap defaults to md, align to stretch and justify to start; named values use their entries; an unlisted value has no entry, with no fallback |
| `UiStack.HStack` | src/components/ui/Stack.tsx:32-46 | a row layout with the shared entries, "flex-wrap" exactly when `wrap` is true (the default is false), otherwise "flex-nowrap" |
| `UiStack.VStack` | src/components/ui/Stack.tsx:48-61 | a column layout with the same entries and defaults, and no wrap class |
| `UiStack.ClassName` | src/components/ui/Stack.tsx:41-56 | the class attribute is `flex flex-row` or `flex flex-col`, then the gap, align and justify entries (each "undefined" when it has none), then the wrap class if any, then `w-full` |
| `UiStack.Spacer` | src/components/ui/Stack.tsx:63-65 | the spacer takes no props and is always the same growing element: `flex-grow min-w-4 min-h-4` |

## Left out

- The generation call (`src/services/api.ts`) is an HTTP request with JSON decoding. The model takes its outcome as a parameter. A non-2xx status or a fetch error is a `Failed` outcome that carries the message. A payload that does not match `GenerateResponse` is not modelled.
- `Chart` (`src/components/ui/Chart.tsx`) is registered, but its rendering is not modelled. It is floating-point chart geometry.
- The live renderer (`react-live`) and its error display are a foreign JSX compiler. The model stops at the source string and the scope handed to it.
- Storage (`useLocalStorage`) is not modelled: the hook (`src/hooks/useLocalStorage`) is not part of this model. The three stored cells are plain fields with their defaults. The model assumes the hook's setters behave as `useState`'s do: a functional updater is applied to the latest value. The results about the index and about a clear while a submit is pending depend on this.
- An absent prop is `None`, and it takes the default. JavaScript default parameters apply only to `undefined`, so an explicit `null` prop skips them. For example, `<Grid columns={null}>` renders 1 column and `<Navbar title={null}>` renders an empty title. Such `null` props are not modelled.
- Identifiers and clock readings are `Stamp` parameters, so nothing says they are unique or non-decreasing.
- The clipboard write is the value `Copy` returns. Whether the browser accepts the write is a parameter. A rejected write leaves the rejection unhandled, and that is not modelled beyond `copied` staying as it was. The two-second timer is the separate `CopyTimeout` step, and nothing stops it from firing before a later copy.
- Scrolling to the newest message, icons, static texts and layout class names are not modelled.
- React's asynchronous scheduling is reduced to the two halves of a submit, with rollback and clear interleaved between them. The state updates run in the order the handler issues them.
- Session.App.BeginSubmit: requires `!isLoading`. The handler itself does not check this; its only caller, the chat panel, does. Without the requirement, overlapping submits complete with a stale captured count. The index then lands on an older version, or, when a clear ran in between, past the end.
- Session.App.Rollback: requires an in-range index, which is the only kind the version list passes. From code alone, an out-of-range index would move the index and then throw while reading `version.prompt`. That path is not modelled.
- UiButton.ResolveVariant, UiButton.ResolveSize, UiGrid.ResolveGap, UiContainer.ResolveMaxWidth, UiContainer.ResolvePadding, UiCard.ResolveVariant: a value that names a property inherited by every JavaScript object (`"toString"`, `"constructor"`) is treated as unrecognised. In the code such a lookup finds a function, and the function's text would end up in the class attribute.
- UiGrid.Render: `columns` is an integer. In the code, a fractional or non-numeric count would reach the column table without an entry and render "undefined".
- UiModal.Render: `open` is a boolean. In the code, other falsy values such as `0` also hide the modal.
- UiSidebar.CompactText: takes the label's first Unicode scalar value. JavaScript's `charAt(0)` takes the first UTF-16 code unit, which for a character outside the Basic Multilingual Plane is half of a surrogate pair.
- Button's `onClick` is passed through to the element unchanged and is not modelled.
