# Classroom dashboard: screens, widget records, drag and annotation history

This project models the engine of a single-page classroom dashboard (`script.js`) in Dafny
and proves what that engine does. A teacher keeps several named *screens*. Each screen is a
canvas of *widgets* (timers, polls, group makers, embedded pages and so on). The widgets can
be dragged by their header, and a drawing overlay keeps an undo history. The page is
persisted under two storage entries.

The model has these parts:

- `wrappers.dfy`: `Option`.
- `text.dfy` (module `Text`): the string work the script relies on.
  - Decimal text of integers: `toString` and `parseInt`.
  - `padStart`, `indexOf`/`includes`, `replace` of the first occurrence.
  - `split(',')` and `join(',')`.
- `codec.dfy` (module `Codec`): a widget element as a value.
  - The element holds its four inline geometry lengths, its content markup and its
    attributes.
  - How `el.dataset[key] = v` names the attribute, so a camelCase key is hyphenated.
  - The record `saveCurrentScreen` builds from an element.
  - `createWidget`'s geometry rule.
  - Registry entries (`Variant`): each widget constructor, abstracted to what the engine can
    observe. That is its type name, whether it takes the record, the dataset entries it
    writes, the content it produces and whether it saves while being built.
  - The source's own registry: keys, display names and which constructors take a record.
- `screens.dfy` (module `ScreenStore`): the screen collection.
  - Names are kept in insertion order. That is the order `Object.keys` lists them in, for
    names that are not array indices.
  - The names every object inherits from `Object.prototype`, which the add-screen check
    treats as taken.
  - The two storage entries it is persisted under.
- `model.dfy` (module `DashboardModel`): the page globals as one value `State`.
  - One function per handler describes the page after that handler.
  - The page invariant `Inv`, and one lemma per handler proving that the handler keeps it.
  - The page-load callback: `initScreens`, then the toolbar handlers, which exist only when
    `initScreens` returns without throwing.
  - The properties of the screen manager, the drag controller and the annotation history.
- `dashboard.dfy` (module `Dashboard`): class `Page`.
  - Its fields are the page globals, and it has one method per function or event handler.
  - Each method is proved to leave the page exactly as the corresponding `DashboardModel`
    function says: `ensures Snap() == F(old(Snap()))`.
  - Each event handler also keeps `Valid()`, the page invariant on the fields:
    `ensures old(Valid()) ==> Valid()`.
  - `saveCurrentScreen` and `loadScreen` keep the source's loops, with their invariants.
- `widgets.dfy` (module `Widgets`): the arithmetic and string logic inside the widget
  constructors.
  - `formatTime`, with JavaScript's truncating `%`.
  - The countdown breakdown of a millisecond difference.
  - The group maker's splice loop, as a method with an invariant.
  - The Google Slides embed rewrite.
  - The counters of the timer, visual timer, poll, traffic light and work-symbols widgets,
    as small classes.

Inputs the page gets from outside are parameters. These are prompt answers, cursor
coordinates, element offsets, parsed input values, the canvas snapshot `toDataURL` returns,
and the content of storage at start-up. Timers and intervals become explicit method calls
(`Tick`).

## Model

| member | source | states |
|---|---|---|
| Text.NatToStringRoundTrip | script.js:162 | the decimal text of a non-negative integer is all digits and reads back as that integer |
| Text.ParseIntRoundTrip | script.js:283 | `parseInt` of an integer's decimal text gives back the integer, negative ones included |
| Text.PadStart | script.js:162 | `padStart(n, c)` keeps the text as the suffix and fills only the missing length with `c` |
| Text.IndexOfFrom | script.js:524 | the found index is the first occurrence at or after the start; no result means there is no occurrence |
| Text.ReplaceFirst | script.js:525 | `replace(pat, rep)` on a string, for a replacement without `$` patterns such as the source's "/embed": unchanged when `pat` does not occur, otherwise prefix + rep + rest around the first occurrence |
| Text.BeforeFirst | script.js:525 | `split(c)[0]`: the longest prefix without `c`, ended by `c` or by the end of the text |
| Text.BeforeFirstAppend | script.js:525 | cutting at the first `c` after a `c`-free prefix keeps the prefix whole |
| Text.Split | script.js:371 | `split(c)` gives at least one part, and no part contains `c` |
| Text.JoinSplit | script.js:373 | `join(c)` after `split(c)` gives back the text |
| Text.SplitJoin | script.js:371-373 | splitting a join of `c`-free parts gives back the parts |
| Codec.ParseNameText | script.js:107-108 | reading an attribute name with `startsWith('data-')`/`slice(5)` and writing it back loses nothing |
| Codec.DataFields | script.js:106-108 | the record part from the attributes has exactly one key per `data-*` attribute, the name minus `data-`, with that attribute's value |
| Codec.SerializeSpread | script.js:98-109 | a saved record has exactly the own fields (geometry, html) and the dataset keys; a dataset entry wins over an own field of the same name (`data-html` overrides the content) |
| Codec.SerializeTyped | script.js:98-109 | for an element with `data-type`, the record is the own fields with the dataset spread over them |
| Codec.HyphenateLowerCase | script.js:295 | a dataset key without upper-case letters is written under its own name |
| Codec.HyphenateHasNoUpper | script.js:473 | the attribute name a dataset write produces never has an upper-case letter |
| Codec.CamelCaseKeySavedHyphenated | script.js:473 | a camelCase dataset key such as `gThreshold` is saved under its hyphenated name and not under its own |
| Codec.DataFieldsSet | script.js:107-108 | writing `data-h` changes exactly the record entry `h` |
| Codec.ApplyDatasetFields | script.js:373 | a series of dataset writes changes only attributes, and adds its entries to the record, a later write of a key winning |
| Codec.CreateWidget | script.js:24-48 | `createWidget` makes an element with the given id and an empty content box |
| Codec.CreateWidgetSpec | script.js:27-34 | the new element's only dataset entry is its type; with a record it takes each geometry property that is non-empty there, otherwise 20px/20px/200px/200px |
| Codec.OwnFieldsPlacement | script.js:29-34 | an element placed by createWidget's rule saves exactly that geometry plus its content |
| Codec.SerializeBuilt | script.js:98-109 | a widget a constructor built saves as the independent `ExpectedRecord`: geometry, html, type name, then the constructor's dataset writes over them |
| Codec.SerializeReload | script.js:119-121 | a widget rebuilt from a record saves as `ExpectedRecord` with the record's html, whatever id it got |
| Codec.ReloadKeeps | script.js:119-121 | a reload gives back a non-empty geometry property and the html unchanged, and the type as the constructor's type name |
| Codec.ReloadDropsUnwritten | script.js:119-121 | any other record field survives a reload if and only if the constructor writes it again as a dataset entry |
| Codec.LabelsCapitalised | script.js:245-558 | every type name a registry constructor passes to createWidget starts with a capital letter |
| Codec.KeysLowerCase | script.js:245-558 | every registry key starts with a lower-case letter |
| Codec.LabelsAreNotKeys | script.js:245-558 | no saved type name is a registry key |
| ScreenStore.Screens.Put | script.js:111 | `screens[name] = recs` sets that one screen, keeps all others, lists a new name last and keeps an existing one in place, and keeps names unique |
| ScreenStore.Screens.First | script.js:56 | `Object.keys(screens)[0]` names a screen whenever there is one |
| DashboardModel.Saved | script.js:95-113 | `saveCurrentScreen` makes the active screen hold the canvas records (one per element, in canvas order), keeps every other screen, persists both entries and changes nothing else |
| DashboardModel.Constructed | script.js:24-48 | a constructor appends the built widget under the next id, gives it a released drag closure, and takes over both document mouse slots |
| DashboardModel.Without | script.js:43 | the close button removes exactly the elements with that id: the result holds every other element and nothing else, and is no longer than the canvas |
| DashboardModel.WithoutIncreasing | script.js:43 | removing an element keeps the remaining elements in creation order |
| DashboardModel.Placed | script.js:13-14 | moving one element keeps every element's id and position in the canvas |
| DashboardModel.Released | script.js:16-20 | a drag release saves if and only if its widget was down |
| DashboardModel.Undone | script.js:202-213 | undo before the toolbar is installed, or on an empty history, changes nothing and does not save; otherwise it pops one entry, saves once, and redraws the new top, or clears the overlay when none is left |
| DashboardModel.RegisteredPrefix | script.js:119-120 | the count of leading records whose type is a registry key; the next record's type is not one |
| DashboardModel.ReloadPrefix | script.js:119-121 | the widgets the load loop rebuilds before it stops, one per leading registered record |
| DashboardModel.InitWithoutStore | script.js:57-63 | with no stored screens, start-up makes `{'Screen 1': []}` active, persists both entries, and loads it onto an empty canvas |
| DashboardModel.InitWithStore | script.js:53-63 | with stored screens, the stored active name is used unless missing or empty, in which case the first key is used; loading succeeds iff that screen exists and every record's type is registered, and then rebuilds its records |
| DashboardModel.LoadStepEffect | script.js:119-121 | one load step appends the rebuilt widget with the next id, and can write only the active screen, and only when the constructor saves while being built |
| DashboardModel.ReloadPrefixAt | script.js:119-121 | the i-th rebuilt widget is the i-th record rebuilt with id `id0 + i` |
| DashboardModel.ReloadPrefixAll | script.js:119-121 | when every record is registered, the load loop rebuilds all of them |
| DashboardModel.LoadAllCanvas | script.js:119-122 | the load loop succeeds iff every record is registered; it appends the leading registered records rebuilt in order with fresh ids, and stops at the first unregistered one |
| DashboardModel.LoadAllScreens | script.js:119-122 | while loading, no screen other than the previously active one is written |
| DashboardModel.LoadAllQuiet | script.js:119-122 | when no constructor saves while being rebuilt, loading writes neither screens nor storage |
| DashboardModel.LoadedSpec | script.js:117-126 | `loadScreen` succeeds iff the screen exists and every record's type is registered. On success the canvas is its records rebuilt in order, the name is active and persisted. On failure the active name is unchanged; an unknown name leaves an empty canvas |
| DashboardModel.ReloadsRecords | script.js:119-121 | each rebuilt record saves back as `ExpectedRecord` for that record |
| DashboardModel.LoadedRecords | script.js:117-122 | after a successful load, saving gives one record per stored record, each the independent `ExpectedRecord` of its stored record |
| DashboardModel.MidLoadSaveOverwritesPrevious | script.js:128-131 | a constructor that saves during `loadScreen` writes the half-rebuilt canvas into the screen that was active before the switch |
| DashboardModel.SwitchThereAndBack | script.js:128-131 | switching away and back: the screen left holds exactly the records of its canvas, coming back rebuilds them in order, and every third screen is untouched |
| DashboardModel.AddScreenSpec | script.js:83-90 | adding a screen does nothing for a cancelled or empty answer, an existing name or a name inherited from `Object.prototype`. Otherwise the current canvas is saved, the new name is listed last with no records and becomes active on an empty canvas, and every other screen keeps its records |
| DashboardModel.BuiltTypeKey | script.js:27 | a built widget saves its constructor's type name under `type` |
| DashboardModel.SourceSaveThenReloadFails | script.js:120 | with the source's registry, a screen whose first widget came from any constructor cannot be reloaded: clicking its own tab throws and leaves the canvas empty |
| DashboardModel.WellKeyedBuildsTyped | script.js:27 | a registry keyed by its constructors' type names builds widgets whose type names a registry key |
| DashboardModel.WellKeyedSaveThenReload | script.js:119-120 | when every canvas widget's type names a registry key, saving and reloading the active screen succeeds and rebuilds the saved records in order |
| DashboardModel.PlacedTwice | script.js:13-14 | placing twice is placing once, at the second position |
| DashboardModel.MovesFollowCursor | script.js:11-15 | while the listening widget is down, moves only reposition it, to the last cursor position minus the recorded offset |
| DashboardModel.ReleaseWhileDown | script.js:16-20 | releasing a pressed widget saves once, keeps the canvas, clears `down` and restores text selection |
| DashboardModel.PressThenMoves | script.js:5-15 | after a press, the widget follows the cursor from where it was grabbed, without saving |
| DashboardModel.DragGesture | script.js:5-20 | press, moves, release: the widget ends at its start offset plus the cursor displacement (no clamping), exactly one save happens, and the drag state and selection are restored |
| DashboardModel.OnlyNewestWidgetDrags | script.js:11 | after a second widget is created, pressing the first one's header and moving moves nothing, because the move slot was overwritten |
| DashboardModel.StrokesPush | script.js:153-157 | every mouse-up with the overlay's handler installed pushes its snapshot and saves once |
| DashboardModel.UndosPop | script.js:202-213 | with the toolbar installed, k undos on a history of at least k entries pop k entries with k saves |
| DashboardModel.StrokesThenUndos | script.js:202-213 | K strokes followed by K undos restore the history, with 2K saves |
| DashboardModel.UnwiredToolbarInert | script.js:164-241 | until the page-load callback has installed the toolbar, the widget picker, the annotate button and the undo button do nothing |
| DashboardModel.SourceReopenLeavesToolbarUnwired | script.js:164-166 | as written, reopening the page when the stored active screen starts with a saved widget: `initScreens` throws, the canvas stays empty and the toolbar handlers are never installed |
| DashboardModel.LastUndoBlank | script.js:206-211 | starting from an empty history, the last of K undos after K strokes finds nothing to redraw |
| DashboardModel.NewWidgetDetachesAnnotation | script.js:153 | a widget created after the overlay takes the mouse-up slot back, so later mouse-ups push no snapshot |
| DashboardModel.FreshInv | script.js:51 | the page before any script runs satisfies the page invariant |
| DashboardModel.PersistedKeepsInv | script.js:66-69 | persisting keeps the page invariant |
| DashboardModel.SavedKeepsInv | script.js:95-113 | saving keeps the page invariant: unique screen names, canvas ids increasing, below the next id and each with a drag closure, slots naming existing closures |
| DashboardModel.BuildId | script.js:24-25 | a constructor's widget keeps the id createWidget gave it |
| DashboardModel.AppendedKeepsInv | script.js:24-45 | appending an element under the next id, with a fresh drag closure in both document slots, keeps the page invariant |
| DashboardModel.ConstructedKeepsInv | script.js:24-48 | running a constructor keeps the page invariant |
| DashboardModel.LoadStepKeepsInv | script.js:119-121 | one load step keeps the page invariant |
| DashboardModel.LoadAllKeepsInv | script.js:119-122 | the load loop keeps the page invariant |
| DashboardModel.LoadedKeepsInv | script.js:117-126 | `loadScreen` keeps the page invariant, whether it succeeds or throws |
| DashboardModel.SwitchedKeepsInv | script.js:128-131 | `switchScreen` keeps the page invariant |
| DashboardModel.ScreenAddedKeepsInv | script.js:83-90 | adding a screen keeps the page invariant |
| DashboardModel.InitializedKeepsInv | script.js:52-64 | `initScreens` keeps the page invariant |
| DashboardModel.StartedKeepsInv | script.js:164-166 | the page-load callback keeps the page invariant |
| DashboardModel.PickedKeepsInv | script.js:237-241 | the widget picker keeps the page invariant |
| DashboardModel.ClosedKeepsInv | script.js:43 | the close button keeps the page invariant |
| DashboardModel.DatasetWrittenKeepsInv | script.js:295 | a widget's dataset write and save keep the page invariant |
| DashboardModel.PressedKeepsInv | script.js:5-10 | a header press keeps the page invariant |
| DashboardModel.MovedKeepsInv | script.js:11-15 | a mouse move keeps the page invariant |
| DashboardModel.DragReleaseKeepsInv | script.js:17-19 | a drag closure's mouse-up, which clears its own pressed flag and restores text selection, keeps the page invariant |
| DashboardModel.ReleasedKeepsInv | script.js:16-20 | a mouse-up keeps the page invariant |
| DashboardModel.ToggledKeepsInv | script.js:187-193 | the annotate button keeps the page invariant |
| DashboardModel.UndoneKeepsInv | script.js:202-213 | undo keeps the page invariant |
| Dashboard.Page.constructor | script.js:51 | the page starts with no screens, no widgets, empty slots and history and no toolbar handlers, over the storage content it is given, and is valid when the stored collection is |
| Dashboard.Page.PersistScreens | script.js:66-69 | both storage entries are written from the in-memory screens and active name, and nothing else changes |
| Dashboard.Page.SaveCurrentScreen | script.js:95-113 | the loop builds one record per element in document order (each one `Serialize` of its element), so the page ends as `Saved` describes |
| Dashboard.Page.MakeDraggable | script.js:2-21 | the element gets a fresh released drag closure, and both document slots now name it; nothing else changes |
| Dashboard.Page.AppendWidget | script.js:24-48 | the new element goes last on the canvas under the next id and is made draggable; screens, storage and history are unchanged |
| Dashboard.Page.RunConstructor | script.js:120 | the constructor's dataset writes applied one by one, then its content; the page ends as `Constructed` describes |
| Dashboard.Page.LoadRecord | script.js:120-121 | one forEach turn: constructor on the record, then the record's html as content, as `LoadStep` describes |
| Dashboard.Page.LoadScreen | script.js:117-126 | the loop rebuilds the records in order and stops at the first unregistered type (the throw); the page and result are as `Loaded` describes |
| Dashboard.Page.SwitchScreen | script.js:128-131 | save, then load, as `Switched` describes |
| Dashboard.Page.AddScreen | script.js:83-90 | the add-screen button with the prompt's answer, as `ScreenAdded` describes |
| Dashboard.Page.InitScreens | script.js:52-64 | start-up from storage, as `Initialized` describes |
| Dashboard.Page.Start | script.js:164-241 | the page-load callback: `initScreens`, then the toolbar handlers only when it did not throw, as `Started` describes |
| Dashboard.Page.PickWidget | script.js:237-241 | once the toolbar is installed, a non-empty registered choice runs its constructor and saves; anything else changes nothing |
| Dashboard.Page.CloseWidget | script.js:43 | the element is removed and the screen saved, as `Closed` describes |
| Dashboard.Page.SetDataset | script.js:295 | a widget's dataset write followed by a save, as `DatasetWritten` describes |
| Dashboard.Page.HeaderMouseDown | script.js:5-10 | the widget's closure goes down with offset cursor minus element offset, and text selection is suppressed |
| Dashboard.Page.MouseMove | script.js:11-15 | only the closure in the move slot reacts, and only while down, placing its element at cursor minus offset |
| Dashboard.Page.MouseUp | script.js:16-20 | the handler in the mouse-up slot runs: a drag release, or the overlay's push and save, as `Released` describes |
| Dashboard.Page.ToggleAnnotation | script.js:187-193 | once the toolbar is installed, flips annotating; the first time, creates the overlay and takes the mouse-up slot |
| Dashboard.Page.Undo | script.js:202-213 | once the toolbar is installed, pops the history and reports the snapshot to redraw, as `Undone` describes |
| Widgets.JsRem | script.js:162 | JavaScript's `%`: differs from the dividend by a multiple of the divisor, is below the divisor in magnitude, and has the sign of the dividend |
| Widgets.TwoDigits | script.js:162 | a value below 100 pads to exactly its two decimal digits |
| Widgets.FormatTimeShape | script.js:162 | for s ≥ 0, `formatTime(s)` is the minutes, a colon, and exactly two digits of the seconds |
| Widgets.ParseTimeOf | script.js:162 | reading `m:ss` back gives 60·m + ss |
| Widgets.FormatTimeRoundTrip | script.js:162 | for s ≥ 0 the text `formatTime` shows reads back as s |
| Widgets.CountdownRecomposes | script.js:356-362 | the countdown shows 🎉 iff the difference is not positive; otherwise hours < 24, minutes and seconds < 60, and d/h/m/s recompose the whole seconds of the difference |
| Widgets.SpliceFront | script.js:414 | `splice(0, n)` splits the array into removed front and rest; it removes nothing for n ≤ 0 and everything for n beyond the length |
| Widgets.NegativeSizeStalls | script.js:408-414 | a negative group size passes the chain of `parseInt` fallbacks, and the splice then removes nothing |
| Widgets.ClampedGroupSize | script.js:408 | the corrected size is at least 1 and agrees with the source's whenever no value is negative |
| Widgets.ChunksFlatten | script.js:413-414 | the groups concatenate back to the names |
| Widgets.ChunksSizes | script.js:413-414 | no groups iff no names; every group but the last has exactly `size` names, the last between 1 and `size` |
| Widgets.MakeGroups | script.js:412-415 | the splice loop, run on a copy of the names, produces exactly the groups `Chunks` describes |
| Widgets.EmbedUrlCases | script.js:524-526 | a non-Slides address is kept; a Slides address comes out without `&` |
| Widgets.EmbedUrlRewrite | script.js:524-526 | for a Slides address with `/edit` before any `&`: prefix, `/embed`, then the rest cut at its first `&` |
| Widgets.TimerSecondsReload | script.js:283 | a saved second count reloads as itself |
| Widgets.Timer.constructor | script.js:283 | the count comes from the record (missing or 0 gives 0), stopped |
| Widgets.Timer.Set | script.js:292-296 | the count becomes the parsed input (0 when missing), running or not as before |
| Widgets.Timer.Start | script.js:297-302 | starts an interval only when none is live; the count is unchanged |
| Widgets.Timer.Tick | script.js:298-301 | a live interval counts up by one; a stopped timer does not change |
| Widgets.Timer.Pause | script.js:303 | stops, keeping the count |
| Widgets.Timer.Reset | script.js:304-308 | stops, with the count at 0 |
| Widgets.VisualTimerReload | script.js:314-315 | reloading saved values: a running timer comes back as it was, a finished one (remaining 0) comes back full |
| Widgets.TicksCountDown | script.js:342-345 | a non-negative remaining time counts down one per tick to 0 and stays there |
| Widgets.VisualTimer.constructor | script.js:314-315 | total and remaining from the record, with 60 and then the total as fallbacks for a missing or zero value, running |
| Widgets.VisualTimer.Tick | script.js:342-345 | while positive, remaining goes down by one; at 0 the interval is cleared |
| Widgets.VisualTimer.Set | script.js:335-340 | total becomes the input (60 when missing), remaining is full, and the interval stays cleared |
| Widgets.ParseCounts | script.js:372 | one count per comma-separated part |
| Widgets.CountTextRoundTrip | script.js:380 | a joined count has no comma and reads back with `Number` as itself, NaN included |
| Widgets.CountsRoundTrip | script.js:372-380 | the counts a vote saves reload as the same counts |
| Widgets.OptionsRoundTrip | script.js:371-373 | the options a poll saves reload as the same options |
| Widgets.Poll.constructor | script.js:371-372 | options from the record or the prompt; counts from the record, or one zero per option |
| Widgets.Poll.Vote | script.js:379-381 | the voted count goes up by one (NaN stays NaN), the others are kept, and the saved text is the joined counts |
| Widgets.Cycle | script.js:440 | the next index stays below the length |
| Widgets.CycleNFormula | script.js:440 | k presses from i reach (i + k) mod n |
| Widgets.CycleCovers | script.js:437-440 | n presses return to the start, and every index is reached within n presses |
| Widgets.TrafficLight.constructor | script.js:435 | starts at red |
| Widgets.TrafficLight.Next | script.js:437-441 | lights the current colour and moves to the next one cyclically |
| Widgets.LightsInTurn | script.js:439-440 | the k-th press lights red, yellow, green in turn |
| Widgets.WorkSymbols.constructor | script.js:492 | starts at the first symbol |
| Widgets.WorkSymbols.Next | script.js:495 | shows the current symbol and moves to the next one cyclically |

## Left out

- DOM and rendering are not modelled. This covers `renderTabs` buttons and active-tab
  classes, markup templates, CSS, the toolbar collapse, theme settings and the select tool.
  Only their effect on the page state is modelled.
- `localStorage` and `JSON.parse`/`stringify` are abstracted as a `Store` value that holds
  the collection as written. JSON is assumed to round-trip, and corrupt JSON is not modelled.
- The add-screen handler's `renderTabs` call is left out, as is the re-rendering of tabs.
- The `setBackground` entry changes page CSS and creates no widget. Only its key is kept in
  `Codec.SourceKeys`.
- The constructors are abstract `Variant`s: dataset writes, content and save-while-building
  as functions of the record they see. Their own DOM work is left out.
  - Media capture, audio analysis and floating-point thresholds (screen share, sound level).
  - Randomness (randomizer, dice).
  - Scoreboard, stickers, image, video, hyperlink and rest room, beyond what a `Variant`
    states.
- Timers, intervals and the clock become explicit calls, and the countdown difference is an
  input. An invalid date (NaN difference) is not modelled.
- Canvas pixel work (strokes, `clearRect`) is left out, and snapshots are opaque strings.
  The asynchronous `Image.onload` redraw is represented by the snapshot `Undo` returns.
- Dashboard.Page.HeaderMouseDown: the element's `offsetLeft`/`offsetTop` are parameters.
- A move before any press reads `dx`/`dy` as undefined in the source. The model never moves
  then, because `down` is false.
- Dashboard.Page.RunConstructor: a constructor that saves while being built saves after its
  content is set. In the source it may save before that.
- Text.ParseIntRoundTrip: `parseInt` and `Number` are modelled on optional-sign digit text
  only. Leading spaces, trailing garbage and fractions are not modelled.
- Widgets.FormatTimeRoundTrip: proved for non-negative seconds only. `FormatTime` itself
  follows the source for negative values (floor division, truncating remainder).
- Widgets.Timer: the display text and dataset value are `Display` and `IntToString(sec)`.
  The methods do not write them to a widget, and the methods are not linked to
  `Dashboard.Page`. The same holds for `Widgets.VisualTimer` and `Widgets.Poll`.
- Widgets.Poll.Vote: requires the option to have a count. In the source, a record with fewer
  counts than options makes the count undefined (NaN), and a later vote leaves holes.
- ScreenStore.Screens.Put: a new name is always listed last. `Object.keys` lists array-index
  names ("0", "12") first, in numeric order, so for such names the order, and the name
  `First` gives, differ from the source. Assigning `screens["__proto__"]` sets the prototype
  rather than a key; the add-screen check refuses that name, and a stored collection that
  holds it as a key is treated as holding a plain name.
- Widgets.TimerSecondsReload: proved for every integer. JavaScript numbers are doubles, and
  `parseInt` of a text above 2^53 loses precision, which the model does not capture.
- Widgets.Poll.constructor: the options text is a `string`. A cancelled prompt returns
  `null`, and `.split` on it throws in the source; the model cannot express that case.
- Widgets.MakeGroups: the display join of the groups (`g.join(', ')`, `<br>`) is left out.
- The group maker's names, randomizer items and hyperlink text are not modelled beyond
  `split(',')`/`join(',')`.

## Findings

| source | as written | input that shows it | evidently intended | confidence | as-written member | corrected member |
|---|---|---|---|---|---|---|
| script.js:120 | `loadScreen` looks up `widgetRegistry[cfg.type]`, but the saved `type` is the display label passed to `createWidget` (`'Timer'`), while the registry keys are `timer`, `text` and so on. On a page reload the throw happens inside `initScreens`, so the toolbar handlers are never installed either (`DashboardModel.SourceReopenLeavesToolbarUnwired`) | any screen holding a widget built by a registry constructor, then clicking its tab or reloading the page | the saved type names a registry entry, so that saving and reloading rebuilds the widgets | not executed | DashboardModel.SourceSaveThenReloadFails | DashboardModel.WellKeyedSaveThenReload |
| script.js:408-414 | the size is the first non-zero of the parsed record value, the parsed prompt answer and 2, so a negative size gets through, and `arr.splice(0, size)` then removes nothing, so `while(arr.length)` never ends | a group size of `-2` with a non-empty name list | a size of at least 1, so each splice removes at least one name | not executed | Widgets.NegativeSizeStalls | Widgets.ClampedGroupSize |
