/** The page state of the dashboard as a value, one function per event handler, and what
    those handlers are proved to do. The class in dashboard.dfy implements each function. */
module DashboardModel {
  import opened Wrappers
  import opened Codec
  import opened ScreenStore
  import Text

  /** One widget's drag closure: its `down` flag and the recorded offset `dx`, `dy`. */
  datatype Drag = Drag(down: bool, dx: int, dy: int)

  /** What the single `document.onmouseup` slot currently holds. */
  datatype Release = NoRelease | DragRelease(id: nat) | AnnotationRelease

  /** The page globals. `canvas` is the widgets in document order; `nextId` names the next
      element created; `drags` holds every widget's drag closure; `moveSlot`/`upSlot` are the
      `document.onmousemove`/`document.onmouseup` handlers; `selectionSuppressed` is
      `body.style.userSelect == 'none'`; `store` is the two storage entries and `writes`
      counts persistScreens calls; `overlayReady` says the annotation overlay exists;
      `toolbar` says the page-load callback got past `initScreens` and installed the toolbar
      handlers (annotate, undo, save, select and the widget picker). */
  datatype State = State(
    screens: Screens,
    active: string,
    canvas: seq<Widget>,
    nextId: nat,
    drags: map<nat, Drag>,
    moveSlot: Option<nat>,
    upSlot: Release,
    selectionSuppressed: bool,
    store: Store,
    writes: nat,
    overlayReady: bool,
    annotating: bool,
    history: seq<string>,
    toolbar: bool)

  /** Widget ids strictly increase along the canvas (so each element appears once). */
  predicate Increasing(ws: seq<Widget>)
  {
    forall i, j :: 0 <= i < j < |ws| ==> ws[i].id < ws[j].id
  }

  /** The in-memory and the stored collection both have unique names. */
  ghost predicate ScreensOk(st: State)
  {
    st.screens.Valid() && (st.store.screens.Some? ==> st.store.screens.value.Valid())
  }

  /** Each element appears once, was created before `nextId`, and has a drag closure, and
      every closure belongs to an element created before `nextId`. */
  ghost predicate CanvasOk(st: State)
  {
    Increasing(st.canvas) &&
    (forall i :: 0 <= i < |st.canvas| ==> st.canvas[i].id < st.nextId && st.canvas[i].id in st.drags) &&
    (forall id :: id in st.drags ==> id < st.nextId)
  }

  /** The document slots name existing closures, and the overlay exists once its handler is
      installed or a snapshot was taken. */
  ghost predicate SlotsOk(st: State)
  {
    (st.moveSlot.Some? ==> st.moveSlot.value in st.drags) &&
    (st.upSlot.DragRelease? ==> st.upSlot.id in st.drags) &&
    (st.upSlot.AnnotationRelease? ==> st.overlayReady) &&
    (st.history != [] ==> st.overlayReady) &&
    (st.overlayReady ==> st.toolbar)
  }

  /** What holds of the page between events. */
  ghost predicate Inv(st: State)
  {
    ScreensOk(st) && CanvasOk(st) && SlotsOk(st)
  }

  /** The page before any script runs, over a given storage content. */
  function Fresh(store: Store): State
  {
    State(Screens([], map[]), "undefined", [], 0, map[], None, NoRelease, false, store, 0, false, false, [], false)
  }

  // ---------------------------------------------------------------------------------------
  // Screens: persist, save, load, switch, add, init

  /** `persistScreens`: both storage entries written from the in-memory state. */
  function Persisted(st: State): State
  {
    st.(store := Store(Some(st.screens), Some(st.active)), writes := st.writes + 1)
  }

  /** `saveCurrentScreen`. */
  function Saved(st: State): (r: State)
    ensures r.screens.byName.Keys == st.screens.byName.Keys + {st.active}
    ensures r.screens.byName[st.active] == Records(st.canvas)
    ensures forall n :: n in st.screens.byName && n != st.active ==> r.screens.byName[n] == st.screens.byName[n]
    ensures r.store == Store(Some(r.screens), Some(st.active)) && r.writes == st.writes + 1
    ensures r.active == st.active && r.canvas == st.canvas && r.nextId == st.nextId
    ensures r.drags == st.drags && r.moveSlot == st.moveSlot && r.upSlot == st.upSlot
    ensures r.selectionSuppressed == st.selectionSuppressed && r.overlayReady == st.overlayReady
    ensures r.annotating == st.annotating && r.history == st.history && r.toolbar == st.toolbar
  {
    Persisted(st.(screens := st.screens.Put(st.active, Records(st.canvas))))
  }

  /** A registry constructor run on an optional record: createWidget appends the element and
      makes it draggable (which takes over both document slots), then the constructor writes
      its dataset entries and content, and may save while it is being built. */
  function Constructed(st: State, v: Variant, cfg: Option<Record>): (r: State)
    ensures r.canvas == st.canvas + [Build(v, st.nextId, cfg)] && r.nextId == st.nextId + 1
    ensures r.drags == st.drags[st.nextId := Drag(false, 0, 0)]
    ensures r.moveSlot == Some(st.nextId) && r.upSlot == DragRelease(st.nextId)
    ensures r.active == st.active && r.history == st.history
  {
    var s := Appended(st, st.nextId, Build(v, st.nextId, cfg));
    if v.savesWhileBuilding(ConfigSeen(v, cfg)) then Saved(s) else s
  }

  /** createWidget's append under `id` and makeDraggable's closure and slots. */
  function Appended(st: State, id: nat, w: Widget): State
  {
    st.(canvas := st.canvas + [w], nextId := id + 1, drags := st.drags[id := Drag(false, 0, 0)],
        moveSlot := Some(id), upSlot := DragRelease(id))
  }

  /** One iteration of loadScreen's forEach: construct from the record, then overwrite the
      new widget's content with `cfg.html`. */
  function LoadStep(st: State, v: Variant, cfg: Record): (r: State)
  {
    var s := Constructed(st, v, Some(cfg));
    var last := |s.canvas| - 1;
    s.(canvas := s.canvas[last := s.canvas[last].(content := HtmlOf(cfg))])
  }

  /** The forEach over a screen's records; false when a record's type has no registry entry
      (the lookup throws and the remaining records are not processed). */
  function LoadAll(st: State, reg: Registry, cfgs: seq<Record>): (State, bool)
    decreases |cfgs|
  {
    if cfgs == [] then (st, true)
    else if TypeKey(cfgs[0]) !in reg then (st, false)
    else LoadAll(LoadStep(st, reg[TypeKey(cfgs[0])], cfgs[0]), reg, cfgs[1..])
  }

  /** `loadScreen(name)`; false when it throws (no such screen, or an unregistered type),
      in which case `activeScreen` is not reassigned and nothing is persisted. */
  function Loaded(st: State, reg: Registry, name: string): (State, bool)
  {
    var cleared := st.(canvas := []);
    if name !in st.screens.byName then (cleared, false)
    else
      var (s, ok) := LoadAll(cleared, reg, st.screens.byName[name]);
      if ok then (Persisted(s.(active := name)), true) else (s, false)
  }

  /** `switchScreen(name)`. */
  function Switched(st: State, reg: Registry, name: string): (State, bool)
  {
    Loaded(Saved(st), reg, name)
  }

  /** The add-screen button; `nm` is the prompt's answer (None when cancelled). `screens[nm]`
      is truthy for an existing screen and for a name `screens` inherits, so both are refused. */
  function ScreenAdded(st: State, reg: Registry, nm: Option<string>): State
  {
    if nm.None? || nm.value == "" || nm.value in st.screens.byName || nm.value in InheritedNames then st
    else Switched(Persisted(st.(screens := st.screens.Put(nm.value, []))), reg, nm.value).0
  }

  /** `initScreens`. */
  function Initialized(st: State, reg: Registry): (State, bool)
  {
    match st.store.screens
    case None =>
      Loaded(Persisted(st.(screens := Default, active := DefaultName)), reg, DefaultName)
    case Some(s) =>
      var a := if st.store.active.Some? && st.store.active.value != "" then st.store.active.value
               else s.First();
      Loaded(st.(screens := s, active := a), reg, a)
  }

  /** The page-load callback: `initScreens`, then, only when it returns without throwing,
      the toolbar handlers are installed. */
  function Started(st: State, reg: Registry): (State, bool)
  {
    var (s, ok) := Initialized(st, reg);
    (if ok then s.(toolbar := true) else s, ok)
  }

  // ---------------------------------------------------------------------------------------
  // Widgets: picker, close, dataset writes

  /** The widget picker with value `t` (no handler until the toolbar is installed). */
  function Picked(st: State, reg: Registry, t: string): State
  {
    if st.toolbar && t != "" && t in reg then Saved(Constructed(st, reg[t], None)) else st
  }

  /** The canvas without the element `id`. */
  function Without(ws: seq<Widget>, id: nat): (r: seq<Widget>)
    ensures |r| <= |ws|
    ensures forall w :: w in r ==> w in ws && w.id != id
    ensures forall w :: w in ws && w.id != id ==> w in r
  {
    if ws == [] then []
    else if ws[0].id == id then Without(ws[1..], id)
    else
      var rest := Without(ws[1..], id);
      assert forall w :: w in rest ==> w in ws[1..];
      [ws[0]] + rest
  }

  /** Removing an element keeps the others in their order. */
  lemma {:induction false} WithoutIncreasing(ws: seq<Widget>, id: nat)
    requires Increasing(ws)
    ensures Increasing(Without(ws, id))
    decreases |ws|
  {
    if ws != [] {
      WithoutIncreasing(ws[1..], id);
      var rest := Without(ws[1..], id);
      if ws[0].id != id {
        forall j | 0 <= j < |rest| ensures ws[0].id < rest[j].id {
          assert rest[j] in ws[1..];
        }
      }
    }
  }

  /** A widget's close button. */
  function Closed(st: State, id: nat): State
  {
    Saved(st.(canvas := Without(st.canvas, id)))
  }

  /** `w.dataset[key] = value; saveCurrentScreen()`, as the widgets' own handlers do. */
  function DatasetWritten(st: State, id: nat, key: string, value: string): State
  {
    var c := st.canvas;
    Saved(st.(canvas := seq(|c|, i requires 0 <= i < |c| => if c[i].id == id then SetData(c[i], key, value) else c[i])))
  }

  // ---------------------------------------------------------------------------------------
  // Drag controller

  /** mousedown on widget `id`'s header, with the element's offsetLeft/offsetTop. */
  function Pressed(st: State, id: nat, x: int, y: int, offsetLeft: int, offsetTop: int): State
  {
    if id in st.drags then
      st.(drags := st.drags[id := Drag(true, x - offsetLeft, y - offsetTop)], selectionSuppressed := true)
    else st
  }

  /** Canvas with the element `id` moved to `left`, `top`. */
  function Placed(ws: seq<Widget>, id: nat, left: Length, top: Length): (r: seq<Widget>)
    ensures |r| == |ws|
    ensures forall i :: 0 <= i < |ws| ==> r[i].id == ws[i].id
  {
    seq(|ws|, i requires 0 <= i < |ws| => if ws[i].id == id then ws[i].(left := left, top := top) else ws[i])
  }

  /** `document.onmousemove`: only the closure of the last widget made draggable listens. */
  function Moved(st: State, x: int, y: int): State
  {
    match st.moveSlot
    case None => st
    case Some(id) =>
      if id in st.drags && st.drags[id].down then
        var d := st.drags[id];
        st.(canvas := Placed(st.canvas, id, Pixels(x - d.dx), Pixels(y - d.dy)))
      else st
  }

  /** `document.onmouseup`; `snapshot` is what `toDataURL` returns at that moment. */
  function Released(st: State, snapshot: string): (r: State)
    ensures st.upSlot.DragRelease? ==>
      (r.writes == st.writes + 1 <==> st.upSlot.id in st.drags && st.drags[st.upSlot.id].down)
  {
    match st.upSlot
    case NoRelease => st
    case DragRelease(id) =>
      var s := if id in st.drags && st.drags[id].down then Saved(st) else st;
      s.(drags := if id in s.drags then s.drags[id := s.drags[id].(down := false)] else s.drags,
         selectionSuppressed := false)
    case AnnotationRelease =>
      Saved(st.(history := st.history + [snapshot]))
  }

  // ---------------------------------------------------------------------------------------
  // Annotation overlay

  /** The annotate button (no handler until the toolbar is installed): flip `annotating`, then `initAnnotation`, which on its first run
      creates the overlay and takes over the mouseup slot. */
  function Toggled(st: State): State
  {
    var s := st.(annotating := !st.annotating);
    if !st.toolbar then st
    else if s.overlayReady then s
    else s.(overlayReady := true, upSlot := AnnotationRelease)
  }

  /** The undo button (no handler until the toolbar is installed); the second component is the snapshot drawn back (None: blank). */
  function Undone(st: State): (r: (State, Option<string>))
    ensures !st.toolbar || st.history == [] ==> r == (st, None)
    ensures st.toolbar && st.history != [] ==>
      r.0.history == st.history[..|st.history| - 1] && r.0.writes == st.writes + 1 &&
      r.0.toolbar
    ensures r.1.Some? <==> st.toolbar && |st.history| >= 2
    ensures r.1.Some? ==> r.1.value == st.history[|st.history| - 2]
  {
    if !st.toolbar || st.history == [] then (st, None)
    else
      var h := st.history[..|st.history| - 1];
      (Saved(st.(history := h)), if h == [] then None else Some(h[|h| - 1]))
  }

  // =======================================================================================
  // Properties

  /** First run: the default collection, "Screen 1" active, both entries written, then the
      (empty) default screen loads without error onto an empty canvas. */
  lemma {:induction false} InitWithoutStore(st: State, reg: Registry)
    requires st.store.screens.None?
    ensures var (r, ok) := Initialized(st, reg);
      ok && r.screens == Default && r.active == DefaultName && r.canvas == [] &&
      r.store == Store(Some(Default), Some(DefaultName)) && r.writes == st.writes + 2
  {
    var s0 := Persisted(st.(screens := Default, active := DefaultName));
    assert s0.screens.byName[DefaultName] == [];
  }

  /** A stored collection: the stored active name is used unless it is missing or empty, in
      which case the first key is (and stays active even when loading it fails). */
  lemma {:induction false} InitWithStore(st: State, reg: Registry)
    requires st.store.screens.Some?
    ensures var s := st.store.screens.value;
      var a := if st.store.active.Some? && st.store.active.value != "" then st.store.active.value else s.First();
      var (r, ok) := Initialized(st, reg);
      r.active == a && (ok <==> a in s.byName && AllRegistered(reg, s.byName[a])) &&
      (ok ==> r.canvas == Reloads(reg, s.byName[a], st.nextId))
  {
    var s := st.store.screens.value;
    var a := if st.store.active.Some? && st.store.active.value != "" then st.store.active.value else s.First();
    var s1 := st.(screens := s, active := a);
    assert Initialized(st, reg) == Loaded(s1, reg, a);
    var (r, ok) := Loaded(s1, reg, a);
    assert r.active == a && (ok <==> a in s.byName && AllRegistered(reg, s.byName[a])) &&
           (ok ==> r.canvas == Reloads(reg, s.byName[a], st.nextId)) by {
      LoadedSpec(s1, reg, a);
    }
  }

  /** The number of leading records whose type has a registry entry. */
  function RegisteredPrefix(reg: Registry, cfgs: seq<Record>): (n: nat)
    ensures n <= |cfgs|
    ensures forall i :: 0 <= i < n ==> TypeKey(cfgs[i]) in reg
    ensures n < |cfgs| ==> TypeKey(cfgs[n]) !in reg
  {
    if cfgs == [] || TypeKey(cfgs[0]) !in reg then 0 else 1 + RegisteredPrefix(reg, cfgs[1..])
  }

  predicate AllRegistered(reg: Registry, cfgs: seq<Record>)
  {
    forall i :: 0 <= i < |cfgs| ==> TypeKey(cfgs[i]) in reg
  }

  /** The widgets loadScreen rebuilds from registered records, ids from `id0` on. */
  function Reloads(reg: Registry, cfgs: seq<Record>, id0: nat): (ws: seq<Widget>)
    requires AllRegistered(reg, cfgs)
    ensures |ws| == |cfgs|
  {
    seq(|cfgs|, i requires 0 <= i < |cfgs| => Reload(reg[TypeKey(cfgs[i])], id0 + i, cfgs[i]))
  }

  /** No constructor saves while rebuilding these records. */
  predicate QuietReload(reg: Registry, cfgs: seq<Record>)
  {
    forall i :: 0 <= i < |cfgs| && TypeKey(cfgs[i]) in reg ==>
      !reg[TypeKey(cfgs[i])].savesWhileBuilding(ConfigSeen(reg[TypeKey(cfgs[i])], Some(cfgs[i])))
  }

  lemma AppendAssoc<T>(a: seq<T>, b: seq<T>, c: seq<T>)
    ensures a + b + c == a + (b + c)
  {
  }

  lemma AppendFirstRest<T>(a: seq<T>, s: seq<T>)
    requires s != []
    ensures a + [s[0]] + s[1..] == a + s
  {
    assert [s[0]] + s[1..] == s;
  }

  /** Any slice of quietly reloading records reloads quietly. */
  lemma {:induction false} QuietSlice(reg: Registry, cfgs: seq<Record>, i: nat, j: nat)
    requires QuietReload(reg, cfgs) && i <= j <= |cfgs|
    ensures QuietReload(reg, cfgs[i..j])
  {
    forall k | 0 <= k < j - i && TypeKey(cfgs[i..j][k]) in reg
      ensures !reg[TypeKey(cfgs[i..j][k])].savesWhileBuilding(ConfigSeen(reg[TypeKey(cfgs[i..j][k])], Some(cfgs[i..j][k])))
    {
      assert cfgs[i..j][k] == cfgs[i + k];
    }
  }

  /** One load step appends the reloaded widget; only the active screen can be written,
      and only when the constructor saves while being built. */
  lemma {:induction false} LoadStepEffect(st: State, v: Variant, cfg: Record)
    ensures var s := LoadStep(st, v, cfg);
      s.canvas == st.canvas + [Reload(v, st.nextId, cfg)] && s.nextId == st.nextId + 1 &&
      s.active == st.active && s.history == st.history &&
      s.screens.byName.Keys <= st.screens.byName.Keys + {st.active} &&
      (forall k :: k in st.screens.byName && k != st.active ==> k in s.screens.byName && s.screens.byName[k] == st.screens.byName[k]) &&
      (!v.savesWhileBuilding(ConfigSeen(v, Some(cfg))) ==> s.screens == st.screens && s.store == st.store && s.writes == st.writes)
  {
    var c := Constructed(st, v, Some(cfg));
    assert c.canvas[|c.canvas| - 1] == Build(v, st.nextId, Some(cfg));
    assert c.canvas[..|c.canvas| - 1] == st.canvas;
  }

  /** The widgets the load loop rebuilds before it stops: one per leading registered record. */
  function ReloadPrefix(reg: Registry, cfgs: seq<Record>, id0: nat): (ws: seq<Widget>)
    ensures |ws| == RegisteredPrefix(reg, cfgs)
    decreases |cfgs|
  {
    if cfgs == [] || TypeKey(cfgs[0]) !in reg then []
    else [Reload(reg[TypeKey(cfgs[0])], id0, cfgs[0])] + ReloadPrefix(reg, cfgs[1..], id0 + 1)
  }

  /** The registered prefix is rebuilt record by record, with consecutive ids. */
  lemma {:induction false} ReloadPrefixAt(reg: Registry, cfgs: seq<Record>, id0: nat, i: nat)
    requires i < RegisteredPrefix(reg, cfgs)
    ensures TypeKey(cfgs[i]) in reg
    ensures ReloadPrefix(reg, cfgs, id0)[i] == Reload(reg[TypeKey(cfgs[i])], id0 + i, cfgs[i])
    decreases i
  {
    if i > 0 {
      ReloadPrefixAt(reg, cfgs[1..], id0 + 1, i - 1);
    }
  }

  /** When every record is registered, the registered prefix is all of them. */
  lemma {:induction false} AllRegisteredPrefix(reg: Registry, cfgs: seq<Record>)
    requires AllRegistered(reg, cfgs)
    ensures RegisteredPrefix(reg, cfgs) == |cfgs|
    decreases |cfgs|
  {
    if cfgs != [] {
      assert TypeKey(cfgs[0]) in reg;
      assert forall i :: 0 <= i < |cfgs| - 1 ==> cfgs[1..][i] == cfgs[i + 1];
      AllRegisteredPrefix(reg, cfgs[1..]);
    }
  }

  /** When every record is registered, the load loop rebuilds exactly `Reloads`. */
  lemma {:induction false} ReloadPrefixAll(reg: Registry, cfgs: seq<Record>, id0: nat)
    requires AllRegistered(reg, cfgs)
    ensures RegisteredPrefix(reg, cfgs) == |cfgs|
    ensures ReloadPrefix(reg, cfgs, id0) == Reloads(reg, cfgs, id0)
  {
    AllRegisteredPrefix(reg, cfgs);
    forall i | 0 <= i < |cfgs| ensures ReloadPrefix(reg, cfgs, id0)[i] == Reloads(reg, cfgs, id0)[i] {
      ReloadPrefixAt(reg, cfgs, id0, i);
    }
  }

  /** The load loop rebuilds the leading registered records in order, with fresh ids, and
      stops at the first unregistered one. */
  lemma {:induction false} LoadAllCanvas(st: State, reg: Registry, cfgs: seq<Record>)
    ensures var (s, ok) := LoadAll(st, reg, cfgs);
      (ok <==> RegisteredPrefix(reg, cfgs) == |cfgs|) &&
      s.canvas == st.canvas + ReloadPrefix(reg, cfgs, st.nextId) &&
      s.nextId == st.nextId + RegisteredPrefix(reg, cfgs) && s.active == st.active && s.history == st.history
    decreases |cfgs|
  {
    if cfgs == [] || TypeKey(cfgs[0]) !in reg {
    } else {
      var v := reg[TypeKey(cfgs[0])];
      var s1 := LoadStep(st, v, cfgs[0]);
      var w := Reload(v, st.nextId, cfgs[0]);
      var rest := ReloadPrefix(reg, cfgs[1..], st.nextId + 1);
      assert LoadAll(st, reg, cfgs) == LoadAll(s1, reg, cfgs[1..]);
      assert ReloadPrefix(reg, cfgs, st.nextId) == [w] + rest;
      assert s1.canvas == st.canvas + [w] && s1.nextId == st.nextId + 1 by {
        LoadStepEffect(st, v, cfgs[0]);
      }
      assert s1.active == st.active && s1.history == st.history by {
        LoadStepEffect(st, v, cfgs[0]);
      }
      LoadAllCanvas(s1, reg, cfgs[1..]);
      AppendAssoc(st.canvas, [w], rest);
    }
  }

  /** While loading, screens other than the active one are never written. */
  lemma {:induction false} LoadAllScreens(st: State, reg: Registry, cfgs: seq<Record>)
    ensures var s := LoadAll(st, reg, cfgs).0;
      s.active == st.active &&
      s.screens.byName.Keys <= st.screens.byName.Keys + {st.active} &&
      (forall k :: k in st.screens.byName && k != st.active ==> k in s.screens.byName && s.screens.byName[k] == st.screens.byName[k])
    decreases |cfgs|
  {
    if cfgs != [] && TypeKey(cfgs[0]) in reg {
      var v := reg[TypeKey(cfgs[0])];
      LoadStepEffect(st, v, cfgs[0]);
      LoadAllScreens(LoadStep(st, v, cfgs[0]), reg, cfgs[1..]);
    }
  }

  /** With no constructor saving among the rebuilt records, loading writes nothing. */
  lemma {:induction false} LoadAllQuiet(st: State, reg: Registry, cfgs: seq<Record>)
    requires QuietReload(reg, cfgs[..RegisteredPrefix(reg, cfgs)])
    ensures var s := LoadAll(st, reg, cfgs).0;
      s.screens == st.screens && s.store == st.store && s.writes == st.writes
    decreases |cfgs|
  {
    if cfgs != [] && TypeKey(cfgs[0]) in reg {
      var v := reg[TypeKey(cfgs[0])];
      var n := RegisteredPrefix(reg, cfgs);
      assert cfgs[..n][0] == cfgs[0];
      LoadStepEffect(st, v, cfgs[0]);
      QuietSlice(reg, cfgs[..n], 1, n);
      assert cfgs[1..][..n - 1] == cfgs[..n][1..n];
      LoadAllQuiet(LoadStep(st, v, cfgs[0]), reg, cfgs[1..]);
    }
  }

  /** loadScreen succeeds iff the screen exists and every record's type is registered; on
      success the canvas is the records rebuilt in stored order, the name is active and
      persisted; on failure the active name is unchanged. Only the previously active screen
      can be written meanwhile. */
  lemma {:induction false} LoadedSpec(st: State, reg: Registry, name: string)
    ensures var (s, ok) := Loaded(st, reg, name);
      (ok <==> name in st.screens.byName && AllRegistered(reg, st.screens.byName[name])) &&
      (ok ==> s.active == name && s.canvas == Reloads(reg, st.screens.byName[name], st.nextId) &&
              s.store == Store(Some(s.screens), Some(name))) &&
      (!ok ==> s.active == st.active) &&
      (name !in st.screens.byName ==> s.canvas == []) &&
      (forall k :: k in st.screens.byName && k != st.active ==> k in s.screens.byName && s.screens.byName[k] == st.screens.byName[k]) &&
      (name in st.screens.byName && QuietReload(reg, st.screens.byName[name]) ==> s.screens == st.screens)
  {
    if name in st.screens.byName {
      var cfgs := st.screens.byName[name];
      LoadAllCanvas(st.(canvas := []), reg, cfgs);
      LoadAllScreens(st.(canvas := []), reg, cfgs);
      var n := RegisteredPrefix(reg, cfgs);
      if n < |cfgs| {
        assert TypeKey(cfgs[n]) !in reg;
      } else {
        ReloadPrefixAll(reg, cfgs, st.nextId);
      }
      if QuietReload(reg, cfgs) {
        QuietSlice(reg, cfgs, 0, n);
        LoadAllQuiet(st.(canvas := []), reg, cfgs);
      }
    }
  }

  /** Saving rebuilt records gives back, record by record, the independent description of a
      reloaded record. */
  lemma {:induction false} ReloadsRecords(reg: Registry, cfgs: seq<Record>, id0: nat, i: nat)
    requires AllRegistered(reg, cfgs) && i < |cfgs|
    ensures Records(Reloads(reg, cfgs, id0))[i] ==
            ExpectedRecord(reg[TypeKey(cfgs[i])], Some(cfgs[i]), HtmlOf(cfgs[i]))
  {
    SerializeReload(reg[TypeKey(cfgs[i])], cfgs[i]);
  }

  /** Each record a successful load leaves on the canvas saves back as the independent
      description of a reloaded record. */
  lemma {:induction false} LoadedRecords(st: State, reg: Registry, name: string, i: nat)
    requires name in st.screens.byName && AllRegistered(reg, st.screens.byName[name])
    requires i < |st.screens.byName[name]|
    ensures var (s, ok) := Loaded(st, reg, name);
      var cfg := st.screens.byName[name][i];
      ok && |Records(s.canvas)| == |st.screens.byName[name]| &&
      Records(s.canvas)[i] == ExpectedRecord(reg[TypeKey(cfg)], Some(cfg), HtmlOf(cfg))
  {
    LoadedSpec(st, reg, name);
    ReloadsRecords(reg, st.screens.byName[name], st.nextId, i);
  }

  /** A constructor that saves while loadScreen runs writes the half-rebuilt canvas into the
      screen that was active BEFORE the switch: switching from `a` to `b` whose first record
      is such a widget leaves `a` holding that widget's record. */
  lemma {:induction false} MidLoadSaveOverwritesPrevious(st: State, reg: Registry, b: string)
    requires b in st.screens.byName && b != st.active
    requires var cfgs := st.screens.byName[b];
      cfgs != [] && TypeKey(cfgs[0]) in reg &&
      reg[TypeKey(cfgs[0])].savesWhileBuilding(ConfigSeen(reg[TypeKey(cfgs[0])], Some(cfgs[0])))
    ensures var cfg := st.screens.byName[b][0];
      var s1 := Constructed(st.(canvas := []), reg[TypeKey(cfg)], Some(cfg));
      s1.screens.byName[st.active] == [Serialize(Build(reg[TypeKey(cfg)], st.nextId, Some(cfg)))] &&
      s1.active == st.active
  {
  }

  /** Switching away and back: the screen left keeps exactly the records of the canvas as it
      was, and coming back rebuilds them in order. */
  lemma {:induction false} SwitchThereAndBack(st: State, reg: Registry, b: string)
    requires st.screens.Valid() && b in st.screens.byName && b != st.active
    requires AllRegistered(reg, st.screens.byName[b]) && QuietReload(reg, st.screens.byName[b])
    requires AllRegistered(reg, Records(st.canvas)) && QuietReload(reg, Records(st.canvas))
    ensures var (s1, ok1) := Switched(st, reg, b);
      var (s2, ok2) := Switched(s1, reg, st.active);
      ok1 && ok2 && s1.active == b && s2.active == st.active &&
      st.active in s2.screens.byName && s2.screens.byName[st.active] == Records(st.canvas) &&
      s2.canvas == Reloads(reg, Records(st.canvas), s1.nextId) &&
      b in s2.screens.byName && s2.screens.byName[b] == Records(s1.canvas) &&
      (forall k :: k in st.screens.byName && k != st.active && k != b ==>
         k in s2.screens.byName && s2.screens.byName[k] == st.screens.byName[k])
  {
    var s0 := Saved(st);
    LoadedSpec(s0, reg, b);
    var s1 := Switched(st, reg, b).0;
    var s1s := Saved(s1);
    assert s1s.screens.byName[st.active] == Records(st.canvas);
    LoadedSpec(s1s, reg, st.active);
  }

  /** Adding a screen: nothing happens for a cancelled or empty answer or an existing name;
      otherwise the current canvas is saved, the new name maps to no records and becomes
      active on an empty canvas, it is listed last, and every other screen is kept. */
  lemma {:induction false} AddScreenSpec(st: State, reg: Registry, nm: Option<string>)
    requires st.screens.Valid() && st.active in st.screens.byName
    ensures var r := ScreenAdded(st, reg, nm);
      (nm.None? || nm.value == "" || nm.value in st.screens.byName || nm.value in InheritedNames ==> r == st) &&
      (nm.Some? && nm.value != "" && nm.value !in st.screens.byName && nm.value !in InheritedNames ==>
        r.active == nm.value && r.canvas == [] && r.screens.byName[nm.value] == [] &&
        r.screens.names == st.screens.names + [nm.value] &&
        r.screens.byName[st.active] == Records(st.canvas) &&
        (forall k :: k in st.screens.byName && k != st.active ==> r.screens.byName[k] == st.screens.byName[k]) &&
        r.store == Store(Some(r.screens), Some(nm.value)))
  {
    if nm.Some? && nm.value != "" && nm.value !in st.screens.byName && nm.value !in InheritedNames {
      var s0 := Persisted(st.(screens := st.screens.Put(nm.value, [])));
      var s1 := Saved(s0);
      assert s1.screens.byName[nm.value] == [];
      LoadedSpec(s1, reg, nm.value);
    }
  }

  /** Does the variant leave the `type` dataset entry alone for this record? */
  predicate KeepsType(v: Variant, cfg: Option<Record>)
  {
    "type" !in DatasetWrites(v.dataset(ConfigSeen(v, cfg)))
  }

  /** A built widget saves its variant's type name under "type". */
  lemma {:induction false} BuiltTypeKey(v: Variant, id: nat, cfg: Option<Record>, html: string)
    requires KeepsType(v, cfg)
    ensures TypeKey(Serialize(Build(v, id, cfg).(content := html))) == v.typeName
  {
    SerializeBuilt(v, id, cfg, html);
  }

  /** As written: with the source's registry, a screen whose first widget came from any
      registry constructor cannot be reloaded. Clicking its own tab (save, then load) throws
      and leaves the canvas empty. */
  lemma {:induction false} SourceSaveThenReloadFails(st: State, reg: Registry, k: string, cfg: Option<Record>, html: string)
    requires IsSourceRegistry(reg) && k in reg && KeepsType(reg[k], cfg)
    requires st.canvas != [] && st.canvas[0] == Build(reg[k], st.canvas[0].id, cfg).(content := html)
    ensures var (s, ok) := Switched(st, reg, st.active);
      !ok && s.canvas == []
  {
    BuiltTypeKey(reg[k], st.canvas[0].id, cfg, html);
    LabelsAreNotKeys();
    var s0 := Saved(st);
    var cfgs := s0.screens.byName[st.active];
    assert cfgs[0] == Serialize(st.canvas[0]);
    assert TypeKey(cfgs[0]) !in reg;
  }

  /** A registry keyed by the type name its constructors save, none of which overwrites it. */
  ghost predicate WellKeyed(reg: Registry)
  {
    forall k :: k in reg ==> reg[k].typeName == k
  }

  /** A widget whose type attribute names a registry entry. */
  predicate TypedBy(reg: Registry, w: Widget)
  {
    Data("type") in w.attrs && w.attrs[Data("type")] in reg
  }

  /** Every widget a well-keyed registry builds is typed by it. */
  lemma {:induction false} WellKeyedBuildsTyped(reg: Registry, k: string, id: nat, cfg: Option<Record>, html: string)
    requires WellKeyed(reg) && k in reg && KeepsType(reg[k], cfg)
    ensures TypedBy(reg, Build(reg[k], id, cfg).(content := html))
  {
    var v := reg[k];
    var w0 := CreateWidget(id, v.typeName, ConfigSeen(v, cfg));
    ApplyDatasetFields(w0, v.dataset(ConfigSeen(v, cfg)));
    var w := Build(v, id, cfg);
    assert DataFields(w.attrs)["type"] == k;
  }

  /** Corrected: when every canvas widget is typed by the registry, saving and reloading the
      active screen succeeds and rebuilds the saved records in order. */
  lemma {:induction false} WellKeyedSaveThenReload(st: State, reg: Registry)
    requires forall i :: 0 <= i < |st.canvas| ==> TypedBy(reg, st.canvas[i])
    ensures var (s, ok) := Switched(st, reg, st.active);
      ok && AllRegistered(reg, Records(st.canvas)) &&
      s.canvas == Reloads(reg, Records(st.canvas), st.nextId)
  {
    var rs := Records(st.canvas);
    forall i | 0 <= i < |rs| ensures TypeKey(rs[i]) in reg {
      assert rs[i] == Serialize(st.canvas[i]);
      assert DataFields(st.canvas[i].attrs)["type"] == st.canvas[i].attrs[Data("type")];
    }
    LoadedSpec(Saved(st), reg, st.active);
  }

  // ---------------------------------------------------------------------------------------
  // Drag

  /** A sequence of mouse-move events. */
  function Dragged(st: State, pts: seq<(int, int)>): State
    decreases |pts|
  {
    if pts == [] then st else Dragged(Moved(st, pts[0].0, pts[0].1), pts[1..])
  }

  /** Placing twice is placing once, at the second position. */
  lemma {:induction false} PlacedTwice(ws: seq<Widget>, id: nat, l1: Length, t1: Length, l2: Length, t2: Length)
    ensures Placed(Placed(ws, id, l1, t1), id, l2, t2) == Placed(ws, id, l2, t2)
  {
    var a, b := Placed(Placed(ws, id, l1, t1), id, l2, t2), Placed(ws, id, l2, t2);
    forall i | 0 <= i < |ws| ensures a[i] == b[i] { }
  }

  /** While the listening widget is down, moves only reposition it, to the last cursor
      position minus the recorded offset; nothing else in the page changes. */
  lemma {:induction false} MovesFollowCursor(st: State, id: nat, pts: seq<(int, int)>, dx: int, dy: int)
    requires st.moveSlot == Some(id) && id in st.drags && st.drags[id] == Drag(true, dx, dy)
    ensures var r := Dragged(st, pts);
      r.drags == st.drags && r.moveSlot == st.moveSlot && r.upSlot == st.upSlot &&
      r.screens == st.screens && r.active == st.active && r.writes == st.writes &&
      r.canvas == if pts == [] then st.canvas
                  else Placed(st.canvas, id, Pixels(pts[|pts| - 1].0 - dx), Pixels(pts[|pts| - 1].1 - dy))
    decreases |pts|
  {
    if pts != [] {
      var s1 := Moved(st, pts[0].0, pts[0].1);
      MovesFollowCursor(s1, id, pts[1..], dx, dy);
      if pts[1..] != [] {
        assert pts[1..][|pts[1..]| - 1] == pts[|pts| - 1];
        PlacedTwice(st.canvas, id, Pixels(pts[0].0 - dx), Pixels(pts[0].1 - dy),
                    Pixels(pts[|pts| - 1].0 - dx), Pixels(pts[|pts| - 1].1 - dy));
      }
    }
  }

  /** Releasing a pressed widget saves once, keeps the canvas and clears the drag. */
  lemma {:induction false} ReleaseWhileDown(m: State, id: nat, snapshot: string)
    requires m.upSlot == DragRelease(id) && id in m.drags && m.drags[id].down
    ensures var r := Released(m, snapshot);
      r.writes == m.writes + 1 && r.canvas == m.canvas && id in r.drags && !r.drags[id].down &&
      !r.selectionSuppressed && r.screens == m.screens.Put(m.active, Records(m.canvas))
  {
  }

  /** Press then moves: the pressed widget follows the cursor from where it was grabbed. */
  lemma {:induction false} PressThenMoves(st: State, id: nat, x0: int, y0: int, offsetLeft: int, offsetTop: int,
                                          pts: seq<(int, int)>)
    requires st.moveSlot == Some(id) && id in st.drags
    ensures var m := Dragged(Pressed(st, id, x0, y0, offsetLeft, offsetTop), pts);
      m.upSlot == st.upSlot && m.screens == st.screens && m.active == st.active && m.writes == st.writes &&
      id in m.drags && m.drags[id].down &&
      m.canvas == if pts == [] then st.canvas
                  else Placed(st.canvas, id, Pixels(offsetLeft + (pts[|pts| - 1].0 - x0)),
                              Pixels(offsetTop + (pts[|pts| - 1].1 - y0)))
  {
    var p := Pressed(st, id, x0, y0, offsetLeft, offsetTop);
    MovesFollowCursor(p, id, pts, x0 - offsetLeft, y0 - offsetTop);
    if pts != [] {
      var last := pts[|pts| - 1];
      assert Pixels(last.0 - (x0 - offsetLeft)) == Pixels(offsetLeft + (last.0 - x0));
      assert Pixels(last.1 - (y0 - offsetTop)) == Pixels(offsetTop + (last.1 - y0));
    }
  }

  /** A full gesture on the listening widget: press, any moves, release. The widget ends at
      its start offset plus the cursor displacement (no clamping), exactly one save happens,
      at release, and the drag state and text selection are restored. */
  lemma {:induction false} DragGesture(st: State, id: nat, x0: int, y0: int, offsetLeft: int, offsetTop: int,
                    pts: seq<(int, int)>, snapshot: string)
    requires st.moveSlot == Some(id) && st.upSlot == DragRelease(id) && id in st.drags
    ensures var r := Released(Dragged(Pressed(st, id, x0, y0, offsetLeft, offsetTop), pts), snapshot);
      r.writes == st.writes + 1 && id in r.drags && !r.drags[id].down && !r.selectionSuppressed &&
      r.screens == st.screens.Put(st.active, Records(r.canvas)) &&
      r.canvas == if pts == [] then st.canvas
                  else Placed(st.canvas, id, Pixels(offsetLeft + (pts[|pts| - 1].0 - x0)),
                              Pixels(offsetTop + (pts[|pts| - 1].1 - y0)))
  {
    PressThenMoves(st, id, x0, y0, offsetLeft, offsetTop, pts);
    ReleaseWhileDown(Dragged(Pressed(st, id, x0, y0, offsetLeft, offsetTop), pts), id, snapshot);
  }

  /** Only the newest widget drags: after a second widget is created, pressing the first
      one's header and moving the mouse moves nothing. */
  lemma {:induction false} OnlyNewestWidgetDrags(st: State, va: Variant, ca: Option<Record>, vb: Variant, cb: Option<Record>,
                              x0: int, y0: int, ol: int, ot: int, x: int, y: int)
    requires Inv(st)
    ensures var s := Constructed(Constructed(st, va, ca), vb, cb);
      Moved(Pressed(s, st.nextId, x0, y0, ol, ot), x, y).canvas == s.canvas
  {
    var s := Constructed(Constructed(st, va, ca), vb, cb);
    var p := Pressed(s, st.nextId, x0, y0, ol, ot);
    assert p.moveSlot == Some(st.nextId + 1) && p.canvas == s.canvas;
    assert st.nextId + 1 in p.drags && !p.drags[st.nextId + 1].down;
  }

  // ---------------------------------------------------------------------------------------
  // Annotation history

  /** Mouse-ups with the annotation handler installed, one snapshot each. */
  function Strokes(st: State, snaps: seq<string>): State
    decreases |snaps|
  {
    if snaps == [] then st else Strokes(Released(st, snaps[0]), snaps[1..])
  }

  /** `k` presses of the undo button. */
  function Undos(st: State, k: nat): State
    decreases k
  {
    if k == 0 then st else Undos(Undone(st).0, k - 1)
  }

  /** Every mouse-up pushes its snapshot and saves once. */
  lemma {:induction false} StrokesPush(st: State, snaps: seq<string>)
    requires st.upSlot == AnnotationRelease
    ensures var r := Strokes(st, snaps);
      r.history == st.history + snaps && r.writes == st.writes + |snaps| &&
      r.upSlot == AnnotationRelease && r.canvas == st.canvas && r.toolbar == st.toolbar
    decreases |snaps|
  {
    if snaps != [] {
      var s1 := Released(st, snaps[0]);
      assert s1.history == st.history + [snaps[0]] && s1.writes == st.writes + 1 &&
             s1.upSlot == AnnotationRelease && s1.canvas == st.canvas && s1.toolbar == st.toolbar by {
        assert s1 == Saved(st.(history := st.history + [snaps[0]]));
      }
      StrokesPush(s1, snaps[1..]);
      AppendFirstRest(st.history, snaps);
    }
  }

  /** Each undo on a non-empty history pops one entry and saves once. */
  lemma {:induction false} UndosPop(st: State, k: nat)
    requires st.toolbar && k <= |st.history|
    ensures var r := Undos(st, k);
      r.history == st.history[..|st.history| - k] && r.writes == st.writes + k && r.toolbar
    decreases k
  {
    if k > 0 {
      var s1 := Undone(st).0;
      assert s1.history == st.history[..|st.history| - 1] && s1.writes == st.writes + 1 && s1.toolbar;
      UndosPop(s1, k - 1);
      assert Undos(st, k) == Undos(s1, k - 1);
      assert s1.history[..|s1.history| - (k - 1)] == st.history[..|st.history| - k];
    } else {
      assert st.history[..|st.history|] == st.history;
    }
  }

  /** K strokes followed by K undos restore the history, with 2K saves. */
  lemma {:induction false} StrokesThenUndos(st: State, snaps: seq<string>)
    requires st.toolbar && st.upSlot == AnnotationRelease
    ensures var r := Undos(Strokes(st, snaps), |snaps|);
      r.history == st.history && r.writes == st.writes + 2 * |snaps|
  {
    StrokesPush(st, snaps);
    var s := Strokes(st, snaps);
    UndosPop(s, |snaps|);
    assert s.history[..|s.history| - |snaps|] == st.history;
  }

  /** Starting from an empty history, the last of K undos after K strokes finds nothing
      left to redraw: the overlay is cleared to blank. */
  lemma {:induction false} LastUndoBlank(st: State, snaps: seq<string>)
    requires st.toolbar && st.upSlot == AnnotationRelease && st.history == [] && snaps != []
    ensures Undone(Undos(Strokes(st, snaps), |snaps| - 1)).1 == None
  {
    var s := Strokes(st, snaps);
    assert |s.history| == |snaps| && s.toolbar by {
      StrokesPush(st, snaps);
    }
    var u := Undos(s, |snaps| - 1);
    assert |u.history| == 1 && u.toolbar by {
      UndosPop(s, |snaps| - 1);
    }
  }

  /** A widget created after the overlay takes the mouseup slot back: later mouse-ups no
      longer push snapshots. */
  lemma {:induction false} NewWidgetDetachesAnnotation(st: State, v: Variant, cfg: Option<Record>, snapshot: string)
    requires st.overlayReady
    ensures var s := Constructed(Toggled(st), v, cfg);
      Released(s, snapshot).history == st.history
  {
  }
  // ---------------------------------------------------------------------------------------
  // Page load

  /** Until the page-load callback has installed the toolbar, the widget picker, the annotate
      button and the undo button do nothing. */
  lemma UnwiredToolbarInert(st: State, reg: Registry, t: string)
    requires !st.toolbar
    ensures Picked(st, reg, t) == st && Toggled(st) == st && Undone(st) == (st, None)
  {
  }

  /** As written: reopening the page when the stored active screen starts with a saved
      widget. Its type is a display label, the lookup in `initScreens` throws, and the
      toolbar handlers are never installed: the canvas stays empty and the picker, annotate
      and undo buttons stay dead. */
  lemma {:induction false} SourceReopenLeavesToolbarUnwired(store: Store, reg: Registry, k: string)
    requires IsSourceRegistry(reg) && k in SourceLabels
    requires store.screens.Some? && store.active.Some? && store.active.value != ""
    requires var s := store.screens.value; var a := store.active.value;
      a in s.byName && s.byName[a] != [] && TypeKey(s.byName[a][0]) == SourceLabels[k]
    ensures var (r, ok) := Started(Fresh(store), reg);
      !ok && !r.toolbar && r.canvas == []
  {
    var s, a := store.screens.value, store.active.value;
    LabelsAreNotKeys();
    assert TypeKey(s.byName[a][0]) !in reg;
    InitWithStore(Fresh(store), reg);
  }

  // ---------------------------------------------------------------------------------------
  // The page invariant is kept by every handler

  lemma FreshInv(store: Store)
    requires store.screens.Some? ==> store.screens.value.Valid()
    ensures Inv(Fresh(store))
  {
  }

  /** Persisting changes only the storage entries, which then hold a valid collection. */
  lemma PersistedKeepsInv(st: State)
    requires Inv(st.(store := Store(None, None)))
    ensures Inv(Persisted(st))
  {
  }

  lemma {:induction false} SavedKeepsInv(st: State)
    requires Inv(st)
    ensures Inv(Saved(st))
  {
  }

  /** A built widget keeps the id it was created with. */
  lemma BuildId(v: Variant, id: nat, cfg: Option<Record>)
    ensures Build(v, id, cfg).id == id
  {
    var seen := ConfigSeen(v, cfg);
    ApplyDatasetFields(CreateWidget(id, v.typeName, seen), v.dataset(seen));
  }

  /** Appending a widget with the next id, draggable and holding both slots, keeps Inv. */
  lemma AppendedKeepsInv(st: State, w: Widget)
    requires Inv(st) && w.id == st.nextId
    ensures Inv(Appended(st, st.nextId, w))
  {
  }

  lemma {:induction false} ConstructedKeepsInv(st: State, v: Variant, cfg: Option<Record>)
    requires Inv(st)
    ensures Inv(Constructed(st, v, cfg))
  {
    var w := Build(v, st.nextId, cfg);
    BuildId(v, st.nextId, cfg);
    AppendedKeepsInv(st, w);
    if v.savesWhileBuilding(ConfigSeen(v, cfg)) {
      SavedKeepsInv(Appended(st, st.nextId, w));
    }
  }

  lemma {:induction false} LoadStepKeepsInv(st: State, v: Variant, cfg: Record)
    requires Inv(st)
    ensures Inv(LoadStep(st, v, cfg))
  {
    ConstructedKeepsInv(st, v, Some(cfg));
  }

  lemma {:induction false} LoadAllKeepsInv(st: State, reg: Registry, cfgs: seq<Record>)
    requires Inv(st)
    ensures Inv(LoadAll(st, reg, cfgs).0)
    decreases |cfgs|
  {
    if cfgs != [] && TypeKey(cfgs[0]) in reg {
      LoadStepKeepsInv(st, reg[TypeKey(cfgs[0])], cfgs[0]);
      LoadAllKeepsInv(LoadStep(st, reg[TypeKey(cfgs[0])], cfgs[0]), reg, cfgs[1..]);
    }
  }

  lemma {:induction false} LoadedKeepsInv(st: State, reg: Registry, name: string)
    requires Inv(st)
    ensures Inv(Loaded(st, reg, name).0)
  {
    if name in st.screens.byName {
      LoadAllKeepsInv(st.(canvas := []), reg, st.screens.byName[name]);
    }
  }

  lemma {:induction false} SwitchedKeepsInv(st: State, reg: Registry, name: string)
    requires Inv(st)
    ensures Inv(Switched(st, reg, name).0)
  {
    SavedKeepsInv(st);
    LoadedKeepsInv(Saved(st), reg, name);
  }

  lemma {:induction false} ScreenAddedKeepsInv(st: State, reg: Registry, nm: Option<string>)
    requires Inv(st)
    ensures Inv(ScreenAdded(st, reg, nm))
  {
    if nm.Some? && nm.value != "" && nm.value !in st.screens.byName && nm.value !in InheritedNames {
      var s := Persisted(st.(screens := st.screens.Put(nm.value, [])));
      PersistedKeepsInv(st.(screens := st.screens.Put(nm.value, [])));
      SwitchedKeepsInv(s, reg, nm.value);
      assert ScreenAdded(st, reg, nm) == Switched(s, reg, nm.value).0;
    }
  }

  lemma {:induction false} InitializedKeepsInv(st: State, reg: Registry)
    requires Inv(st)
    ensures Inv(Initialized(st, reg).0)
  {
    match st.store.screens
    case None =>
      var s := Persisted(st.(screens := Default, active := DefaultName));
      assert Inv(s);
      LoadedKeepsInv(s, reg, DefaultName);
    case Some(sc) =>
      var a := if st.store.active.Some? && st.store.active.value != "" then st.store.active.value
               else sc.First();
      LoadedKeepsInv(st.(screens := sc, active := a), reg, a);
  }

  lemma {:induction false} StartedKeepsInv(st: State, reg: Registry)
    requires Inv(st)
    ensures Inv(Started(st, reg).0)
  {
    InitializedKeepsInv(st, reg);
  }

  lemma {:induction false} PickedKeepsInv(st: State, reg: Registry, t: string)
    requires Inv(st)
    ensures Inv(Picked(st, reg, t))
  {
    if st.toolbar && t != "" && t in reg {
      ConstructedKeepsInv(st, reg[t], None);
      SavedKeepsInv(Constructed(st, reg[t], None));
    }
  }

  lemma {:induction false} ClosedKeepsInv(st: State, id: nat)
    requires Inv(st)
    ensures Inv(Closed(st, id))
  {
    var s := st.(canvas := Without(st.canvas, id));
    WithoutIncreasing(st.canvas, id);
    assert forall i :: 0 <= i < |s.canvas| ==> s.canvas[i] in st.canvas;
    SavedKeepsInv(s);
  }

  lemma {:induction false} DatasetWrittenKeepsInv(st: State, id: nat, key: string, value: string)
    requires Inv(st)
    ensures Inv(DatasetWritten(st, id, key, value))
  {
    var c := st.canvas;
    SavedKeepsInv(st.(canvas := seq(|c|, i requires 0 <= i < |c| => if c[i].id == id then SetData(c[i], key, value) else c[i])));
  }

  lemma {:induction false} PressedKeepsInv(st: State, id: nat, x: int, y: int, offsetLeft: int, offsetTop: int)
    requires Inv(st)
    ensures Inv(Pressed(st, id, x, y, offsetLeft, offsetTop))
  {
  }

  lemma {:induction false} MovedKeepsInv(st: State, x: int, y: int)
    requires Inv(st)
    ensures Inv(Moved(st, x, y))
  {
  }

  /** The drag release clears its closure's `down` flag and restores selection. */
  lemma DragReleaseKeepsInv(s: State, id: nat)
    requires Inv(s)
    ensures Inv(s.(drags := if id in s.drags then s.drags[id := s.drags[id].(down := false)] else s.drags,
                   selectionSuppressed := false))
  {
  }

  lemma {:induction false} ReleasedKeepsInv(st: State, snapshot: string)
    requires Inv(st)
    ensures Inv(Released(st, snapshot))
  {
    match st.upSlot
    case NoRelease =>
    case DragRelease(id) =>
      var s := if id in st.drags && st.drags[id].down then Saved(st) else st;
      assert Inv(s) by {
        SavedKeepsInv(st);
      }
      DragReleaseKeepsInv(s, id);
    case AnnotationRelease =>
      var s := st.(history := st.history + [snapshot]);
      SavedKeepsInv(s);
      assert Released(st, snapshot) == Saved(s);
  }

  lemma {:induction false} ToggledKeepsInv(st: State)
    requires Inv(st)
    ensures Inv(Toggled(st))
  {
  }

  lemma {:induction false} UndoneKeepsInv(st: State)
    requires Inv(st)
    ensures Inv(Undone(st).0)
  {
    if st.history != [] {
      SavedKeepsInv(st.(history := st.history[..|st.history| - 1]));
    }
  }
}
