/** The page as the script runs it: the globals as fields of one object, and one method per
    function or event handler, each proved to do what the corresponding function of
    DashboardModel says. */
module Dashboard {
  import opened Wrappers
  import opened Codec
  import opened ScreenStore
  import opened DashboardModel

  class Page {
    /** `widgetRegistry`, fixed when the script loads. */
    const registry: Registry

    var screens: Screens
    var active: string
    var canvas: seq<Widget>
    var nextId: nat
    var drags: map<nat, Drag>
    var moveSlot: Option<nat>
    var upSlot: Release
    var selectionSuppressed: bool
    var store: Store
    var writes: nat
    var overlayReady: bool
    var annotating: bool
    var history: seq<string>
    var toolbar: bool

    /** The page state as a value. */
    ghost function Snap(): State
      reads this
    {
      State(screens, active, canvas, nextId, drags, moveSlot, upSlot, selectionSuppressed,
            store, writes, overlayReady, annotating, history, toolbar)
    }

    /** What holds of the page between events; every handler keeps it. */
    ghost predicate Valid()
      reads this
    {
      Inv(Snap())
    }

    /** The page when the script starts, over the storage content `stored`; it is valid
        when the stored collection (which JSON gives with unique keys) is. */
    constructor(reg: Registry, stored: Store)
      ensures registry == reg && Snap() == Fresh(stored)
      ensures (stored.screens.Some? ==> stored.screens.value.Valid()) ==> Valid()
    {
      registry := reg;
      screens := Screens([], map[]);
      active := "undefined";
      canvas := [];
      nextId := 0;
      drags := map[];
      moveSlot := None;
      upSlot := NoRelease;
      selectionSuppressed := false;
      store := stored;
      writes := 0;
      overlayReady := false;
      annotating := false;
      history := [];
      toolbar := false;
      if stored.screens.Some? ==> stored.screens.value.Valid() {
        FreshInv(stored);
      }
    }

    // -------------------------------------------------------------------------------------
    // Screens

    /** `persistScreens`. */
    method PersistScreens()
      modifies this
      ensures Snap() == Persisted(old(Snap()))
    {
      store := Store(Some(screens), Some(active));
      writes := writes + 1;
    }

    /** `saveCurrentScreen`: one record per element in document order, then persist. */
    method SaveCurrentScreen()
      modifies this
      ensures Snap() == Saved(old(Snap()))
      ensures old(Valid()) ==> Valid()
    {
      if Valid() {
        SavedKeepsInv(Snap());
      }
      var ws := canvas;
      var arr: seq<Record> := [];
      var i := 0;
      while i < |ws|
        invariant 0 <= i <= |ws|
        invariant arr == Records(ws[..i])
        invariant unchanged(this)
      {
        RecordsSnoc(ws, i);
        arr := arr + [Serialize(ws[i])];
        i := i + 1;
      }
      assert ws[..i] == ws;
      screens := screens.Put(active, arr);
      PersistScreens();
    }

    /** `makeDraggable` for the element `id`: a fresh closure, and both document slots. */
    method MakeDraggable(id: nat)
      modifies this
      ensures drags == old(drags)[id := Drag(false, 0, 0)]
      ensures moveSlot == Some(id) && upSlot == DragRelease(id)
      ensures screens == old(screens) && active == old(active) && canvas == old(canvas)
      ensures nextId == old(nextId) && selectionSuppressed == old(selectionSuppressed)
      ensures store == old(store) && writes == old(writes) && overlayReady == old(overlayReady)
      ensures annotating == old(annotating) && history == old(history) && toolbar == old(toolbar)
    {
      drags := drags[id := Drag(false, 0, 0)];
      moveSlot := Some(id);
      upSlot := DragRelease(id);
    }

    /** `createWidget(type, cfg)`: the new element goes to the end of the canvas under the
        next id, and is made draggable. */
    method AppendWidget(typeName: string, cfg: Option<Record>) returns (id: nat)
      modifies this
      ensures id == old(nextId) && nextId == id + 1
      ensures canvas == old(canvas) + [CreateWidget(id, typeName, cfg)]
      ensures drags == old(drags)[id := Drag(false, 0, 0)]
      ensures moveSlot == Some(id) && upSlot == DragRelease(id)
      ensures screens == old(screens) && active == old(active)
      ensures selectionSuppressed == old(selectionSuppressed)
      ensures store == old(store) && writes == old(writes) && overlayReady == old(overlayReady)
      ensures annotating == old(annotating) && history == old(history) && toolbar == old(toolbar)
    {
      id := nextId;
      canvas := canvas + [CreateWidget(id, typeName, cfg)];
      nextId := id + 1;
      MakeDraggable(id);
    }

    /** A registry constructor: createWidget, then the constructor's dataset entries written
        one by one and its content, and a save when the constructor makes one. */
    method RunConstructor(v: Variant, cfg: Option<Record>)
      modifies this
      ensures Snap() == Constructed(old(Snap()), v, cfg)
    {
      var seen := ConfigSeen(v, cfg);
      var id := AppendWidget(v.typeName, seen);
      var w := canvas[|canvas| - 1];
      var writes := v.dataset(seen);
      ghost var made := Snap();
      var k := 0;
      while k < |writes|
        invariant 0 <= k <= |writes|
        invariant ApplyDataset(w, writes[k..]) == ApplyDataset(CreateWidget(id, v.typeName, seen), writes)
        invariant Snap() == made
      {
        assert writes[k..][1..] == writes[k + 1..];
        w := SetData(w, writes[k].0, writes[k].1);
        k := k + 1;
      }
      assert writes[k..] == [];
      w := w.(content := v.content(seen));
      canvas := canvas[|canvas| - 1 := w];
      assert canvas == old(canvas) + [Build(v, id, cfg)];
      if v.savesWhileBuilding(seen) {
        SaveCurrentScreen();
      }
    }

    /** One turn of loadScreen's forEach: the registry constructor on the record, then the
        record's html as the new widget's content. */
    method LoadRecord(cfg: Record)
      requires TypeKey(cfg) in registry
      modifies this
      ensures Snap() == LoadStep(old(Snap()), registry[TypeKey(cfg)], cfg)
    {
      RunConstructor(registry[TypeKey(cfg)], Some(cfg));
      canvas := canvas[|canvas| - 1 := canvas[|canvas| - 1].(content := HtmlOf(cfg))];
    }

    /** `loadScreen(name)`; `ok` is false where the script throws. */
    method LoadScreen(name: string) returns (ok: bool)
      modifies this
      ensures (Snap(), ok) == Loaded(old(Snap()), registry, name)
      ensures old(Valid()) ==> Valid()
    {
      canvas := [];
      if name !in screens.byName {
        if old(Valid()) { LoadedKeepsInv(old(Snap()), registry, name); }
        return false;
      }
      var cfgs := screens.byName[name];
      ghost var start := Snap();
      var i := 0;
      while i < |cfgs|
        invariant 0 <= i <= |cfgs|
        invariant LoadAll(Snap(), registry, cfgs[i..]) == LoadAll(start, registry, cfgs)
        decreases |cfgs| - i
      {
        var cfg := cfgs[i];
        if TypeKey(cfg) !in registry {
          if old(Valid()) { LoadedKeepsInv(old(Snap()), registry, name); }
          return false;
        }
        LoadStepOf(cfgs, i);
        LoadRecord(cfg);
        i := i + 1;
      }
      assert cfgs[i..] == [];
      active := name;
      PersistScreens();
      ok := true;
      if old(Valid()) { LoadedKeepsInv(old(Snap()), registry, name); }
    }

    /** One turn of the load loop, as LoadAll unfolds it. */
    lemma LoadStepOf(cfgs: seq<Record>, i: nat)
      requires i < |cfgs| && TypeKey(cfgs[i]) in registry
      ensures forall st: State ::
                LoadAll(st, registry, cfgs[i..]) ==
                LoadAll(LoadStep(st, registry[TypeKey(cfgs[i])], cfgs[i]), registry, cfgs[i + 1..])
    {
      assert cfgs[i..][0] == cfgs[i] && cfgs[i..][1..] == cfgs[i + 1..];
    }

    /** `switchScreen(name)`. */
    method SwitchScreen(name: string) returns (ok: bool)
      modifies this
      ensures (Snap(), ok) == Switched(old(Snap()), registry, name)
      ensures old(Valid()) ==> Valid()
    {
      if Valid() {
        SwitchedKeepsInv(Snap(), registry, name);
      }
      SaveCurrentScreen();
      ok := LoadScreen(name);
    }

    /** The add-screen button, with the prompt's answer. */
    method AddScreen(nm: Option<string>)
      modifies this
      ensures Snap() == ScreenAdded(old(Snap()), registry, nm)
      ensures old(Valid()) ==> Valid()
    {
      if Valid() {
        ScreenAddedKeepsInv(Snap(), registry, nm);
      }
      if nm.Some? && nm.value != "" && nm.value !in screens.byName && nm.value !in InheritedNames {
        screens := screens.Put(nm.value, []);
        PersistScreens();
        var _ := SwitchScreen(nm.value);
      }
    }

    /** `initScreens`. */
    method InitScreens() returns (ok: bool)
      modifies this
      ensures (Snap(), ok) == Initialized(old(Snap()), registry)
      ensures old(Valid()) ==> Valid()
    {
      if Valid() {
        InitializedKeepsInv(Snap(), registry);
      }
      match store.screens {
        case None =>
          screens := Default;
          active := DefaultName;
          PersistScreens();
        case Some(s) =>
          screens := s;
          active := if store.active.Some? && store.active.value != "" then store.active.value
                    else s.First();
      }
      ok := LoadScreen(active);
    }

    /** The page-load callback: `initScreens`, then the toolbar handlers, which are installed
        only when `initScreens` returns without throwing. */
    method Start() returns (ok: bool)
      modifies this
      ensures (Snap(), ok) == Started(old(Snap()), registry)
      ensures old(Valid()) ==> Valid()
    {
      if Valid() {
        StartedKeepsInv(Snap(), registry);
      }
      ok := InitScreens();
      if ok {
        toolbar := true;
      }
    }

    // -------------------------------------------------------------------------------------
    // Widgets

    /** The widget picker with value `t`, once the toolbar is installed. */
    method PickWidget(t: string)
      modifies this
      ensures Snap() == Picked(old(Snap()), registry, t)
      ensures old(Valid()) ==> Valid()
    {
      if Valid() {
        PickedKeepsInv(Snap(), registry, t);
      }
      if toolbar && t != "" && t in registry {
        RunConstructor(registry[t], None);
        SaveCurrentScreen();
      }
    }

    /** A widget's close button. */
    method CloseWidget(id: nat)
      modifies this
      ensures Snap() == Closed(old(Snap()), id)
      ensures old(Valid()) ==> Valid()
    {
      if Valid() {
        ClosedKeepsInv(Snap(), id);
      }
      canvas := Without(canvas, id);
      SaveCurrentScreen();
    }

    /** A widget handler's `w.dataset[key] = value; saveCurrentScreen()`. */
    method SetDataset(id: nat, key: string, value: string)
      modifies this
      ensures Snap() == DatasetWritten(old(Snap()), id, key, value)
      ensures old(Valid()) ==> Valid()
    {
      if Valid() {
        DatasetWrittenKeepsInv(Snap(), id, key, value);
      }
      var c := canvas;
      canvas := seq(|c|, i requires 0 <= i < |c| => if c[i].id == id then SetData(c[i], key, value) else c[i]);
      SaveCurrentScreen();
    }

    // -------------------------------------------------------------------------------------
    // Drag controller

    /** mousedown on widget `id`'s header. */
    method HeaderMouseDown(id: nat, x: int, y: int, offsetLeft: int, offsetTop: int)
      modifies this
      ensures Snap() == Pressed(old(Snap()), id, x, y, offsetLeft, offsetTop)
      ensures old(Valid()) ==> Valid()
    {
      if Valid() {
        PressedKeepsInv(Snap(), id, x, y, offsetLeft, offsetTop);
      }
      if id in drags {
        drags := drags[id := Drag(true, x - offsetLeft, y - offsetTop)];
        selectionSuppressed := true;
      }
    }

    /** `document.onmousemove`. */
    method MouseMove(x: int, y: int)
      modifies this
      ensures Snap() == Moved(old(Snap()), x, y)
      ensures old(Valid()) ==> Valid()
    {
      if Valid() {
        MovedKeepsInv(Snap(), x, y);
      }
      if moveSlot.Some? {
        var id := moveSlot.value;
        if id in drags && drags[id].down {
          var d := drags[id];
          canvas := Placed(canvas, id, Pixels(x - d.dx), Pixels(y - d.dy));
        }
      }
    }

    /** `document.onmouseup`, with what `toDataURL` would return. */
    method MouseUp(snapshot: string)
      modifies this
      ensures Snap() == Released(old(Snap()), snapshot)
      ensures old(Valid()) ==> Valid()
    {
      if Valid() {
        ReleasedKeepsInv(Snap(), snapshot);
      }
      match upSlot {
        case NoRelease =>
        case DragRelease(id) =>
          if id in drags && drags[id].down {
            SaveCurrentScreen();
          }
          if id in drags {
            drags := drags[id := drags[id].(down := false)];
          }
          selectionSuppressed := false;
        case AnnotationRelease =>
          history := history + [snapshot];
          SaveCurrentScreen();
      }
    }

    // -------------------------------------------------------------------------------------
    // Annotation overlay

    /** The annotate button, once the toolbar is installed. */
    method ToggleAnnotation()
      modifies this
      ensures Snap() == Toggled(old(Snap()))
      ensures old(Valid()) ==> Valid()
    {
      if Valid() {
        ToggledKeepsInv(Snap());
      }
      if !toolbar {
        return;
      }
      annotating := !annotating;
      if !overlayReady {
        overlayReady := true;
        upSlot := AnnotationRelease;
      }
    }

    /** The undo button, once the toolbar is installed; `drawn` is the snapshot drawn back (None: the overlay is blank). */
    method Undo() returns (drawn: Option<string>)
      modifies this
      ensures (Snap(), drawn) == Undone(old(Snap()))
      ensures old(Valid()) ==> Valid()
    {
      if Valid() {
        UndoneKeepsInv(Snap());
      }
      if !toolbar || history == [] {
        return None;
      }
      history := history[..|history| - 1];
      drawn := if history == [] then None else Some(history[|history| - 1]);
      SaveCurrentScreen();
    }
  }
}
