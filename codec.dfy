/** A widget element as the engine sees it, the `data-*` naming of `HTMLElement.dataset`,
    the record `saveCurrentScreen` builds from an element, `createWidget`'s geometry rule,
    and the registry entries that rebuild a widget from a record. */
module Codec {
  import opened Wrappers
  import Text

  /** A saved widget: property name to string value (a plain object after a JSON round trip). */
  type Record = map<string, string>

  /** An attribute name as `startsWith('data-')` and `slice(5)` read it: a data attribute
      by the key after the prefix, any other attribute by its full name. */
  datatype AttrName = Data(key: string) | Plain(name: string)

  const DataPrefix: string := "data-"

  /** `name.startsWith('data-')`. */
  predicate IsDataName(name: string)
  {
    |DataPrefix| <= |name| && name[..|DataPrefix|] == DataPrefix
  }

  /** How the saved record reads an attribute name. */
  function ParseName(name: string): AttrName
  {
    if IsDataName(name) then Data(name[|DataPrefix|..]) else Plain(name)
  }

  /** The attribute name as it appears on the element. */
  function NameText(n: AttrName): string
  {
    match n
    case Data(k) => DataPrefix + k
    case Plain(s) => s
  }

  /** Reading the name back recovers it, so keeping attribute names in parsed form loses
      nothing; a plain name is one that does not start with the prefix. */
  lemma ParseNameText(n: AttrName)
    requires n.Plain? ==> !IsDataName(n.name)
    ensures ParseName(NameText(n)) == n
  {
    if n.Data? {
      var s := DataPrefix + n.key;
      assert s[..|DataPrefix|] == DataPrefix && s[|DataPrefix|..] == n.key;
    }
  }

  /** An inline style length as the element holds it: text copied from a record or a
      default, or a pixel count computed by the drag handler. */
  datatype Length = Given(text: string) | Pixels(n: int)

  /** Reading `w.style[p]` back as text: a computed count reads `<n>px`. */
  function LengthText(l: Length): string
  {
    match l
    case Given(t) => t
    case Pixels(n) => Text.IntToString(n) + "px"
  }

  /** A widget's root element on the canvas: its identity, the four inline geometry
      properties ("" when unset), the markup of its `.content` box, and its attributes by
      name (an element never carries two attributes of one name; the inline style attribute
      is given by the four geometry fields). */
  datatype Widget = Widget(id: nat, left: Length, top: Length, width: Length, height: Length,
                           content: string, attrs: map<AttrName, string>)

  /** The `filter`/`reduce` over the element's attributes: every `data-*` attribute keyed
      by its name without the prefix. */
  function DataFields(attrs: map<AttrName, string>): (o: Record)
    ensures forall k :: k in o <==> Data(k) in attrs
    ensures forall k :: k in o ==> o[k] == attrs[Data(k)]
  {
    map n | n in attrs && n.Data? :: n.key := attrs[n]
  }

  /** The element's own part of its record: geometry and content markup. */
  function OwnFields(w: Widget): Record
  {
    map["left" := LengthText(w.left), "top" := LengthText(w.top), "width" := LengthText(w.width),
        "height" := LengthText(w.height), "html" := w.content]
  }

  /** The record `saveCurrentScreen` pushes for one element: type, the four geometry
      properties and the content markup, with every dataset entry spread over them. */
  function Serialize(w: Widget): Record
  {
    var own := OwnFields(w);
    var typed := if Data("type") in w.attrs then own["type" := w.attrs[Data("type")]] else own;
    typed + DataFields(w.attrs)
  }

  /** The record holds exactly the element's own fields and its dataset keys; a dataset
      entry wins over an own field of the same name. */
  lemma SerializeSpread(w: Widget)
    ensures Serialize(w).Keys == OwnFields(w).Keys + DataFields(w.attrs).Keys
    ensures forall k :: k in DataFields(w.attrs) ==> Serialize(w)[k] == DataFields(w.attrs)[k]
    ensures forall k :: k in OwnFields(w) && k !in DataFields(w.attrs) ==> Serialize(w)[k] == OwnFields(w)[k]
  {
  }

  /** Every record comes from an element carrying `data-type`, so it is the element's own
      fields with the dataset spread over them. */
  lemma SerializeTyped(w: Widget)
    requires Data("type") in w.attrs
    ensures Serialize(w) == OwnFields(w) + DataFields(w.attrs)
  {
    var own, df := OwnFields(w), DataFields(w.attrs);
    assert "type" in df;
    UpdateThenUnion(own, "type", w.attrs[Data("type")], df);
    assert map["type" := w.attrs[Data("type")]] + df == df;
  }

  /** One record per element, in canvas order. */
  function Records(ws: seq<Widget>): (rs: seq<Record>)
    ensures |rs| == |ws| && forall i :: 0 <= i < |ws| ==> rs[i] == Serialize(ws[i])
  {
    seq(|ws|, i requires 0 <= i < |ws| => Serialize(ws[i]))
  }

  /** Records of a longer prefix: one more record at the end. */
  lemma RecordsSnoc(ws: seq<Widget>, i: nat)
    requires i < |ws|
    ensures Records(ws[..i + 1]) == Records(ws[..i]) + [Serialize(ws[i])]
  {
    assert ws[..i + 1][i] == ws[i];
  }

  predicate IsUpper(c: char) { 'A' <= c <= 'Z' }

  /** The attribute-name part that `el.dataset[key] = v` writes after `data-`: every ASCII
      upper-case letter becomes '-' followed by its lower-case form. */
  function Hyphenate(key: string): (r: string)
  {
    if key == [] then []
    else
      (if IsUpper(key[0]) then ['-', (key[0] as int + 32) as char] else [key[0]])
      + Hyphenate(key[1..])
  }

  /** A key without upper-case letters is written under its own name. */
  lemma {:induction false} HyphenateLowerCase(key: string)
    requires forall i :: 0 <= i < |key| ==> !IsUpper(key[i])
    ensures Hyphenate(key) == key
  {
    if key != [] {
      HyphenateLowerCase(key[1..]);
    }
  }

  /** `el.dataset[key] = value`: sets the attribute `data-` + Hyphenate(key). */
  function SetData(w: Widget, key: string, value: string): Widget
  {
    w.(attrs := w.attrs[Data(Hyphenate(key)) := value])
  }

  /** The record entries a series of dataset writes leaves behind, keyed as the saved
      record sees them; a later write of the same key wins. */
  function DatasetWrites(writes: seq<(string, string)>): Record
  {
    if writes == [] then map[]
    else map[Hyphenate(writes[0].0) := writes[0].1] + DatasetWrites(writes[1..])
  }

  /** Several dataset writes in order. */
  function ApplyDataset(w: Widget, writes: seq<(string, string)>): (r: Widget)
    decreases |writes|
  {
    if writes == [] then w else ApplyDataset(SetData(w, writes[0].0, writes[0].1), writes[1..])
  }

  /** Writing `data-` + h changes exactly the record entry h. */
  lemma DataFieldsSet(attrs: map<AttrName, string>, h: string, value: string)
    ensures DataFields(attrs[Data(h) := value]) == DataFields(attrs)[h := value]
  {
    var l, r := DataFields(attrs[Data(h) := value]), DataFields(attrs)[h := value];
    assert forall k :: k in l <==> k in r;
  }

  lemma UpdateThenUnion<K, V>(m: map<K, V>, k: K, v: V, n: map<K, V>)
    ensures m[k := v] + n == m + (map[k := v] + n)
  {
  }

  /** Dataset writes leave everything but the attributes alone, and the saved entries they
      leave are DatasetWrites over the ones already there. */
  lemma {:induction false} ApplyDatasetFields(w: Widget, writes: seq<(string, string)>)
    ensures ApplyDataset(w, writes).(attrs := w.attrs) == w
    ensures DataFields(ApplyDataset(w, writes).attrs) == DataFields(w.attrs) + DatasetWrites(writes)
    decreases |writes|
  {
    if writes != [] {
      var h, v := Hyphenate(writes[0].0), writes[0].1;
      var w1 := SetData(w, writes[0].0, v);
      ApplyDatasetFields(w1, writes[1..]);
      DataFieldsSet(w.attrs, h, v);
      UpdateThenUnion(DataFields(w.attrs), h, v, DatasetWrites(writes[1..]));
    }
  }

  /** A geometry property as createWidget reads it from a record: `cfg[p] || ''`. */
  function Prop(c: Record, p: string): string
  {
    if p in c && c[p] != "" then c[p] else ""
  }

  /** The geometry a widget gets from createWidget: with a record, each property that is
      non-empty there (and only those); without one, the 20px/20px/200px/200px defaults. */
  function Placement(cfg: Option<Record>): (g: Record)
  {
    match cfg
    case None => map["left" := "20px", "top" := "20px", "width" := "200px", "height" := "200px"]
    case Some(c) =>
      map["left" := Prop(c, "left"), "top" := Prop(c, "top"), "width" := Prop(c, "width"),
          "height" := Prop(c, "height")]
  }

  /** `createWidget(type, cfg)`: a `.widget` element whose `data-type` is the type name,
      with the geometry of Placement and an empty content box. */
  function CreateWidget(id: nat, typeName: string, cfg: Option<Record>): (w: Widget)
    ensures w.id == id && w.content == ""
  {
    var attrs := map[Plain("class") := "widget", Data("type") := typeName];
    match cfg
    case None => Widget(id, Given("20px"), Given("20px"), Given("200px"), Given("200px"), "", attrs)
    case Some(c) =>
      Widget(id, Given(Prop(c, "left")), Given(Prop(c, "top")), Given(Prop(c, "width")),
             Given(Prop(c, "height")), "", attrs)
  }

  /** The element createWidget makes carries only its type as dataset, and the geometry of
      Placement. */
  lemma CreateWidgetSpec(id: nat, typeName: string, cfg: Option<Record>)
    ensures var w := CreateWidget(id, typeName, cfg);
      DataFields(w.attrs) == map["type" := typeName] &&
      var g := Placement(cfg);
      w.left == Given(g["left"]) && w.top == Given(g["top"]) && w.width == Given(g["width"]) &&
      w.height == Given(g["height"])
  {
    var w := CreateWidget(id, typeName, cfg);
    assert DataFields(w.attrs).Keys == {"type"};
  }

  /** A registry entry: the constructor of one widget variant, abstracted to what the engine
      can observe. `typeName` is the type string it passes to createWidget; `usesConfig` is false
      for the constructors declared without a cfg parameter (they ignore the record); the
      three functions give, for the record the constructor sees, the dataset writes it makes,
      the markup it puts in the content box, and whether it calls saveCurrentScreen while
      being built. */
  datatype Variant = Variant(
    typeName: string,
    usesConfig: bool,
    dataset: Option<Record> -> seq<(string, string)>,
    content: Option<Record> -> string,
    savesWhileBuilding: Option<Record> -> bool)

  type Registry = map<string, Variant>

  /** The record a constructor actually receives. */
  function ConfigSeen(v: Variant, cfg: Option<Record>): Option<Record>
  {
    if v.usesConfig then cfg else None
  }

  /** The widget a registry constructor builds for an optional record. */
  function Build(v: Variant, id: nat, cfg: Option<Record>): Widget
  {
    var seen := ConfigSeen(v, cfg);
    ApplyDataset(CreateWidget(id, v.typeName, seen), v.dataset(seen)).(content := v.content(seen))
  }

  /** `cont.innerHTML = cfg.html`: an absent html property is written as the text "undefined". */
  function HtmlOf(cfg: Record): string
  {
    if "html" in cfg then cfg["html"] else "undefined"
  }

  /** The registry key `loadScreen` indexes with: `cfg.type`, where an absent property is
      looked up under the key "undefined". */
  function TypeKey(cfg: Record): string
  {
    if "type" in cfg then cfg["type"] else "undefined"
  }

  /** A widget as loadScreen leaves it: built from the record, content replaced by its html. */
  function Reload(v: Variant, id: nat, cfg: Record): Widget
  {
    Build(v, id, Some(cfg)).(content := HtmlOf(cfg))
  }

  /** Independent description of the record a built widget saves to once its content box
      holds `html`: the createWidget geometry, the html, the variant's type name, and the
      variant's dataset writes over all of them. */
  function ExpectedRecord(v: Variant, cfg: Option<Record>, html: string): Record
  {
    var seen := ConfigSeen(v, cfg);
    Placement(seen)["html" := html]["type" := v.typeName] + DatasetWrites(v.dataset(seen))
  }

  /** A widget whose geometry is Placement(cfg) owns exactly those fields and its content. */
  lemma OwnFieldsPlacement(w: Widget, cfg: Option<Record>)
    requires var g := Placement(cfg);
      w.left == Given(g["left"]) && w.top == Given(g["top"]) && w.width == Given(g["width"]) &&
      w.height == Given(g["height"])
    ensures OwnFields(w) == Placement(cfg)["html" := w.content]
  {
    var g := Placement(cfg);
    var a, b := OwnFields(w), g["html" := w.content];
    assert a.Keys == b.Keys;
  }

  /** Saving a built widget yields ExpectedRecord. */
  lemma SerializeBuilt(v: Variant, id: nat, cfg: Option<Record>, html: string)
    ensures Serialize(Build(v, id, cfg).(content := html)) == ExpectedRecord(v, cfg, html)
  {
    var seen := ConfigSeen(v, cfg);
    var w0 := CreateWidget(id, v.typeName, seen);
    CreateWidgetSpec(id, v.typeName, seen);
    var dw := DatasetWrites(v.dataset(seen));
    ApplyDatasetFields(w0, v.dataset(seen));
    var w := Build(v, id, cfg).(content := html);
    assert w.attrs == ApplyDataset(w0, v.dataset(seen)).attrs;
    assert DataFields(w.attrs) == map["type" := v.typeName] + dw;
    assert Data("type") in w.attrs by {
      assert "type" in DataFields(w.attrs);
    }
    SerializeTyped(w);
    var g := Placement(seen);
    OwnFieldsPlacement(w, seen);
    UpdateThenUnion(g["html" := html], "type", v.typeName, dw);
  }

  /** Saving a reloaded widget yields ExpectedRecord with the record's html, whatever id
      the widget was given. */
  lemma SerializeReload(v: Variant, cfg: Record)
    ensures forall id: nat :: Serialize(Reload(v, id, cfg)) == ExpectedRecord(v, Some(cfg), HtmlOf(cfg))
  {
    forall id: nat ensures Serialize(Reload(v, id, cfg)) == ExpectedRecord(v, Some(cfg), HtmlOf(cfg)) {
      SerializeBuilt(v, id, Some(cfg), HtmlOf(cfg));
    }
  }

  lemma ExpectedKeeps(v: Variant, cfg: Record, p: string)
    requires v.usesConfig && p in {"left", "top", "width", "height"} && p in cfg && cfg[p] != ""
    requires p !in DatasetWrites(v.dataset(Some(cfg)))
    requires "html" !in DatasetWrites(v.dataset(Some(cfg)))
    ensures var e := ExpectedRecord(v, Some(cfg), HtmlOf(cfg));
      p in e && e[p] == cfg[p] && "html" in e && e["html"] == HtmlOf(cfg) &&
      ("type" !in DatasetWrites(v.dataset(Some(cfg))) ==> "type" in e && e["type"] == v.typeName)
  {
  }

  /** What a reload keeps: a non-empty geometry property and the html come back unchanged
      (unless the constructor itself writes a dataset entry of that name), and the type comes
      back as the constructor's type name. */
  lemma ReloadKeeps(v: Variant, id: nat, cfg: Record, p: string)
    requires v.usesConfig && p in {"left", "top", "width", "height"} && p in cfg && cfg[p] != ""
    requires p !in DatasetWrites(v.dataset(Some(cfg)))
    requires "html" !in DatasetWrites(v.dataset(Some(cfg)))
    ensures var r := Serialize(Reload(v, id, cfg));
      p in r && r[p] == cfg[p] && "html" in r && r["html"] == HtmlOf(cfg) &&
      ("type" !in DatasetWrites(v.dataset(Some(cfg))) ==> "type" in r && r["type"] == v.typeName)
  {
    SerializeReload(v, cfg);
    ExpectedKeeps(v, cfg, p);
  }

  lemma ExpectedDrops(v: Variant, cfg: Option<Record>, html: string, k: string)
    requires k !in {"type", "left", "top", "width", "height", "html"}
    ensures k in ExpectedRecord(v, cfg, html) <==> k in DatasetWrites(v.dataset(ConfigSeen(v, cfg)))
  {
  }

  /** What a reload loses: a record field other than type, geometry and html survives only
      when the constructor writes it again as a dataset entry. */
  lemma ReloadDropsUnwritten(v: Variant, id: nat, cfg: Record, k: string)
    requires k !in {"type", "left", "top", "width", "height", "html"}
    ensures k in Serialize(Reload(v, id, cfg)) <==> k in DatasetWrites(v.dataset(ConfigSeen(v, Some(cfg))))
  {
    SerializeReload(v, cfg);
    ExpectedDrops(v, Some(cfg), HtmlOf(cfg), k);
  }

  /** The written attribute name never holds an upper-case letter. */
  lemma {:induction false} HyphenateHasNoUpper(key: string)
    ensures forall i :: 0 <= i < |Hyphenate(key)| ==> !IsUpper(Hyphenate(key)[i])
  {
    if key != [] {
      HyphenateHasNoUpper(key[1..]);
      var head := if IsUpper(key[0]) then ['-', (key[0] as int + 32) as char] else [key[0]];
      var rest := Hyphenate(key[1..]);
      assert Hyphenate(key) == head + rest;
      forall i | 0 <= i < |head + rest| ensures !IsUpper((head + rest)[i]) {
        if i >= |head| {
          assert (head + rest)[i] == rest[i - |head|];
        }
      }
    }
  }

  /** A camelCase dataset key (one with an upper-case letter, such as `gThreshold`) is
      saved under its hyphenated attribute name and not under its own, so a constructor
      that reads the camelCase key back from the record does not find it. */
  lemma CamelCaseKeySavedHyphenated(key: string, value: string, i: nat)
    requires i < |key| && IsUpper(key[i])
    ensures var saved := DatasetWrites([(key, value)]);
      Hyphenate(key) in saved && saved[Hyphenate(key)] == value && key !in saved
  {
    HyphenateHasNoUpper(key);
    assert Hyphenate(key) != key;
    assert DatasetWrites([(key, value)]) == map[Hyphenate(key) := value];
  }

  /** The keys of the source's registry and the typeName each widget constructor passes to
      createWidget (`setBackground` builds no widget). */
  const SourceLabels: map<string, string> := map[
    "screenShare" := "Screen Share", "text" := "Text", "clock" := "Clock", "timer" := "Timer",
    "visualTimer" := "Visual Timer", "eventCountdown" := "Countdown", "poll" := "Poll",
    "timetable" := "Timetable", "randomizer" := "Randomizer", "groupMaker" := "Group Maker",
    "dice" := "Dice", "trafficLight" := "Traffic Light", "scoreboard" := "Scoreboard",
    "soundLevel" := "Sound Level", "workSymbols" := "Work Symbols", "stickers" := "Stickers",
    "image" := "Image", "video" := "Video", "embed" := "Embed", "hyperlink" := "Hyperlink",
    "restroom" := "Rest Room"]

  const SourceKeys: set<string> := SourceLabels.Keys + {"setBackground"}

  /** The constructors declared with a cfg parameter. */
  const SourceTakesConfig: set<string> := {
    "screenShare", "text", "timer", "visualTimer", "eventCountdown", "poll", "timetable",
    "randomizer", "groupMaker", "soundLevel", "embed"}

  /** A registry shaped like the source's: the same keys, labels and cfg parameters. */
  ghost predicate IsSourceRegistry(reg: Registry)
  {
    reg.Keys == SourceLabels.Keys &&
    forall k :: k in reg ==> reg[k].typeName == SourceLabels[k] && reg[k].usesConfig == (k in SourceTakesConfig)
  }

  /** Every display typeName starts with a capital letter. */
  lemma LabelsCapitalised()
    ensures forall k :: k in SourceLabels ==> |SourceLabels[k]| > 0 && IsUpper(SourceLabels[k][0])
  {
  }

  /** Every registry key starts with a lower-case letter. */
  lemma KeysLowerCase()
    ensures forall j :: j in SourceKeys ==> |j| > 0 && !IsUpper(j[0])
  {
    var keys := {
      "screenShare", "text", "clock", "timer", "visualTimer", "eventCountdown", "poll",
      "timetable", "randomizer", "groupMaker", "dice", "trafficLight", "scoreboard",
      "soundLevel", "workSymbols", "stickers", "image", "video", "embed", "hyperlink",
      "restroom", "setBackground"};
    assert SourceKeys <= keys;
    forall j | j in keys ensures |j| > 0 && !IsUpper(j[0]) {
    }
  }

  /** No display typeName is a registry key. */
  lemma LabelsAreNotKeys()
    ensures forall k :: k in SourceLabels ==> SourceLabels[k] !in SourceKeys
  {
    LabelsCapitalised();
    KeysLowerCase();
  }
}
