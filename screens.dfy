/** The screen collection (`screens`) and the two entries it is persisted under. */
module ScreenStore {
  import opened Wrappers
  import opened Codec

  /** `screens`: every screen name in insertion order and its widget records. */
  datatype Screens = Screens(names: seq<string>, byName: map<string, seq<Record>>)
  {
    /** Names are unique and are exactly the keys. */
    ghost predicate Valid()
    {
      (forall i, j :: 0 <= i < j < |names| ==> names[i] != names[j]) &&
      (forall n :: n in byName <==> n in names)
    }

    /** `screens[name] = recs`: a new name goes last, an existing one keeps its place. This is
        the order `Object.keys` lists for names that are not array indices ("0", "12"); those
        it lists first, in numeric order, which this model does not. */
    function Put(name: string, recs: seq<Record>): (s: Screens)
      ensures Valid() ==> s.Valid()
      ensures s.byName.Keys == byName.Keys + {name} && s.byName[name] == recs
      ensures forall n :: n in byName && n != name ==> s.byName[n] == byName[n]
      ensures Valid() && name in byName ==> s.names == names
      ensures Valid() && name !in byName ==> s.names == names + [name]
    {
      if name in names then Screens(names, byName[name := recs])
      else Screens(names + [name], byName[name := recs])
    }

    /** `Object.keys(screens)[0]`; with no key this is undefined, which as a property key
        and as a stored string reads "undefined". */
    function First(): (n: string)
      ensures Valid() && names != [] ==> n in byName
    {
      if names == [] then "undefined" else names[0]
    }
  }

  /** The names every plain object inherits from `Object.prototype`: reading one of them on
      `screens` gives a function or the prototype, never undefined. */
  const InheritedNames: set<string> := {
    "constructor", "hasOwnProperty", "isPrototypeOf", "propertyIsEnumerable", "toString",
    "valueOf", "toLocaleString", "__proto__", "__defineGetter__", "__defineSetter__",
    "__lookupGetter__", "__lookupSetter__"}

  const DefaultName: string := "Screen 1"

  /** The collection a first run starts with. */
  const Default: Screens := Screens([DefaultName], map[DefaultName := []])

  /** The two storage entries: `screens` (read back through JSON) and `activeScreen`. */
  datatype Store = Store(screens: Option<Screens>, active: Option<string>)
}
