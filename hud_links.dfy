/** The link to the official HUD tenant-rights page for a state code: a fixed table
    with a fallback page. */
module HudLinks {
  import opened JsText

  const HudHome := "https://www.hud.gov/"
  const HudStatesPage := "https://www.hud.gov/states"

  /** The own properties of the `hudLinks` table. */
  const Table: map<string, string> := map["TX" := HudHome, "CA" := HudHome, "NY" := HudHome]

  /** The names every plain object inherits from `Object.prototype`; looking one of them
      up on the table yields a function (or, for `__proto__`, the prototype object). */
  const InheritedNames: set<string> := {
    "constructor", "toString", "toLocaleString", "valueOf", "hasOwnProperty",
    "isPrototypeOf", "propertyIsEnumerable", "__proto__", "__defineGetter__",
    "__defineSetter__", "__lookupGetter__", "__lookupSetter__"
  }

  /** What `hudLinks[key]` evaluates to. */
  datatype Property = Absent | Text(text: string) | NonText

  function PropertyOf(key: string): Property {
    if key in Table then Text(Table[key])
    else if key in InheritedNames then NonText
    else Absent
  }

  /** JavaScript truthiness of a property value: functions and objects are truthy, and
      so is every non-empty string. */
  predicate Truthy(p: Property) {
    p.NonText? || (p.Text? && p.text != "")
  }

  /** `hudLinks[state] || 'https://www.hud.gov/states'` as written: the table is a plain
      object literal, so an inherited name slips past the fallback. */
  function HudLinkAsWritten(state: string): (v: Property)
    ensures v.Absent? == false
    ensures state in InheritedNames ==> v.NonText?
  {
    var p := PropertyOf(state);
    if Truthy(p) then p else Text(HudStatesPage)
  }

  /** The state code "constructor" produces the `Object` constructor function, not a URL;
      React drops an `href` whose value is a function, so the panel's link would have no
      target at all. */
  lemma ConstructorIsNotALink()
    ensures HudLinkAsWritten("constructor") == NonText
  {
  }

  /** `getHUDLinkByState(state)` as evidently intended: a lookup of the table's own
      entries, falling back to the states page. */
  function GetHudLinkByState(state: string): (url: string)
    ensures state in {"TX", "CA", "NY"} ==> url == HudHome
    ensures state !in {"TX", "CA", "NY"} ==> url == HudStatesPage
    ensures url != "" && IsPrefix(HudHome, url)
  {
    if state in Table then Table[state] else HudStatesPage
  }

  /** For every state code that is not an inherited name, the code as written already
      gives the intended link. */
  lemma AsWrittenAgreesOffPrototype(state: string)
    requires state !in InheritedNames
    ensures HudLinkAsWritten(state) == Text(GetHudLinkByState(state))
  {
  }

  /** The lookup is case-sensitive: a lower-case code falls back. */
  lemma LookupIsCaseSensitive()
    ensures GetHudLinkByState("tx") == HudStatesPage
    ensures GetHudLinkByState("TX") == HudHome
  {
  }
}
