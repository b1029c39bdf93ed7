/** The settings page: a record of blog settings edited field by field, with an unsaved-changes
    flag, saved under the `blogSettings` slot of `localStorage`, reset to the defaults or replaced
    by an imported file merged over the defaults. */
module Settings {
  import opened Lists
  import opened Storage

  /** A settings field's value as `JSON.parse` gives it back. */
  datatype Value = Text(s: string) | Number(n: int) | Flag(b: bool) | Null

  /** The settings record: field name to value. Whatever `JSON.parse` returns is kept as it is, so
      a record may lack fields or carry extra ones. */
  type Record = map<string, Value>

  const StorageKey: string := "blogSettings"

  /** `defaultSettings`. */
  function Defaults(): Record
  {
    map[
      "siteName" := Text("My Blog CMS"),
      "siteDescription" := Text("A professional blog " + "content management system"),
      "siteUrl" := Text("https://myblog.com"),
      "adminEmail" := Text("admin@myblog.com"),
      "postsPerPage" := Number(10),
      "allowComments" := Flag(true),
      "moderateComments" := Flag(true),
      "authorName" := Text("Oussama"),
      "authorBio" := Text("Passionate blogger " + "and content creator"),
      "authorEmail" := Text("oussama@myblog.com"),
      "metaTitle" := Text("My Blog CMS - Professional " + "Blogging Platform"),
      "metaDescription" := Text("Discover amazing content on our " + "professional blogging platform"),
      "seoKeywords" := Text("blog, cms, content, " + "writing, articles"),
      "theme" := Text("light"),
      "primaryColor" := Text("#3b82f6"),
      "emailNotifications" := Flag(true),
      "commentNotifications" := Flag(true),
      "enableTwoFactor" := Flag(false),
      "sessionTimeout" := Number(60)
    ]
  }

  /** JavaScript truthiness of a field; a missing field reads as `undefined`, which is falsy. */
  predicate Truthy(settings: Record, key: string)
  {
    key in settings &&
    match settings[key]
    case Text(s) => s != []
    case Number(n) => n != 0
    case Flag(b) => b
    case Null => false
  }

  /** `{ ...defaultSettings, ...importedSettings }`: every imported field, and the defaults for
      the fields the file lacks. */
  function Merged(imported: Record): (r: Record)
    ensures r.Keys == Defaults().Keys + imported.Keys
    ensures forall k :: k in imported ==> r[k] == imported[k]
    ensures forall k :: k in Defaults() && k !in imported ==> r[k] == Defaults()[k]
  {
    Defaults() + imported
  }

  /** Importing a record that has every default field gives that record back: an exported file
      imports to the settings it was exported from. */
  lemma ImportOfComplete(s: Record)
    requires Defaults().Keys <= s.Keys
    ensures Merged(s) == s
  {
  }

  /** The mount-time load: a stored record replaces the current one wholesale, with no merge; an
      absent key, the empty string or unparsable text leave it as it is. */
  function Loaded(current: Record, slots: Slots<Record>): (r: Record)
    ensures StorageKey in slots && slots[StorageKey].Json? ==> r == slots[StorageKey].value
    ensures StorageKey !in slots || !slots[StorageKey].Json? ==> r == current
  {
    if StorageKey in slots && slots[StorageKey].Json? then slots[StorageKey].value else current
  }

  /** Loading what a successful save wrote gives the saved record back, whatever was current. */
  lemma LoadAfterSave(slots: Slots<Record>, saved: Record, current: Record)
    ensures Loaded(current, Save(true, slots, StorageKey, saved)) == saved
  {
  }

  /** The comment-moderation switch is disabled while comments are not allowed. */
  predicate ModerationDisabled(settings: Record)
  {
    !Truthy(settings, "allowComments")
  }

  /** With the defaults, comments are allowed and the moderation switch is enabled. */
  lemma DefaultsAllowModeration()
    ensures Truthy(Defaults(), "allowComments") && !ModerationDisabled(Defaults())
    ensures Truthy(Defaults(), "moderateComments")
  {
    var d := Defaults();
    assert d["allowComments"] == Flag(true);
    assert d["moderateComments"] == Flag(true);
  }

  /** A record loaded wholesale may lack `allowComments`: the switch is then disabled. */
  lemma MissingAllowDisablesModeration(settings: Record)
    requires "allowComments" !in settings
    ensures ModerationDisabled(settings)
  {
  }

  /** The settings page's state and the `localStorage` slots it reads and writes. */
  class SettingsPanel {
    var settings: Record
    var hasChanges: bool
    var isSaving: bool
    var slots: Slots<Record>

    /** `saveSettings` runs to its end without yielding, so no render ever sees it saving. */
    predicate Valid()
      reads this
    {
      !isSaving
    }

    /** The Save button is enabled when nothing is being saved and something changed. */
    predicate SaveEnabled()
      reads this
    {
      !isSaving && hasChanges
    }

    /** Mounting: the defaults, then the load effect. */
    constructor (stored: Slots<Record>)
      ensures settings == Loaded(Defaults(), stored) && slots == stored
      ensures !hasChanges && Valid()
    {
      settings := Loaded(Defaults(), stored);
      slots := stored;
      hasChanges := false;
      isSaving := false;
    }

    /** `updateSetting`: exactly one field changes, and the page has unsaved changes. */
    method UpdateSetting(key: string, value: Value)
      modifies this
      ensures settings == old(settings)[key := value]
      ensures forall k :: k != key ==> (k in settings <==> k in old(settings)) && (k in settings ==> settings[k] == old(settings)[k])
      ensures hasChanges && slots == old(slots) && isSaving == old(isSaving)
      ensures old(Valid()) ==> Valid() && SaveEnabled()
    {
      settings := settings[key := value];
      hasChanges := true;
    }

    /** A switch: the field becomes the negation of its truthiness. */
    method Toggle(key: string)
      modifies this
      ensures settings == old(settings)[key := Flag(!Truthy(old(settings), key))]
      ensures Truthy(settings, key) <==> !Truthy(old(settings), key)
      ensures hasChanges && slots == old(slots) && isSaving == old(isSaving)
    {
      UpdateSetting(key, Flag(!Truthy(settings, key)));
    }

    /** `saveSettings`; `writeOk` says whether `setItem` succeeded. A failed write keeps the
        unsaved-changes flag; either way saving ends. */
    method SaveSettings(writeOk: bool)
      modifies this
      ensures settings == old(settings) && !isSaving && Valid()
      ensures writeOk ==> slots == Save(true, old(slots), StorageKey, settings) && !hasChanges
      ensures !writeOk ==> slots == old(slots) && hasChanges == old(hasChanges)
    {
      isSaving := true;
      if writeOk {
        slots := Save(true, slots, StorageKey, settings);
        hasChanges := false;
      }
      isSaving := false;
    }

    /** `resetSettings`: the defaults, flagged as a change even when nothing differed. */
    method ResetSettings()
      modifies this
      ensures settings == Defaults() && hasChanges
      ensures slots == old(slots) && isSaving == old(isSaving)
    {
      settings := Defaults();
      hasChanges := true;
    }

    /** `importSettings` once the file is read: `None` stands for no file or a file `JSON.parse`
        rejects, which change nothing. */
    method ImportSettings(imported: Option<Record>)
      modifies this
      ensures imported.None? ==> settings == old(settings) && hasChanges == old(hasChanges)
      ensures imported.Some? ==> settings == Merged(imported.value) && hasChanges
      ensures slots == old(slots) && isSaving == old(isSaving)
    {
      if imported.Some? {
        settings := Merged(imported.value);
        hasChanges := true;
      }
    }
  }
}
