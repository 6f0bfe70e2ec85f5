/** Application identities: what a domain resolves to, and how one is read off
    a classification page once the page's fields have been captured. */
module Identities {
  import opened Wrappers
  import opened JsText

  type Domain = string

  /** The {app, desc} pair attached to a domain. */
  datatype Identity = Identity(app: string, desc: string)

  const UnknownApp: string := "Unknown"
  const NoDescription: string := "No description available."
  const UserDefinedDesc: string := "User-defined app/service"

  /** The fields captured from a classification page: the text of the
      application link, the description paragraph (markup removed, newlines
      turned into spaces) and the page's meta description; None where the
      page has no such field. */
  datatype PageMatches = PageMatches(appName: Option<string>, descBlock: Option<string>, metaDesc: Option<string>)

  /** The page extraction with its defaults (see `ExtractDefaults`). */
  function Extract(m: PageMatches): (id: Identity)
    ensures id.desc != ""
  {
    var app := if m.appName.Some? then Trim(m.appName.value) else UnknownApp;
    var block := if m.descBlock.Some? then Trim(m.descBlock.value) else "";
    var desc := if block != "" then block
                else if m.metaDesc.Some? then Trim(m.metaDesc.value)
                else NoDescription;
    Identity(app, if desc != "" then desc else NoDescription)
  }

  /** The defaulting of the page extraction: no application link gives
      "Unknown"; the description paragraph is preferred, then the meta
      description, and an empty result becomes "No description available.". */
  lemma ExtractDefaults(m: PageMatches)
    ensures Extract(m).app == (if m.appName.Some? then Trim(m.appName.value) else UnknownApp)
    ensures m.descBlock.Some? && Trim(m.descBlock.value) != "" ==> Extract(m).desc == Trim(m.descBlock.value)
    ensures (m.descBlock.None? || Trim(m.descBlock.value) == "") && m.metaDesc.Some? && Trim(m.metaDesc.value) != ""
            ==> Extract(m).desc == Trim(m.metaDesc.value)
    ensures (m.descBlock.None? || Trim(m.descBlock.value) == "") && (m.metaDesc.None? || Trim(m.metaDesc.value) == "")
            ==> Extract(m).desc == NoDescription
  {
  }
}
