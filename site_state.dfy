/**
 * The maintenance middleware and the readers and writers of
 * maintenance.json and announcement.json. None stands for a file whose
 * read, parse or property access throws, which every handler here
 * catches.
 */
module SiteState {
  import opened Wrappers
  import opened JsValues

  /**
   * The parsed maintenance.json. A JSON object; or any other non-null
   * document (a number, string, boolean or array), on which reading
   * `config.maintenance` gives undefined and assigning it stores nothing.
   * A `null` document throws on the property read and so is None.
   */
  datatype Config = ConfigObject(maintenance: Value) | NotAnObject

  /** `config.maintenance` for a document that was read and parsed. */
  function FlagOf(config: Config): Value
  {
    match config
    case ConfigObject(v) => v
    case NotAnObject => Undefined
  }

  datatype Decision = Proceed | MaintenanceNotice

  /**
   * The prefixes the middleware waves through before it reads the flag.
   * Every such path begins with "/a".
   */
  predicate Bypasses(path: string)
    ensures Bypasses(path) ==> |path| >= 4 && path[0] == '/' && path[1] == 'a'
  {
    StartsWith(path, "/api") || StartsWith(path, "/admin")
  }

  /**
   * The test is on text, not on path segments: anything appended to a
   * bypassing path, such as "/apiary" or "/administrator", bypasses too.
   */
  lemma BypassesAnyExtension(path: string, rest: string)
    requires Bypasses(path)
    ensures Bypasses(path + rest)
  {
  }

  /**
   * The maintenance middleware: API and admin paths always proceed; any
   * other path gets the notice exactly when the file was read and its
   * `maintenance` property is truthy, so an unreadable or non-object file
   * leaves the site open.
   */
  function Gate(path: string, file: Option<Config>): (d: Decision)
    ensures d == MaintenanceNotice <==>
      !Bypasses(path) && file.Some? && file.value.ConfigObject? && Truthy(file.value.maintenance)
  {
    if StartsWith(path, "/api") then Proceed
    else if StartsWith(path, "/admin") then Proceed
    else
      var maintenance := match file case Some(config) => FlagOf(config) case None => Bool(false);
      if Truthy(maintenance) then MaintenanceNotice else Proceed
  }

  /**
   * GET /api/maintenance: `config.maintenance` as stored, not coerced to a
   * boolean (undefined for a non-object document), and `false` when the
   * file cannot be read.
   */
  function GetMaintenance(file: Option<Config>): (v: Value)
    ensures file.None? ==> v == Bool(false)
    ensures file.Some? && file.value.ConfigObject? ==> v == file.value.maintenance
    ensures file.Some? && file.value.NotAnObject? ==> v == Undefined
  {
    match file
    case None => Bool(false)
    case Some(config) => FlagOf(config)
  }

  /** For every path the gate filters, it blocks exactly when GET /api/maintenance reports a truthy value. */
  lemma GateAgreesWithGetMaintenance(path: string, file: Option<Config>)
    requires !Bypasses(path)
    ensures Gate(path, file) == MaintenanceNotice <==> Truthy(GetMaintenance(file))
  {
  }

  /**
   * POST /api/maintenance reads the file first and assigns
   * `config.maintenance = !!maintenance`: None (an internal error) when the
   * file cannot be read; an object gets the boolean; any other document is
   * written back unchanged.
   */
  function SetMaintenance(file: Option<Config>, requested: Value): (r: Option<Config>)
    ensures r.Some? <==> file.Some?
    ensures r.Some? && file.value.ConfigObject? ==>
      r.value.ConfigObject? && r.value.maintenance.Bool? && (r.value.maintenance.b <==> Truthy(requested))
    ensures r.Some? && file.value.NotAnObject? ==> r == file
  {
    match file
    case None => None
    case Some(ConfigObject(_)) => Some(ConfigObject(DoubleNot(requested)))
    case Some(NotAnObject) => Some(NotAnObject)
  }

  /**
   * After a successful set on an object document, GET /api/maintenance
   * reports the coerced boolean and the gate blocks the filtered paths
   * exactly when the requested value was truthy.
   */
  lemma MaintenanceRoundTrip(file: Option<Config>, requested: Value, path: string)
    requires file.Some? && file.value.ConfigObject?
    ensures GetMaintenance(SetMaintenance(file, requested)) == Bool(Truthy(requested))
    ensures !Bypasses(path) ==>
      (Gate(path, SetMaintenance(file, requested)) == MaintenanceNotice <==> Truthy(requested))
  {
  }

  /**
   * On a document that is not an object the set still succeeds, but
   * nothing is stored: GET keeps answering undefined and the gate stays
   * open whatever was requested.
   */
  lemma MaintenanceSetOnNonObjectIsLost(requested: Value, path: string)
    ensures SetMaintenance(Some(NotAnObject), requested) == Some(NotAnObject)
    ensures GetMaintenance(SetMaintenance(Some(NotAnObject), requested)) == Undefined
    ensures Gate(path, SetMaintenance(Some(NotAnObject), requested)) == Proceed
  {
  }

  /** The log message of POST /api/maintenance: ON exactly for a truthy request. */
  function MaintenanceMessage(requested: Value): (m: string)
    ensures m == "維護模式：ON" <==> Truthy(requested)
    ensures m == "維護模式：OFF" <==> !Truthy(requested)
  {
    "維護模式：" + (if Truthy(requested) then "ON" else "OFF")
  }

  /**
   * GET /api/announcement: `data.text || ""`, and "" when the file cannot
   * be read. The reply is the stored text when that is truthy and the
   * empty string in every other case.
   */
  function GetAnnouncement(text: Option<Value>): (v: Value)
    ensures text.Some? && Truthy(text.value) ==> v == text.value
    ensures !(text.Some? && Truthy(text.value)) ==> v == Text("")
  {
    match text
    case None => Text("")
    case Some(t) => Or(t, Text(""))
  }

  /** Whatever was stored or failed, GET /api/announcement answers truthy text or "". */
  lemma AnnouncementNeverFails(text: Option<Value>)
    ensures Truthy(GetAnnouncement(text)) || GetAnnouncement(text) == Text("")
  {
  }

  /**
   * POST /api/announcement writes `{ text }` without reading the file
   * first, so reading back gives what was posted when it is truthy, and
   * any posted string, "" included, comes back unchanged.
   */
  lemma AnnouncementRoundTrip(posted: Value)
    ensures GetAnnouncement(Some(posted)) == if Truthy(posted) then posted else Text("")
    ensures posted.Text? ==> GetAnnouncement(Some(posted)) == posted
  {
  }

  /**
   * `${v}` inside a template literal: a string as it is, a number as
   * decimal text that reads back to it, and the fixed words otherwise.
   */
  function TemplateText(v: Value): (t: string)
    ensures v.Text? ==> t == v.s
    ensures v.Number? ==>
      |t| >= 1 && (t[0] == '-' || IsDigit(t[0])) &&
      (forall i :: 1 <= i < |t| ==> IsDigit(t[i])) && ParseNumber(t) == v.n
    ensures v.Undefined? ==> t == "undefined"
  {
    match v
    case Undefined => "undefined"
    case Null => "null"
    case Bool(b) => if b then "true" else "false"
    case Number(n) => NumberTextRoundTrip(n); NumberText(n)
    case Text(s) => s
    case Composite => "[object Object]"
  }

  /** The log message of POST /api/announcement: the fixed prefix, then the posted value's text. */
  function AnnouncementMessage(posted: Value): (m: string)
    ensures StartsWith(m, "公告更新：") && m[|"公告更新："|..] == TemplateText(posted)
    ensures posted.Text? ==> m == "公告更新：" + posted.s
  {
    "公告更新：" + TemplateText(posted)
  }
}
