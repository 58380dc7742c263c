/**
 * The message renderer's pure logic: the string shown for a value, its
 * optional truncation, the choice between a JSON block, rendered markdown
 * and plain text, and the one-line summary of a tool call.
 *
 * `JSON.stringify(v, null, 2)` is the parameter `pretty`; the markdown
 * heuristic (eleven regular expressions) is the parameter `isMarkdown`.
 * Lengths are counted in characters.
 */
module MessageContentModel {

  import opened Optional
  import opened Text
  import opened JsValues

  /** The `maxLength` used when the caller gives none. */
  const DEFAULT_MAX_LENGTH: int := 200

  /**
   * `getStringContent`: a falsy value (the empty string included) becomes
   * "No content available"; a string is shown as it is, an array or object
   * as indented JSON, and a number or `true` through `String`.
   */
  function StringContent(content: JsValue, pretty: JsValue -> string): (r: string)
    ensures !Truthy(content) ==> r == "No content available"
    ensures Truthy(content) && content.Str? ==> r == content.s
    ensures IsObject(content) ==> r == pretty(content)
    ensures content.Num? && content.n != 0 ==> r == IntToString(content.n)
    ensures content == Bool(true) ==> r == "true"
  {
    if !Truthy(content) then "No content available"
    else if content.Str? then content.s
    else if IsObject(content) then pretty(content)
    else ToStr(content)
  }

  /** The text is never empty unless an object's JSON is. */
  lemma StringContentNonEmpty(content: JsValue, pretty: JsValue -> string)
    requires !IsObject(content) || pretty(content) != ""
    ensures StringContent(content, pretty) != ""
  {
  }

  /**
   * `finalContent`: with `truncate`, a text longer than `maxLength` is cut to
   * its first `maxLength` characters (none when `maxLength` is negative, as
   * `substring` clamps) and "..." is appended.
   */
  function FinalContent(text: string, truncate: bool, maxLength: int): (r: string)
    ensures !truncate || |text| <= maxLength ==> r == text
    ensures truncate && |text| > maxLength ==>
      && |r| == (if maxLength < 0 then 0 else maxLength) + 3
      && r == text[..|r| - 3] + "..."
  {
    if truncate && |text| > maxLength then Prefix(text, if maxLength < 0 then 0 else maxLength) + "..."
    else text
  }

  /** With truncation on and a non-negative limit, at most the limit and the ellipsis are shown; a prefix of the text is kept. */
  lemma FinalContentBound(text: string, maxLength: nat)
    ensures |FinalContent(text, true, maxLength)| <= maxLength + 3
    ensures var r := FinalContent(text, true, maxLength);
      r == text || (|r| >= 3 && r[..|r| - 3] <= text)
  {
  }

  /** Under the default limit, a truncated text shows at most 200 characters and the ellipsis. */
  lemma DefaultLimitBound(text: string)
    ensures |FinalContent(text, true, DEFAULT_MAX_LENGTH)| <= DEFAULT_MAX_LENGTH + 3
    ensures |text| <= DEFAULT_MAX_LENGTH ==> FinalContent(text, true, DEFAULT_MAX_LENGTH) == text
  {
    FinalContentBound(text, DEFAULT_MAX_LENGTH);
  }

  /** Truncating what is already within the limit changes nothing. */
  lemma FinalContentShort(text: string, maxLength: int)
    requires |text| <= maxLength
    ensures FinalContent(text, true, maxLength) == text
  {
  }

  datatype Rendering = JsonBlock(text: string) | Markdown(text: string) | PlainText(text: string)

  /** The component's output: the JSON block for arrays and objects, else markdown or plain text. */
  function Render(content: JsValue, truncate: bool, maxLength: int,
                  pretty: JsValue -> string, isMarkdown: string -> bool): (r: Rendering)
    ensures r.JsonBlock? <==> IsObject(content)
    ensures r.text == FinalContent(StringContent(content, pretty), truncate, maxLength)
    ensures r.Markdown? <==> !IsObject(content) && isMarkdown(r.text)
  {
    var finalContent := FinalContent(StringContent(content, pretty), truncate, maxLength);
    if IsObject(content) then JsonBlock(finalContent)
    else if isMarkdown(finalContent) then Markdown(finalContent)
    else PlainText(finalContent)
  }

  /** A JSON block always shows the object's JSON, cut only when truncation asks for it. */
  lemma JsonBlockShowsJson(content: JsValue, maxLength: int, pretty: JsValue -> string, isMarkdown: string -> bool)
    requires IsObject(content)
    ensures Render(content, false, maxLength, pretty, isMarkdown) == JsonBlock(pretty(content))
  {
  }

  // ------------------------------------------------------------ tool summary

  /** The tools that have a description of their own, with the text before the parameter and the parameter it shows. */
  function KnownTool(name: string): Option<(string, string)> {
    if name == "Read" then Some(("Read file: ", "file_path"))
    else if name == "Edit" then Some(("Edit file: ", "file_path"))
    else if name == "Write" then Some(("Write file: ", "file_path"))
    else if name == "Bash" then Some(("Run command: ", "command"))
    else if name == "Grep" then Some(("Search for: \"", "pattern"))
    else if name == "Glob" then Some(("Find files: ", "pattern"))
    else if name == "LS" then Some(("List directory: ", "path"))
    else if name == "Task" then Some(("Task: ", "description"))
    else if name == "WebFetch" then Some(("Fetch URL: ", "url"))
    else if name == "WebSearch" then Some(("Search web: ", "query"))
    else None
  }

  /**
   * `getToolDescription`: the description of a known tool with its
   * parameter interpolated, or "Used tool: <name>". `None` when reading the
   * parameter throws, which only a nullish parameter object makes happen.
   */
  function ToolDescription(name: string, parameters: JsValue): (r: Option<string>)
    ensures KnownTool(name).None? ==> r == Some("Used tool: " + name)
    ensures r.None? <==> KnownTool(name).Some? && IsNullish(parameters)
  {
    match KnownTool(name)
    case None => Some("Used tool: " + name)
    case Some((prefix, key)) =>
      match Member(parameters, key)
      case None => None
      case Some(v) => Some(prefix + ToStr(v) + (if name == "Grep" then "\"" else ""))
  }

  /**
   * A known tool's summary names what it acted on: the tool's own prefix,
   * the parameter's string value, and for Grep a closing quote.
   */
  lemma ToolDescriptionShowsParameter(name: string, parameters: map<string, JsValue>, value: string)
    requires KnownTool(name).Some? && KnownTool(name).value.1 in parameters
    requires parameters[KnownTool(name).value.1] == Str(value)
    ensures ToolDescription(name, Obj(parameters)).Some?
    ensures var d := ToolDescription(name, Obj(parameters)).value;
      var prefix := KnownTool(name).value.0;
      d == prefix + value + (if name == "Grep" then "\"" else "")
  {
  }

  /** A known tool's summary never reads as the fallback: the prefixes differ from "Used tool: ". */
  lemma ToolDescriptionDistinguishesFallback(name: string, parameters: JsValue)
    requires KnownTool(name).Some? && !IsNullish(parameters)
    ensures !StartsWith(ToolDescription(name, parameters).value, "Used tool: ")
  {
    var d := ToolDescription(name, parameters).value;
    var prefix := KnownTool(name).value.0;
    assert d[..|prefix|] == prefix;
    assert d[0] == prefix[0];
  }
}
