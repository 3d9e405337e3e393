/** Decoded JSON documents. */
module JsonValues {
  import opened Wrappers

  datatype Json =
    | JNull
    | JBool(flag: bool)
    | JNumber(literal: string)
    | JString(text: string)
    | JArray(items: seq<Json>)
    | JObject(fields: map<string, Json>)

  /** SQLite's json_extract(doc, '$.name'): SQL NULL for a missing member and for JSON null. */
  function Extract(doc: Json, name: string): Option<Json> {
    if doc.JObject? && name in doc.fields && doc.fields[name] != JNull then Some(doc.fields[name]) else None
  }

  /** COALESCE(json_extract(...), ''). */
  function ExtractOrEmpty(doc: Json, name: string): Json {
    match Extract(doc, name)
    case Some(v) => v
    case None => JString("")
  }
}
