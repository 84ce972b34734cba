/** JSON values with whole numbers. */
module JsonText {
  datatype Json =
    | JNull
    | JBool(flag: bool)
    | JNumber(number: int)
    | JString(text: string)
    | JList(items: seq<Json>)
    | JObject(fields: map<string, Json>)
}
