/** Parsed JSON values, as `json.load` hands them to the installer. */
module JsonValue {

  /** A JSON value. The installer never computes with numbers, so a number is kept as an
      uninterpreted text; the int/float conversion `json.load` applies and the form `json.dump`
      writes back (`1.50` read and written as `1.5`) are not modelled. */
  datatype Json =
    | JNull
    | JBool(b: bool)
    | JNumber(literal: string)
    | JString(s: string)
    | JArray(items: seq<Json>)
    | JObject(fields: map<string, Json>)

  /** A list of strings as a JSON array of strings. */
  function Strings(ss: seq<string>): (j: Json)
    ensures j.JArray? && |j.items| == |ss|
    ensures forall i :: 0 <= i < |ss| ==> j.items[i] == JString(ss[i])
  {
    JArray(seq(|ss|, i requires 0 <= i < |ss| => JString(ss[i])))
  }
}
