/** Parsed JSON documents, and the readings the backends share. */
module JsonValues {

  /** Numbers written as plain integers stay apart from decimals; the parser's NaN and infinities are one value. */
  datatype Json =
    | JNull
    | JBool(b: bool)
    | JInt(n: int)
    | JReal(r: real)
    | JNonFinite
    | JStr(s: string)
    | JArr(items: seq<Json>)
    | JObj(members: map<string, Json>)

  /** The member of an object, where an absent one reads as null. */
  function Get(j: Json, key: string): Json {
    if j.JObj? && key in j.members then j.members[key] else JNull
  }

  predicate Truthy(j: Json) {
    match j
    case JNull => false
    case JBool(b) => b
    case JInt(n) => n != 0
    case JReal(r) => r != 0.0
    case JNonFinite => true
    case JStr(s) => s != ""
    case JArr(items) => items != []
    case JObj(members) => members.Keys != {}
  }

  /** Sixty-four lower-case hex digits. */
  predicate TxidHex(j: Json) {
    j.JStr? && |j.s| == 64 && forall i :: 0 <= i < 64 ==> '0' <= j.s[i] <= '9' || 'a' <= j.s[i] <= 'f'
  }
}
