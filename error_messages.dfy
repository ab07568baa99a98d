/** The frontend's `getApiErrorMessage`: the text shown for a failed API
    call, taken from the response's `detail`, else from the error's own
    message, else a fallback. Response bodies are JSON values. */
module ErrorMessages {

  /** A JSON value as the browser sees it (numbers restricted to integers). */
  datatype Json =
    | JNull
    | JBool(b: bool)
    | JNumber(n: int)
    | JString(s: string)
    | JArray(items: seq<Json>)
    | JObject(fields: map<string, Json>)

  /** JavaScript truthiness. */
  predicate JsTruthy(v: Json) {
    match v
    case JNull => false
    case JBool(b) => b
    case JNumber(n) => n != 0
    case JString(s) => s != ""
    case _ => true
  }

  /** The characters `String.prototype.trim` removes (white space and line
      terminators of the ECMAScript grammar). */
  predicate IsJsWhitespace(c: char) {
    c == ' ' || c == '\t' || c == '\n' || c == '\r' || c == '\U{B}' || c == '\U{C}' || c == '\U{A0}'
    || c == '\U{1680}' || ('\U{2000}' <= c <= '\U{200A}') || c == '\U{2028}' || c == '\U{2029}'
    || c == '\U{202F}' || c == '\U{205F}' || c == '\U{3000}' || c == '\U{FEFF}'
  }

  /** `s.trim()` is empty. */
  predicate Blank(s: string) {
    forall i :: 0 <= i < |s| ==> IsJsWhitespace(s[i])
  }

  function DigitChar(d: nat): char
    requires d < 10
  {
    "0123456789"[d]
  }

  function DigitsOf(n: nat): (r: string)
    ensures |r| >= 1
  {
    if n < 10 then [DigitChar(n)] else DigitsOf(n / 10) + [DigitChar(n % 10)]
  }

  /** `parts.join(sep)`. */
  function JoinWith(parts: seq<string>, sep: string): string {
    if |parts| == 0 then ""
    else if |parts| == 1 then parts[0]
    else JoinWith(parts[..|parts| - 1], sep) + sep + parts[|parts| - 1]
  }

  /** The text an array element contributes to `join`: `null` contributes
      nothing, nested arrays are joined with commas and objects print as
      "[object Object]". */
  function JoinText(v: Json): string {
    match v
    case JNull => ""
    case JBool(b) => if b then "true" else "false"
    case JNumber(n) => if n < 0 then "-" + DigitsOf(-n) else DigitsOf(n)
    case JString(s) => s
    case JArray(items) => JoinWith(seq(|items|, i requires 0 <= i < |items| => JoinText(items[i])), ",")
    case JObject(_) => "[object Object]"
  }

  /** `entry?.msg || entry`. */
  function EntryMessage(entry: Json): Json {
    if entry.JObject? && "msg" in entry.fields && JsTruthy(entry.fields["msg"]) then entry.fields["msg"] else entry
  }

  /** The texts of the entries of a list-valued `detail`. */
  function EntryTexts(items: seq<Json>): (r: seq<string>)
    ensures |r| == |items|
    ensures forall i :: 0 <= i < |items| ==> r[i] == JoinText(EntryMessage(items[i]))
  {
    seq(|items|, i requires 0 <= i < |items| => JoinText(EntryMessage(items[i])))
  }

  /** `getApiErrorMessage(error, fallback)`; `detail` is
      `error?.response?.data?.detail` and `message` is `error?.message`
      (`JNull` when absent). */
  function ApiErrorMessage(detail: Json, message: Json, fallback: string): (r: string)
    ensures detail.JString? && !Blank(detail.s) ==> r == detail.s
    ensures detail.JArray? && |detail.items| > 0 ==> r == JoinWith(EntryTexts(detail.items), ", ")
    ensures !(detail.JString? && !Blank(detail.s)) && !(detail.JArray? && |detail.items| > 0) ==>
      r == (if message.JString? && !Blank(message.s) then message.s else fallback)
  {
    if detail.JString? && !Blank(detail.s) then detail.s
    else if detail.JArray? && |detail.items| > 0 then JoinWith(EntryTexts(detail.items), ", ")
    else if message.JString? && !Blank(message.s) then message.s
    else fallback
  }

  /** A detail of only white space is ignored: the result is the one for a
      response without a detail. */
  lemma BlankDetailIgnored(detail: string, message: Json, fallback: string)
    requires Blank(detail)
    ensures ApiErrorMessage(JString(detail), message, fallback) == ApiErrorMessage(JNull, message, fallback)
  {
  }

  /** The shown text is non-blank whenever it does not come from a list
      detail and the fallback is non-blank. */
  lemma {:induction false} ShownTextNonBlank(detail: Json, message: Json, fallback: string)
    requires !Blank(fallback)
    requires !(detail.JArray? && |detail.items| > 0)
    ensures !Blank(ApiErrorMessage(detail, message, fallback))
  {
  }

  /** FastAPI's validation errors (a list of objects with a non-empty
      string `msg`) are shown as their messages joined with ", ". */
  lemma {:induction false} ValidationErrorsJoined(msgs: seq<string>)
    requires |msgs| > 0
    requires forall i :: 0 <= i < |msgs| ==> msgs[i] != ""
    ensures var detail := JArray(seq(|msgs|, i requires 0 <= i < |msgs| => JObject(map["msg" := JString(msgs[i])])));
      ApiErrorMessage(detail, JNull, "") == JoinWith(msgs, ", ")
  {
    var items := seq(|msgs|, i requires 0 <= i < |msgs| => JObject(map["msg" := JString(msgs[i])]));
    var texts := EntryTexts(items);
    forall i | 0 <= i < |msgs| ensures texts[i] == msgs[i] {
      assert EntryMessage(items[i]) == JString(msgs[i]);
    }
    assert texts == msgs;
  }

  /** A list entry that is neither an object with a message nor a string
      shows as its JavaScript text: `[null]` shows as the empty text. */
  lemma NullEntryShowsEmpty()
    ensures ApiErrorMessage(JArray([JNull]), JString("Network Error"), "Something went wrong") == ""
  {
  }
}
