/** The `ConfigType` enum and its picocli converter. */
module ConfigTypes {
  import opened Text
  import opened Models

  datatype ConfigType = CONNECTION | DBOBJECT

  /** `Enum.name()`. */
  function Name(c: ConfigType): string {
    match c
    case CONNECTION => "CONNECTION"
    case DBOBJECT => "DBOBJECT"
  }

  /** Exceptions the parser can raise. */
  datatype Failure = IllegalState(message: string)

  datatype Result<+T> = Success(value: T) | Failed(error: Failure)

  /** `ConfigType.fromString`: an exact, case-sensitive match of the two
      lower-case spellings; anything else raises IllegalStateException. */
  function FromString(s: string): (r: Result<ConfigType>)
    ensures r == Success(CONNECTION) <==> s == "connection"
    ensures r == Success(DBOBJECT) <==> s == "dbobject"
    ensures r.Failed? <==> s != "connection" && s != "dbobject"
    ensures r.Failed? ==> r.error == IllegalState("Unexpected value: " + s)
  {
    match s
    case "connection" => Success(CONNECTION)
    case "dbobject" => Success(DBOBJECT)
    case _ => Failed(IllegalState("Unexpected value: " + s))
  }

  /** `ConfigTypeConverter.convert`: null or empty gives null, otherwise the
      lower-cased text is parsed. */
  function Convert(s: Option<string>): (r: Result<Option<ConfigType>>)
    ensures (s == None || s == Some("")) ==> r == Success(None)
    ensures s.Some? && s.value != "" ==>
      match FromString(ToLower(s.value))
      case Success(c) => r == Success(Some(c))
      case Failed(e) => r == Failed(e)
  {
    if s == None || s.value == "" then Success(None)
    else match FromString(ToLower(s.value))
      case Success(c) => Success(Some(c))
      case Failed(e) => Failed(e)
  }

  /** Converting a constant's own name gives the constant back. */
  lemma ConvertNameRoundTrip(c: ConfigType)
    ensures Convert(Some(Name(c))) == Success(Some(c))
  {
    match c
    case CONNECTION =>
      assert ToLower("CONNECTION") == "connection";
    case DBOBJECT =>
      assert ToLower("DBOBJECT") == "dbobject";
  }

  /** The converter ignores case: a text and its lower-cased form convert alike. */
  lemma ConvertIgnoresCase(s: string)
    ensures Convert(Some(s)) == Convert(Some(ToLower(s)))
  {
    ToLowerIdempotent(s);
  }

  /** The converter accepts exactly the texts whose lower-cased form is one of the two names. */
  lemma ConvertAccepts(s: string)
    requires s != ""
    ensures Convert(Some(s)).Success? <==> ToLower(s) == "connection" || ToLower(s) == "dbobject"
  {
  }

  /** `fromString` is case-sensitive: any text with an upper-case letter is
      refused. */
  lemma FromStringIsCaseSensitive(s: string)
    ensures (exists k :: 0 <= k < |s| && 'A' <= s[k] <= 'Z') ==> FromString(s).Failed?
  {
    if s == "connection" || s == "dbobject" {
      assert forall k :: 0 <= k < |s| ==> 'a' <= s[k] <= 'z';
    }
  }
}
