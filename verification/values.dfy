/** Swift's `Any`, as far as the client looks into it. */
module Values {

  import opened Basics

  /**
   * A dynamically typed value: a string, a `Data`, an array of values, or
   * anything else, carried only with the description Swift prints for it.
   */
  datatype AnyValue = Str(s: string) | Bytes(d: Data) | Array(items: seq<AnyValue>) | Opaque(description: string)

  /**
   * `String(describing:)` and string interpolation `"\(v)"`: a string is
   * printed as itself, an opaque value as its description; how Foundation
   * prints a `Data` or an array is the given `describeOther`.
   */
  function Describe(v: AnyValue, describeOther: AnyValue -> string): string
  {
    match v
    case Str(s) => s
    case Opaque(d) => d
    case _ => describeOther(v)
  }

  /** `v as? [AnyObject]`: any array. */
  function AsArray(v: AnyValue): (r: Option<seq<AnyValue>>)
    ensures r.Some? <==> v.Array?
    ensures r.Some? ==> r.value == v.items
  {
    if v.Array? then Some(v.items) else None
  }

  /** `v as? [Data]`: an array whose every element is a `Data`. */
  function AsDataList(v: AnyValue): (r: Option<seq<Data>>)
    ensures r.Some? <==> v.Array? && forall i :: 0 <= i < |v.items| ==> v.items[i].Bytes?
    ensures r.Some? ==> |r.value| == |v.items| && forall i :: 0 <= i < |r.value| ==> v.items[i] == Bytes(r.value[i])
  {
    if v.Array? && forall i :: 0 <= i < |v.items| ==> v.items[i].Bytes?
    then Some(seq(|v.items|, i requires 0 <= i < |v.items| => v.items[i].d))
    else None
  }

  /** `v as? [String]`: an array whose every element is a string. */
  function AsStringList(v: AnyValue): (r: Option<seq<string>>)
    ensures r.Some? <==> v.Array? && forall i :: 0 <= i < |v.items| ==> v.items[i].Str?
    ensures r.Some? ==> |r.value| == |v.items| && forall i :: 0 <= i < |r.value| ==> v.items[i] == Str(r.value[i])
  {
    if v.Array? && forall i :: 0 <= i < |v.items| ==> v.items[i].Str?
    then Some(seq(|v.items|, i requires 0 <= i < |v.items| => v.items[i].s))
    else None
  }
}
