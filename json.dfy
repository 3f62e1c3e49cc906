/** JSON values as the whiteboard exchanges them, and the two library calls
    (JSON.parse, JSON.stringify) the frame handling relies on. */
module Json {

  datatype Option<+T> = None | Some(value: T)

  /** A value produced by JSON.parse. Numbers are kept as reals: no part of
      the whiteboard logic computes with them. */
  datatype Value =
    | Null
    | Bool(b: bool)
    | Num(n: real)
    | Str(s: string)
    | Arr(items: seq<Value>)
    | Obj(fields: map<string, Value>)

  /** JSON.parse (None when it throws) and JSON.stringify, supplied by the host. */
  datatype Codec = Codec(parse: string -> Option<Value>, stringify: Value -> string)

  /** JSON.parse gives back the value JSON.stringify wrote for `v`. The host's
      library does so for every value whose numbers are finite doubles other
      than -0; each lemma that needs it names the values it needs it for. */
  predicate RoundTrips(c: Codec, v: Value) {
    c.parse(c.stringify(v)) == Some(v)
  }

  /** JSON.parse throws on text that starts with the letter 'W', which is
      never the first character of a JSON text. */
  ghost predicate RejectsW(c: Codec) {
    forall s: string :: |s| > 0 && s[0] == 'W' ==> c.parse(s) == None
  }

  /** Position of the first occurrence of `v` in `vs`, or `|vs|`. */
  function IndexOf(vs: seq<Value>, v: Value): (i: nat)
    ensures i <= |vs|
    ensures i < |vs| <==> v in vs
    ensures i < |vs| ==> vs[i] == v
  {
    if vs == [] then 0
    else if vs[0] == v then 0
    else 1 + IndexOf(vs[1..], v)
  }

  /** The two assumptions are consistent with each other for any finite list
      of values: some codec round-trips all of them and rejects 'W' text. */
  lemma AssumptionsSatisfiable(vs: seq<Value>)
    ensures exists c :: RejectsW(c) && forall i | 0 <= i < |vs| :: RoundTrips(c, vs[i])
  {
    var c := Codec(s => if 0 < |s| <= |vs| && s[0] == '0' then Some(vs[|s| - 1]) else None,
                   v => seq(IndexOf(vs, v) + 1, _ => '0'));
    forall i | 0 <= i < |vs|
      ensures RoundTrips(c, vs[i])
    {
      assert vs[i] in vs;
    }
    assert RejectsW(c);
  }

  /** Outcome of reading a property `v.key` in JavaScript. */
  datatype Lookup = Throws | Missing | Found(v: Value)

  /** Reading property `type` or `payload` (the only ones the handler reads)
      of null throws a TypeError; any other non-object, and an object without
      the key, yields undefined. Keys such as `length` are not modelled. */
  function Member(v: Value, key: string): (r: Lookup)
    ensures r.Throws? <==> v == Null
    ensures r.Found? <==> v.Obj? && key in v.fields
    ensures r.Found? ==> r.v == v.fields[key]
  {
    match v
    case Null => Throws
    case Obj(m) => if key in m then Found(m[key]) else Missing
    case _ => Missing
  }

  /** The object literal `{ type: t }`. */
  function TypeOnly(t: string): Value {
    Obj(map["type" := Str(t)])
  }
}
