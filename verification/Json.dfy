/** JSON values, and the recursive removal of cache markers by which a transcript is cleaned. */
module Json {
  datatype Json =
    | Null
    | Bool(b: bool)
    | Number(n: int)
    | Str(s: string)
    | Arr(items: seq<Json>)
    | Obj(fields: map<string, Json>)

  const MARKER := "cache_control"

  /** `_clean` */
  function Clean(j: Json): Json {
    match j
    case Arr(items) => Arr(seq(|items|, i requires 0 <= i < |items| => Clean(items[i])))
    case Obj(fields) => Obj(map k | k in fields && k != MARKER :: Clean(fields[k]))
    case _ => j
  }

  /** No object anywhere inside has the marker's key. */
  predicate NoMarker(j: Json) {
    match j
    case Arr(items) => forall i :: 0 <= i < |items| ==> NoMarker(items[i])
    case Obj(fields) => MARKER !in fields && forall k :: k in fields ==> NoMarker(fields[k])
    case _ => true
  }

  /** Cleaning leaves no marker behind. */
  lemma {:induction false} CleanHasNoMarker(j: Json)
    ensures NoMarker(Clean(j))
  {
    match j
    case Arr(items) =>
      forall i | 0 <= i < |items| { CleanHasNoMarker(items[i]); }
    case Obj(fields) =>
      forall k | k in fields { CleanHasNoMarker(fields[k]); }
    case _ =>
  }

  /** Cleaning changes nothing exactly when there is no marker to remove. */
  lemma {:induction false} CleanIsIdentityIff(j: Json)
    ensures Clean(j) == j <==> NoMarker(j)
  {
    match j
    case Arr(items) =>
      forall i | 0 <= i < |items| ensures Clean(items[i]) == items[i] <==> NoMarker(items[i]) {
        CleanIsIdentityIff(items[i]);
      }
      assert forall i :: 0 <= i < |items| ==> Clean(j).items[i] == Clean(items[i]);
    case Obj(fields) =>
      forall k | k in fields ensures Clean(fields[k]) == fields[k] <==> NoMarker(fields[k]) {
        CleanIsIdentityIff(fields[k]);
      }
      assert forall k :: k in Clean(j).fields ==> Clean(j).fields[k] == Clean(fields[k]);
    case _ =>
  }
}
