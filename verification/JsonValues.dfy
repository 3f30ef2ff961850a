/** JSON values, the ordered map behind objects, and the code's own equality. */
module JsonValues {
  import opened Bytes
  import opened JsonNumbers

  datatype Json =
    | Null
    | Boolean(b: bool)
    | IntegerNumber(i: int)
    | UnsignedNumber(u: nat)
    | FloatNumber(text: Str)
    | String(s: Str)
    | Array(elements: seq<Json>)
    | Object(members: seq<Member>)

  datatype Member = Member(key: Str, value: Json)

  /** std::map: the keys are strictly increasing. */
  predicate Sorted(ms: seq<Member>) {
    forall i, j :: 0 <= i < j < |ms| ==> Less(ms[i].key, ms[j].key)
  }

  /** std::map's operator[] followed by an assignment. */
  function Put(ms: seq<Member>, key: Str, value: Json): (r: seq<Member>)
    ensures |r| > 0
  {
    if ms == [] then [Member(key, value)]
    else if ms[0].key == key then [Member(key, value)] + ms[1..]
    else if Less(key, ms[0].key) then [Member(key, value)] + ms
    else [ms[0]] + Put(ms[1..], key, value)
  }

  lemma {:induction false} PutLast(ms: seq<Member>, key: Str, value: Json)
    requires forall i :: 0 <= i < |ms| ==> Less(ms[i].key, key)
    ensures Put(ms, key, value) == ms + [Member(key, value)]
  {
    if ms != [] {
      LessTotal(ms[0].key, key);
      PutLast(ms[1..], key, value);
    }
  }

  /** Float-free, its integers in range, its objects ordered. */
  predicate Printable(v: Json) {
    match v
    case IntegerNumber(i) => 0 - TWO_TO_63 <= i < TWO_TO_63
    case UnsignedNumber(u) => u < TWO_TO_64
    case FloatNumber(_) => false
    case Array(a) => forall k :: 0 <= k < |a| ==> Printable(a[k])
    case Object(ms) => Sorted(ms) && forall k :: 0 <= k < |ms| ==> Printable(ms[k].value)
    case _ => true
  }

  /** The friend operator== of basic_json; floats are compared by their text. */
  predicate Equal(v: Json, w: Json)
    decreases v
  {
    match (v, w)
    case (Array(a), Array(c)) => |a| == |c| && forall k :: 0 <= k < |a| ==> Equal(a[k], c[k])
    case (Object(a), Object(c)) =>
      |a| == |c| && forall k :: 0 <= k < |a| ==> a[k].key == c[k].key && Equal(a[k].value, c[k].value)
    case (UnsignedNumber(u), IntegerNumber(i)) => ToInt64(u) == i
    case (IntegerNumber(i), UnsignedNumber(u)) => i == ToInt64(u)
    case _ => v == w
  }
}
