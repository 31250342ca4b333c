/** Decoded JSON values and Python's subscript operator on them.

    A response body, once decoded by the HTTP library, is a tree of Python
    dicts, lists, strings, numbers, booleans and None. The clients read it with
    chained subscripts (`body['candidates'][0]...`), so what matters here is
    exactly which subscript succeeds and which exception a failing one raises.
 */
module JsonPath {

  /** A decoded JSON value. Objects are maps because decoding keeps one value
      per key; numbers are integers because no behaviour here depends on them. */
  datatype Json =
    | JNull
    | JBool(b: bool)
    | JNum(n: int)
    | JStr(s: string)
    | JArr(items: seq<Json>)
    | JObj(fields: map<string, Json>)

  /** One subscript: `node["name"]` or `node[i]`. */
  datatype Key = Name(name: string) | Index(i: int)

  /** The Python exceptions a subscript on decoded JSON can raise. */
  datatype PyError = KeyError | IndexError | TypeError

  datatype Lookup = Found(value: Json) | Raised(error: PyError)

  /** Python accepts `-len <= i < len` on sequences; negatives count from the end. */
  predicate InRange(i: int, len: nat) {
    -(len as int) <= i < len
  }

  function Normalize(i: int, len: nat): (k: nat)
    requires InRange(i, len)
    ensures k < len
  {
    if i < 0 then len + i else i
  }

  /** Python's `node[key]` on a decoded JSON value. */
  function Subscript(node: Json, key: Key): (r: Lookup)
    // only dicts, lists and strings are subscriptable, lists and strings only by integers
    ensures r == Raised(TypeError) <==>
              !(node.JObj? || ((node.JArr? || node.JStr?) && key.Index?))
    // a dict answers exactly the keys it holds; an integer is never a key of a JSON object
    ensures node.JObj? ==>
              (r.Found? <==> key.Name? && key.name in node.fields)
              && (r.Found? ==> r.value == node.fields[key.name])
              && (r.Raised? ==> r.error == KeyError)
    // a list answers exactly the indices in range
    ensures node.JArr? && key.Index? ==>
              (r.Found? <==> InRange(key.i, |node.items|))
              && (r.Found? ==> r.value == node.items[Normalize(key.i, |node.items|)])
              && (r.Raised? ==> r.error == IndexError)
    // a string yields the one-character string at that position
    ensures node.JStr? && key.Index? ==>
              (r.Found? <==> InRange(key.i, |node.s|))
              && (r.Found? ==> r.value == JStr([node.s[Normalize(key.i, |node.s|)]]))
              && (r.Raised? ==> r.error == IndexError)
  {
    match node
    case JObj(m) =>
      if key.Name? && key.name in m then Found(m[key.name]) else Raised(KeyError)
    case JArr(xs) =>
      if !key.Index? then Raised(TypeError)
      else if InRange(key.i, |xs|) then Found(xs[Normalize(key.i, |xs|)])
      else Raised(IndexError)
    case JStr(s) =>
      if !key.Index? then Raised(TypeError)
      else if InRange(key.i, |s|) then Found(JStr([s[Normalize(key.i, |s|)]]))
      else Raised(IndexError)
    case _ => Raised(TypeError)
  }

  /** A chain of subscripts, evaluated left to right; the first failing one
      raises and the rest are never evaluated. */
  function Walk(node: Json, path: seq<Key>): (r: Lookup)
    decreases |path|
  {
    if |path| == 0 then Found(node)
    else
      match Subscript(node, path[0])
      case Found(child) => Walk(child, path[1..])
      case Raised(e) => Raised(e)
  }

  /** Walking `p + q` is walking `p`, then walking `q` from where `p` ended. */
  lemma {:induction false} WalkAppend(node: Json, p: seq<Key>, q: seq<Key>)
    ensures Walk(node, p + q) ==
              match Walk(node, p)
              case Found(mid) => Walk(mid, q)
              case Raised(e) => Raised(e)
    decreases |p|
  {
    if |p| == 0 {
      assert p + q == q;
    } else {
      assert (p + q)[0] == p[0];
      assert (p + q)[1..] == p[1..] + q;
      match Subscript(node, p[0])
      case Found(child) =>
        WalkAppend(child, p[1..], q);
      case Raised(e) =>
    }
  }

  /** Once a walk has raised, no longer path can recover: the exception is the
      same whatever follows. */
  lemma WalkRaisedIsFinal(node: Json, p: seq<Key>, q: seq<Key>)
    requires Walk(node, p).Raised?
    ensures Walk(node, p + q) == Walk(node, p)
  {
    WalkAppend(node, p, q);
  }
}
