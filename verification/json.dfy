/**
 The record's content: a JSON-like tree whose top level maps string keys to
 values, and the three shapes of write a caller can apply to it. Paths are
 single top-level keys.
 */
module Json {

  datatype Json =
    | JNull
    | JBool(b: bool)
    | JNumber(n: int)
    | JString(s: string)
    | JArray(items: seq<Json>)
    | JObject(fields: map<string, Json>)

  /** The top level of a record's data */
  type Tree = map<string, Json>

  /** The three mutually exclusive shapes of a `set` request */
  datatype Write =
    | Update(data: Tree)               // `{ data }`: replace the whole tree
    | Patch(path: string, value: Json)  // `{ path, data }`: set one key
    | Erase(path: string)              // `{ path }`: remove one key

  /** The tree a write leaves behind when applied to `t` */
  function Apply(t: Tree, w: Write): (r: Tree)
    ensures w.Update? ==> r == w.data
    ensures w.Patch? ==> w.path in r && r[w.path] == w.value
    ensures w.Patch? ==> r.Keys == t.Keys + {w.path}
    ensures w.Erase? ==> r.Keys == t.Keys - {w.path}
    ensures !w.Update? ==> forall k :: k in t && k != w.path ==> k in r && r[k] == t[k]
  {
    match w
    case Update(d) => d
    case Patch(p, v) => t[p := v]
    case Erase(p) => t - {p}
  }

  /** The tree left by applying writes one after another */
  function ApplyAll(t: Tree, ws: seq<Write>): Tree
    decreases |ws|
  {
    if ws == [] then t else ApplyAll(Apply(t, ws[0]), ws[1..])
  }

  /** Erasing a key after patching it is the same as erasing it straight away */
  lemma EraseUndoesPatch(t: Tree, p: string, v: Json)
    ensures Apply(Apply(t, Patch(p, v)), Erase(p)) == Apply(t, Erase(p))
  {
  }

  /** Patching back the erased value restores the tree */
  lemma PatchRestoresErase(t: Tree, p: string)
    requires p in t
    ensures Apply(Apply(t, Erase(p)), Patch(p, t[p])) == t
  {
  }

  /** Repeating a patch or an erase changes nothing more */
  lemma WritesAreIdempotent(t: Tree, w: Write)
    ensures Apply(Apply(t, w), w) == Apply(t, w)
  {
  }
}
