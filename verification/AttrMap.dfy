/** What an attribute store means: a map from attribute numbers to non-empty strings.
    Both back ends of src/db.c are proved against these functions. */
module AttrMap {
  import opened Wrappers
  import opened Constants
  import opened AttrList

  type Text = seq<byte>

  /** A C string: no zero byte inside. */
  predicate NulFree(s: Text) {
    forall i :: 0 <= i < |s| ==> s[i] != 0
  }

  /** Setting an attribute to nothing removes it. */
  function Set<K>(m: map<K, Text>, k: K, v: Text): map<K, Text> {
    if v == [] then m - {k} else m[k := v]
  }

  function Clear<K>(m: map<K, Text>, k: K): map<K, Text> {
    m - {k}
  }

  function Get<K>(m: map<K, Text>, k: K): Option<Text> {
    if k in m then Some(m[k]) else None
  }

  /** The memory back end keeps at most one buffer's worth of text. */
  function Clip(v: Text): Text {
    if |v| >= LBUF_SIZE then v[..LBUF_SIZE - 1] else v
  }

  /** What was set last is what is read, nothing if that was the empty text, and no other attribute
      is touched. */
  lemma SetThenGet<K>(m: map<K, Text>, k: K, v: Text, j: K)
    ensures Get(Set(m, k, v), j) == if j != k then Get(m, j) else if v == [] then None else Some(v)
    ensures Get(Clear(m, k), j) == if j != k then Get(m, j) else None
  {
  }

  /** As much of a text as a buffer holds in front of its zero byte. */
  lemma ClipKeepsFront(v: Text)
    ensures Clip(v) <= v && |Clip(v)| == if |v| < 8000 then |v| else 7999
  {
  }
}
