/** The Kubernetes objects the sharing controllers read and write, cut down to the fields their code looks at. */
module Kube {
  datatype Option<+T> = None | Some(value: T) {
    function GetOr(default: T): T {
      if Some? then value else default
    }
  }

  /** One byte of a Go string. */
  type Byte = x: int | 0 <= x < 256
  type Bytes = seq<Byte>

  /** types.NamespacedName: also the identity of a Secret, a SecretExport and a SecretImport. */
  datatype Key = Key(ns: string, name: string)

  function NsName(k: Key): string {
    k.ns + "/" + k.name
  }

  /** "ns/name" identifies the object, because a Kubernetes namespace name holds no slash. */
  lemma NsNameInjective(a: Key, b: Key)
    requires '/' !in a.ns && '/' !in b.ns
    requires NsName(a) == NsName(b)
    ensures a == b
  {
    var s := NsName(a);
    assert s[|a.ns|] == '/' && s[|b.ns|] == '/';
    assert a.ns == s[..|a.ns|] && b.ns == s[..|b.ns|];
    assert a.name == s[|a.ns| + 1..] && b.name == s[|b.ns| + 1..];
  }

  function Lookup<K, V>(m: map<K, V>, k: K): Option<V> {
    if k in m then Some(m[k]) else None
  }

  /** A map entry set, or deleted when there is no value for it. */
  function SetOrDelete<K(!new), V(!new)>(m: map<K, V>, k: K, v: Option<V>): (r: map<K, V>)
    ensures Lookup(r, k) == v
    ensures forall j :: j != k ==> Lookup(r, j) == Lookup(m, j)
  {
    match v
    case None => m - {k}
    case Some(x) => m[k := x]
  }

  /** The API server defaults an empty type, so a stored Secret always has one. */
  type SecretType = s: string | s != "" witness "Opaque"

  datatype Meta = Meta(labels: map<string, string>, annotations: map<string, string>, owner: Option<Key>)

  datatype Secret = Secret(key: Key, rv: nat, typ: SecretType, data: map<string, Bytes>, meta: Meta)

  /** A float64 as the weight annotation can hold it: ParseFloat accepts "NaN" and "Inf". */
  datatype Float = NaN | NegInf | Finite(r: real) | PosInf

  datatype Operator = In | NotIn | Exists | DoesNotExist | Unknown

  datatype Selector = Selector(key: string, operator: Operator, values: seq<string>)

  datatype Spec = Spec(toNamespace: string, toNamespaces: seq<string>, selectors: seq<Selector>)

  /** What the jsonpath engine yields for each selector key on one namespace object; no value when the key does not
      parse. A field the object lacks prints as the empty string. */
  type Fields = map<string, Option<string>>

  function FieldValue(fields: Fields, key: string): Option<string> {
    if key in fields then fields[key] else Some("")
  }

  /** Whether a key parses does not depend on the object. */
  ghost predicate SameKeys(a: Fields, b: Fields) {
    forall key :: FieldValue(a, key).None? <==> FieldValue(b, key).None?
  }
}
